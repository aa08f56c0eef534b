/// What one run of index.js does, stated about its planned run and the run that
/// actually happens under a fault.
module SnapitJsProps {
  import opened JsString
  import opened Effects
  import opened NewTags
  import opened SnapitJs

  /** Every check before the release passes: the payload is usable, the description
      mentions the command, the actor may write and the pull request is not from a fork. */
  predicate Cleared(w: World) {
    && PayloadUsable(w.payload)
    && Mentioned(w.payload.pullRequest.value.body)
    && Privileged(w.permissionOf(w.actor))
    && w.headRepoOf(w.issueNumber) == Some(w.payload.repository.value.fullName)
  }

  function EyesOf(w: World): Effect
    requires PayloadUsable(w.payload)
  {
    React(w.repo, w.payload.comment.value.id, Eyes)
  }

  // ---------------------------------------------------------------------------
  // The checks

  /** A payload without pull request, description, comment or repository ends the run
      quietly and successfully before anything is done, whatever the outside world does. */
  lemma SilentUnlessUsable(w: World)
    ensures !PayloadUsable(w.payload) ==> Abort(Plan(w), w.fault) == Trace([], Success)
  {
  }

  /** With a usable payload, the run does anything at all exactly when the description
      mentions the command; otherwise it ends quietly. */
  lemma TriggerFilter(w: World)
    requires PayloadUsable(w.payload)
    ensures Plan(w).effects != [] <==> Mentioned(w.payload.pullRequest.value.body)
    ensures !Mentioned(w.payload.pullRequest.value.body) ==> Plan(w) == Trace([], Success)
    ensures Mentioned(w.payload.pullRequest.value.body) ==> Plan(w).effects[0] == EyesOf(w)
  {
  }

  /** The description mentions the command exactly when the command occurs in it somewhere,
      at any position and with anything around it. */
  lemma MentionedAnywhere(body: string)
    ensures Mentioned(body) <==> exists i: nat :: OccursAt(body, i, Command)
  {
    if Mentioned(body) {
      var i := IndexOf(body, Command).value;
      assert OccursAt(body, i, Command);
    }
  }

  /** An actor without write or admin permission sees the eyes reaction and one comment
      saying why, and the run fails with that same message; nothing else happens. */
  lemma PermissionGate(w: World)
    requires PayloadUsable(w.payload) && Mentioned(w.payload.pullRequest.value.body)
    ensures !Privileged(w.permissionOf(w.actor)) <==>
              Plan(w) == Trace([EyesOf(w), Comment(w.repo, w.issueNumber, PermissionDenied)], Failed(PermissionDenied))
  {
  }

  /** Once the actor may write: a pull request whose head repository is gone ends the run
      successfully right after the eyes reaction, and one from a fork gets one comment
      saying so and fails with that message. */
  lemma HeadRepoGate(w: World)
    requires PayloadUsable(w.payload) && Mentioned(w.payload.pullRequest.value.body) && Privileged(w.permissionOf(w.actor))
    ensures w.headRepoOf(w.issueNumber).None? <==> Plan(w) == Trace([EyesOf(w)], Success)
    ensures (w.headRepoOf(w.issueNumber).Some? && w.headRepoOf(w.issueNumber).value != w.payload.repository.value.fullName) <==>
              Plan(w) == Trace([EyesOf(w), Comment(w.repo, w.issueNumber, ForkUnsupported)], Failed(ForkUnsupported))
  {
  }

  /** No command runs unless every check passed, even when some call is rejected. */
  lemma ExecOnlyWhenCleared(w: World)
    ensures forall k :: 0 <= k < |Abort(Plan(w), w.fault).effects| && Abort(Plan(w), w.fault).effects[k].Exec? ==> Cleared(w)
  {
    var r := Abort(Plan(w), w.fault);
    forall k | 0 <= k < |r.effects| && r.effects[k].Exec?
      ensures Cleared(w)
    {
      assert r.effects[k] == Plan(w).effects[k];
    }
  }

  /** Without a rejected call, the run fails only at the permission or the fork check,
      each time with that check's message. */
  lemma FailureCauses(w: World)
    ensures Plan(w).outcome.Failed? <==>
              PayloadUsable(w.payload) && Mentioned(w.payload.pullRequest.value.body)
              && (!Privileged(w.permissionOf(w.actor))
                  || (w.headRepoOf(w.issueNumber).Some? && w.headRepoOf(w.issueNumber).value != w.payload.repository.value.fullName))
    ensures Plan(w).outcome.Failed? ==>
              Plan(w).outcome.message == PermissionDenied || Plan(w).outcome.message == ForkUnsupported
  {
  }

  // ---------------------------------------------------------------------------
  // The release

  /** Once cleared, the run is: eyes, `changeset version`, the publish script, then the
      report; and it succeeds. */
  lemma Layout(w: World)
    requires Cleared(w)
    ensures Plan(w).effects == [EyesOf(w), VersionSnapshot, PublishPackages] + Report(w).effects
    ensures Plan(w).outcome == Success
  {
  }

  /** A publish that announced no tag ends the run successfully with no comment and no
      rocket reaction. */
  lemma NoTagsQuiet(w: World)
    requires Cleared(w) && ScanTags(w.publishOutput) == []
    ensures Plan(w) == Trace([EyesOf(w), VersionSnapshot, PublishPackages], Success)
  {
    Layout(w);
    assert Report(w).effects == [];
  }

  /** A publish that announced tags is reported in one comment listing them, then
      acknowledged with the rocket reaction on the triggering comment. */
  lemma SuccessReport(w: World)
    requires Cleared(w) && ScanTags(w.publishOutput) != []
    ensures Plan(w) == Trace([EyesOf(w), VersionSnapshot, PublishPackages,
                              Comment(w.repo, w.issueNumber, SuccessComment(w.actor, ScanTags(w.publishOutput))),
                              React(w.repo, w.payload.comment.value.id, Rocket)], Success)
  {
    Layout(w);
    assert Report(w).effects == [Comment(w.repo, w.issueNumber, SuccessComment(w.actor, ScanTags(w.publishOutput))),
                                 React(w.repo, w.payload.comment.value.id, Rocket)];
  }

  // ---------------------------------------------------------------------------
  // The success comment

  /** The three lines of the install snippet for one tag. */
  function SnippetRows(tag: string): seq<string> {
    ["```sh", "npm install " + tag, "```"]
  }

  /** Groups of lines, one after the other. */
  function Flat(groups: seq<seq<string>>): seq<string> {
    if groups == [] then [] else groups[0] + Flat(groups[1..])
  }

  function Snippets(tags: seq<string>): seq<seq<string>> {
    seq(|tags|, k requires 0 <= k < |tags| => SnippetRows(tags[k]))
  }

  /** The lines of all snippets, in tag order. */
  function TagLines(tags: seq<string>): seq<string> {
    Flat(Snippets(tags))
  }

  /** A snippet is its three lines joined by line breaks. */
  lemma SnippetJoin(tag: string)
    ensures Snippet(tag) == Join(SnippetRows(tag), "\n")
  {
    assert "```sh\n" == "```sh" + "\n";
    Join3(SnippetRows(tag), "\n");
  }

  /** Texts joined by line breaks, each the lines of its group joined by line breaks, are
      all the lines joined by line breaks. */
  lemma {:induction false} JoinFlat(groups: seq<seq<string>>, texts: seq<string>)
    requires |groups| == |texts| > 0
    requires forall k :: 0 <= k < |groups| ==> groups[k] != [] && texts[k] == Join(groups[k], "\n")
    ensures Join(texts, "\n") == Join(Flat(groups), "\n")
  {
    if |groups| > 1 {
      JoinFlat(groups[1..], texts[1..]);
      assert texts == [texts[0]] + texts[1..];
      JoinCons(texts[0], texts[1..], "\n");
      assert Flat(groups) == groups[0] + Flat(groups[1..]);
      assert Flat(groups[1..]) == groups[1..][0] + Flat(groups[2..]);
      JoinAppend(groups[0], Flat(groups[1..]), "\n");
    } else {
      assert Flat(groups) == groups[0] + [];
      assert groups[0] + [] == groups[0];
    }
  }

  /** The success comment is its opening, worded in the plural exactly when there is more
      than one tag, followed by the lines of each tag's snippet in order. */
  lemma CommentBody(actor: string, tags: seq<string>)
    requires tags != []
    ensures SuccessComment(actor, tags) == Intro(actor, |tags| > 1) + Join(TagLines(tags), "\n")
  {
    var snippets := seq(|tags|, k requires 0 <= k < |tags| => Snippet(tags[k]));
    forall k | 0 <= k < |tags|
      ensures snippets[k] == Join(Snippets(tags)[k], "\n")
    {
      SnippetJoin(tags[k]);
    }
    JoinFlat(Snippets(tags), snippets);
  }

  /** The opening agrees in number with the tags: "snapshots have" exactly when more than
      one tag was published, "snapshot has" otherwise. */
  lemma PluralWording(actor: string, tags: seq<string>)
    ensures OccursAt(SuccessComment(actor, tags), |Greeting(actor)|, "s have") <==> |tags| > 1
  {
    WordingStart(|tags| > 1);
    ConcatSlice(Greeting(actor), Wording(|tags| > 1),
                Join(seq(|tags|, k requires 0 <= k < |tags| => Snippet(tags[k])), "\n"), 6);
  }

  lemma WordingStart(multiple: bool)
    ensures |Wording(multiple)| >= 6
    ensures multiple <==> Wording(multiple)[..6] == "s have"
  {
    var w := Wording(multiple);
    if multiple {
      assert w[..6] == "s have";
    } else {
      assert w[0] == ' ';
    }
  }

  /** Groups of three lines take three lines each, in order. */
  lemma {:induction false} FlatShape(groups: seq<seq<string>>)
    requires forall k :: 0 <= k < |groups| ==> |groups[k]| == 3
    ensures |Flat(groups)| == 3 * |groups|
    ensures forall k :: 0 <= k < |groups| ==> Flat(groups)[3 * k..3 * k + 3] == groups[k]
  {
    if groups != [] {
      FlatShape(groups[1..]);
      var rest := Flat(groups[1..]);
      var t := Flat(groups);
      assert t == groups[0] + rest;
      forall k | 0 <= k < |groups|
        ensures t[3 * k..3 * k + 3] == groups[k]
      {
        if k > 0 {
          assert t[3 * k..3 * k + 3] == rest[3 * (k - 1)..3 * (k - 1) + 3];
        }
      }
    }
  }

  /** Three lines per tag, in tag order: the fence, `npm install` of the tag, the fence. */
  lemma TagLinesShape(tags: seq<string>)
    ensures |TagLines(tags)| == 3 * |tags|
    ensures forall k :: 0 <= k < |tags| ==>
              TagLines(tags)[3 * k] == "```sh" && TagLines(tags)[3 * k + 1] == "npm install " + tags[k]
              && TagLines(tags)[3 * k + 2] == "```"
  {
    FlatShape(Snippets(tags));
    forall k | 0 <= k < |tags|
      ensures TagLines(tags)[3 * k] == "```sh" && TagLines(tags)[3 * k + 1] == "npm install " + tags[k]
              && TagLines(tags)[3 * k + 2] == "```"
    {
      var t := TagLines(tags);
      var block := t[3 * k..3 * k + 3];
      assert block == Snippets(tags)[k] == SnippetRows(tags[k]);
      assert t[3 * k] == block[0] && t[3 * k + 1] == block[1] && t[3 * k + 2] == block[2];
    }
  }

  /** Read back line by line, the snippet part of the comment gives exactly its lines,
      when no tag holds whitespace (which the tag scanner guarantees). */
  lemma {:induction false} SnippetLines(tags: seq<string>)
    requires tags != [] && forall k :: 0 <= k < |tags| ==> NoWs(tags[k])
    ensures Split(Join(TagLines(tags), "\n"), "\n") == TagLines(tags)
  {
    FlatShape(Snippets(tags));
    forall k | 0 <= k < |tags|
      ensures forall j :: 0 <= j < |Snippets(tags)[k]| ==> '\n' !in Snippets(tags)[k][j]
    {
      NoWsNoBreak(tags[k]);
      assert Snippets(tags)[k] == SnippetRows(tags[k]);
    }
    FlatNoBreak(Snippets(tags));
    SplitLines(TagLines(tags));
  }

  /** No line of the groups, one after the other, holds a line break when no line of
      any group does. */
  lemma {:induction false} FlatNoBreak(groups: seq<seq<string>>)
    requires forall k, j :: 0 <= k < |groups| && 0 <= j < |groups[k]| ==> '\n' !in groups[k][j]
    ensures forall j :: 0 <= j < |Flat(groups)| ==> '\n' !in Flat(groups)[j]
  {
    if groups != [] {
      FlatNoBreak(groups[1..]);
      var t := Flat(groups);
      var rest := Flat(groups[1..]);
      assert t == groups[0] + rest;
      forall j | 0 <= j < |t|
        ensures '\n' !in t[j]
      {
        if j < |groups[0]| {
          assert t[j] == groups[0][j];
        } else {
          assert t[j] == rest[j - |groups[0]|];
        }
      }
    }
  }
}
