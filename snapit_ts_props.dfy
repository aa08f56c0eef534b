/// What one run of index.ts does, stated about its planned run and the run that
/// actually happens under a fault.
module SnapitTsProps {
  import opened JsString
  import opened Effects
  import opened NewTags
  import opened SnapitTs

  /** Every check before the release passes: both tokens are set, the payload is complete,
      the comment is a command, the commenter may write and the pull request is not a fork. */
  predicate Cleared(w: World) {
    && w.githubToken != "" && w.npmToken != "" && PayloadComplete(w.payload)
    && Triggered(w.commentCommand, w.payload.comment.value.body)
    && Privileged(w.permissionOf(ContextOf(w.payload).login))
    && w.headRepoOf(ContextOf(w.payload).issue) == Some(ContextOf(w.payload).fullName)
  }

  function EyesOf(w: World): Effect
    requires PayloadComplete(w.payload)
  {
    React(ContextOf(w.payload).target, ContextOf(w.payload).commentId, Eyes)
  }

  // ---------------------------------------------------------------------------
  // The checks before any effect

  /** A missing token fails the run before anything is done, whatever the outside world does. */
  lemma TokenChecks(w: World)
    ensures w.githubToken == "" ==> Abort(Plan(w), w.fault) == Trace([], Failed(GithubTokenMissing))
    ensures w.githubToken != "" && w.npmToken == "" ==>
              Abort(Plan(w), w.fault) == Trace([], Failed(NpmTokenMissing))
  {
  }

  /** A payload without comment, repository, owner login or issue fails the run before
      anything is done. */
  lemma IncompletePayload(w: World)
    requires w.githubToken != "" && w.npmToken != ""
    ensures !PayloadComplete(w.payload) <==>
              Abort(Plan(w), w.fault) == Trace([], Failed(PayloadIncomplete))
  {
  }

  /** With tokens and a complete payload, the run does anything at all exactly when the
      comment is one of the commands; otherwise it ends quietly. */
  lemma TriggerFilter(w: World)
    requires w.githubToken != "" && w.npmToken != "" && PayloadComplete(w.payload)
    ensures Plan(w).effects != [] <==> Triggered(w.commentCommand, w.payload.comment.value.body)
    ensures !Triggered(w.commentCommand, w.payload.comment.value.body) ==> Plan(w) == Trace([], Success)
    ensures Triggered(w.commentCommand, w.payload.comment.value.body) ==> Plan(w).effects[0] == EyesOf(w)
  {
  }

  /** A comment triggers the run exactly when it is one of the comma-delimited stretches of
      the command input, character for character: nothing is trimmed or folded. */
  lemma TriggerVerbatim(commentCommand: string, body: string)
    ensures Triggered(commentCommand, body) <==> exists i: nat :: FieldAt(commentCommand, i, body, ',')
  {
    SplitFields(commentCommand, ',', body);
  }

  /** A commenter without write or admin permission sees the eyes reaction and one comment
      saying why, and the run fails with that same message; nothing else happens. */
  lemma PermissionGate(w: World)
    requires w.githubToken != "" && w.npmToken != "" && PayloadComplete(w.payload)
    requires Triggered(w.commentCommand, w.payload.comment.value.body)
    ensures !Privileged(w.permissionOf(ContextOf(w.payload).login)) <==>
              Plan(w) == Trace([EyesOf(w), Comment(ContextOf(w.payload).target, ContextOf(w.payload).issue, PermissionDenied)],
                               Failed(PermissionDenied))
  {
  }

  /** A pull request from a fork, or one whose head repository is gone, fails the run right
      after the eyes reaction: no comment and no command. */
  lemma ForkGate(w: World)
    requires w.githubToken != "" && w.npmToken != "" && PayloadComplete(w.payload)
    requires Triggered(w.commentCommand, w.payload.comment.value.body) && Privileged(w.permissionOf(ContextOf(w.payload).login))
    ensures w.headRepoOf(ContextOf(w.payload).issue).None? ==> Plan(w) == Trace([EyesOf(w)], Failed(NullHeadRepo))
    ensures w.headRepoOf(ContextOf(w.payload).issue).Some? && w.headRepoOf(ContextOf(w.payload).issue).value != ContextOf(w.payload).fullName ==>
              Plan(w) == Trace([EyesOf(w)], Failed(ForkUnsupported))
  {
  }

  /** No command runs unless every check passed, even when some call is rejected. */
  lemma ExecOnlyWhenCleared(w: World)
    ensures forall k :: 0 <= k < |Abort(Plan(w), w.fault).effects| && Abort(Plan(w), w.fault).effects[k].Exec? ==> Cleared(w)
  {
    var r := Abort(Plan(w), w.fault);
    forall k | 0 <= k < |r.effects| && r.effects[k].Exec?
      ensures Cleared(w)
    {
      assert r.effects[k] == Plan(w).effects[k];
    }
  }

  // ---------------------------------------------------------------------------
  // The release

  /** Once cleared, the run is the eyes reaction followed by what the checks lead to. */
  lemma PlanCleared(w: World)
    requires Cleared(w)
    ensures Plan(w) == Then([EyesOf(w)], Vetting(w, ContextOf(w.payload)))
  {
  }

  /** A privileged actor on a pull request from the same repository gets the release,
      then the report. */
  lemma VettingCleared(w: World, ctx: Context)
    requires Privileged(w.permissionOf(ctx.login)) && w.headRepoOf(ctx.issue) == Some(ctx.fullName)
    ensures Vetting(w, ctx) == Then(Releasing(w, ctx.issue), Report(w, ctx))
  {
  }

  /** Once cleared, the run is: eyes, the release commands, then the report. */
  lemma ClearedRun(w: World)
    requires Cleared(w)
    ensures Plan(w).effects == [EyesOf(w)] + (Releasing(w, ContextOf(w.payload).issue) + Report(w, ContextOf(w.payload)).effects)
    ensures Plan(w).outcome == Report(w, ContextOf(w.payload)).outcome
  {
    var ctx := ContextOf(w.payload);
    PlanCleared(w);
    VettingCleared(w, ctx);
  }

  /** Once cleared, the run is: eyes, the checkout calls, the install, the credential write
      and `changeset version`, the build commands, `changeset publish`, then the report. */
  lemma Layout(w: World)
    requires Cleared(w)
    ensures Plan(w).effects
            == [EyesOf(w)] + CheckoutCalls(w, ContextOf(w.payload).issue)
               + SetupCalls(w) + BuildExecs(w.buildScript) + [PublishSnapshot] + Report(w, ContextOf(w.payload)).effects
    ensures Plan(w).outcome == Report(w, ContextOf(w.payload)).outcome
  {
    ClearedRun(w);
    Regroup(EyesOf(w), CheckoutCalls(w, ContextOf(w.payload).issue), SetupCalls(w), BuildExecs(w.buildScript),
            PublishSnapshot, Report(w, ContextOf(w.payload)).effects);
  }

  lemma Regroup(e: Effect, c: seq<Effect>, s: seq<Effect>, b: seq<Effect>, p: Effect, r: seq<Effect>)
    ensures [e] + (c + s + b + [p] + r) == [e] + c + s + b + [p] + r
  {
  }

  /** The pull request is checked out first, then the branch is read; the changesets are
      reset exactly when the trimmed current branch is the release branch. */
  lemma ResetIffReleaseBranch(w: World, issue: nat)
    ensures |CheckoutCalls(w, issue)| >= 2
    ensures CheckoutCalls(w, issue)[0] == Checkout(issue) && CheckoutCalls(w, issue)[1] == BranchQuery
    ensures ChangesetReset in CheckoutCalls(w, issue) <==> Trim(w.currentBranch) == ReleaseBranch
  {
    assert ChangesetReset != Checkout(issue);
  }

  predicate IsInstall(e: Effect) {
    e == YarnInstall || e == PnpmInstall || e == NpmInstall
  }

  /** From the checkout to `changeset version`, exactly one install runs, chosen by the
      lockfiles in priority order: yarn, then pnpm, then npm. */
  lemma InstallChoice(w: World, issue: nat)
    ensures var e := CheckoutCalls(w, issue) + SetupCalls(w);
            var i := |CheckoutCalls(w, issue)|;
            && i + 3 == |e| && e[i + 2] == VersionSnapshot
            && (forall k :: 0 <= k < |e| ==> (IsInstall(e[k]) <==> k == i))
            && (w.yarnLock ==> e[i] == YarnInstall)
            && (!w.yarnLock && w.pnpmLock ==> e[i] == PnpmInstall)
            && (!w.yarnLock && !w.pnpmLock ==> e[i] == NpmInstall)
  {
    var c := CheckoutCalls(w, issue);
    var e := c + SetupCalls(w);
    forall k | 0 <= k < |e|
      ensures IsInstall(e[k]) <==> k == |c|
    {
      if k < |c| {
        assert e[k] == c[k];
      } else {
        assert e[k] == SetupCalls(w)[k - |c|];
      }
    }
  }

  /** Every call from the checkout to the publish is a command. */
  lemma ReleasingExecs(w: World, issue: nat)
    ensures forall k :: 0 <= k < |Releasing(w, issue)| ==> Releasing(w, issue)[k].Exec?
    ensures Releasing(w, issue)[|Releasing(w, issue)| - 1] == PublishSnapshot
  {
    var c := CheckoutCalls(w, issue) + SetupCalls(w);
    var b := BuildExecs(w.buildScript);
    var r := Releasing(w, issue);
    forall k | 0 <= k < |r|
      ensures r[k].Exec?
    {
      if k < |c| {
        assert r[k] == c[k];
      } else if k < |c| + |b| {
        assert r[k] == b[k - |c|];
      }
    }
  }

  /** After the publish: no tag means failure with nothing done; tags mean the success
      comment and then the rocket reaction, and success. */
  lemma ReportStage(w: World, ctx: Context)
    ensures ScanTags(w.publishOutput) == [] <==> Report(w, ctx) == Trace([], Failed(NoNewTags))
    ensures ScanTags(w.publishOutput) != [] ==>
              Report(w, ctx) == Trace([Comment(ctx.target, ctx.issue, SuccessComment(ctx.login, ScanTags(w.publishOutput))),
                                       React(ctx.target, ctx.commentId, Rocket)], Success)
  {
  }

  /** Publishing announced no tag: the run fails with the publish as its last call, and
      no comment and no rocket. */
  lemma NoTagsFails(w: World)
    requires Cleared(w) && ScanTags(w.publishOutput) == []
    ensures Plan(w).outcome == Failed(NoNewTags)
    ensures Plan(w).effects[0] == EyesOf(w)
    ensures Plan(w).effects[|Plan(w).effects| - 1] == PublishSnapshot
    ensures forall k :: 1 <= k < |Plan(w).effects| ==> Plan(w).effects[k].Exec?
  {
    var ctx := ContextOf(w.payload);
    ReleasingExecs(w, ctx.issue);
    ClearedRun(w);
    ReportStage(w, ctx);
    CommandsThen(EyesOf(w), Releasing(w, ctx.issue), []);
  }

  /** Publishing announced tags: the run succeeds, the success comment is the only comment,
      and the rocket reaction is the last call. */
  lemma SuccessReport(w: World)
    requires Cleared(w) && ScanTags(w.publishOutput) != []
    ensures var e := Plan(w).effects;
            var ctx := ContextOf(w.payload);
            && Plan(w).outcome == Success && |e| >= 3 && e[0] == EyesOf(w)
            && e[|e| - 2] == Comment(ctx.target, ctx.issue, SuccessComment(ctx.login, ScanTags(w.publishOutput)))
            && e[|e| - 1] == React(ctx.target, ctx.commentId, Rocket)
            && (forall k :: 1 <= k < |e| - 2 ==> e[k].Exec?)
  {
    var ctx := ContextOf(w.payload);
    ReleasingExecs(w, ctx.issue);
    ClearedRun(w);
    ReportStage(w, ctx);
    CommandsThen(EyesOf(w), Releasing(w, ctx.issue), Report(w, ctx).effects);
  }

  /** A first call, then commands, then the calls `tail`. */
  lemma CommandsThen(first: Effect, commands: seq<Effect>, tail: seq<Effect>)
    requires forall k :: 0 <= k < |commands| ==> commands[k].Exec?
    ensures var t := [first] + (commands + tail);
            && |t| == 1 + |commands| + |tail|
            && (forall k :: 1 <= k <= |commands| ==> t[k].Exec?)
            && (forall k :: 0 <= k < |tail| ==> t[1 + |commands| + k] == tail[k])
  {
  }

  // ---------------------------------------------------------------------------
  // The build script

  /** One `&&`-separated command as written: whitespace, the command name, each argument
      after its own run of whitespace, whitespace. */
  datatype Segment = Segment(lead: string, name: string, args: seq<Spaced>, trail: string)

  predicate SegmentOk(g: Segment) {
    && AllWs(g.lead) && AllWs(g.trail) && WellSpaced(g.name, g.args)
    && '&' !in g.name && forall k :: 0 <= k < |g.args| ==> '&' !in g.args[k].token
  }

  function SegmentText(g: Segment): string {
    g.lead + Line(g.name, g.args) + g.trail
  }

  function Texts(segments: seq<Segment>): seq<string> {
    seq(|segments|, k requires 0 <= k < |segments| => SegmentText(segments[k]))
  }

  /** The build script the segments spell out. */
  function ScriptOf(segments: seq<Segment>): string {
    Join(Texts(segments), "&&")
  }

  lemma WsAvoidsAmpersand(s: string)
    requires AllWs(s)
    ensures '&' !in s
  {
    forall k | 0 <= k < |s|
      ensures s[k] != '&'
    {
      assert IsWs(s[k]);
    }
  }

  /** The text of a well-formed segment has no '&', is padded by whitespace only, and its
      trimmed form splits at whitespace into its name and arguments. */
  lemma SegmentParts(g: Segment)
    requires SegmentOk(g)
    ensures '&' !in SegmentText(g)
    ensures SegmentText(g) != []
    ensures Trim(SegmentText(g)) == Line(g.name, g.args)
    ensures CommandOf(Trim(SegmentText(g))) == Exec(g.name, TokensOf(g.args))
  {
    LineAvoids(g.name, g.args, '&');
    WsAvoidsAmpersand(g.lead);
    WsAvoidsAmpersand(g.trail);
    LineBare(g.name, g.args);
    TrimPadded(g.lead, Line(g.name, g.args), g.trail);
    LineSplit(g.name, g.args);
    assert ([g.name] + TokensOf(g.args))[1..] == TokensOf(g.args);
  }

  /** Splitting the script at `&&` gives back the segments' texts. */
  lemma {:induction false} ScriptSplit(segments: seq<Segment>)
    requires segments != []
    requires forall k :: 0 <= k < |segments| ==> SegmentOk(segments[k])
    ensures ScriptOf(segments) != ""
    ensures Split(ScriptOf(segments), "&&") == Texts(segments)
  {
    var texts := Texts(segments);
    forall k | 0 <= k < |texts|
      ensures Piece(texts[k], "&&") && IndexOf(texts[k], "&&").None?
    {
      SegmentParts(segments[k]);
      Unseparated(texts[k], "&&");
    }
    JoinThenSplit(texts, "&&");
    JoinEnds(texts, "&&");
    SegmentParts(segments[0]);
  }

  /** A build script written as `&&`-separated commands is run as exactly those commands,
      in order, each as its first word with the remaining words as arguments. */
  lemma {:induction false} BuildScriptRoundTrip(segments: seq<Segment>)
    requires segments != []
    requires forall k :: 0 <= k < |segments| ==> SegmentOk(segments[k])
    ensures |BuildExecs(ScriptOf(segments))| == |segments|
    ensures forall k :: 0 <= k < |segments| ==>
              BuildExecs(ScriptOf(segments))[k] == Exec(segments[k].name, TokensOf(segments[k].args))
  {
    var script := ScriptOf(segments);
    ScriptSplit(segments);
    var segs := Segments(script);
    assert BuildExecs(script) == Commands(segs);
    forall k | 0 <= k < |segments|
      ensures Commands(segs)[k] == Exec(segments[k].name, TokensOf(segments[k].args))
    {
      SegmentParts(segments[k]);
      assert segs[k] == Trim(Texts(segments)[k]);
    }
  }

  /** The build step runs nothing exactly when the build script is empty; any other
      script, even one of blanks, runs at least one command. */
  lemma BuildScriptEmpty(script: string)
    ensures BuildExecs(script) == [] <==> script == ""
  {
    if script != "" {
      assert |Commands(Segments(script))| == |Split(script, "&&")| >= 1;
    }
  }

  // ---------------------------------------------------------------------------
  // The success comment

  /** The nine lines that show how to install one tag: three fenced shell snippets,
      for pnpm, yarn and npm. */
  function BlockLines(tag: string): seq<string> {
    [ "```sh", InstallCommands[0] + " " + tag, "```",
      "```sh", InstallCommands[1] + " " + tag, "```",
      "```sh", InstallCommands[2] + " " + tag, "```" ]
  }

  /** Groups of lines, a `---` line between consecutive groups. */
  function Grouped(groups: seq<seq<string>>): seq<string> {
    if |groups| == 0 then []
    else if |groups| == 1 then groups[0]
    else groups[0] + ["---"] + Grouped(groups[1..])
  }

  function Blocks(tags: seq<string>): seq<seq<string>> {
    seq(|tags|, k requires 0 <= k < |tags| => BlockLines(tags[k]))
  }

  /** The lines for all tags, a `---` line between consecutive tags. */
  function TagLines(tags: seq<string>): seq<string> {
    Grouped(Blocks(tags))
  }

  /** One section is the three snippets joined by line breaks. */
  lemma {:induction false} SectionBlocks(tag: string)
    ensures TagSection(tag)
            == CodeBlock(InstallCommands[0] + " " + tag) + "\n" + CodeBlock(InstallCommands[1] + " " + tag)
               + "\n" + CodeBlock(InstallCommands[2] + " " + tag)
  {
    var blocks := seq(|InstallCommands|, k requires 0 <= k < |InstallCommands| => CodeBlock(InstallCommands[k] + " " + tag));
    Join3(blocks, "\n");
  }

  /** Nine lines joined are three groups of three joined. */
  lemma {:induction false} Join9(b: seq<string>)
    requires |b| == 9
    ensures Join(b, "\n") == Join(b[..3], "\n") + "\n" + Join(b[3..6], "\n") + "\n" + Join(b[6..], "\n")
  {
    assert b == b[..3] + b[3..];
    JoinAppend(b[..3], b[3..], "\n");
    assert b[3..] == b[3..6] + b[6..];
    JoinAppend(b[3..6], b[6..], "\n");
  }

  /** A snippet is its three lines. */
  lemma CodeBlockLines(line: string)
    ensures CodeBlock(line) == Join(["```sh", line, "```"], "\n")
  {
    assert "```sh\n" == "```sh" + "\n";
    assert "\n```" == "\n" + "```";
    Join3(["```sh", line, "```"], "\n");
  }

  lemma {:induction false} SectionLines(tag: string)
    ensures TagSection(tag) == Join(BlockLines(tag), "\n")
  {
    var b := BlockLines(tag);
    SectionBlocks(tag);
    assert b[..3] == ["```sh", b[1], "```"] && b[3..6] == ["```sh", b[4], "```"] && b[6..] == ["```sh", b[7], "```"];
    CodeBlockLines(b[1]);
    CodeBlockLines(b[4]);
    CodeBlockLines(b[7]);
    Join9(b);
    Join3(b[..3], "\n");
    Join3(b[3..6], "\n");
    Join3(b[6..], "\n");
  }

  /** Texts joined by `\n---\n`, each the lines of its group joined by line breaks, are
      all the grouped lines joined by line breaks. */
  lemma {:induction false} JoinGroups(groups: seq<seq<string>>, texts: seq<string>)
    requires |groups| == |texts| > 0
    requires forall k :: 0 <= k < |groups| ==> groups[k] != [] && texts[k] == Join(groups[k], "\n")
    ensures Join(texts, "\n---\n") == Join(Grouped(groups), "\n")
  {
    if |groups| > 1 {
      JoinGroups(groups[1..], texts[1..]);
      assert texts == [texts[0]] + texts[1..];
      JoinCons(texts[0], texts[1..], "\n---\n");
      assert Grouped(groups) == groups[0] + ["---"] + Grouped(groups[1..]);
      JoinAppend(groups[0] + ["---"], Grouped(groups[1..]), "\n");
      JoinAppend(groups[0], ["---"], "\n");
      assert Join(["---"], "\n") == "---";
      assert "\n---\n" == "\n" + "---" + "\n";
    }
  }

  /** Joining the sections with `\n---\n` is joining all their lines with line breaks. */
  lemma SectionsLines(tags: seq<string>)
    requires tags != []
    ensures Join(seq(|tags|, k requires 0 <= k < |tags| => TagSection(tags[k])), "\n---\n")
            == Join(TagLines(tags), "\n")
  {
    var sections := seq(|tags|, k requires 0 <= k < |tags| => TagSection(tags[k]));
    forall k | 0 <= k < |tags|
      ensures sections[k] == Join(Blocks(tags)[k], "\n")
    {
      SectionLines(tags[k]);
    }
    JoinGroups(Blocks(tags), sections);
  }

  /** The success comment is its opening, worded in the plural exactly when there is more
      than one tag, followed by the install snippets of each tag in order, one line each,
      a `---` line between tags. */
  lemma CommentBody(login: string, tags: seq<string>)
    requires tags != []
    ensures SuccessComment(login, tags) == Intro(login, |tags| > 1) + Join(TagLines(tags), "\n")
  {
    SectionsLines(tags);
  }

  /** The opening agrees in number with the tags: "snapshots have" exactly when more than
      one tag was published, "snapshot has" otherwise. */
  lemma PluralWording(login: string, tags: seq<string>)
    ensures OccursAt(SuccessComment(login, tags), |Greeting(login)|, "s have") <==> |tags| > 1
  {
    WordingStart(|tags| > 1);
    ConcatSlice(Greeting(login), Wording(|tags| > 1),
                Join(seq(|tags|, k requires 0 <= k < |tags| => TagSection(tags[k])), "\n---\n"), 6);
  }

  lemma WordingStart(multiple: bool)
    ensures |Wording(multiple)| >= 6
    ensures multiple <==> Wording(multiple)[..6] == "s have"
  {
    var w := Wording(multiple);
    if multiple {
      assert w[..6] == "s have";
    } else {
      assert w[0] == ' ';
    }
  }

  /** Groups of nine lines take ten lines each but the last, which takes nine. */
  lemma {:induction false} GroupedShape(groups: seq<seq<string>>)
    requires forall k :: 0 <= k < |groups| ==> |groups[k]| == 9
    ensures groups != [] ==> |Grouped(groups)| == 10 * |groups| - 1
    ensures forall k :: 0 <= k < |groups| ==> Grouped(groups)[10 * k..10 * k + 9] == groups[k]
    ensures forall k :: 0 <= k < |groups| - 1 ==> Grouped(groups)[10 * k + 9] == "---"
  {
    if |groups| > 1 {
      GroupedShape(groups[1..]);
      var rest := Grouped(groups[1..]);
      var t := Grouped(groups);
      assert t == groups[0] + ["---"] + rest;
      forall k | 0 <= k < |groups|
        ensures t[10 * k..10 * k + 9] == groups[k]
      {
        if k > 0 {
          assert t[10 * k..10 * k + 9] == rest[10 * (k - 1)..10 * (k - 1) + 9];
        }
      }
      forall k | 0 <= k < |groups| - 1
        ensures t[10 * k + 9] == "---"
      {
        if k > 0 {
          assert t[10 * k + 9] == rest[10 * (k - 1) + 9];
        }
      }
    } else if |groups| == 1 {
      assert Grouped(groups)[0..9] == groups[0];
    }
  }

  /** Nine lines per tag, in tag order, and a `---` line between consecutive tags. */
  lemma TagLinesShape(tags: seq<string>)
    ensures tags != [] ==> |TagLines(tags)| == 10 * |tags| - 1
    ensures forall k :: 0 <= k < |tags| ==> TagLines(tags)[10 * k..10 * k + 9] == BlockLines(tags[k])
    ensures forall k :: 0 <= k < |tags| - 1 ==> TagLines(tags)[10 * k + 9] == "---"
  {
    GroupedShape(Blocks(tags));
    forall k | 0 <= k < |tags|
      ensures TagLines(tags)[10 * k..10 * k + 9] == BlockLines(tags[k])
    {
      assert Blocks(tags)[k] == BlockLines(tags[k]);
    }
  }

  /** Read back line by line, the snippet part of the comment gives exactly its lines,
      when no tag holds whitespace (which the tag scanner guarantees). */
  lemma {:induction false} SnippetLines(tags: seq<string>)
    requires tags != [] && forall k :: 0 <= k < |tags| ==> NoWs(tags[k])
    ensures Split(Join(TagLines(tags), "\n"), "\n") == TagLines(tags)
  {
    forall k | 0 <= k < |tags|
      ensures forall j :: 0 <= j < |Blocks(tags)[k]| ==> '\n' !in Blocks(tags)[k][j]
    {
      BlockNoBreak(tags[k]);
    }
    GroupedNoBreak(Blocks(tags));
    SplitLines(TagLines(tags));
  }

  /** No grouped line holds a line break when no line of the groups does. */
  lemma {:induction false} GroupedNoBreak(groups: seq<seq<string>>)
    requires forall k :: 0 <= k < |groups| ==> groups[k] != []
    requires forall k, j :: 0 <= k < |groups| && 0 <= j < |groups[k]| ==> '\n' !in groups[k][j]
    ensures forall j :: 0 <= j < |Grouped(groups)| ==> '\n' !in Grouped(groups)[j]
    ensures groups != [] ==> Grouped(groups) != []
  {
    if |groups| > 1 {
      GroupedNoBreak(groups[1..]);
      var t := Grouped(groups);
      var rest := Grouped(groups[1..]);
      assert t == groups[0] + ["---"] + rest;
      forall j | 0 <= j < |t|
        ensures '\n' !in t[j]
      {
        if j < |groups[0]| {
          assert t[j] == groups[0][j];
        } else if j > |groups[0]| {
          assert t[j] == rest[j - |groups[0]| - 1];
        }
      }
    }
  }

  lemma BlockNoBreak(tag: string)
    requires NoWs(tag)
    ensures forall k :: 0 <= k < 9 ==> '\n' !in BlockLines(tag)[k]
  {
    NoWsNoBreak(tag);
  }
}
