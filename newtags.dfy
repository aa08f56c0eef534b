/// Reading the published tags out of the publish step's output: the global regular
/// expression `/New tag:\s+([^\s\n]+)/g` run with `matchAll`, each match contributing
/// its first group. `[^\s\n]` is the same class as `[^\s]`, since `\n` is whitespace.
module NewTags {
  import opened JsString

  const Marker := "New tag:"

  /** A match of the pattern at the front of s: s starts with the marker, then a run of
      g >= 1 whitespace characters, then the tag; no longer run or longer tag would also fit. */
  predicate MatchShape(s: string, g: nat, tag: string) {
    |Marker| + g + |tag| <= |s|
    && s[..|Marker|] == Marker
    && g >= 1 && AllWs(s[|Marker|..|Marker| + g])
    && tag != [] && NoWs(tag) && s[|Marker| + g..|Marker| + g + |tag|] == tag
    && (|Marker| + g + |tag| == |s| || IsWs(s[|Marker| + g + |tag|]))
  }

  /** The tag matched at the front of s and the length of the match, if the pattern
      matches there. The greedy `\s+` can only end where a non-whitespace character
      follows, so the run of whitespace is the longest one and the tag the longest
      whitespace-free stretch after it. */
  function MatchFront(s: string): (m: Option<(string, nat)>)
    ensures m.Some? ==> exists g: nat :: MatchShape(s, g, m.value.0) && m.value.1 == |Marker| + g + |m.value.0|
  {
    if |s| < |Marker| || s[..|Marker|] != Marker then None
    else
      var rest := s[|Marker|..];
      var g := LeadingWs(rest);
      var after := rest[g..];
      var len := FirstWs(after);
      if g == 0 || len == 0 then None
      else
        var tag := after[..len];
        assert s[|Marker|..|Marker| + g] == rest[..g];
        assert s[|Marker| + g..|Marker| + g + len] == tag;
        assert |Marker| + g + len < |s| ==> s[|Marker| + g + len] == after[len];
        assert MatchShape(s, g, tag);
        Some((tag, |Marker| + g + len))
  }

  /** Every match of the pattern at the front of s is the one MatchFront finds; so
      MatchFront finds nothing exactly when the pattern does not match there. */
  lemma MatchFrontComplete(s: string, g: nat, tag: string)
    requires MatchShape(s, g, tag)
    ensures MatchFront(s) == Some((tag, |Marker| + g + |tag|))
  {
    var rest := s[|Marker|..];
    assert rest[..g] == s[|Marker|..|Marker| + g];
    assert rest[g..][..|tag|] == tag;
    assert rest == rest[..g] + rest[g..];
    LeadingWsOf(rest[..g], rest[g..]);
    var after := rest[g..];
    assert after == tag + after[|tag|..];
    assert after[|tag|..] == [] || after[|tag|..][0] == s[|Marker| + g + |tag|];
    FirstWsOf(tag, after[|tag|..]);
  }

  /** `Array.from(s.matchAll(/New tag:\s+([^\s\n]+)/g)).map(([_, tag]) => tag)`: the
      matches are found left to right, each search resuming where the last match ended. */
  function ScanTags(s: string): (tags: seq<string>)
    ensures forall k :: 0 <= k < |tags| ==> tags[k] != [] && NoWs(tags[k])
    decreases |s|
  {
    if s == [] then []
    else
      match MatchFront(s)
      case Some((tag, end)) => [tag] + ScanTags(s[end..])
      case None => ScanTags(s[1..])
  }

  /** The pattern matches somewhere in s with tag as its group. */
  ghost predicate Found(s: string, tag: string) {
    exists i: nat, g: nat :: i <= |s| && MatchShape(s[i..], g, tag)
  }

  /** A match in a suffix is a match in the whole. */
  lemma FoundSuffix(s: string, n: nat, tag: string)
    requires n <= |s| && Found(s[n..], tag)
    ensures Found(s, tag)
  {
    var i: nat, g: nat :| i <= |s[n..]| && MatchShape(s[n..][i..], g, tag);
    assert s[n..][i..] == s[n + i..];
  }

  /** Every extracted tag is the group of a match of the pattern at some position of the output. */
  lemma {:induction false} ScanSound(s: string)
    ensures forall k :: 0 <= k < |ScanTags(s)| ==> Found(s, ScanTags(s)[k])
    decreases |s|
  {
    if s != [] {
      var m := MatchFront(s);
      if m.Some? {
        var tag, end := m.value.0, m.value.1;
        var g0: nat :| MatchShape(s, g0, tag) && end == |Marker| + g0 + |tag|;
        assert s[0..] == s;
        assert Found(s, tag);
        ScanSuffix(s, end, [tag]);
      } else {
        ScanSuffix(s, 1, []);
      }
    }
  }

  /** The inductive step of ScanSound: the scan is some found tags, then the scan of a
      shorter suffix. */
  lemma {:induction false} ScanSuffix(s: string, n: nat, front: seq<string>)
    requires 0 < n <= |s| && ScanTags(s) == front + ScanTags(s[n..])
    requires forall k :: 0 <= k < |front| ==> Found(s, front[k])
    ensures forall k :: 0 <= k < |ScanTags(s)| ==> Found(s, ScanTags(s)[k])
    decreases |s|, 0
  {
    var rest := s[n..];
    ScanSound(rest);
    forall k | 0 <= k < |ScanTags(s)|
      ensures Found(s, ScanTags(s)[k])
    {
      if k >= |front| {
        assert ScanTags(s)[k] == ScanTags(rest)[k - |front|];
        FoundSuffix(s, n, ScanTags(s)[k]);
      }
    }
  }

  /** Output in which the marker never occurs announces no tag. */
  lemma {:induction false} NoMarkerNoTags(s: string)
    requires IndexOf(s, Marker).None?
    ensures ScanTags(s) == []
    decreases |s|
  {
    if s != [] {
      assert !OccursAt(s, 0, Marker);
      assert |s| >= |Marker| ==> s[0..|Marker|] == s[..|Marker|];
      assert MatchFront(s).None?;
      var t := s[1..];
      forall j: nat
        ensures !OccursAt(t, j, Marker)
      {
        assert !OccursAt(s, j + 1, Marker);
        if j + |Marker| <= |t| {
          assert t[j..j + |Marker|] == s[j + 1..j + 1 + |Marker|];
        }
      }
      NoMarkerNoTags(t);
    }
  }

  /** No match can start inside text without an 'N', the marker's first letter. */
  lemma {:induction false} ScanSkip(lead: string, x: string)
    requires 'N' !in lead
    ensures ScanTags(lead + x) == ScanTags(x)
  {
    if lead != [] {
      var s := lead + x;
      assert s[0] == lead[0];
      assert |s| >= |Marker| ==> s[..|Marker|][0] == lead[0];
      assert MatchFront(s).None?;
      assert s[1..] == lead[1..] + x;
      ScanSkip(lead[1..], x);
      assert ScanTags(s) == ScanTags(s[1..]);
    } else {
      assert lead + x == x;
    }
  }

  /** A match at the front contributes its tag, and the search resumes after the match. */
  lemma ScanMatch(u: string, g: nat, tag: string)
    requires MatchShape(u, g, tag)
    ensures ScanTags(u) == [tag] + ScanTags(u[|Marker| + g + |tag|..])
  {
    MatchFrontComplete(u, g, tag);
    var e := |Marker| + g + |tag|;
    assert u != [];
    var m := MatchFront(u);
    assert m == Some((tag, e));
    assert m.value.0 == tag && m.value.1 == e;
    assert ScanTags(u) == [m.value.0] + ScanTags(u[m.value.1..]);
  }

  /** A line of publish output announcing a tag: text without an 'N', the marker,
      some whitespace, the tag, and a line break. */
  datatype TagLine = TagLine(lead: string, gap: string, tag: string)

  predicate WellFormed(l: TagLine) {
    'N' !in l.lead && l.gap != [] && AllWs(l.gap) && l.tag != [] && NoWs(l.tag)
  }

  function LineText(l: TagLine): string {
    l.lead + Marker + l.gap + l.tag + "\n"
  }

  function Output(lines: seq<TagLine>): string {
    if lines == [] then "" else LineText(lines[0]) + Output(lines[1..])
  }

  function TagsOf(lines: seq<TagLine>): seq<string> {
    if lines == [] then [] else [lines[0].tag] + TagsOf(lines[1..])
  }

  /** The marker, a whitespace run, a tag and text that starts with whitespace form a match. */
  lemma Shape(gap: string, tag: string, tail: string)
    requires gap != [] && AllWs(gap) && tag != [] && NoWs(tag) && tail != [] && IsWs(tail[0])
    ensures MatchShape(Marker + gap + tag + tail, |gap|, tag)
    ensures (Marker + gap + tag + tail)[|Marker| + |gap| + |tag|..] == tail
  {
    var u := Marker + gap + tag + tail;
    var e := |Marker| + |gap| + |tag|;
    assert u[..|Marker|] == Marker;
    assert u[|Marker|..|Marker| + |gap|] == gap;
    assert u[|Marker| + |gap|..e] == tag;
    assert u[e..] == tail;
  }

  /** The marker, a whitespace run, a tag and a line break yield the tag, and scanning
      resumes after the line break. */
  lemma ScanAnnouncement(gap: string, tag: string, rest: string)
    requires gap != [] && AllWs(gap) && tag != [] && NoWs(tag)
    ensures ScanTags(Marker + gap + tag + ("\n" + rest)) == [tag] + ScanTags(rest)
  {
    var tail := "\n" + rest;
    Shape(gap, tag, tail);
    ScanMatch(Marker + gap + tag + tail, |gap|, tag);
    ScanSkip("\n", rest);
  }

  /** A well-formed announcing line yields its tag, and scanning resumes after it. */
  lemma ScanLine(l: TagLine, rest: string)
    requires WellFormed(l)
    ensures ScanTags(LineText(l) + rest) == [l.tag] + ScanTags(rest)
  {
    var u := Marker + l.gap + l.tag + ("\n" + rest);
    assert LineText(l) + rest == l.lead + u;
    ScanSkip(l.lead, u);
    ScanAnnouncement(l.gap, l.tag, rest);
  }

  /** The scanner reads back, in order, exactly the tags that well-formed lines announce. */
  lemma {:induction false} ScanOutput(lines: seq<TagLine>)
    requires forall k :: 0 <= k < |lines| ==> WellFormed(lines[k])
    ensures ScanTags(Output(lines)) == TagsOf(lines)
  {
    if lines != [] {
      var rest := Output(lines[1..]);
      assert Output(lines) == LineText(lines[0]) + rest;
      ScanOutput(lines[1..]);
      ScanLine(lines[0], rest);
      assert ScanTags(Output(lines)) == [lines[0].tag] + ScanTags(rest);
      assert ScanTags(rest) == TagsOf(lines[1..]);
      assert TagsOf(lines) == [lines[0].tag] + TagsOf(lines[1..]);
    }
  }
}
