/// The JavaScript string operations the action relies on: `includes`/`indexOf`,
/// `split` with a string separator, `split(/\s+/)`, `trim`, `Array.prototype.join`
/// and `Number.prototype.toString` on issue numbers. Strings are sequences of
/// Unicode code points.
module JsString {

  datatype Option<T> = None | Some(value: T)

  /** The ECMAScript WhiteSpace and LineTerminator code points: what `\s` matches
      and what `trim` removes (space separators of category Zs included). */
  predicate IsWs(c: char) {
    c == '\t' || c == '\n' || c == '\U{000B}' || c == '\U{000C}' || c == '\r'
    || c == ' ' || c == '\U{00A0}' || c == '\U{1680}'
    || ('\U{2000}' <= c <= '\U{200A}')
    || c == '\U{2028}' || c == '\U{2029}' || c == '\U{202F}' || c == '\U{205F}'
    || c == '\U{3000}' || c == '\U{FEFF}'
  }

  predicate NoWs(s: string) {
    forall k :: 0 <= k < |s| ==> !IsWs(s[k])
  }

  predicate AllWs(s: string) {
    forall k :: 0 <= k < |s| ==> IsWs(s[k])
  }

  /** Neither end of s is whitespace: what `trim` leaves behind. */
  predicate Bare(s: string) {
    s == [] || (!IsWs(s[0]) && !IsWs(s[|s| - 1]))
  }

  // ---------------------------------------------------------------------------
  // Searching: `indexOf` and `includes`

  predicate OccursAt(s: string, i: nat, pat: string) {
    i + |pat| <= |s| && s[i..i + |pat|] == pat
  }

  /** Text without whitespace holds no line break. */
  lemma NoWsNoBreak(s: string)
    requires NoWs(s)
    ensures '\n' !in s
  {
    forall k | 0 <= k < |s|
      ensures s[k] != '\n'
    {
      assert !IsWs(s[k]);
    }
  }

  /** The leftmost occurrence of pat in s at or after position from. */
  function IndexFrom(s: string, pat: string, from: nat): (r: Option<nat>)
    ensures r.Some? ==> from <= r.value && OccursAt(s, r.value, pat)
    ensures r.Some? ==> forall j :: from <= j < r.value ==> !OccursAt(s, j, pat)
    ensures r.None? ==> forall j: nat :: from <= j ==> !OccursAt(s, j, pat)
    decreases |s| - from
  {
    if from + |pat| > |s| then None
    else if s[from..from + |pat|] == pat then Some(from)
    else IndexFrom(s, pat, from + 1)
  }

  /** `s.indexOf(pat)`, with `None` for -1; `s.includes(pat)` is its `Some?`. */
  function IndexOf(s: string, pat: string): Option<nat> {
    IndexFrom(s, pat, 0)
  }

  lemma OccursChar(s: string, j: nat, c: char)
    requires j < |s|
    ensures OccursAt(s, j, [c]) <==> s[j] == c
  {
    assert s[j..j + 1] == [s[j]];
  }

  /** A single character is found exactly when it is in the string. */
  lemma IndexOfChar(s: string, c: char)
    ensures IndexOf(s, [c]).None? <==> c !in s
  {
    if c in s {
      var j :| 0 <= j < |s| && s[j] == c;
      OccursChar(s, j, c);
    }
    if IndexOf(s, [c]).Some? {
      var j := IndexOf(s, [c]).value;
      OccursChar(s, j, c);
    }
  }

  // ---------------------------------------------------------------------------
  // `Array.prototype.join`

  function Join(xs: seq<string>, sep: string): string
  {
    if |xs| == 0 then "" else if |xs| == 1 then xs[0] else xs[0] + sep + Join(xs[1..], sep)
  }

  lemma JoinCons(x: string, ys: seq<string>, sep: string)
    requires ys != []
    ensures Join([x] + ys, sep) == x + sep + Join(ys, sep)
  {
    assert ([x] + ys)[1..] == ys;
  }

  /** Three strings joined. */
  lemma {:induction false} Join3(x: seq<string>, sep: string)
    requires |x| == 3
    ensures Join(x, sep) == x[0] + sep + x[1] + sep + x[2]
  {
    assert x == [x[0]] + x[1..];
    JoinCons(x[0], x[1..], sep);
    assert x[1..] == [x[1]] + [x[2]];
    JoinCons(x[1], [x[2]], sep);
  }

  /** The first n characters of the middle part of a concatenation. */
  lemma ConcatSlice(a: string, b: string, c: string, n: nat)
    requires n <= |b|
    ensures (a + b + c)[|a|..|a| + n] == b[..n]
  {
  }

  lemma {:induction false} JoinAppend(a: seq<string>, b: seq<string>, sep: string)
    requires a != [] && b != []
    ensures Join(a + b, sep) == Join(a, sep) + sep + Join(b, sep)
  {
    assert (a + b)[0] == a[0];
    if |a| == 1 {
      assert (a + b)[1..] == b;
    } else {
      assert (a + b)[1..] == a[1..] + b;
      JoinAppend(a[1..], b, sep);
    }
  }

  /** A character that is in neither the pieces nor the separator is not in their join. */
  lemma {:induction false} JoinAvoids(xs: seq<string>, sep: string, c: char)
    requires c !in sep
    requires forall k :: 0 <= k < |xs| ==> c !in xs[k]
    ensures c !in Join(xs, sep)
  {
    if |xs| > 1 {
      JoinAvoids(xs[1..], sep, c);
    }
  }

  /** The join starts with the first piece and ends with the last one. */
  lemma {:induction false} JoinEnds(xs: seq<string>, sep: string)
    requires xs != []
    ensures |Join(xs, sep)| >= |xs[0]| && Join(xs, sep)[..|xs[0]|] == xs[0]
    ensures |Join(xs, sep)| >= |xs[|xs| - 1]|
    ensures Join(xs, sep)[|Join(xs, sep)| - |xs[|xs| - 1]|..] == xs[|xs| - 1]
  {
    if |xs| > 1 {
      JoinEnds(xs[1..], sep);
      var rest := Join(xs[1..], sep);
      assert Join(xs, sep) == xs[0] + sep + rest;
      assert xs[1..][|xs[1..]| - 1] == xs[|xs| - 1];
      assert (xs[0] + sep + rest)[|xs[0] + sep + rest| - |xs[|xs| - 1]|..] == rest[|rest| - |xs[|xs| - 1]|..];
    }
  }

  // ---------------------------------------------------------------------------
  // `s.split(sep)` for a non-empty separator string

  /** The pieces of s between the leftmost non-overlapping occurrences of sep. */
  function Split(s: string, sep: string): (r: seq<string>)
    requires sep != []
    ensures |r| >= 1
    decreases |s|
  {
    match IndexOf(s, sep)
    case None => [s]
    case Some(i) => [s[..i]] + Split(s[i + |sep|..], sep)
  }

  /** x can stand before a separator: the first occurrence of sep in x + sep is the appended one. */
  predicate Piece(x: string, sep: string) {
    forall j :: 0 <= j < |x| ==> !OccursAt(x + sep, j, sep)
  }

  /** Joining the pieces with the separator gives back the string. */
  lemma {:induction false} SplitThenJoin(s: string, sep: string)
    requires sep != []
    ensures Join(Split(s, sep), sep) == s
    decreases |s|
  {
    match IndexOf(s, sep)
    case None =>
      assert Split(s, sep) == [s];
    case Some(i) =>
      var rest := s[i + |sep|..];
      assert Split(s, sep) == [s[..i]] + Split(rest, sep);
      SplitThenJoin(rest, sep);
      JoinCons(s[..i], Split(rest, sep), sep);
      Around(s, i, sep);
  }

  /** A string is the text before an occurrence, the occurrence and the text after it. */
  lemma Around(s: string, i: nat, pat: string)
    requires OccursAt(s, i, pat)
    ensures s == s[..i] + pat + s[i + |pat|..]
  {
    assert s[i..i + |pat|] == pat;
  }

  /** The text before the leftmost occurrence of sep is a piece. */
  lemma HeadPiece(s: string, sep: string, i: nat)
    requires i <= |s| && forall j :: 0 <= j < i ==> !OccursAt(s, j, sep)
    requires OccursAt(s, i, sep)
    ensures Piece(s[..i], sep)
  {
    var head := s[..i];
    var p := s[..i + |sep|];
    assert head + sep == p;
    forall j | 0 <= j < |head|
      ensures !OccursAt(p, j, sep)
    {
      assert p[j..j + |sep|] == s[j..j + |sep|];
      assert !OccursAt(s, j, sep);
    }
  }

  /** Every piece but the last stops at the leftmost occurrence of sep; the last holds none. */
  predicate PiecesShape(r: seq<string>, sep: string) {
    && r != []
    && (forall k :: 0 <= k < |r| - 1 ==> Piece(r[k], sep))
    && IndexOf(r[|r| - 1], sep).None?
  }

  /** The pieces of a split have the shape of pieces. */
  lemma {:induction false} SplitPieces(s: string, sep: string)
    requires sep != []
    ensures PiecesShape(Split(s, sep), sep)
    decreases |s|
  {
    match IndexOf(s, sep)
    case None =>
      assert Split(s, sep) == [s];
    case Some(i) =>
      var rest := s[i + |sep|..];
      SplitPieces(rest, sep);
      HeadPiece(s, sep, i);
      assert Split(s, sep) == [s[..i]] + Split(rest, sep);
      PiecesCons(s[..i], Split(rest, sep), sep, Split(s, sep));
  }

  /** A piece in front of pieces keeps their shape. */
  lemma PiecesCons(head: string, tail: seq<string>, sep: string, r: seq<string>)
    requires Piece(head, sep) && PiecesShape(tail, sep) && r == [head] + tail
    ensures PiecesShape(r, sep)
  {
    forall k | 0 <= k < |r| - 1
      ensures Piece(r[k], sep)
    {
      if k > 0 {
        assert r[k] == tail[k - 1];
      }
    }
    assert r[|r| - 1] == tail[|tail| - 1];
  }

  /** A string that starts with a piece splits off that piece first. */
  lemma SplitCons(x: string, sep: string, rest: string)
    requires sep != [] && Piece(x, sep)
    ensures Split(x + sep + rest, sep) == [x] + Split(rest, sep)
  {
    var s := x + sep + rest;
    assert s[|x|..|x| + |sep|] == sep;
    assert OccursAt(s, |x|, sep);
    forall j | 0 <= j < |x|
      ensures !OccursAt(s, j, sep)
    {
      assert s[j..j + |sep|] == (x + sep)[j..j + |sep|];
      assert !OccursAt(x + sep, j, sep);
    }
    match IndexOf(s, sep)
    case None =>
      assert false;
    case Some(i) =>
      assert i == |x|;
      assert s[..i] == x;
      assert s[i + |sep|..] == rest;
  }

  /** Splitting undoes joining when every piece but the last is a Piece and the last holds no separator. */
  lemma {:induction false} JoinThenSplit(xs: seq<string>, sep: string)
    requires sep != [] && xs != []
    requires forall k :: 0 <= k < |xs| - 1 ==> Piece(xs[k], sep)
    requires IndexOf(xs[|xs| - 1], sep).None?
    ensures Split(Join(xs, sep), sep) == xs
  {
    if |xs| > 1 {
      JoinThenSplit(xs[1..], sep);
      SplitCons(xs[0], sep, Join(xs[1..], sep));
      assert xs == [xs[0]] + xs[1..];
    }
  }

  /** A string without the separator's first character is a Piece and holds no separator. */
  lemma Unseparated(x: string, sep: string)
    requires sep != [] && sep[0] !in x
    ensures Piece(x, sep) && IndexOf(x, sep).None?
  {
    forall j | 0 <= j < |x|
      ensures !OccursAt(x + sep, j, sep)
    {
      assert (x + sep)[j..j + |sep|][0] == x[j];
    }
    forall j: nat | j + |sep| <= |x|
      ensures !OccursAt(x, j, sep)
    {
      assert x[j..j + |sep|][0] == x[j];
    }
  }

  /** Lines without a newline are recovered by splitting their newline join. */
  lemma {:induction false} SplitLines(lines: seq<string>)
    requires lines != []
    requires forall k :: 0 <= k < |lines| ==> '\n' !in lines[k]
    ensures Split(Join(lines, "\n"), "\n") == lines
  {
    forall k | 0 <= k < |lines|
      ensures Piece(lines[k], "\n") && IndexOf(lines[k], "\n").None?
    {
      Unseparated(lines[k], "\n");
    }
    JoinThenSplit(lines, "\n");
  }

  /** The field of s that starts at i, between occurrences of c or the ends of s, is f. */
  predicate FieldAt(s: string, i: nat, f: string, c: char) {
    i + |f| <= |s| && s[i..i + |f|] == f && c !in f
    && (i == 0 || s[i - 1] == c) && (i + |f| == |s| || s[i + |f|] == c)
  }

  /** A field of the text after the first c is a field of the whole text. */
  lemma FieldShift(s: string, p: nat, c: char, f: string, j: nat)
    requires p < |s| && s[p] == c && FieldAt(s[p + 1..], j, f, c)
    ensures FieldAt(s, p + 1 + j, f, c)
  {
    var rest := s[p + 1..];
    assert s[p + 1 + j..p + 1 + j + |f|] == rest[j..j + |f|];
    if j > 0 { assert s[p + j] == rest[j - 1]; }
    if p + 1 + j + |f| < |s| { assert s[p + 1 + j + |f|] == rest[j + |f|]; }
  }

  /** A field of the whole text that starts after the first c is a field of the text after it. */
  lemma FieldUnshift(s: string, p: nat, c: char, f: string, i: nat)
    requires p < |s| && s[p] == c && FieldAt(s, i, f, c) && i > p
    ensures FieldAt(s[p + 1..], i - p - 1, f, c)
  {
    var rest := s[p + 1..];
    var j := i - p - 1;
    assert rest[j..j + |f|] == s[i..i + |f|];
    if j > 0 { assert rest[j - 1] == s[i - 1]; }
    if j + |f| < |rest| { assert rest[j + |f|] == s[i + |f|]; }
  }

  lemma ElementIn(s: string, k: int)
    ensures 0 <= k < |s| ==> s[k] in s
  {
  }

  /** With no c in s, the only field is s itself. */
  lemma FieldWhole(s: string, c: char, f: string, i: nat)
    requires c !in s && FieldAt(s, i, f, c)
    ensures f == s
  {
    ElementIn(s, i - 1);
    ElementIn(s, i + |f|);
    assert i == 0 && |f| == |s|;
    assert s[..|s|] == s;
  }

  /** A field that starts at 0 ends at the first c. */
  lemma FieldFirst(s: string, p: nat, c: char, f: string)
    requires p < |s| && s[p] == c && (forall j :: 0 <= j < p ==> s[j] != c)
    requires FieldAt(s, 0, f, c)
    ensures f == s[..p]
  {
    ElementIn(f, p);
    assert forall k :: 0 <= k < |f| ==> f[k] == s[k];
    assert |f| == p;
  }

  /** An entry of `s.split(c)` is exactly a maximal stretch of s free of c, taken verbatim. */
  lemma {:induction false} SplitFields(s: string, c: char, f: string)
    ensures f in Split(s, [c]) <==> exists i: nat :: FieldAt(s, i, f, c)
    decreases |s|
  {
    match IndexOf(s, [c])
    case None =>
      IndexOfChar(s, c);
      assert Split(s, [c]) == [s];
      if f in Split(s, [c]) {
        assert s[0..|s|] == s;
        assert FieldAt(s, 0, f, c);
      }
      if exists i: nat :: FieldAt(s, i, f, c) {
        var i: nat :| FieldAt(s, i, f, c);
        FieldWhole(s, c, f, i);
      }
    case Some(p) =>
      OccursChar(s, p, c);
      var rest := s[p + 1..];
      SplitFields(rest, c, f);
      assert Split(s, [c]) == [s[..p]] + Split(rest, [c]);
      forall j | 0 <= j < p
        ensures s[j] != c
      {
        OccursChar(s, j, c);
      }
      if f in Split(s, [c]) {
        if f == s[..p] {
          assert s[0..|f|] == f;
          assert FieldAt(s, 0, f, c);
        } else {
          var j: nat :| FieldAt(rest, j, f, c);
          FieldShift(s, p, c, f, j);
        }
      }
      if exists i: nat :: FieldAt(s, i, f, c) {
        var i: nat :| FieldAt(s, i, f, c);
        if i == 0 {
          FieldFirst(s, p, c, f);
        } else {
          assert s[i - 1] == c;
          assert i > p;
          FieldUnshift(s, p, c, f, i);
        }
      }
  }

  // ---------------------------------------------------------------------------
  // `trim`

  /** The number of whitespace characters that s starts with. */
  function LeadingWs(s: string): (n: nat)
    ensures n <= |s| && AllWs(s[..n]) && (n < |s| ==> !IsWs(s[n]))
  {
    if s == [] || !IsWs(s[0]) then 0
    else
      var m := LeadingWs(s[1..]);
      assert s[..1 + m] == [s[0]] + s[1..][..m];
      1 + m
  }

  /** The number of whitespace characters that s ends with. */
  function TrailingWs(s: string): (n: nat)
    ensures n <= |s| && AllWs(s[|s| - n..]) && (n < |s| ==> !IsWs(s[|s| - 1 - n]))
  {
    if s == [] || !IsWs(s[|s| - 1]) then 0
    else
      var init := s[..|s| - 1];
      var m := TrailingWs(init);
      assert s[|s| - (1 + m)..] == init[|init| - m..] + [s[|s| - 1]];
      1 + m
  }

  /** s sits at position a of t with nothing but whitespace around it. */
  predicate Padded(t: string, a: nat, s: string) {
    a + |s| <= |t| && t[a..a + |s|] == s && AllWs(t[..a]) && AllWs(t[a + |s|..])
  }

  /** `s.trim()`: s without its leading and trailing whitespace. */
  function Trim(s: string): (r: string)
    ensures Bare(r)
    ensures exists a: nat :: Padded(s, a, r)
  {
    var a := LeadingWs(s);
    var t := s[a..];
    var n := TrailingWs(t);
    var r := t[..|t| - n];
    assert r != [] ==> r[0] == s[a] && r[|r| - 1] == t[|t| - 1 - n];
    assert s[a..a + |r|] == r;
    assert s[a + |r|..] == t[|t| - n..];
    assert Padded(s, a, r);
    r
  }

  lemma {:induction false} LeadingWsOf(x: string, z: string)
    requires AllWs(x) && (z == [] || !IsWs(z[0]))
    ensures LeadingWs(x + z) == |x|
  {
    if x != [] {
      assert (x + z)[1..] == x[1..] + z;
      LeadingWsOf(x[1..], z);
    }
  }

  lemma {:induction false} TrailingWsOf(z: string, y: string)
    requires AllWs(y) && (z == [] || !IsWs(z[|z| - 1]))
    ensures TrailingWs(z + y) == |y|
  {
    if y == [] {
      assert z + y == z;
    } else {
      var s := z + y;
      assert s[..|s| - 1] == z + y[..|y| - 1];
      TrailingWsOf(z, y[..|y| - 1]);
    }
  }

  /** Trim removes exactly the whitespace around a bare string. */
  lemma TrimPadded(x: string, c: string, y: string)
    requires AllWs(x) && AllWs(y) && Bare(c)
    ensures Trim(x + c + y) == c
  {
    var s := x + c + y;
    if c == [] {
      assert s == x + y;
      LeadingWsOf(x + y, []);
      assert s + [] == s;
    } else {
      assert s == x + (c + y);
      LeadingWsOf(x, c + y);
      assert s[|x|..] == c + y;
      TrailingWsOf(c, y);
      assert (c + y)[..|c|] == c;
    }
  }

  // ---------------------------------------------------------------------------
  // `s.split(/\s+/)`

  /** The index of the first whitespace character of s, or |s| when it has none. */
  function FirstWs(s: string): (i: nat)
    ensures i <= |s| && NoWs(s[..i]) && (i < |s| ==> IsWs(s[i]))
  {
    if s == [] || IsWs(s[0]) then 0
    else
      var m := FirstWs(s[1..]);
      assert s[..1 + m] == [s[0]] + s[1..][..m];
      1 + m
  }

  /** `s.split(/\s+/)`: the pieces of s between maximal runs of whitespace, empty ones
      included when s starts or ends with whitespace; the empty string gives [""]. */
  function WsSplit(s: string): (r: seq<string>)
    ensures |r| >= 1
    ensures forall k :: 0 <= k < |r| ==> NoWs(r[k])
    decreases |s|
  {
    var i := FirstWs(s);
    if i == |s| then
      assert s[..i] == s;
      [s]
    else
      var rest := s[i..];
      [s[..i]] + WsSplit(rest[LeadingWs(rest)..])
  }

  lemma {:induction false} FirstWsOf(x: string, z: string)
    requires NoWs(x) && (z == [] || IsWs(z[0]))
    ensures FirstWs(x + z) == |x|
  {
    if x != [] {
      assert (x + z)[1..] == x[1..] + z;
      FirstWsOf(x[1..], z);
    }
  }

  /** A run of whitespace after a whitespace-free token separates it from a text that does
      not start with whitespace. */
  lemma WsSplitGap(t: string, gap: string, rest: string)
    requires NoWs(t) && gap != [] && AllWs(gap) && rest != [] && !IsWs(rest[0])
    ensures WsSplit(t + gap + rest) == [t] + WsSplit(rest)
  {
    var s := t + gap + rest;
    assert s == t + (gap + rest);
    FirstWsOf(t, gap + rest);
    var tail := s[|t|..];
    assert tail == gap + rest;
    LeadingWsOf(gap, rest);
    assert tail[|gap|..] == rest;
    assert s[..|t|] == t;
  }

  /** Splitting on whitespace undoes joining non-empty whitespace-free tokens with spaces. */
  lemma {:induction false} WsSplitJoin(tokens: seq<string>)
    requires tokens != []
    requires forall k :: 0 <= k < |tokens| ==> tokens[k] != [] && NoWs(tokens[k])
    ensures WsSplit(Join(tokens, " ")) == tokens
  {
    var t := tokens[0];
    if |tokens| == 1 {
      FirstWsOf(t, []);
      assert t + [] == t;
    } else {
      var rest := Join(tokens[1..], " ");
      JoinEnds(tokens[1..], " ");
      assert rest[0] == tokens[1][0];
      WsSplitJoin(tokens[1..]);
      JoinCons(t, tokens[1..], " ");
      assert tokens == [t] + tokens[1..];
      WsSplitGap(t, " ", rest);
    }
  }

  /** A token written after a run of whitespace in a command line. */
  datatype Spaced = Spaced(gap: string, token: string)

  /** A command line as written: the first token, then each further token after its gap. */
  function Line(first: string, rest: seq<Spaced>): string
    decreases |rest|
  {
    if rest == [] then first else first + rest[0].gap + Line(rest[0].token, rest[1..])
  }

  /** The tokens after the first one. */
  function TokensOf(rest: seq<Spaced>): seq<string>
    decreases |rest|
  {
    if rest == [] then [] else [rest[0].token] + TokensOf(rest[1..])
  }

  /** Every token is non-empty and whitespace-free, and every gap a non-empty whitespace run. */
  predicate WellSpaced(first: string, rest: seq<Spaced>) {
    && first != [] && NoWs(first)
    && forall k :: 0 <= k < |rest| ==>
         rest[k].gap != [] && AllWs(rest[k].gap) && rest[k].token != [] && NoWs(rest[k].token)
  }

  /** A well-spaced command line is non-empty and has no whitespace at either end. */
  lemma {:induction false} LineBare(first: string, rest: seq<Spaced>)
    requires WellSpaced(first, rest)
    ensures Line(first, rest) != [] && Bare(Line(first, rest))
    decreases |rest|
  {
    if rest != [] {
      var tail := Line(rest[0].token, rest[1..]);
      LineBare(rest[0].token, rest[1..]);
      var s := first + rest[0].gap + tail;
      assert s[0] == first[0];
      assert s[|s| - 1] == tail[|tail| - 1];
    }
  }

  /** Splitting a well-spaced command line at whitespace gives back its tokens, whatever
      the lengths and kinds of its whitespace runs. */
  lemma {:induction false} LineSplit(first: string, rest: seq<Spaced>)
    requires WellSpaced(first, rest)
    ensures WsSplit(Line(first, rest)) == [first] + TokensOf(rest)
    decreases |rest|
  {
    if rest == [] {
      FirstWsOf(first, []);
      assert first + [] == first;
    } else {
      var tail := Line(rest[0].token, rest[1..]);
      LineBare(rest[0].token, rest[1..]);
      LineSplit(rest[0].token, rest[1..]);
      WsSplitGap(first, rest[0].gap, tail);
    }
  }

  /** A character that is not whitespace and in no token is not in the command line. */
  lemma {:induction false} LineAvoids(first: string, rest: seq<Spaced>, c: char)
    requires WellSpaced(first, rest) && !IsWs(c) && c !in first
    requires forall k :: 0 <= k < |rest| ==> c !in rest[k].token
    ensures c !in Line(first, rest)
    decreases |rest|
  {
    if rest != [] {
      LineAvoids(rest[0].token, rest[1..], c);
      forall k | 0 <= k < |rest[0].gap|
        ensures rest[0].gap[k] != c
      {
        assert IsWs(rest[0].gap[k]);
      }
    }
  }

  // ---------------------------------------------------------------------------
  // `Number.prototype.toString()` on a non-negative integer

  function DigitChar(d: nat): char
    requires d < 10
  {
    "0123456789"[d]
  }

  function DigitValue(c: char): nat {
    if '0' <= c <= '9' then (c - '0') as nat else 0
  }

  predicate IsDigit(c: char) {
    '0' <= c <= '9'
  }

  /** The decimal numeral of n, without leading zeros. */
  function Decimal(n: nat): (r: string)
    ensures r != [] && forall k :: 0 <= k < |r| ==> IsDigit(r[k])
    ensures r[0] == '0' ==> n == 0 && r == "0"
  {
    if n < 10 then [DigitChar(n)] else Decimal(n / 10) + [DigitChar(n % 10)]
  }

  /** The value of a string of decimal digits. */
  function DecimalValue(s: string): nat {
    if s == [] then 0 else DecimalValue(s[..|s| - 1]) * 10 + DigitValue(s[|s| - 1])
  }

  /** Reading a numeral back gives the number it was written from. */
  lemma {:induction false} DecimalRoundTrip(n: nat)
    ensures DecimalValue(Decimal(n)) == n
  {
    if n >= 10 {
      DecimalRoundTrip(n / 10);
      var r := Decimal(n);
      assert r[..|r| - 1] == Decimal(n / 10);
    }
  }
}
