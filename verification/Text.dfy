/** Line handling shared by grading and the sandbox: `lines`, `trim` and the canonical form they build. */
module Text {

  /** `char::is_whitespace`: the Unicode White_Space property. */
  predicate IsWhitespace(c: char) {
    || '\U{0009}' <= c <= '\U{000D}'
    || c == ' '
    || c == '\U{0085}'
    || c == '\U{00A0}'
    || c == '\U{1680}'
    || '\U{2000}' <= c <= '\U{200A}'
    || c == '\U{2028}'
    || c == '\U{2029}'
    || c == '\U{202F}'
    || c == '\U{205F}'
    || c == '\U{3000}'
  }

  predicate AllSpace(s: string) {
    forall k :: 0 <= k < |s| ==> IsWhitespace(s[k])
  }

  /** No whitespace at either edge. */
  predicate Tight(s: string) {
    s == [] || (!IsWhitespace(s[0]) && !IsWhitespace(s[|s| - 1]))
  }

  function TrimStart(s: string): string {
    if s != [] && IsWhitespace(s[0]) then TrimStart(s[1..]) else s
  }

  function TrimEnd(s: string): string {
    if s != [] && IsWhitespace(s[|s| - 1]) then TrimEnd(s[..|s| - 1]) else s
  }

  function Trim(s: string): string {
    TrimEnd(TrimStart(s))
  }

  /** Index of the first newline, or the length when there is none. */
  function LineEnd(s: string): (n: nat)
    ensures n <= |s|
    ensures n < |s| ==> s[n] == '\n'
    ensures forall k :: 0 <= k < n ==> s[k] != '\n'
  {
    if s == [] || s[0] == '\n' then 0 else 1 + LineEnd(s[1..])
  }

  function StripCr(l: string): string {
    if l != [] && l[|l| - 1] == '\r' then l[..|l| - 1] else l
  }

  /** `str::lines`: pieces between newlines, without a final empty piece; a carriage return is
      dropped only right before a newline. */
  function Lines(s: string): seq<string> {
    if s == [] then []
    else
      var n := LineEnd(s);
      if n == |s| then [s] else [StripCr(s[..n])] + Lines(s[n + 1..])
  }

  /** One line trimmed, dropped when nothing is left. */
  function CleanLine(l: string): seq<string> {
    if Trim(l) == [] then [] else [Trim(l)]
  }

  function Clean(ls: seq<string>): seq<string> {
    if ls == [] then [] else CleanLine(ls[0]) + Clean(ls[1..])
  }

  /** `s.lines().map(trim).filter(non-empty)`. */
  function Canonical(s: string): seq<string> {
    Clean(Lines(s))
  }

  /** Lines written back one per row. */
  function Join(ls: seq<string>): string {
    if ls == [] then "" else ls[0] + "\n" + Join(ls[1..])
  }

  /** What every canonical line looks like. */
  predicate CanonicalLine(l: string) {
    l != [] && Tight(l) && '\n' !in l
  }

  // ---------------------------------------------------------------- trimming

  lemma {:induction false} TrimStartPad(a: string, m: string)
    requires AllSpace(a)
    requires m == [] || !IsWhitespace(m[0])
    ensures TrimStart(a + m) == m
  {
    if a == [] {
      assert a + m == m;
    } else {
      assert (a + m)[1..] == a[1..] + m;
      TrimStartPad(a[1..], m);
    }
  }

  lemma {:induction false} TrimEndPad(m: string, b: string)
    requires AllSpace(b)
    requires m == [] || !IsWhitespace(m[|m| - 1])
    ensures TrimEnd(m + b) == m
  {
    if b == [] {
      assert m + b == m;
    } else {
      assert (m + b)[..|m + b| - 1] == m + b[..|b| - 1];
      TrimEndPad(m, b[..|b| - 1]);
    }
  }

  /** Trimming removes exactly the whitespace padding. */
  lemma TrimPad(a: string, m: string, b: string)
    requires AllSpace(a) && AllSpace(b) && Tight(m)
    ensures Trim(a + m + b) == m
  {
    if m == [] {
      assert a + m + b == (a + b) + [];
      TrimStartPad(a + b, []);
    } else {
      assert a + m + b == a + (m + b);
      TrimStartPad(a, m + b);
      TrimEndPad(m, b);
    }
  }

  lemma {:induction false} TrimStartParts(s: string) returns (a: string)
    ensures AllSpace(a) && s == a + TrimStart(s)
    ensures TrimStart(s) == [] || !IsWhitespace(TrimStart(s)[0])
  {
    if s != [] && IsWhitespace(s[0]) {
      a := TrimStartParts(s[1..]);
      a := [s[0]] + a;
    } else {
      a := [];
    }
  }

  lemma {:induction false} TrimEndParts(s: string) returns (b: string)
    ensures AllSpace(b) && s == TrimEnd(s) + b
    ensures TrimEnd(s) == [] || !IsWhitespace(TrimEnd(s)[|TrimEnd(s)| - 1])
  {
    if s != [] && IsWhitespace(s[|s| - 1]) {
      b := TrimEndParts(s[..|s| - 1]);
      b := b + [s[|s| - 1]];
    } else {
      b := [];
    }
  }

  /** Every string is its trimmed part between two whitespace pads. */
  lemma TrimParts(s: string) returns (a: string, b: string)
    ensures AllSpace(a) && AllSpace(b) && Tight(Trim(s))
    ensures s == a + Trim(s) + b
  {
    a := TrimStartParts(s);
    var t := TrimStart(s);
    b := TrimEndParts(t);
    if Trim(s) != [] {
      assert t[0] == Trim(s)[0];
    }
  }

  lemma TrimEmptyIffSpace(s: string)
    ensures Trim(s) == [] <==> AllSpace(s)
  {
    var a, b := TrimParts(s);
    if AllSpace(s) {
      TrimPad(s, [], []);
      assert s + [] + [] == s;
    }
  }

  lemma TrimStripCr(l: string)
    ensures Trim(StripCr(l)) == Trim(l)
  {
    if StripCr(l) != l {
      var k := StripCr(l);
      var a, b := TrimParts(k);
      assert l == k + ['\r'];
      assert l == a + Trim(k) + (b + ['\r']);
      TrimPad(a, Trim(k), b + ['\r']);
    }
  }

  // ------------------------------------------------------------ line structure

  lemma LineEndIs(s: string, n: nat)
    requires n <= |s|
    requires forall k :: 0 <= k < n ==> s[k] != '\n'
    requires n < |s| ==> s[n] == '\n'
    ensures LineEnd(s) == n
  {}

  lemma LinesStep(l: string, rest: string)
    requires '\n' !in l
    ensures Lines(l + "\n" + rest) == [StripCr(l)] + Lines(rest)
  {
    var s := l + "\n" + rest;
    LineEndIs(s, |l|);
    assert s[..|l|] == l && s[|l| + 1..] == rest;
  }

  /** The first newline splits off one line. */
  lemma CanonicalStep(l: string, rest: string)
    requires '\n' !in l
    ensures Canonical(l + "\n" + rest) == CleanLine(l) + Canonical(rest)
  {
    LinesStep(l, rest);
    TrimStripCr(l);
  }

  lemma CanonicalLast(l: string)
    requires '\n' !in l
    ensures Canonical(l) == CleanLine(l)
  {
    if l == [] {
      TrimEmptyIffSpace(l);
    } else {
      LineEndIs(l, |l|);
      assert Clean([l]) == CleanLine(l) + Clean([]);
    }
  }

  lemma Regroup(l: string, x: string, y: string)
    ensures (l + "\n" + x) + "\n" + y == l + "\n" + (x + "\n" + y)
  {}

  lemma AppendNothing(s: string)
    ensures s + "\n" + "" == s + "\n"
  {}

  lemma Associates<T>(a: seq<T>, b: seq<T>, c: seq<T>)
    ensures a + b + c == a + (b + c)
  {}

  /** A string is a line without newline, or such a line, a newline and a shorter rest. */
  lemma SplitLine(s: string) returns (l: string, rest: string)
    requires '\n' in s
    ensures '\n' !in l && s == l + "\n" + rest && |rest| < |s|
  {
    var n := LineEnd(s);
    l, rest := s[..n], s[n + 1..];
  }

  lemma CanonicalConcatLater(l: string, rest: string, restB: string, a: string, aB: string, b: string)
    requires '\n' !in l
    requires a == l + "\n" + rest && aB == l + "\n" + restB
    requires Canonical(restB) == Canonical(rest) + Canonical(b)
    ensures Canonical(aB) == Canonical(a) + Canonical(b)
  {
    CanonicalStep(l, restB);
    CanonicalStep(l, rest);
    Associates(CleanLine(l), Canonical(rest), Canonical(b));
  }

  lemma CanonicalConcatFirst(a: string, b: string)
    requires '\n' !in a
    ensures Canonical(a + "\n" + b) == Canonical(a) + Canonical(b)
  {
    CanonicalStep(a, b);
    CanonicalLast(a);
  }

  /** Canonicalisation is a homomorphism over newline-separated concatenation. */
  lemma {:induction false} CanonicalConcat(a: string, b: string)
    ensures Canonical(a + "\n" + b) == Canonical(a) + Canonical(b)
    decreases |a|
  {
    if '\n' in a {
      var l, rest := SplitLine(a);
      CanonicalConcat(rest, b);
      Regroup(l, rest, b);
      CanonicalConcatLater(l, rest, rest + "\n" + b, a, a + "\n" + b, b);
    } else {
      CanonicalConcatFirst(a, b);
    }
  }

  /** A final newline changes nothing. */
  lemma CanonicalTerminated(a: string)
    ensures Canonical(a + "\n") == Canonical(a)
  {
    CanonicalConcat(a, "");
    AppendNothing(a);
  }

  /** Splitting into lines respects concatenation after a newline. */
  lemma {:induction false} LinesConcat(a: string, b: string)
    ensures Lines(a + "\n" + b) == Lines(a + "\n") + Lines(b)
    decreases |a|
  {
    if '\n' in a {
      var l, rest := SplitLine(a);
      Regroup(l, rest, b);
      Regroup(l, rest, "");
      AppendNothing(a);
      AppendNothing(rest);
      LinesStep(l, rest + "\n" + b);
      LinesStep(l, rest + "\n");
      LinesConcat(rest, b);
    } else {
      LinesStep(a, b);
      LinesStep(a, "");
      AppendNothing(a);
    }
  }

  lemma TrimNoNewline(l: string)
    requires '\n' !in l
    ensures '\n' !in Trim(l) && Tight(Trim(l))
  {
    var a, b := TrimParts(l);
    assert forall c :: c in Trim(l) ==> c in a + Trim(l) + b;
  }

  /** Every line of the canonical form is non-empty, tight and free of newlines. */
  lemma {:induction false} CanonicalLinesAre(s: string)
    ensures forall k :: 0 <= k < |Canonical(s)| ==> CanonicalLine(Canonical(s)[k])
    decreases |s|
  {
    if '\n' in s {
      var l, rest := SplitLine(s);
      CanonicalStep(l, rest);
      CanonicalLinesAre(rest);
      TrimNoNewline(l);
    } else {
      CanonicalLast(s);
      TrimNoNewline(s);
    }
  }

  /** Canonical lines survive being written out and read back. */
  lemma {:induction false} CanonicalJoin(ls: seq<string>)
    requires forall k :: 0 <= k < |ls| ==> CanonicalLine(ls[k])
    ensures Canonical(Join(ls)) == ls
  {
    if ls != [] {
      var l := ls[0];
      assert CanonicalLine(l);
      CanonicalStep(l, Join(ls[1..]));
      TrimPad([], l, []);
      assert [] + l + [] == l;
      CanonicalJoin(ls[1..]);
    }
  }

  /** Canonicalisation is idempotent after re-joining. */
  lemma CanonicalIdempotent(s: string)
    ensures Canonical(Join(Canonical(s))) == Canonical(s)
  {
    CanonicalLinesAre(s);
    CanonicalJoin(Canonical(s));
  }

  // ------------------------------------------------- whole text against its lines

  lemma AllSpaceConcat(a: string, b: string)
    ensures AllSpace(a + "\n" + b) <==> AllSpace(a) && AllSpace(b)
  {
    var t := a + "\n" + b;
    assert t[..|a|] == a && t[|a| + 1..] == b;
    if AllSpace(t) {
      forall k | 0 <= k < |b| ensures IsWhitespace(b[k]) { assert b[k] == t[|a| + 1 + k]; }
    }
  }

  /** Padding around a text may include whole blank lines. */
  lemma TrimAround(a: string, m: string, b: string, s: string)
    requires AllSpace(a) && AllSpace(b) && Tight(m) && s == a + m + b
    ensures Trim(s) == m
  {
    TrimPad(a, m, b);
  }

  /** No canonical line is left exactly when the whole text is whitespace. */
  lemma {:induction false} CanonicalEmptyIff(s: string)
    ensures Canonical(s) == [] <==> AllSpace(s)
    decreases |s|
  {
    if '\n' in s {
      var l, rest := SplitLine(s);
      CanonicalStep(l, rest);
      CanonicalEmptyIff(rest);
      TrimEmptyIffSpace(l);
      AllSpaceConcat(l, rest);
    } else {
      CanonicalLast(s);
      TrimEmptyIffSpace(s);
    }
  }

  lemma TrimBlankThen(l: string, rest: string)
    requires AllSpace(l)
    ensures Trim(l + "\n" + rest) == Trim(rest)
  {
    var a, b := TrimParts(rest);
    AllSpaceConcat(l, a);
    TrimAround(l + "\n" + a, Trim(rest), b, l + "\n" + rest);
  }

  lemma TrimThenBlank(l: string, rest: string)
    requires AllSpace(rest)
    ensures Trim(l + "\n" + rest) == Trim(l)
  {
    var a, b := TrimParts(l);
    AllSpaceConcat(b, rest);
    TrimAround(a, Trim(l), b + "\n" + rest, l + "\n" + rest);
  }

  lemma TrimSpans(l: string, rest: string)
    requires !AllSpace(l) && !AllSpace(rest)
    ensures '\n' in Trim(l + "\n" + rest)
  {
    var a, b := TrimParts(l);
    var c, d := TrimParts(rest);
    TrimEmptyIffSpace(l);
    TrimEmptyIffSpace(rest);
    var middle := Trim(l) + b + "\n" + c + Trim(rest);
    assert middle[|Trim(l) + b|] == '\n';
    TrimAround(a, middle, d, l + "\n" + rest);
  }

  /** Trimming a text with a single non-blank line gives that line; with several it keeps a newline. */
  lemma {:induction false} TrimAgainstLines(s: string)
    ensures |Canonical(s)| == 1 ==> Trim(s) == Canonical(s)[0]
    ensures |Canonical(s)| >= 2 ==> '\n' in Trim(s)
    decreases |s|
  {
    if '\n' in s {
      var l, rest := SplitLine(s);
      CanonicalStep(l, rest);
      TrimEmptyIffSpace(l);
      CanonicalEmptyIff(rest);
      if AllSpace(l) {
        TrimBlankThen(l, rest);
        TrimAgainstLines(rest);
      } else if AllSpace(rest) {
        TrimThenBlank(l, rest);
      } else {
        TrimSpans(l, rest);
      }
    } else {
      CanonicalLast(s);
    }
  }

  // ------------------------------------------------------------ what lines are

  /** A line ends at its newline; one carriage return right before that goes with it, any other stays. */
  lemma LinesAre(l: string, rest: string)
    requires '\n' !in l
    ensures Lines(l + "\r" + "\n" + rest) == [l] + Lines(rest)
    ensures l == "" || l[|l| - 1] != '\r' ==> Lines(l + "\n" + rest) == [l] + Lines(rest)
    ensures l != "" ==> Lines(l) == [l]
    ensures Lines("") == []
  {
    LinesStep(l, rest);
    LinesStep(l + "\r", rest);
    if l != "" {
      LineEndIs(l, |l|);
    }
  }

  /** The code points that trimming removes. */
  lemma WhitespaceIs(c: char)
    ensures IsWhitespace(c) <==>
      || 9 <= c as int <= 13 || 8192 <= c as int <= 8202
      || c as int in {32, 133, 160, 5760, 8232, 8233, 8239, 8287, 12288}
  {}
}
