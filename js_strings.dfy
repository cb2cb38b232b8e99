/**
 * JavaScript strings as sequences of UTF-16 code units (what `charCodeAt`
 * returns), and the string operations of the standard library that the
 * scheduling code uses: `trim`, `slice(0, n)`, `replace`, `replaceAll`,
 * `split(/\s+/)` and the `<` comparison of two strings.
 */
module JsStrings {

  /** One UTF-16 code unit. */
  type CodeUnit = c: int | 0 <= c < 0x1_0000

  type JsString = seq<CodeUnit>

  /**
   * A Dafny string literal as code units, one per character. The literals of
   * this model are ASCII, where a character and its code unit agree.
   */
  function Lit(s: string): (r: JsString)
    ensures |r| == |s|
    ensures forall i :: 0 <= i < |s| && s[i] as int < 0x1_0000 ==> r[i] == s[i] as int
  {
    seq(|s|, i requires 0 <= i < |s| => s[i] as int % 0x1_0000)
  }

  lemma LitAppend(a: string, b: string)
    ensures Lit(a + b) == Lit(a) + Lit(b)
  {
  }

  const SPACE: CodeUnit := 0x20
  const DASH: CodeUnit := 0x2D
  const STAR: CodeUnit := 0x2A
  const COLON: CodeUnit := 0x3A
  const COMMA: CodeUnit := 0x2C
  const PIPE: CodeUnit := 0x7C

  /**
   * The WhiteSpace and LineTerminator code units of ECMAScript, the set that
   * both `String.prototype.trim` and the regular-expression class `\s` use,
   * as ten ranges `[lo, hi]` of code units, numbered from 0.
   */
  function WhitespaceRange(k: nat): (CodeUnit, CodeUnit)
    requires k < 10
  {
    match k
    case 0 => (0x09, 0x0D)    // tab, line feed, vertical tab, form feed, carriage return
    case 1 => (0x20, 0x20)    // space
    case 2 => (0xA0, 0xA0)    // no-break space
    case 3 => (0x1680, 0x1680)
    case 4 => (0x2000, 0x200A)
    case 5 => (0x2028, 0x2029) // line and paragraph separators
    case 6 => (0x202F, 0x202F)
    case 7 => (0x205F, 0x205F)
    case 8 => (0x3000, 0x3000)
    case _ => (0xFEFF, 0xFEFF) // byte order mark
  }

  /** Whether c lies in one of the whitespace ranges numbered k and above. */
  predicate InWhitespaceFrom(c: CodeUnit, k: nat)
    requires k <= 10
    decreases 10 - k
  {
    k < 10 && (WhitespaceRange(k).0 <= c <= WhitespaceRange(k).1 || InWhitespaceFrom(c, k + 1))
  }

  predicate IsWhitespace(c: CodeUnit) {
    InWhitespaceFrom(c, 0)
  }

  predicate NoWhitespace(s: JsString) {
    forall i :: 0 <= i < |s| ==> !IsWhitespace(s[i])
  }

  // ---------------------------------------------------------------------
  // trim

  /** `s.trimStart()`: the text after the leading run of whitespace. */
  function TrimStart(s: JsString): (r: JsString)
    ensures |r| <= |s| && r == s[|s| - |r|..]
    ensures forall i :: 0 <= i < |s| - |r| ==> IsWhitespace(s[i])
    ensures r == [] || !IsWhitespace(r[0])
  {
    s[GapLength(s)..]
  }

  /** `s.trimEnd()`: the text before the trailing run of whitespace. */
  function TrimEnd(s: JsString): (r: JsString)
    ensures |r| <= |s| && r == s[..|r|]
    ensures forall i :: |r| <= i < |s| ==> IsWhitespace(s[i])
    ensures r == [] || !IsWhitespace(r[|r| - 1])
  {
    if s != [] && IsWhitespace(s[|s| - 1]) then TrimEnd(s[..|s| - 1]) else s
  }

  /** `s.trim()`: whitespace removed from both ends, nothing else changed. */
  function Trim(s: JsString): (r: JsString)
  {
    TrimEnd(TrimStart(s))
  }

  /**
   * What `trim` keeps is a contiguous piece of its input that neither starts
   * nor ends with whitespace; everything cut away is whitespace.
   */
  lemma TrimIsInfix(s: JsString)
    ensures var r, k := Trim(s), |s| - |TrimStart(s)|;
      k + |r| <= |s| && r == s[k..k + |r|]
      && (forall i :: 0 <= i < k ==> IsWhitespace(s[i]))
      && (forall i :: k + |r| <= i < |s| ==> IsWhitespace(s[i]))
      && (r == [] || (!IsWhitespace(r[0]) && !IsWhitespace(r[|r| - 1])))
  {
    var t := TrimStart(s);
    var r := TrimEnd(t);
    var k := |s| - |t|;
    assert r == s[k..k + |r|];
    if r != [] {
      assert r[0] == t[0];
    }
  }

  /** A string without whitespace is left alone by `trim`. */
  lemma {:induction false} TrimNoWhitespace(s: JsString)
    requires NoWhitespace(s)
    ensures Trim(s) == s
  {
  }

  /** `trim` is idempotent. */
  lemma TrimIdempotent(s: JsString)
    ensures Trim(Trim(s)) == Trim(s)
  {
    var r := Trim(s);
    TrimIsInfix(s);
    assert TrimStart(r) == r;
    assert TrimEnd(r) == r;
  }

  // ---------------------------------------------------------------------
  // slice(0, n)

  /** The smaller of two numbers. */
  function Min(a: int, b: int): int {
    if a <= b then a else b
  }

  /** `s.slice(0, n)` for n >= 0: the first n code units, or all of them. */
  function Take(s: JsString, n: nat): (r: JsString)
    ensures |r| == Min(|s|, n)
    ensures r <= s
  {
    if |s| <= n then s else s[..n]
  }

  // ---------------------------------------------------------------------
  // replace and replaceAll with a string pattern

  /** `s.replace(pat, rep)`: only the first occurrence of `pat` is replaced. */
  function ReplaceFirst(s: JsString, pat: JsString, rep: JsString): (r: JsString)
    requires |pat| > 0
    decreases |s|
  {
    if |s| < |pat| then s
    else if pat <= s then rep + s[|pat|..]
    else [s[0]] + ReplaceFirst(s[1..], pat, rep)
  }

  /** A string that starts with the pattern loses exactly that prefix. */
  lemma ReplaceFirstAtStart(pat: JsString, rest: JsString, rep: JsString)
    requires |pat| > 0
    ensures ReplaceFirst(pat + rest, pat, rep) == rep + rest
  {
    assert pat <= pat + rest;
    assert (pat + rest)[|pat|..] == rest;
  }

  /**
   * `s.replaceAll(pat, rep)`: occurrences are found left to right and do not
   * overlap; replaced text is not searched again.
   */
  function ReplaceAll(s: JsString, pat: JsString, rep: JsString): (r: JsString)
    requires |pat| > 0
    decreases |s|
  {
    if |s| < |pat| then s
    else if pat <= s then rep + ReplaceAll(s[|pat|..], pat, rep)
    else [s[0]] + ReplaceAll(s[1..], pat, rep)
  }

  /** Whether `pat` occurs in `s` starting at index i. */
  predicate OccursAt(s: JsString, pat: JsString, i: int) {
    0 <= i && i + |pat| <= |s| && s[i..i + |pat|] == pat
  }

  /** Replacing by a string of the same length keeps the length. */
  lemma {:induction false} ReplaceAllLength(s: JsString, pat: JsString, rep: JsString)
    requires |pat| > 0 && |rep| == |pat|
    ensures |ReplaceAll(s, pat, rep)| == |s|
    decreases |s|
  {
    if |s| < |pat| {
    } else if pat <= s {
      ReplaceAllLength(s[|pat|..], pat, rep);
    } else {
      ReplaceAllLength(s[1..], pat, rep);
    }
  }

  /**
   * Replacing one code unit by one code unit is a pointwise map: every
   * occurrence of `p` becomes `q` and every other code unit stays.
   */
  lemma {:induction false} ReplaceAllUnit(s: JsString, p: CodeUnit, q: CodeUnit)
    ensures |ReplaceAll(s, [p], [q])| == |s|
    ensures forall i :: 0 <= i < |s| ==>
      ReplaceAll(s, [p], [q])[i] == (if s[i] == p then q else s[i])
    decreases |s|
  {
    if |s| == 0 {
    } else {
      var r := ReplaceAll(s, [p], [q]);
      ReplaceAllUnit(s[1..], p, q);
      if [p] <= s {
        assert r == [q] + ReplaceAll(s[1..], [p], [q]);
      } else {
        assert r == [s[0]] + ReplaceAll(s[1..], [p], [q]);
      }
    }
  }

  // ---------------------------------------------------------------------
  // split(/\s+/)

  /** Length of the longest prefix without whitespace. */
  function WordLength(s: JsString): (n: nat)
    ensures n <= |s|
    ensures forall i :: 0 <= i < n ==> !IsWhitespace(s[i])
    ensures n < |s| ==> IsWhitespace(s[n])
  {
    if s == [] || IsWhitespace(s[0]) then 0 else 1 + WordLength(s[1..])
  }

  /** Length of the longest prefix made of whitespace. */
  function GapLength(s: JsString): (n: nat)
    ensures n <= |s|
    ensures forall i :: 0 <= i < n ==> IsWhitespace(s[i])
    ensures n < |s| ==> !IsWhitespace(s[n])
  {
    if s == [] || !IsWhitespace(s[0]) then 0 else 1 + GapLength(s[1..])
  }

  /**
   * `s.split(/\s+/)`: the pieces between maximal runs of whitespace. A
   * string that starts (ends) with whitespace yields an empty first (last)
   * piece, and the empty string yields one empty piece.
   */
  function SplitWhitespace(s: JsString): (parts: seq<JsString>)
    ensures |parts| >= 1
    decreases |s|
  {
    var w := WordLength(s);
    if w == |s| then [s]
    else
      var g := GapLength(s[w..]);
      [s[..w]] + SplitWhitespace(s[w + g..])
  }

  /** No piece that `split(/\s+/)` returns contains whitespace. */
  lemma {:induction false} SplitPiecesHaveNoWhitespace(s: JsString)
    ensures forall k :: 0 <= k < |SplitWhitespace(s)| ==> NoWhitespace(SplitWhitespace(s)[k])
    decreases |s|
  {
    var w := WordLength(s);
    if w < |s| {
      var rest := s[w + GapLength(s[w..])..];
      SplitPiecesHaveNoWhitespace(rest);
      assert SplitWhitespace(s) == [s[..w]] + SplitWhitespace(rest);
    }
  }

  /** Leading whitespace produces an empty first piece. */
  lemma SplitLeadingWhitespace(s: JsString)
    requires s != [] && IsWhitespace(s[0])
    ensures SplitWhitespace(s)[0] == []
  {
  }

  /** Trailing whitespace produces an empty last piece. */
  lemma {:induction false} SplitTrailingWhitespace(s: JsString)
    requires s != [] && IsWhitespace(s[|s| - 1])
    ensures SplitWhitespace(s)[|SplitWhitespace(s)| - 1] == []
    decreases |s|
  {
    var first, rest := SplitAtTrailingWhitespace(s);
    if rest == [] {
      SplitEmpty();
    } else {
      SplitTrailingWhitespace(rest);
    }
    LastPieceOfRest(first, SplitWhitespace(rest));
  }

  /**
   * A string that ends with whitespace splits into its first piece and the
   * pieces of a shorter string that, unless empty, ends with whitespace too.
   */
  lemma SplitAtTrailingWhitespace(s: JsString) returns (first: JsString, rest: JsString)
    requires s != [] && IsWhitespace(s[|s| - 1])
    ensures SplitWhitespace(s) == [first] + SplitWhitespace(rest)
    ensures |rest| < |s|
    ensures rest == [] || IsWhitespace(rest[|rest| - 1])
  {
    var w := WordLength(s);
    assert w < |s|;
    var g := GapLength(s[w..]);
    first, rest := s[..w], s[w + g..];
    if rest != [] {
      assert rest[|rest| - 1] == s[|s| - 1];
    }
  }

  /** The empty string splits into one empty piece. */
  lemma SplitEmpty()
    ensures SplitWhitespace([]) == [[]]
  {
  }

  lemma LastPieceOfRest(first: JsString, tail: seq<JsString>)
    requires tail != []
    ensures ([first] + tail)[|tail|] == tail[|tail| - 1]
  {
  }

  // ---------------------------------------------------------------------
  // the `<` operator on strings

  /** `a < b` on JavaScript strings: lexicographic order of code units. */
  predicate Less(a: JsString, b: JsString)
    decreases |a|
  {
    if a == [] then b != []
    else if b == [] then false
    else if a[0] != b[0] then a[0] < b[0]
    else Less(a[1..], b[1..])
  }

  lemma {:induction false} LessIrreflexive(a: JsString)
    ensures !Less(a, a)
    decreases |a|
  {
    if a != [] {
      LessIrreflexive(a[1..]);
    }
  }

  lemma {:induction false} LessTransitive(a: JsString, b: JsString, c: JsString)
    requires Less(a, b) && Less(b, c)
    ensures Less(a, c)
    decreases |a|
  {
    if a != [] && b != [] && c != [] && a[0] == b[0] && b[0] == c[0] {
      LessTransitive(a[1..], b[1..], c[1..]);
    }
  }

  /** Any two different strings are ordered one way or the other. */
  lemma {:induction false} LessTotal(a: JsString, b: JsString)
    requires a != b
    ensures Less(a, b) || Less(b, a)
    decreases |a|
  {
    if a != [] && b != [] && a[0] == b[0] {
      assert a == [a[0]] + a[1..] && b == [b[0]] + b[1..];
      LessTotal(a[1..], b[1..]);
    }
  }

  lemma {:induction false} LessAsymmetric(a: JsString, b: JsString)
    requires Less(a, b)
    ensures !Less(b, a)
    decreases |a|
  {
    if a != [] && b != [] && a[0] == b[0] {
      LessAsymmetric(a[1..], b[1..]);
    }
  }
}
