/**
 * The tag fingerprint and the tag projection of handlers/src/hash-helper.ts:
 * the 53-bit string hash cyrb53, the "V1" fingerprint of a secret's
 * scheduling tags, the key renaming `toCamelCase`, and `getTags`.
 */
module HashHelper {
  import opened Wrappers
  import opened JsStrings
  import opened Decimal

  // ---------------------------------------------------------------------
  // cyrb53

  /** `Math.imul`: the low 32 bits of the product, as bits. */
  function Imul(a: bv32, b: bv32): bv32 {
    a * b
  }

  const SEED_1: bv32 := 0xdeadbeef
  const SEED_2: bv32 := 0x41c6ce57
  const MUL_1: bv32 := 2654435761
  const MUL_2: bv32 := 1597334677
  const AVALANCHE_1: bv32 := 2246822507
  const AVALANCHE_2: bv32 := 3266489909


  /** The two 32-bit accumulators. */
  datatype Accumulators = Accumulators(h1: bv32, h2: bv32)

  /** The accumulators before the first code unit. */
  function Seeded(seed: bv32): Accumulators {
    Accumulators(SEED_1 ^ seed, SEED_2 ^ seed)
  }

  /** `Math.imul(h ^ ch, mul)`: one accumulator absorbs the code unit `ch`. */
  function MixIn(h: bv32, ch: CodeUnit, mul: bv32): bv32 {
    Imul(h ^ (ch as bv32), mul)
  }

  /** One turn of the loop: both accumulators absorb the code unit `ch`. */
  function MixUnit(acc: Accumulators, ch: CodeUnit): Accumulators {
    Accumulators(MixIn(acc.h1, ch, MUL_1), MixIn(acc.h2, ch, MUL_2))
  }

  /** The accumulators after absorbing every code unit of `s`, in order. */
  function Absorb(acc: Accumulators, s: JsString): Accumulators
    decreases |s|
  {
    if s == [] then acc else MixUnit(Absorb(acc, s[..|s| - 1]), s[|s| - 1])
  }

  /**
   * Hashing is streaming: absorbing `a + b` is absorbing `a` and then `b`
   * from where `a` left off, so each code unit is consumed once and in order.
   */
  lemma {:induction false} AbsorbAppend(acc: Accumulators, a: JsString, b: JsString)
    ensures Absorb(acc, a + b) == Absorb(Absorb(acc, a), b)
    decreases |b|
  {
    if b != [] {
      var b' := b[..|b| - 1];
      assert (a + b)[..|a + b| - 1] == a + b';
      assert (a + b)[|a + b| - 1] == b[|b| - 1];
      AbsorbAppend(acc, a, b');
    } else {
      assert a + b == a;
    }
  }

  /** `Math.imul(h ^ (h >>> shift), mul)` */
  function ShiftMix(h: bv32, shift: nat, mul: bv32): bv32
    requires shift <= 32
  {
    Imul(h ^ (h >> shift), mul)
  }

  /** The two-round avalanche at the end of cyrb53; the second line of each round reads the other accumulator. */
  function Avalanche(acc: Accumulators): Accumulators {
    var h1 := ShiftMix(acc.h1, 16, AVALANCHE_1);
    var h1 := h1 ^ ShiftMix(acc.h2, 13, AVALANCHE_2);
    var h2 := ShiftMix(acc.h2, 16, AVALANCHE_1);
    var h2 := h2 ^ ShiftMix(h1, 13, AVALANCHE_2);
    Accumulators(h1, h2)
  }

  /** `2097151 & h2`: the low 21 bits of h2, as a number. */
  function Low21(h2: bv32): (n: nat)
    ensures n < 0x20_0000
  {
    ((h2 & 0x1F_FFFF) as bv21) as int
  }

  /** `h1 >>> 0`: the bits of h1 read as an unsigned number. */
  function Unsigned(h1: bv32): (n: nat)
    ensures n < 0x1_0000_0000
  {
    h1 as int
  }

  /**
   * `4294967296 * high + low`: the 21 high bits above the 32 low bits, a
   * number below 2^53 from which both parts can be read back.
   */
  function Combine(high: nat, low: nat): (r: nat)
    requires high < 0x20_0000 && low < 0x1_0000_0000
    ensures r < 0x20_0000_0000_0000
    ensures r % 0x1_0000_0000 == low && r / 0x1_0000_0000 == high
  {
    0x1_0000_0000 * high + low
  }

  /** The number cyrb53 returns once the accumulators have absorbed the whole string. */
  function Finish(acc: Accumulators): (h: nat)
    ensures h < 0x20_0000_0000_0000
  {
    var mixed := Avalanche(acc);
    Combine(Low21(mixed.h2), Unsigned(mixed.h1))
  }

  /**
   * The value cyrb53 returns for `read + rest`, as a recursion over the code
   * units `rest` that the loop has still to read.
   */
  function Digest(seed: bv32, read: JsString, rest: JsString): (h: nat)
    decreases |rest|
  {
    if rest == [] then Finish(Absorb(Seeded(seed), read)) else Digest(seed, read + [rest[0]], rest[1..])
  }

  /** The value cyrb53 returns for `str` and `seed`. */
  function Cyrb53Value(str: JsString, seed: bv32): nat {
    Digest(seed, [], str)
  }

  /** Reading the rest of a string and finishing is absorbing all of it and finishing. */
  lemma {:induction false} DigestAbsorbs(seed: bv32, read: JsString, rest: JsString)
    ensures Digest(seed, read, rest) == Finish(Absorb(Seeded(seed), read + rest))
    decreases |rest|
  {
    if rest == [] {
      assert read + rest == read;
    } else {
      DigestAbsorbs(seed, read + [rest[0]], rest[1..]);
      assert read + [rest[0]] + rest[1..] == read + rest;
    }
  }

  /** `cyrb53(str, seed)`, with the loop over the code units of `str`. */
  method Cyrb53(str: JsString, seed: bv32 := 0) returns (h: nat)
    ensures h == Cyrb53Value(str, seed)
    ensures h < 0x20_0000_0000_0000
  {
    var h1, h2 := SEED_1 ^ seed, SEED_2 ^ seed;
    var i := 0;
    while i < |str|
      invariant 0 <= i <= |str|
      invariant Accumulators(h1, h2) == Absorb(Seeded(seed), str[..i])
    {
      var ch := str[i];
      assert str[..i + 1][..i] == str[..i];
      h1 := MixIn(h1, ch, MUL_1);
      h2 := MixIn(h2, ch, MUL_2);
      i := i + 1;
    }
    assert str[..i] == str;
    DigestAbsorbs(seed, [], str);
    assert [] + str == str;
    var mixed := Avalanche(Accumulators(h1, h2));
    h := Combine(Low21(mixed.h2), Unsigned(mixed.h1));
  }

  // ---------------------------------------------------------------------
  // hashTagsV1

  /** The scheduling tags of a secret (the `AutoDumpTags` interface). */
  datatype AutoDumpTags = AutoDumpTags(timezone: Option<JsString>, startSchedule: Option<JsString>)

  const VERSION_PREFIX: JsString := Lit("V1")

  /** The hashed subject: `${timezone ?? ""}|${startSchedule ?? ""}`. */
  function Subject(tags: AutoDumpTags): (r: JsString)
    ensures r != []
  {
    tags.timezone.GetOr([]) + [PIPE] + tags.startSchedule.GetOr([])
  }

  /** "V1" followed by the decimal digits of cyrb53 of `subject`. */
  function Fingerprint(subject: JsString): (r: JsString)
    ensures |r| > |VERSION_PREFIX| && r[..2] == VERSION_PREFIX
    ensures AllDigits(r[2..]) && DigitsValue(r[2..]) == Cyrb53Value(subject, 0)
  {
    var digits := NatToString(Cyrb53Value(subject, 0));
    NatToStringRoundTrip(Cyrb53Value(subject, 0));
    assert (VERSION_PREFIX + digits)[2..] == digits;
    VERSION_PREFIX + digits
  }

  /** Two fingerprints agree exactly when the cyrb53 values of their subjects do. */
  lemma FingerprintAgree(a: JsString, b: JsString)
    ensures Fingerprint(a) == Fingerprint(b) <==> Cyrb53Value(a, 0) == Cyrb53Value(b, 0)
  {
    if Fingerprint(a) == Fingerprint(b) {
      assert Fingerprint(a)[2..] == Fingerprint(b)[2..];
    }
  }

  /** `hashTagsV1`: "V1" followed by the decimal digits of cyrb53 of the subject. */
  function HashTagsV1(tags: AutoDumpTags): (r: JsString)
    ensures |r| > |VERSION_PREFIX| && r[..2] == VERSION_PREFIX
    ensures AllDigits(r[2..]) && DigitsValue(r[2..]) == Cyrb53Value(Subject(tags), 0)
  {
    Fingerprint(Subject(tags))
  }

  /** Two fingerprints agree exactly when the cyrb53 values of their subjects do. */
  lemma HashTagsV1Agree(a: AutoDumpTags, b: AutoDumpTags)
    ensures HashTagsV1(a) == HashTagsV1(b) <==>
      Cyrb53Value(Subject(a), 0) == Cyrb53Value(Subject(b), 0)
  {
    FingerprintAgree(Subject(a), Subject(b));
  }

  /** An absent tag and a tag with the empty value give the same fingerprint. */
  lemma AbsentHashesAsEmpty(tags: AutoDumpTags)
    ensures HashTagsV1(tags.(timezone := None)) == HashTagsV1(tags.(timezone := Some([])))
    ensures HashTagsV1(tags.(startSchedule := None)) == HashTagsV1(tags.(startSchedule := Some([])))
  {
  }

  /**
   * The separator is not escaped: timezone "a|" with schedule "b" and
   * timezone "a" with schedule "|b" have the same subject, hence the same
   * fingerprint, although the tags differ.
   */
  lemma SeparatorCollision()
    ensures var x := AutoDumpTags(Some(Lit("a|")), Some(Lit("b")));
      var y := AutoDumpTags(Some(Lit("a")), Some(Lit("|b")));
      x != y && HashTagsV1(x) == HashTagsV1(y)
  {
    var x := AutoDumpTags(Some(Lit("a|")), Some(Lit("b")));
    var y := AutoDumpTags(Some(Lit("a")), Some(Lit("|b")));
    assert Subject(x) == Subject(y);
    assert Lit("a|") != Lit("a");
  }

  // ---------------------------------------------------------------------
  // toCamelCase

  /** Matches the character class `[a-zA-Z0-9]`. */
  predicate IsAlnum(c: CodeUnit) {
    (0x30 <= c <= 0x39) || (0x41 <= c <= 0x5A) || (0x61 <= c <= 0x7A)
  }

  predicate IsLower(c: CodeUnit) {
    0x61 <= c <= 0x7A
  }

  predicate IsUpper(c: CodeUnit) {
    0x41 <= c <= 0x5A
  }

  /** `toUpperCase` of one ASCII letter or digit. */
  function ToUpper(c: CodeUnit): CodeUnit {
    if IsLower(c) then c - 0x20 else c
  }

  /** `toLowerCase` of one ASCII letter or digit. */
  function ToLower(c: CodeUnit): CodeUnit {
    if IsUpper(c) then c + 0x20 else c
  }

  /** Length of the longest prefix matched by `[a-zA-Z0-9]+`. */
  function AlnumPrefixLength(s: JsString): (n: nat)
    ensures n <= |s|
    ensures forall i :: 0 <= i < n ==> IsAlnum(s[i])
    ensures n == |s| || !IsAlnum(s[n])
  {
    if s == [] || !IsAlnum(s[0]) then 0 else 1 + AlnumPrefixLength(s[1..])
  }

  /** `s.match(/[a-zA-Z0-9]+/g) || []`: the maximal alphanumeric runs, in order. */
  function AlnumRuns(s: JsString): (runs: seq<JsString>)
    ensures forall k :: 0 <= k < |runs| ==> runs[k] != [] && AllAlnum(runs[k])
    decreases |s|
  {
    if s == [] then []
    else if !IsAlnum(s[0]) then AlnumRuns(s[1..])
    else
      var n := AlnumPrefixLength(s);
      [s[..n]] + AlnumRuns(s[n..])
  }

  /** `${x.charAt(0).toUpperCase()}${x.slice(1)}` */
  function Capitalize(x: JsString): JsString {
    if x == [] then [] else [ToUpper(x[0])] + x[1..]
  }

  /** `runs.map(Capitalize).join("")` */
  function JoinCapitalized(runs: seq<JsString>): JsString {
    if runs == [] then [] else Capitalize(runs[0]) + JoinCapitalized(runs[1..])
  }

  /** `toCamelCase`: the capitalised runs joined, then the first unit lowered. */
  function CamelCase(s: JsString): JsString {
    var joined := JoinCapitalized(AlnumRuns(s));
    if joined == [] then [] else [ToLower(joined[0])] + joined[1..]
  }

  predicate AllAlnum(s: JsString) {
    forall i :: 0 <= i < |s| ==> IsAlnum(s[i])
  }

  lemma {:induction false} AlnumPrefixOfWord(w: JsString, rest: JsString)
    requires AllAlnum(w) && (rest == [] || !IsAlnum(rest[0]))
    ensures AlnumPrefixLength(w + rest) == |w|
    decreases |w|
  {
    if w == [] {
      assert w + rest == rest;
    } else {
      assert (w + rest)[1..] == w[1..] + rest;
      AlnumPrefixOfWord(w[1..], rest);
    }
  }

  /** A maximal alphanumeric word at the front is the first run. */
  lemma RunsOfWord(w: JsString, rest: JsString)
    requires w != [] && AllAlnum(w) && (rest == [] || !IsAlnum(rest[0]))
    ensures AlnumRuns(w + rest) == [w] + AlnumRuns(rest)
  {
    AlnumPrefixOfWord(w, rest);
    assert (w + rest)[..|w|] == w;
    assert (w + rest)[|w|..] == rest;
  }

  /**
   * `toCamelCase` of a lower-case word: unchanged. This is how the key
   * "timezone" stays "timezone".
   */
  lemma CamelCaseOneWord(a: JsString)
    requires a != [] && AllAlnum(a) && IsLower(a[0])
    ensures CamelCase(a) == a
  {
    RunsOfWord(a, []);
    assert a + [] == a;
    assert JoinCapitalized([a]) == Capitalize(a) + JoinCapitalized([]);
    LowerFirstOfCapitalized(a, []);
  }

  /**
   * `toCamelCase` of two words joined by a separator: the separator is
   * dropped and the second word capitalised, as in "start-schedule" to
   * "startSchedule".
   */
  lemma CamelCaseTwoWords(a: JsString, sep: CodeUnit, b: JsString)
    requires a != [] && AllAlnum(a) && IsLower(a[0])
    requires !IsAlnum(sep)
    requires b != [] && AllAlnum(b)
    ensures CamelCase(a + [sep] + b) == a + Capitalize(b)
  {
    RunsOfWord(a, [sep] + b);
    assert a + [sep] + b == a + ([sep] + b);
    assert ([sep] + b)[1..] == b;
    RunsOfWord(b, []);
    assert b + [] == b;
    var runs := AlnumRuns(a + [sep] + b);
    assert runs == [a, b];
    assert runs[1..] == [b];
    assert JoinCapitalized([b]) == Capitalize(b) + JoinCapitalized([]);
    assert JoinCapitalized(runs) == Capitalize(a) + Capitalize(b);
    LowerFirstOfCapitalized(a, Capitalize(b));
  }

  /** The alphanumeric code units of `s`, in order. */
  function KeepAlnum(s: JsString): JsString
    decreases |s|
  {
    if s == [] then [] else (if IsAlnum(s[0]) then [s[0]] else []) + KeepAlnum(s[1..])
  }

  /** The runs joined with nothing between them. */
  function Concat(runs: seq<JsString>): JsString {
    if runs == [] then [] else runs[0] + Concat(runs[1..])
  }

  lemma {:induction false} KeepAlnumAppend(a: JsString, b: JsString)
    ensures KeepAlnum(a + b) == KeepAlnum(a) + KeepAlnum(b)
    decreases |a|
  {
    if a == [] {
      assert a + b == b;
    } else {
      var head := if IsAlnum(a[0]) then [a[0]] else [];
      assert (a + b)[0] == a[0] && (a + b)[1..] == a[1..] + b;
      KeepAlnumAppend(a[1..], b);
      assert KeepAlnum(a + b) == head + (KeepAlnum(a[1..]) + KeepAlnum(b));
      assert head + (KeepAlnum(a[1..]) + KeepAlnum(b)) == (head + KeepAlnum(a[1..])) + KeepAlnum(b);
    }
  }

  lemma {:induction false} KeepAlnumOfWord(w: JsString)
    requires AllAlnum(w)
    ensures KeepAlnum(w) == w
    decreases |w|
  {
    if w != [] {
      KeepAlnumOfWord(w[1..]);
      assert w == [w[0]] + w[1..];
    }
  }

  /**
   * The runs `match` finds, joined, are exactly the alphanumeric code units
   * of the input: no unit is lost, none added, and the order is kept.
   */
  lemma {:induction false} RunsKeepAlnum(s: JsString)
    ensures Concat(AlnumRuns(s)) == KeepAlnum(s)
    decreases |s|
  {
    if s != [] {
      if !IsAlnum(s[0]) {
        RunsKeepAlnum(s[1..]);
      } else {
        var n := AlnumPrefixLength(s);
        var runs := AlnumRuns(s);
        assert runs == [s[..n]] + AlnumRuns(s[n..]);
        assert runs[0] == s[..n] && runs[1..] == AlnumRuns(s[n..]);
        RunsKeepAlnum(s[n..]);
        assert s == s[..n] + s[n..];
        KeepAlnumAppend(s[..n], s[n..]);
        KeepAlnumOfWord(s[..n]);
      }
    }
  }

  /** A separator ends the alphanumeric prefix. */
  lemma {:induction false} PrefixStopsAtSeparator(a: JsString, c: CodeUnit, b: JsString)
    requires !IsAlnum(c)
    ensures AlnumPrefixLength(a + [c] + b) == AlnumPrefixLength(a)
    decreases |a|
  {
    if a != [] && IsAlnum(a[0]) {
      assert (a + [c] + b)[1..] == a[1..] + [c] + b;
      PrefixStopsAtSeparator(a[1..], c, b);
    }
  }

  /**
   * No run reaches across a separator: the runs of a, a separator and b
   * are the runs of a followed by the runs of b. With `RunsOfWord` this
   * makes every run maximal.
   */
  lemma {:induction false} RunsSplitAtSeparator(a: JsString, c: CodeUnit, b: JsString)
    requires !IsAlnum(c)
    ensures AlnumRuns(a + [c] + b) == AlnumRuns(a) + AlnumRuns(b)
    decreases |a|
  {
    var s := a + [c] + b;
    if a == [] {
      assert s[1..] == b;
    } else if !IsAlnum(a[0]) {
      assert s[1..] == a[1..] + [c] + b;
      RunsSplitAtSeparator(a[1..], c, b);
    } else {
      var n := AlnumPrefixLength(a);
      PrefixStopsAtSeparator(a, c, b);
      assert s[..n] == a[..n];
      if n == |a| {
        assert s[n..] == [c] + b;
        assert ([c] + b)[1..] == b;
        assert a[n..] == [];
      } else {
        assert s[n..] == a[n..] + [c] + b;
        RunsSplitAtSeparator(a[n..], c, b);
      }
    }
  }

  /** Equal up to letter case, unit by unit. */
  predicate SameUpToCase(x: JsString, y: JsString) {
    |x| == |y| && forall i :: 0 <= i < |x| ==> ToLower(x[i]) == ToLower(y[i])
  }

  lemma {:induction false} JoinCapitalizedLetters(runs: seq<JsString>)
    requires forall k :: 0 <= k < |runs| ==> AllAlnum(runs[k])
    ensures AllAlnum(JoinCapitalized(runs)) && SameUpToCase(JoinCapitalized(runs), Concat(runs))
    decreases |runs|
  {
    if runs != [] {
      JoinCapitalizedLetters(runs[1..]);
      CapitalizeLetters(runs[0]);
      AppendUpToCase(Capitalize(runs[0]), JoinCapitalized(runs[1..]), runs[0], Concat(runs[1..]));
    }
  }

  /** Capitalising changes the case of the first unit only. */
  lemma CapitalizeLetters(x: JsString)
    requires AllAlnum(x)
    ensures AllAlnum(Capitalize(x)) && SameUpToCase(Capitalize(x), x)
  {
    if x != [] {
      assert ToLower(ToUpper(x[0])) == ToLower(x[0]);
      assert Capitalize(x) == [ToUpper(x[0])] + x[1..];
    }
  }

  /** Lowering the first unit changes its case only. */
  lemma LowerFirstLetters(x: JsString)
    requires x != [] && AllAlnum(x)
    ensures AllAlnum([ToLower(x[0])] + x[1..]) && SameUpToCase([ToLower(x[0])] + x[1..], x)
  {
    assert ToLower(ToLower(x[0])) == ToLower(x[0]);
  }

  lemma AppendUpToCase(a: JsString, b: JsString, c: JsString, d: JsString)
    requires AllAlnum(a) && AllAlnum(b) && SameUpToCase(a, c) && SameUpToCase(b, d)
    ensures AllAlnum(a + b) && SameUpToCase(a + b, c + d)
  {
    forall i | 0 <= i < |a + b|
      ensures IsAlnum((a + b)[i]) && ToLower((a + b)[i]) == ToLower((c + d)[i])
    {
      if i < |a| {
        assert (a + b)[i] == a[i] && (c + d)[i] == c[i];
      } else {
        assert (a + b)[i] == b[i - |a|] && (c + d)[i] == d[i - |a|];
      }
    }
  }

  /**
   * `toCamelCase` keeps exactly the alphanumeric code units of its input,
   * in order, and changes only their case.
   */
  lemma CamelCaseKeepsAlnum(s: JsString)
    ensures AllAlnum(CamelCase(s)) && SameUpToCase(CamelCase(s), KeepAlnum(s))
  {
    var runs := AlnumRuns(s);
    RunsKeepAlnum(s);
    JoinCapitalizedLetters(runs);
    var joined := JoinCapitalized(runs);
    if joined != [] {
      LowerFirstLetters(joined);
      assert CamelCase(s) == [ToLower(joined[0])] + joined[1..];
      UpToCaseTransitive(CamelCase(s), joined, KeepAlnum(s));
    }
  }

  lemma UpToCaseTransitive(x: JsString, y: JsString, z: JsString)
    requires SameUpToCase(x, y) && SameUpToCase(y, z)
    ensures SameUpToCase(x, z)
  {
    forall i | 0 <= i < |x|
      ensures ToLower(x[i]) == ToLower(z[i])
    {
      assert ToLower(x[i]) == ToLower(y[i]);
    }
  }

  /** Lowering the first unit again undoes the capitalisation of a lower-case word. */
  lemma LowerFirstOfCapitalized(a: JsString, rest: JsString)
    requires a != [] && IsLower(a[0])
    ensures Capitalize(a) + rest != []
    ensures [ToLower((Capitalize(a) + rest)[0])] + (Capitalize(a) + rest)[1..] == a + rest
  {
    UpperThenLower(a[0]);
    var joined := [ToUpper(a[0])] + (a[1..] + rest);
    assert Capitalize(a) + rest == joined;
    assert joined[0] == ToUpper(a[0]) && joined[1..] == a[1..] + rest;
    assert a + rest == [a[0]] + (a[1..] + rest);
  }

  lemma UpperThenLower(c: CodeUnit)
    requires IsLower(c)
    ensures ToLower(ToUpper(c)) == c
  {
  }

  lemma StartScheduleWords()
    ensures CamelCase(Lit("start") + [DASH] + Lit("schedule")) == START_SCHEDULE_FIELD
  {
    TwoWords("start", "schedule", "Schedule");
    CamelCaseTwoWords(Lit("start"), DASH, Lit("schedule"));
    StartScheduleField();
  }

  /** The facts about two lower-case ASCII words that renaming their hyphenated key needs. */
  lemma TwoWords(first: string, second: string, capitalized: string)
    requires |first| > 0 && |second| > 0 && |capitalized| == |second|
    requires forall i :: 0 <= i < |first| ==> 'a' <= first[i] <= 'z'
    requires forall i :: 0 <= i < |second| ==> 'a' <= second[i] <= 'z'
    requires capitalized[0] as int == second[0] as int - 0x20 && capitalized[1..] == second[1..]
    ensures Lit(first) != [] && AllAlnum(Lit(first)) && IsLower(Lit(first)[0])
    ensures Lit(second) != [] && AllAlnum(Lit(second))
    ensures Capitalize(Lit(second)) == Lit(capitalized)
  {
    var c := Capitalize(Lit(second));
    assert c == [ToUpper(Lit(second)[0])] + Lit(second)[1..];
    assert c[0] == Lit(capitalized)[0];
    assert forall i :: 1 <= i < |c| ==> c[i] == Lit(second)[i] == Lit(capitalized)[i];
  }


  lemma StartScheduleField()
    ensures Lit("start") + Lit("Schedule") == START_SCHEDULE_FIELD
  {
    LitAppend("start", "Schedule");
  }

  lemma StartScheduleKey()
    ensures START_SCHEDULE == PREFIX + (Lit("start") + [DASH] + Lit("schedule"))
  {
    LitAppend("autodump:", "start-schedule");
    StartScheduleHyphen();
  }

  lemma StartScheduleHyphen()
    ensures Lit("start-schedule") == Lit("start") + [DASH] + Lit("schedule")
  {
    LitAppend("start-", "schedule");
    LitAppend("start", "-");
  }

  /** The start-schedule tag key loses its prefix and becomes "startSchedule". */
  lemma RenamedStartSchedule(key: JsString)
    requires key == START_SCHEDULE
    ensures CamelCase(ReplaceFirst(key, PREFIX, [])) == START_SCHEDULE_FIELD
  {
    var rest := Lit("start") + [DASH] + Lit("schedule");
    StartScheduleWords();
    StartScheduleKey();
    ReplaceFirstAtStart(PREFIX, rest, []);
    assert [] + rest == rest;
  }

  /** The timezone tag key loses its prefix and stays "timezone". */
  lemma RenamedTimezone(key: JsString)
    requires key == TIMEZONE
    ensures CamelCase(ReplaceFirst(key, PREFIX, [])) == TIMEZONE_FIELD
  {
    TimezoneWord();
    CamelCaseOneWord(TIMEZONE_FIELD);
    ReplaceFirstAtStart(PREFIX, TIMEZONE_FIELD, []);
    assert [] + TIMEZONE_FIELD == TIMEZONE_FIELD;
  }

  lemma TimezoneWord()
    ensures TIMEZONE == PREFIX + TIMEZONE_FIELD
    ensures TIMEZONE_FIELD != [] && AllAlnum(TIMEZONE_FIELD) && IsLower(TIMEZONE_FIELD[0])
  {
    LitAppend("autodump:", "timezone");
  }

  // ---------------------------------------------------------------------
  // getTags

  /** The Secrets Manager `Tag`: both fields may be absent. */
  datatype Tag = Tag(key: Option<JsString>, value: Option<JsString>)

  const PREFIX: JsString := Lit("autodump:")
  const START_SCHEDULE: JsString := Lit("autodump:start-schedule")
  const TIMEZONE: JsString := Lit("autodump:timezone")

  /** The record keys the renamed tag keys give. */
  const START_SCHEDULE_FIELD: JsString := Lit("startSchedule")
  const TIMEZONE_FIELD: JsString := Lit("timezone")

  /** JavaScript truthiness of an optional string: present and not empty. */
  predicate Truthy(s: Option<JsString>) {
    s.Some? && s.value != []
  }

  /** Membership in `Object.values(AutoDumpTag)`. */
  predicate IsAutoDumpTag(key: JsString) {
    key == START_SCHEDULE || key == TIMEZONE
  }

  /**
   * One step of the reduce in `getTags`: a fresh record holding at most the
   * renamed key of `tag` with its trimmed value. The accumulator is not used.
   */
  function ReduceStep(acc: map<JsString, JsString>, tag: Tag): map<JsString, JsString> {
    if Truthy(tag.key) && Truthy(tag.value) && IsAutoDumpTag(tag.key.value) then
      map[CamelCase(ReplaceFirst(tag.key.value, PREFIX, [])) := Trim(tag.value.value)]
    else
      map[]
  }

  /** `tags.reduce(ReduceStep, acc)` */
  function Reduce(acc: map<JsString, JsString>, tags: seq<Tag>): map<JsString, JsString>
    decreases |tags|
  {
    if tags == [] then acc else Reduce(ReduceStep(acc, tags[0]), tags[1..])
  }

  /** Reading a record through the `AutoDumpTags` interface. */
  function AsAutoDumpTags(record: map<JsString, JsString>): AutoDumpTags {
    AutoDumpTags(
      if TIMEZONE_FIELD in record then Some(record[TIMEZONE_FIELD]) else None,
      if START_SCHEDULE_FIELD in record then Some(record[START_SCHEDULE_FIELD]) else None)
  }

  /** `getTags(tags)` */
  function GetTags(tags: Option<seq<Tag>>): AutoDumpTags {
    match tags
    case None => AutoDumpTags(None, None)
    case Some(list) => AsAutoDumpTags(Reduce(map[], list))
  }

  /** What one tag contributes when read through the `AutoDumpTags` interface. */
  function TagContribution(tag: Tag): AutoDumpTags {
    if tag.key == Some(START_SCHEDULE) && Truthy(tag.value) then
      AutoDumpTags(None, Some(Trim(tag.value.value)))
    else if tag.key == Some(TIMEZONE) && Truthy(tag.value) then
      AutoDumpTags(Some(Trim(tag.value.value)), None)
    else
      AutoDumpTags(None, None)
  }

  /**
   * A tag contributes only when its key and value are non-empty and the key
   * is one of the two AutoDump keys; the value is stored trimmed, under the
   * field its key names.
   */
  lemma ReduceStepContribution(acc: map<JsString, JsString>, tag: Tag)
    ensures AsAutoDumpTags(ReduceStep(acc, tag)) == TagContribution(tag)
  {
    assert START_SCHEDULE_FIELD != TIMEZONE_FIELD by {
      assert |START_SCHEDULE_FIELD| != |TIMEZONE_FIELD|;
    }
    if tag.key == Some(START_SCHEDULE) {
      RenamedStartSchedule(tag.key.value);
    } else if tag.key == Some(TIMEZONE) {
      RenamedTimezone(tag.key.value);
    }
  }

  /**
   * Each reduce step discards the accumulator, so the reduce yields the
   * step of the last tag alone.
   */
  lemma {:induction false} ReduceKeepsLast(acc: map<JsString, JsString>, tags: seq<Tag>)
    requires tags != []
    ensures Reduce(acc, tags) == ReduceStep(map[], tags[|tags| - 1])
    decreases |tags|
  {
    var first := ReduceStep(acc, tags[0]);
    assert Reduce(acc, tags) == Reduce(first, tags[1..]);
    if |tags| == 1 {
      assert tags[1..] == [];
    } else {
      ReduceKeepsLast(ReduceStep(acc, tags[0]), tags[1..]);
      assert tags[1..][|tags| - 2] == tags[|tags| - 1];
    }
  }

  /**
   * `getTags` returns what the LAST tag of the list contributes and nothing
   * else: a start-schedule tag followed by any other tag is lost, and the
   * result never holds both a timezone and a schedule.
   */
  lemma GetTagsLastTagOnly(tags: Option<seq<Tag>>)
    ensures tags.None? ==> GetTags(tags) == AutoDumpTags(None, None)
    ensures tags.Some? && tags.value == [] ==> GetTags(tags) == AutoDumpTags(None, None)
    ensures tags.Some? && tags.value != [] ==>
      GetTags(tags) == TagContribution(tags.value[|tags.value| - 1])
    ensures GetTags(tags).timezone.None? || GetTags(tags).startSchedule.None?
  {
    if tags.Some? && tags.value != [] {
      ReduceKeepsLast(map[], tags.value);
      ReduceStepContribution(map[], tags.value[|tags.value| - 1]);
    }
  }
}
