/**
 * The cron dialect of the autodump tags (`optionalCron`, identical in
 * handlers/src/scanner.ts and src/scheduler.ts) and the earliest-action
 * selection loop of both `nextAction` functions.
 *
 * The dialect: exactly five whitespace-separated fields, a minute that is
 * neither `*` nor `-`, `-` as "any" in the other fields and `:` as a list
 * separator. Computing the next occurrence is cron-parser's work and is a
 * parameter here (`NextFire`).
 */
module CronDialect {
  import opened Wrappers
  import opened JsStrings

  /** The errors `optionalCron` throws, and a parse error of cron-parser. */
  datatype CronError =
    | FieldCount(value: JsString, count: nat)
    | WildcardMinute
    | Unparsable(expression: JsString)

  /**
   * cron-parser's answer for a normalised expression, a timezone and the
   * anchor instant: the expression does not parse, it has no further
   * occurrence, or the next occurrence as `toISOString` renders it.
   */
  datatype Occurrence = ParseError | NoNext | NextAt(iso: JsString)

  type NextFire = (JsString, JsString, int) -> Occurrence

  /** A parsed expression, summarised by its next occurrence after the anchor. */
  datatype Schedule = Schedule(next: Option<JsString>)

  /** The timezone a schedule is read in when the timezone tag is absent. */
  const UTC: JsString := Lit("UTC")

  /** `currentDate: new Date(Date.now() + 60000)` */
  const LOOK_AHEAD_MS: int := 60000

  /** `value.trim().replaceAll(" -", " *").replaceAll(":", ",")` */
  function Normalize(value: JsString): JsString {
    ReplaceAll(ReplaceAll(Trim(value), [SPACE, DASH], [SPACE, STAR]), [COLON], [COMMA])
  }

  /** `parts[0].trim() === "*" || parts[0].trim() === "-"` */
  predicate WildcardMinuteField(first: JsString) {
    Trim(first) == [STAR] || Trim(first) == [DASH]
  }

  /**
   * `optionalCron` up to the call into cron-parser: nothing for an absent or
   * empty value, an error for a field count other than five or for a `*` or
   * `-` minute, and otherwise the normalised expression.
   */
  function ValidateCron(value: Option<JsString>): (r: Result<Option<JsString>, CronError>)
    ensures r == Ok(None) <==> value.None? || value.value == []
    ensures r.Ok? && r.value.Some? ==>
      |SplitWhitespace(value.value)| == 5 && !WildcardMinuteField(SplitWhitespace(value.value)[0])
      && r.value.value == Normalize(value.value)
    ensures r.Err? ==> value.Some? && value.value != []
    ensures value.Some? && value.value != [] ==>
      (r.Err? <==> |SplitWhitespace(value.value)| != 5 || WildcardMinuteField(SplitWhitespace(value.value)[0]))
  {
    if value.None? || value.value == [] then Ok(None)
    else
      var parts := SplitWhitespace(value.value);
      if |parts| != 5 then Err(FieldCount(value.value, |parts|))
      else if WildcardMinuteField(parts[0]) then Err(WildcardMinute)
      else Ok(Some(Normalize(value.value)))
  }

  /** `optionalCron(value, tz)` at clock reading `now`, with cron-parser as `nextFire`. */
  function OptionalCron(value: Option<JsString>, tz: JsString, now: int, nextFire: NextFire)
    : Result<Option<Schedule>, CronError>
  {
    match ValidateCron(value)
    case Err(e) => Err(e)
    case Ok(None) => Ok(None)
    case Ok(Some(_)) =>
      var cleaned := Normalize(value.value);
      match nextFire(cleaned, tz, now + LOOK_AHEAD_MS)
      case ParseError => Err(Unparsable(cleaned))
      case NoNext => Ok(Some(Schedule(None)))
      case NextAt(iso) => Ok(Some(Schedule(Some(iso))))
  }

  // ---------------------------------------------------------------------
  // normalisation

  /**
   * `replaceAll(" -", " *")` turns exactly the dashes that follow a space
   * into stars and leaves every other code unit alone.
   */
  lemma {:induction false} DashToStarPointwise(s: JsString)
    ensures |ReplaceAll(s, [SPACE, DASH], [SPACE, STAR])| == |s|
    ensures forall i :: 0 <= i < |s| ==> ReplaceAll(s, [SPACE, DASH], [SPACE, STAR])[i] == Starred(s, i)
    decreases |s|
  {
    var pat, rep := [SPACE, DASH], [SPACE, STAR];
    if |s| >= 2 {
      assert pat <= s <==> s[0] == SPACE && s[1] == DASH by {
        assert pat <= s <==> s[..2] == pat;
      }
    }
    if |s| < 2 {
    } else if pat <= s {
      DashToStarPointwise(s[2..]);
      DashShift(s, 2, rep, ReplaceAll(s[2..], pat, rep));
      assert ReplaceAll(s, pat, rep) == rep + ReplaceAll(s[2..], pat, rep);
    } else {
      DashToStarPointwise(s[1..]);
      DashShift(s, 1, [s[0]], ReplaceAll(s[1..], pat, rep));
      assert ReplaceAll(s, pat, rep) == [s[0]] + ReplaceAll(s[1..], pat, rep);
    }
  }

  /** The code unit `replaceAll(" -", " *")` leaves at position i. */
  function Starred(s: JsString, i: int): CodeUnit
    requires 0 <= i < |s|
  {
    if i > 0 && s[i - 1] == SPACE && s[i] == DASH then STAR else s[i]
  }

  /** A replaced head followed by the replaced rest is replaced pointwise. */
  lemma DashShift(s: JsString, k: nat, head: JsString, tail: JsString)
    requires 1 <= k <= |s| && |head| == k && |tail| == |s| - k
    requires forall i :: 0 <= i < k ==> head[i] == Starred(s, i)
    requires k < |s| ==> !(s[k - 1] == SPACE && s[k] == DASH)
    requires forall j :: 0 <= j < |tail| ==> tail[j] == Starred(s[k..], j)
    ensures forall i :: 0 <= i < |s| ==> (head + tail)[i] == Starred(s, i)
  {
    forall i | k <= i < |s|
      ensures (head + tail)[i] == Starred(s, i)
    {
      assert s[k..][i - k] == s[i];
      if i > k {
        assert s[k..][i - k - 1] == s[i - 1];
      }
      assert tail[i - k] == Starred(s[k..], i - k);
    }
  }

  /**
   * What normalisation makes of the code unit at position i of the trimmed
   * value: a colon becomes a comma, a dash right after a space becomes a
   * star, and everything else stays.
   */
  function NormalizedUnit(t: JsString, i: int): CodeUnit
    requires 0 <= i < |t|
  {
    if t[i] == COLON then COMMA
    else if i > 0 && t[i - 1] == SPACE && t[i] == DASH then STAR
    else t[i]
  }

  /** Normalisation works code unit by code unit on the trimmed value. */
  lemma NormalizePointwise(value: JsString)
    ensures |Normalize(value)| == |Trim(value)|
    ensures forall i :: 0 <= i < |Trim(value)| ==> Normalize(value)[i] == NormalizedUnit(Trim(value), i)
  {
    var t := Trim(value);
    var d := ReplaceAll(t, [SPACE, DASH], [SPACE, STAR]);
    var n := Normalize(value);
    DashToStarPointwise(t);
    ReplaceAllUnit(d, COLON, COMMA);
    assert n == ReplaceAll(d, [COLON], [COMMA]);
    forall i | 0 <= i < |t| ensures n[i] == NormalizedUnit(t, i) {
      assert n[i] == (if d[i] == COLON then COMMA else d[i]);
      assert d[i] == (if i > 0 && t[i - 1] == SPACE && t[i] == DASH then STAR else t[i]);
    }
  }

  /**
   * The normalised expression has the length of the trimmed value, contains
   * no colon and no space followed by a dash, and neither starts nor ends
   * with whitespace.
   */
  lemma NormalizeShape(value: JsString)
    ensures |Normalize(value)| == |Trim(value)|
    ensures forall i :: 0 <= i < |Normalize(value)| ==> Normalize(value)[i] != COLON
    ensures forall i :: 0 < i < |Normalize(value)| ==>
      !(Normalize(value)[i - 1] == SPACE && Normalize(value)[i] == DASH)
    ensures Normalize(value) == [] ||
      (!IsWhitespace(Normalize(value)[0]) && !IsWhitespace(Normalize(value)[|Normalize(value)| - 1]))
  {
    NormalizeInterior(value);
    NormalizeEnds(value);
  }

  lemma NormalizeInterior(value: JsString)
    ensures forall i :: 0 <= i < |Normalize(value)| ==> Normalize(value)[i] != COLON
    ensures forall i :: 0 < i < |Normalize(value)| ==>
      !(Normalize(value)[i - 1] == SPACE && Normalize(value)[i] == DASH)
  {
    var t, n := Trim(value), Normalize(value);
    NormalizePointwise(value);
    forall i | 0 <= i < |n| ensures n[i] != COLON {
    }
    forall i | 0 < i < |n| ensures !(n[i - 1] == SPACE && n[i] == DASH) {
      assert n[i - 1] == SPACE ==> t[i - 1] == SPACE;
    }
  }

  lemma NormalizeEnds(value: JsString)
    ensures |Normalize(value)| == |Trim(value)|
    ensures Normalize(value) == [] ||
      (!IsWhitespace(Normalize(value)[0]) && !IsWhitespace(Normalize(value)[|Normalize(value)| - 1]))
  {
    NormalizePointwise(value);
    TrimIsInfix(value);
  }

  /** The dialect's dash fields become cron wildcards: "3 16 - - -" is read as "3 16 * * *". */
  lemma NormalizeExample(value: JsString)
    requires value == Lit("3 16 - - -")
    ensures Normalize(value) == Lit("3 16 * * *")
  {
    ExampleUnits(value);
    ExampleExpected(Lit("3 16 * * *"));
    NormalizeExampleUnits(value);
  }

  lemma NormalizeExampleUnits(value: JsString)
    requires value == [0x33, SPACE, 0x31, 0x36, SPACE, DASH, SPACE, DASH, SPACE, DASH]
    ensures Normalize(value) == [0x33, SPACE, 0x31, 0x36, SPACE, STAR, SPACE, STAR, SPACE, STAR]
  {
    assert GapLength(value) == 0;
    assert TrimStart(value) == value;
    assert TrimEnd(value) == value;
    NormalizePointwise(value);
    var n, expected := Normalize(value), [0x33, SPACE, 0x31, 0x36, SPACE, STAR, SPACE, STAR, SPACE, STAR];
    forall i | 0 <= i < |n| ensures n[i] == expected[i] {
    }
  }

  lemma ExampleExpected(expected: JsString)
    requires expected == Lit("3 16 * * *")
    ensures expected == [0x33, SPACE, 0x31, 0x36, SPACE, STAR, SPACE, STAR, SPACE, STAR]
  {
  }

  lemma ExampleUnits(value: JsString)
    requires value == Lit("3 16 - - -")
    ensures value == [0x33, SPACE, 0x31, 0x36, SPACE, DASH, SPACE, DASH, SPACE, DASH]
  {
  }

  // ---------------------------------------------------------------------
  // splitting and validation

  /** A word followed by whitespace and more text is the first piece. */
  lemma SplitFirstWord(w: JsString, gap: JsString, rest: JsString)
    requires w != [] && NoWhitespace(w)
    requires gap != [] && forall i :: 0 <= i < |gap| ==> IsWhitespace(gap[i])
    requires rest == [] || !IsWhitespace(rest[0])
    ensures SplitWhitespace(w + gap + rest) == [w] + SplitWhitespace(rest)
  {
    var s := w + gap + rest;
    assert s == w + (gap + rest);
    WordLengthOf(w, gap + rest);
    assert s[..|w|] == w;
    assert s[|w|..] == gap + rest;
    GapLengthOf(gap, rest);
    assert s[|w| + |gap|..] == rest;
    assert SplitWhitespace(s) == [s[..|w|]] + SplitWhitespace(s[|w| + |gap|..]);
  }

  /** The first word of a word followed by whitespace is that word. */
  lemma WordLengthOf(w: JsString, after: JsString)
    requires NoWhitespace(w)
    requires after == [] || IsWhitespace(after[0])
    ensures WordLength(w + after) == |w|
  {
    var s := w + after;
    assert forall i :: 0 <= i < |w| ==> s[i] == w[i];
    assert after != [] ==> s[|w|] == after[0];
  }

  /** The whitespace run at the start of whitespace followed by a word is all of it. */
  lemma GapLengthOf(gap: JsString, rest: JsString)
    requires forall i :: 0 <= i < |gap| ==> IsWhitespace(gap[i])
    requires rest == [] || !IsWhitespace(rest[0])
    ensures GapLength(gap + rest) == |gap|
  {
    var s := gap + rest;
    assert forall i :: 0 <= i < |gap| ==> s[i] == gap[i];
    assert rest != [] ==> s[|gap|] == rest[0];
  }

  /** A string without whitespace is a single piece. */
  lemma SplitOneWord(w: JsString)
    requires NoWhitespace(w)
    ensures SplitWhitespace(w) == [w]
  {
    assert WordLength(w) == |w|;
  }

  /**
   * Whitespace before the first field is not trimmed before counting: it
   * yields an empty first piece, so five fields with a leading space are
   * six pieces and are rejected.
   */
  lemma LeadingWhitespaceCounts(gap: JsString, rest: JsString)
    requires gap != [] && forall i :: 0 <= i < |gap| ==> IsWhitespace(gap[i])
    requires rest != [] && !IsWhitespace(rest[0])
    ensures SplitWhitespace(gap + rest) == [[]] + SplitWhitespace(rest)
    ensures |SplitWhitespace(gap + rest)| == |SplitWhitespace(rest)| + 1
  {
    var s := gap + rest;
    assert s[0] == gap[0];
    assert WordLength(s) == 0;
    assert forall i :: 0 <= i < |gap| ==> s[i] == gap[i];
    assert s[|gap|] == rest[0];
    assert GapLength(s) == |gap|;
    assert s[0..] == s && s[..0] == [];
    assert s[|gap|..] == rest;
  }

  /** Leading whitespace does not survive normalisation. */
  lemma NormalizeDropsLeadingWhitespace(gap: JsString, rest: JsString)
    requires forall i :: 0 <= i < |gap| ==> IsWhitespace(gap[i])
    requires rest != [] && !IsWhitespace(rest[0])
    ensures Normalize(gap + rest) == Normalize(rest)
  {
    var s := gap + rest;
    assert forall i :: 0 <= i < |gap| ==> s[i] == gap[i];
    assert s[|gap|] == rest[0];
    var r := TrimStart(s);
    assert |s| - |r| == |gap|;
    assert r == rest;
    assert TrimStart(rest) == rest;
  }

  /**
   * With five fields the rule is decided by the minute alone: a `*` or `-`
   * minute is rejected, any other minute is accepted and normalised.
   */
  lemma MinuteRule(minute: JsString, rest: JsString)
    requires minute != [] && NoWhitespace(minute)
    requires rest != [] && !IsWhitespace(rest[0]) && |SplitWhitespace(rest)| == 4
    ensures var value := minute + [SPACE] + rest;
      ValidateCron(Some(value)) ==
        if minute == [STAR] || minute == [DASH] then Err(WildcardMinute)
        else Ok(Some(Normalize(value)))
  {
    SplitFirstWord(minute, [SPACE], rest);
    TrimNoWhitespace(minute);
  }

  /**
   * Because the empty first piece of a value with leading whitespace is
   * what the minute check inspects, leading whitespace followed by four
   * fields passes both checks whatever the first real field is: " * * * *"
   * is accepted and normalised to the four-field "* * * *".
   */
  lemma LeadingWhitespaceSkipsMinuteCheck(gap: JsString, rest: JsString)
    requires gap != [] && forall i :: 0 <= i < |gap| ==> IsWhitespace(gap[i])
    requires rest != [] && !IsWhitespace(rest[0]) && |SplitWhitespace(rest)| == 4
    ensures ValidateCron(Some(gap + rest)) == Ok(Some(Normalize(rest)))
  {
    var value := gap + rest;
    LeadingWhitespaceCounts(gap, rest);
    var parts := SplitWhitespace(value);
    assert |parts| == 5 && parts[0] == [];
    assert !WildcardMinuteField(parts[0]) by {
      assert TrimStart([]) == [];
    }
    assert ValidateCron(Some(value)) == Ok(Some(Normalize(value)));
    NormalizeDropsLeadingWhitespace(gap, rest);
  }

  // ---------------------------------------------------------------------
  // nextAction: the earliest `when` under the string order

  /**
   * k is the position the `nextAction` loop ends on: no later element is
   * strictly earlier, and every earlier element is strictly later (the
   * strict `<` keeps the first of equal times).
   */
  ghost predicate IsFirstEarliest<A>(xs: seq<A>, when: A -> JsString, k: int) {
    0 <= k < |xs|
    && (forall j :: 0 <= j < k ==> Less(when(xs[k]), when(xs[j])))
    && (forall j :: k < j < |xs| ==> !Less(when(xs[j]), when(xs[k])))
  }

  /** The position the loop selects, -1 for no actions. */
  function EarliestIndex<A>(xs: seq<A>, when: A -> JsString): (k: int)
    ensures -1 <= k < |xs|
    ensures k == -1 <==> xs == []
  {
    if xs == [] then -1
    else
      var k := EarliestIndex(xs[..|xs| - 1], when);
      if k == -1 || Less(when(xs[|xs| - 1]), when(xs[k])) then |xs| - 1 else k
  }

  lemma {:induction false} EarliestIndexIsFirstEarliest<A>(xs: seq<A>, when: A -> JsString)
    requires xs != []
    ensures IsFirstEarliest(xs, when, EarliestIndex(xs, when))
    decreases |xs|
  {
    var n := |xs| - 1;
    var init := xs[..n];
    var k := EarliestIndex(xs, when);
    if init == [] {
    } else {
      EarliestIndexIsFirstEarliest(init, when);
      var k0 := EarliestIndex(init, when);
      if Less(when(xs[n]), when(xs[k0])) {
        assert k == n;
        forall j | 0 <= j < n ensures Less(when(xs[n]), when(xs[j])) {
          assert init[j] == xs[j];
          if j < k0 {
            LessTransitive(when(xs[n]), when(xs[k0]), when(xs[j]));
          } else if j > k0 {
            assert !Less(when(xs[j]), when(xs[k0]));
            if when(xs[j]) == when(xs[k0]) {
            } else {
              LessTotal(when(xs[j]), when(xs[k0]));
              LessTransitive(when(xs[n]), when(xs[k0]), when(xs[j]));
            }
          }
        }
      } else {
        assert k == k0;
        forall j | 0 <= j < k ensures Less(when(xs[k]), when(xs[j])) {
          assert init[j] == xs[j];
        }
        forall j | k < j < |xs| ensures !Less(when(xs[j]), when(xs[k])) {
          if j < n {
            assert init[j] == xs[j];
          }
        }
      }
    }
  }

  /** The selection is also a minimum: nothing in the list is strictly earlier. */
  lemma EarliestIsMinimal<A>(xs: seq<A>, when: A -> JsString, j: int)
    requires 0 <= j < |xs|
    ensures !Less(when(xs[j]), when(xs[EarliestIndex(xs, when)]))
  {
    var k := EarliestIndex(xs, when);
    EarliestIndexIsFirstEarliest(xs, when);
    if j < k {
      LessAsymmetric(when(xs[k]), when(xs[j]));
    } else if j == k {
      LessIrreflexive(when(xs[k]));
    }
  }

  /**
   * The loop of `nextAction`: `selected` starts undefined and is replaced by
   * every action whose `when` is strictly smaller.
   */
  method SelectEarliest<A>(actions: seq<A>, when: A -> JsString) returns (selected: Option<A>)
    ensures actions == [] ==> selected == None
    ensures actions != [] ==> selected == Some(actions[EarliestIndex(actions, when)])
  {
    selected := None;
    ghost var k := -1;
    for i := 0 to |actions|
      invariant k == EarliestIndex(actions[..i], when)
      invariant k == -1 ==> selected == None
      invariant k != -1 ==> selected == Some(actions[k])
    {
      var action := actions[i];
      assert actions[..i + 1][..i] == actions[..i];
      if selected == None || Less(when(action), when(selected.value)) {
        selected := Some(action);
        k := i;
      }
    }
    assert actions[..|actions|] == actions;
  }
}
