/**
 * Decimal rendering of integers, as JavaScript does when a number is
 * interpolated into a template literal or concatenated to a string, and the
 * zero padding used by the timestamp formatter.
 */
module Decimal {
  import opened JsStrings

  const ZERO: CodeUnit := 0x30

  predicate IsDigit(c: CodeUnit) {
    0x30 <= c <= 0x39
  }

  predicate AllDigits(s: JsString) {
    forall i :: 0 <= i < |s| ==> IsDigit(s[i])
  }

  function Pow10(k: nat): (p: nat)
    ensures p >= 1
  {
    if k == 0 then 1 else 10 * Pow10(k - 1)
  }

  /**
   * The decimal form of a non-negative integer below 10^21 (where JavaScript
   * would switch to exponent notation): digits only, no leading zero.
   */
  function NatToString(n: nat): (r: JsString)
    ensures |r| >= 1 && AllDigits(r)
    ensures |r| > 1 ==> r[0] != ZERO
  {
    if n < 10 then [ZERO + n] else NatToString(n / 10) + [ZERO + n % 10]
  }

  /** The number a string of decimal digits denotes. */
  function DigitsValue(s: JsString): nat
    requires AllDigits(s)
  {
    if s == [] then 0 else 10 * DigitsValue(s[..|s| - 1]) + (s[|s| - 1] - ZERO)
  }

  /** Reading back the decimal form gives the number: the rendering loses nothing. */
  lemma {:induction false} NatToStringRoundTrip(n: nat)
    ensures DigitsValue(NatToString(n)) == n
  {
    if n >= 10 {
      var r := NatToString(n);
      NatToStringRoundTrip(n / 10);
      assert r[..|r| - 1] == NatToString(n / 10);
    }
  }

  /** Different numbers have different decimal forms. */
  lemma NatToStringInjective(a: nat, b: nat)
    requires NatToString(a) == NatToString(b)
    ensures a == b
  {
    NatToStringRoundTrip(a);
    NatToStringRoundTrip(b);
  }

  /** `${n}` for any integer: negative numbers carry a leading "-". */
  function IntToString(n: int): (r: JsString)
    ensures r != []
    ensures n >= 0 ==> AllDigits(r)
    ensures n < 0 <==> r[0] == DASH
  {
    if n < 0 then [DASH] + NatToString(-n) else NatToString(n)
  }

  lemma IntToStringInjective(a: int, b: int)
    requires IntToString(a) == IntToString(b)
    ensures a == b
  {
    if a < 0 {
      assert NatToString(-a) == IntToString(a)[1..];
      assert NatToString(-b) == IntToString(b)[1..];
      NatToStringInjective(-a, -b);
    } else {
      NatToStringInjective(a, b);
    }
  }

  /** `n < 10 ? `0${n}` : n`, the padding of one timestamp field. */
  function PadTwo(n: nat): (r: JsString)
    ensures AllDigits(r)
    ensures n < 10 <==> (|r| == 2 && r[0] == ZERO)
  {
    if n < 10 then [ZERO] + NatToString(n) else NatToString(n)
  }

  /** A field below 100 is rendered as exactly two digits that read back as it. */
  lemma PadTwoValue(n: nat)
    requires n < 100
    ensures |PadTwo(n)| == 2 && DigitsValue(PadTwo(n)) == n
  {
    NatToStringRoundTrip(n);
    if n >= 10 {
      assert NatToString(n / 10) == [ZERO + n / 10];
    } else {
      var r := PadTwo(n);
      assert r[..1] == [ZERO];
    }
  }

  // ---------------------------------------------------------------------
  // fixed-width digit strings: string order is numeric order

  lemma {:induction false} DigitsValueBound(s: JsString)
    requires AllDigits(s)
    ensures DigitsValue(s) < Pow10(|s|)
  {
    if s != [] {
      DigitsValueBound(s[..|s| - 1]);
    }
  }

  /** The value of a digit string, read from its most significant digit. */
  lemma {:induction false} DigitsValueFront(s: JsString)
    requires AllDigits(s) && s != []
    ensures DigitsValue(s) == (s[0] - ZERO) * Pow10(|s| - 1) + DigitsValue(s[1..])
  {
    if |s| > 1 {
      var init, tail := s[..|s| - 1], s[1..];
      DigitsValueFront(init);
      assert init[1..] == tail[..|tail| - 1];
      var d, p, v, last := s[0] - ZERO, Pow10(|s| - 2), DigitsValue(init[1..]), s[|s| - 1] - ZERO;
      assert DigitsValue(init) == d * p + v;
      assert DigitsValue(tail) == 10 * v + last;
      assert Pow10(|s| - 1) == 10 * p;
      MulTen(d, p);
    }
  }

  lemma MulTen(d: int, p: int)
    ensures 10 * (d * p) == d * (10 * p)
  {
  }

  lemma LeadingDigitDominates(x: nat, y: nat, p: nat, u: nat, v: nat)
    requires x < y && u < p
    ensures x * p + u < y * p + v
  {
    assert (x + 1) * p <= y * p;
  }

  /**
   * For two digit strings of the same width, the `<` order of strings is
   * the order of the numbers they denote. Fixed-width timestamps therefore
   * compare as strings in the same way as the instants they render.
   */
  lemma {:induction false} DigitsOrder(a: JsString, b: JsString)
    requires AllDigits(a) && AllDigits(b) && |a| == |b|
    ensures Less(a, b) <==> DigitsValue(a) < DigitsValue(b)
    decreases |a|
  {
    if a != [] {
      var p := Pow10(|a| - 1);
      DigitsValueFront(a);
      DigitsValueFront(b);
      DigitsValueBound(a[1..]);
      DigitsValueBound(b[1..]);
      var da, db := a[0] - ZERO, b[0] - ZERO;
      if da < db {
        LeadingDigitDominates(da, db, p, DigitsValue(a[1..]), DigitsValue(b[1..]));
      } else if db < da {
        LeadingDigitDominates(db, da, p, DigitsValue(b[1..]), DigitsValue(a[1..]));
      } else {
        DigitsOrder(a[1..], b[1..]);
      }
    }
  }
}
