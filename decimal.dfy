/**
 Unsigned decimal digit strings: their value (what `parseInt(s, 10)` computes
 from the digits) and the canonical rendering of a natural number (what
 `String(n)` produces), with the round trips between the two.
 */
module Decimal {
  import opened Ascii

  predicate AllDigits(s: string)
  {
    forall i :: 0 <= i < |s| ==> IsDigit(s[i])
  }

  function DigitValue(c: char): (d: nat)
    requires IsDigit(c)
    ensures d < 10
  {
    c as int - '0' as int
  }

  function DigitChar(d: nat): (c: char)
    requires d < 10
    ensures IsDigit(c) && DigitValue(c) == d
  {
    ('0' as int + d) as char
  }

  function Pow10(n: nat): (p: nat)
    ensures p >= 1
  {
    if n == 0 then 1 else 10 * Pow10(n - 1)
  }

  /** The value of a digit string read in base 10, most significant digit first. */
  function DigitsValue(ds: string): nat
    requires AllDigits(ds)
    decreases |ds|
  {
    if ds == [] then 0 else DigitsValue(ds[..|ds| - 1]) * 10 + DigitValue(ds[|ds| - 1])
  }

  /** A string of `n` digits is worth less than 10^n. */
  lemma {:induction false} DigitsValueBound(ds: string)
    requires AllDigits(ds)
    ensures DigitsValue(ds) < Pow10(|ds|)
    decreases |ds|
  {
    if ds != [] {
      DigitsValueBound(ds[..|ds| - 1]);
    }
  }

  /** A digit string without redundant leading zeros: "0", or a first digit other than '0'. */
  predicate Canonical(ds: string)
  {
    |ds| >= 1 && AllDigits(ds) && (ds[0] == '0' ==> |ds| == 1)
  }

  /** The decimal text of `n`, as `String(n)` renders a non-negative integer. */
  function NatToString(n: nat): (s: string)
    ensures Canonical(s)
    decreases n
  {
    if n < 10 then [DigitChar(n)] else NatToString(n / 10) + [DigitChar(n % 10)]
  }

  /** The decimal text of `n`, as `String(n)` renders an integer: a '-' before a negative one. */
  function IntToString(n: int): (s: string)
    ensures |s| >= 1
    ensures n < 0 <==> s[0] == '-'
  {
    if n < 0 then "-" + NatToString(-n) else NatToString(n)
  }

  /** Reading back what `NatToString` wrote gives the number again. */
  lemma {:induction false} NatRoundTrip(n: nat)
    ensures DigitsValue(NatToString(n)) == n
    decreases n
  {
    var s := NatToString(n);
    if n >= 10 {
      NatRoundTrip(n / 10);
      assert s[..|s| - 1] == NatToString(n / 10);
    }
  }

  /** Rendering the value of a canonical digit string gives back that string. */
  lemma {:induction false} CanonicalRoundTrip(ds: string)
    requires Canonical(ds)
    ensures NatToString(DigitsValue(ds)) == ds
    decreases |ds|
  {
    if |ds| > 1 {
      var init := ds[..|ds| - 1];
      assert Canonical(init);
      LeadingDigitBound(init);
      CanonicalRoundTrip(init);
      var v := DigitsValue(ds);
      assert v / 10 == DigitsValue(init) && v % 10 == DigitValue(ds[|ds| - 1]);
    }
  }

  /** A digit string whose first digit is not '0' is worth at least 10^(length - 1). */
  lemma {:induction false} LeadingDigitBound(ds: string)
    requires |ds| >= 1 && AllDigits(ds) && ds[0] != '0'
    ensures DigitsValue(ds) >= Pow10(|ds| - 1)
    decreases |ds|
  {
    if |ds| > 1 {
      var init := ds[..|ds| - 1];
      LeadingDigitBound(init);
    }
  }

  /** A leading zero adds nothing to the value: "007" reads as 7. */
  lemma {:induction false} LeadingZero(ds: string)
    requires AllDigits(ds)
    ensures AllDigits("0" + ds) && DigitsValue("0" + ds) == DigitsValue(ds)
    decreases |ds|
  {
    var zs := "0" + ds;
    if ds != [] {
      var init := ds[..|ds| - 1];
      assert zs[..|zs| - 1] == "0" + init;
      LeadingZero(init);
    }
  }

  /** `k` zero digits. */
  function Zeros(k: nat): (z: string)
    ensures |z| == k && AllDigits(z)
  {
    seq(k, _ => '0')
  }

  /** Any number of leading zeros add nothing to the value. */
  lemma {:induction false} LeadingZeros(k: nat, ds: string)
    requires AllDigits(ds)
    ensures AllDigits(Zeros(k) + ds) && DigitsValue(Zeros(k) + ds) == DigitsValue(ds)
    decreases k
  {
    if k > 0 {
      var rest := Zeros(k - 1) + ds;
      assert Zeros(k) == "0" + Zeros(k - 1);
      assert Zeros(k) + ds == "0" + rest;
      LeadingZeros(k - 1, ds);
      LeadingZero(rest);
    } else {
      assert Zeros(k) + ds == ds;
    }
  }

  /** The parity of a digit string's value is the parity of its last digit. */
  lemma LastDigitParity(ds: string)
    requires |ds| >= 1 && AllDigits(ds)
    ensures DigitsValue(ds) % 2 == DigitValue(ds[|ds| - 1]) % 2
  {
    var q := DigitsValue(ds[..|ds| - 1]);
    var d := DigitValue(ds[|ds| - 1]);
    assert DigitsValue(ds) == q * 10 + d;
    EvenShift(q * 5, d);
  }

  lemma EvenShift(k: int, d: int)
    ensures (2 * k + d) % 2 == d % 2
  {
  }
}
