/**
 The three token tests of the classifier (`isNumericString`, `isAlphaString`,
 `isAlnum`), each an anchored regular expression turned into a character-level
 predicate, and `parseInt(s, 10)` on the tokens the numeric test accepts.
 */
module Tokens {
  import opened Ascii
  import opened Decimal

  predicate IsSign(c: char) { c == '+' || c == '-' }

  /** The part of `s` after an optional leading sign. */
  function DigitPart(s: string): (d: string)
    ensures |d| <= |s|
  {
    if |s| > 0 && IsSign(s[0]) then s[1..] else s
  }

  /** `^[+-]?\d+$`: an optional sign followed by one or more ASCII digits, nothing else. */
  predicate IsNumericString(s: string)
  {
    |DigitPart(s)| >= 1 && AllDigits(DigitPart(s))
  }

  /** `^[A-Za-z]+$`: one or more ASCII letters. */
  predicate IsAlphaString(s: string)
  {
    |s| >= 1 && forall i :: 0 <= i < |s| ==> IsLetter(s[i])
  }

  /** `^[A-Za-z0-9]+$`: one or more ASCII letters or digits. */
  predicate IsAlnum(s: string)
  {
    |s| >= 1 && forall i :: 0 <= i < |s| ==> IsAlnumChar(s[i])
  }

  /** `Math.abs`. */
  function Abs(n: int): (a: nat)
    ensures a == n || a == -n
  {
    if n < 0 then -n else n
  }

  /** `parseInt(s, 10)` on a numeric token: the signed decimal value of its digits. */
  function ParseNumeric(s: string): (n: int)
    requires IsNumericString(s)
    ensures Abs(n) == DigitsValue(DigitPart(s))
    ensures n < 0 ==> s[0] == '-'
    ensures s[0] == '-' ==> n <= 0
  {
    var magnitude: int := DigitsValue(DigitPart(s));
    if s[0] == '-' then -magnitude else magnitude
  }

  /** The numeric test, stated without `DigitPart`: all digits, or a sign and then all digits. */
  lemma NumericShape(s: string)
    ensures IsNumericString(s) <==>
      (|s| >= 1 && AllDigits(s)) || (|s| >= 2 && IsSign(s[0]) && AllDigits(s[1..]))
  {
    if |s| >= 1 && IsSign(s[0]) {
      assert !IsDigit(s[0]);
    }
  }

  /** Putting an optional sign before a digit string gives a numeric token worth the signed value. */
  lemma NumericOfParts(sign: string, ds: string)
    requires sign == "" || sign == "+" || sign == "-"
    requires |ds| >= 1 && AllDigits(ds)
    ensures IsNumericString(sign + ds)
    ensures ParseNumeric(sign + ds) == if sign == "-" then 0 - DigitsValue(ds) else DigitsValue(ds)
  {
    if sign == "" {
      assert sign + ds == ds;
      DigitPartOfDigits(ds);
    } else {
      DigitPartOfSigned(sign[0], ds);
      assert sign + ds == [sign[0]] + ds;
    }
  }

  lemma DigitPartOfDigits(ds: string)
    requires |ds| >= 1 && AllDigits(ds)
    ensures DigitPart(ds) == ds
  {
    assert IsDigit(ds[0]);
  }

  lemma DigitPartOfSigned(c: char, ds: string)
    requires IsSign(c)
    ensures DigitPart([c] + ds) == ds
  {
    assert ([c] + ds)[1..] == ds;
  }

  /** Leading zeros after the sign do not change the parsed value: "007" is 7, "-00" is 0. */
  lemma ParseIgnoresLeadingZeros(sign: string, k: nat, ds: string)
    requires sign == "" || sign == "+" || sign == "-"
    requires |ds| >= 1 && AllDigits(ds)
    ensures IsNumericString(sign + (Zeros(k) + ds))
    ensures ParseNumeric(sign + (Zeros(k) + ds)) == ParseNumeric(sign + ds)
  {
    var padded := Zeros(k) + ds;
    LeadingZeros(k, ds);
    assert |padded| >= 1 && AllDigits(padded);
    NumericOfParts(sign, padded);
    NumericOfParts(sign, ds);
  }

  /** "007" reads as 7 and "+12" as 12. */
  lemma ParseExamples()
    ensures IsNumericString("007") && ParseNumeric("007") == 7
    ensures IsNumericString("+12") && ParseNumeric("+12") == 12
  {
    assert DigitsValue("7") == 7;
    ParseIgnoresLeadingZeros("", 2, "7");
    assert "" + (Zeros(2) + "7") == "007";
    assert "" + "7" == "7";
    NumericOfParts("", "7");
    assert DigitsValue("12") == 12 by { assert "12"[..1] == "1"; }
    NumericOfParts("+", "12");
    assert "+" + "12" == "+12";
  }

  /** "-0" is numeric and reads as 0. */
  lemma MinusZeroExample()
    ensures IsNumericString("-0") && ParseNumeric("-0") == 0
  {
    assert DigitsValue("0") == 0;
    NumericOfParts("-", "0");
    assert "-" + "0" == "-0";
  }

  /** A sign alone, the empty string, a decimal point or a letter after the sign is not numeric. */
  lemma NotNumericExamples()
    ensures !IsNumericString("+") && !IsNumericString("-") && !IsNumericString("")
    ensures !IsNumericString("1.5") && !IsNumericString("-a")
  {
    assert DigitPart("+") == "" && DigitPart("-") == "";
    assert DigitPart("1.5") == "1.5" && !IsDigit("1.5"[1]);
    assert DigitPart("-a") == "a" && !IsDigit("a"[0]);
  }

  /** What `String(n)` renders is a numeric token, and parsing it gives `n` back. */
  lemma {:induction false} RenderParseRoundTrip(n: int)
    ensures IsNumericString(IntToString(n))
    ensures ParseNumeric(IntToString(n)) == n
  {
    var s := IntToString(n);
    if n < 0 {
      NatRoundTrip(-n);
      NumericOfParts("-", NatToString(-n));
    } else {
      NatRoundTrip(n);
      NumericOfParts("", NatToString(n));
    }
  }

  /** A numeric token in canonical form (no '+', no redundant zero, not "-0") is what
      `String` renders for its parsed value. */
  lemma {:induction false} ParseRenderRoundTrip(s: string)
    requires IsNumericString(s) && s[0] != '+' && Canonical(DigitPart(s)) && s != "-0"
    ensures IntToString(ParseNumeric(s)) == s
  {
    var ds := DigitPart(s);
    CanonicalRoundTrip(ds);
    if s[0] == '-' {
      assert s == "-" + ds;
    }
  }

  /** A numeric token is even exactly when its last digit is. */
  lemma ParityOfLastDigit(s: string)
    requires IsNumericString(s)
    ensures |s| >= 1 && IsDigit(s[|s| - 1])
    ensures Abs(ParseNumeric(s)) % 2 == 0 <==> DigitValue(s[|s| - 1]) % 2 == 0
  {
    var ds := DigitPart(s);
    LastDigitParity(ds);
    assert ds[|ds| - 1] == s[|s| - 1];
  }

  /** How the three tests overlap: no numeric token is alphabetic, every alphabetic token is
      alphanumeric, and a numeric token is alphanumeric exactly when it has no sign. */
  lemma TestsOverlap(s: string)
    ensures IsNumericString(s) ==> !IsAlphaString(s)
    ensures IsAlphaString(s) ==> IsAlnum(s)
    ensures IsNumericString(s) ==> (IsAlnum(s) <==> !IsSign(s[0]))
  {
    if IsNumericString(s) {
      var ds := DigitPart(s);
      assert IsDigit(s[|s| - 1]) by { assert ds[|ds| - 1] == s[|s| - 1]; }
      if !IsSign(s[0]) {
        assert s == ds;
      } else {
        assert !IsAlnumChar(s[0]);
      }
    }
  }
}
