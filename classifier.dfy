/**
 The classification loop of the `POST /bfhl` handler. Each token is examined
 once, in input order, and the first rule that matches decides where it goes:
 a numeric token is parsed, added to the sum and filed as odd or even by the
 parity of its absolute value (as its original text); an alphabetic token is
 filed upper-cased; any other token is filed verbatim as special unless it is
 alphanumeric, in which case it is dropped.
 */
module Classifier {
  import opened Ascii
  import opened Decimal
  import opened Tokens

  /** Where one token ends up. `Dropped` is a mixed alphanumeric token such as "abc123". */
  datatype Category = OddNumber | EvenNumber | Alphabet | Special | Dropped

  /** The ordered rules of the loop body, applied to one token. */
  function Categorize(s: string): Category
  {
    if IsNumericString(s) then
      (if Abs(ParseNumeric(s)) % 2 == 0 then EvenNumber else OddNumber)
    else if IsAlphaString(s) then Alphabet
    else if !IsAlnum(s) then Special
    else Dropped
  }

  /** The tokens of `data` that fall in category `c`, in input order. */
  function Select(data: seq<string>, c: Category): (r: seq<string>)
    ensures |r| <= |data|
    decreases |data|
  {
    if data == [] then []
    else
      var last := data[|data| - 1];
      Select(data[..|data| - 1], c) + (if Categorize(last) == c then [last] else [])
  }

  /** `toUpperCase` applied to every token of a list. */
  function UpperAll(ws: seq<string>): (r: seq<string>)
    ensures |r| == |ws|
  {
    seq(|ws|, i requires 0 <= i < |ws| => UpperString(ws[i]))
  }

  /** The sum of the parsed values of the numeric tokens of `data`; other tokens add nothing. */
  function NumericSum(data: seq<string>): int
    decreases |data|
  {
    if data == [] then 0
    else
      var last := data[|data| - 1];
      NumericSum(data[..|data| - 1]) + (if IsNumericString(last) then ParseNumeric(last) else 0)
  }

  predicate AllNumeric(ns: seq<string>)
  {
    forall i :: 0 <= i < |ns| ==> IsNumericString(ns[i])
  }

  /** The sum of the parsed values of a list of numeric tokens. */
  function ValueSum(ns: seq<string>): int
    requires AllNumeric(ns)
    decreases |ns|
  {
    if ns == [] then 0 else ValueSum(ns[..|ns| - 1]) + ParseNumeric(ns[|ns| - 1])
  }

  /** The loop over `data`: pushes into four lists and accumulates `sum`. */
  method Classify(data: seq<string>)
    returns (odd: seq<string>, even: seq<string>, alphasUpper: seq<string>,
             specials: seq<string>, sum: int)
    ensures odd == Select(data, OddNumber)
    ensures even == Select(data, EvenNumber)
    ensures alphasUpper == UpperAll(Select(data, Alphabet))
    ensures specials == Select(data, Special)
    ensures sum == NumericSum(data)
  {
    odd, even, alphasUpper, specials, sum := [], [], [], [], 0;
    for i := 0 to |data|
      invariant odd == Select(data[..i], OddNumber)
      invariant even == Select(data[..i], EvenNumber)
      invariant alphasUpper == UpperAll(Select(data[..i], Alphabet))
      invariant specials == Select(data[..i], Special)
      invariant sum == NumericSum(data[..i])
    {
      var s := data[i];
      ghost var done := data[..i];
      assert data[..i + 1] == done + [s];
      ghost var c := Categorize(s);
      FiledUnder(done, s, c);
      if IsNumericString(s) {
        var num := ParseNumeric(s);
        sum := sum + num;
        if Abs(num) % 2 == 0 {
          assert c == EvenNumber;
          even := even + [s];
        } else {
          assert c == OddNumber;
          odd := odd + [s];
        }
      } else if IsAlphaString(s) {
        assert c == Alphabet;
        alphasUpper := alphasUpper + [UpperString(s)];
      } else {
        if !IsAlnum(s) {
          assert c == Special;
          specials := specials + [s];
        } else {
          assert c == Dropped;
        }
      }
    }
    assert data[..|data|] == data;
  }

  /** One more token `s` of category `c`: it joins the list of `c` and the sum when it is a
      number, and every other list stays as it was. */
  lemma FiledUnder(done: seq<string>, s: string, c: Category)
    requires Categorize(s) == c
    ensures var odd, even := Select(done, OddNumber), Select(done, EvenNumber);
      var alphas, specials := UpperAll(Select(done, Alphabet)), Select(done, Special);
      var odd', even' := Select(done + [s], OddNumber), Select(done + [s], EvenNumber);
      var alphas', specials' := UpperAll(Select(done + [s], Alphabet)), Select(done + [s], Special);
      var sum, sum' := NumericSum(done), NumericSum(done + [s]);
      match c
      case OddNumber =>
        odd' == odd + [s] && even' == even && alphas' == alphas && specials' == specials
        && sum' == sum + ParseNumeric(s)
      case EvenNumber =>
        odd' == odd && even' == even + [s] && alphas' == alphas && specials' == specials
        && sum' == sum + ParseNumeric(s)
      case Alphabet =>
        odd' == odd && even' == even && alphas' == alphas + [UpperString(s)] && specials' == specials
        && sum' == sum
      case Special =>
        odd' == odd && even' == even && alphas' == alphas && specials' == specials + [s]
        && sum' == sum
      case Dropped =>
        odd' == odd && even' == even && alphas' == alphas && specials' == specials
        && sum' == sum
  {
    assert (done + [s])[..|done|] == done;
    UpperAllSnoc(Select(done, Alphabet), s);
  }

  lemma UpperAllSnoc(ws: seq<string>, w: string)
    ensures UpperAll(ws + [w]) == UpperAll(ws) + [UpperString(w)]
  {
  }

  // ----- what each category means -----

  /** A token is filed as a number (odd or even) exactly when it passes the numeric test,
      and as even exactly when its last digit is even. */
  lemma NumericCategory(s: string)
    ensures Categorize(s) == OddNumber || Categorize(s) == EvenNumber <==> IsNumericString(s)
    ensures Categorize(s) == EvenNumber <==>
      IsNumericString(s) && DigitValue(s[|s| - 1]) % 2 == 0
  {
    if IsNumericString(s) {
      ParityOfLastDigit(s);
    }
  }

  /** A token is filed as alphabetic exactly when it passes the alphabetic test: a numeric
      token never does, so the numeric rule running first takes nothing away from it. */
  lemma AlphabetCategory(s: string)
    ensures Categorize(s) == Alphabet <==> IsAlphaString(s)
  {
    TestsOverlap(s);
  }

  /** A token is filed as special exactly when it is not numeric and is empty or holds a
      character outside `[A-Za-z0-9]`. */
  lemma SpecialCategory(s: string)
    ensures Categorize(s) == Special <==>
      !IsNumericString(s) && (|s| == 0 || exists i :: 0 <= i < |s| && !IsAlnumChar(s[i]))
  {
    TestsOverlap(s);
    if !IsNumericString(s) && exists i :: 0 <= i < |s| && !IsAlnumChar(s[i]) {
      var i :| 0 <= i < |s| && !IsAlnumChar(s[i]);
      assert !IsLetter(s[i]);
    }
  }

  /** A token is dropped exactly when it is alphanumeric and holds both a letter and a digit. */
  lemma DroppedCategory(s: string)
    ensures Categorize(s) == Dropped <==>
      IsAlnum(s)
      && (exists i :: 0 <= i < |s| && IsLetter(s[i]))
      && (exists j :: 0 <= j < |s| && IsDigit(s[j]))
  {
    TestsOverlap(s);
    NumericShape(s);
    if IsAlnum(s) {
      if IsNumericString(s) {
        assert !IsSign(s[0]) && AllDigits(s);
        assert forall i :: 0 <= i < |s| ==> !IsLetter(s[i]);
      } else if !IsAlphaString(s) {
        var i :| 0 <= i < |s| && !IsLetter(s[i]);
        assert IsDigit(s[i]);
        var j :| 0 <= j < |s| && !IsDigit(s[j]);
        assert IsLetter(s[j]);
      } else {
        assert forall i :: 0 <= i < |s| ==> !IsDigit(s[i]);
      }
    }
  }

  /** The example of a mixed token. */
  lemma MixedTokenDropped()
    ensures Categorize("abc123") == Dropped && Categorize("a1") == Dropped
  {
    DroppedCategory("abc123");
    assert IsLetter("abc123"[0]) && IsDigit("abc123"[3]);
    DroppedCategory("a1");
    assert IsLetter("a1"[0]) && IsDigit("a1"[1]);
  }

  // ----- the lists as a partition of the input -----

  /** A token is in the list of category `c` exactly when it occurs in the input and
      falls in `c`. */
  lemma {:induction false} SelectMembership(data: seq<string>, c: Category, x: string)
    ensures x in Select(data, c) <==> x in data && Categorize(x) == c
    decreases |data|
  {
    if data != [] {
      var init := data[..|data| - 1];
      SelectMembership(init, c, x);
      assert data == init + [data[|data| - 1]];
    }
  }

  /** Filing one more token appends it to the list of its category and to no other. */
  lemma SelectSnoc(data: seq<string>, x: string, c: Category)
    ensures Select(data + [x], c) == Select(data, c) + (if Categorize(x) == c then [x] else [])
  {
    assert (data + [x])[..|data|] == data;
  }

  /** Filing is order preserving: the list for a concatenation is the concatenation of
      the lists. */
  lemma {:induction false} SelectAppend(a: seq<string>, b: seq<string>, c: Category)
    ensures Select(a + b, c) == Select(a, c) + Select(b, c)
    decreases |b|
  {
    if b == [] {
      assert a + b == a;
    } else {
      var initB, last := b[..|b| - 1], b[|b| - 1];
      var tail := if Categorize(last) == c then [last] else [];
      assert (a + b)[..|a + b| - 1] == a + initB;
      assert (a + b)[|a + b| - 1] == last;
      calc {
        Select(a + b, c);
        Select(a + initB, c) + tail;
        { SelectAppend(a, initB, c); }
        (Select(a, c) + Select(initB, c)) + tail;
        Select(a, c) + (Select(initB, c) + tail);
        Select(a, c) + Select(b, c);
      }
    }
  }

  /** No token lands in two lists. */
  lemma ListsDisjoint(data: seq<string>, c1: Category, c2: Category, x: string)
    requires c1 != c2
    ensures !(x in Select(data, c1) && x in Select(data, c2))
  {
    SelectMembership(data, c1, x);
    SelectMembership(data, c2, x);
  }

  /** Every token lands in exactly one of the five categories, so the lists' lengths add up
      to the number of tokens. */
  lemma {:induction false} PartitionCount(data: seq<string>)
    ensures |Select(data, OddNumber)| + |Select(data, EvenNumber)| + |Select(data, Alphabet)|
          + |Select(data, Special)| + |Select(data, Dropped)| == |data|
    decreases |data|
  {
    if data != [] {
      PartitionCount(data[..|data| - 1]);
    }
  }

  // ----- the sum -----

  lemma NumericSumSnoc(data: seq<string>, x: string)
    ensures NumericSum(data + [x]) == NumericSum(data) + (if IsNumericString(x) then ParseNumeric(x) else 0)
  {
    assert (data + [x])[..|data|] == data;
  }

  /** The sum over a concatenation is the sum of the sums. */
  lemma {:induction false} NumericSumAppend(a: seq<string>, b: seq<string>)
    ensures NumericSum(a + b) == NumericSum(a) + NumericSum(b)
    decreases |b|
  {
    if b == [] {
      assert a + b == a;
    } else {
      var initB, last := b[..|b| - 1], b[|b| - 1];
      NumericSumAppend(a, initB);
      assert b == initB + [last];
      assert a + b == (a + initB) + [last];
      NumericSumSnoc(a + initB, last);
      NumericSumSnoc(initB, last);
    }
  }

  /** The filed numbers are numeric tokens. */
  lemma {:induction false} SelectedNumbersAreNumeric(data: seq<string>, c: Category)
    requires c == OddNumber || c == EvenNumber
    ensures AllNumeric(Select(data, c))
    decreases |data|
  {
    if data != [] {
      SelectedNumbersAreNumeric(data[..|data| - 1], c);
    }
  }

  /** The sum is the total of the values of the odd list and the even list: every numeric
      token counts once, whichever list it lands in, and no other token counts. */
  lemma {:induction false} SumOfFiledNumbers(data: seq<string>)
    ensures AllNumeric(Select(data, OddNumber)) && AllNumeric(Select(data, EvenNumber))
    ensures NumericSum(data) ==
      ValueSum(Select(data, OddNumber)) + ValueSum(Select(data, EvenNumber))
    decreases |data|
  {
    SelectedNumbersAreNumeric(data, OddNumber);
    SelectedNumbersAreNumeric(data, EvenNumber);
    if data != [] {
      var init, last := data[..|data| - 1], data[|data| - 1];
      assert data == init + [last];
      SumOfFiledNumbers(init);
      SelectSnoc(init, last, OddNumber);
      SelectSnoc(init, last, EvenNumber);
      NumericSumSnoc(init, last);
      var oddInit, evenInit := Select(init, OddNumber), Select(init, EvenNumber);
      if Categorize(last) == OddNumber {
        assert IsNumericString(last);
        ValueSumSnoc(oddInit, last);
        assert Select(data, OddNumber) == oddInit + [last];
        assert Select(data, EvenNumber) == evenInit;
        assert NumericSum(data) == NumericSum(init) + ParseNumeric(last);
      } else if Categorize(last) == EvenNumber {
        assert IsNumericString(last);
        ValueSumSnoc(evenInit, last);
        assert Select(data, OddNumber) == oddInit;
        assert Select(data, EvenNumber) == evenInit + [last];
        assert NumericSum(data) == NumericSum(init) + ParseNumeric(last);
      } else {
        assert !IsNumericString(last);
        assert Select(data, OddNumber) == oddInit;
        assert Select(data, EvenNumber) == evenInit;
        assert NumericSum(data) == NumericSum(init);
      }
    }
  }

  lemma ValueSumSnoc(ns: seq<string>, x: string)
    requires AllNumeric(ns) && IsNumericString(x)
    ensures AllNumeric(ns + [x])
    ensures ValueSum(ns + [x]) == ValueSum(ns) + ParseNumeric(x)
  {
    assert (ns + [x])[..|ns|] == ns;
  }

  /** With no numeric token the sum is 0. */
  lemma {:induction false} SumWithoutNumbers(data: seq<string>)
    requires forall i :: 0 <= i < |data| ==> !IsNumericString(data[i])
    ensures NumericSum(data) == 0
    decreases |data|
  {
    if data != [] {
      SumWithoutNumbers(data[..|data| - 1]);
    }
  }

  // ----- the alphabet list -----

  /** A word of one or more upper-case ASCII letters. */
  predicate IsUpperWord(w: string)
  {
    |w| >= 1 && forall i :: 0 <= i < |w| ==> IsUpper(w[i])
  }

  /** Every entry of the alphabet list is an alphabetic input token upper-cased, in input
      order, and is itself made of upper-case letters only. */
  lemma AlphabetsAreUpperWords(data: seq<string>, k: nat)
    requires k < |UpperAll(Select(data, Alphabet))|
    ensures Select(data, Alphabet)[k] in data
    ensures IsAlphaString(Select(data, Alphabet)[k])
    ensures UpperAll(Select(data, Alphabet))[k] == UpperString(Select(data, Alphabet)[k])
    ensures IsUpperWord(UpperAll(Select(data, Alphabet))[k])
    ensures IsAlphaString(UpperAll(Select(data, Alphabet))[k])
  {
    var w := Select(data, Alphabet)[k];
    SelectMembership(data, Alphabet, w);
    AlphabetCategory(w);
  }

  // ----- a worked request -----

  /** An unsigned digit string is filed by the parity of its value. */
  lemma CategorizeDigits(ds: string)
    requires |ds| >= 1 && AllDigits(ds)
    ensures IsNumericString(ds) && ParseNumeric(ds) == DigitsValue(ds)
    ensures Categorize(ds) == if DigitsValue(ds) % 2 == 0 then EvenNumber else OddNumber
  {
    DigitPartOfDigits(ds);
    assert IsDigit(ds[0]);
    var v := DigitsValue(ds);
    assert ParseNumeric(ds) == v;
    assert Abs(ParseNumeric(ds)) == v;
  }

  lemma SampleNumbers()
    ensures Categorize("1") == OddNumber && ParseNumeric("1") == 1
    ensures Categorize("4") == EvenNumber && ParseNumeric("4") == 4
  {
    CategorizeDigits("1");
    CategorizeDigits("4");
  }

  lemma SampleBigNumber()
    ensures Categorize("334") == EvenNumber && ParseNumeric("334") == 334
  {
    CategorizeDigits("334");
    assert DigitsValue("334") == 334 by {
      assert "334"[..2] == "33" && "33"[..1] == "3";
    }
  }

  lemma SampleOthers()
    ensures Categorize("a") == Alphabet && Categorize("R") == Alphabet
    ensures Categorize("$") == Special
  {
    assert DigitPart("a") == "a" && !IsDigit('a');
    assert DigitPart("R") == "R" && !IsDigit('R');
    assert DigitPart("$") == "$" && !IsDigit('$') && !IsAlnumChar('$');
  }

  lemma SelectSingleton(x: string, c: Category)
    ensures Select([x], c) == if Categorize(x) == c then [x] else []
  {
    assert [x][..0] == [];
  }

  /** What token `w` adds to the list of category `c`. */
  function Filed(w: string, c: Category): seq<string>
  {
    if Categorize(w) == c then [w] else []
  }

  /** What token `w` adds to the sum. */
  function Worth(w: string): int
  {
    if IsNumericString(w) then ParseNumeric(w) else 0
  }

  /** The list of one category for a three-token request, token by token. */
  lemma SelectOfThree(t: seq<string>, c: Category)
    requires |t| == 3
    ensures Select(t, c) == Filed(t[0], c) + Filed(t[1], c) + Filed(t[2], c)
  {
    assert t[..1][..0] == [];
    assert Select(t[..1], c) == Filed(t[0], c);
    assert t[..2][..1] == t[..1];
    assert t[..3][..2] == t[..2];
    assert t[..3] == t;
  }

  /** The sum of a three-token request, token by token. */
  lemma NumericSumOfThree(t: seq<string>)
    requires |t| == 3
    ensures NumericSum(t) == Worth(t[0]) + Worth(t[1]) + Worth(t[2])
  {
    assert t[..1][..0] == [];
    assert NumericSum(t[..1]) == Worth(t[0]);
    assert t[..2][..1] == t[..1];
    assert NumericSum(t[..2]) == Worth(t[0]) + Worth(t[1]);
    assert t[..3][..2] == t[..2];
    assert t[..3] == t;
  }

  /** The list of each category in the sample request, token by token. */
  lemma SampleSplit(c: Category)
    ensures Select(["a", "1", "334", "4", "R", "$"], c) ==
      (Filed("a", c) + Filed("1", c) + Filed("334", c)) + (Filed("4", c) + Filed("R", c) + Filed("$", c))
  {
    var front, back := ["a", "1", "334"], ["4", "R", "$"];
    assert front + back == ["a", "1", "334", "4", "R", "$"];
    SelectAppend(front, back, c);
    SelectOfThree(front, c);
    SelectOfThree(back, c);
  }

  /** The category and value of each token of the sample request. */
  lemma SampleTokens()
    ensures Categorize("a") == Alphabet && Categorize("R") == Alphabet && Categorize("$") == Special
    ensures Categorize("1") == OddNumber && ParseNumeric("1") == 1
    ensures Categorize("334") == EvenNumber && ParseNumeric("334") == 334
    ensures Categorize("4") == EvenNumber && ParseNumeric("4") == 4
  {
    SampleNumbers();
    SampleBigNumber();
    SampleOthers();
  }

  /** The sum of the sample request, token by token. */
  lemma SampleSumSplit()
    ensures NumericSum(["a", "1", "334", "4", "R", "$"]) ==
      ParseNumeric("1") + ParseNumeric("334") + ParseNumeric("4")
  {
    SampleTokens();
    var front, back := ["a", "1", "334"], ["4", "R", "$"];
    assert front + back == ["a", "1", "334", "4", "R", "$"];
    NumericSumAppend(front, back);
    NumericSumOfThree(front);
    NumericSumOfThree(back);
  }

  /** The sample request ["a", "1", "334", "4", "R", "$"]: odd ["1"], even ["334", "4"],
      alphabets ["A", "R"], specials ["$"], sum 339. Each list comes from its own
      helper below, which fills it token by token through `SampleSplit`. */
  lemma SampleRequest()
    ensures Select(["a", "1", "334", "4", "R", "$"], OddNumber) == ["1"]
    ensures Select(["a", "1", "334", "4", "R", "$"], EvenNumber) == ["334", "4"]
    ensures UpperAll(Select(["a", "1", "334", "4", "R", "$"], Alphabet)) == ["A", "R"]
    ensures Select(["a", "1", "334", "4", "R", "$"], Special) == ["$"]
    ensures NumericSum(["a", "1", "334", "4", "R", "$"]) == 339
  {
    SampleOdd();
    SampleEven();
    SampleAlphabets();
    SampleSpecials();
    SampleSumSplit();
    SampleTokens();
  }

  lemma SampleOdd()
    ensures Select(["a", "1", "334", "4", "R", "$"], OddNumber) == ["1"]
  {
    SampleTokens();
    SampleSplit(OddNumber);
    var none: seq<string> := [];
    assert Filed("a", OddNumber) == none && Filed("1", OddNumber) == ["1"];
    assert Filed("334", OddNumber) == none && Filed("4", OddNumber) == none;
    assert Filed("R", OddNumber) == none && Filed("$", OddNumber) == none;
  }

  lemma SampleEven()
    ensures Select(["a", "1", "334", "4", "R", "$"], EvenNumber) == ["334", "4"]
  {
    SampleTokens();
    SampleSplit(EvenNumber);
    var none: seq<string> := [];
    assert Filed("a", EvenNumber) == none && Filed("1", EvenNumber) == none;
    assert Filed("334", EvenNumber) == ["334"] && Filed("4", EvenNumber) == ["4"];
    assert Filed("R", EvenNumber) == none && Filed("$", EvenNumber) == none;
  }

  lemma SampleAlphabets()
    ensures UpperAll(Select(["a", "1", "334", "4", "R", "$"], Alphabet)) == ["A", "R"]
  {
    SampleTokens();
    SampleSplit(Alphabet);
    assert Select(["a", "1", "334", "4", "R", "$"], Alphabet) == ["a", "R"];
    assert UpperString("a") == "A" && UpperString("R") == "R";
  }

  lemma SampleSpecials()
    ensures Select(["a", "1", "334", "4", "R", "$"], Special) == ["$"]
  {
    SampleTokens();
    SampleSplit(Special);
  }
}
