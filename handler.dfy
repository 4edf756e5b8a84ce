/**
 The `POST /bfhl` handler: a request whose `data` is not an array gets the
 fixed failure record; otherwise the classification loop runs over the
 tokens, `buildConcatString` runs over the upper-cased alphabet tokens, and
 the response carries the four lists, the sum as decimal text, the
 concatenation string and the caller's identity (`user_id`, e-mail, roll
 number). The environment variables are a parameter of the handler.
 */
module Handler {
  import opened Ascii
  import opened Decimal
  import opened Tokens
  import opened Classifier
  import opened Concat

  datatype Option<T> = None | Some(value: T)

  /** The `data` field of the request body: an array of tokens, or anything else
      (missing, `null`, an object, a string, a number). */
  datatype Payload = DataArray(items: seq<string>) | DataNotArray

  /** The environment variables the handler reads; `None` when unset. */
  datatype Env = Env(email: Option<string>, rollNumber: Option<string>,
                     fullName: Option<string>, dob: Option<string>)

  /** The JSON body of the response; `None` stands for JSON `null`. */
  datatype Response = Response(
    isSuccess: bool,
    userId: Option<string>,
    email: Option<string>,
    rollNumber: Option<string>,
    oddNumbers: seq<string>,
    evenNumbers: seq<string>,
    alphabets: seq<string>,
    specialCharacters: seq<string>,
    sum: string,
    concatString: string)

  const DefaultEmail: string := "john@xyz.com"
  const DefaultRollNumber: string := "ABCD123"
  const DefaultFullName: string := "john doe"
  const DefaultDob: string := "17091999"

  /** `process.env.X || fallback`: an unset or empty variable gives the fallback. */
  function EnvOr(v: Option<string>, fallback: string): (r: string)
    ensures v.Some? && v.value != "" ==> r == v.value
    ensures v == None || v == Some("") ==> r == fallback
  {
    if v.Some? && v.value != "" then v.value else fallback
  }

  /** `process.env.X || null`: an unset or empty variable gives `null`. */
  function EnvOrNull(v: Option<string>): (r: Option<string>)
    ensures r == None <==> v == None || v == Some("")
    ensures r.Some? ==> r == v
  {
    if v.Some? && v.value != "" then v else None
  }

  // ----- user_id -----

  /** `s` without its leading whitespace. */
  function SkipSpaces(s: string): (r: string)
    ensures |r| <= |s|
    ensures r == [] || !IsSpace(r[0])
    decreases |s|
  {
    if s != [] && IsSpace(s[0]) then SkipSpaces(s[1..]) else s
  }

  /** `s.replace(/\s+/g, "_")`: every maximal run of whitespace becomes one '_'. */
  function CollapseWhitespace(s: string): string
    decreases |s|
  {
    if s == [] then []
    else if IsSpace(s[0]) then "_" + CollapseWhitespace(SkipSpaces(s[1..]))
    else [s[0]] + CollapseWhitespace(s[1..])
  }

  /** `${fullName.toLowerCase().replace(/\s+/g, "_")}_${dob}`. */
  function UserId(fullName: string, dob: string): string
  {
    CollapseWhitespace(LowerString(fullName)) + "_" + dob
  }

  /** `s` with every whitespace character and every '_' removed. */
  function Strip(s: string): string
    decreases |s|
  {
    if s == [] then [] else (if IsSpace(s[0]) || s[0] == '_' then [] else [s[0]]) + Strip(s[1..])
  }

  lemma {:induction false} StripSkipSpaces(s: string)
    ensures Strip(SkipSpaces(s)) == Strip(s)
    decreases |s|
  {
    if s != [] && IsSpace(s[0]) {
      StripSkipSpaces(s[1..]);
    }
  }

  lemma {:induction false} SkipSpacesChars(s: string)
    ensures forall i :: 0 <= i < |SkipSpaces(s)| ==> SkipSpaces(s)[i] in s
    decreases |s|
  {
    if s != [] && IsSpace(s[0]) {
      SkipSpacesChars(s[1..]);
    }
  }

  /** Collapsing whitespace keeps every other character, in order, and adds only '_'. */
  lemma {:induction false} CollapseKeepsOthers(s: string)
    ensures Strip(CollapseWhitespace(s)) == Strip(s)
    decreases |s|
  {
    if s != [] {
      if IsSpace(s[0]) {
        var rest := SkipSpaces(s[1..]);
        CollapseKeepsOthers(rest);
        StripSkipSpaces(s[1..]);
        assert ("_" + CollapseWhitespace(rest))[1..] == CollapseWhitespace(rest);
      } else {
        CollapseKeepsOthers(s[1..]);
        assert ([s[0]] + CollapseWhitespace(s[1..]))[1..] == CollapseWhitespace(s[1..]);
      }
    }
  }

  /** Every character of the result is '_' or a non-whitespace character of the input:
      no whitespace is left. */
  lemma {:induction false} CollapseChars(s: string)
    ensures forall i :: 0 <= i < |CollapseWhitespace(s)| ==>
      CollapseWhitespace(s)[i] == '_' ||
      (CollapseWhitespace(s)[i] in s && !IsSpace(CollapseWhitespace(s)[i]))
    decreases |s|
  {
    if s != [] {
      if IsSpace(s[0]) {
        var rest := SkipSpaces(s[1..]);
        CollapseChars(rest);
        SkipSpacesChars(s[1..]);
        assert forall c :: c in rest ==> c in s;
      } else {
        CollapseChars(s[1..]);
      }
    }
  }

  /** A name without whitespace is left as it is. */
  lemma {:induction false} CollapseWithoutWhitespace(s: string)
    requires forall i :: 0 <= i < |s| ==> !IsSpace(s[i])
    ensures CollapseWhitespace(s) == s
    decreases |s|
  {
    if s != [] {
      CollapseWithoutWhitespace(s[1..]);
    }
  }

  /** `user_id` is the name part, then '_', then the date of birth; the name part holds no
      whitespace, no upper-case letter, and, apart from '_', the name's characters in order
      (lower-cased). `UserIdRun` adds that each whitespace run leaves exactly one '_'. */
  lemma UserIdShape(fullName: string, dob: string)
    ensures var u := UserId(fullName, dob);
      |u| > |dob| && u[|u| - |dob| - 1..] == "_" + dob
      && (forall i :: 0 <= i < |u| - |dob| - 1 ==> !IsSpace(u[i]) && !IsUpper(u[i]))
      && Strip(u[..|u| - |dob| - 1]) == Strip(LowerString(fullName))
  {
    var lower := LowerString(fullName);
    var name := CollapseWhitespace(lower);
    var u := UserId(fullName, dob);
    assert u == name + ("_" + dob);
    assert u[..|u| - |dob| - 1] == name;
    CollapseChars(lower);
    CollapseKeepsOthers(lower);
    forall i | 0 <= i < |name|
      ensures !IsSpace(name[i]) && !IsUpper(name[i])
    {
      if name[i] != '_' {
        var j :| 0 <= j < |lower| && lower[j] == name[i];
      }
    }
  }

  /** A whitespace-free prefix passes through unchanged. */
  lemma {:induction false} CollapsePrefix(a: string, rest: string)
    requires forall i :: 0 <= i < |a| ==> !IsSpace(a[i])
    ensures CollapseWhitespace(a + rest) == a + CollapseWhitespace(rest)
    decreases |a|
  {
    if a == [] {
      assert a + rest == rest;
    } else {
      assert (a + rest)[1..] == a[1..] + rest;
      CollapsePrefix(a[1..], rest);
    }
  }

  /** One space between two whitespace-free words becomes one '_'. */
  lemma CollapseOneSpace(a: string, b: string)
    requires forall i :: 0 <= i < |a| ==> !IsSpace(a[i])
    requires forall i :: 0 <= i < |b| ==> !IsSpace(b[i])
    ensures CollapseWhitespace(a + " " + b) == a + ("_" + b)
  {
    var rest := [' '] + b;
    assert a + " " + b == a + rest;
    CollapsePrefix(a, rest);
    CollapseSpaceThen(b);
  }

  lemma CollapseSpaceThen(b: string)
    requires forall i :: 0 <= i < |b| ==> !IsSpace(b[i])
    ensures CollapseWhitespace([' '] + b) == "_" + b
  {
    assert ([' '] + b)[1..] == b;
    assert SkipSpaces(b) == b;
    CollapseWithoutWhitespace(b);
  }

  /** Leading whitespace is skipped up to the first non-space character. */
  lemma {:induction false} SkipSpacesRun(w: string, b: string)
    requires forall i :: 0 <= i < |w| ==> IsSpace(w[i])
    requires b == [] || !IsSpace(b[0])
    ensures SkipSpaces(w + b) == b
    decreases |w|
  {
    if w == [] {
      assert w + b == b;
    } else {
      assert (w + b)[1..] == w[1..] + b;
      SkipSpacesRun(w[1..], b);
    }
  }

  /** A maximal run of whitespace, however long, becomes exactly one '_'. */
  lemma CollapseRun(w: string, b: string)
    requires |w| >= 1 && forall i :: 0 <= i < |w| ==> IsSpace(w[i])
    requires b == [] || !IsSpace(b[0])
    ensures CollapseWhitespace(w + b) == "_" + CollapseWhitespace(b)
  {
    assert (w + b)[0] == w[0];
    assert (w + b)[1..] == w[1..] + b;
    SkipSpacesRun(w[1..], b);
  }

  /** Two spaces in a row give one '_', not two: "a  b" becomes "a_b". */
  lemma CollapseDoubleSpace()
    ensures CollapseWhitespace("a  b") == "a_b"
  {
    assert "a  b" == "a" + ("  " + "b");
    CollapsePrefix("a", "  " + "b");
    CollapseRun("  ", "b");
    CollapseWithoutWhitespace("b");
  }

  /** Lower-casing distributes over concatenation. */
  lemma LowerAppend(x: string, y: string)
    ensures LowerString(x + y) == LowerString(x) + LowerString(y)
  {
  }

  /** Lower-casing keeps exactly the whitespace positions. */
  lemma LowerKeepsSpaces(x: string)
    ensures forall i :: 0 <= i < |x| ==> (IsSpace(LowerString(x)[i]) <==> IsSpace(x[i]))
  {
  }

  /** In `user_id`, a whitespace run after a whitespace-free first part becomes one '_',
      whatever its length. */
  lemma UserIdRun(a: string, w: string, b: string, dob: string)
    requires forall i :: 0 <= i < |a| ==> !IsSpace(a[i])
    requires |w| >= 1 && forall i :: 0 <= i < |w| ==> IsSpace(w[i])
    requires b == [] || !IsSpace(b[0])
    ensures UserId(a + w + b, dob) ==
      LowerString(a) + ("_" + (CollapseWhitespace(LowerString(b)) + ("_" + dob)))
  {
    var la, lw, lb := LowerString(a), LowerString(w), LowerString(b);
    LowerAppend(a + w, b);
    LowerAppend(a, w);
    assert LowerString(a + w + b) == la + (lw + lb);
    LowerKeepsSpaces(a);
    LowerKeepsSpaces(w);
    LowerKeepsSpaces(b);
    CollapsePrefix(la, lw + lb);
    CollapseRun(lw, lb);
  }

  /** Lower-casing leaves a string without upper-case letters as it is. */
  lemma LowerWithoutUpper(s: string)
    requires forall i :: 0 <= i < |s| ==> !IsUpper(s[i])
    ensures LowerString(s) == s
  {
  }

  /** For a name of two lower-case words separated by one space, `user_id` joins the words
      and the date of birth with '_'. */
  lemma UserIdOfTwoWords(first: string, last: string, dob: string)
    requires forall i :: 0 <= i < |first| ==> IsLower(first[i])
    requires forall i :: 0 <= i < |last| ==> IsLower(last[i])
    ensures UserId(first + " " + last, dob) == first + ("_" + (last + ("_" + dob)))
  {
    var full := first + " " + last;
    assert forall i :: 0 <= i < |full| ==> !IsUpper(full[i]);
    LowerWithoutUpper(full);
    CollapseOneSpace(first, last);
  }

  /** The built-in defaults give "john_doe_17091999". */
  lemma DefaultUserId()
    ensures UserId(DefaultFullName, DefaultDob) == "john_doe_17091999"
  {
    DefaultNameWords();
    UserIdOfTwoWords("john", "doe", DefaultDob);
    DefaultUserIdText();
  }

  /** With every variable unset or empty, the identity fields of a successful
      response take the built-in defaults. */
  lemma UnsetEnvDefaults(env: Env)
    requires env.email == None || env.email == Some("")
    requires env.rollNumber == None || env.rollNumber == Some("")
    requires env.fullName == None || env.fullName == Some("")
    requires env.dob == None || env.dob == Some("")
    ensures EnvOr(env.email, DefaultEmail) == "john@xyz.com"
    ensures EnvOr(env.rollNumber, DefaultRollNumber) == "ABCD123"
    ensures UserId(EnvOr(env.fullName, DefaultFullName), EnvOr(env.dob, DefaultDob)) == "john_doe_17091999"
  {
    DefaultUserId();
  }

  lemma DefaultUserIdText()
    ensures "john" + ("_" + ("doe" + ("_" + DefaultDob))) == "john_doe_17091999"
  {
  }

  /** The default name is two lower-case words separated by one space. */
  lemma DefaultNameWords()
    ensures DefaultFullName == "john" + " " + "doe"
    ensures forall i :: 0 <= i < |"john"| ==> IsLower("john"[i])
    ensures forall i :: 0 <= i < |"doe"| ==> IsLower("doe"[i])
  {
  }

  // ----- the response -----

  /** The record returned when `data` is not an array. */
  function FailureResponse(env: Env): (resp: Response)
    ensures !resp.isSuccess && resp.userId == None
    ensures resp.oddNumbers == [] && resp.evenNumbers == []
    ensures resp.alphabets == [] && resp.specialCharacters == []
    ensures resp.sum == "0" && resp.concatString == ""
  {
    Response(false, None, EnvOrNull(env.email), EnvOrNull(env.rollNumber),
             [], [], [], [], "0", "")
  }

  /** The handler body (apart from the `catch`). */
  method HandleBfhl(body: Payload, env: Env) returns (resp: Response)
    ensures body.DataNotArray? ==> resp == FailureResponse(env)
    ensures body.DataNotArray? ==>
      resp.email == EnvOrNull(env.email) && resp.rollNumber == EnvOrNull(env.rollNumber)
    ensures body.DataArray? ==>
      var data := body.items;
      && resp.isSuccess
      && resp.userId == Some(UserId(EnvOr(env.fullName, DefaultFullName), EnvOr(env.dob, DefaultDob)))
      && resp.email == Some(EnvOr(env.email, DefaultEmail))
      && resp.rollNumber == Some(EnvOr(env.rollNumber, DefaultRollNumber))
      && resp.oddNumbers == Select(data, OddNumber)
      && resp.evenNumbers == Select(data, EvenNumber)
      && resp.alphabets == UpperAll(Select(data, Alphabet))
      && resp.specialCharacters == Select(data, Special)
      && resp.sum == IntToString(NumericSum(data))
      && IsNumericString(resp.sum) && ParseNumeric(resp.sum) == NumericSum(data)
      && resp.concatString == ConcatString(resp.alphabets)
    ensures body == DataArray([]) ==>
      && resp.isSuccess
      && resp.oddNumbers == [] && resp.evenNumbers == []
      && resp.alphabets == [] && resp.specialCharacters == []
      && resp.sum == "0" && resp.concatString == ""
  {
    if body.DataNotArray? {
      return FailureResponse(env);
    }
    var email := EnvOr(env.email, DefaultEmail);
    var roll := EnvOr(env.rollNumber, DefaultRollNumber);
    var fullName := CollapseWhitespace(LowerString(EnvOr(env.fullName, DefaultFullName)));
    var dob := EnvOr(env.dob, DefaultDob);
    var userId := fullName + "_" + dob;

    var odd, even, alphasUpper, specials, sum := Classify(body.items);
    var concat := BuildConcatString(alphasUpper);
    RenderParseRoundTrip(sum);
    resp := Response(true, Some(userId), Some(email), Some(roll),
                     odd, even, alphasUpper, specials, IntToString(sum), concat);
  }

  /** The sample request ["a", "1", "334", "4", "R", "$"] renders its sum as "339" and its
      concatenation string, built from the alphabet list ["A", "R"], as "Ra". */
  lemma SampleResponse()
    ensures IntToString(NumericSum(["a", "1", "334", "4", "R", "$"])) == "339"
    ensures ConcatString(UpperAll(Select(["a", "1", "334", "4", "R", "$"], Alphabet))) == "Ra"
  {
    SampleRequest();
    assert NatToString(33) == "33" by { assert NatToString(3) == "3"; }
    assert NatToString(339) == "339";
    SampleConcat();
  }
}
