# bfhl token classifier

A Dafny model of the `POST /bfhl` handler in `index.js`. The handler takes a
request whose `data` field should be an array of tokens and answers with a JSON
record that holds:

- the tokens sorted into four lists: odd numbers, even numbers, alphabetic
  tokens (upper-cased) and special-character tokens;
- the sum of the numeric tokens, as decimal text;
- a "concatenation string" made from the letters of the alphabetic tokens,
  reversed, with alternating case;
- the caller's identity: `user_id`, e-mail and roll number, taken from
  environment variables, with built-in defaults.

Modules, one per file:

- `Ascii` (`ascii.dfy`) — the character classes the regular expressions use
  (`\d`, `[A-Za-z]`, `[A-Za-z0-9]`, `\s`) and ASCII case mapping.
- `Decimal` (`decimal.dfy`) — the value of a digit string (what `parseInt`
  computes) and the decimal rendering of an integer (what `String(n)`
  produces), with both round trips.
- `Tokens` (`tokens.dfy`) — `isNumericString`, `isAlphaString` and `isAlnum`
  as character-level predicates, and `parseInt(s, 10)` on numeric tokens.
- `Classifier` (`classifier.dfy`) — the classification loop.
  - It is the method `Classify`, a loop proved against `Select`: `Select` is
    the per-category filter of the input built on `Categorize`, the ordered
    rule table.
  - The loop is also proved against `NumericSum`.
  - Lemmas state partition, order, membership and the sum.
- `Concat` (`concat.dfy`) — `buildConcatString`.
  - It is the method `BuildConcatString`, nested loops proved against
    `ConcatString`.
  - It is related to an independent letter count and to the reversal of the
    joined words.
- `Handler` (`handler.dfy`) — the handler itself.
  - `HandleBfhl` builds the response.
  - `FailureResponse` is the failure record.
  - `UserId` builds the identity string; `CollapseWhitespace` models
    `replace(/\s+/g, "_")`.

The environment variables are a parameter of the handler (`Env`, each entry
`None` when unset). JavaScript's `||` treats an empty string like a missing
one, and `EnvOr` / `EnvOrNull` do the same.

The empty token `""` fails all three regular-expression tests, since each needs
at least one character. The loop therefore files it as a special character,
even though it holds no character outside `[A-Za-z0-9]`. The model follows the
code (`Classifier.SpecialCategory`).

## Model

| member | source | states |
|---|---|---|
| Ascii.IsDigit | index.js:12 | the class `\d`: the ten characters '0' to '9'; `Decimal.DigitValue` and `Decimal.DigitChar` give each its value and back |
| Ascii.IsLetter | index.js:13 | the class `[A-Za-z]`: an ASCII upper- or lower-case letter, the characters `ToUpper` and `ToLower` move between |
| Ascii.IsAlnumChar | index.js:14 | the class `[A-Za-z0-9]`: a letter or a digit |
| Ascii.IsSpace | index.js:52 | the class `\s`: ECMAScript's WhiteSpace and LineTerminator characters (tab to carriage return, space, no-break space, the Unicode space separators, line and paragraph separator, byte-order mark) |
| Ascii.SpaceIsNotWordChar | index.js:52 | a whitespace character is not a letter, not a digit and not '_', so the runs `\s+` matches and the '_' that replaces them never overlap the name's other characters |
| Ascii.ToUpper | index.js:76 | a lower-case ASCII letter becomes its own upper-case partner ('a' to 'A', ..., 'z' to 'Z'), a letter stays a letter, and every other character is unchanged |
| Ascii.ToLower | index.js:52 | an upper-case ASCII letter becomes its own lower-case partner ('A' to 'a', ..., 'Z' to 'z'), a letter stays a letter, whitespace stays whitespace, and every other character is unchanged |
| Ascii.CaseInsensitive | index.js:28 | upper- and lower-casing one character agree once both are re-cased, and on a letter of the other case each undoes the other |
| Ascii.UpperString | index.js:76 | `toUpperCase` keeps the length of the string |
| Ascii.LowerString | index.js:52 | `toLowerCase` keeps the length of the string |
| Decimal.DigitValue | index.js:68 | a digit character is worth less than 10 |
| Decimal.DigitChar | index.js:94 | the character written for a digit 0-9 is a digit and reads back as that digit |
| Decimal.DigitsValue | index.js:68 | the value `parseInt` reads from a digit string, most significant digit first; `Decimal.NatRoundTrip` and `Decimal.CanonicalRoundTrip` make it the inverse of the decimal rendering, and `Decimal.DigitsValueBound` bounds it by 10^n |
| Decimal.DigitsValueBound | index.js:68 | a string of n digits is worth less than 10^n |
| Decimal.NatToString | index.js:94 | `String(n)` of a non-negative integer is canonical: one or more digits, with no redundant leading zero |
| Decimal.IntToString | index.js:94 | `String(n)` is non-empty and starts with '-' exactly when n is negative |
| Decimal.NatRoundTrip | index.js:94 | reading back the rendering of n gives n |
| Decimal.CanonicalRoundTrip | index.js:94 | rendering the value of a canonical digit string gives the same string |
| Decimal.LeadingDigitBound | index.js:68 | a digit string whose first digit is not '0' is worth at least 10^(length-1) |
| Decimal.LeadingZero | index.js:68 | one leading '0' does not change the value |
| Decimal.LeadingZeros | index.js:68 | any number of leading zeros do not change the value |
| Decimal.LastDigitParity | index.js:70 | the parity of a digit string's value is the parity of its last digit |
| Tokens.IsNumericString | index.js:12 | `^[+-]?\d+$`: one or more digits after an optional sign; characterised without `DigitPart` by `Tokens.NumericShape` |
| Tokens.IsAlphaString | index.js:13 | `^[A-Za-z]+$`: one or more ASCII letters; how it overlaps the other tests is `Tokens.TestsOverlap` |
| Tokens.IsAlnum | index.js:14 | `^[A-Za-z0-9]+$`: one or more ASCII letters or digits; how it overlaps the other tests is `Tokens.TestsOverlap` |
| Tokens.ParseNumeric | index.js:68 | `parseInt(s, 10)` on a numeric token: its absolute value is the value of the digits after the sign, it is negative only after '-', and never positive after '-'; its round trips with `String` are `Tokens.RenderParseRoundTrip` and `Tokens.ParseRenderRoundTrip` |
| Tokens.DigitPart | index.js:12 | the part after an optional sign is no longer than the token |
| Tokens.Abs | index.js:70 | `Math.abs(n)` is n or -n, and never negative |
| Tokens.NumericShape | index.js:12 | a token is numeric exactly when it is one or more digits, or a sign followed by one or more digits |
| Tokens.NumericOfParts | index.js:66-68 | "", "+" or "-" before a digit string gives a numeric token; it parses to the digits' value, negated after '-' |
| Tokens.ParseIgnoresLeadingZeros | index.js:68 | leading zeros after the sign do not change the parsed value |
| Tokens.ParseExamples | index.js:68 | "007" parses to 7 and "+12" parses to 12 |
| Tokens.MinusZeroExample | index.js:66-68 | "-0" is numeric and parses to 0 |
| Tokens.NotNumericExamples | index.js:12 | "+", "-", "", "1.5" and "-a" are not numeric |
| Tokens.RenderParseRoundTrip | index.js:94 | the rendered sum is a numeric token that parses back to the sum |
| Tokens.ParseRenderRoundTrip | index.js:94 | a canonical numeric token (no '+', no redundant zero, not "-0") is the rendering of its value |
| Tokens.ParityOfLastDigit | index.js:70-74 | a numeric token ends in a digit; the absolute value of its parse is even exactly when that last digit is even |
| Tokens.TestsOverlap | index.js:12-14 | no numeric token is alphabetic; every alphabetic token is alphanumeric; a numeric token is alphanumeric exactly when it has no sign |
| Classifier.Categorize | index.js:66-80 | the ordered rules of the loop body: numeric first (odd or even by `Math.abs(num) % 2`), then alphabetic, then special when not alphanumeric, otherwise dropped; each rule's meaning is `Classifier.NumericCategory`, `Classifier.AlphabetCategory`, `Classifier.SpecialCategory` and `Classifier.DroppedCategory` |
| Classifier.Select | index.js:62-81 | the tokens of one category in input order, and no more tokens than the input has; what it holds is `Classifier.SelectMembership`, its order `Classifier.SelectAppend`, a single token `Classifier.SelectSingleton` |
| Classifier.UpperAll | index.js:76 | the alphabet list upper-cased entry by entry, of the same length |
| Classifier.NumericSum | index.js:69 | the total of the parsed values of the numeric tokens; stated one token at a time by `Classifier.NumericSumSnoc`, over concatenation by `Classifier.NumericSumAppend`, and against the two number lists by `Classifier.SumOfFiledNumbers` |
| Classifier.Classify | index.js:56-81 | the loop's four lists are the input's tokens of each category, in input order (alphabetic ones upper-cased), and its sum is the total of the numeric tokens' values |
| Classifier.FiledUnder | index.js:66-80 | one more token joins the list of its own category, every other list stays as it was, and the sum grows by its value exactly when it is numeric |
| Classifier.UpperAllSnoc | index.js:76 | upper-casing the alphabetic list commutes with appending one token |
| Classifier.NumericCategory | index.js:66-74 | a token is filed as odd or even exactly when it is numeric, and as even exactly when it is numeric and its last digit is even |
| Classifier.AlphabetCategory | index.js:75-76 | a token is filed as alphabetic exactly when it passes the alphabetic test |
| Classifier.SpecialCategory | index.js:77-79 | a token is filed as special exactly when it is not numeric and is empty or holds a character outside `[A-Za-z0-9]` |
| Classifier.DroppedCategory | index.js:77-79 | a token is in no list exactly when it is alphanumeric and holds both a letter and a digit |
| Classifier.MixedTokenDropped | index.js:79 | "abc123" and "a1" are in no list |
| Classifier.SelectMembership | index.js:62-81 | a token is in a category's list exactly when it occurs in the input and belongs to that category |
| Classifier.SelectSnoc | index.js:62-81 | one more token is appended to the list of its category and to no other |
| Classifier.SelectAppend | index.js:62 | the lists for a concatenated input are the concatenations of the lists: the order of the input is kept |
| Classifier.ListsDisjoint | index.js:66-80 | no token is in the lists of two different categories |
| Classifier.PartitionCount | index.js:62-81 | the five categories' lists together have exactly as many entries as the input |
| Classifier.NumericSumSnoc | index.js:69 | one more token adds its parsed value to the sum when it is numeric, and nothing otherwise |
| Classifier.NumericSumAppend | index.js:69 | the sum over a concatenated input is the sum of the two sums |
| Classifier.SelectedNumbersAreNumeric | index.js:66-74 | every entry of the odd and even lists is a numeric token |
| Classifier.SumOfFiledNumbers | index.js:66-74 | the sum is the total of the values in the odd list plus the total of the values in the even list |
| Classifier.ValueSumSnoc | index.js:69 | adding one numeric token to a list of numeric tokens adds its value to their total |
| Classifier.SumWithoutNumbers | index.js:60 | with no numeric token the sum stays 0 |
| Classifier.AlphabetsAreUpperWords | index.js:75-76 | each entry of the alphabet list is an alphabetic input token upper-cased, and consists of upper-case letters only |
| Classifier.CategorizeDigits | index.js:66-74 | an unsigned digit string parses to its digits' value and is filed by that value's parity |
| Classifier.SampleNumbers | index.js:66-74 | "1" is odd with value 1 and "4" is even with value 4 |
| Classifier.SampleBigNumber | index.js:66-74 | "334" is even with value 334 |
| Classifier.SampleOthers | index.js:75-79 | "a" and "R" are alphabetic and "$" is special |
| Classifier.SampleTokens | index.js:66-79 | the category and parsed value of each of the six sample tokens |
| Classifier.SelectSingleton | index.js:62-81 | a one-token input fills only the list of that token's category |
| Classifier.SelectOfThree | index.js:62-81 | a three-token input's list is what each token adds, in order |
| Classifier.NumericSumOfThree | index.js:69 | a three-token input's sum is what each token adds |
| Classifier.SampleSplit | index.js:62-81 | the lists of ["a","1","334","4","R","$"] are filled token by token |
| Classifier.SampleSumSplit | index.js:69 | the sum of the sample input is 1 + 334 + 4 as parsed |
| Classifier.SampleRequest | index.js:56-81 | ["a","1","334","4","R","$"] gives odd ["1"], even ["334","4"], alphabets ["A","R"], specials ["$"] and sum 339 |
| Concat.LettersOf | index.js:20-21 | the letters of one word, in order; counted by `Concat.LettersOfLength` |
| Concat.Letters | index.js:19-23 | the letters of all the words, in order across and within the words; counted by `Concat.LettersLength`, and the words joined for alphabetic words by `Concat.LettersOfAlphaWords` |
| Concat.ConcatString | index.js:17-30 | the collected letters reversed and re-cased alternately; its length, case pattern and order are `Concat.ConcatLength`, `Concat.ConcatAlternatesCase` and `Concat.ConcatIgnoringCase` |
| Concat.Reversed | index.js:25 | reversal keeps the length |
| Concat.AlternateCase | index.js:27-29 | re-casing keeps the length |
| Concat.BuildConcatString | index.js:17-30 | the nested loops, the reversal and the re-casing give `ConcatString` of the input; it has one character per letter of the input, upper case at even and lower case at odd positions |
| Concat.CountLettersSnoc | index.js:20-21 | one more character adds one to a word's letter count exactly when it is a letter |
| Concat.LetterCountSnoc | index.js:19-22 | one more word adds its letter count to the total |
| Concat.LettersOfLength | index.js:20-21 | the letters collected from a word are as many as its independently counted letters |
| Concat.LettersLength | index.js:19-23 | the letters collected from all words are as many as the independent letter count |
| Concat.ReversedAt | index.js:25 | position k of the reversal holds position length-1-k of the original |
| Concat.LettersOfAreLetters | index.js:21 | everything collected from a word is a letter |
| Concat.LettersAreLetters | index.js:19-23 | everything collected from the words is a letter |
| Concat.LettersOfAlphaWord | index.js:21 | a word of letters loses nothing to the letter filter |
| Concat.LettersOfAlphaWords | index.js:19-23 | for alphabetic words the collected letters are the words joined end to end |
| Concat.ConcatLength | index.js:17-30 | the result has exactly as many characters as the input has letters |
| Concat.ConcatEmpty | index.js:17-30 | the result is empty exactly when the input has no letters, and an empty list gives "" |
| Concat.ConcatAlternatesCase | index.js:27-29 | even positions hold upper-case letters and odd positions lower-case letters |
| Concat.ConcatIgnoringCase | index.js:17-30 | ignoring case, the result is the collected letters in reverse order |
| Concat.ConcatOfAlphaWords | index.js:83 | for alphabetic words (as the upper-cased alphabet list is), ignoring case, the result is the reversed join of the words, and every character is a letter |
| Concat.UpperOfAlternate | index.js:27-29 | upper-casing the re-cased letters gives each letter upper-cased, position by position |
| Concat.AlternatePair | index.js:27-29 | two characters re-cased: the first upper, the second lower |
| Concat.AlternateQuad | index.js:27-29 | four characters re-cased: upper, lower, upper, lower |
| Concat.LettersOfPair | index.js:19-23 | the letters of two words are the first word's, then the second word's |
| Concat.ReversedPair | index.js:25 | two characters reverse to the other order |
| Concat.ReversedQuad | index.js:25 | four characters reverse to the opposite order |
| Concat.ConcatOfTwoPairs | index.js:17-30 | two two-letter upper-case words `ab`, `cd` give `d`, lower-case `c`, `b`, lower-case `a` |
| Concat.ConcatExample | index.js:17-30 | ["AB","CD"] gives "DcBa" |
| Concat.ConcatOfTwoSingles | index.js:17-30 | two one-letter upper-case words `x`, `y` give `y` then lower-case `x` |
| Concat.SampleConcat | index.js:83 | the sample's alphabet list ["A","R"] gives "Ra" |
| Handler.EnvOr | index.js:50-53 | the variable or the fallback (JavaScript's logical or): a set, non-empty variable gives its value; an unset or empty one gives the fallback |
| Handler.EnvOrNull | index.js:39-40 | the variable or `null` (JavaScript's logical or): `null` exactly when the variable is unset or empty, its value otherwise |
| Handler.UnsetEnvDefaults | index.js:50-54 | with each variable unset or empty, the e-mail is "john@xyz.com", the roll number "ABCD123" and `user_id` "john_doe_17091999", the built-in `DefaultEmail`, `DefaultRollNumber`, `DefaultFullName` and `DefaultDob` |
| Handler.CollapseWhitespace | index.js:52 | `replace(/\s+/g, "_")`: each maximal whitespace run becomes one '_' (`Handler.CollapseRun`), and every other character is kept in order (`Handler.CollapseKeepsOthers`) |
| Handler.UserId | index.js:52-54 | the lower-cased name with whitespace runs collapsed, then '_', then the date of birth; its shape is `Handler.UserIdShape` and `Handler.UserIdRun` |
| Handler.SkipSpaces | index.js:52 | dropping leading whitespace leaves a string that is empty or starts with a non-space |
| Handler.StripSkipSpaces | index.js:52 | dropping leading whitespace removes no other character |
| Handler.SkipSpacesChars | index.js:52 | what remains after the leading whitespace comes from the input |
| Handler.CollapseKeepsOthers | index.js:52 | replacing whitespace runs by '_' keeps every other character, in order |
| Handler.CollapseChars | index.js:52 | after the replacement every character is '_' or a non-space character of the input |
| Handler.CollapseWithoutWhitespace | index.js:52 | a name without whitespace is left as it is |
| Handler.CollapsePrefix | index.js:52 | a whitespace-free prefix passes through the replacement unchanged |
| Handler.CollapseOneSpace | index.js:52 | one space between two whitespace-free words becomes one '_' |
| Handler.CollapseSpaceThen | index.js:52 | a space before a whitespace-free word becomes '_' |
| Handler.SkipSpacesRun | index.js:52 | skipping leading whitespace stops exactly at the first non-space character |
| Handler.CollapseRun | index.js:52 | a whitespace run of any length, followed by a non-space or by the end, becomes exactly one '_' |
| Handler.CollapseDoubleSpace | index.js:52 | "a  b" becomes "a_b": two spaces in a row give one '_' |
| Handler.LowerAppend | index.js:52 | lower-casing distributes over concatenation |
| Handler.LowerKeepsSpaces | index.js:52 | lower-casing keeps exactly the whitespace positions |
| Handler.UserIdRun | index.js:52-54 | in `user_id`, a whitespace run of any length between a whitespace-free first part and the rest of the name becomes one '_' |
| Handler.LowerWithoutUpper | index.js:52 | lower-casing leaves a string without upper-case letters as it is |
| Handler.UserIdShape | index.js:52-54 | `user_id` is the name part, '_', then the date of birth; the name part holds no whitespace and no upper-case letter, and apart from '_' it holds the lower-cased name's characters in order; that a whitespace run of any length leaves exactly one '_' is stated separately by `Handler.UserIdRun` |
| Handler.UserIdOfTwoWords | index.js:52-54 | a name of two lower-case words separated by one space gives the words and the date of birth joined with '_' |
| Handler.DefaultUserId | index.js:52-54 | the built-in defaults give "john_doe_17091999" |
| Handler.FailureResponse | index.js:35-47 | the failure record is unsuccessful, with null `user_id`, four empty lists, sum "0" and an empty concatenation string |
| Handler.HandleBfhl | index.js:32-96 | `data` that is not an array gives the failure record, with e-mail and roll number as set or `null`. An array gives a successful record. Its `user_id`, e-mail and roll number come from the environment or the defaults. Its four lists are the classifier's lists of `data`. Its sum is the rendering of the numeric total, which parses back to that total. Its concatenation string is `ConcatString` of the alphabet list. An empty array gives four empty lists, sum "0" and "" |
| Handler.SampleResponse | index.js:83-96 | the sample request renders its sum as "339" and its concatenation string as "Ra" |

## Left out

- The Express application, CORS, JSON body parsing, `dotenv`, the `GET /` route and `app.listen` (index.js:1-9, 116-123) are not modelled. They are framework I/O with no logic of their own.
- `req.body ?? {}` and the destructuring of `data` (index.js:34) are abstracted: `Payload` is either an array of string tokens or "anything else".
- HTTP status codes and JSON serialisation of the record are not modelled. `Response` holds the fields, and `None` stands for `null`.
- `String(item)` (index.js:64) is not modelled. Tokens are strings, so JSON numbers, booleans, objects and nested arrays, and their JavaScript renderings such as `1e+21` or `[object Object]`, are outside the model.
- The `catch` branch (index.js:97-111) is not modelled. Nothing in the loop throws on string tokens, so on the modelled inputs it is unreachable.
- `process.env` is not read. The four variables are the `Env` parameter of `HandleBfhl`.
- Classifier.NumericSum: it uses unbounded integers. JavaScript's `sum +=` (index.js:69) works on doubles, which lose precision beyond 2^53. `String(sum)` switches to exponent notation from 1e21. It gives `"Infinity"` (or `"-Infinity"`) once the double sum overflows `Number.MAX_VALUE` (about 1.7977e308): either a token's value is already beyond it, so `parseInt` gave `Infinity`, or adding finite values overflows, as two tokens worth 1e308 do. It gives `"NaN"` once overflows of both signs meet in the sum.
- Classifier.Categorize: it decides parity on the exact value. JavaScript decides it on the rounded double, so `"9007199254740993"` is filed odd here while `parseInt` rounds it to 2^53 and the source files it even.
- Tokens.ParseNumeric: it uses unbounded integers. The 2^53 precision limit of `parseInt` is not modelled, and neither is its `Infinity` for a token whose value exceeds `Number.MAX_VALUE` (about 1.7977e308); leading zeros do not count towards that, so 400 zeros then "1" gives 1 both here and in JavaScript.
- Ascii.ToUpper: it case-maps ASCII only. Only ASCII letters reach it in the classifier and in `buildConcatString`, so it is exact there.
- Ascii.LowerString: it lower-cases ASCII letters only. A non-ASCII upper-case letter in `FULL_NAME` would be lower-cased by JavaScript but is left unchanged by the model.
- Concat.BuildConcatString: it walks each word by `char`, a Unicode scalar value. JavaScript's `for…of` walks code points and can yield a lone surrogate, which is not a letter either way.
- `chars.reverse()` (index.js:25) is an in-place library call. It is modelled as the value `Reversed(chars)` assigned back to `chars`.
