/**
 `buildConcatString`: the letters of the alphabet tokens, taken in order across
 and within tokens, reversed, then re-cased alternately (upper case at even
 positions, lower case at odd positions) and joined.
 */
module Concat {
  import opened Ascii
  import opened Tokens

  /** The letters of one word, in order. */
  function LettersOf(w: string): string
    decreases |w|
  {
    if w == [] then []
    else LettersOf(w[..|w| - 1]) + (if IsLetter(w[|w| - 1]) then [w[|w| - 1]] else [])
  }

  /** The letters of a list of words, in order across and within the words. */
  function Letters(words: seq<string>): string
    decreases |words|
  {
    if words == [] then [] else Letters(words[..|words| - 1]) + LettersOf(words[|words| - 1])
  }

  /** The words joined end to end. */
  function Flatten(words: seq<string>): string
    decreases |words|
  {
    if words == [] then [] else Flatten(words[..|words| - 1]) + words[|words| - 1]
  }

  /** `Array.prototype.reverse` on a list of characters. */
  function Reversed(s: string): (r: string)
    ensures |r| == |s|
    decreases |s|
  {
    if s == [] then [] else [s[|s| - 1]] + Reversed(s[..|s| - 1])
  }

  /** The `map`/`join` step: upper case at even positions, lower case at odd ones. */
  function AlternateCase(s: string): (r: string)
    ensures |r| == |s|
  {
    seq(|s|, i requires 0 <= i < |s| => if i % 2 == 0 then ToUpper(s[i]) else ToLower(s[i]))
  }

  /** What `buildConcatString` returns for a list of words. */
  function ConcatString(words: seq<string>): string
  {
    AlternateCase(Reversed(Letters(words)))
  }

  /** The nested loops collect the letters, the list is reversed, then re-cased and joined. */
  method BuildConcatString(alphaItems: seq<string>) returns (r: string)
    ensures r == ConcatString(alphaItems)
    ensures |r| == LetterCount(alphaItems)
    ensures forall i :: 0 <= i < |r| ==> if i % 2 == 0 then IsUpper(r[i]) else IsLower(r[i])
  {
    var chars: string := [];
    for wi := 0 to |alphaItems|
      invariant chars == Letters(alphaItems[..wi])
    {
      var word := alphaItems[wi];
      for ci := 0 to |word|
        invariant chars == Letters(alphaItems[..wi]) + LettersOf(word[..ci])
      {
        assert word[..ci + 1][..ci] == word[..ci];
        if IsLetter(word[ci]) {
          chars := chars + [word[ci]];
        }
      }
      assert word[..|word|] == word;
      assert alphaItems[..wi + 1][..wi] == alphaItems[..wi];
    }
    assert alphaItems[..|alphaItems|] == alphaItems;
    chars := Reversed(chars);
    r := AlternateCase(chars);
    ConcatLength(alphaItems);
    ConcatAlternatesCase(alphaItems);
  }

  // ----- an independent count of letters -----

  /** The number of letters in a word, counted from the front. */
  function CountLetters(w: string): nat
    decreases |w|
  {
    if w == [] then 0 else (if IsLetter(w[0]) then 1 else 0) + CountLetters(w[1..])
  }

  /** The number of letters in a list of words, counted from the front. */
  function LetterCount(words: seq<string>): nat
    decreases |words|
  {
    if words == [] then 0 else CountLetters(words[0]) + LetterCount(words[1..])
  }

  lemma {:induction false} CountLettersSnoc(w: string, c: char)
    ensures CountLetters(w + [c]) == CountLetters(w) + (if IsLetter(c) then 1 else 0)
    decreases |w|
  {
    if w == [] {
      assert (w + [c])[1..] == [];
    } else {
      assert (w + [c])[1..] == w[1..] + [c];
      CountLettersSnoc(w[1..], c);
    }
  }

  lemma {:induction false} LetterCountSnoc(words: seq<string>, w: string)
    ensures LetterCount(words + [w]) == LetterCount(words) + CountLetters(w)
    decreases |words|
  {
    if words == [] {
      assert (words + [w])[1..] == [];
    } else {
      assert (words + [w])[1..] == words[1..] + [w];
      LetterCountSnoc(words[1..], w);
    }
  }

  /** `LettersOf` keeps exactly the letters of a word. */
  lemma {:induction false} LettersOfLength(w: string)
    ensures |LettersOf(w)| == CountLetters(w)
    decreases |w|
  {
    if w != [] {
      var init := w[..|w| - 1];
      LettersOfLength(init);
      assert w == init + [w[|w| - 1]];
      CountLettersSnoc(init, w[|w| - 1]);
    }
  }

  /** `Letters` keeps exactly the letters of the words. */
  lemma {:induction false} LettersLength(words: seq<string>)
    ensures |Letters(words)| == LetterCount(words)
    decreases |words|
  {
    if words != [] {
      var init := words[..|words| - 1];
      LettersLength(init);
      LettersOfLength(words[|words| - 1]);
      assert words == init + [words[|words| - 1]];
      LetterCountSnoc(init, words[|words| - 1]);
    }
  }

  // ----- properties of the steps -----

  /** Position `k` of the reversal holds position `|s| - 1 - k` of the original. */
  lemma {:induction false} ReversedAt(s: string, k: nat)
    requires k < |s|
    ensures Reversed(s)[k] == s[|s| - 1 - k]
    decreases |s|
  {
    if k > 0 {
      ReversedAt(s[..|s| - 1], k - 1);
    }
  }

  lemma {:induction false} LettersOfAreLetters(w: string)
    ensures forall i :: 0 <= i < |LettersOf(w)| ==> IsLetter(LettersOf(w)[i])
    decreases |w|
  {
    if w != [] {
      LettersOfAreLetters(w[..|w| - 1]);
    }
  }

  /** Everything collected is a letter. */
  lemma {:induction false} LettersAreLetters(words: seq<string>)
    ensures forall i :: 0 <= i < |Letters(words)| ==> IsLetter(Letters(words)[i])
    decreases |words|
  {
    if words != [] {
      LettersAreLetters(words[..|words| - 1]);
      LettersOfAreLetters(words[|words| - 1]);
    }
  }

  /** A word made only of letters loses nothing to the letter filter. */
  lemma {:induction false} LettersOfAlphaWord(w: string)
    requires forall i :: 0 <= i < |w| ==> IsLetter(w[i])
    ensures LettersOf(w) == w
    decreases |w|
  {
    if w != [] {
      LettersOfAlphaWord(w[..|w| - 1]);
      assert w == w[..|w| - 1] + [w[|w| - 1]];
    }
  }

  /** On alphabetic tokens, such as the upper-cased alphabet list, the letter filter keeps
      every character: the collected letters are the tokens joined end to end. */
  lemma {:induction false} LettersOfAlphaWords(words: seq<string>)
    requires forall k :: 0 <= k < |words| ==> IsAlphaString(words[k])
    ensures Letters(words) == Flatten(words)
    decreases |words|
  {
    if words != [] {
      LettersOfAlphaWords(words[..|words| - 1]);
      LettersOfAlphaWord(words[|words| - 1]);
    }
  }

  // ----- properties of buildConcatString -----

  /** The result has one character per letter of the input. */
  lemma ConcatLength(words: seq<string>)
    ensures |ConcatString(words)| == LetterCount(words)
  {
    LettersLength(words);
  }

  /** The result is empty exactly when the input has no letters (in particular for an
      empty list). */
  lemma ConcatEmpty(words: seq<string>)
    ensures ConcatString(words) == [] <==> LetterCount(words) == 0
    ensures ConcatString([]) == []
  {
    ConcatLength(words);
  }

  /** Even positions hold upper-case letters and odd positions lower-case letters. */
  lemma ConcatAlternatesCase(words: seq<string>)
    ensures forall i :: 0 <= i < |ConcatString(words)| ==>
      if i % 2 == 0 then IsUpper(ConcatString(words)[i]) else IsLower(ConcatString(words)[i])
  {
    var s := Letters(words);
    LettersAreLetters(words);
    forall i | 0 <= i < |s|
      ensures IsLetter(Reversed(s)[i])
    {
      ReversedAt(s, i);
    }
  }

  /** Ignoring case, the result is the collected letters in reverse order. */
  lemma ConcatIgnoringCase(words: seq<string>)
    ensures UpperString(ConcatString(words)) == Reversed(UpperString(Letters(words)))
  {
    var s := Letters(words);
    var lhs, rhs := UpperString(ConcatString(words)), Reversed(UpperString(s));
    forall i | 0 <= i < |s|
      ensures lhs[i] == rhs[i]
    {
      ReversedAt(s, i);
      ReversedAt(UpperString(s), i);
      UpperOfAlternate(Reversed(s), i);
    }
  }

  /** Upper-casing undoes the alternating case. */
  lemma UpperOfAlternate(s: string, i: nat)
    requires i < |s|
    ensures UpperString(AlternateCase(s))[i] == ToUpper(s[i])
  {
    CaseInsensitive(s[i]);
  }

  /** For alphabetic tokens, ignoring case, the result is the reverse of the tokens joined. */
  lemma ConcatOfAlphaWords(words: seq<string>)
    requires forall k :: 0 <= k < |words| ==> IsAlphaString(words[k])
    ensures UpperString(ConcatString(words)) == Reversed(UpperString(Flatten(words)))
    ensures forall i :: 0 <= i < |ConcatString(words)| ==> IsLetter(ConcatString(words)[i])
  {
    LettersOfAlphaWords(words);
    ConcatIgnoringCase(words);
    ConcatAlternatesCase(words);
  }

  /** The letters of a list of two words are those of the first, then those of the second. */
  lemma LettersOfPair(u: string, v: string)
    ensures Letters([u, v]) == LettersOf(u) + LettersOf(v)
  {
    assert [u, v][..1] == [u];
    assert [u][..0] == [];
    assert Letters([u]) == LettersOf(u);
  }

  lemma ReversedPair(x: char, y: char)
    ensures Reversed([x, y]) == [y, x]
  {
    assert [x, y][..1] == [x];
    assert [x][..0] == [];
  }

  lemma ReversedQuad(a: char, b: char, c: char, d: char)
    ensures Reversed([a, b, c, d]) == [d, c, b, a]
  {
    var s := [a, b, c, d];
    forall i | 0 <= i < 4
      ensures Reversed(s)[i] == [d, c, b, a][i]
    {
      ReversedAt(s, i);
    }
  }

  /** Two two-letter upper-case words `ab`, `cd` give `d`, `c` in lower case, `b`, then `a`
      in lower case. */
  lemma ConcatOfTwoPairs(a: char, b: char, c: char, d: char)
    requires IsUpper(a) && IsUpper(b) && IsUpper(c) && IsUpper(d)
    ensures ConcatString([[a, b], [c, d]]) == [d, ToLower(c), b, ToLower(a)]
  {
    LettersOfPair([a, b], [c, d]);
    LettersOfAlphaWord([a, b]);
    LettersOfAlphaWord([c, d]);
    assert Letters([[a, b], [c, d]]) == [a, b, c, d];
    ReversedQuad(a, b, c, d);
    AlternateQuad(d, c, b, a);
  }

  lemma AlternateQuad(a: char, b: char, c: char, d: char)
    ensures AlternateCase([a, b, c, d]) == [ToUpper(a), ToLower(b), ToUpper(c), ToLower(d)]
  {
  }

  /** ["AB", "CD"] gives "DcBa". */
  lemma ConcatExample()
    ensures ConcatString(["AB", "CD"]) == "DcBa"
  {
    ConcatOfTwoPairs('A', 'B', 'C', 'D');
  }

  /** Two one-letter upper-case words `x`, `y` give `y` and then `x` in lower case. */
  lemma ConcatOfTwoSingles(x: char, y: char)
    requires IsUpper(x) && IsUpper(y)
    ensures ConcatString([[x], [y]]) == [y, ToLower(x)]
  {
    LettersOfPair([x], [y]);
    LettersOfAlphaWord([x]);
    LettersOfAlphaWord([y]);
    assert Letters([[x], [y]]) == [x, y];
    ReversedPair(x, y);
    AlternatePair(y, x);
  }

  lemma AlternatePair(x: char, y: char)
    ensures AlternateCase([x, y]) == [ToUpper(x), ToLower(y)]
  {
  }

  /** The alphabet list ["A", "R"] of the sample request gives "Ra". */
  lemma SampleConcat()
    ensures ConcatString(["A", "R"]) == "Ra"
  {
    ConcatOfTwoSingles('A', 'R');
  }
}
