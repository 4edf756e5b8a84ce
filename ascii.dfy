/**
 Character classes and case mapping on ASCII, as the classifier's regular
 expressions (`\d`, `[A-Za-z]`, `[A-Za-z0-9]`, `\s`) and JavaScript's
 `toUpperCase` / `toLowerCase` see them for the characters that reach them.
 */
module Ascii {

  predicate IsDigit(c: char) { '0' <= c <= '9' }

  predicate IsUpper(c: char) { 'A' <= c <= 'Z' }

  predicate IsLower(c: char) { 'a' <= c <= 'z' }

  /** The class `[A-Za-z]`. */
  predicate IsLetter(c: char) { IsUpper(c) || IsLower(c) }

  /** The class `[A-Za-z0-9]`. */
  predicate IsAlnumChar(c: char) { IsLetter(c) || IsDigit(c) }

  /** The class `\s` of an ECMAScript regular expression (WhiteSpace and LineTerminator). */
  predicate IsSpace(c: char)
  {
    c == ' ' || ('\t' <= c <= '\r') || c == '\U{00A0}' || c == '\U{1680}'
    || ('\U{2000}' <= c <= '\U{200A}') || c == '\U{2028}' || c == '\U{2029}'
    || c == '\U{202F}' || c == '\U{205F}' || c == '\U{3000}' || c == '\U{FEFF}'
  }

  /** A whitespace character is neither a letter, a digit nor the '_' that replaces it. */
  lemma SpaceIsNotWordChar(c: char)
    ensures IsSpace(c) ==> !IsAlnumChar(c) && c != '_'
  {
  }

  /** `toUpperCase` on one character: ASCII lower-case letters move to upper case. */
  function ToUpper(c: char): (u: char)
    ensures IsLetter(c) ==> IsUpper(u)
    ensures IsLetter(u) <==> IsLetter(c)
    ensures !IsLower(c) ==> u == c
    ensures IsLower(c) ==> u as int - 'A' as int == c as int - 'a' as int
  {
    if IsLower(c) then (c as int - 32) as char else c
  }

  /** `toLowerCase` on one character: ASCII upper-case letters move to lower case. */
  function ToLower(c: char): (l: char)
    ensures IsLetter(c) ==> IsLower(l)
    ensures IsLetter(l) <==> IsLetter(c)
    ensures IsSpace(l) <==> IsSpace(c)
    ensures !IsUpper(c) ==> l == c
    ensures IsUpper(c) ==> l as int - 'a' as int == c as int - 'A' as int
  {
    if IsUpper(c) then (c as int + 32) as char else c
  }

  /** Upper- and lower-casing agree once both results are re-cased, and on a letter of the
      other case each undoes the other. */
  lemma CaseInsensitive(c: char)
    ensures ToUpper(ToLower(c)) == ToUpper(c)
    ensures ToLower(ToUpper(c)) == ToLower(c)
    ensures IsLower(c) ==> ToLower(ToUpper(c)) == c
    ensures IsUpper(c) ==> ToUpper(ToLower(c)) == c
  {
  }

  /** `String.prototype.toUpperCase` on an ASCII string. */
  function UpperString(s: string): (r: string)
    ensures |r| == |s|
  {
    seq(|s|, i requires 0 <= i < |s| => ToUpper(s[i]))
  }

  /** `String.prototype.toLowerCase` on an ASCII string. */
  function LowerString(s: string): (r: string)
    ensures |r| == |s|
  {
    seq(|s|, i requires 0 <= i < |s| => ToLower(s[i]))
  }
}
