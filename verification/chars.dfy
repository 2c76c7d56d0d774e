/** The ASCII character classes of the RE2 syntax used by the matchers:
    `\d` is `[0-9]`, `\s` is `[\t\n\f\r ]`, a word character is
    `[0-9A-Za-z_]`, and `\b` holds between a word character and a
    non-word character (or an end of the input). */
module Chars {

  predicate IsDigit(c: char) {
    '0' <= c <= '9'
  }

  predicate IsLetter(c: char) {
    'A' <= c <= 'Z' || 'a' <= c <= 'z'
  }

  predicate IsWordChar(c: char) {
    IsDigit(c) || IsLetter(c) || c == '_'
  }

  predicate IsSpace(c: char) {
    c == '\t' || c == '\n' || c == '\U{000C}' || c == '\r' || c == ' '
  }

  predicate AllDigits(t: string) {
    forall k :: 0 <= k < |t| ==> IsDigit(t[k])
  }

  predicate AllSpaces(t: string) {
    forall k :: 0 <= k < |t| ==> IsSpace(t[k])
  }

  predicate AllLetters(t: string) {
    forall k :: 0 <= k < |t| ==> IsLetter(t[k])
  }

  predicate AllWordChars(t: string) {
    forall k :: 0 <= k < |t| ==> IsWordChar(t[k])
  }

  /** `\b` at position `i` of `s` (0 <= i <= |s|). */
  predicate IsWordBoundary(s: string, i: nat)
    requires i <= |s|
  {
    (i > 0 && IsWordChar(s[i - 1])) != (i < |s| && IsWordChar(s[i]))
  }

  /** The end of the longest run of `inClass` characters starting at `i`:
      what a greedy `c*` consumes. */
  function RunEnd(s: string, i: nat, inClass: char -> bool): (j: nat)
    requires i <= |s|
    ensures i <= j <= |s|
    ensures forall k :: i <= k < j ==> inClass(s[k])
    ensures j == |s| || !inClass(s[j])
    decreases |s| - i
  {
    if i < |s| && inClass(s[i]) then RunEnd(s, i + 1, inClass) else i
  }

  /** A run of `inClass` characters that is followed by a character outside
      the class (or by the end) is the one `RunEnd` finds. */
  lemma RunEndIs(s: string, i: nat, inClass: char -> bool, j: nat)
    requires i <= j <= |s|
    requires forall k :: i <= k < j ==> inClass(s[k])
    requires j == |s| || !inClass(s[j])
    ensures RunEnd(s, i, inClass) == j
  {
  }
}
