/** Character classes used by Python's `re` module and `str` methods in the
    review-cleaning code: `\w`, `\s` (= `str.isspace`), `str.lower` and
    `string.punctuation`. ASCII is classified exactly as Python does; how
    characters beyond ASCII are classified comes from the Unicode database,
    which the model does not carry, so it is a parameter. */
module Chars {

  /** The Unicode part of `\w` and `\s`: whether a non-ASCII character is a word
      character (`str.isalnum()`) and whether it is whitespace (`str.isspace()`). */
  datatype CharClass = CharClass(wordBeyondAscii: char -> bool, spaceBeyondAscii: char -> bool)

  predicate IsAscii(c: char) { c as int < 128 }

  predicate IsAsciiUpper(c: char) { 'A' <= c <= 'Z' }

  predicate IsAsciiLower(c: char) { 'a' <= c <= 'z' }

  predicate IsDigit(c: char) { '0' <= c <= '9' }

  /** `\s` and `str.isspace()`: in ASCII these are tab, line feed, vertical tab,
      form feed, carriage return, the separators 0x1C to 0x1F, and space. */
  predicate IsSpace(cc: CharClass, c: char)
  {
    if IsAscii(c) then c == ' ' || 9 <= c as int <= 13 || 28 <= c as int <= 31
    else cc.spaceBeyondAscii(c)
  }

  /** `\w`: in ASCII these are letters, digits and the underscore. */
  predicate IsWord(cc: CharClass, c: char)
  {
    if IsAscii(c) then IsAsciiUpper(c) || IsAsciiLower(c) || IsDigit(c) || c == '_'
    else cc.wordBeyondAscii(c)
  }

  /** `str.lower()` on one character, for ASCII letters; other characters are
      left as they are. */
  function Lower(c: char): (r: char)
    ensures !IsAsciiUpper(r)
    ensures IsAsciiUpper(c) ==> IsAsciiLower(r) && r as int == c as int + 32
    ensures !IsAsciiUpper(c) ==> r == c
  {
    if IsAsciiUpper(c) then (c as int + 32) as char else c
  }

  /** Lowering keeps every character's class: ASCII stays ASCII, whitespace
      stays whitespace and word characters stay word characters. */
  lemma LowerKeepsClass(cc: CharClass, c: char)
    ensures IsAscii(Lower(c)) == IsAscii(c)
    ensures IsSpace(cc, Lower(c)) == IsSpace(cc, c)
    ensures IsWord(cc, Lower(c)) == IsWord(cc, c)
  {
  }

  /** Membership in Python's `string.punctuation`. */
  predicate IsPunctuation(c: char)
  {
    c in "!\"#$%&'()*+,-./:;<=>?@[\\]^_`{|}~"
  }
}
