/**
  Character classes used by the query sanitiser.

  Characters are Unicode scalar values, as Python `str` code points are.
 */
module Chars {

  predicate IsAsciiDigit(c: char) {
    '0' <= c <= '9'
  }

  predicate IsAsciiLetter(c: char) {
    ('A' <= c <= 'Z') || ('a' <= c <= 'z')
  }

  /** The class `0-9A-Za-z` of the sanitiser's regular expression. */
  predicate IsAsciiAlnum(c: char) {
    IsAsciiDigit(c) || IsAsciiLetter(c)
  }

  /**
    Whitespace as Python sees it for `str`: the `\s` class of a `str`
    regular expression, `str.split()` and `str.strip()` all use the same
    set of code points (tab to carriage return, the four information
    separators, space, next-line, no-break space and the Unicode space
    and line/paragraph separators).
   */
  predicate IsWhitespace(c: char) {
    var n := c as int;
    (0x09 <= n <= 0x0D) || (0x1C <= n <= 0x20) || n == 0x85 || n == 0xA0 || n == 0x1680
    || (0x2000 <= n <= 0x200A) || n == 0x2028 || n == 0x2029 || n == 0x202F
    || n == 0x205F || n == 0x3000
  }

  /** A character that can be part of a token: anything but whitespace. */
  predicate IsWordChar(c: char) {
    !IsWhitespace(c)
  }

  predicate IsNotSpace(c: char) {
    c != ' '
  }

  lemma AlnumIsWordChar(c: char)
    requires IsAsciiAlnum(c)
    ensures IsWordChar(c) && c != ' '
  {
  }
}
