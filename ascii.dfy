/** Character classes and case mapping used by the image-library scripts,
    restricted to ASCII: JavaScript's `toLowerCase` and the regular-expression
    class `\s` are both defined over all of Unicode, this module over ASCII. */
module Ascii {

  /** The ASCII members of the `\s` class: space, tab, line feed,
      vertical tab, form feed and carriage return. */
  predicate IsSpace(c: char) {
    c == ' ' || c == '\t' || c == '\n' || c == '\U{000B}' || c == '\U{000C}' || c == '\r'
  }

  predicate IsUpper(c: char) {
    'A' <= c <= 'Z'
  }

  predicate IsLowerLetter(c: char) {
    'a' <= c <= 'z'
  }

  predicate IsDigit(c: char) {
    '0' <= c <= '9'
  }

  /** `toLowerCase` of one character: upper-case ASCII letters move to
      their lower-case partner, every other character is kept. */
  function ToLower(c: char): (d: char)
    ensures !IsUpper(d)
    ensures IsUpper(c) ==> IsLowerLetter(d) && d as int == c as int + 32
    ensures !IsUpper(c) ==> d == c
  {
    if IsUpper(c) then (c as int + 32) as char else c
  }

  /** `toLowerCase` of a string, character by character. */
  function Lower(s: string): (r: string)
    ensures |r| == |s|
    ensures forall i :: 0 <= i < |s| ==> r[i] == ToLower(s[i])
  {
    seq(|s|, i requires 0 <= i < |s| => ToLower(s[i]))
  }

  lemma {:induction false} LowerAppend(a: string, b: string)
    ensures Lower(a + b) == Lower(a) + Lower(b)
  {
  }

  /** Whitespace, digits, `.` and `/` are untouched by lower-casing. */
  lemma {:induction false} ToLowerKeepsClasses(c: char)
    ensures IsSpace(ToLower(c)) == IsSpace(c)
    ensures IsDigit(ToLower(c)) == IsDigit(c)
    ensures (ToLower(c) == '.') == (c == '.')
    ensures (ToLower(c) == '/') == (c == '/')
    ensures (ToLower(c) == '-') == (c == '-')
  {
  }
}
