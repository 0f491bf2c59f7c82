/**
  Bytes and byte strings. A Go string is a sequence of bytes; here it is a `string` whose
  characters stand for the bytes 0 to 255.
 */
module Ascii {
  datatype Option<+T> = None | Some(value: T)

  predicate IsLetter(c: char) {
    'a' <= c <= 'z' || 'A' <= c <= 'Z'
  }

  predicate IsDigit(c: char) {
    '0' <= c <= '9'
  }

  function UpperChar(c: char): char {
    if 'a' <= c <= 'z' then (c as int - 32) as char else c
  }

  function ToUpper(s: string): string {
    seq(|s|, i requires 0 <= i < |s| => UpperChar(s[i]))
  }

  /** strings.EqualFold on ASCII text. */
  predicate EqualFold(a: string, b: string) {
    ToUpper(a) == ToUpper(b)
  }
}
