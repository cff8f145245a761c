/** Bytes, written as the characters of the first 256 code points. */
module Bytes {

  type Byte = c: char | (c as int) < 256 witness '\0'

  const NUL: Byte := '\0'
  const CR: Byte := '\r'
  const LF: Byte := '\n'

  predicate IsDigit(c: char) { '0' <= c <= '9' }
}
