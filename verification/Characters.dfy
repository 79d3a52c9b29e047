/** Bytes, and the character codes that count as white space. */
module Characters {
  newtype Byte = b: int | 0 <= b < 256

  /** The white space of JavaScript: what the trim method of a string takes away and \s matches. */
  predicate IsSpaceCode(code: int) {
    || 0x09 <= code <= 0x0D
    || code in {0x20, 0xA0, 0x1680, 0x2028, 0x2029, 0x202F, 0x205F, 0x3000, 0xFEFF}
    || 0x2000 <= code <= 0x200A
  }
}
