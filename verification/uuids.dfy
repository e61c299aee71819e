/**
 * Universally unique identifiers as the service uses them: a 128-bit value
 * held as two unsigned 64-bit halves, its canonical textual form
 * (section 3 of RFC 4122: 8-4-4-4-12 lower-case hexadecimal digits), and the
 * outcome of parsing a string. The parser itself is a library routine the
 * model does not see; the service receives it as a function.
 */
module Uuids {

  type U64 = x: int | 0 <= x < 0x1_0000_0000_0000_0000

  datatype Uuid = Uuid(mostSigBits: U64, leastSigBits: U64)

  /** What parsing a textual identifier yields: a value, or the parser's error message. */
  datatype ParseResult = Parsed(uuid: Uuid) | Malformed(message: string)

  const HEX_DIGITS: string := "0123456789abcdef"

  /** The lowest `width` hexadecimal digits of `n`, most significant first. */
  function Hex(n: nat, width: nat): (s: string)
    ensures |s| == width
    ensures forall i :: 0 <= i < width ==> s[i] in HEX_DIGITS
  {
    if width == 0 then "" else Hex(n / 16, width - 1) + [HEX_DIGITS[n % 16]]
  }

  /**
   * The canonical text of a UUID, as `java.util.UUID.toString` writes it:
   * the 32 hexadecimal digits of the two halves in groups 8-4-4-4-12.
   */
  function Format(u: Uuid): (s: string)
    ensures |s| == 36
    ensures s[8] == '-' && s[13] == '-' && s[18] == '-' && s[23] == '-'
    ensures forall i :: 0 <= i < 36 && i != 8 && i != 13 && i != 18 && i != 23 ==> s[i] in HEX_DIGITS
  {
    var msb := u.mostSigBits;
    var lsb := u.leastSigBits;
    Hex(msb / 0x1_0000_0000, 8) + "-" + Hex(msb / 0x1_0000, 4) + "-" + Hex(msb, 4) + "-"
    + Hex(lsb / 0x1_0000_0000_0000, 4) + "-" + Hex(lsb, 12)
  }
}
