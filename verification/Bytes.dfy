/** Wire octets, and the big-endian pairing of two of them into a 16-bit word. */
module Bytes {

  type byte = bv8

  /** The upper octet of a word: `(w >> 8) & 0xFF`. */
  function Hi(w: bv16): byte {
    (w >> 8) as bv8
  }

  /** The lower octet of a word: `w & 0xFF`. */
  function Lo(w: bv16): byte {
    (w & 0xFF) as bv8
  }

  /** `(uint16_t)((hi << 8) | lo)` */
  function Word(hi: byte, lo: byte): bv16 {
    ((hi as bv16) << 8) | (lo as bv16)
  }

  /** Splitting a word and pairing two octets are mutually inverse. */
  lemma HiLoOfWord(hi: byte, lo: byte)
    ensures Hi(Word(hi, lo)) == hi && Lo(Word(hi, lo)) == lo
  {
  }

  lemma WordOfHiLo(w: bv16)
    ensures Word(Hi(w), Lo(w)) == w
  {
  }

  /** uint32_t, with its wrapping addition and subtraction. */
  type u32 = x: int | 0 <= x < 0x1_0000_0000

  function Add32(a: u32, b: int): u32 {
    (a + b) % 0x1_0000_0000
  }

  function Sub32(a: u32, b: u32): u32 {
    (a - b) % 0x1_0000_0000
  }
}
