/** Byte-level vocabulary shared by the interpreter and the NES memory glue. */
module Bytes {

  /** An unsigned 8-bit value: a RAM cell or one of the A, X, Y, SP registers. */
  type Byte = b: int | 0 <= b < 0x100

  /** A 16-bit CPU address (the program counter, a vector, a jump target). */
  type Word = w: int | 0 <= w < 0x10000

  datatype Option<T> = None | Some(value: T)

  /** The C operators `&`, `|` and `^` on two bytes. */
  function And(a: Byte, b: Byte): Byte { ((a as bv8) & (b as bv8)) as int }
  function Or(a: Byte, b: Byte): Byte { ((a as bv8) | (b as bv8)) as int }
  function Xor(a: Byte, b: Byte): Byte { ((a as bv8) ^ (b as bv8)) as int }

  /** Bit 7, the sign bit of a byte. */
  predicate Bit7(v: Byte) { v >= 0x80 }

  /** The value of a byte read through a signed `char`, as a relative branch does. */
  function Signed(v: Byte): (r: int)
    ensures -0x80 <= r < 0x80
    ensures r % 0x100 == v
    ensures r < 0 <==> Bit7(v)
  {
    if v < 0x80 then v else v - 0x100
  }

  /** `w & 0xFF` and `w >> 8`. */
  function Low(w: Word): Byte { w % 0x100 }
  function High(w: Word): Byte { w / 0x100 }

  /** `uint16_t` increment: the next address, wrapping at 0xFFFF. */
  function Successor(w: Word): Word
  {
    (w + 1) % 0x10000
  }

  /** Two and three increments step two and three addresses on. */
  lemma SuccessorTwice(w: Word)
    ensures Successor(Successor(w)) == (w + 2) % 0x10000
    ensures Successor(Successor(Successor(w))) == (w + 3) % 0x10000
  {
  }

  /** `lo | (hi << 8)`: a little-endian 16-bit value. */
  function WordOf(lo: Byte, hi: Byte): (w: Word)
    ensures Low(w) == lo && High(w) == hi
  {
    lo + hi * 0x100
  }

  /** A status byte stored in memory reads back as the same bits. */
  lemma BytesOfBits(x: bv8)
    ensures (x as int) as bv8 == x
  {
  }

  /** Splitting a word into its bytes and joining them again gives the word back. */
  lemma WordOfLowHigh(w: Word)
    ensures WordOf(Low(w), High(w)) == w
  {
  }
}
