/** Integer widths and bit operations shared by the CHIP-8 model.
    JavaScript numbers are modelled as unbounded `int`s; the places where the
    source stores into a `Uint8Array` (registers, memory) wrap explicitly. */
module Bits {

  datatype Option<T> = None | Some(value: T)

  /** The content of one `Uint8Array` cell. */
  type Byte = b: int | 0 <= b < 0x100

  /** A 4-bit field of an opcode (register index, sprite height). */
  type Nibble = n: int | 0 <= n < 0x10

  /** An opcode: two memory bytes combined big-endian. */
  type Word = w: int | 0 <= w < 0x1_0000

  /** What a `Uint8Array` keeps of an integer stored into it (ToUint8):
      the value modulo 256, also for negative values. */
  function ToUint8(x: int): (b: Byte)
    ensures (x - b) % 0x100 == 0
    ensures 0 <= x < 0x100 ==> b == x
  {
    x % 0x100
  }

  /** JavaScript `a & b` on two bytes. */
  function And(a: Byte, b: Byte): Byte
  {
    ((a as bv8) & (b as bv8)) as int
  }

  /** JavaScript `a | b` on two bytes. */
  function Or(a: Byte, b: Byte): Byte
  {
    ((a as bv8) | (b as bv8)) as int
  }

  /** JavaScript `a ^ b` on two bytes. */
  function Xor(a: Byte, b: Byte): Byte
  {
    ((a as bv8) ^ (b as bv8)) as int
  }

  /** 2 to the power `k`. */
  function Pow2(k: nat): (p: nat)
    ensures p >= 1
  {
    if k == 0 then 1 else 2 * Pow2(k - 1)
  }

  /** Shifting `b` left `k + 1` times is shifting it `k` times, then once more. */
  lemma ShiftOnceMore(b: nat, k: nat)
    ensures b * Pow2(k + 1) == b * Pow2(k) * 2
  {
  }

  /** JavaScript `(s & 0x80) > 0` for a non-negative integer `s`: bit 7 of `s`. */
  predicate Bit7(s: nat)
  {
    (s / 0x80) % 2 == 1
  }

  /** `b & 0x01` is the low bit of `b`, and `b & 0x80` is its high bit left in place. */
  lemma AndMasks(b: Byte)
    ensures And(b, 0x01) == b % 2
    ensures And(b, 0x80) == if b >= 0x80 then 0x80 else 0
  {
  }
}
