/**
 * Bytes and words of the 6502 bus: 8-bit data, 16-bit addresses, little-endian words.
 *
 * A byte is a bit-vector, as the source's bit operations on registers want. A word is kept
 * as an integer in 0..0xFFFF: the source computes addresses in C `int` arithmetic and stores
 * them into `uint16_t`, and `ToWord` makes that truncation explicit.
 */
module Bytes {

  type Byte = bv8
  type Word = w: int | 0 <= w < 0x10000

  /** The whole 16-bit address space: exactly one byte per address 0x0000..0xFFFF. */
  type Ram = m: seq<Byte> | |m| == 0x10000 witness seq(0x10000, _ => 0 as Byte)

  /** The address space with every byte 0. */
  function Cleared(): Ram { seq(0x10000, _ => 0 as Byte) }

  /** A one-bit flag as the 0/1 byte the C bit-fields hold. */
  function BitValue(b: bool): (r: Byte)
    ensures r <= 1
    ensures r == 1 <==> b
  {
    if b then 1 else 0
  }

  /** An `int` stored into a byte, as C converts it: the value mod 256. */
  function ToByte(t: int): (b: Byte)
    ensures b as int == t % 0x100
  {
    var low := t % 0x100;
    ByteOfInt(low);
    low as Byte
  }

  /** An integer in 0..255 stored into a byte and read back is unchanged. */
  lemma ByteOfInt(t: int)
    requires 0 <= t < 0x100
    ensures (t as Byte) as int == t
  {
    // Splitting the range into quarters keeps the solver's work on the conversion small.
    if t < 0x80 {
      if t < 0x40 { } else { }
    } else {
      if t < 0xC0 { } else { }
    }
  }

  /** An `int` stored into a `uint16_t`: the value mod 65536. */
  function ToWord(t: int): (w: Word)
    ensures w == t % 0x10000
    ensures 0 <= t < 0x10000 ==> w == t
  {
    t % 0x10000
  }

  /** Truncating twice is truncating once: `(word)((word)t + k) == (word)(t + k)`. */
  lemma ToWordShift(t: int, k: int)
    ensures ToWord(ToWord(t) + k) == ToWord(t + k)
  {
    var q := t / 0x10000;
    assert t == 0x10000 * q + ToWord(t);
    assert (0x10000 * q + ToWord(t) + k) % 0x10000 == (ToWord(t) + k) % 0x10000 by {
      MultipleMod(q, ToWord(t) + k);
    }
  }

  /** Adding a multiple of 65536 does not change the remainder. */
  lemma {:induction false} MultipleMod(q: int, t: int)
    ensures (0x10000 * q + t) % 0x10000 == t % 0x10000
    decreases if q < 0 then -q else q
  {
    if q > 0 {
      MultipleMod(q - 1, t);
      assert 0x10000 * q + t == 0x10000 * (q - 1) + t + 0x10000;
    } else if q < 0 {
      MultipleMod(q + 1, t);
      assert 0x10000 * q + t == 0x10000 * (q + 1) + t - 0x10000;
    }
  }

  /** `(a & 0xFF00) == (b & 0xFF00)`: both addresses lie in the same 256-byte page. */
  predicate SamePage(a: Word, b: Word)
  {
    a / 0x100 == b / 0x100
  }

  /** Low byte of a word (`value & 0xFF`). */
  function Lo(w: Word): (r: Byte)
    ensures r as int == w % 0x100
  {
    ToByte(w)
  }

  /** High byte of a word (`value >> 8`); also the page the address lies in. */
  function Hi(w: Word): (r: Byte)
    ensures r as int == w / 0x100
  {
    ByteOfInt(w / 0x100);
    (w / 0x100) as Byte
  }

  /** `low | (high << 8)`: the little-endian word made of two bytes. */
  function MakeWord(low: Byte, high: Byte): (w: Word)
    ensures w == low as int + 0x100 * high as int
    ensures Lo(w) == low && Hi(w) == high
  {
    var w := low as int + 0x100 * high as int;
    SameValue(Lo(w), low);
    SameValue(Hi(w), high);
    w
  }

  /** A word is rebuilt from its two bytes. */
  lemma WordFromParts(w: Word)
    ensures MakeWord(Lo(w), Hi(w)) == w
  {
  }

  /** A byte read as a two's-complement signed value (the `(sbyte)` cast). */
  function Signed(b: Byte): (r: int)
    ensures -128 <= r < 128
    ensures r == b as int || r == b as int - 256
    ensures r < 0 <==> b & 0x80 != 0
  {
    if b < 0x80 then b as int else b as int - 256
  }

  /** Bit 7 of a byte, which the 6502 reads as the sign. */
  predicate Negative(b: Byte)
  {
    (b & 0x80) > 0
  }

  /** Unsigned comparison of bytes is comparison of their integer values. */
  lemma LessEqValue(x: Byte, y: Byte)
    ensures x <= y <==> x as int <= y as int
  {
  }

  /** A byte's sign bit, as a comparison of its unsigned value. */
  lemma SignBit(b: Byte)
    ensures Negative(b) <==> b as int >= 128
  {
  }

  /** The complement of a byte, as an integer. */
  lemma ComplementValue(m: Byte)
    ensures (!m) as int == 255 - m as int
  {
  }

  /** Bytes with the same integer value are the same byte. */
  lemma SameValue(x: Byte, y: Byte)
    ensures x == y <==> x as int == y as int
  {
  }

  /** Storing into a byte forgets multiples of 256. */
  lemma ToBytePeriodic(t: int)
    ensures ToByte(t + 0x100) == ToByte(t)
  {
    ModPeriodic(t);
    SameValue(ToByte(t + 0x100), ToByte(t));
  }

  /** Adding 256 leaves the remainder mod 256 unchanged. */
  lemma ModPeriodic(t: int)
    ensures (t + 0x100) % 0x100 == t % 0x100
  {
  }
}
