/** The processor status byte P and its seven flags. */
module Status {
  import opened Bytes

  /** The seven flags the CPU keeps as separate one-bit fields. */
  datatype Flags = Flags(c: bool, z: bool, i: bool, d: bool, b: bool, v: bool, n: bool)

  /** Bit numbers of the packed status byte, most significant first: N V 1 B D I Z C. */
  const CarryBit: Byte := 0x01
  const ZeroBit: Byte := 0x02
  const InterruptBit: Byte := 0x04
  const DecimalBit: Byte := 0x08
  const BreakBit: Byte := 0x10
  const UnusedBit: Byte := 0x20
  const OverflowBit: Byte := 0x40
  const NegativeBit: Byte := 0x80

  /** `getStatusReg`: the flags packed N,V,1,B,D,I,Z,C from bit 7 down to bit 0. */
  function Pack(f: Flags): (p: Byte)
    ensures p & UnusedBit != 0
    ensures (p & CarryBit != 0) == f.c && (p & ZeroBit != 0) == f.z
    ensures (p & InterruptBit != 0) == f.i && (p & DecimalBit != 0) == f.d
    ensures (p & BreakBit != 0) == f.b
    ensures (p & OverflowBit != 0) == f.v && (p & NegativeBit != 0) == f.n
  {
    (if f.n then NegativeBit else 0) | (if f.v then OverflowBit else 0) | UnusedBit
      | (if f.b then BreakBit else 0) | (if f.d then DecimalBit else 0)
      | (if f.i then InterruptBit else 0) | (if f.z then ZeroBit else 0) | (if f.c then CarryBit else 0)
  }

  /** `setStatusReg`: C, Z, I, D, V and N come from their bits; B keeps the value it had. */
  function Unpack(p: Byte, b: bool): (f: Flags)
    ensures f.b == b
    ensures f.c == (p & CarryBit != 0) && f.z == (p & ZeroBit != 0)
    ensures f.i == (p & InterruptBit != 0) && f.d == (p & DecimalBit != 0)
    ensures f.v == (p & OverflowBit != 0) && f.n == (p & NegativeBit != 0)
  {
    Flags(p & 0x01 > 0, p & 0x02 > 0, p & 0x04 > 0, p & 0x08 > 0, b, p & 0x40 > 0, p & 0x80 > 0)
  }

  /** Unpacking a packed status restores every flag; B is kept rather than restored. */
  lemma UnpackPack(f: Flags, b: bool)
    ensures Unpack(Pack(f), b) == f.(b := b)
  {
  }

  /** Packing what was unpacked gives the byte back, except bit 5 (always 1) and bit 4 (the kept B). */
  lemma PackUnpack(p: Byte, b: bool)
    ensures Pack(Unpack(p, b)) == (p & 0xCF) | UnusedBit | (if b then BreakBit else 0)
  {
  }
}
