/**
 * The packed opcode table and the two dispatch arrays of the instruction engine.
 *
 * Each of the 256 table entries packs three fields into 24 bits: bits 16..23 index the
 * instruction array, bits 8..15 index the addressing-mode array (0xFE: implied, no
 * operand; 0xFF: invalid opcode), bits 0..7 give the base cycle count. 0xFFFFFF marks an
 * opcode that is not implemented.
 */
module Opcodes {
  import opened Bytes

  /** The 65 instruction handlers, in the order of the handler array (legal, then illegal). */
  datatype Instr =
    | ADC | AND | ASL | BCC | BCS | BEQ | BIT | BMI | BNE | BPL
    | BRK | BVC | BVS | CLC | CLD | CLI | CLV | CMP | CPX | CPY
    | DEC | DEX | DEY | EOR | INC | INX | INY | JMP | JSR | LDA
    | LDX | LDY | LSR | NOP | ORA | PHA | PHP | PLA | PLP | ROL
    | ROR | RTI | RTS | SBC | SEC | SED | SEI | STA | STX | STY
    | TAX | TAY | TSX | TXA | TXS | TYA | DCP | ISB | LAX | RLA
    | RRA | SAX | SLO | SRE | USBC

  /** The 16 addressing-mode resolvers, in the order of the resolver array. */
  datatype Mode =
    | Accumulator | Absolute | AbsoluteX | AbsoluteY
    | Immediate | Indirect | XIndirect | IndirectY
    | Relative | ZeroPage | ZeroPageX | ZeroPageY
    | JmpIndirect | AbsoluteXStatic | AbsoluteYStatic | IndirectYStatic

  /** The handler array: instruction field value `k` runs `Instructions[k]`. */
  const Instructions: seq<Instr> := Handlers00 + Handlers10 + Handlers20 + Handlers30 + Handlers40 + Handlers50 + Handlers60

  // The handler array in groups of ten, so that each element is a short lookup.
  const Handlers00: seq<Instr> := [ADC, AND, ASL, BCC, BCS, BEQ, BIT, BMI, BNE, BPL]
  const Handlers10: seq<Instr> := [BRK, BVC, BVS, CLC, CLD, CLI, CLV, CMP, CPX, CPY]
  const Handlers20: seq<Instr> := [DEC, DEX, DEY, EOR, INC, INX, INY, JMP, JSR, LDA]
  const Handlers30: seq<Instr> := [LDX, LDY, LSR, NOP, ORA, PHA, PHP, PLA, PLP, ROL]
  const Handlers40: seq<Instr> := [ROR, RTI, RTS, SBC, SEC, SED, SEI, STA, STX, STY]
  const Handlers50: seq<Instr> := [TAX, TAY, TSX, TXA, TXS, TYA, DCP, ISB, LAX, RLA]
  const Handlers60: seq<Instr> := [RRA, SAX, SLO, SRE, USBC]

  /** The resolver array: mode field value `k` (below 16) runs `AddrModes[k]`. */
  const AddrModes: seq<Mode> := [
    Accumulator, Absolute, AbsoluteX, AbsoluteY,
    Immediate, Indirect, XIndirect, IndirectY,
    Relative, ZeroPage, ZeroPageX, ZeroPageY,
    JmpIndirect, AbsoluteXStatic, AbsoluteYStatic, IndirectYStatic]

  /** The entry of every unimplemented opcode. */
  const InvalidEntry: bv32 := 0xFFFFFF

  /** Mode field value of an implied instruction (no operand). */
  const ImpliedMode: Byte := 0xFE

  /** Mode field value of an invalid opcode. */
  const InvalidMode: Byte := 0xFF

  // The table, one constant per row; row `h` holds opcodes 0xh0..0xhF.
  const Row0: seq<bv32> := [0x0AFE07, 0x220606, 0xFFFFFF, 0x3E0608, 0x210903, 0x220903, 0x020905, 0x3E0905, 0x24FE03, 0x220402, 0x020002, 0xFFFFFF, 0x210104, 0x220104, 0x020106, 0x3E0106]
  const Row1: seq<bv32> := [0x090802, 0x220705, 0xFFFFFF, 0x3E0F08, 0x210A04, 0x220A04, 0x020A06, 0x3E0A06, 0x0DFE02, 0x220304, 0x21FE02, 0x3E0E07, 0x210204, 0x220204, 0x020D07, 0x3E0D07]
  const Row2: seq<bv32> := [0x1C0106, 0x010606, 0xFFFFFF, 0x3B0608, 0x060903, 0x010903, 0x270905, 0x3B0905, 0x26FE04, 0x010402, 0x270002, 0xFFFFFF, 0x060104, 0x010104, 0x270106, 0x3B0106]
  const Row3: seq<bv32> := [0x070802, 0x010705, 0xFFFFFF, 0x3B0F08, 0x210A04, 0x010A04, 0x270A06, 0x3B0A06, 0x2CFE02, 0x010304, 0x21FE02, 0x3B0E07, 0x210204, 0x010204, 0x270D07, 0x3B0D07]
  const Row4: seq<bv32> := [0x29FE06, 0x170606, 0xFFFFFF, 0x3F0608, 0x210903, 0x170903, 0x200905, 0x3F0905, 0x23FE03, 0x170402, 0x200002, 0xFFFFFF, 0x1B0103, 0x170104, 0x200106, 0x3F0106]
  const Row5: seq<bv32> := [0x0B0802, 0x170705, 0xFFFFFF, 0x3F0F08, 0x210A04, 0x170A04, 0x200A06, 0x3F0A06, 0x0FFE02, 0x170304, 0x21FE02, 0x3F0E07, 0x210204, 0x170204, 0x200D07, 0x3F0D07]
  const Row6: seq<bv32> := [0x2AFE06, 0x000606, 0xFFFFFF, 0x3C0608, 0x210903, 0x000903, 0x280905, 0x3C0905, 0x25FE04, 0x000402, 0x280002, 0xFFFFFF, 0x1B0C05, 0x000104, 0x280106, 0x3C0106]
  const Row7: seq<bv32> := [0x0C0802, 0x000705, 0xFFFFFF, 0x3C0F08, 0x210A04, 0x000A04, 0x280A06, 0x3C0A06, 0x2EFE02, 0x000304, 0x21FE02, 0x3C0E07, 0x210204, 0x000204, 0x280D07, 0x3C0D07]
  const Row8: seq<bv32> := [0x210402, 0x2F0606, 0x210402, 0x3D0606, 0x310903, 0x2F0903, 0x300903, 0x3D0903, 0x16FE02, 0x210402, 0x35FE02, 0xFFFFFF, 0x310104, 0x2F0104, 0x300104, 0x3D0104]
  const Row9: seq<bv32> := [0x030802, 0x2F0706, 0xFFFFFF, 0xFFFFFF, 0x310A04, 0x2F0A04, 0x300B04, 0x3D0B04, 0x37FE02, 0x2F0E05, 0x36FE02, 0xFFFFFF, 0xFFFFFF, 0x2F0D05, 0xFFFFFF, 0xFFFFFF]
  const RowA: seq<bv32> := [0x1F0402, 0x1D0606, 0x1E0402, 0x3A0606, 0x1F0903, 0x1D0903, 0x1E0903, 0x3A0903, 0x33FE02, 0x1D0402, 0x32FE02, 0xFFFFFF, 0x1F0104, 0x1D0104, 0x1E0104, 0x3A0104]
  const RowB: seq<bv32> := [0x040802, 0x1D0705, 0xFFFFFF, 0x3A0705, 0x1F0A04, 0x1D0A04, 0x1E0B04, 0x3A0B04, 0x10FE02, 0x1D0304, 0x34FE02, 0xFFFFFF, 0x1F0204, 0x1D0204, 0x1E0304, 0x3A0304]
  const RowC: seq<bv32> := [0x130402, 0x110606, 0x210402, 0x380608, 0x130903, 0x110903, 0x140905, 0x380905, 0x1AFE02, 0x110402, 0x15FE02, 0xFFFFFF, 0x130104, 0x110104, 0x140106, 0x380106]
  const RowD: seq<bv32> := [0x080802, 0x110705, 0xFFFFFF, 0x380F08, 0x210A04, 0x110A04, 0x140A06, 0x380A06, 0x0EFE02, 0x110304, 0x21FE02, 0x380E07, 0x210204, 0x110204, 0x140D07, 0x380D07]
  const RowE: seq<bv32> := [0x120402, 0x2B0606, 0x210402, 0x390608, 0x120903, 0x2B0903, 0x180905, 0x390905, 0x19FE02, 0x2B0402, 0x21FE02, 0x400402, 0x120104, 0x2B0104, 0x180106, 0x390106]
  const RowF: seq<bv32> := [0x050802, 0x2B0705, 0xFFFFFF, 0x390F08, 0x210A04, 0x2B0A04, 0x180A06, 0x390A06, 0x2DFE02, 0x2B0304, 0x21FE02, 0x390E07, 0x210204, 0x2B0204, 0x180D07, 0x390D07]

  const Rows: seq<seq<bv32>> := [Row0, Row1, Row2, Row3, Row4, Row5, Row6, Row7,
                                 Row8, Row9, RowA, RowB, RowC, RowD, RowE, RowF]

  /** `opcodeTable[opcode]`. */
  function Entry(op: Byte): bv32
  {
    Rows[(op >> 4) as int][(op & 0xF) as int]
  }

  /** `opcodeTable[opcode] & 0xFF`: the base cycle count. */
  function CycleField(raw: bv32): nat
  {
    (raw & 0xFF) as nat
  }

  /** `(byte)(opcodeTable[opcode] >> 8)`: the addressing-mode field. */
  function ModeField(raw: bv32): Byte
  {
    ((raw >> 8) & 0xFF) as Byte
  }

  /** `(byte)(opcodeTable[opcode] >> 16)`: the instruction field. */
  function InstrField(raw: bv32): Byte
  {
    ((raw >> 16) & 0xFF) as Byte
  }

  /**
   * What decoding relies on: only the sentinel has mode field 0xFF, and every other entry
   * indexes both arrays in bounds (mode below 16 or implied) and costs 2..8 cycles; a branch
   * handler always comes with the relative resolver.
   */
  predicate WellFormed(raw: bv32)
  {
    if ModeField(raw) == InvalidMode then raw == InvalidEntry
    else InstrField(raw) < 65 && (ModeField(raw) < 16 || ModeField(raw) == ImpliedMode)
         && 2 <= CycleField(raw) <= 8
         && (BranchIndex(InstrField(raw) as int) ==> ModeField(raw) == RelativeMode)
  }

  /** Mode field value of the `relative` resolver. */
  const RelativeMode: Byte := 0x08

  /** The eight conditional branches. */
  predicate IsBranch(i: Instr)
  {
    i == BCC || i == BCS || i == BEQ || i == BMI || i == BNE || i == BPL || i == BVC || i == BVS
  }

  /** The positions of the eight branch handlers in the handler array. */
  predicate BranchIndex(k: int)
  {
    k == 3 || k == 4 || k == 5 || k == 7 || k == 8 || k == 9 || k == 11 || k == 12
  }

  /** A branch handler sits at a branch position of the handler array, and nowhere else. */
  lemma BranchPositions(k: int)
    requires 0 <= k < 65
    ensures IsBranch(Instructions[k]) <==> BranchIndex(k)
  {
    if k < 10 { assert Instructions[k] == Handlers00[k]; }
    else if k < 20 { assert Instructions[k] == Handlers10[k - 10]; }
    else if k < 30 { assert Instructions[k] == Handlers20[k - 20]; NoBranchIn(Handlers20, k - 20); }
    else if k < 40 { assert Instructions[k] == Handlers30[k - 30]; NoBranchIn(Handlers30, k - 30); }
    else if k < 50 { assert Instructions[k] == Handlers40[k - 40]; NoBranchIn(Handlers40, k - 40); }
    else if k < 60 { assert Instructions[k] == Handlers50[k - 50]; NoBranchIn(Handlers50, k - 50); }
    else { assert Instructions[k] == Handlers60[k - 60]; NoBranchIn(Handlers60, k - 60); }
  }

  /** The handler groups from position 20 on hold no branch. */
  lemma NoBranchIn(group: seq<Instr>, j: int)
    requires group in [Handlers20, Handlers30, Handlers40, Handlers50, Handlers60]
    requires 0 <= j < |group|
    ensures !IsBranch(group[j])
  {
  }

  lemma Row0WellFormed(lo: int)
    requires 0 <= lo < 16
    ensures WellFormed(Row0[lo])
  {
  }

  lemma Row1WellFormed(lo: int)
    requires 0 <= lo < 16
    ensures WellFormed(Row1[lo])
  {
  }

  lemma Row2WellFormed(lo: int)
    requires 0 <= lo < 16
    ensures WellFormed(Row2[lo])
  {
  }

  lemma Row3WellFormed(lo: int)
    requires 0 <= lo < 16
    ensures WellFormed(Row3[lo])
  {
  }

  lemma Row4WellFormed(lo: int)
    requires 0 <= lo < 16
    ensures WellFormed(Row4[lo])
  {
  }

  lemma Row5WellFormed(lo: int)
    requires 0 <= lo < 16
    ensures WellFormed(Row5[lo])
  {
  }

  lemma Row6WellFormed(lo: int)
    requires 0 <= lo < 16
    ensures WellFormed(Row6[lo])
  {
  }

  lemma Row7WellFormed(lo: int)
    requires 0 <= lo < 16
    ensures WellFormed(Row7[lo])
  {
  }

  lemma Row8WellFormed(lo: int)
    requires 0 <= lo < 16
    ensures WellFormed(Row8[lo])
  {
  }

  lemma Row9WellFormed(lo: int)
    requires 0 <= lo < 16
    ensures WellFormed(Row9[lo])
  {
  }

  lemma RowAWellFormed(lo: int)
    requires 0 <= lo < 16
    ensures WellFormed(RowA[lo])
  {
  }

  lemma RowBWellFormed(lo: int)
    requires 0 <= lo < 16
    ensures WellFormed(RowB[lo])
  {
  }

  lemma RowCWellFormed(lo: int)
    requires 0 <= lo < 16
    ensures WellFormed(RowC[lo])
  {
  }

  lemma RowDWellFormed(lo: int)
    requires 0 <= lo < 16
    ensures WellFormed(RowD[lo])
  {
  }

  lemma RowEWellFormed(lo: int)
    requires 0 <= lo < 16
    ensures WellFormed(RowE[lo])
  {
  }

  lemma RowFWellFormed(lo: int)
    requires 0 <= lo < 16
    ensures WellFormed(RowF[lo])
  {
  }

  /** Every one of the 256 entries is well formed. */
  lemma TableWellFormed(op: Byte)
    ensures WellFormed(Entry(op))
  {
    var hi, lo := (op >> 4) as int, (op & 0xF) as int;
    if hi == 0 { Row0WellFormed(lo); }
    else if hi == 1 { Row1WellFormed(lo); }
    else if hi == 2 { Row2WellFormed(lo); }
    else if hi == 3 { Row3WellFormed(lo); }
    else if hi == 4 { Row4WellFormed(lo); }
    else if hi == 5 { Row5WellFormed(lo); }
    else if hi == 6 { Row6WellFormed(lo); }
    else if hi == 7 { Row7WellFormed(lo); }
    else if hi == 8 { Row8WellFormed(lo); }
    else if hi == 9 { Row9WellFormed(lo); }
    else if hi == 10 { RowAWellFormed(lo); }
    else if hi == 11 { RowBWellFormed(lo); }
    else if hi == 12 { RowCWellFormed(lo); }
    else if hi == 13 { RowDWellFormed(lo); }
    else if hi == 14 { RowEWellFormed(lo); }
    else { RowFWellFormed(lo); }
  }

  /** Where `step` takes the effective address from. */
  datatype Operand =
    | NoAddress      // implied (0xFE) and accumulator (0x00) modes: address 0
    | Resolved(mode: Mode)

  /** A decoded opcode: invalid, or the handler, the operand source and the base cycles. */
  datatype Decoded =
    | Invalid
    | Op(instr: Instr, operand: Operand, cycles: nat)

  /**
   * The decoding part of `step`: mode field 0xFF is invalid, 0xFE and 0x00 pass address 0,
   * any other mode field selects a resolver; the instruction field selects the handler.
   */
  function Decode(op: Byte): (d: Decoded)
    ensures d == Invalid <==> Entry(op) == InvalidEntry
    ensures d.Op? ==> 2 <= d.cycles <= 8
    ensures d.Op? ==> (d.operand == NoAddress <==> ModeField(Entry(op)) in {0x00, ImpliedMode})
    ensures d.Op? && IsBranch(d.instr) ==> d.operand == Resolved(Relative)
  {
    var raw := Entry(op);
    TableWellFormed(op);
    var mode := ModeField(raw);
    if mode == InvalidMode then Invalid
    else
      BranchPositions(InstrField(raw) as int);
      var operand := if mode == ImpliedMode || mode == 0x00 then NoAddress else Resolved(AddrModes[mode]);
      Op(Instructions[InstrField(raw)], operand, CycleField(raw))
  }

  /**
   * Both "no address" mode fields are caught before the resolver array: the accumulator
   * resolver at index 0 is never selected.
   */
  lemma NeverResolvesAccumulator(op: Byte)
    ensures Decode(op).Op? ==> Decode(op).operand != Resolved(Accumulator)
  {
    TableWellFormed(op);
    var mode := ModeField(Entry(op));
    if mode != InvalidMode && mode != ImpliedMode && mode != 0x00 {
      OnlyFirstResolverIsAccumulator(mode as int);
    }
  }

  /** The accumulator resolver sits at index 0 of the resolver array and nowhere else. */
  lemma OnlyFirstResolverIsAccumulator(k: int)
    requires 0 <= k < 16
    ensures AddrModes[k] == Accumulator <==> k == 0
  {
  }
}
