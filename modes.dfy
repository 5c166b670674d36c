/**
 * The sixteen addressing-mode resolvers.
 *
 * When a resolver runs, PC points at the first operand byte (the opcode has been fetched).
 * A resolver consumes its operand bytes, advancing PC, and yields the effective address
 * together with the number of cycles it adds to the instruction's base count. Only PC moves:
 * a resolver reads memory and registers but changes neither, so it yields the new PC alone.
 */
module Modes {
  import opened Bytes
  import opened Machine
  import Opcodes

  /** What a resolver yields: the effective address, the cycles it added, and the advanced PC. */
  datatype Resolution = Resolution(address: Word, extra: nat, pc: Word)

  /** One extra cycle exactly when indexing moved the address to another page. */
  function PagePenalty(base: Word, address: Word): nat
  {
    if SamePage(base, address) then 0 else 1
  }

  /** The C test `low > 0xFF - index`: one cycle when adding the index carries out of the low byte. */
  function Crossing(low: Byte, index: Byte): nat
  {
    if low as int > 0xFF - index as int then 1 else 0
  }

  /** How many operand bytes each mode consumes. */
  function OperandLength(mode: Opcodes.Mode): nat
  {
    match mode
    case Accumulator => 0
    case Immediate | XIndirect | IndirectY | Relative | ZeroPage | ZeroPageX | ZeroPageY | IndirectYStatic => 1
    case Absolute | AbsoluteX | AbsoluteY | Indirect | JmpIndirect | AbsoluteXStatic | AbsoluteYStatic => 2
  }

  /** PC after `n` operand bytes, wrapping at 0xFFFF. */
  function Advance(pc: Word, n: nat): Word
  {
    ToWord(pc + n)
  }

  /** `accumulator`: yields AC as the address and consumes nothing. */
  function Accumulator(s: State): (r: Resolution)
    ensures r.address == s.ac as int && r.extra == 0 && r.pc == s.pc
  {
    Resolution(s.ac as int, 0, s.pc)
  }

  /** `absolute`: the operand word is the address. */
  function Absolute(s: State): (r: Resolution)
    ensures r.address == ReadWord(s, s.pc) && r.extra == 0
    ensures r.pc == Advance(s.pc, 2)
  {
    var f := FetchWord(s);
    Resolution(f.value, 0, f.state.pc)
  }

  /** The C page-cross test `(base & 0xFF) > 0xFF - index` detects exactly a change of page. */
  lemma PageCross(base: Word, index: Byte)
    ensures base % 0x100 > 0xFF - index as int <==> !SamePage(base, ToWord(base + index as int))
  {
    var page, offset := base / 0x100, base % 0x100;
    assert base == 0x100 * page + offset;
    if offset + index as int < 0x100 {
      assert base + index as int == 0x100 * page + (offset + index as int);
    } else if page < 0xFF {
      assert base + index as int == 0x100 * (page + 1) + (offset + index as int - 0x100);
    } else {
      assert ToWord(base + index as int) == offset + index as int - 0x100;
    }
  }

  /**
   * `base + index` truncated to a word, charging one cycle when `low > 0xFF - index`, where
   * `low` is the byte the C code reads as the base's low byte.
   */
  function IndexedFrom(base: Word, low: Byte, index: Byte, after: Word): (r: Resolution)
    requires low == Lo(base)
    ensures r.address == ToWord(base + index as int) && r.extra == PagePenalty(base, r.address)
    ensures r.pc == after
  {
    var address := ToWord(base + index as int);
    var extra := Crossing(low, index);
    PageCross(base, index);
    Resolution(address, extra, after)
  }

  /** The word at PC plus an index register, with the page-cross cycle. */
  function Indexed(s: State, index: Byte): (r: Resolution)
    ensures var base := ReadWord(s, s.pc);
      r.address == ToWord(base + index as int) && r.extra == PagePenalty(base, r.address)
    ensures r.pc == Advance(s.pc, 2)
  {
    var f := FetchWord(s);
    IndexedFrom(f.value, Lo(f.value), index, f.state.pc)
  }

  /** `absoluteX`: the operand word plus X; one cycle more when that crosses a page. */
  function AbsoluteX(s: State): (r: Resolution)
    ensures var base := ReadWord(s, s.pc);
      r.address == ToWord(base + s.x as int) && r.extra == PagePenalty(base, r.address)
    ensures r.pc == Advance(s.pc, 2)
  {
    Indexed(s, s.x)
  }

  /** `absoluteY`: the operand word plus Y; one cycle more when that crosses a page. */
  function AbsoluteY(s: State): (r: Resolution)
    ensures var base := ReadWord(s, s.pc);
      r.address == ToWord(base + s.y as int) && r.extra == PagePenalty(base, r.address)
    ensures r.pc == Advance(s.pc, 2)
  {
    Indexed(s, s.y)
  }

  /** `immediate`: the operand byte itself, at the current PC. */
  function Immediate(s: State): (r: Resolution)
    ensures r.address == s.pc && r.extra == 0
    ensures r.pc == Advance(s.pc, 1)
  {
    Resolution(s.pc, 0, ToWord(s.pc + 1))
  }

  /** `indirect`: the word stored at the operand word, read without a page wrap. */
  function Indirect(s: State): (r: Resolution)
    ensures r.address == ReadWord(s, ReadWord(s, s.pc)) && r.extra == 0
    ensures r.pc == Advance(s.pc, 2)
  {
    var f := FetchWord(s);
    Resolution(ReadWord(f.state, f.value), 0, f.state.pc)
  }

  /** A zero-page slot: `(base + index) & 0xFF`, which never leaves page 0. */
  function ZeroPageSum(base: int, index: int): (p: Word)
    ensures p < 0x100
    ensures 0 <= base < 0x100 && 0 <= index < 0x100 ==> p == base + index || p == base + index - 0x100
  {
    (base + index) % 0x100
  }

  /** `(operand + index) & 0xFF` kept as the byte it is: a slot in page 0. */
  function ZeroPageSlot(operand: Byte, index: Byte): (p: Byte)
    ensures p as int == ZeroPageSum(operand as int, index as int)
  {
    ToByte(operand as int + index as int)
  }

  /** `Xindirect`: a zero-page pointer (operand plus X) whose two bytes both stay in page 0. */
  function XIndirect(s: State): (r: Resolution)
    ensures var pointer := ZeroPageSum(Read(s, s.pc) as int, s.x as int);
      r.address == MakeWord(Read(s, pointer), Read(s, ZeroPageSum(pointer, 1)))
    ensures r.extra == 0 && r.pc == Advance(s.pc, 1)
  {
    var f := FetchByte(s);
    Resolution(ZeroPagePointer(f.state, ZeroPageSlot(f.value, s.x)), 0, f.state.pc)
  }

  /** The zero-page pointer named by the operand, read with the high byte wrapping in page 0. */
  function ZeroPagePointer(s: State, slot: Byte): (w: Word)
    ensures Lo(w) == Read(s, slot as int) && Hi(w) == Read(s, ZeroPageSum(slot as int, 1))
  {
    MakeWord(Read(s, slot as int), Read(s, (slot as int + 1) % 0x100))
  }

  /**
   * `indirectY`: the zero-page pointer plus Y, with a page-cross cycle. The C test reads the
   * low byte through `readWord`, which is the same byte as the pointer's low byte, so the
   * differing wrap of the high byte does not change the cycle count.
   */
  function IndirectY(s: State): (r: Resolution)
    ensures var base := ZeroPagePointer(s, Read(s, s.pc));
      r.address == ToWord(base + s.y as int) && r.extra == PagePenalty(base, r.address)
    ensures r.pc == Advance(s.pc, 1)
  {
    var f := FetchByte(s);
    var base := ZeroPagePointer(f.state, f.value);
    assert Lo(ReadWord(f.state, f.value as int)) == Read(f.state, f.value as int) == Lo(base);
    IndexedFrom(base, Lo(ReadWord(f.state, f.value as int)), s.y, f.state.pc)
  }

  /** `relative`: the signed offset added to the address of the next instruction. */
  function Relative(s: State): (r: Resolution)
    ensures r.address == ToWord(s.pc + 1 + Signed(Read(s, s.pc))) && r.extra == 0
    ensures r.pc == Advance(s.pc, 1)
  {
    var f := FetchByte(s);
    ToWordShift(s.pc + 1, Signed(f.value));
    Resolution(ToWord(f.state.pc + Signed(f.value)), 0, f.state.pc)
  }

  /**
   * The addresses a branch can name from `next`, the address of the following instruction:
   * the 256 addresses from `next - 128` to `next + 127`, wrapping at the ends of memory.
   */
  predicate WithinBranchReach(next: Word, target: Word)
  {
    (target - next + 128) % 0x10000 < 0x100
  }

  /** Every address `relative` yields is within reach of the instruction after the offset. */
  lemma RelativeWithinReach(s: State)
    ensures WithinBranchReach(ToWord(s.pc + 1), Relative(s).address)
  {
    var d := Signed(Read(s, s.pc));
    ToWordShift(s.pc + 1, d);
    OffsetWithinReach(ToWord(s.pc + 1), d);
  }

  /** A signed offset moves at most 128 bytes back or 127 forward, modulo 65536. */
  lemma OffsetWithinReach(next: Word, d: int)
    requires -128 <= d < 128
    ensures WithinBranchReach(next, ToWord(next + d))
  {
    var t := ToWord(next + d);
    if next + d < 0 {
      assert t == next + d + 0x10000;
    } else if next + d >= 0x10000 {
      assert t == next + d - 0x10000;
    } else {
      assert t == next + d;
    }
  }

  /**
   * Every address within reach of the instruction after the offset byte is the target of
   * some offset, the one holding the distance as a two's-complement byte.
   */
  lemma RelativeReaches(s: State, target: Word)
    requires WithinBranchReach(ToWord(s.pc + 1), target)
    ensures exists o: Byte :: Relative(Write(s, s.pc, o)).address == target
  {
    var next := ToWord(s.pc + 1);
    var d := (target - next + 128) % 0x10000 - 128;
    var o := TwosComplement(d);
    PlacedOffset(s, o);
    ToWordShift(s.pc + 1, d);
    DistanceReaches(next, target, d);
  }

  /** `relative` run on the offset byte `o` placed at PC. */
  lemma PlacedOffset(s: State, o: Byte)
    ensures Relative(Write(s, s.pc, o)).address == ToWord(s.pc + 1 + Signed(o))
  {
    var placed := Write(s, s.pc, o);
    assert placed.pc == s.pc && Read(placed, placed.pc) == o;
  }

  /** The byte that reads back as `d` under the `(sbyte)` cast. */
  function TwosComplement(d: int): (o: Byte)
    requires -128 <= d < 128
    ensures Signed(o) == d
  {
    if d >= 0 then ByteOfInt(d); d as Byte else ByteOfInt(d + 0x100); (d + 0x100) as Byte
  }

  /** Moving by the wrapped distance from `next` lands on `target`. */
  lemma DistanceReaches(next: Word, target: Word, d: int)
    requires d == (target - next + 128) % 0x10000 - 128
    ensures ToWord(next + d) == target
  {
    var x := target - next + 128;
    if x < 0 {
      assert d == x + 0x10000 - 128;
    } else if x >= 0x10000 {
      assert d == x - 0x10000 - 128;
    } else {
      assert d == x - 128;
    }
  }

  /** `zeropage`: the operand byte is an address in page 0. */
  function ZeroPage(s: State): (r: Resolution)
    ensures r.address == Read(s, s.pc) as int && r.address < 0x100 && r.extra == 0
    ensures r.pc == Advance(s.pc, 1)
  {
    var f := FetchByte(s);
    Resolution(f.value as int, 0, f.state.pc)
  }

  /** `zeropageX`: operand plus X, wrapping within page 0. */
  function ZeroPageX(s: State): (r: Resolution)
    ensures r.address == ZeroPageSum(Read(s, s.pc) as int, s.x as int) && r.extra == 0
    ensures r.pc == Advance(s.pc, 1)
  {
    var f := FetchByte(s);
    Resolution((f.value as int + s.x as int) % 0x100, 0, f.state.pc)
  }

  /** `zeropageY`: operand plus Y, wrapping within page 0. */
  function ZeroPageY(s: State): (r: Resolution)
    ensures r.address == ZeroPageSum(Read(s, s.pc) as int, s.y as int) && r.extra == 0
    ensures r.pc == Advance(s.pc, 1)
  {
    var f := FetchByte(s);
    Resolution((f.value as int + s.y as int) % 0x100, 0, f.state.pc)
  }

  /** The address after `pointer` within its own page: only the low byte steps, wrapping. */
  function NextInPage(pointer: Word): (w: Word)
    ensures SamePage(w, pointer)
    ensures pointer % 0x100 != 0xFF ==> w == pointer + 1
    ensures pointer % 0x100 == 0xFF ==> w == pointer - 0xFF
  {
    pointer / 0x100 * 0x100 + (pointer % 0x100 + 1) % 0x100
  }

  /**
   * The high byte `jmpIndirect` reads: from `pointer + 1`, or from `pointer - 0xFF` when the
   * pointer's low byte is 0xFF.
   */
  function PointerHigh(s: State, pointer: Word): (b: Byte)
    ensures b == Read(s, NextInPage(pointer))
  {
    assert pointer % 0x100 != 0xFF ==> pointer < 0xFFFF;
    if pointer % 0x100 == 0xFF then Read(s, pointer - 0xFF) else Read(s, ToWord(pointer + 1))
  }

  /**
   * `jmpIndirect`: the word stored at the operand word, whose high byte comes from the same
   * page as its low byte (a pointer ending in 0xFF does not carry into the next page).
   */
  function JmpIndirect(s: State): (r: Resolution)
    ensures var pointer := ReadWord(s, s.pc);
      r.address == MakeWord(Read(s, pointer), Read(s, NextInPage(pointer)))
    ensures r.extra == 0 && r.pc == Advance(s.pc, 2)
  {
    var f := FetchWord(s);
    var pointer := f.value;
    Resolution(MakeWord(Read(f.state, pointer), PointerHigh(f.state, pointer)), 0, f.state.pc)
  }

  /** `absoluteXStaticCyc`: the address `absoluteX` yields, never an extra cycle. */
  function AbsoluteXStatic(s: State): (r: Resolution)
    ensures r == AbsoluteX(s).(extra := 0)
  {
    var f := FetchWord(s);
    Resolution(ToWord(f.value + s.x as int), 0, f.state.pc)
  }

  /** `absoluteYStaticCyc`: the address `absoluteY` yields, never an extra cycle. */
  function AbsoluteYStatic(s: State): (r: Resolution)
    ensures r == AbsoluteY(s).(extra := 0)
  {
    var f := FetchWord(s);
    Resolution(ToWord(f.value + s.y as int), 0, f.state.pc)
  }

  /** `indirectYStaticCyc`: the address `indirectY` yields, never an extra cycle. */
  function IndirectYStatic(s: State): (r: Resolution)
    ensures r == IndirectY(s).(extra := 0)
  {
    var f := FetchByte(s);
    var base := ZeroPagePointer(f.state, f.value);
    Resolution(ToWord(base + s.y as int), 0, f.state.pc)
  }

  /**
   * The resolver array. Only the three indexed modes with a page-cross check can add a cycle,
   * and at most one.
   */
  function Resolve(mode: Opcodes.Mode, s: State): (r: Resolution)
    ensures r.extra <= 1
    ensures r.extra == 1 ==> mode in {Opcodes.AbsoluteX, Opcodes.AbsoluteY, Opcodes.IndirectY}
  {
    match mode
    case Accumulator => Accumulator(s)
    case Absolute => Absolute(s)
    case AbsoluteX => AbsoluteX(s)
    case AbsoluteY => AbsoluteY(s)
    case Immediate => Immediate(s)
    case Indirect => Indirect(s)
    case XIndirect => XIndirect(s)
    case IndirectY => IndirectY(s)
    case Relative => Relative(s)
    case ZeroPage => ZeroPage(s)
    case ZeroPageX => ZeroPageX(s)
    case ZeroPageY => ZeroPageY(s)
    case JmpIndirect => JmpIndirect(s)
    case AbsoluteXStatic => AbsoluteXStatic(s)
    case AbsoluteYStatic => AbsoluteYStatic(s)
    case IndirectYStatic => IndirectYStatic(s)
  }

  // ---------------------------------------------------------------------------------
  // Consequences.

  /** The accumulator mode consumes no operand and leaves PC where it was. */
  lemma ResolveNoOperand(mode: Opcodes.Mode, s: State)
    requires OperandLength(mode) == 0
    ensures Resolve(mode, s).pc == s.pc
  {
  }

  /** The one-byte-operand modes leave PC just past their operand byte. */
  lemma ResolveOneByteOperand(mode: Opcodes.Mode, s: State)
    requires OperandLength(mode) == 1
    ensures Resolve(mode, s).pc == Advance(s.pc, 1)
  {
  }

  /** The two-byte-operand modes leave PC just past their operand word. */
  lemma ResolveTwoByteOperand(mode: Opcodes.Mode, s: State)
    requires OperandLength(mode) == 2
    ensures Resolve(mode, s).pc == Advance(s.pc, 2)
  {
  }

  /** Base 0x10FF indexed by 1 crosses into page 0x11: one extra cycle, none for the static form. */
  lemma AbsoluteXCrossesPage(s: State)
    requires s.pc == 0x0200 && s.mem[0x0200] == 0xFF && s.mem[0x0201] == 0x10 && s.x == 0x01
    ensures AbsoluteX(s).address == 0x1100 && AbsoluteX(s).extra == 1
    ensures AbsoluteXStatic(s).address == 0x1100 && AbsoluteXStatic(s).extra == 0
  {
  }

  /** A jump through a pointer ending in 0xFF reads its high byte from the start of that page. */
  lemma JmpIndirectPageWrap(s: State)
    requires s.pc == 0x0300 && s.mem[0x0300] == 0xFF && s.mem[0x0301] == 0x02
    ensures JmpIndirect(s).address == MakeWord(s.mem[0x02FF], s.mem[0x0200])
  {
  }

  /** An `(ind,X)` pointer at 0xFF takes its high byte from 0x00, not from 0x100. */
  lemma XIndirectPageWrap(s: State)
    requires s.mem[s.pc] == 0xFE && s.x == 0x01
    ensures XIndirect(s).address == MakeWord(s.mem[0xFF], s.mem[0x00])
  {
  }
}
