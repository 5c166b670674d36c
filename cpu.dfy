/**
 * The processor as the source keeps it: a `Memory` object owning a 64 KiB byte array, and a
 * `CPU` object whose register and flag fields the instruction methods update in place.
 *
 * Every method is proved against the state-transformer functions of the other modules:
 * `Snapshot` reads the fields and the array as a `State`, and each method's new snapshot
 * is the function applied to the old one.
 */
module Cpu {
  import opened Bytes
  import opened Status
  import opened Alu
  import Machine
  import Opcodes
  import Modes
  import Handlers
  import HandlerFacts
  import Engine

  /** `Memory`: one byte per address, indexed by a 16-bit word. */
  class Memory {
    const data: array<Byte>

    predicate Valid()
      reads this
    {
      data.Length == 0x10000
    }

    /** A fresh memory, every byte 0. */
    constructor ()
      ensures Valid() && fresh(data)
      ensures Contents() == Cleared()
    {
      data := new Byte[0x10000](_ => 0);
    }

    /** The bytes, address by address. */
    function Contents(): Ram
      reads this, data
      requires Valid()
    {
      data[..]
    }

    /** `operator[]` as a read. */
    function Get(address: Word): Byte
      reads this, data
      requires Valid()
    {
      data[address]
    }

    /** `operator[]` as a write: only the byte at `address` changes. */
    method Set(address: Word, value: Byte)
      requires Valid()
      modifies data
      ensures Contents() == old(Contents())[address := value]
    {
      data[address] := value;
    }

    /** `init`: clears every byte. */
    method Init()
      requires Valid()
      modifies data
      ensures Contents() == Cleared()
    {
      var k := 0;
      while k < 0x10000
        invariant 0 <= k <= 0x10000
        invariant forall j :: 0 <= j < k ==> data[j] == 0
      {
        data[k] := 0;
        k := k + 1;
      }
      assert data[..] == Cleared();
    }
  }

  /**
   * `CPU`: the registers, and the seven one-bit flag fields of the status register, which
   * the source packs into one byte of the struct and which are kept here as one `Flags` value.
   */
  class CPU {
    var pc: Word
    var sp: Byte
    var ac: Byte
    var x: Byte
    var y: Byte
    var flags: Flags

    /** All registers 0 and all flags clear (the source leaves them unset until `reset`). */
    constructor ()
      ensures pc == 0 && sp == 0 && ac == 0 && x == 0 && y == 0
      ensures flags == Flags(false, false, false, false, false, false, false)
    {
      pc, sp, ac, x, y := 0, 0, 0, 0, 0;
      flags := Flags(false, false, false, false, false, false, false);
    }

    /** The registers, the flags and the memory, as the instruction engine's state. */
    function Snapshot(mem: Memory): Machine.State
      reads this, mem, mem.data
      requires mem.Valid()
    {
      Machine.State(pc, sp, ac, x, y, flags, mem.Contents())
    }

    // -------------------------------------------------------------------------------
    // Reads and writes.

    /** `fetchByte`: the byte at PC, and PC advances by one. */
    method FetchByte(mem: Memory) returns (value: Byte)
      requires mem.Valid()
      modifies this
      ensures Machine.FetchByte(old(Snapshot(mem))) == Machine.Outcome(value, Snapshot(mem))
    {
      value := mem.Get(pc);
      pc := ToWord(pc + 1);
    }

    /** `fetchWord`: the little-endian word at PC, and PC advances by two. */
    method FetchWord(mem: Memory) returns (value: Word)
      requires mem.Valid()
      modifies this
      ensures Machine.FetchWord(old(Snapshot(mem))) == Machine.Outcome(value, Snapshot(mem))
    {
      var low := mem.Get(pc);
      var high := mem.Get(ToWord(pc + 1));
      pc := ToWord(pc + 2);
      value := MakeWord(low, high);
    }

    /** `readByte`: the byte at the address. */
    method ReadByte(mem: Memory, address: Word) returns (value: Byte)
      requires mem.Valid()
      ensures value == Machine.Read(Snapshot(mem), address)
    {
      value := mem.Get(address);
    }

    /** `writeByte`: only the byte at the address changes. */
    method WriteByte(mem: Memory, address: Word, value: Byte)
      requires mem.Valid()
      modifies mem.data
      ensures Snapshot(mem) == Machine.Write(old(Snapshot(mem)), address, value)
    {
      mem.Set(address, value);
    }

    /** `readWord`: the low byte at the address, the high byte after it (wrapping). */
    method ReadWord(mem: Memory, address: Word) returns (value: Word)
      requires mem.Valid()
      ensures value == Machine.ReadWord(Snapshot(mem), address)
    {
      var low := mem.Get(address);
      var high := mem.Get(ToWord(address + 1));
      value := MakeWord(low, high);
    }

    /** `writeWord`: the low byte at the address, the high byte after it (wrapping). */
    method WriteWord(mem: Memory, address: Word, value: Word)
      requires mem.Valid()
      modifies mem.data
      ensures Snapshot(mem) == Machine.WriteWord(old(Snapshot(mem)), address, value)
    {
      mem.Set(address, Lo(value));
      mem.Set(ToWord(address + 1), Hi(value));
    }

    // -------------------------------------------------------------------------------
    // The stack in page 0x01.

    /** `pushByte`: store at `0x0100 | SP`, then SP decrements. */
    method PushByte(mem: Memory, value: Byte)
      requires mem.Valid()
      modifies this, mem.data
      ensures Snapshot(mem) == Machine.PushByte(old(Snapshot(mem)), value)
    {
      WriteByte(mem, Machine.StackAddress(sp), value);
      sp := sp - 1;
    }

    /** `pushWord`: the high byte first, then the low byte. */
    method PushWord(mem: Memory, value: Word)
      requires mem.Valid()
      modifies this, mem.data
      ensures Snapshot(mem) == Machine.PushWord(old(Snapshot(mem)), value)
    {
      PushByte(mem, Hi(value));
      PushByte(mem, Lo(value));
    }

    /** `pullByte`: SP increments, then the byte at `0x0100 | SP`. */
    method PullByte(mem: Memory) returns (value: Byte)
      requires mem.Valid()
      modifies this
      ensures Machine.PullByte(old(Snapshot(mem))) == Machine.Outcome(value, Snapshot(mem))
    {
      sp := sp + 1;
      value := ReadByte(mem, Machine.StackAddress(sp));
    }

    /** `pullWord`: the low byte first, then the high byte. */
    method PullWord(mem: Memory) returns (value: Word)
      requires mem.Valid()
      modifies this
      ensures Machine.PullWord(old(Snapshot(mem))) == Machine.Outcome(value, Snapshot(mem))
    {
      var low := PullByte(mem);
      var high := PullByte(mem);
      value := MakeWord(low, high);
    }

    // -------------------------------------------------------------------------------
    // Flags.

    /** `updateZNFlags`: Z when the byte is 0, N from its bit 7; nothing else changes. */
    method UpdateZNFlags(mem: Memory, value: Byte)
      requires mem.Valid()
      modifies this
      ensures Snapshot(mem) == Machine.WithZN(old(Snapshot(mem)), value)
    {
      flags := flags.(z := value == 0, n := value & 0x80 > 0);
    }

    /** `getStatusReg`: N, V, 1, B, D, I, Z, C shifted in from bit 7 down to bit 0. */
    method GetStatusReg() returns (sr: Byte)
      ensures sr == Pack(flags)
    {
      sr := 0;
      sr := sr + BitValue(flags.n);
      sr := sr << 1;
      sr := sr + BitValue(flags.v);
      sr := sr << 1;
      sr := sr + 1;
      sr := sr << 1;
      sr := sr + BitValue(flags.b);
      sr := sr << 1;
      sr := sr + BitValue(flags.d);
      sr := sr << 1;
      sr := sr + BitValue(flags.i);
      sr := sr << 1;
      sr := sr + BitValue(flags.z);
      sr := sr << 1;
      sr := sr + BitValue(flags.c);
    }

    /** `setStatusReg`: C, Z, I, D, V and N from their bits; B is not touched. */
    method SetStatusReg(mem: Memory, p: Byte)
      requires mem.Valid()
      modifies this
      ensures Snapshot(mem) == Machine.SetStatus(old(Snapshot(mem)), p)
    {
      flags := flags.(c := p & 0x01 > 0, z := p & 0x02 > 0, i := p & 0x04 > 0, d := p & 0x08 > 0);
      flags := flags.(v := p & 0x40 > 0, n := p & 0x80 > 0);
    }

    /** `reset`: the vector at 0xFFFC/0xFFFD is read first, then the registers set and memory cleared. */
    method Reset(mem: Memory)
      requires mem.Valid()
      modifies this, mem.data
      ensures Snapshot(mem) == Engine.Reset(old(Snapshot(mem)))
    {
      var low := ReadByte(mem, 0xFFFC);
      var high := ReadByte(mem, 0xFFFD);
      pc := MakeWord(low, high);
      sp := 0xFD;
      flags := flags.(c := false, z := false, d := false, b := false, v := false, n := false);
      flags := flags.(i := true);
      ac, x, y := 0, 0, 0;
      mem.Init();
    }

    // -------------------------------------------------------------------------------
    // Addressing modes. Each consumes its operand bytes through PC and yields the effective
    // address; the three page-crossing modes also add to the cycle count they are handed.

    /** `accumulator`: AC as the address, nothing consumed. */
    method Accumulator(mem: Memory) returns (address: Word)
      requires mem.Valid()
      ensures Modes.Accumulator(Snapshot(mem)) == Modes.Resolution(address, 0, pc)
    {
      address := ac as int;
    }

    /** `absolute`: the operand word. */
    method Absolute(mem: Memory) returns (address: Word)
      requires mem.Valid()
      modifies this
      ensures var r := Modes.Absolute(old(Snapshot(mem)));
        address == r.address && Snapshot(mem) == old(Snapshot(mem)).(pc := r.pc)
    {
      address := FetchWord(mem);
    }

    /** `absoluteX`: the operand word plus X, one cycle more when the low byte overflows. */
    method AbsoluteX(mem: Memory, cycles: nat) returns (address: Word, total: nat)
      requires mem.Valid()
      modifies this
      ensures var r := Modes.AbsoluteX(old(Snapshot(mem)));
        address == r.address && total == cycles + r.extra && Snapshot(mem) == old(Snapshot(mem)).(pc := r.pc)
    {
      var base := FetchWord(mem);
      total := cycles + Modes.Crossing(Lo(base), x);
      address := ToWord(base + x as int);
    }

    /** `absoluteY`: the operand word plus Y, one cycle more when the low byte overflows. */
    method AbsoluteY(mem: Memory, cycles: nat) returns (address: Word, total: nat)
      requires mem.Valid()
      modifies this
      ensures var r := Modes.AbsoluteY(old(Snapshot(mem)));
        address == r.address && total == cycles + r.extra && Snapshot(mem) == old(Snapshot(mem)).(pc := r.pc)
    {
      var base := FetchWord(mem);
      total := cycles + Modes.Crossing(Lo(base), y);
      address := ToWord(base + y as int);
    }

    /** `immediate`: `PC++`, the address of the operand byte itself. */
    method Immediate(mem: Memory) returns (address: Word)
      requires mem.Valid()
      modifies this
      ensures var r := Modes.Immediate(old(Snapshot(mem)));
        address == r.address && Snapshot(mem) == old(Snapshot(mem)).(pc := r.pc)
    {
      address := pc;
      pc := ToWord(pc + 1);
    }

    /** `indirect`: the word stored at the operand word. */
    method Indirect(mem: Memory) returns (address: Word)
      requires mem.Valid()
      modifies this
      ensures var r := Modes.Indirect(old(Snapshot(mem)));
        address == r.address && Snapshot(mem) == old(Snapshot(mem)).(pc := r.pc)
    {
      var pointer := FetchWord(mem);
      address := ReadWord(mem, pointer);
    }

    /** `Xindirect`: the word at the zero-page pointer operand + X, both bytes in page 0. */
    method XIndirect(mem: Memory) returns (address: Word)
      requires mem.Valid()
      modifies this
      ensures var r := Modes.XIndirect(old(Snapshot(mem)));
        address == r.address && Snapshot(mem) == old(Snapshot(mem)).(pc := r.pc)
    {
      var operand := FetchByte(mem);
      address := ZeroPageWord(mem, Modes.ZeroPageSlot(operand, x));
    }

    /**
     * `indirectY`: the word at the zero-page pointer operand, plus Y. The page-cross test
     * takes the low byte through `readWord`; the address wraps the high byte within page 0.
     */
    method IndirectY(mem: Memory, cycles: nat) returns (address: Word, total: nat)
      requires mem.Valid()
      modifies this
      ensures var r := Modes.IndirectY(old(Snapshot(mem)));
        address == r.address && total == cycles + r.extra && Snapshot(mem) == old(Snapshot(mem)).(pc := r.pc)
    {
      ghost var s := Snapshot(mem);
      var pointer := FetchByte(mem);
      var extra := PointerCrossing(mem, pointer);
      total := cycles + extra;
      var base := ZeroPageWord(mem, pointer);
      address := ToWord(base + y as int);
      assert Modes.IndirectY(s) == Modes.IndexedFrom(base, Lo(Machine.ReadWord(Snapshot(mem), pointer as int)), y, pc);
    }

    /**
     * The page test of `indirectY`: one when the low byte of the word read at `pointer` plus
     * Y carries out of the byte. Only the low byte is looked at, so the zero-page wrap of the
     * word's high byte does not matter.
     */
    method PointerCrossing(mem: Memory, pointer: Byte) returns (extra: nat)
      requires mem.Valid()
      ensures extra == Modes.Crossing(Lo(Machine.ReadWord(Snapshot(mem), pointer as int)), y)
    {
      var probe := ReadWord(mem, pointer as int);
      extra := Modes.Crossing(Lo(probe), y);
    }

    /** `relative`: PC (past the offset byte) plus the signed offset. */
    method Relative(mem: Memory) returns (address: Word)
      requires mem.Valid()
      modifies this
      ensures var r := Modes.Relative(old(Snapshot(mem)));
        address == r.address && Snapshot(mem) == old(Snapshot(mem)).(pc := r.pc)
    {
      var offset := FetchByte(mem);
      address := ToWord(pc + Signed(offset));
    }

    /** `zeropage`: the operand byte as an address in page 0. */
    method ZeroPage(mem: Memory) returns (address: Word)
      requires mem.Valid()
      modifies this
      ensures var r := Modes.ZeroPage(old(Snapshot(mem)));
        address == r.address && Snapshot(mem) == old(Snapshot(mem)).(pc := r.pc)
    {
      var operand := FetchByte(mem);
      address := operand as int;
    }

    /** `zeropageX`: operand plus X, within page 0. */
    method ZeroPageX(mem: Memory) returns (address: Word)
      requires mem.Valid()
      modifies this
      ensures var r := Modes.ZeroPageX(old(Snapshot(mem)));
        address == r.address && Snapshot(mem) == old(Snapshot(mem)).(pc := r.pc)
    {
      var operand := FetchByte(mem);
      address := (operand as int + x as int) % 0x100;
    }

    /** `zeropageY`: operand plus Y, within page 0. */
    method ZeroPageY(mem: Memory) returns (address: Word)
      requires mem.Valid()
      modifies this
      ensures var r := Modes.ZeroPageY(old(Snapshot(mem)));
        address == r.address && Snapshot(mem) == old(Snapshot(mem)).(pc := r.pc)
    {
      var operand := FetchByte(mem);
      address := (operand as int + y as int) % 0x100;
    }

    /** `jmpIndirect`: the word at the operand word, its high byte read from `pointer - 0xFF` at a page end. */
    method JmpIndirect(mem: Memory) returns (address: Word)
      requires mem.Valid()
      modifies this
      ensures var r := Modes.JmpIndirect(old(Snapshot(mem)));
        address == r.address && Snapshot(mem) == old(Snapshot(mem)).(pc := r.pc)
    {
      ghost var s := Snapshot(mem);
      var pointer := FetchWord(mem);
      assert Modes.JmpIndirect(s) == Modes.Resolution(MakeWord(Machine.Read(s, pointer), Modes.PointerHigh(s, pointer)), 0, pc);
      var low := ReadByte(mem, pointer);
      var high := ReadByte(mem, ToWord(pointer as int + 1));
      if pointer % 0x100 == 0xFF {
        high := ReadByte(mem, pointer - 0xFF);
      }
      assert high == Modes.PointerHigh(s, pointer);
      address := MakeWord(low, high);
    }

    /** `absoluteXStaticCyc`: the operand word plus X, no extra cycle. */
    method AbsoluteXStatic(mem: Memory) returns (address: Word)
      requires mem.Valid()
      modifies this
      ensures var r := Modes.AbsoluteXStatic(old(Snapshot(mem)));
        address == r.address && Snapshot(mem) == old(Snapshot(mem)).(pc := r.pc)
    {
      var base := FetchWord(mem);
      address := ToWord(base + x as int);
    }

    /** `absoluteYStaticCyc`: the operand word plus Y, no extra cycle. */
    method AbsoluteYStatic(mem: Memory) returns (address: Word)
      requires mem.Valid()
      modifies this
      ensures var r := Modes.AbsoluteYStatic(old(Snapshot(mem)));
        address == r.address && Snapshot(mem) == old(Snapshot(mem)).(pc := r.pc)
    {
      var base := FetchWord(mem);
      address := ToWord(base + y as int);
    }

    /** `indirectYStaticCyc`: the zero-page pointer plus Y, no extra cycle. */
    method IndirectYStatic(mem: Memory) returns (address: Word)
      requires mem.Valid()
      modifies this
      ensures var r := Modes.IndirectYStatic(old(Snapshot(mem)));
        address == r.address && Snapshot(mem) == old(Snapshot(mem)).(pc := r.pc)
    {
      var pointer := FetchByte(mem);
      var base := ZeroPageWord(mem, pointer);
      address := ToWord(base + y as int);
    }

    /** `low | (high << 8)` read from `pointer` and `(pointer + 1) & 0xFF`: the zero-page word the indirect-Y modes take. */
    method ZeroPageWord(mem: Memory, pointer: Byte) returns (base: Word)
      requires mem.Valid()
      ensures base == Modes.ZeroPagePointer(Snapshot(mem), pointer)
    {
      var low := ReadByte(mem, pointer as int);
      var high := ReadByte(mem, (pointer as int + 1) % 0x100);
      base := MakeWord(low, high);
    }

    /** `addrPointers[mode]`: runs the mode's resolver, adding its page-cross cycle to `cycles`. */
    method Resolve(mode: Opcodes.Mode, mem: Memory, cycles: nat) returns (address: Word, total: nat)
      requires mem.Valid()
      modifies this
      ensures var r := Modes.Resolve(mode, old(Snapshot(mem)));
        address == r.address && total == cycles + r.extra && Snapshot(mem) == old(Snapshot(mem)).(pc := r.pc)
    {
      total := cycles;
      match mode
      case Accumulator => address := Accumulator(mem);
      case Absolute => address := Absolute(mem);
      case AbsoluteX => address, total := AbsoluteX(mem, cycles);
      case AbsoluteY => address, total := AbsoluteY(mem, cycles);
      case Immediate => address := Immediate(mem);
      case Indirect => address := Indirect(mem);
      case XIndirect => address := XIndirect(mem);
      case IndirectY => address, total := IndirectY(mem, cycles);
      case Relative => address := Relative(mem);
      case ZeroPage => address := ZeroPage(mem);
      case ZeroPageX => address := ZeroPageX(mem);
      case ZeroPageY => address := ZeroPageY(mem);
      case JmpIndirect => address := JmpIndirect(mem);
      case AbsoluteXStatic => address := AbsoluteXStatic(mem);
      case AbsoluteYStatic => address := AbsoluteYStatic(mem);
      case IndirectYStatic => address := IndirectYStatic(mem);
    }

    // -------------------------------------------------------------------------------
    // Loads, stores, transfers, increments and decrements.

    /** `LDA`: AC from memory, Z and N from it. */
    method Lda(mem: Memory, address: Word)
      requires mem.Valid()
      modifies this
      ensures Snapshot(mem) == Handlers.Lda(old(Snapshot(mem)), address)
    {
      ac := ReadByte(mem, address);
      UpdateZNFlags(mem, ac);
    }

    /** `LDX`: X from memory, Z and N from it. */
    method Ldx(mem: Memory, address: Word)
      requires mem.Valid()
      modifies this
      ensures Snapshot(mem) == Handlers.Ldx(old(Snapshot(mem)), address)
    {
      x := ReadByte(mem, address);
      UpdateZNFlags(mem, x);
    }

    /** `LDY`: Y from memory, Z and N from it. */
    method Ldy(mem: Memory, address: Word)
      requires mem.Valid()
      modifies this
      ensures Snapshot(mem) == Handlers.Ldy(old(Snapshot(mem)), address)
    {
      y := ReadByte(mem, address);
      UpdateZNFlags(mem, y);
    }

    /** `STA`: AC to memory. */
    method Sta(mem: Memory, address: Word)
      requires mem.Valid()
      modifies mem.data
      ensures Snapshot(mem) == Handlers.Sta(old(Snapshot(mem)), address)
    {
      WriteByte(mem, address, ac);
    }

    /** `STX`: X to memory. */
    method Stx(mem: Memory, address: Word)
      requires mem.Valid()
      modifies mem.data
      ensures Snapshot(mem) == Handlers.Stx(old(Snapshot(mem)), address)
    {
      WriteByte(mem, address, x);
    }

    /** `STY`: Y to memory. */
    method Sty(mem: Memory, address: Word)
      requires mem.Valid()
      modifies mem.data
      ensures Snapshot(mem) == Handlers.Sty(old(Snapshot(mem)), address)
    {
      WriteByte(mem, address, y);
    }

    /** `TAX`. */
    method Tax(mem: Memory)
      requires mem.Valid()
      modifies this
      ensures Snapshot(mem) == Handlers.Tax(old(Snapshot(mem)))
    {
      x := ac;
      UpdateZNFlags(mem, x);
    }

    /** `TAY`. */
    method Tay(mem: Memory)
      requires mem.Valid()
      modifies this
      ensures Snapshot(mem) == Handlers.Tay(old(Snapshot(mem)))
    {
      y := ac;
      UpdateZNFlags(mem, y);
    }

    /** `TSX`. */
    method Tsx(mem: Memory)
      requires mem.Valid()
      modifies this
      ensures Snapshot(mem) == Handlers.Tsx(old(Snapshot(mem)))
    {
      x := sp;
      UpdateZNFlags(mem, x);
    }

    /** `TXA`. */
    method Txa(mem: Memory)
      requires mem.Valid()
      modifies this
      ensures Snapshot(mem) == Handlers.Txa(old(Snapshot(mem)))
    {
      ac := x;
      UpdateZNFlags(mem, ac);
    }

    /** `TXS`: the only transfer that leaves the flags alone. */
    method Txs(mem: Memory)
      requires mem.Valid()
      modifies this
      ensures Snapshot(mem) == Handlers.Txs(old(Snapshot(mem)))
    {
      sp := x;
    }

    /** `TYA`. */
    method Tya(mem: Memory)
      requires mem.Valid()
      modifies this
      ensures Snapshot(mem) == Handlers.Tya(old(Snapshot(mem)))
    {
      ac := y;
      UpdateZNFlags(mem, ac);
    }

    /** `INX`: X plus one, wrapping. */
    method Inx(mem: Memory)
      requires mem.Valid()
      modifies this
      ensures Snapshot(mem) == Handlers.Inx(old(Snapshot(mem)))
    {
      x := x + 1;
      UpdateZNFlags(mem, x);
    }

    /** `INY`: Y plus one, wrapping. */
    method Iny(mem: Memory)
      requires mem.Valid()
      modifies this
      ensures Snapshot(mem) == Handlers.Iny(old(Snapshot(mem)))
    {
      y := y + 1;
      UpdateZNFlags(mem, y);
    }

    /** `DEX`: X minus one, wrapping. */
    method Dex(mem: Memory)
      requires mem.Valid()
      modifies this
      ensures Snapshot(mem) == Handlers.Dex(old(Snapshot(mem)))
    {
      x := x - 1;
      UpdateZNFlags(mem, x);
    }

    /** `DEY`: Y minus one, wrapping. */
    method Dey(mem: Memory)
      requires mem.Valid()
      modifies this
      ensures Snapshot(mem) == Handlers.Dey(old(Snapshot(mem)))
    {
      y := y - 1;
      UpdateZNFlags(mem, y);
    }

    /** `INC`: the byte at the address plus one, written back, Z and N from it. */
    method Inc(mem: Memory, address: Word)
      requires mem.Valid()
      modifies this, mem.data
      ensures Snapshot(mem) == Handlers.Inc(old(Snapshot(mem)), address)
    {
      var value := ReadByte(mem, address);
      value := value + 1;
      WriteByte(mem, address, value);
      UpdateZNFlags(mem, value);
    }

    /** `DEC`: the byte at the address minus one, written back, Z and N from it. */
    method Dec(mem: Memory, address: Word)
      requires mem.Valid()
      modifies this, mem.data
      ensures Snapshot(mem) == Handlers.Dec(old(Snapshot(mem)), address)
    {
      var value := ReadByte(mem, address);
      value := value - 1;
      WriteByte(mem, address, value);
      UpdateZNFlags(mem, value);
    }

    // -------------------------------------------------------------------------------
    // Logic and arithmetic.

    /** `AND`. */
    method And(mem: Memory, address: Word)
      requires mem.Valid()
      modifies this
      ensures Snapshot(mem) == Handlers.And(old(Snapshot(mem)), address)
    {
      var value := ReadByte(mem, address);
      ac := BitAnd(ac, value);
      UpdateZNFlags(mem, ac);
    }

    /** `ORA`. */
    method Ora(mem: Memory, address: Word)
      requires mem.Valid()
      modifies this
      ensures Snapshot(mem) == Handlers.Ora(old(Snapshot(mem)), address)
    {
      var value := ReadByte(mem, address);
      ac := BitOr(value, ac);
      UpdateZNFlags(mem, ac);
    }

    /** `EOR`. */
    method Eor(mem: Memory, address: Word)
      requires mem.Valid()
      modifies this
      ensures Snapshot(mem) == Handlers.Eor(old(Snapshot(mem)), address)
    {
      var value := ReadByte(mem, address);
      ac := BitXor(value, ac);
      UpdateZNFlags(mem, ac);
    }

    /** `ADC`: C and V from the sum, AC the sum's low byte, then Z and N. */
    method Adc(mem: Memory, address: Word)
      requires mem.Valid()
      modifies this
      ensures Snapshot(mem) == Handlers.Adc(old(Snapshot(mem)), address)
    {
      var value := ReadByte(mem, address);
      var sum := AddWithCarry(ac, value, flags.c);
      flags := flags.(c := sum.carry, v := sum.overflow);
      ac := sum.result;
      UpdateZNFlags(mem, ac);
    }

    /** `SBC`: C and V from the difference, AC its low byte, then Z and N. */
    method Sbc(mem: Memory, address: Word)
      requires mem.Valid()
      modifies this
      ensures Snapshot(mem) == Handlers.Sbc(old(Snapshot(mem)), address)
    {
      var value := ReadByte(mem, address);
      var diff := SubtractWithBorrow(ac, value, flags.c);
      flags := flags.(c := diff.carry, v := diff.overflow);
      ac := diff.result;
      UpdateZNFlags(mem, ac);
    }

    /** Z and N from `register - m` stored into a byte, then C from `value <= register`. */
    method CompareWith(mem: Memory, register: Byte, address: Word)
      requires mem.Valid()
      modifies this
      ensures Snapshot(mem) == Handlers.WithCompare(old(Snapshot(mem)), register, Machine.Read(old(Snapshot(mem)), address))
    {
      var m := ReadByte(mem, address);
      var f := Compare(register, m);
      flags := flags.(z := f.zero, n := f.negative);
      flags := flags.(c := f.carry);
    }

    /** `CMP`. */
    method Cmp(mem: Memory, address: Word)
      requires mem.Valid()
      modifies this
      ensures Snapshot(mem) == Handlers.Cmp(old(Snapshot(mem)), address)
    {
      CompareWith(mem, ac, address);
    }

    /** `CPX`. */
    method Cpx(mem: Memory, address: Word)
      requires mem.Valid()
      modifies this
      ensures Snapshot(mem) == Handlers.Cpx(old(Snapshot(mem)), address)
    {
      CompareWith(mem, x, address);
    }

    /** `CPY`. */
    method Cpy(mem: Memory, address: Word)
      requires mem.Valid()
      modifies this
      ensures Snapshot(mem) == Handlers.Cpy(old(Snapshot(mem)), address)
    {
      CompareWith(mem, y, address);
    }

    /** `BIT`: Z from AC & m, N and V from bits 7 and 6 of m. */
    method Bit(mem: Memory, address: Word)
      requires mem.Valid()
      modifies this
      ensures Snapshot(mem) == Handlers.Bit(old(Snapshot(mem)), address)
    {
      var value := ReadByte(mem, address);
      var f := BitTest(ac, value);
      flags := flags.(z := f.zero, n := f.negative, v := f.overflow);
    }

    // -------------------------------------------------------------------------------
    // Shifts and rotates: AC when the address is 0, memory otherwise.

    /** `ASL`. */
    method Asl(mem: Memory, address: Word)
      requires mem.Valid()
      modifies this, mem.data
      ensures Snapshot(mem) == Handlers.Asl(old(Snapshot(mem)), address)
    {
      if address == 0 {
        var r := ShiftLeft(ac);
        flags := flags.(c := r.carry);
        ac := r.result;
        UpdateZNFlags(mem, ac);
      } else {
        var value := ReadByte(mem, address);
        var r := ShiftLeft(value);
        flags := flags.(c := r.carry);
        WriteByte(mem, address, r.result);
        UpdateZNFlags(mem, r.result);
      }
    }

    /** `LSR`. */
    method Lsr(mem: Memory, address: Word)
      requires mem.Valid()
      modifies this, mem.data
      ensures Snapshot(mem) == Handlers.Lsr(old(Snapshot(mem)), address)
    {
      if address == 0 {
        var r := ShiftRight(ac);
        flags := flags.(c := r.carry);
        ac := r.result;
        UpdateZNFlags(mem, ac);
      } else {
        var value := ReadByte(mem, address);
        var r := ShiftRight(value);
        flags := flags.(c := r.carry);
        WriteByte(mem, address, r.result);
        UpdateZNFlags(mem, r.result);
      }
    }

    /** `ROL`: the old carry goes into bit 0; in memory mode Z and N are set before the write. */
    method Rol(mem: Memory, address: Word)
      requires mem.Valid()
      modifies this, mem.data
      ensures Snapshot(mem) == Handlers.Rol(old(Snapshot(mem)), address)
    {
      var carry := flags.c;
      if address == 0 {
        var r := RotateLeft(ac, carry);
        flags := flags.(c := r.carry);
        ac := r.result;
        UpdateZNFlags(mem, ac);
      } else {
        var value := ReadByte(mem, address);
        var r := RotateLeft(value, carry);
        flags := flags.(c := r.carry);
        UpdateZNFlags(mem, r.result);
        WriteByte(mem, address, r.result);
      }
    }

    /** `ROR`: the old carry goes into bit 7; in memory mode Z and N are set before the write. */
    method Ror(mem: Memory, address: Word)
      requires mem.Valid()
      modifies this, mem.data
      ensures Snapshot(mem) == Handlers.Ror(old(Snapshot(mem)), address)
    {
      var carry := flags.c;
      if address == 0 {
        var r := RotateRight(ac, carry);
        flags := flags.(c := r.carry);
        ac := r.result;
        UpdateZNFlags(mem, ac);
      } else {
        var value := ReadByte(mem, address);
        var r := RotateRight(value, carry);
        flags := flags.(c := r.carry);
        UpdateZNFlags(mem, r.result);
        WriteByte(mem, address, r.result);
      }
    }

    // -------------------------------------------------------------------------------
    // Branches.

    /**
     * The body shared by the eight branches: when taken, one cycle, one more when the target
     * lies in another page than PC (`(PC & 0xFF00) != (address & 0xFF00)`), and PC jumps.
     */
    method Branch(mem: Memory, taken: bool, address: Word, cycles: nat) returns (total: nat)
      requires mem.Valid()
      modifies this
      ensures var e := Handlers.Branch(old(Snapshot(mem)), taken, address);
        Snapshot(mem) == e.state && total == cycles + e.extra
    {
      total := cycles;
      if taken {
        total := total + 1;
        if pc - pc % 0x100 != address - address % 0x100 {
          total := total + 1;
        }
        pc := address;
      }
    }

    /** `BCC`: taken when C is clear. */
    method Bcc(mem: Memory, address: Word, cycles: nat) returns (total: nat)
      requires mem.Valid()
      modifies this
      ensures var e := Handlers.Bcc(old(Snapshot(mem)), address);
        Snapshot(mem) == e.state && total == cycles + e.extra
    {
      total := Branch(mem, !flags.c, address, cycles);
    }

    /** `BCS`: taken when C is set. */
    method Bcs(mem: Memory, address: Word, cycles: nat) returns (total: nat)
      requires mem.Valid()
      modifies this
      ensures var e := Handlers.Bcs(old(Snapshot(mem)), address);
        Snapshot(mem) == e.state && total == cycles + e.extra
    {
      total := Branch(mem, flags.c, address, cycles);
    }

    /** `BEQ`: taken when Z is set. */
    method Beq(mem: Memory, address: Word, cycles: nat) returns (total: nat)
      requires mem.Valid()
      modifies this
      ensures var e := Handlers.Beq(old(Snapshot(mem)), address);
        Snapshot(mem) == e.state && total == cycles + e.extra
    {
      total := Branch(mem, flags.z, address, cycles);
    }

    /** `BMI`: taken when N is set. */
    method Bmi(mem: Memory, address: Word, cycles: nat) returns (total: nat)
      requires mem.Valid()
      modifies this
      ensures var e := Handlers.Bmi(old(Snapshot(mem)), address);
        Snapshot(mem) == e.state && total == cycles + e.extra
    {
      total := Branch(mem, flags.n, address, cycles);
    }

    /** `BNE`: taken when Z is clear. */
    method Bne(mem: Memory, address: Word, cycles: nat) returns (total: nat)
      requires mem.Valid()
      modifies this
      ensures var e := Handlers.Bne(old(Snapshot(mem)), address);
        Snapshot(mem) == e.state && total == cycles + e.extra
    {
      total := Branch(mem, !flags.z, address, cycles);
    }

    /** `BPL`: taken when N is clear. */
    method Bpl(mem: Memory, address: Word, cycles: nat) returns (total: nat)
      requires mem.Valid()
      modifies this
      ensures var e := Handlers.Bpl(old(Snapshot(mem)), address);
        Snapshot(mem) == e.state && total == cycles + e.extra
    {
      total := Branch(mem, !flags.n, address, cycles);
    }

    /** `BVC`: taken when V is clear. */
    method Bvc(mem: Memory, address: Word, cycles: nat) returns (total: nat)
      requires mem.Valid()
      modifies this
      ensures var e := Handlers.Bvc(old(Snapshot(mem)), address);
        Snapshot(mem) == e.state && total == cycles + e.extra
    {
      total := Branch(mem, !flags.v, address, cycles);
    }

    /** `BVS`: taken when V is set. */
    method Bvs(mem: Memory, address: Word, cycles: nat) returns (total: nat)
      requires mem.Valid()
      modifies this
      ensures var e := Handlers.Bvs(old(Snapshot(mem)), address);
        Snapshot(mem) == e.state && total == cycles + e.extra
    {
      total := Branch(mem, flags.v, address, cycles);
    }

    // -------------------------------------------------------------------------------
    // Flag instructions.

    method Clc(mem: Memory)
      requires mem.Valid()
      modifies this
      ensures Snapshot(mem) == Handlers.Clc(old(Snapshot(mem)))
    {
      flags := flags.(c := false);
    }

    method Cld(mem: Memory)
      requires mem.Valid()
      modifies this
      ensures Snapshot(mem) == Handlers.Cld(old(Snapshot(mem)))
    {
      flags := flags.(d := false);
    }

    method Cli(mem: Memory)
      requires mem.Valid()
      modifies this
      ensures Snapshot(mem) == Handlers.Cli(old(Snapshot(mem)))
    {
      flags := flags.(i := false);
    }

    method Clv(mem: Memory)
      requires mem.Valid()
      modifies this
      ensures Snapshot(mem) == Handlers.Clv(old(Snapshot(mem)))
    {
      flags := flags.(v := false);
    }

    method Sec(mem: Memory)
      requires mem.Valid()
      modifies this
      ensures Snapshot(mem) == Handlers.Sec(old(Snapshot(mem)))
    {
      flags := flags.(c := true);
    }

    method Sed(mem: Memory)
      requires mem.Valid()
      modifies this
      ensures Snapshot(mem) == Handlers.Sed(old(Snapshot(mem)))
    {
      flags := flags.(d := true);
    }

    method Sei(mem: Memory)
      requires mem.Valid()
      modifies this
      ensures Snapshot(mem) == Handlers.Sei(old(Snapshot(mem)))
    {
      flags := flags.(i := true);
    }

    // -------------------------------------------------------------------------------
    // Stack and control flow.

    /** `PHA`. */
    method Pha(mem: Memory)
      requires mem.Valid()
      modifies this, mem.data
      ensures Snapshot(mem) == Handlers.Pha(old(Snapshot(mem)))
    {
      PushByte(mem, ac);
    }

    /** `PHP`: B is set while the status byte is built and pushed, then put back. */
    method Php(mem: Memory)
      requires mem.Valid()
      modifies this, mem.data
      ensures Snapshot(mem) == Handlers.Php(old(Snapshot(mem)))
    {
      var temp := flags.b;
      flags := flags.(b := true);
      var p := GetStatusReg();
      PushByte(mem, p);
      flags := flags.(b := temp);
    }

    /** `PLA`. */
    method Pla(mem: Memory)
      requires mem.Valid()
      modifies this
      ensures Snapshot(mem) == Handlers.Pla(old(Snapshot(mem)))
    {
      ac := PullByte(mem);
      UpdateZNFlags(mem, ac);
    }

    /** `PLP`. */
    method Plp(mem: Memory)
      requires mem.Valid()
      modifies this
      ensures Snapshot(mem) == Handlers.Plp(old(Snapshot(mem)))
    {
      var p := PullByte(mem);
      SetStatusReg(mem, p);
    }

    /** `JMP`. */
    method Jmp(mem: Memory, address: Word)
      requires mem.Valid()
      modifies this
      ensures Snapshot(mem) == Handlers.Jmp(old(Snapshot(mem)), address)
    {
      pc := address;
    }

    /** `JSR`: pushes PC - 1, then jumps. */
    method Jsr(mem: Memory, address: Word)
      requires mem.Valid()
      modifies this, mem.data
      ensures Snapshot(mem) == Handlers.Jsr(old(Snapshot(mem)), address)
    {
      ghost var s := Snapshot(mem);
      PushWord(mem, ToWord(pc - 1));
      ghost var pushed := Snapshot(mem);
      pc := address;
      assert Snapshot(mem) == pushed.(pc := address);
      JsrFrame(s, pushed, address);
    }

    /** `RTS`: one past the pulled word. */
    method Rts(mem: Memory)
      requires mem.Valid()
      modifies this
      ensures Snapshot(mem) == Handlers.Rts(old(Snapshot(mem)))
    {
      var w := PullWord(mem);
      pc := ToWord(w as int + 1);
    }

    /** `RTI`: the status, then PC. */
    method Rti(mem: Memory)
      requires mem.Valid()
      modifies this
      ensures Snapshot(mem) == Handlers.Rti(old(Snapshot(mem)))
    {
      var p := PullByte(mem);
      SetStatusReg(mem, p);
      pc := PullWord(mem);
    }

    /** `BRK`: I set, PC + 2 and the status pushed, then PC from 0xFFFE/0xFFFF. */
    method Brk(mem: Memory)
      requires mem.Valid()
      modifies this, mem.data
      ensures Snapshot(mem) == Handlers.Brk(old(Snapshot(mem)))
    {
      flags := flags.(i := true);
      ghost var masked := Snapshot(mem);
      PushWord(mem, ToWord(pc + 2));
      ghost var framed := Snapshot(mem);
      var p := GetStatusReg();
      PushByte(mem, p);
      ghost var pushed := Snapshot(mem);
      var low := ReadByte(mem, 0xFFFE);
      var high := ReadByte(mem, 0xFFFF);
      pc := MakeWord(low, high);
      assert Snapshot(mem) == pushed.(pc := MakeWord(low, high));
      BrkFrame(old(Snapshot(mem)), masked, framed, pushed);
    }

    /** `NOP`. */
    method Nop(mem: Memory)
      requires mem.Valid()
      ensures Snapshot(mem) == Handlers.Nop(old(Snapshot(mem)))
    {
    }

    // -------------------------------------------------------------------------------
    // Illegal opcodes: the two legal handlers in turn, on the same address.

    /** `DCP`: DEC, then CMP. */
    method Dcp(mem: Memory, address: Word)
      requires mem.Valid()
      modifies this, mem.data
      ensures Snapshot(mem) == Handlers.Dcp(old(Snapshot(mem)), address)
    {
      Dec(mem, address);
      Cmp(mem, address);
      HandlerFacts.DcpIsDecThenCmp(old(Snapshot(mem)), address);
    }

    /** `ISB`: INC, then SBC. */
    method Isb(mem: Memory, address: Word)
      requires mem.Valid()
      modifies this, mem.data
      ensures Snapshot(mem) == Handlers.Isb(old(Snapshot(mem)), address)
    {
      Inc(mem, address);
      Sbc(mem, address);
      HandlerFacts.IsbIsIncThenSbc(old(Snapshot(mem)), address);
    }

    /** `LAX`: LDA, then LDX. */
    method Lax(mem: Memory, address: Word)
      requires mem.Valid()
      modifies this
      ensures Snapshot(mem) == Handlers.Lax(old(Snapshot(mem)), address)
    {
      Lda(mem, address);
      Ldx(mem, address);
      HandlerFacts.LaxIsLdaThenLdx(old(Snapshot(mem)), address);
    }

    /** `RLA`: ROL, then AND. */
    method Rla(mem: Memory, address: Word)
      requires mem.Valid()
      modifies this, mem.data
      ensures Snapshot(mem) == Handlers.Rla(old(Snapshot(mem)), address)
    {
      Rol(mem, address);
      And(mem, address);
      HandlerFacts.RlaIsRolThenAnd(old(Snapshot(mem)), address);
    }

    /** `RRA`: ROR, then ADC. */
    method Rra(mem: Memory, address: Word)
      requires mem.Valid()
      modifies this, mem.data
      ensures Snapshot(mem) == Handlers.Rra(old(Snapshot(mem)), address)
    {
      Ror(mem, address);
      Adc(mem, address);
      HandlerFacts.RraIsRorThenAdc(old(Snapshot(mem)), address);
    }

    /** `SAX`: AC & X to memory. */
    method Sax(mem: Memory, address: Word)
      requires mem.Valid()
      modifies mem.data
      ensures Snapshot(mem) == Handlers.Sax(old(Snapshot(mem)), address)
    {
      WriteByte(mem, address, BitAnd(ac, x));
    }

    /** `SLO`: ASL, then ORA. */
    method Slo(mem: Memory, address: Word)
      requires mem.Valid()
      modifies this, mem.data
      ensures Snapshot(mem) == Handlers.Slo(old(Snapshot(mem)), address)
    {
      Asl(mem, address);
      Ora(mem, address);
      HandlerFacts.SloIsAslThenOra(old(Snapshot(mem)), address);
    }

    /** `SRE`: LSR, then EOR. */
    method Sre(mem: Memory, address: Word)
      requires mem.Valid()
      modifies this, mem.data
      ensures Snapshot(mem) == Handlers.Sre(old(Snapshot(mem)), address)
    {
      Lsr(mem, address);
      Eor(mem, address);
      HandlerFacts.SreIsLsrThenEor(old(Snapshot(mem)), address);
    }

    /** `USBC`: SBC. */
    method Usbc(mem: Memory, address: Word)
      requires mem.Valid()
      modifies this
      ensures Snapshot(mem) == Handlers.Usbc(old(Snapshot(mem)), address)
    {
      Sbc(mem, address);
    }

    // -------------------------------------------------------------------------------
    // Dispatch.

    /**
     * `insPointers[instruction]`: runs the handler on the effective address; `cycles` is the
     * count so far, and only a taken branch adds to it. The handlers are dispatched group by
     * group, as the instruction engine's specification groups them.
     */
    method Execute(instr: Opcodes.Instr, mem: Memory, address: Word, cycles: nat) returns (total: nat)
      requires mem.Valid()
      modifies this, mem.data
      ensures var e := Handlers.Exec(instr, old(Snapshot(mem)), address);
        Snapshot(mem) == e.state && total == cycles + e.extra
    {
      total := cycles;
      ghost var s := Snapshot(mem);
      match Handlers.GroupOf(instr)
      case Branches => total := ExecuteBranch(instr, mem, address, cycles);
      case LoadsStores => ExecuteLoadStore(instr, mem, address);
        assert Handlers.Exec(instr, s, address) == Handlers.Plain(Handlers.ExecLoadStore(instr, s, address));
      case Registers => ExecuteRegister(instr, mem, address);
        assert Handlers.Exec(instr, s, address) == Handlers.Plain(Handlers.ExecRegister(instr, s, address));
      case Arithmetic => ExecuteArithmetic(instr, mem, address);
        assert Handlers.Exec(instr, s, address) == Handlers.Plain(Handlers.ExecArithmetic(instr, s, address));
      case Shifts => ExecuteShift(instr, mem, address);
        assert Handlers.Exec(instr, s, address) == Handlers.Plain(Handlers.ExecShift(instr, s, address));
      case FlagOps => ExecuteFlag(instr, mem, address);
        assert Handlers.Exec(instr, s, address) == Handlers.Plain(Handlers.ExecFlag(instr, s, address));
      case Control => ExecuteControl(instr, mem, address);
        assert Handlers.Exec(instr, s, address) == Handlers.Plain(Handlers.ExecControl(instr, s, address));
      case Illegal => ExecuteIllegal(instr, mem, address);
        assert Handlers.Exec(instr, s, address) == Handlers.Plain(Handlers.ExecIllegal(instr, s, address));
    }

    /** The eight conditional branches. */
    method ExecuteBranch(instr: Opcodes.Instr, mem: Memory, address: Word, cycles: nat) returns (total: nat)
      requires mem.Valid()
      requires Handlers.GroupOf(instr) == Handlers.Branches
      modifies this
      ensures var e := Handlers.ExecBranch(instr, old(Snapshot(mem)), address);
        Snapshot(mem) == e.state && total == cycles + e.extra
    {
      match instr
      case BCC => total := Bcc(mem, address, cycles);
      case BCS => total := Bcs(mem, address, cycles);
      case BEQ => total := Beq(mem, address, cycles);
      case BMI => total := Bmi(mem, address, cycles);
      case BNE => total := Bne(mem, address, cycles);
      case BPL => total := Bpl(mem, address, cycles);
      case BVC => total := Bvc(mem, address, cycles);
      case BVS => total := Bvs(mem, address, cycles);
    }

    /** Loads, stores, INC and DEC. */
    method ExecuteLoadStore(instr: Opcodes.Instr, mem: Memory, address: Word)
      requires mem.Valid()
      requires Handlers.GroupOf(instr) == Handlers.LoadsStores
      modifies this, mem.data
      ensures Snapshot(mem) == Handlers.ExecLoadStore(instr, old(Snapshot(mem)), address)
    {
      match instr
      case LDA => Lda(mem, address);
      case LDX => Ldx(mem, address);
      case LDY => Ldy(mem, address);
      case STA => Sta(mem, address);
      case STX => Stx(mem, address);
      case STY => Sty(mem, address);
      case INC => Inc(mem, address);
      case DEC => Dec(mem, address);
    }

    /** Transfers and register increments and decrements. */
    method ExecuteRegister(instr: Opcodes.Instr, mem: Memory, address: Word)
      requires mem.Valid()
      requires Handlers.GroupOf(instr) == Handlers.Registers
      modifies this
      ensures Snapshot(mem) == Handlers.ExecRegister(instr, old(Snapshot(mem)), address)
    {
      match instr
      case TAX => Tax(mem);
      case TAY => Tay(mem);
      case TSX => Tsx(mem);
      case TXA => Txa(mem);
      case TXS => Txs(mem);
      case TYA => Tya(mem);
      case INX => Inx(mem);
      case INY => Iny(mem);
      case DEX => Dex(mem);
      case DEY => Dey(mem);
    }

    /** Logic, arithmetic, comparisons and BIT. */
    method ExecuteArithmetic(instr: Opcodes.Instr, mem: Memory, address: Word)
      requires mem.Valid()
      requires Handlers.GroupOf(instr) == Handlers.Arithmetic
      modifies this
      ensures Snapshot(mem) == Handlers.ExecArithmetic(instr, old(Snapshot(mem)), address)
    {
      match instr
      case ADC => Adc(mem, address);
      case AND => And(mem, address);
      case BIT => Bit(mem, address);
      case CMP => Cmp(mem, address);
      case CPX => Cpx(mem, address);
      case CPY => Cpy(mem, address);
      case EOR => Eor(mem, address);
      case ORA => Ora(mem, address);
      case SBC => Sbc(mem, address);
    }

    /** Shifts and rotates. */
    method ExecuteShift(instr: Opcodes.Instr, mem: Memory, address: Word)
      requires mem.Valid()
      requires Handlers.GroupOf(instr) == Handlers.Shifts
      modifies this, mem.data
      ensures Snapshot(mem) == Handlers.ExecShift(instr, old(Snapshot(mem)), address)
    {
      match instr
      case ASL => Asl(mem, address);
      case LSR => Lsr(mem, address);
      case ROL => Rol(mem, address);
      case ROR => Ror(mem, address);
    }

    /** The flag instructions. */
    method ExecuteFlag(instr: Opcodes.Instr, mem: Memory, address: Word)
      requires mem.Valid()
      requires Handlers.GroupOf(instr) == Handlers.FlagOps
      modifies this
      ensures Snapshot(mem) == Handlers.ExecFlag(instr, old(Snapshot(mem)), address)
    {
      match instr
      case CLC => Clc(mem);
      case CLD => Cld(mem);
      case CLI => Cli(mem);
      case CLV => Clv(mem);
      case SEC => Sec(mem);
      case SED => Sed(mem);
      case SEI => Sei(mem);
    }

    /** Stack, jumps, returns, BRK and NOP. */
    method ExecuteControl(instr: Opcodes.Instr, mem: Memory, address: Word)
      requires mem.Valid()
      requires Handlers.GroupOf(instr) == Handlers.Control
      modifies this, mem.data
      ensures Snapshot(mem) == Handlers.ExecControl(instr, old(Snapshot(mem)), address)
    {
      match instr
      case BRK => Brk(mem);
      case JMP => Jmp(mem, address);
      case JSR => Jsr(mem, address);
      case NOP => Nop(mem);
      case PHA => Pha(mem);
      case PHP => Php(mem);
      case PLA => Pla(mem);
      case PLP => Plp(mem);
      case RTI => Rti(mem);
      case RTS => Rts(mem);
    }

    /** The illegal opcodes. */
    method ExecuteIllegal(instr: Opcodes.Instr, mem: Memory, address: Word)
      requires mem.Valid()
      requires Handlers.GroupOf(instr) == Handlers.Illegal
      modifies this, mem.data
      ensures Snapshot(mem) == Handlers.ExecIllegal(instr, old(Snapshot(mem)), address)
    {
      match instr
      case DCP => Dcp(mem, address);
      case ISB => Isb(mem, address);
      case LAX => Lax(mem, address);
      case RLA => Rla(mem, address);
      case RRA => Rra(mem, address);
      case SAX => Sax(mem, address);
      case SLO => Slo(mem, address);
      case SRE => Sre(mem, address);
      case USBC => Usbc(mem, address);
    }

    /**
     * `step`: fetch the opcode, split its table entry into base cycles, mode and handler,
     * take the address from the resolver (implied and accumulator modes pass 0), run the
     * handler and return the cycles. An invalid opcode returns 0 right after the fetch.
     */
    method Step(mem: Memory) returns (cycles: nat)
      requires mem.Valid()
      modifies this, mem.data
      ensures Engine.Step(old(Snapshot(mem))) == Engine.Stepped(Snapshot(mem), cycles)
    {
      var opcode := FetchByte(mem);
      var raw := Opcodes.Entry(opcode);
      Opcodes.TableWellFormed(opcode);
      cycles := Opcodes.CycleField(raw);
      var addressMode := Opcodes.ModeField(raw);
      var instruction := Opcodes.InstrField(raw);
      var address: Word;
      if addressMode == Opcodes.ImpliedMode {
        address := 0;
      } else if addressMode == 0x00 {
        address := 0;
      } else if addressMode == Opcodes.InvalidMode {
        return 0;
      } else {
        address, cycles := Resolve(Opcodes.AddrModes[addressMode], mem, cycles);
      }
      cycles := Execute(Opcodes.Instructions[instruction], mem, address, cycles);
    }
  }

  /** JSR's state: the return word PC - 1 pushed, then the jump. */
  lemma JsrFrame(s: Machine.State, pushed: Machine.State, address: Word)
    requires pushed == Machine.PushWord(s, ToWord(s.pc - 1))
    ensures Handlers.Jsr(s, address) == pushed.(pc := address)
  {
  }

  /** BRK's frame: PC + 2 and the status byte (with I already set) pushed from the masked state. */
  lemma BrkFrame(s: Machine.State, masked: Machine.State, framed: Machine.State, pushed: Machine.State)
    requires masked == s.(flags := s.flags.(i := true))
    requires framed == Machine.PushWord(masked, ToWord(masked.pc + 2))
    requires pushed == Machine.PushByte(framed, Pack(framed.flags))
    ensures Handlers.Brk(s) == pushed.(pc := MakeWord(Machine.Read(pushed, 0xFFFE), Machine.Read(pushed, 0xFFFF)))
  {
  }
}
