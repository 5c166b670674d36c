/**
 * The 65 instruction handlers, legal and illegal, as functions of the state and the
 * effective address the resolver produced.
 *
 * Address 0 doubles as "no address": the engine passes 0 for implied and accumulator modes,
 * and ASL, LSR, ROL and ROR (and the composites built on them) work on AC, not memory, when
 * the address is 0 — even if the resolver genuinely produced 0x0000. The decimal flag D is
 * stored but no handler consults it.
 */
module Handlers {
  import opened Bytes
  import opened Status
  import opened Machine
  import opened Alu
  import Opcodes

  /** What a handler leaves: the new state and the cycles it added (only taken branches add). */
  datatype Effect = Effect(state: State, extra: nat)

  // ---------------------------------------------------------------------------------
  // Loads, stores, transfers, increments and decrements.

  function Lda(s: State, a: Word): State { WithZN(s.(ac := Read(s, a)), Read(s, a)) }
  function Ldx(s: State, a: Word): State { WithZN(s.(x := Read(s, a)), Read(s, a)) }
  function Ldy(s: State, a: Word): State { WithZN(s.(y := Read(s, a)), Read(s, a)) }
  function Sta(s: State, a: Word): State { Write(s, a, s.ac) }
  function Stx(s: State, a: Word): State { Write(s, a, s.x) }
  function Sty(s: State, a: Word): State { Write(s, a, s.y) }
  function Tax(s: State): State { WithZN(s.(x := s.ac), s.ac) }
  function Tay(s: State): State { WithZN(s.(y := s.ac), s.ac) }
  function Tsx(s: State): State { WithZN(s.(x := s.sp), s.sp) }
  function Txa(s: State): State { WithZN(s.(ac := s.x), s.x) }
  function Txs(s: State): State { s.(sp := s.x) }
  function Tya(s: State): State { WithZN(s.(ac := s.y), s.y) }
  function Inx(s: State): State { WithZN(s.(x := s.x + 1), s.x + 1) }
  function Iny(s: State): State { WithZN(s.(y := s.y + 1), s.y + 1) }
  function Dex(s: State): State { WithZN(s.(x := s.x - 1), s.x - 1) }
  function Dey(s: State): State { WithZN(s.(y := s.y - 1), s.y - 1) }

  /** INC: the byte at the address plus one, wrapping, with Z and N from it. */
  function Inc(s: State, a: Word): State
  {
    var value := Read(s, a) + 1;
    WithZN(Write(s, a, value), value)
  }

  /** DEC: the byte at the address minus one, wrapping, with Z and N from it. */
  function Dec(s: State, a: Word): State
  {
    var value := Read(s, a) - 1;
    WithZN(Write(s, a, value), value)
  }

  // ---------------------------------------------------------------------------------
  // Logic and arithmetic on AC.

  function And(s: State, a: Word): State { WithZN(s.(ac := BitAnd(s.ac, Read(s, a))), BitAnd(s.ac, Read(s, a))) }
  function Ora(s: State, a: Word): State { WithZN(s.(ac := BitOr(Read(s, a), s.ac)), BitOr(Read(s, a), s.ac)) }
  function Eor(s: State, a: Word): State { WithZN(s.(ac := BitXor(Read(s, a), s.ac)), BitXor(Read(s, a), s.ac)) }

  /** AC and C, V, Z, N from a sum or difference; nothing else changes. */
  function WithSum(s: State, r: Sum): (t: State)
    ensures t.ac == r.result && t.flags.c == r.carry && t.flags.v == r.overflow
    ensures t.flags.z == (r.result == 0) && t.flags.n == Negative(r.result)
    ensures t == s.(ac := t.ac, flags := s.flags.(c := t.flags.c, v := t.flags.v, z := t.flags.z, n := t.flags.n))
  {
    WithZN(s.(ac := r.result, flags := s.flags.(c := r.carry, v := r.overflow)), r.result)
  }

  /**
   * ADC: AC + m + C as a nine-bit sum. AC holds it mod 256 and C its ninth bit; V is set
   * exactly when the signed sum leaves -128..127.
   */
  function Adc(s: State, a: Word): (r: State)
    ensures r.ac as int + (if r.flags.c then 256 else 0) == s.ac as int + Read(s, a) as int + BitValue(s.flags.c) as int
    ensures r.flags.v <==> !(-128 <= Signed(s.ac) + Signed(Read(s, a)) + BitValue(s.flags.c) as int < 128)
    ensures r.flags.z == (r.ac == 0) && r.flags.n == Negative(r.ac)
    ensures r == s.(ac := r.ac, flags := s.flags.(c := r.flags.c, v := r.flags.v, z := r.flags.z, n := r.flags.n))
  {
    AdcSignedOverflow(s.ac, Read(s, a), s.flags.c);
    WithSum(s, AddWithCarry(s.ac, Read(s, a), s.flags.c))
  }

  /**
   * SBC: AC - m - (1 - C). AC holds it mod 256, C is set when no borrow was needed, and V is
   * set exactly when the signed difference leaves -128..127.
   */
  function Sbc(s: State, a: Word): (r: State)
    ensures r.ac as int == s.ac as int - Read(s, a) as int - Borrow(s.flags.c) as int + (if r.flags.c then 0 else 256)
    ensures r.flags.c <==> s.ac as int - Read(s, a) as int - Borrow(s.flags.c) as int >= 0
    ensures r.flags.v <==> !(-128 <= Signed(s.ac) - Signed(Read(s, a)) - Borrow(s.flags.c) as int < 128)
    ensures r.flags.z == (r.ac == 0) && r.flags.n == Negative(r.ac)
    ensures r == s.(ac := r.ac, flags := s.flags.(c := r.flags.c, v := r.flags.v, z := r.flags.z, n := r.flags.n))
  {
    SbcSignedOverflow(s.ac, Read(s, a), s.flags.c);
    WithSum(s, SubtractWithBorrow(s.ac, Read(s, a), s.flags.c))
  }

  /** C, Z and N from comparing a register with an operand; nothing else changes. */
  function WithCompare(s: State, reg: Byte, m: Byte): (r: State)
    ensures r.flags.c <==> reg >= m
    ensures r.flags.z <==> reg == m
    ensures r.flags.n <==> (reg as int - m as int) % 0x100 >= 0x80
    ensures r == s.(flags := s.flags.(c := r.flags.c, z := r.flags.z, n := r.flags.n))
  {
    var f := Compare(reg, m);
    s.(flags := s.flags.(c := f.carry, z := f.zero, n := f.negative))
  }

  function Cmp(s: State, a: Word): State { WithCompare(s, s.ac, Read(s, a)) }
  function Cpx(s: State, a: Word): State { WithCompare(s, s.x, Read(s, a)) }
  function Cpy(s: State, a: Word): State { WithCompare(s, s.y, Read(s, a)) }

  /** BIT: Z when AC and m share no set bit; N and V copy bits 7 and 6 of m; AC is kept. */
  function Bit(s: State, a: Word): (r: State)
    ensures r.flags.z <==> s.ac & Read(s, a) == 0
    ensures r.flags.n == Negative(Read(s, a)) && r.flags.v == (Read(s, a) & 0x40 != 0)
    ensures r == s.(flags := s.flags.(z := r.flags.z, n := r.flags.n, v := r.flags.v))
  {
    var f := BitTest(s.ac, Read(s, a));
    s.(flags := s.flags.(z := f.zero, n := f.negative, v := f.overflow))
  }

  // ---------------------------------------------------------------------------------
  // Shifts and rotates: on AC when the address is 0, otherwise on memory.

  /** The byte a shift or rotate works on: AC for address 0, else the byte at the address. */
  function ShiftOperand(s: State, a: Word): Byte
  {
    if a == 0 then s.ac else Read(s, a)
  }

  /** Stores a shift's result where its operand came from, with C from the bit shifted out. */
  function PutShifted(s: State, a: Word, r: Shifted): State
  {
    var stored := if a == 0 then s.(ac := r.result) else Write(s, a, r.result);
    WithZN(stored.(flags := stored.flags.(c := r.carry)), r.result)
  }

  /**
   * A shift or rotate puts its result back where it read its operand (AC for address 0,
   * memory otherwise), sets C from the bit shifted out and Z, N from the result, and changes
   * nothing else.
   */
  lemma PutShiftedStores(s: State, a: Word, r: Shifted)
    ensures var t := PutShifted(s, a, r);
      && ShiftOperand(t, a) == r.result && t.flags.c == r.carry
      && t.flags.z == (r.result == 0) && t.flags.n == Negative(r.result)
      && (a == 0 ==> t == s.(ac := r.result, flags := t.flags))
      && (a != 0 ==> t == Write(s, a, r.result).(flags := t.flags))
      && t.flags == s.flags.(c := t.flags.c, z := t.flags.z, n := t.flags.n)
  {
  }

  function Asl(s: State, a: Word): State { PutShifted(s, a, ShiftLeft(ShiftOperand(s, a))) }
  function Lsr(s: State, a: Word): State { PutShifted(s, a, ShiftRight(ShiftOperand(s, a))) }
  function Rol(s: State, a: Word): State { PutShifted(s, a, RotateLeft(ShiftOperand(s, a), s.flags.c)) }
  function Ror(s: State, a: Word): State { PutShifted(s, a, RotateRight(ShiftOperand(s, a), s.flags.c)) }

  // ---------------------------------------------------------------------------------
  // Branches.

  /**
   * A conditional branch to `target`, with PC already past the offset byte. Not taken:
   * nothing changes. Taken: PC becomes the target, costing one cycle, or two when the target
   * lies in another page than PC.
   */
  function Branch(s: State, taken: bool, target: Word): (e: Effect)
    ensures !taken ==> e == Effect(s, 0)
    ensures taken ==> e.state == s.(pc := target)
    ensures taken ==> e.extra == if SamePage(s.pc, target) then 1 else 2
  {
    if taken then
      var cross := if s.pc - s.pc % 0x100 != target - target % 0x100 then 1 else 0;
      Effect(s.(pc := target), 1 + cross)
    else
      Effect(s, 0)
  }

  function Bcc(s: State, a: Word): Effect { Branch(s, !s.flags.c, a) }
  function Bcs(s: State, a: Word): Effect { Branch(s, s.flags.c, a) }
  function Beq(s: State, a: Word): Effect { Branch(s, s.flags.z, a) }
  function Bmi(s: State, a: Word): Effect { Branch(s, s.flags.n, a) }
  function Bne(s: State, a: Word): Effect { Branch(s, !s.flags.z, a) }
  function Bpl(s: State, a: Word): Effect { Branch(s, !s.flags.n, a) }
  function Bvc(s: State, a: Word): Effect { Branch(s, !s.flags.v, a) }
  function Bvs(s: State, a: Word): Effect { Branch(s, s.flags.v, a) }

  // ---------------------------------------------------------------------------------
  // Flag instructions.

  function Clc(s: State): State { s.(flags := s.flags.(c := false)) }
  function Cld(s: State): State { s.(flags := s.flags.(d := false)) }
  function Cli(s: State): State { s.(flags := s.flags.(i := false)) }
  function Clv(s: State): State { s.(flags := s.flags.(v := false)) }
  function Sec(s: State): State { s.(flags := s.flags.(c := true)) }
  function Sed(s: State): State { s.(flags := s.flags.(d := true)) }
  function Sei(s: State): State { s.(flags := s.flags.(i := true)) }

  // ---------------------------------------------------------------------------------
  // Stack and control flow.

  function Pha(s: State): State { PushByte(s, s.ac) }

  /** PHP: pushes the status with B forced to 1 in the pushed byte; B itself is restored. */
  function Php(s: State): (r: State)
    ensures Read(r, StackAddress(s.sp)) == Pack(s.flags.(b := true))
    ensures Read(r, StackAddress(s.sp)) & BreakBit != 0
    ensures r == PushByte(s, Read(r, StackAddress(s.sp)))
  {
    var marked := s.(flags := s.flags.(b := true));
    PushByte(marked, StatusByte(marked)).(flags := s.flags)
  }

  function Pla(s: State): State
  {
    var p := PullByte(s);
    WithZN(p.state.(ac := p.value), p.value)
  }

  function Plp(s: State): State
  {
    var p := PullByte(s);
    SetStatus(p.state, p.value)
  }

  function Jmp(s: State, a: Word): State { s.(pc := a) }

  /** JSR: pushes PC - 1 (the address of the operand's last byte), then jumps. */
  function Jsr(s: State, a: Word): (r: State)
    ensures r == s.(pc := a, sp := s.sp - 2, mem := r.mem)
    ensures MakeWord(Read(r, StackAddress(s.sp - 1)), Read(r, StackAddress(s.sp))) == ToWord(s.pc - 1)
    ensures forall b: Word :: b != StackAddress(s.sp) && b != StackAddress(s.sp - 1) ==> Read(r, b) == Read(s, b)
  {
    WordFromParts(ToWord(s.pc - 1));
    PushWord(s, ToWord(s.pc - 1)).(pc := a)
  }

  /** RTS: pulls a word and continues one byte after it. */
  function Rts(s: State): (r: State)
    ensures r.pc == ToWord(PullWord(s).value + 1) && r == s.(sp := s.sp + 2, pc := r.pc)
  {
    var w := PullWord(s);
    w.state.(pc := ToWord(w.value + 1))
  }

  /** RTI: pulls the status (B is kept), then PC. */
  function Rti(s: State): (r: State)
    ensures r.flags == Unpack(Read(s, StackAddress(s.sp + 1)), s.flags.b)
    ensures r.pc == MakeWord(Read(s, StackAddress(s.sp + 2)), Read(s, StackAddress(s.sp + 3)))
    ensures r == s.(sp := s.sp + 3, flags := r.flags, pc := r.pc)
  {
    var p := PullByte(s);
    var w := PullWord(SetStatus(p.state, p.value));
    w.state.(pc := w.value)
  }

  /**
   * The interrupt frame BRK pushes: a return word (high byte first), then a status byte.
   * SP drops by three and only the three stack slots below the old SP change.
   */
  function PushFrame(s: State, ret: Word, p: Byte): (r: State)
    ensures r == s.(sp := s.sp - 3, mem := r.mem)
    ensures Read(r, StackAddress(s.sp)) == Hi(ret) && Read(r, StackAddress(s.sp - 1)) == Lo(ret)
    ensures Read(r, StackAddress(s.sp - 2)) == p
    ensures forall b: Word :: b != StackAddress(s.sp) && b != StackAddress(s.sp - 1) && b != StackAddress(s.sp - 2) ==>
      Read(r, b) == Read(s, b)
    ensures OutsideStackUnchanged(s, r)
  {
    var w := PushWord(s, ret);
    var r := PushByte(w, p);
    assert r == s.(sp := s.sp - 3, mem := r.mem) by { assert w.sp - 1 == s.sp - 3; }
    assert Read(r, StackAddress(s.sp - 2)) == p by { assert w.sp == s.sp - 2; }
    assert Read(r, StackAddress(s.sp)) == Hi(ret) && Read(r, StackAddress(s.sp - 1)) == Lo(ret) by {
      assert w.sp == s.sp - 2;
      StackSlotsDistinct(s.sp);
    }
    r
  }

  /**
   * BRK: sets I, pushes PC + 2 and then the status byte as it stands (I already set, B not
   * forced), and continues at the vector in 0xFFFE/0xFFFF.
   */
  function Brk(s: State): (r: State)
    ensures r.pc == MakeWord(Read(s, 0xFFFE), Read(s, 0xFFFF))
    ensures r.sp == s.sp - 3 && r.flags == s.flags.(i := true)
    ensures r == s.(pc := r.pc, sp := r.sp, flags := r.flags, mem := r.mem)
    ensures forall b: Word :: b != StackAddress(s.sp) && b != StackAddress(s.sp - 1) && b != StackAddress(s.sp - 2) ==>
      Read(r, b) == Read(s, b)
  {
    var masked := s.(flags := s.flags.(i := true));
    var pushed := PushFrame(masked, ToWord(masked.pc + 2), StatusByte(masked));
    FrameKept(s, masked, ToWord(masked.pc + 2), StatusByte(masked));
    pushed.(pc := MakeWord(Read(pushed, 0xFFFE), Read(pushed, 0xFFFF)))
  }

  /** A frame pushed from a state with `s`'s SP and memory leaves the rest of `s`'s memory alone. */
  lemma FrameKept(s: State, m: State, ret: Word, p: Byte)
    requires m.sp == s.sp && m.mem == s.mem
    ensures forall b: Word :: b != StackAddress(s.sp) && b != StackAddress(s.sp - 1) && b != StackAddress(s.sp - 2) ==>
      Read(PushFrame(m, ret, p), b) == Read(s, b)
  {
  }

  /** BRK leaves PC + 2 in the two stack slots below the old SP, high byte on top. */
  lemma BrkReturnAddress(s: State)
    ensures var r := Brk(s);
      MakeWord(Read(r, StackAddress(s.sp - 1)), Read(r, StackAddress(s.sp))) == ToWord(s.pc + 2)
  {
    var masked := s.(flags := s.flags.(i := true));
    var ret := ToWord(s.pc + 2);
    var pushed := PushFrame(masked, ret, StatusByte(masked));
    var r := Brk(s);
    assert Read(r, StackAddress(s.sp - 1)) == Lo(ret) && Read(r, StackAddress(s.sp)) == Hi(ret) by {
      assert r.mem == pushed.mem;
    }
    WordFromParts(ret);
  }

  /** BRK's pushed status byte has I set and B as it was: BRK does not force B. */
  lemma BrkPushedStatus(s: State)
    ensures Read(Brk(s), StackAddress(s.sp - 2)) == Pack(s.flags.(i := true))
  {
    var masked := s.(flags := s.flags.(i := true));
    var pushed := PushFrame(masked, ToWord(s.pc + 2), StatusByte(masked));
    assert Brk(s).mem == pushed.mem;
  }

  function Nop(s: State): State { s }

  // ---------------------------------------------------------------------------------
  // Illegal opcodes, each defined directly by its combined effect.

  /** DCP: memory decremented, then compared with AC. */
  function Dcp(s: State, a: Word): State
  {
    var value := Read(s, a) - 1;
    WithCompare(Write(s, a, value), s.ac, value)
  }

  /** ISB: memory incremented, then subtracted from AC with borrow. */
  function Isb(s: State, a: Word): State
  {
    var value := Read(s, a) + 1;
    WithSum(Write(s, a, value), SubtractWithBorrow(s.ac, value, s.flags.c))
  }

  /** LAX: the byte loaded into both AC and X. */
  function Lax(s: State, a: Word): State
  {
    var value := Read(s, a);
    WithZN(s.(ac := value, x := value), value)
  }

  /** SAX: stores AC & X; no flag changes. */
  function Sax(s: State, a: Word): State { Write(s, a, BitAnd(s.ac, s.x)) }

  /**
   * The state after a read-modify-write shift, before the logic step reads its operand: for
   * address 0 the shift went to AC, so the logic step then reads memory at 0x0000.
   */
  function AfterShift(s: State, a: Word, r: Shifted): State
  {
    var stored := if a == 0 then s.(ac := r.result) else Write(s, a, r.result);
    stored.(flags := stored.flags.(c := r.carry))
  }

  /** RLA: rotate left, then AND the result (memory at the address) into AC. */
  function Rla(s: State, a: Word): State
  {
    var t := AfterShift(s, a, RotateLeft(ShiftOperand(s, a), s.flags.c));
    var acc := BitAnd(t.ac, Read(t, a));
    WithZN(t.(ac := acc), acc)
  }

  /** SLO: shift left, then OR the result into AC. */
  function Slo(s: State, a: Word): State
  {
    var t := AfterShift(s, a, ShiftLeft(ShiftOperand(s, a)));
    var acc := BitOr(Read(t, a), t.ac);
    WithZN(t.(ac := acc), acc)
  }

  /** SRE: shift right, then EOR the result into AC. */
  function Sre(s: State, a: Word): State
  {
    var t := AfterShift(s, a, ShiftRight(ShiftOperand(s, a)));
    var acc := BitXor(Read(t, a), t.ac);
    WithZN(t.(ac := acc), acc)
  }

  /** RRA: rotate right, then add the result to AC with the carry the rotate left. */
  function Rra(s: State, a: Word): State
  {
    var t := AfterShift(s, a, RotateRight(ShiftOperand(s, a), s.flags.c));
    WithSum(t, AddWithCarry(t.ac, Read(t, a), t.flags.c))
  }

  /** USBC: the same as SBC. */
  function Usbc(s: State, a: Word): State { Sbc(s, a) }

  // ---------------------------------------------------------------------------------
  // Dispatch.

  /** A handler that adds no cycles. */
  function Plain(s: State): Effect { Effect(s, 0) }

  /** The handlers grouped as in the sections above; only the branches add cycles. */
  datatype Group = Branches | LoadsStores | Registers | Arithmetic | Shifts | FlagOps | Control | Illegal

  /** The group each handler belongs to. */
  function GroupOf(instr: Opcodes.Instr): Group
  {
    match instr
    case BCC | BCS | BEQ | BMI | BNE | BPL | BVC | BVS => Branches
    case LDA | LDX | LDY | STA | STX | STY | INC | DEC => LoadsStores
    case TAX | TAY | TSX | TXA | TXS | TYA | INX | INY | DEX | DEY => Registers
    case ADC | AND | BIT | CMP | CPX | CPY | EOR | ORA | SBC => Arithmetic
    case ASL | LSR | ROL | ROR => Shifts
    case CLC | CLD | CLI | CLV | SEC | SED | SEI => FlagOps
    case BRK | JMP | JSR | NOP | PHA | PHP | PLA | PLP | RTI | RTS => Control
    case DCP | ISB | LAX | RLA | RRA | SAX | SLO | SRE | USBC => Illegal
  }

  /**
   * `insPointers[instruction]`: runs the handler with the effective address. Only a taken
   * branch adds cycles, one or two. Each group of handlers is dispatched by a function of
   * its own.
   */
  function Exec(instr: Opcodes.Instr, s: State, a: Word): (e: Effect)
    ensures e.extra <= 2
    ensures e.extra != 0 ==> GroupOf(instr) == Branches
    ensures e.extra != 0 ==> Opcodes.IsBranch(instr)
  {
    match GroupOf(instr)
    case Branches => ExecBranch(instr, s, a)
    case LoadsStores => Plain(ExecLoadStore(instr, s, a))
    case Registers => Plain(ExecRegister(instr, s, a))
    case Arithmetic => Plain(ExecArithmetic(instr, s, a))
    case Shifts => Plain(ExecShift(instr, s, a))
    case FlagOps => Plain(ExecFlag(instr, s, a))
    case Control => Plain(ExecControl(instr, s, a))
    case Illegal => Plain(ExecIllegal(instr, s, a))
  }

  /** The eight conditional branches. */
  function ExecBranch(instr: Opcodes.Instr, s: State, a: Word): Effect
    requires GroupOf(instr) == Branches
  {
    match instr
    case BCC => Bcc(s, a)
    case BCS => Bcs(s, a)
    case BEQ => Beq(s, a)
    case BMI => Bmi(s, a)
    case BNE => Bne(s, a)
    case BPL => Bpl(s, a)
    case BVC => Bvc(s, a)
    case BVS => Bvs(s, a)
  }

  /** Loads, stores, INC and DEC. */
  function ExecLoadStore(instr: Opcodes.Instr, s: State, a: Word): State
    requires GroupOf(instr) == LoadsStores
  {
    match instr
    case LDA => Lda(s, a)
    case LDX => Ldx(s, a)
    case LDY => Ldy(s, a)
    case STA => Sta(s, a)
    case STX => Stx(s, a)
    case STY => Sty(s, a)
    case INC => Inc(s, a)
    case DEC => Dec(s, a)
  }

  /** Transfers and register increments and decrements. */
  function ExecRegister(instr: Opcodes.Instr, s: State, a: Word): State
    requires GroupOf(instr) == Registers
  {
    match instr
    case TAX => Tax(s)
    case TAY => Tay(s)
    case TSX => Tsx(s)
    case TXA => Txa(s)
    case TXS => Txs(s)
    case TYA => Tya(s)
    case INX => Inx(s)
    case INY => Iny(s)
    case DEX => Dex(s)
    case DEY => Dey(s)
  }

  /** Logic, arithmetic, comparisons and BIT. */
  function ExecArithmetic(instr: Opcodes.Instr, s: State, a: Word): State
    requires GroupOf(instr) == Arithmetic
  {
    match instr
    case ADC => Adc(s, a)
    case AND => And(s, a)
    case BIT => Bit(s, a)
    case CMP => Cmp(s, a)
    case CPX => Cpx(s, a)
    case CPY => Cpy(s, a)
    case EOR => Eor(s, a)
    case ORA => Ora(s, a)
    case SBC => Sbc(s, a)
  }

  /** Shifts and rotates. */
  function ExecShift(instr: Opcodes.Instr, s: State, a: Word): State
    requires GroupOf(instr) == Shifts
  {
    match instr
    case ASL => Asl(s, a)
    case LSR => Lsr(s, a)
    case ROL => Rol(s, a)
    case ROR => Ror(s, a)
  }

  /** The flag instructions. */
  function ExecFlag(instr: Opcodes.Instr, s: State, a: Word): State
    requires GroupOf(instr) == FlagOps
  {
    match instr
    case CLC => Clc(s)
    case CLD => Cld(s)
    case CLI => Cli(s)
    case CLV => Clv(s)
    case SEC => Sec(s)
    case SED => Sed(s)
    case SEI => Sei(s)
  }

  /** Stack, jumps, returns, BRK and NOP. */
  function ExecControl(instr: Opcodes.Instr, s: State, a: Word): State
    requires GroupOf(instr) == Control
  {
    match instr
    case BRK => Brk(s)
    case JMP => Jmp(s, a)
    case JSR => Jsr(s, a)
    case NOP => Nop(s)
    case PHA => Pha(s)
    case PHP => Php(s)
    case PLA => Pla(s)
    case PLP => Plp(s)
    case RTI => Rti(s)
    case RTS => Rts(s)
  }

  /** The illegal opcodes. */
  function ExecIllegal(instr: Opcodes.Instr, s: State, a: Word): State
    requires GroupOf(instr) == Illegal
  {
    match instr
    case DCP => Dcp(s, a)
    case ISB => Isb(s, a)
    case LAX => Lax(s, a)
    case RLA => Rla(s, a)
    case RRA => Rra(s, a)
    case SAX => Sax(s, a)
    case SLO => Slo(s, a)
    case SRE => Sre(s, a)
    case USBC => Usbc(s, a)
  }
}
