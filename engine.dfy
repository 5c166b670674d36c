/**
 * `step` and `reset`: one instruction — fetch the opcode, decode it from the table, resolve
 * the operand, run the handler, count the cycles — and the power-on state.
 */
module Engine {
  import opened Bytes
  import opened Status
  import opened Machine
  import opened Opcodes
  import opened Modes
  import opened Handlers

  /** The state after one `step`, and the cycle count `step` returns. */
  datatype Stepped = Stepped(state: State, cycles: nat)

  /**
   * `step`. The opcode is fetched (PC + 1). An invalid entry returns 0 cycles with nothing
   * else changed. Implied and accumulator modes hand the handler address 0; every other mode
   * runs its resolver first. The count is the table's base cycles plus what the resolver and
   * the handler added: at most two more, because only a branch adds cycles in its handler
   * and every branch entry of the table takes the relative mode, which adds none.
   */
  function Step(s: State): (r: Stepped)
    ensures r.cycles == 0 <==> Decode(Read(s, s.pc)) == Invalid
    ensures Decode(Read(s, s.pc)) == Invalid ==> r.state == s.(pc := ToWord(s.pc + 1))
    ensures Decode(Read(s, s.pc)).Op? ==> 2 <= r.cycles <= Decode(Read(s, s.pc)).cycles + 2
  {
    var f := FetchByte(s);
    Dispatch(f.state, Decode(f.value))
  }

  /**
   * The part of `step` after the fetch: the decoded entry picks the resolver and the handler.
   * An invalid entry counts 0 cycles and changes nothing; a valid one costs its base cycles,
   * at most one more for a page crossing in the resolver and two more for a taken branch.
   */
  function Dispatch(f: State, d: Decoded): (r: Stepped)
    ensures d == Invalid ==> r == Stepped(f, 0)
    ensures d.Op? && d.cycles >= 2 ==> 2 <= r.cycles <= d.cycles + 3
    ensures d.Op? && (IsBranch(d.instr) ==> d.operand == Resolved(Relative)) ==> r.cycles <= d.cycles + 2
  {
    match d
    case Invalid => Stepped(f, 0)
    case Op(instr, NoAddress, base) =>
      var e := Exec(instr, f, 0);
      Stepped(e.state, base + e.extra)
    case Op(instr, Resolved(mode), base) =>
      var res := Resolve(mode, f);
      var e := Exec(instr, f.(pc := res.pc), res.address);
      Stepped(e.state, base + res.extra + e.extra)
  }

  /**
   * `reset`. PC is loaded from the vector at 0xFFFC/0xFFFD, SP becomes 0xFD, I is set and
   * every other flag cleared, AC, X and Y become 0 — and then all memory is cleared, the
   * vector included.
   */
  function Reset(s: State): (r: State)
    ensures r.pc == MakeWord(Read(s, 0xFFFC), Read(s, 0xFFFD))
    ensures r.sp == 0xFD && r.ac == 0 && r.x == 0 && r.y == 0
    ensures r.flags.i && !r.flags.c && !r.flags.z && !r.flags.d && !r.flags.b && !r.flags.v && !r.flags.n
    ensures forall a: Word :: Read(r, a) == 0
  {
    var pc := MakeWord(Read(s, 0xFFFC), Read(s, 0xFFFD));
    var flags := Flags(c := false, z := false, i := true, d := false, b := false, v := false, n := false);
    State(pc, 0xFD, 0, 0, 0, flags, Cleared())
  }

  // ---------------------------------------------------------------------------------
  // Reset.

  /** The status byte right after reset is 0x24: only the always-one bit and I. */
  lemma ResetStatus(s: State)
    ensures StatusByte(Reset(s)) == 0x24
  {
  }

  /** Because reset clears the vector after reading it, a second reset starts at 0x0000. */
  lemma ResetTwice(s: State)
    ensures Reset(Reset(s)).pc == 0x0000
  {
    var r := Reset(s);
    assert Read(r, 0xFFFC) == 0 && Read(r, 0xFFFD) == 0;
  }

  // ---------------------------------------------------------------------------------
  // Branches.

  /** The eight branch opcodes of the 6502 are exactly the bytes `xxy10000`. */
  predicate IsBranchOpcode(op: Byte)
  {
    op & 0x1F == 0x10
  }

  /**
   * The 6502's own encoding of the branch condition: bits 7..6 of the opcode pick the flag
   * (N, V, C, Z) and bit 5 the value it must have for the branch to be taken.
   */
  function BranchTaken(op: Byte, f: Flags): bool
  {
    var flag := match op >> 6 { case 0 => f.n case 1 => f.v case 2 => f.c case _ => f.z };
    flag == (op & 0x20 != 0)
  }

  // ---------------------------------------------------------------------------------
  // Cycle accounting.

  /**
   * A decoded opcode with a resolver: the handler runs at the resolved address with PC past
   * the operand, and the count is base cycles + resolver cycles + handler cycles.
   */
  lemma StepResolved(s: State, instr: Instr, mode: Mode, base: nat)
    requires Decode(Read(s, s.pc)) == Op(instr, Resolved(mode), base)
    ensures var f := s.(pc := ToWord(s.pc + 1));
      var res := Resolve(mode, f);
      var e := Exec(instr, f.(pc := res.pc), res.address);
      Step(s) == Stepped(e.state, base + res.extra + e.extra)
  {
    assert Step(s) == Dispatch(s.(pc := ToWord(s.pc + 1)), Op(instr, Resolved(mode), base));
  }

  /** A decoded opcode without an operand: the handler runs with address 0 and PC + 1. */
  lemma StepImplied(s: State, instr: Instr, base: nat)
    requires Decode(Read(s, s.pc)) == Op(instr, NoAddress, base)
    ensures var e := Exec(instr, s.(pc := ToWord(s.pc + 1)), 0);
      Step(s) == Stepped(e.state, base + e.extra)
  {
    assert Step(s) == Dispatch(s.(pc := ToWord(s.pc + 1)), Op(instr, NoAddress, base));
  }

  /** One step through a relative-mode opcode of 2 base cycles, as the resolver and handler see it. */
  lemma RelativeStep(s: State, instr: Instr)
    requires Decode(Read(s, s.pc)) == Op(instr, Resolved(Relative), 2)
    ensures var target := ToWord(s.pc + 2 + Signed(Read(s, ToWord(s.pc + 1))));
      var e := Exec(instr, s.(pc := ToWord(s.pc + 2)), target);
      Step(s) == Stepped(e.state, 2 + e.extra)
  {
    StepResolved(s, instr, Relative, 2);
    RelativeOperand(s);
  }

  /** The relative resolver run on the byte after the opcode: PC + 2, and PC + 2 + offset. */
  lemma RelativeOperand(s: State)
    ensures Resolve(Relative, s.(pc := ToWord(s.pc + 1)))
         == Resolution(ToWord(s.pc + 2 + Signed(Read(s, ToWord(s.pc + 1)))), 0, ToWord(s.pc + 2))
  {
    ToWordShift(s.pc + 1, 1);
    ToWordShift(s.pc + 1, 1 + Signed(Read(s, ToWord(s.pc + 1))));
  }

  /**
   * Each of the eight branch opcodes decodes to the relative mode with 2 base cycles, and to
   * the handler that branches exactly when the encoding says.
   */
  lemma BranchDecodes(op: Byte, st: State, target: Word)
    requires IsBranchOpcode(op)
    ensures Decode(op).Op? && Decode(op).operand == Resolved(Relative) && Decode(op).cycles == 2
    ensures Exec(Decode(op).instr, st, target) == Branch(st, BranchTaken(op, st.flags), target)
  {
    assert op in {0x10, 0x30, 0x50, 0x70, 0x90, 0xB0, 0xD0, 0xF0};
    if op == 0x10 || op == 0x30 { BranchOnNegative(op, st, target); }
    else if op == 0x50 || op == 0x70 { BranchOnOverflow(op, st, target); }
    else if op == 0x90 || op == 0xB0 { BranchOnCarry(op, st, target); }
    else { BranchOnZero(op, st, target); }
  }

  /** BPL (0x10) and BMI (0x30) test N. */
  lemma BranchOnNegative(op: Byte, st: State, target: Word)
    requires op == 0x10 || op == 0x30
    ensures Decode(op).Op? && Decode(op).operand == Resolved(Relative) && Decode(op).cycles == 2
    ensures Exec(Decode(op).instr, st, target) == Branch(st, BranchTaken(op, st.flags), target)
  {
    if op == 0x10 { assert Decode(op) == Op(BPL, Resolved(Relative), 2); }
    else { assert Decode(op) == Op(BMI, Resolved(Relative), 2); }
  }

  /** BVC (0x50) and BVS (0x70) test V. */
  lemma BranchOnOverflow(op: Byte, st: State, target: Word)
    requires op == 0x50 || op == 0x70
    ensures Decode(op).Op? && Decode(op).operand == Resolved(Relative) && Decode(op).cycles == 2
    ensures Exec(Decode(op).instr, st, target) == Branch(st, BranchTaken(op, st.flags), target)
  {
    if op == 0x50 { assert Decode(op) == Op(BVC, Resolved(Relative), 2); }
    else { assert Decode(op) == Op(BVS, Resolved(Relative), 2); }
  }

  /** BCC (0x90) and BCS (0xB0) test C. */
  lemma BranchOnCarry(op: Byte, st: State, target: Word)
    requires op == 0x90 || op == 0xB0
    ensures Decode(op).Op? && Decode(op).operand == Resolved(Relative) && Decode(op).cycles == 2
    ensures Exec(Decode(op).instr, st, target) == Branch(st, BranchTaken(op, st.flags), target)
  {
    if op == 0x90 { assert Decode(op) == Op(BCC, Resolved(Relative), 2); }
    else { assert Decode(op) == Op(BCS, Resolved(Relative), 2); }
  }

  /** BNE (0xD0) and BEQ (0xF0) test Z. */
  lemma BranchOnZero(op: Byte, st: State, target: Word)
    requires op == 0xD0 || op == 0xF0
    ensures Decode(op).Op? && Decode(op).operand == Resolved(Relative) && Decode(op).cycles == 2
    ensures Exec(Decode(op).instr, st, target) == Branch(st, BranchTaken(op, st.flags), target)
  {
    if op == 0xD0 { assert Decode(op) == Op(BNE, Resolved(Relative), 2); }
    else { assert Decode(op) == Op(BEQ, Resolved(Relative), 2); }
  }

  /**
   * A branch instruction as a whole: not taken, PC moves past the offset byte in 2 cycles;
   * taken, PC becomes that address plus the signed offset, in 3 cycles, or 4 when the target
   * lies in another page.
   */
  lemma {:induction false} BranchStep(s: State)
    requires IsBranchOpcode(Read(s, s.pc))
    ensures var next := ToWord(s.pc + 2);
      var target := ToWord(s.pc + 2 + Signed(Read(s, ToWord(s.pc + 1))));
      Step(s) == if BranchTaken(Read(s, s.pc), s.flags)
                 then Stepped(s.(pc := target), if SamePage(next, target) then 3 else 4)
                 else Stepped(s.(pc := next), 2)
  {
    var op := Read(s, s.pc);
    var next := ToWord(s.pc + 2);
    var target := ToWord(s.pc + 2 + Signed(Read(s, ToWord(s.pc + 1))));
    BranchDecodes(op, s.(pc := next), target);
    RelativeStep(s, Decode(op).instr);
  }

  // ---------------------------------------------------------------------------------
  // Worked instructions.

  /** The immediate operand is the byte after the opcode, and PC ends past it. */
  lemma ImmediateOperand(s: State)
    ensures var res := Resolve(Immediate, s.(pc := ToWord(s.pc + 1)));
      res == Resolution(ToWord(s.pc + 1), 0, ToWord(s.pc + 2))
  {
    ToWordShift(s.pc + 1, 1);
  }

  /** `LDA #$00` (A9 00): AC becomes 0, Z is set, N cleared, PC moves on by 2, in 2 cycles. */
  lemma LoadImmediateZero(s: State)
    requires Read(s, s.pc) == 0xA9 && Read(s, ToWord(s.pc + 1)) == 0x00
    ensures Step(s) == Stepped(s.(pc := ToWord(s.pc + 2), ac := 0, flags := s.flags.(z := true, n := false)), 2)
  {
    assert Decode(0xA9) == Op(LDA, Resolved(Immediate), 2);
    StepResolved(s, LDA, Immediate, 2);
    ImmediateOperand(s);
  }

  /**
   * `ADC #$50` (69 50) with AC = 0x50 and C clear: AC becomes 0xA0 with N and V set, Z and C
   * clear — two positive numbers whose signed sum overflowed.
   */
  lemma AddImmediateOverflow(s: State)
    requires Read(s, s.pc) == 0x69 && Read(s, ToWord(s.pc + 1)) == 0x50 && s.ac == 0x50 && !s.flags.c
    ensures var r := Step(s);
      && r.cycles == 2 && r.state.pc == ToWord(s.pc + 2) && r.state.ac == 0xA0
      && !r.state.flags.c && r.state.flags.v && r.state.flags.n && !r.state.flags.z
  {
    assert Decode(0x69) == Op(ADC, Resolved(Immediate), 2);
    StepResolved(s, ADC, Immediate, 2);
    ImmediateOperand(s);
  }

  /** An opcode with no table entry (0x02) only moves PC past itself and takes 0 cycles. */
  lemma InvalidOpcode(s: State)
    requires Read(s, s.pc) == 0x02
    ensures Step(s) == Stepped(s.(pc := ToWord(s.pc + 1)), 0)
  {
    assert Decode(0x02) == Invalid;
  }
}
