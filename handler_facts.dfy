/**
 * What the handlers promise together: each illegal composite is its two legal halves run in
 * order on the same address, the stack instructions undo each other, and the decimal flag
 * never reaches the arithmetic.
 */
module HandlerFacts {
  import opened Bytes
  import opened Status
  import opened Machine
  import opened Alu
  import opened Handlers

  // ---------------------------------------------------------------------------------
  // The illegal composites.

  /** DCP is DEC, then CMP of AC with the decremented byte. */
  lemma DcpIsDecThenCmp(s: State, a: Word)
    ensures Dcp(s, a) == Cmp(Dec(s, a), a)
  {
    var value := Read(s, a) - 1;
    assert Read(Dec(s, a), a) == value;
  }

  /** ISB is INC, then SBC of the incremented byte. */
  lemma IsbIsIncThenSbc(s: State, a: Word)
    ensures Isb(s, a) == Sbc(Inc(s, a), a)
  {
    var value := Read(s, a) + 1;
    var written := Write(s, a, value);
    var t := Inc(s, a);
    assert t == written.(flags := t.flags) && t.flags == written.flags.(z := t.flags.z, n := t.flags.n);
    assert Read(t, a) == value;
    WithSumOverwritesZN(written, SubtractWithBorrow(s.ac, value, s.flags.c), t.flags.z, t.flags.n);
  }

  /** WithSum sets Z and N itself, so whatever they held before does not matter. */
  lemma WithSumOverwritesZN(t: State, r: Sum, z: bool, n: bool)
    ensures WithSum(t.(flags := t.flags.(z := z, n := n)), r) == WithSum(t, r)
  {
  }

  /** LAX is LDA, then LDX from the same address. */
  lemma LaxIsLdaThenLdx(s: State, a: Word)
    ensures Lax(s, a) == Ldx(Lda(s, a), a)
  {
  }

  /** RLA is ROL, then AND with the byte at the address (at address 0 that is memory 0x0000, not AC). */
  lemma RlaIsRolThenAnd(s: State, a: Word)
    ensures Rla(s, a) == And(Rol(s, a), a)
  {
    AndAfterShift(s, a, RotateLeft(ShiftOperand(s, a), s.flags.c));
  }

  /** RRA is ROR, then ADC of the byte at the address with the carry ROR left. */
  lemma RraIsRorThenAdc(s: State, a: Word)
    ensures Rra(s, a) == Adc(Ror(s, a), a)
  {
    AdcAfterShift(s, a, RotateRight(ShiftOperand(s, a), s.flags.c));
  }

  /** SLO is ASL, then ORA with the byte at the address. */
  lemma SloIsAslThenOra(s: State, a: Word)
    ensures Slo(s, a) == Ora(Asl(s, a), a)
  {
    OraAfterShift(s, a, ShiftLeft(ShiftOperand(s, a)));
  }

  /** SRE is LSR, then EOR with the byte at the address. */
  lemma SreIsLsrThenEor(s: State, a: Word)
    ensures Sre(s, a) == Eor(Lsr(s, a), a)
  {
    EorAfterShift(s, a, ShiftRight(ShiftOperand(s, a)));
  }

  /** A logic step after a shift replaces the Z and N the shift set. */
  lemma AndAfterShift(s: State, a: Word, r: Shifted)
    ensures var t := AfterShift(s, a, r);
      And(PutShifted(s, a, r), a) == WithZN(t.(ac := BitAnd(t.ac, Read(t, a))), BitAnd(t.ac, Read(t, a)))
  {
  }

  lemma OraAfterShift(s: State, a: Word, r: Shifted)
    ensures var t := AfterShift(s, a, r);
      Ora(PutShifted(s, a, r), a) == WithZN(t.(ac := BitOr(Read(t, a), t.ac)), BitOr(Read(t, a), t.ac))
  {
  }

  lemma EorAfterShift(s: State, a: Word, r: Shifted)
    ensures var t := AfterShift(s, a, r);
      Eor(PutShifted(s, a, r), a) == WithZN(t.(ac := BitXor(Read(t, a), t.ac)), BitXor(Read(t, a), t.ac))
  {
  }

  /** ADC after a shift uses the carry the shift left and replaces its Z and N. */
  lemma AdcAfterShift(s: State, a: Word, r: Shifted)
    ensures var t := AfterShift(s, a, r);
      Adc(PutShifted(s, a, r), a) == WithSum(t, AddWithCarry(t.ac, Read(t, a), t.flags.c))
  {
    var t := AfterShift(s, a, r);
    assert PutShifted(s, a, r) == WithZN(t, r.result);
    AdcReplacesZN(t, r.result, a);
  }

  /** ADC reads neither Z nor N. */
  lemma AdcReplacesZN(t: State, v: Byte, a: Word)
    ensures Adc(WithZN(t, v), a) == WithSum(t, AddWithCarry(t.ac, Read(t, a), t.flags.c))
  {
    var u := WithZN(t, v);
    assert u.ac == t.ac && Read(u, a) == Read(t, a) && u.flags.c == t.flags.c;
    WithSumOverwritesZN(t, AddWithCarry(t.ac, Read(t, a), t.flags.c), u.flags.z, u.flags.n);
  }

  /** SAX stores AC & X and changes no register and no flag. */
  lemma SaxStoresOnly(s: State, a: Word)
    ensures Read(Sax(s, a), a) == s.ac & s.x
    ensures Sax(s, a) == s.(mem := Sax(s, a).mem)
    ensures forall b: Word :: b != a ==> Read(Sax(s, a), b) == Read(s, b)
  {
  }

  /** USBC behaves exactly as SBC. */
  lemma UsbcIsSbc(s: State, a: Word)
    ensures Usbc(s, a) == Sbc(s, a)
  {
  }

  // ---------------------------------------------------------------------------------
  // Address 0 as "no address".

  /** ASL with address 0 shifts AC and leaves all memory, 0x0000 included, alone. */
  lemma ShiftAtZeroUsesAccumulator(s: State)
    ensures Asl(s, 0).ac == ShiftLeft(s.ac).result && Asl(s, 0).mem == s.mem
    ensures Lsr(s, 0).ac == ShiftRight(s.ac).result && Lsr(s, 0).mem == s.mem
    ensures Rol(s, 0).ac == RotateLeft(s.ac, s.flags.c).result && Rol(s, 0).mem == s.mem
    ensures Ror(s, 0).ac == RotateRight(s.ac, s.flags.c).result && Ror(s, 0).mem == s.mem
  {
  }

  /** At any other address the shift works on memory and leaves AC alone. */
  lemma ShiftElsewhereUsesMemory(s: State, a: Word)
    requires a != 0
    ensures Read(Asl(s, a), a) == ShiftLeft(Read(s, a)).result && Asl(s, a).ac == s.ac
    ensures Read(Ror(s, a), a) == RotateRight(Read(s, a), s.flags.c).result && Ror(s, a).ac == s.ac
  {
  }

  // ---------------------------------------------------------------------------------
  // Decimal mode is stored but ignored.

  /** ADC computes the same whatever D holds. */
  lemma AdcIgnoresDecimal(s: State, a: Word, d: bool)
    ensures Adc(s.(flags := s.flags.(d := d)), a) == Adc(s, a).(flags := Adc(s, a).flags.(d := d))
  {
    var sum := AddWithCarry(s.ac, Read(s, a), s.flags.c);
    WithSumIgnoresDecimal(s, sum, d);
  }

  /** SBC computes the same whatever D holds. */
  lemma SbcIgnoresDecimal(s: State, a: Word, d: bool)
    ensures Sbc(s.(flags := s.flags.(d := d)), a) == Sbc(s, a).(flags := Sbc(s, a).flags.(d := d))
  {
    var sum := SubtractWithBorrow(s.ac, Read(s, a), s.flags.c);
    WithSumIgnoresDecimal(s, sum, d);
  }

  /** Storing a sum never reads or writes D. */
  lemma WithSumIgnoresDecimal(s: State, r: Sum, d: bool)
    ensures WithSum(s.(flags := s.flags.(d := d)), r) == WithSum(s, r).(flags := WithSum(s, r).flags.(d := d))
  {
  }

  // ---------------------------------------------------------------------------------
  // Stack instructions that undo each other.

  /** PLA after PHA gets AC back (with Z and N from it) and restores SP. */
  lemma PhaThenPla(s: State)
    ensures Pla(Pha(s)) == WithZN(s.(mem := Pha(s).mem), s.ac)
  {
    PushPullByte(s, s.ac);
  }

  /** PLP after PHP restores every flag: the pushed B is discarded, as PLP keeps B. */
  lemma {:induction false} PhpThenPlp(s: State)
    ensures Plp(Php(s)) == s.(mem := Php(s).mem)
  {
    var pushed := Pack(s.flags.(b := true));
    PushPullByte(s, pushed);
    UnpackPack(s.flags.(b := true), s.flags.b);
  }

  /** RTS after JSR returns to the address after the JSR and restores SP. */
  lemma {:induction false} JsrThenRts(s: State, a: Word)
    ensures Rts(Jsr(s, a)) == s.(mem := Jsr(s, a).mem)
  {
    RtsAfterJsrPc(s, a);
  }

  /** RTS adds one to the PC - 1 that JSR pushed. */
  lemma RtsAfterJsrPc(s: State, a: Word)
    ensures Rts(Jsr(s, a)).pc == s.pc
  {
    JsrPushesReturn(s, a);
    ToWordShift(s.pc - 1, 1);
  }

  /** The word RTS pulls after JSR is the PC - 1 that JSR pushed. */
  lemma JsrPushesReturn(s: State, a: Word)
    ensures PullWord(Jsr(s, a)).value == ToWord(s.pc - 1)
  {
    var j := Jsr(s, a);
    assert j.sp + 1 == s.sp - 1 && j.sp + 2 == s.sp;
  }

  /**
   * RTI after BRK restores SP and every flag except I, which stays set, and resumes at
   * PC + 2 — one byte past the byte after BRK, since PC already points past the opcode.
   */
  lemma {:induction false} BrkThenRti(s: State)
    ensures Rti(Brk(s)) == s.(pc := ToWord(s.pc + 2), flags := s.flags.(i := true), mem := Brk(s).mem)
  {
    RtiAfterBrkSp(s);
    RtiAfterBrkFlags(s);
    RtiAfterBrkPc(s);
  }

  /** RTI pulls the three bytes BRK pushed, so SP is back where it was. */
  lemma RtiAfterBrkSp(s: State)
    ensures Rti(Brk(s)).sp == s.sp
  {
    assert Brk(s).sp + 3 == s.sp;
  }

  /** RTI unpacks the status BRK pushed: the flags as BRK left them, I set. */
  lemma RtiAfterBrkFlags(s: State)
    ensures Rti(Brk(s)).flags == s.flags.(i := true)
  {
    var b := Brk(s);
    var p := Read(b, StackAddress(b.sp + 1));
    assert p == Pack(s.flags.(i := true)) by {
      assert b.sp + 1 == s.sp - 2;
      BrkPushedStatus(s);
    }
    assert Unpack(p, b.flags.b) == s.flags.(i := true) by {
      UnpackPack(s.flags.(i := true), s.flags.b);
    }
  }

  /** RTI resumes at the word BRK pushed. */
  lemma RtiAfterBrkPc(s: State)
    ensures Rti(Brk(s)).pc == ToWord(s.pc + 2)
  {
    var b := Brk(s);
    assert b.sp + 2 == s.sp - 1 && b.sp + 3 == s.sp;
    BrkReturnAddress(s);
  }
}
