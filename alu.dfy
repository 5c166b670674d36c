/**
 * The arithmetic and logic the instruction handlers compute inline: add with carry,
 * subtract with borrow, compare, bit test, shifts and rotates. Each function computes
 * as the handler does (8-bit wrap-around where the handler stores into a byte, a wider
 * sum where it keeps one); the lemmas state what the results mean as integers.
 */
module Alu {
  import opened Bytes

  /** Result byte with the carry and overflow flags it produces. */
  datatype Sum = Sum(result: Byte, carry: bool, overflow: bool)

  /** A shift or rotate: the new byte and the bit shifted out. */
  datatype Shifted = Shifted(result: Byte, carry: bool)

  /** The Z, N and C flags a compare sets. */
  datatype CompareFlags = CompareFlags(zero: bool, negative: bool, carry: bool)

  /** The Z, N and V flags BIT sets. */
  datatype TestFlags = TestFlags(zero: bool, negative: bool, overflow: bool)

  /** Borrow of a subtraction: the complement of the carry (`!C`). */
  function Borrow(c: bool): Byte
  {
    BitValue(!c)
  }

  /**
   * The overflow expression of ADC as written: two comparisons of unsigned bytes against
   * zero and the sign-mismatch term. The comparisons can never hold, so only the last term
   * decides.
   */
  function AdcOverflow(a: Byte, m: Byte, sum: Byte): (v: bool)
    ensures v <==> ((sum ^ a) & (sum ^ m)) & 0x80 != 0
  {
    (a < 0 && m < 0 && sum >= 0)
    || (a >= 0 && m >= 0 && sum < 0)
    || (((sum ^ a) & (sum ^ m)) & 0x80 != 0)
  }

  /**
   * ADC. The handler adds in C's `int` (the operands are promoted), stores that total into a
   * byte for the result and into a word for the carry test, and computes V from the byte.
   * The result and the carry (worth 256) add up to the integer total `a + m + C`, and V is
   * set exactly when the operands agree in sign and the result does not.
   */
  function AddWithCarry(a: Byte, m: Byte, c: bool): (r: Sum)
    ensures r.result as int + (if r.carry then 256 else 0) == a as int + m as int + BitValue(c) as int
    ensures r.overflow <==> Negative(a) == Negative(m) && Negative(r.result) != Negative(a)
  {
    var total := a as int + m as int + BitValue(c) as int;
    var sum := ToByte(total);
    assert sum as int + (if total > 0xFF then 256 else 0) == total by { NineBitTotal(total); }
    assert AdcOverflow(a, m, sum) <==> Negative(a) == Negative(m) && Negative(sum) != Negative(a) by {
      SignMismatch(a, m, sum);
    }
    Sum(sum, total > 0xFF, AdcOverflow(a, m, sum))
  }

  /** The sign-mismatch term of ADC's V, read as signs. */
  lemma SignMismatch(a: Byte, m: Byte, sum: Byte)
    ensures AdcOverflow(a, m, sum) <==> Negative(a) == Negative(m) && Negative(sum) != Negative(a)
  {
  }

  /**
   * SBC. The difference `a - m - !C` is an `int` that may be negative; storing it into a byte
   * keeps it mod 256. The carry is the `int` comparison `a >= m + !C`, so a clear carry means
   * 256 was borrowed: the result is `a - m - (1 - C)` plus 256 exactly when C is clear.
   * V is set exactly when the operands differ in sign and the result differs from `a`.
   */
  function SubtractWithBorrow(a: Byte, m: Byte, c: bool): (r: Sum)
    ensures r.result as int == a as int - m as int - Borrow(c) as int + (if r.carry then 0 else 256)
    ensures r.carry <==> a as int - m as int - Borrow(c) as int >= 0
    ensures r.overflow <==> Negative(a) != Negative(m) && Negative(r.result) != Negative(a)
  {
    var total := a as int - m as int - Borrow(c) as int;
    var diff := ToByte(total);
    SignedNineBitTotal(total);
    Sum(diff, a as int >= m as int + Borrow(c) as int,
        ((a ^ diff) & 0x80) != 0 && ((a ^ m) & 0x80) != 0)
  }

  /**
   * CMP, CPX, CPY: the `int` difference `register - operand` stored into a byte sets Z and N,
   * and the carry is `difference <= register`. That carry is set exactly when the register is
   * at least the operand.
   */
  function Compare(reg: Byte, m: Byte): (r: CompareFlags)
    ensures r.carry <==> reg >= m
    ensures r.zero <==> reg == m
    ensures r.negative <==> (reg as int - m as int) % 0x100 >= 0x80
  {
    var value := ToByte(reg as int - m as int);
    CompareCarryValue(reg, m, value);
    CompareZeroValue(reg, m, value);
    CompareSignValue(reg, m, value);
    CompareFlags(value == 0, Negative(value), value <= reg)
  }

  /**
   * AND, ORA and EOR on bytes. Naming the operations keeps states that differ only in how an
   * operand was reached comparable without unfolding the bit arithmetic.
   */
  function BitAnd(x: Byte, y: Byte): Byte { x & y }
  function BitOr(x: Byte, y: Byte): Byte { x | y }
  function BitXor(x: Byte, y: Byte): Byte { x ^ y }

  /** BIT: Z from `a & m`, N and V copied from bits 7 and 6 of the operand. */
  function BitTest(a: Byte, m: Byte): (r: TestFlags)
    ensures r.zero <==> a & m == 0
    ensures r.negative == Negative(m)
    ensures r.overflow == (m & 0x40 != 0)
  {
    TestFlags(!((a & m) > 0), (m & 0x80) > 0, (m & 0x40) > 0)
  }

  /** ASL: shift left, bit 7 into the carry. */
  function ShiftLeft(value: Byte): (r: Shifted)
    ensures r.result as bv16 + (if r.carry then 0x100 else 0) == (value as bv16) << 1
  {
    Shifted(value << 1, (value & 0x80) > 0)
  }

  /** LSR: shift right, bit 0 into the carry. */
  function ShiftRight(value: Byte): (r: Shifted)
    ensures (r.result << 1) + BitValue(r.carry) == value
    ensures !Negative(r.result)
  {
    Shifted(value >> 1, (value & 0x01) > 0)
  }

  /** ROL: shift left, the old carry into bit 0, bit 7 into the carry. */
  function RotateLeft(value: Byte, c: bool): (r: Shifted)
    ensures r.result as bv16 + (if r.carry then 0x100 else 0) == ((value as bv16) << 1) + BitValue(c) as bv16
  {
    Shifted((value << 1) | BitValue(c), (value & 0x80) > 0)
  }

  /** ROR: shift right, the old carry into bit 7, bit 0 into the carry. */
  function RotateRight(value: Byte, c: bool): (r: Shifted)
    ensures ((r.result as bv16) << 1) + BitValue(r.carry) as bv16 == value as bv16 + (if c then 0x100 else 0)
  {
    Shifted((value >> 1) | (BitValue(c) << 7), (value & 0x01) > 0)
  }

  // ---------------------------------------------------------------------------------
  // Helpers for the integer arithmetic of ADC and SBC.

  /** A total of two bytes and a carry fits in nine bits; its low eight bits and the ninth. */
  lemma NineBitTotal(t: int)
    requires 0 <= t < 0x200
    ensures t % 0x10000 == t
    ensures t % 0x100 + (if t > 0xFF then 0x100 else 0) == t
  {
  }

  /** A difference of two bytes and a borrow lies in -256..255; its value mod 256. */
  lemma SignedNineBitTotal(t: int)
    requires -0x100 <= t < 0x100
    ensures t % 0x100 == t + (if t >= 0 then 0 else 0x100)
  {
  }

  /** The compare's byte `(reg - m) mod 256` is at most `reg` exactly when `reg >= m`. */
  lemma CompareCarryValue(reg: Byte, m: Byte, value: Byte)
    requires value as int == (reg as int - m as int) % 0x100
    ensures value <= reg <==> reg >= m
  {
    SignedNineBitTotal(reg as int - m as int);
    LessEqValue(value, reg);
    LessEqValue(m, reg);
  }

  /** The compare's byte is zero exactly when `reg == m`. */
  lemma CompareZeroValue(reg: Byte, m: Byte, value: Byte)
    requires value as int == (reg as int - m as int) % 0x100
    ensures value == 0 <==> reg == m
  {
    SignedNineBitTotal(reg as int - m as int);
    SameValue(reg, m);
    SameValue(value, 0);
  }

  /** The compare's byte has bit 7 set exactly when the difference mod 256 is 128 or more. */
  lemma CompareSignValue(reg: Byte, m: Byte, value: Byte)
    requires value as int == (reg as int - m as int) % 0x100
    ensures Negative(value) <==> (reg as int - m as int) % 0x100 >= 0x80
  {
    SignBit(value);
  }

  // ---------------------------------------------------------------------------------
  // What the flags mean.

  /** ADC's V: the operands agree in sign and the result does not. */
  lemma AdcSignRule(a: Byte, m: Byte, c: bool)
    ensures var r := AddWithCarry(a, m, c);
      r.overflow <==> Negative(a) == Negative(m) && Negative(r.result) != Negative(a)
  {
  }

  /** SBC's V: the operands differ in sign and the result differs from the minuend. */
  lemma SbcSignRule(a: Byte, m: Byte, c: bool)
    ensures var r := SubtractWithBorrow(a, m, c);
      r.overflow <==> Negative(a) != Negative(m) && Negative(r.result) != Negative(a)
  {
  }

  /** For an 8-bit sum, the sign-agreement rule is the range check on the signed operands. */
  lemma SignedSumRange(a: Byte, m: Byte, b: Byte, result: Byte, carry: bool)
    requires b <= 1
    requires result as int + (if carry then 256 else 0) == a as int + m as int + b as int
    ensures (Negative(a) == Negative(m) && Negative(result) != Negative(a))
        <==> !(-128 <= Signed(a) + Signed(m) + b as int < 128)
  {
    SignBit(a); SignBit(m); SignBit(result);
  }

  /** For an 8-bit difference, the sign rule is the range check on the signed operands. */
  lemma SignedDifferenceRange(a: Byte, m: Byte, b: Byte, result: Byte, carry: bool)
    requires b <= 1
    requires result as int == a as int - m as int - b as int + (if carry then 0 else 256)
    ensures (Negative(a) != Negative(m) && Negative(result) != Negative(a))
        <==> !(-128 <= Signed(a) - Signed(m) - b as int < 128)
  {
    SignBit(a); SignBit(m); SignBit(result);
  }

  /** For any sum obeying ADC's two rules, V is the signed range check. */
  lemma SumOverflowMeaning(a: Byte, m: Byte, b: Byte, r: Sum)
    requires b <= 1
    requires r.result as int + (if r.carry then 256 else 0) == a as int + m as int + b as int
    requires r.overflow <==> Negative(a) == Negative(m) && Negative(r.result) != Negative(a)
    ensures r.overflow <==> !(-128 <= Signed(a) + Signed(m) + b as int < 128)
  {
    SignedSumRange(a, m, b, r.result, r.carry);
  }

  /** For any difference obeying SBC's two rules, V is the signed range check. */
  lemma DifferenceOverflowMeaning(a: Byte, m: Byte, b: Byte, r: Sum)
    requires b <= 1
    requires r.result as int == a as int - m as int - b as int + (if r.carry then 0 else 256)
    requires r.overflow <==> Negative(a) != Negative(m) && Negative(r.result) != Negative(a)
    ensures r.overflow <==> !(-128 <= Signed(a) - Signed(m) - b as int < 128)
  {
    SignedDifferenceRange(a, m, b, r.result, r.carry);
  }

  /** ADC sets V exactly when the signed sum leaves -128..127. */
  lemma AdcSignedOverflow(a: Byte, m: Byte, c: bool)
    ensures AddWithCarry(a, m, c).overflow <==> !(-128 <= Signed(a) + Signed(m) + BitValue(c) as int < 128)
  {
    AdcSignRule(a, m, c);
    SumOverflowMeaning(a, m, BitValue(c), AddWithCarry(a, m, c));
  }

  /** SBC sets V exactly when the signed difference leaves -128..127. */
  lemma SbcSignedOverflow(a: Byte, m: Byte, c: bool)
    ensures SubtractWithBorrow(a, m, c).overflow <==> !(-128 <= Signed(a) - Signed(m) - Borrow(c) as int < 128)
  {
    SbcSignRule(a, m, c);
    DifferenceOverflowMeaning(a, m, Borrow(c), SubtractWithBorrow(a, m, c));
  }

  /** The overflow terms of SBC and of ADC with the complemented operand agree bit for bit. */
  lemma ComplementOverflow(a: Byte, m: Byte, d: Byte)
    ensures (((d ^ a) & (d ^ !m)) & 0x80 != 0) == (((a ^ d) & 0x80) != 0 && ((a ^ m) & 0x80) != 0)
  {
  }

  /** SBC is ADC of the complemented operand; this is why one carry rule serves both. */
  lemma SbcIsAdcOfComplement(a: Byte, m: Byte, c: bool)
    ensures SubtractWithBorrow(a, m, c) == AddWithCarry(a, !m, c)
  {
    ComplementResult(a, m, c);
    ComplementCarry(a, m, c);
    ComplementSign(a, m, c);
  }

  /** SBC's difference and ADC's sum with `!m` differ by 256, so they store the same byte. */
  lemma ComplementResult(a: Byte, m: Byte, c: bool)
    ensures SubtractWithBorrow(a, m, c).result == AddWithCarry(a, !m, c).result
  {
    var total := a as int - m as int - Borrow(c) as int;
    ComplementValue(m);
    assert a as int + (!m) as int + BitValue(c) as int == total + 0x100;
    ToBytePeriodic(total);
  }

  /** ... and with equal results, the two integer identities force equal carries. */
  lemma ComplementCarry(a: Byte, m: Byte, c: bool)
    ensures SubtractWithBorrow(a, m, c).carry == AddWithCarry(a, !m, c).carry
  {
    ComplementResult(a, m, c);
    ComplementValue(m);
    SameValue(SubtractWithBorrow(a, m, c).result, AddWithCarry(a, !m, c).result);
  }

  /** ... and the two sign rules agree on the complemented operand. */
  lemma ComplementSign(a: Byte, m: Byte, c: bool)
    ensures SubtractWithBorrow(a, m, c).overflow == AddWithCarry(a, !m, c).overflow
  {
    ComplementResult(a, m, c);
    SbcSignRule(a, m, c);
    AdcSignRule(a, !m, c);
    ComplementOverflow(a, m, SubtractWithBorrow(a, m, c).result);
  }

  /** A difference obeying SBC's rule with C set holds `(reg - m) mod 256`, carry iff `reg >= m`. */
  lemma DifferenceByte(reg: Byte, m: Byte, c: bool, d: Sum)
    requires c
    requires d.result as int == reg as int - m as int - Borrow(c) as int + (if d.carry then 0 else 256)
    ensures d.result as int == (reg as int - m as int) % 0x100
    ensures d.carry <==> reg >= m
  {
    SignedNineBitTotal(reg as int - m as int);
    LessEqValue(m, reg);
  }

  /** Flags obeying the compare's rules are those of a difference obeying SBC's rule with C set. */
  lemma FlagsOfDifference(reg: Byte, m: Byte, c: bool, d: Sum, f: CompareFlags)
    requires c
    requires d.result as int == reg as int - m as int - Borrow(c) as int + (if d.carry then 0 else 256)
    requires f.carry <==> reg >= m
    requires f.zero <==> reg == m
    requires f.negative <==> (reg as int - m as int) % 0x100 >= 0x80
    ensures f == CompareFlags(d.result == 0, Negative(d.result), d.carry)
  {
    DifferenceByte(reg, m, c, d);
    CompareZeroValue(reg, m, d.result);
    CompareSignValue(reg, m, d.result);
  }

  /** A compare sets the same Z, N and C as a subtraction with no borrow pending. */
  lemma CompareIsSubtraction(reg: Byte, m: Byte)
    ensures var d := SubtractWithBorrow(reg, m, true);
      Compare(reg, m) == CompareFlags(d.result == 0, Negative(d.result), d.carry)
  {
    FlagsOfDifference(reg, m, true, SubtractWithBorrow(reg, m, true), Compare(reg, m));
  }

  /** ROR undoes ROL when fed the carry ROL produced, and ROL undoes ROR. */
  lemma RotateRoundTrip(value: Byte, c: bool)
    ensures var l := RotateLeft(value, c); RotateRight(l.result, l.carry) == Shifted(value, c)
    ensures var r := RotateRight(value, c); RotateLeft(r.result, r.carry) == Shifted(value, c)
  {
  }

  /** The shifts are the rotates with a clear carry coming in. */
  lemma ShiftsAreRotatesOfZero(value: Byte)
    ensures ShiftLeft(value) == RotateLeft(value, false)
    ensures ShiftRight(value) == RotateRight(value, false)
  {
  }

  /** The worked example: 0x50 + 0x50 with C clear gives 0xA0, no carry, overflow. */
  lemma AdcExample()
    ensures AddWithCarry(0x50, 0x50, false) == Sum(0xA0, false, true)
  {
  }
}
