/**
 * The state the instruction engine works on, and its byte, word and stack accesses.
 *
 * Every memory index is a 16-bit word, so `address + 1` wraps from 0xFFFF to 0x0000 and the
 * 64 KiB space has no out-of-range address. Words are little-endian. The stack lives in
 * page 0x01: a push stores at `0x0100 | SP` and then decrements SP, a pull increments SP
 * and then loads from `0x0100 | SP`; SP wraps mod 256.
 */
module Machine {
  import opened Bytes
  import opened Status

  /** Registers, flags and the whole memory. */
  datatype State = State(pc: Word, sp: Byte, ac: Byte, x: Byte, y: Byte, flags: Flags, mem: Ram)

  /** A value read or fetched, with the state after the access. */
  datatype Outcome<T> = Outcome(value: T, state: State)

  /** `readByte`: the byte at `address`. */
  function Read(s: State, address: Word): Byte
  {
    s.mem[address]
  }

  /** `writeByte`: only the byte at `address` changes. */
  function Write(s: State, address: Word, value: Byte): (r: State)
    ensures Read(r, address) == value
    ensures forall a: Word :: a != address ==> Read(r, a) == Read(s, a)
    ensures r == s.(mem := r.mem)
  {
    s.(mem := s.mem[address := value])
  }

  /** `readWord`: low byte at `address`, high byte at `address + 1` (wrapping). */
  function ReadWord(s: State, address: Word): (w: Word)
    ensures Lo(w) == Read(s, address) && Hi(w) == Read(s, ToWord(address + 1))
  {
    MakeWord(Read(s, address), Read(s, ToWord(address + 1)))
  }

  /** `writeWord`: the low byte to `address`, the high byte to `address + 1` (wrapping). */
  function WriteWord(s: State, address: Word, value: Word): (r: State)
    ensures ReadWord(r, address) == value
    ensures forall a: Word :: a != address && a != ToWord(address + 1) ==> Read(r, a) == Read(s, a)
    ensures r == s.(mem := r.mem)
  {
    WordFromParts(value);
    Write(Write(s, address, Lo(value)), ToWord(address + 1), Hi(value))
  }

  /** `fetchByte`: the byte at PC; PC advances by one. */
  function FetchByte(s: State): (r: Outcome<Byte>)
    ensures r.value == Read(s, s.pc)
    ensures r.state == s.(pc := ToWord(s.pc + 1))
  {
    Outcome(s.mem[s.pc], s.(pc := ToWord(s.pc + 1)))
  }

  /** `fetchWord`: the little-endian word at PC; PC advances by two. */
  function FetchWord(s: State): (r: Outcome<Word>)
    ensures r.value == ReadWord(s, s.pc)
    ensures r.state == s.(pc := ToWord(s.pc + 2))
  {
    var low := s.mem[s.pc];
    var high := s.mem[ToWord(s.pc + 1)];
    Outcome(MakeWord(low, high), s.(pc := ToWord(s.pc + 2)))
  }

  /** `0x0100 | SP`: the stack slot SP designates, always in page 0x01. */
  function StackAddress(sp: Byte): (a: Word)
    ensures Hi(a) == 0x01 && Lo(a) == sp
    ensures 0x0100 <= a < 0x0200
  {
    0x0100 + sp as int
  }

  /** Every byte outside the stack page 0x01 is the same in both states. */
  predicate OutsideStackUnchanged(s: State, r: State)
  {
    forall a: Word :: (a < 0x0100 || 0x0200 <= a) ==> Read(r, a) == Read(s, a)
  }

  /** `pushByte`: store at `0x0100 | SP`, then SP decrements (wrapping). */
  function PushByte(s: State, value: Byte): (r: State)
    ensures Read(r, StackAddress(s.sp)) == value
    ensures forall a: Word :: a != StackAddress(s.sp) ==> Read(r, a) == Read(s, a)
    ensures OutsideStackUnchanged(s, r)
    ensures r == s.(sp := s.sp - 1, mem := r.mem)
  {
    Write(s, StackAddress(s.sp), value).(sp := s.sp - 1)
  }

  /** `pullByte`: SP increments (wrapping), then the byte at `0x0100 | SP`; memory is untouched. */
  function PullByte(s: State): (r: Outcome<Byte>)
    ensures r.value == Read(s, StackAddress(s.sp + 1))
    ensures r.state == s.(sp := s.sp + 1)
  {
    var sp := s.sp + 1;
    Outcome(Read(s, StackAddress(sp)), s.(sp := sp))
  }

  /** `pushWord`: the high byte first, then the low byte, so the low byte lands lower. */
  function PushWord(s: State, value: Word): (r: State)
    ensures r == s.(sp := s.sp - 2, mem := r.mem)
    ensures Read(r, StackAddress(s.sp)) == Hi(value)
    ensures Read(r, StackAddress(s.sp - 1)) == Lo(value)
    ensures forall a: Word :: a != StackAddress(s.sp) && a != StackAddress(s.sp - 1) ==> Read(r, a) == Read(s, a)
    ensures OutsideStackUnchanged(s, r)
  {
    PushByte(PushByte(s, Hi(value)), Lo(value))
  }

  /** `pullWord`: the low byte first, then the high byte. */
  function PullWord(s: State): (r: Outcome<Word>)
    ensures r.value == MakeWord(Read(s, StackAddress(s.sp + 1)), Read(s, StackAddress(s.sp + 2)))
    ensures r.state == s.(sp := s.sp + 2)
  {
    var low := PullByte(s);
    var high := PullByte(low.state);
    Outcome(MakeWord(low.value, high.value), high.state)
  }

  /** `updateZNFlags`: Z when the byte is zero, N from its bit 7; nothing else changes. */
  function WithZN(s: State, value: Byte): (r: State)
    ensures r.flags.z <==> value == 0
    ensures r.flags.n <==> Negative(value)
    ensures r == s.(flags := r.flags) && r.flags == s.flags.(z := r.flags.z, n := r.flags.n)
  {
    s.(flags := s.flags.(z := value == 0, n := Negative(value)))
  }

  /** `getStatusReg`: the packed status byte. */
  function StatusByte(s: State): Byte
  {
    Pack(s.flags)
  }

  /** `setStatusReg`: C, Z, I, D, V and N from the byte; B and everything else unchanged. */
  function SetStatus(s: State, p: Byte): (r: State)
    ensures r == s.(flags := r.flags) && r.flags.b == s.flags.b
    ensures StatusByte(r) == (p & 0xCF) | UnusedBit | (if s.flags.b then BreakBit else 0)
  {
    PackUnpack(p, s.flags.b);
    s.(flags := Unpack(p, s.flags.b))
  }

  // ---------------------------------------------------------------------------------
  // Properties of the accesses.

  /** A word read at 0xFFFF takes its high byte from 0x0000. */
  lemma ReadWordWraps(s: State)
    ensures ReadWord(s, 0xFFFF) == MakeWord(s.mem[0xFFFF], s.mem[0x0000])
    ensures FetchWord(s.(pc := 0xFFFF)).state.pc == 0x0001
  {
  }

  /** Pulling a byte just pushed returns it and restores SP; the pushed byte stays in memory. */
  lemma PushPullByte(s: State, value: Byte)
    ensures PullByte(PushByte(s, value)) == Outcome(value, PushByte(s, value).(sp := s.sp))
  {
  }

  /**
   * Pulling a word just pushed returns it and restores SP; only the two stack slots below
   * the old SP changed.
   */
  lemma {:induction false} PushPullWord(s: State, value: Word)
    ensures PullWord(PushWord(s, value)).value == value
    ensures PullWord(PushWord(s, value)).state == PushWord(s, value).(sp := s.sp)
  {
    var pushed := PushWord(s, value);
    var pulled := PullWord(pushed);
    assert pulled.state == pushed.(sp := s.sp) by {
      assert pushed.sp + 2 == s.sp;
    }
    assert pulled.value == value by {
      assert pushed.sp + 1 == s.sp - 1 && pushed.sp + 2 == s.sp;
      WordFromParts(value);
    }
  }

  /** The three stack slots below SP are distinct. */
  lemma StackSlotsDistinct(sp: Byte)
    ensures StackAddress(sp) != StackAddress(sp - 1) && StackAddress(sp) != StackAddress(sp - 2)
    ensures StackAddress(sp - 1) != StackAddress(sp - 2)
  {
    assert Lo(StackAddress(sp)) == sp && Lo(StackAddress(sp - 1)) == sp - 1;
    assert Lo(StackAddress(sp - 2)) == sp - 2;
  }

  /** `setStatusReg(getStatusReg())` changes nothing. */
  lemma StatusRoundTrip(s: State)
    ensures SetStatus(s, StatusByte(s)) == s
  {
    UnpackPack(s.flags, s.flags.b);
  }
}
