# A verified model of a 6502 instruction engine

This project models the CPU core of a small 6502 emulator (`cpu.cpp`) and proves what it
promises: the NES variant of the MOS 6502, with 64 KiB of flat memory, the hardware stack in
page 0x01, a packed status register, sixteen addressing-mode resolvers, the legal
instructions plus the common illegal composites, a packed 256-entry opcode table, `reset`
and the fetch–decode–resolve–execute `step` that returns the cycle count.

The model has two layers.

- A functional specification over a `State` value (registers, flags and a 65536-byte
  memory):
  - `Bytes`: bytes, words and the C truncations;
  - `Status`: the status-byte pack and unpack;
  - `Machine`: memory and stack accesses;
  - `Alu`: ADC, SBC, compare, BIT and the shifts;
  - `Opcodes`: the opcode table and its decoding;
  - `Modes`: the addressing modes;
  - `Handlers`: the instruction handlers and their dispatch;
  - `HandlerFacts`: properties that relate several handlers;
  - `Engine`: `step` and `reset`.
- An imperative layer, module `Cpu`:
  - a `Memory` class over a 65536-element `array`;
  - a `CPU` class whose fields are the registers and the flags.

  Each method of the `CPU` class mirrors a routine of the source, or a part several routines
  share (the compare and branch bodies, the page-cross test, the dispatch groups). It changes
  the object and the memory in place. Its contract says that the new object and memory, read through
  `Snapshot`, are the specification function applied to the old ones. For `Step`, that
  function is `Engine.Step`. Everything proved about the specification therefore holds for
  the object.

Words are integers in 0..0xFFFF. Every store of a C `int` into a `uint16_t` is written as
`ToWord`, which takes the value mod 65536. Bytes are `bv8`, so register arithmetic
wraps mod 256 as `uint8_t` does.

Where the code departs from the 6502, the model follows the code:

- BRK pushes the status byte with B as it stands, where the chip pushes it with B set.
- BRK pushes PC + 2 with PC already past the opcode, one byte past the chip's return
  address.
- The page-cross test of `indirectY` reads the pointer's word without the zero-page wrap,
  while the effective address wraps. The test uses only the low byte, so this has no
  observable effect (`Cpu.CPU.PointerCrossing`, `Modes.IndirectY`).

The stack works as on the chip: a push stores at `0x0100 | SP` and then decrements SP, and a
pull increments SP and then loads.

## Model

Many handlers in `Handlers` are closed-form functions with no contract of their own. They
are the loads, stores, transfers, increments and decrements, the logic operations, CMP, CPX
and CPY, the shifts, the flag operations, PHA, PLA, PLP, JMP, NOP and the illegal
composites. They have no rows here. Each one is named and described by the row of the
`Cpu.CPU` method proved equal to it, and the composites also by the `HandlerFacts` rows.

| member | source | states |
|---|---|---|
| Bytes.BitValue | cpu.cpp:198-216 | a flag as the 0/1 bit-field value: at most 1, and 1 exactly when the flag is set |
| Bytes.ToByte | cpu.cpp:358 | storing an `int` into a `byte` keeps its value mod 256 |
| Bytes.ToWord | cpu.cpp:359 | storing an `int` into a `word` keeps its value mod 65536, and leaves a value already in range unchanged |
| Bytes.ToWordShift | cpu.cpp:282-285 | truncating to a word twice is truncating once, so `PC++` followed by `PC + offset` is `PC + 1 + offset` mod 65536 |
| Bytes.Lo | cpu.cpp:239 | `w & 0xFF` is `w mod 256` |
| Bytes.Hi | cpu.cpp:175-178 | `w >> 8` is `w div 256` |
| Bytes.MakeWord | cpu.cpp:159-163 | `low OR (high << 8)` is `low + 256 * high`, and its low and high bytes are `low` and `high` |
| Bytes.WordFromParts | cpu.cpp:166-169 | a word is rebuilt from its low and high bytes |
| Bytes.Signed | cpu.cpp:283 | the `(sbyte)` cast: a value in -128..127 that is the byte or the byte minus 256, negative exactly when bit 7 is set |
| Bytes.ToBytePeriodic | cpu.cpp:358 | storing into a byte forgets multiples of 256 |
| Status.Pack | cpu.cpp:198-216 | bit 5 of the packed status is always 1 and each of C, Z, I, D, B, V, N is its own bit (0, 1, 2, 3, 4, 6, 7) |
| Status.Unpack | cpu.cpp:218-226 | C, Z, I, D, V and N are read from their bits and B keeps the value passed in |
| Status.UnpackPack | cpu.cpp:198-226 | unpacking a packed status gives back every flag, with B replaced by the kept value |
| Status.PackUnpack | cpu.cpp:198-226 | packing an unpacked byte gives the byte back with bit 5 forced to 1 and bit 4 taken from the kept B |
| Machine.Write | cpu.cpp:154-156 | after `writeByte` the address holds the value, every other address is unchanged, and no register changes |
| Machine.ReadWord | cpu.cpp:159-163 | the low byte of `readWord` is the byte at the address and the high byte the one at address + 1 mod 65536 |
| Machine.WriteWord | cpu.cpp:166-169 | `readWord` at the address gives back the written word; addresses other than the two written are unchanged |
| Machine.FetchByte | cpu.cpp:134-138 | `fetchByte` returns the byte at PC and moves PC by one, wrapping at 0xFFFF |
| Machine.FetchWord | cpu.cpp:141-146 | `fetchWord` returns the word at PC and moves PC by two, wrapping |
| Machine.StackAddress | cpu.cpp:171-173 | `0x0100 OR SP` lies in page 0x01 and its low byte is SP |
| Machine.PushByte | cpu.cpp:171-173 | `pushByte` stores at the slot SP names, changes no other address and nothing outside page 0x01, and decrements SP mod 256 |
| Machine.PullByte | cpu.cpp:180-182 | `pullByte` increments SP mod 256 and returns the byte at the new slot; memory is untouched |
| Machine.PushWord | cpu.cpp:175-178 | `pushWord` puts the high byte at the slot SP names and the low byte one below, changes nothing else, and lowers SP by 2 |
| Machine.PullWord | cpu.cpp:184-188 | `pullWord` returns the word made of the bytes at SP + 1 (low) and SP + 2 (high) and raises SP by 2 |
| Machine.WithZN | cpu.cpp:193-196 | Z is set exactly when the byte is 0, N exactly when its bit 7 is set, and no other flag or register changes |
| Machine.SetStatus | cpu.cpp:218-226 | `setStatusReg` changes only the flags, keeps B, and the new status byte is the given byte with bit 5 set and bit 4 from the old B |
| Machine.ReadWordWraps | cpu.cpp:58-60 | a word read at 0xFFFF takes its high byte from 0x0000, and `fetchWord` at 0xFFFF leaves PC at 0x0001 |
| Machine.PushPullByte | cpu.cpp:171-182 | pulling right after a push returns the pushed byte and restores SP |
| Machine.PushPullWord | cpu.cpp:175-188 | pulling a word right after pushing it returns the word and restores SP |
| Machine.StackSlotsDistinct | cpu.cpp:171-178 | the slots SP, SP - 1 and SP - 2 are three different addresses |
| Machine.StatusRoundTrip | cpu.cpp:198-226 | `setStatusReg(getStatusReg())` leaves the state unchanged |
| Alu.AdcOverflow | cpu.cpp:361 | ADC's V expression as written: the two unsigned `< 0` disjuncts are always false, so V is exactly the sign-mismatch term `(sum ^ AC) & (sum ^ value) & 0x80` |
| Alu.AddWithCarry | cpu.cpp:355-364 | the result byte plus 256 for a set carry is the integer total `a + m + C`; V is set exactly when `a` and `m` agree in sign and the result's sign differs |
| Alu.SignMismatch | cpu.cpp:361 | the sign-mismatch term of V holds exactly when the operands share a sign the result lacks |
| Alu.SubtractWithBorrow | cpu.cpp:709-717 | the result is `a - m - (1 - C)` plus 256 exactly when the carry is clear, the carry is set exactly when `a >= m + (1 - C)`, and V is set exactly when `a` and `m` differ in sign and the result's sign differs from `a`'s |
| Alu.Compare | cpu.cpp:513-532 | the compare sets C exactly when register >= operand, Z exactly when they are equal, and N from bit 7 of the difference mod 256 |
| Alu.BitTest | cpu.cpp:422-428 | Z exactly when `a & m` is 0; N and V are bits 7 and 6 of the operand |
| Alu.ShiftLeft | cpu.cpp:372-385 | the result is the byte shifted left and the carry is its old bit 7 |
| Alu.ShiftRight | cpu.cpp:612-625 | the result is the byte shifted right and the carry is its old bit 0 |
| Alu.RotateLeft | cpu.cpp:664-679 | the result is the byte shifted left with the old carry in bit 0, and the carry is the old bit 7 |
| Alu.RotateRight | cpu.cpp:681-696 | the result is the byte shifted right with the old carry in bit 7, and the carry is the old bit 0 |
| Alu.NineBitTotal | cpu.cpp:358-360 | a byte sum plus carry fits in nine bits: its byte is the total mod 256 and the carry is its ninth bit |
| Alu.SignedNineBitTotal | cpu.cpp:712-713 | a byte difference minus borrow lies in -256..255 and its byte is the difference mod 256 |
| Alu.CompareCarryValue | cpu.cpp:515-517 | `(reg - m) mod 256 <= reg` holds exactly when `reg >= m` |
| Alu.CompareZeroValue | cpu.cpp:515-516 | the compare's byte is 0 exactly when `reg == m` |
| Alu.CompareSignValue | cpu.cpp:515-516 | the compare's byte has bit 7 set exactly when the difference mod 256 is at least 128 |
| Alu.AdcSignRule | cpu.cpp:361 | V of ADC is set exactly when both operands have the same sign and the result a different one |
| Alu.SbcSignRule | cpu.cpp:714 | V of SBC is set exactly when the operands differ in sign and the result differs in sign from AC |
| Alu.SignedSumRange | cpu.cpp:361 | the sign rule for a sum is the same as the signed total leaving -128..127 |
| Alu.SignedDifferenceRange | cpu.cpp:714 | the sign rule for a difference is the same as the signed difference leaving -128..127 |
| Alu.SumOverflowMeaning | cpu.cpp:355-364 | any sum that obeys ADC's result and sign rules has V exactly when the signed total leaves -128..127 |
| Alu.DifferenceOverflowMeaning | cpu.cpp:709-717 | any difference that obeys SBC's result and sign rules has V exactly when the signed difference leaves -128..127 |
| Alu.AdcSignedOverflow | cpu.cpp:355-364 | ADC sets V exactly when `signed(AC) + signed(m) + C` leaves -128..127 |
| Alu.SbcSignedOverflow | cpu.cpp:709-717 | SBC sets V exactly when `signed(AC) - signed(m) - (1 - C)` leaves -128..127 |
| Alu.ComplementOverflow | cpu.cpp:709-717 | SBC's V term equals ADC's V term with the complemented operand |
| Alu.SbcIsAdcOfComplement | cpu.cpp:709-717 | SBC gives the same result, carry and overflow as ADC of the complemented operand |
| Alu.ComplementResult | cpu.cpp:712 | SBC's difference and ADC's sum with `!m` store the same byte |
| Alu.ComplementCarry | cpu.cpp:713 | SBC's carry and ADC's carry with `!m` agree |
| Alu.ComplementSign | cpu.cpp:714 | SBC's sign rule and ADC's sign rule with `!m` agree |
| Alu.DifferenceByte | cpu.cpp:709-717 | a difference obeying SBC's rule with C set is `(reg - m) mod 256`, with carry exactly when `reg >= m` |
| Alu.FlagsOfDifference | cpu.cpp:513-532 | flags obeying the compare's rules are those of such a difference |
| Alu.CompareIsSubtraction | cpu.cpp:513-532 | CMP sets the same C, Z and N as SBC with C set would on the same operands |
| Alu.RotateRoundTrip | cpu.cpp:664-696 | ROR with the carry ROL produced undoes ROL, and ROL undoes ROR likewise |
| Alu.ShiftsAreRotatesOfZero | cpu.cpp:372-385 | ASL and LSR are ROL and ROR with a clear carry coming in |
| Alu.AdcExample | cpu.cpp:355-364 | 0x50 + 0x50 with C clear gives 0xA0, C clear and V set |
| Opcodes.Row0WellFormed | cpu.cpp:83 | every entry of opcodes 0x00..0x0F is the sentinel or names a handler below 65, a resolver below 16 or the implied mode, and 2..8 cycles, a branch handler only with the relative resolver |
| Opcodes.Row1WellFormed | cpu.cpp:84 | the same for opcodes 0x10..0x1F |
| Opcodes.Row2WellFormed | cpu.cpp:85 | the same for opcodes 0x20..0x2F |
| Opcodes.Row3WellFormed | cpu.cpp:86 | the same for opcodes 0x30..0x3F |
| Opcodes.Row4WellFormed | cpu.cpp:87 | the same for opcodes 0x40..0x4F |
| Opcodes.Row5WellFormed | cpu.cpp:88 | the same for opcodes 0x50..0x5F |
| Opcodes.Row6WellFormed | cpu.cpp:89 | the same for opcodes 0x60..0x6F |
| Opcodes.Row7WellFormed | cpu.cpp:90 | the same for opcodes 0x70..0x7F |
| Opcodes.Row8WellFormed | cpu.cpp:91 | the same for opcodes 0x80..0x8F |
| Opcodes.Row9WellFormed | cpu.cpp:92 | the same for opcodes 0x90..0x9F |
| Opcodes.RowAWellFormed | cpu.cpp:93 | the same for opcodes 0xA0..0xAF |
| Opcodes.RowBWellFormed | cpu.cpp:94 | the same for opcodes 0xB0..0xBF |
| Opcodes.RowCWellFormed | cpu.cpp:95 | the same for opcodes 0xC0..0xCF |
| Opcodes.RowDWellFormed | cpu.cpp:96 | the same for opcodes 0xD0..0xDF |
| Opcodes.RowEWellFormed | cpu.cpp:97 | the same for opcodes 0xE0..0xEF |
| Opcodes.RowFWellFormed | cpu.cpp:98 | the same for opcodes 0xF0..0xFF |
| Opcodes.TableWellFormed | cpu.cpp:83-98 | all 256 entries are well formed, so both dispatch arrays are indexed in bounds |
| Opcodes.Decode | cpu.cpp:870-886 | an opcode decodes as invalid exactly when its entry is the sentinel; a valid one has 2..8 base cycles and passes no address exactly when its mode field is 0x00 or 0xFE; a branch always decodes with the relative resolver |
| Opcodes.BranchPositions | cpu.cpp:846-862 | the eight branch handlers sit at positions 3, 4, 5, 7, 8, 9, 11 and 12 of the handler array, and no other position holds one |
| Opcodes.NoBranchIn | cpu.cpp:851-862 | the handler groups from position 20 on hold no branch |
| Opcodes.NeverResolvesAccumulator | cpu.cpp:229-231 | no opcode ever reaches the `accumulator` resolver, because mode 0x00 is caught before the resolver array |
| Opcodes.OnlyFirstResolverIsAccumulator | cpu.cpp:346-351 | index 0 of the resolver array, and only index 0, is the `accumulator` resolver |
| Modes.Accumulator | cpu.cpp:229-231 | the address is AC, no cycle is added and PC does not move |
| Modes.Absolute | cpu.cpp:233-235 | the address is the word at PC, no cycle is added, PC moves by 2 |
| Modes.PageCross | cpu.cpp:239 | the C test `(base & 0xFF) > 0xFF - index` holds exactly when `base + index` mod 65536 lies in another page than `base` |
| Modes.IndexedFrom | cpu.cpp:237-249 | the address is `base + index` mod 65536 and the extra cycle is 1 exactly when that address lies in another page than the base |
| Modes.Indexed | cpu.cpp:237-249 | the word at PC plus the index, with one extra cycle exactly on a page change, and PC moved by 2 |
| Modes.AbsoluteX | cpu.cpp:237-242 | the address is the word at PC plus X mod 65536, one extra cycle exactly when it lies in another page than the word, PC moved by 2 |
| Modes.AbsoluteY | cpu.cpp:244-249 | the same as `absoluteX` with Y |
| Modes.Immediate | cpu.cpp:251-253 | the address is PC itself, no cycle is added, PC moves by 1 |
| Modes.Indirect | cpu.cpp:255-260 | the address is the word stored at the word at PC, with no page wrap; PC moves by 2 |
| Modes.ZeroPageSum | cpu.cpp:291-299 | `(base + index) & 0xFF` is below 0x100 and equals `base + index` or `base + index - 0x100` |
| Modes.ZeroPageSlot | cpu.cpp:263 | the operand plus X, as a byte, is `(operand + X) & 0xFF` |
| Modes.XIndirect | cpu.cpp:262-269 | the pointer is `(operand + X) & 0xFF` and the address is the word whose low byte is at the pointer and whose high byte is at `(pointer + 1) & 0xFF`; both stay in page 0 |
| Modes.ZeroPagePointer | cpu.cpp:275-277 | the low byte of the zero-page word is at the slot and the high byte at `(slot + 1) & 0xFF` |
| Modes.IndirectY | cpu.cpp:271-280 | the address is the zero-page word at the operand plus Y mod 65536, one extra cycle exactly when that lies in another page than the word, PC moved by 1 |
| Modes.Relative | cpu.cpp:282-285 | the address is `PC + 1 + signed(offset)` mod 65536 for the PC before the offset byte; PC moves by 1 |
| Modes.RelativeWithinReach | cpu.cpp:282-285 | the address `relative` yields lies within 128 bytes back or 127 forward of the instruction after the offset byte, wrapping |
| Modes.OffsetWithinReach | cpu.cpp:283-284 | adding a signed offset in -128..127 to an address and truncating to a word stays within that reach |
| Modes.RelativeReaches | cpu.cpp:282-285 | conversely, every address within that reach is the target of some offset byte, so a branch reaches exactly those 256 addresses |
| Modes.PlacedOffset | cpu.cpp:282-285 | with the byte `o` stored at PC, `relative` yields `PC + 1 + signed(o)` mod 65536 |
| Modes.TwosComplement | cpu.cpp:283 | for every distance in -128..127 there is the byte the `(sbyte)` cast reads back as that distance |
| Modes.DistanceReaches | cpu.cpp:284 | moving from an address by the wrapped distance to a target lands on the target |
| Modes.ZeroPage | cpu.cpp:287-289 | the address is the operand byte, below 0x100; PC moves by 1 |
| Modes.ZeroPageX | cpu.cpp:291-294 | the address is `(operand + X) & 0xFF`; PC moves by 1 |
| Modes.ZeroPageY | cpu.cpp:296-299 | the address is `(operand + Y) & 0xFF`; PC moves by 1 |
| Modes.NextInPage | cpu.cpp:308-313 | the address after a pointer within its own page: `pointer + 1`, or `pointer - 0xFF` when the low byte is 0xFF; always the same page |
| Modes.PointerHigh | cpu.cpp:305-313 | the high byte `jmpIndirect` ends up with is the byte at the next address within the pointer's page |
| Modes.JmpIndirect | cpu.cpp:303-319 | the address is built from the byte at the pointer and the byte at the next address within the same page; PC moves by 2 |
| Modes.AbsoluteXStatic | cpu.cpp:321-325 | the same address and PC as `absoluteX`, and no extra cycle |
| Modes.AbsoluteYStatic | cpu.cpp:327-331 | the same address and PC as `absoluteY`, and no extra cycle |
| Modes.IndirectYStatic | cpu.cpp:333-341 | the same address and PC as `indirectY`, and no extra cycle |
| Modes.Resolve | cpu.cpp:346-351 | a resolver adds at most one cycle, and only `absoluteX`, `absoluteY` and `indirectY` ever add one |
| Modes.ResolveNoOperand | cpu.cpp:229-231 | a mode with no operand bytes leaves PC where it was |
| Modes.ResolveOneByteOperand | cpu.cpp:251-299 | every one-byte-operand mode leaves PC one past where it started |
| Modes.ResolveTwoByteOperand | cpu.cpp:233-331 | every two-byte-operand mode leaves PC two past where it started |
| Modes.AbsoluteXCrossesPage | cpu.cpp:237-242 | base 0x10FF plus X = 1 gives 0x1100 with one extra cycle; the static form gives 0x1100 with none |
| Modes.JmpIndirectPageWrap | cpu.cpp:303-319 | a jump through the pointer 0x02FF takes its high byte from 0x0200 |
| Modes.XIndirectPageWrap | cpu.cpp:262-269 | an `(ind,X)` pointer that lands on 0xFF takes its high byte from 0x00 |
| Handlers.WithSum | cpu.cpp:360-363 | AC, C and V come from the sum, Z and N from the result, and nothing else changes |
| Handlers.Adc | cpu.cpp:355-364 | AC plus 256 for the new C is `AC + m + C`; V is set exactly when the signed sum leaves -128..127; Z and N come from AC; nothing else changes |
| Handlers.Sbc | cpu.cpp:709-717 | AC is `AC - m - (1 - C)` plus 256 exactly when the new C is clear; C is set exactly when no borrow is needed; V exactly when the signed difference leaves -128..127; Z and N from AC; nothing else changes |
| Handlers.WithCompare | cpu.cpp:513-532 | C is set exactly when register >= operand, Z exactly when they are equal, N from bit 7 of the difference mod 256; no register changes |
| Handlers.Bit | cpu.cpp:422-428 | Z exactly when `AC & m` is 0, N and V are bits 7 and 6 of m, and AC and the other flags are kept |
| Handlers.PutShiftedStores | cpu.cpp:372-385 | a shift puts its result in AC for address 0 and in memory otherwise, with C from the shifted-out bit and Z, N from the result, and changes nothing else |
| Handlers.Branch | cpu.cpp:387-396 | not taken, nothing changes; taken, PC becomes the target with one extra cycle, two when the target lies in another page than PC |
| Handlers.Php | cpu.cpp:643-650 | PHP pushes the status with bit 4 set and leaves B itself as it was |
| Handlers.Jsr | cpu.cpp:587-591 | JSR jumps to the address and leaves `PC - 1` in the two stack slots below the old SP, SP lowered by 2; flags, A, X, Y and every other byte of memory are unchanged |
| Handlers.Rts | cpu.cpp:704-707 | RTS continues one past the pulled word and raises SP by 2, changing nothing else |
| Handlers.Rti | cpu.cpp:698-702 | RTI takes the flags from the pulled status (B kept) and PC from the next two stack bytes, raising SP by 3 |
| Handlers.PushFrame | cpu.cpp:465-466 | the frame holds the return word's high byte, then its low byte, then the status, SP drops by 3, and no byte other than those three slots changes |
| Handlers.Brk | cpu.cpp:463-469 | BRK continues at the word in 0xFFFE/0xFFFF, lowers SP by 3, sets I, changes no other flag or register and no byte of memory other than the three stack slots below the old SP |
| Handlers.FrameKept | cpu.cpp:465-466 | a frame pushed from a state with the same SP and memory leaves every byte outside the three slots as it was |
| Handlers.BrkReturnAddress | cpu.cpp:465 | BRK leaves PC + 2 in the two stack slots below the old SP |
| Handlers.BrkPushedStatus | cpu.cpp:466 | BRK pushes the status with I set and B as it was, not forced to 1 |
| Handlers.Exec | cpu.cpp:845-862 | running a handler adds at most two cycles, and only the branch handlers add any |
| HandlerFacts.DcpIsDecThenCmp | cpu.cpp:786-790 | DCP ends in the state of DEC followed by CMP on the same address |
| HandlerFacts.IsbIsIncThenSbc | cpu.cpp:792-796 | ISB ends in the state of INC followed by SBC on the same address |
| HandlerFacts.WithSumOverwritesZN | cpu.cpp:355-364 | storing a sum does not depend on the Z and N held before |
| HandlerFacts.LaxIsLdaThenLdx | cpu.cpp:798-802 | LAX ends in the state of LDA followed by LDX on the same address |
| HandlerFacts.RlaIsRolThenAnd | cpu.cpp:804-808 | RLA ends in the state of ROL followed by AND on the same address, address 0 included |
| HandlerFacts.RraIsRorThenAdc | cpu.cpp:810-814 | RRA ends in the state of ROR followed by ADC on the same address |
| HandlerFacts.SloIsAslThenOra | cpu.cpp:821-825 | SLO ends in the state of ASL followed by ORA on the same address |
| HandlerFacts.SreIsLsrThenEor | cpu.cpp:827-831 | SRE ends in the state of LSR followed by EOR on the same address |
| HandlerFacts.AndAfterShift | cpu.cpp:804-808 | AND after a shift replaces the Z and N the shift set, keeping its C |
| HandlerFacts.OraAfterShift | cpu.cpp:821-825 | ORA after a shift replaces the Z and N the shift set, keeping its C |
| HandlerFacts.EorAfterShift | cpu.cpp:827-831 | EOR after a shift replaces the Z and N the shift set, keeping its C |
| HandlerFacts.AdcAfterShift | cpu.cpp:810-814 | ADC after a shift adds with the carry the shift left and replaces its Z and N |
| HandlerFacts.AdcReplacesZN | cpu.cpp:355-364 | ADC reads neither Z nor N |
| HandlerFacts.SaxStoresOnly | cpu.cpp:816-819 | SAX writes `AC & X` at the address, changes no other address, and changes no register or flag |
| HandlerFacts.UsbcIsSbc | cpu.cpp:833-836 | USBC ends in the same state as SBC |
| HandlerFacts.ShiftAtZeroUsesAccumulator | cpu.cpp:374 | with address 0 the four shifts and rotates work on AC and leave memory, 0x0000 included, alone |
| HandlerFacts.ShiftElsewhereUsesMemory | cpu.cpp:379-384 | at any other address ASL and ROR work on memory and leave AC alone |
| HandlerFacts.AdcIgnoresDecimal | cpu.cpp:355-364 | ADC gives the same result whatever D holds, and keeps D |
| HandlerFacts.SbcIgnoresDecimal | cpu.cpp:709-717 | SBC gives the same result whatever D holds, and keeps D |
| HandlerFacts.WithSumIgnoresDecimal | cpu.cpp:360-363 | storing a sum neither reads nor writes D |
| HandlerFacts.PhaThenPla | cpu.cpp:638-656 | PLA right after PHA gets AC back, with Z and N from it, and restores SP |
| HandlerFacts.PhpThenPlp | cpu.cpp:643-662 | PLP right after PHP restores every flag and SP |
| HandlerFacts.JsrThenRts | cpu.cpp:587-591 | RTS right after JSR returns to the PC before JSR and restores SP |
| HandlerFacts.RtsAfterJsrPc | cpu.cpp:704-707 | RTS adds one to the `PC - 1` JSR pushed, giving back the PC before JSR |
| HandlerFacts.JsrPushesReturn | cpu.cpp:587-591 | the word on top of the stack after JSR is `PC - 1` |
| HandlerFacts.BrkThenRti | cpu.cpp:463-469 | RTI right after BRK restores SP and every flag except I, which stays set, and resumes at PC + 2 |
| HandlerFacts.RtiAfterBrkSp | cpu.cpp:698-702 | RTI after BRK restores SP |
| HandlerFacts.RtiAfterBrkFlags | cpu.cpp:698-702 | RTI after BRK restores the flags, with I set |
| HandlerFacts.RtiAfterBrkPc | cpu.cpp:698-702 | RTI after BRK resumes at PC + 2 |
| Engine.Step | cpu.cpp:866-897 | `step` returns 0 exactly for an invalid opcode, which then only moves PC by one; a valid one returns between 2 and its base cycles + 2 |
| Engine.Dispatch | cpu.cpp:874-896 | an invalid entry changes nothing and counts 0; a valid one counts between 2 and its base cycles + 3, and at most base + 2 when branches come with the relative resolver, as every table entry does |
| Engine.Reset | cpu.cpp:122-129 | PC comes from the vector at 0xFFFC/0xFFFD, SP is 0xFD, AC, X and Y are 0, only I is set, and every byte of memory is 0 afterwards |
| Engine.ResetStatus | cpu.cpp:122-129 | the status byte after reset is 0x24 |
| Engine.ResetTwice | cpu.cpp:122-129 | a second reset starts at 0x0000, because the first one cleared the vector |
| Engine.StepResolved | cpu.cpp:866-897 | for a decoded opcode with a resolver, `step` runs the handler at the resolved address with PC past the operand and counts base + resolver + handler cycles |
| Engine.StepImplied | cpu.cpp:875-880 | for a decoded opcode without an operand, `step` runs the handler with address 0 and counts base + handler cycles |
| Engine.RelativeStep | cpu.cpp:866-897 | a relative-mode opcode of 2 base cycles runs its handler at `PC + 2 + signed(offset)` with PC + 2 |
| Engine.RelativeOperand | cpu.cpp:282-285 | the relative resolver run after the opcode fetch yields `PC + 2 + signed(offset)` and leaves PC at PC + 2 |
| Engine.BranchDecodes | cpu.cpp:387-491 | each branch opcode decodes to the relative mode with 2 base cycles and a handler that branches exactly when its condition holds |
| Engine.BranchOnNegative | cpu.cpp:430-461 | BPL (0x10) and BMI (0x30) decode as branches on N clear and N set |
| Engine.BranchOnOverflow | cpu.cpp:471-491 | BVC (0x50) and BVS (0x70) decode as branches on V clear and V set |
| Engine.BranchOnCarry | cpu.cpp:387-407 | BCC (0x90) and BCS (0xB0) decode as branches on C clear and C set |
| Engine.BranchOnZero | cpu.cpp:409-450 | BNE (0xD0) and BEQ (0xF0) decode as branches on Z clear and Z set |
| Engine.BranchStep | cpu.cpp:387-491 | a whole branch step: not taken, PC moves by 2 in 2 cycles, flags and memory unchanged; taken, PC becomes `PC + 2 + signed(offset)` in 3 cycles, 4 when that lies in another page |
| Engine.ImmediateOperand | cpu.cpp:251-253 | the immediate operand is the byte after the opcode and PC ends two past the opcode |
| Engine.LoadImmediateZero | cpu.cpp:593-598 | `LDA #$00` sets AC to 0, Z set, N clear, PC + 2, in 2 cycles |
| Engine.AddImmediateOverflow | cpu.cpp:355-364 | `ADC #$50` with AC = 0x50 and C clear gives AC = 0xA0 with N and V set and Z, C clear, in 2 cycles |
| Engine.InvalidOpcode | cpu.cpp:881-884 | the unassigned opcode 0x02 only moves PC by one and takes 0 cycles |
| Cpu.Memory.constructor | cpu.cpp:17 | a new memory has 65536 bytes, all 0 |
| Cpu.Memory.Set | cpu.cpp:58-60 | writing through `operator[]` changes exactly the byte at the address |
| Cpu.Memory.Init | cpu.cpp:19-23 | the loop leaves every byte 0 |
| Cpu.CPU.constructor | cpu.cpp:63-76 | a new CPU has every register 0 and every flag clear |
| Cpu.CPU.FetchByte | cpu.cpp:134-138 | returns the byte at PC and the new state is `Machine.FetchByte` of the old: PC + 1, wrapping |
| Cpu.CPU.FetchWord | cpu.cpp:141-146 | returns the word at PC and the new state is PC + 2, wrapping |
| Cpu.CPU.ReadByte | cpu.cpp:149-151 | returns the byte at the address |
| Cpu.CPU.WriteByte | cpu.cpp:154-156 | the new state is `Machine.Write` of the old: only the byte at the address changes |
| Cpu.CPU.ReadWord | cpu.cpp:159-163 | returns the word with its low byte at the address and its high byte after it, wrapping |
| Cpu.CPU.WriteWord | cpu.cpp:166-169 | the new state is `Machine.WriteWord` of the old |
| Cpu.CPU.PushByte | cpu.cpp:171-173 | the new state is `Machine.PushByte` of the old |
| Cpu.CPU.PushWord | cpu.cpp:175-178 | the new state is `Machine.PushWord` of the old |
| Cpu.CPU.PullByte | cpu.cpp:180-182 | returns the byte and leaves the state `Machine.PullByte` gives |
| Cpu.CPU.PullWord | cpu.cpp:184-188 | returns the word and leaves the state `Machine.PullWord` gives |
| Cpu.CPU.UpdateZNFlags | cpu.cpp:193-196 | the new state is `Machine.WithZN` of the old |
| Cpu.CPU.GetStatusReg | cpu.cpp:198-216 | the byte built by the eight shift-and-add steps is `Status.Pack` of the flags |
| Cpu.CPU.SetStatusReg | cpu.cpp:218-226 | the new state is `Machine.SetStatus` of the old |
| Cpu.CPU.Reset | cpu.cpp:122-129 | the new state is `Engine.Reset` of the old |
| Cpu.CPU.Accumulator | cpu.cpp:229-231 | the address is the one `Modes.Accumulator` yields |
| Cpu.CPU.Absolute | cpu.cpp:233-235 | address and new PC are those of `Modes.Absolute`; nothing else changes |
| Cpu.CPU.AbsoluteX | cpu.cpp:237-242 | address, added cycle and new PC are those of `Modes.AbsoluteX` |
| Cpu.CPU.AbsoluteY | cpu.cpp:244-249 | address, added cycle and new PC are those of `Modes.AbsoluteY` |
| Cpu.CPU.Immediate | cpu.cpp:251-253 | address and new PC are those of `Modes.Immediate` |
| Cpu.CPU.Indirect | cpu.cpp:255-260 | address and new PC are those of `Modes.Indirect` |
| Cpu.CPU.XIndirect | cpu.cpp:262-269 | address and new PC are those of `Modes.XIndirect` |
| Cpu.CPU.IndirectY | cpu.cpp:271-280 | address, added cycle and new PC are those of `Modes.IndirectY` |
| Cpu.CPU.PointerCrossing | cpu.cpp:273 | the cycle test reads the low byte of `readWord` at the pointer and adds one exactly when it plus Y exceeds 0xFF |
| Cpu.CPU.Relative | cpu.cpp:282-285 | address and new PC are those of `Modes.Relative` |
| Cpu.CPU.ZeroPage | cpu.cpp:287-289 | address and new PC are those of `Modes.ZeroPage` |
| Cpu.CPU.ZeroPageX | cpu.cpp:291-294 | address and new PC are those of `Modes.ZeroPageX` |
| Cpu.CPU.ZeroPageY | cpu.cpp:296-299 | address and new PC are those of `Modes.ZeroPageY` |
| Cpu.CPU.JmpIndirect | cpu.cpp:303-319 | address and new PC are those of `Modes.JmpIndirect` |
| Cpu.CPU.AbsoluteXStatic | cpu.cpp:321-325 | address and new PC are those of `Modes.AbsoluteXStatic` |
| Cpu.CPU.AbsoluteYStatic | cpu.cpp:327-331 | address and new PC are those of `Modes.AbsoluteYStatic` |
| Cpu.CPU.IndirectYStatic | cpu.cpp:333-341 | address and new PC are those of `Modes.IndirectYStatic` |
| Cpu.CPU.ZeroPageWord | cpu.cpp:336-338 | the two reads give the zero-page word `Modes.ZeroPagePointer` names |
| Cpu.CPU.Resolve | cpu.cpp:346-351 | address, added cycle and new PC are those of `Modes.Resolve` for the mode |
| Cpu.CPU.Lda | cpu.cpp:593-598 | the new state is `Handlers.Lda` of the old: AC from memory, Z and N from it |
| Cpu.CPU.Ldx | cpu.cpp:600-604 | the new state is `Handlers.Ldx` of the old |
| Cpu.CPU.Ldy | cpu.cpp:606-610 | the new state is `Handlers.Ldy` of the old |
| Cpu.CPU.Sta | cpu.cpp:734-737 | the new state is `Handlers.Sta` of the old: AC written at the address |
| Cpu.CPU.Stx | cpu.cpp:739-742 | the new state is `Handlers.Stx` of the old |
| Cpu.CPU.Sty | cpu.cpp:744-747 | the new state is `Handlers.Sty` of the old |
| Cpu.CPU.Tax | cpu.cpp:749-753 | the new state is `Handlers.Tax` of the old: X := AC with Z and N |
| Cpu.CPU.Tay | cpu.cpp:755-759 | the new state is `Handlers.Tay` of the old |
| Cpu.CPU.Tsx | cpu.cpp:761-765 | the new state is `Handlers.Tsx` of the old |
| Cpu.CPU.Txa | cpu.cpp:767-771 | the new state is `Handlers.Txa` of the old |
| Cpu.CPU.Txs | cpu.cpp:773-776 | the new state is `Handlers.Txs` of the old: SP := X, flags untouched |
| Cpu.CPU.Tya | cpu.cpp:778-782 | the new state is `Handlers.Tya` of the old |
| Cpu.CPU.Inx | cpu.cpp:569-573 | the new state is `Handlers.Inx` of the old: X + 1 mod 256 with Z and N |
| Cpu.CPU.Iny | cpu.cpp:575-579 | the new state is `Handlers.Iny` of the old |
| Cpu.CPU.Dex | cpu.cpp:542-546 | the new state is `Handlers.Dex` of the old |
| Cpu.CPU.Dey | cpu.cpp:548-552 | the new state is `Handlers.Dey` of the old |
| Cpu.CPU.Inc | cpu.cpp:561-567 | the new state is `Handlers.Inc` of the old: the byte plus one written back, Z and N from it |
| Cpu.CPU.Dec | cpu.cpp:534-540 | the new state is `Handlers.Dec` of the old |
| Cpu.CPU.And | cpu.cpp:366-370 | the new state is `Handlers.And` of the old |
| Cpu.CPU.Ora | cpu.cpp:631-636 | the new state is `Handlers.Ora` of the old |
| Cpu.CPU.Eor | cpu.cpp:554-559 | the new state is `Handlers.Eor` of the old |
| Cpu.CPU.Adc | cpu.cpp:355-364 | the new state is `Handlers.Adc` of the old, whose contract gives the nine-bit sum and the signed overflow |
| Cpu.CPU.Sbc | cpu.cpp:709-717 | the new state is `Handlers.Sbc` of the old, whose contract gives the borrow and the signed overflow |
| Cpu.CPU.CompareWith | cpu.cpp:513-518 | the new state is `Handlers.WithCompare` of the old for the register and the byte at the address |
| Cpu.CPU.Cmp | cpu.cpp:513-518 | the new state is `Handlers.Cmp` of the old |
| Cpu.CPU.Cpx | cpu.cpp:520-525 | the new state is `Handlers.Cpx` of the old |
| Cpu.CPU.Cpy | cpu.cpp:527-532 | the new state is `Handlers.Cpy` of the old |
| Cpu.CPU.Bit | cpu.cpp:422-428 | the new state is `Handlers.Bit` of the old |
| Cpu.CPU.Asl | cpu.cpp:372-385 | the new state is `Handlers.Asl` of the old, on AC for address 0 and on memory otherwise |
| Cpu.CPU.Lsr | cpu.cpp:612-625 | the new state is `Handlers.Lsr` of the old |
| Cpu.CPU.Rol | cpu.cpp:664-679 | the new state is `Handlers.Rol` of the old |
| Cpu.CPU.Ror | cpu.cpp:681-696 | the new state is `Handlers.Ror` of the old |
| Cpu.CPU.Branch | cpu.cpp:387-396 | the new state and cycle count are those of `Handlers.Branch`: one cycle when taken, one more across a page, PC := target |
| Cpu.CPU.Bcc | cpu.cpp:387-396 | new state and cycles are those of `Handlers.Bcc`: taken when C is clear |
| Cpu.CPU.Bcs | cpu.cpp:398-407 | new state and cycles are those of `Handlers.Bcs`: taken when C is set |
| Cpu.CPU.Beq | cpu.cpp:409-420 | new state and cycles are those of `Handlers.Beq`: taken when Z is set |
| Cpu.CPU.Bmi | cpu.cpp:430-439 | new state and cycles are those of `Handlers.Bmi`: taken when N is set |
| Cpu.CPU.Bne | cpu.cpp:441-450 | new state and cycles are those of `Handlers.Bne`: taken when Z is clear |
| Cpu.CPU.Bpl | cpu.cpp:452-461 | new state and cycles are those of `Handlers.Bpl`: taken when N is clear |
| Cpu.CPU.Bvc | cpu.cpp:471-480 | new state and cycles are those of `Handlers.Bvc`: taken when V is clear |
| Cpu.CPU.Bvs | cpu.cpp:482-491 | new state and cycles are those of `Handlers.Bvs`: taken when V is set |
| Cpu.CPU.Clc | cpu.cpp:493-496 | the new state is `Handlers.Clc` of the old: only C cleared |
| Cpu.CPU.Cld | cpu.cpp:498-501 | the new state is `Handlers.Cld` of the old: only D cleared |
| Cpu.CPU.Cli | cpu.cpp:503-506 | the new state is `Handlers.Cli` of the old: only I cleared |
| Cpu.CPU.Clv | cpu.cpp:508-511 | the new state is `Handlers.Clv` of the old: only V cleared |
| Cpu.CPU.Sec | cpu.cpp:719-722 | the new state is `Handlers.Sec` of the old: only C set |
| Cpu.CPU.Sed | cpu.cpp:724-727 | the new state is `Handlers.Sed` of the old: only D set |
| Cpu.CPU.Sei | cpu.cpp:729-732 | the new state is `Handlers.Sei` of the old: only I set |
| Cpu.CPU.Pha | cpu.cpp:638-641 | the new state is `Handlers.Pha` of the old: AC pushed |
| Cpu.CPU.Php | cpu.cpp:643-650 | the new state is `Handlers.Php` of the old: status pushed with bit 4 set, B restored |
| Cpu.CPU.Pla | cpu.cpp:652-656 | the new state is `Handlers.Pla` of the old |
| Cpu.CPU.Plp | cpu.cpp:658-662 | the new state is `Handlers.Plp` of the old |
| Cpu.CPU.Jmp | cpu.cpp:581-585 | the new state is `Handlers.Jmp` of the old: PC := address |
| Cpu.CPU.Jsr | cpu.cpp:587-591 | the new state is `Handlers.Jsr` of the old |
| Cpu.CPU.Rts | cpu.cpp:704-707 | the new state is `Handlers.Rts` of the old |
| Cpu.CPU.Rti | cpu.cpp:698-702 | the new state is `Handlers.Rti` of the old |
| Cpu.CPU.Brk | cpu.cpp:463-469 | the new state is `Handlers.Brk` of the old |
| Cpu.CPU.Nop | cpu.cpp:627-629 | the state is `Handlers.Nop` of itself: nothing changes |
| Cpu.CPU.Dcp | cpu.cpp:786-790 | the new state is `Handlers.Dcp` of the old |
| Cpu.CPU.Isb | cpu.cpp:792-796 | the new state is `Handlers.Isb` of the old |
| Cpu.CPU.Lax | cpu.cpp:798-802 | the new state is `Handlers.Lax` of the old |
| Cpu.CPU.Rla | cpu.cpp:804-808 | the new state is `Handlers.Rla` of the old |
| Cpu.CPU.Rra | cpu.cpp:810-814 | the new state is `Handlers.Rra` of the old |
| Cpu.CPU.Sax | cpu.cpp:816-819 | the new state is `Handlers.Sax` of the old |
| Cpu.CPU.Slo | cpu.cpp:821-825 | the new state is `Handlers.Slo` of the old |
| Cpu.CPU.Sre | cpu.cpp:827-831 | the new state is `Handlers.Sre` of the old |
| Cpu.CPU.Usbc | cpu.cpp:833-836 | the new state is `Handlers.Usbc` of the old |
| Cpu.CPU.Execute | cpu.cpp:888-889 | new state and cycle count are those of `Handlers.Exec` for the instruction |
| Cpu.CPU.ExecuteBranch | cpu.cpp:845-862 | new state and cycles are those of `Handlers.ExecBranch` |
| Cpu.CPU.ExecuteLoadStore | cpu.cpp:845-862 | the new state is `Handlers.ExecLoadStore` of the old |
| Cpu.CPU.ExecuteRegister | cpu.cpp:845-862 | the new state is `Handlers.ExecRegister` of the old |
| Cpu.CPU.ExecuteArithmetic | cpu.cpp:845-862 | the new state is `Handlers.ExecArithmetic` of the old |
| Cpu.CPU.ExecuteShift | cpu.cpp:845-862 | the new state is `Handlers.ExecShift` of the old |
| Cpu.CPU.ExecuteFlag | cpu.cpp:845-862 | the new state is `Handlers.ExecFlag` of the old |
| Cpu.CPU.ExecuteControl | cpu.cpp:845-862 | the new state is `Handlers.ExecControl` of the old |
| Cpu.CPU.ExecuteIllegal | cpu.cpp:845-862 | the new state is `Handlers.ExecIllegal` of the old |
| Cpu.CPU.Step | cpu.cpp:866-897 | new state and returned cycles are those of `Engine.Step`, so everything proved about `Engine.Step` holds for the object |
| Cpu.JsrFrame | cpu.cpp:587-591 | the JSR method's staged state (return word pushed) ends, after the jump, where `Handlers.Jsr` does |
| Cpu.BrkFrame | cpu.cpp:463-469 | the three staged states of the BRK method (I set, return word pushed, status pushed) end where `Handlers.Brk` does |

## Left out

- `Memory::loadROM` (file reading, the iNES header skip and ROM mirroring) is I/O. The memory's contents are inputs to the model instead.
- `dumpMem`, `dumpReg`, `briefStatus` and every `printf` trace are console output only.
- `main` is left out. It is the run loop with a fixed cycle budget and platform calls, not part of the engine.
- The extra 65537th byte of the memory array is left out. No `word` index can reach it, so the model has exactly 65536 bytes.
- Decimal-mode (BCD) arithmetic is left out because the source has none. D is stored, set and cleared, and the model proves that ADC and SBC ignore it.
- Hardware interrupts (NMI, IRQ) are left out; BRK is the only interrupt the source has. Bus timing beyond the returned cycle count is also left out.
- `Cpu.CPU.constructor`: the source leaves the registers and flags unset until `reset`. The model starts them at 0 and clear, because Dafny fields need a value.
- The seven flag bit-fields are one `Flags` record field of the `CPU` class rather than seven fields. Each flag is still a separate named boolean.
- The member-function-pointer arrays `addrPointers` and `insPointers` become the `Mode` and `Instr` datatypes with pattern matching. Their index bounds are proved as `Opcodes.TableWellFormed`.
