# KIM-1 emulator core in Dafny

This project models the heart of a KIM-1 emulator that runs on a microcontroller, in two parts.

**The 6502 interpreter of `fake6502.c`.**
* The register file: `pc`, `sp`, `a`, `x`, `y` and `status`.
* The addressing macros and the flag macros.
* Every instruction handler, the 256-entry dispatch table, `reset6502`, `irq6502`, `nmi6502`, `step6502` and `exec6502`.

The build has `UNDOCUMENTED` and `NES_CPU` defined. So:
* the table holds the undocumented opcodes;
* ADC and SBC never look at the Decimal flag.

**The host side of `main.c`.**
* The memory map behind `read6502` and `write6502`.
* The register file and interval timer of the 6530-003 RIOT: `riot003read`, `riot003write`, `init_timer`, `reset_timer` and `update_timer`.
* The paper-tape loader: `read_paper_tape_line`, `paper_tape_read_byte`, `paper_tape_read_word` and the record check of `paper_tape_receive`.

Each part has a pure specification, and code that updates state in place is proved against it.

* `Machine` (machine.dfy) is the interpreter as a function on machine states. The state is the registers plus 64 KiB of memory. It covers one handler per table cell, `Step` and `Run`.
* `Processor.Cpu` (cpu.dfy) is the interpreter as fake6502.c runs it. It has global registers updated in place and a memory array. Every method ensures `Snapshot() == <the Machine function>(old(Snapshot()))`.
* `Alu` and `Flags` hold the arithmetic and the flag macros as functions, each followed by lemmas that state what it computes.
* `Isa` holds the opcode table, `Isa.Decode`. It is transcribed cell by cell from the table in fake6502.c. Where a handler's comment disagrees with the table, the table decides.
* `AddressingFacts`, `StackFacts`, `HandlerFacts` and `ExecuteFacts` state what the modes, the stack, the handlers and whole instructions do. They cover:
  * round trips such as push/pull, JSR/RTS, BRK/RTI and IRQ/RTI;
  * what each handler leaves unchanged;
  * the page-wrap defects.
* `RiotTimer` holds the timer record and the `Timer` class. `Riot003` holds the register file and the `Riot` class.
* `Kim1` holds the address decode and the bus state as values, plus the `Bus` class with the arrays main.c declares.
* `PaperTape` holds the tape loader:
  * the line filter and the field readers;
  * the record check;
  * a tape writer's encoding, with round-trip lemmas;
  * the `Tape` class, whose line buffer is an array and whose methods are proved against the pure functions.

Integers follow the C types.
* The interpreter's registers are `bv8` and `bv16`.
* The host side uses integer ranges: `Address`, `u8` and `u32`.
* `uint32_t` arithmetic goes through an explicit reduction modulo 2^32.
* The signed `int32_t` timer count is kept as its 32-bit pattern. C compares it unsigned against the tick count, and so does the model.

fake6502.c's header comment (lines 21-37) describes two build options: NES_CPU drops the decimal-mode (BCD) correction of ADC and SBC (the `#ifndef NES_CPU` blocks from line 253 on), and leaving UNDOCUMENTED undefined turns the undocumented opcodes into no-ops. The code as built has both options set:
* NES_CPU skips the BCD path, so ADC of 0x09 and 0x01 with D set gives 0x0A (`Alu.AdcValueIgnoresDecimal`);
* UNDOCUMENTED selects the full table.

The model follows the code.

The undocumented handlers are modelled as written:
* SLO, RLA, SRE, RRA and ISB compute their shifted or incremented byte and do not store it;
* RRA adds the un-rotated operand;
* ISB subtracts the un-incremented one;
* DCP compares A with the byte as it was before the decrement.

## Model

| member | source | states |
|---|---|---|
| Flags.ZeroCalc | Core/Src/fake6502.c:147-150 | zerocalc; ZeroCalcFlag states the Z bit it sets and that the other bits are kept |
| Flags.SignCalc | Core/Src/fake6502.c:152-155 | signcalc; SignCalcFlag states the N bit it sets and that the other bits are kept |
| Flags.CarryCalc | Core/Src/fake6502.c:157-160 | carrycalc; CarryCalcFlag states the C bit it sets and that the other bits are kept |
| Flags.OverflowCalc | Core/Src/fake6502.c:162-165 | overflowcalc; OverflowCalcFlag states the V bit as the signed-overflow test and that the other bits are kept |
| Flags.PutOneFlag | Core/Src/fake6502.c:132-143 | a set or clear macro gives its flag the chosen value and changes no other status bit |
| Flags.ZeroCalcFlag | Core/Src/fake6502.c:147-150 | zerocalc sets Z iff the low byte of the intermediate is zero; no other bit changes |
| Flags.SignCalcFlag | Core/Src/fake6502.c:152-155 | signcalc sets N iff bit 7 of the intermediate is set; no other bit changes |
| Flags.CarryCalcFlag | Core/Src/fake6502.c:157-160 | carrycalc sets C iff the intermediate does not fit in eight bits; no other bit changes |
| Flags.OverflowCalcFlag | Core/Src/fake6502.c:162-165 | overflowcalc sets V iff accumulator and operand share a sign that the result does not; no other bit changes |
| Flags.ZeroSignOfValue | Core/Src/fake6502.c:1119-1126 | a load or transfer sets Z iff the value is zero and N iff it is negative, keeping the other six bits |
| Alu.CarryIn | Core/Src/fake6502.c:324-349 | the carry the add handlers take from `status & FLAG_CARRY` is 0 or 1, and 1 exactly when C is set |
| Alu.AddStatusFlags | Core/Src/fake6502.c:324-349 | the ADC flag sequence sets C, Z, N and V from the sum as the four macros define them and keeps I, D, B and bit 5 |
| Alu.NzStatusFlags | Core/Src/fake6502.c:492-501 | zerocalc then signcalc set Z and N from the intermediate and keep the other six bits |
| Alu.NzcStatusFlags | Core/Src/fake6502.c:547-556 | carrycalc, zerocalc and signcalc set C, Z and N from the intermediate and keep the other five bits |
| Alu.Adc | Core/Src/fake6502.c:324-349 | adc; AdcSum, AdcCarry, AdcZeroSign, AdcOverflow and AdcKeepsOtherFlags state its byte and every flag |
| Alu.AdcSum | Core/Src/fake6502.c:324-349 | ADC stores A + operand + C modulo 256 |
| Alu.AdcCarry | Core/Src/fake6502.c:324-349 | ADC sets C iff A + operand + C exceeds 0xFF |
| Alu.AdcZeroSign | Core/Src/fake6502.c:324-349 | ADC sets Z and N from the stored byte |
| Alu.AdcOverflow | Core/Src/fake6502.c:324-349 | ADC sets V iff both operands have one sign and the stored byte the other |
| Alu.AdcKeepsOtherFlags | Core/Src/fake6502.c:324-349 | ADC leaves I, D, B and bit 5 as they were |
| Alu.AdcSignedOverflowExample | Core/Src/fake6502.c:324-349 | 0x50 + 0x50 with C clear stores 0xA0 with V and N set and C clear |
| Alu.Sbc | Core/Src/fake6502.c:1673-1699 | sbc; SbcDifference, SbcCarry, SbcZeroSign, SbcOverflow and SbcKeepsOtherFlags state its byte as a subtraction with borrow and every flag |
| Alu.SbcDifference | Core/Src/fake6502.c:1673-1699 | SBC stores A - operand - (1 - C) modulo 256 |
| Alu.SbcCarry | Core/Src/fake6502.c:1673-1699 | SBC sets C iff no borrow occurs: A >= operand + (1 - C) |
| Alu.SbcZeroSign | Core/Src/fake6502.c:1673-1699 | SBC sets Z and N from the stored byte |
| Alu.SbcOverflow | Core/Src/fake6502.c:1673-1699 | SBC sets V iff A and the operand differ in sign and the result's sign differs from A's |
| Alu.SbcKeepsOtherFlags | Core/Src/fake6502.c:1673-1699 | SBC leaves I, D, B and bit 5 as they were |
| Alu.AdcValueIgnoresDecimal | Core/Src/fake6502.c:324-349 | with NES_CPU the stored sum does not depend on D |
| Alu.AdcFlagsIgnoreDecimal | Core/Src/fake6502.c:324-349 | with NES_CPU the flags ADC sets do not depend on D, which passes through |
| Alu.SbcValueIgnoresDecimal | Core/Src/fake6502.c:1673-1699 | with NES_CPU the stored difference does not depend on D |
| Alu.SbcFlagsIgnoreDecimal | Core/Src/fake6502.c:1673-1699 | with NES_CPU the flags SBC sets do not depend on D |
| Alu.Compare | Core/Src/fake6502.c:740-750 | cmp, cpx and cpy; CompareFlags states C, Z and N, and the CompareXIsSubtraction lemmas tie them to SBC with C set |
| Alu.CompareFlags | Core/Src/fake6502.c:740-750 | a compare sets C iff reg >= operand, Z iff they are equal and N from bit 7 of reg - operand, and keeps V, I, D, B and bit 5 |
| Alu.CompareCarryIsSubtraction | Core/Src/fake6502.c:740-750 | the carry of a compare is the carry of SBC with C set |
| Alu.CompareZeroIsSubtraction | Core/Src/fake6502.c:740-750 | the zero flag of a compare is that of SBC with C set |
| Alu.CompareSignIsSubtraction | Core/Src/fake6502.c:740-750 | the sign flag of a compare is that of SBC with C set |
| Alu.And | Core/Src/fake6502.c:492-501 | the and handler; AndResult states its byte and flags |
| Alu.AndResult | Core/Src/fake6502.c:492-501 | AND stores A & operand with Z and N from it, the rest kept |
| Alu.Ora | Core/Src/fake6502.c:1385-1394 | the ora handler; OraResult states its byte and flags |
| Alu.OraResult | Core/Src/fake6502.c:1385-1394 | ORA stores A and operand or-ed with Z and N from it, the rest kept |
| Alu.Eor | Core/Src/fake6502.c:963-972 | the eor handler; EorResult states its byte and flags |
| Alu.EorResult | Core/Src/fake6502.c:963-972 | EOR stores A ^ operand with Z and N from it, the rest kept |
| Alu.Bit | Core/Src/fake6502.c:636-643 | the bit handler; BitFlags states Z, N and V |
| Alu.BitFlags | Core/Src/fake6502.c:636-643 | BIT sets Z iff A & operand is zero, copies bits 7 and 6 of the operand into N and V, keeps the rest |
| Alu.Asl | Core/Src/fake6502.c:547-556 | the asl handler; AslResult states its byte, carry and flags |
| Alu.AslResult | Core/Src/fake6502.c:547-556 | ASL stores the operand shifted left, C from bit 7, Z and N from the byte |
| Alu.Lsr | Core/Src/fake6502.c:1280-1289 | the lsr handler; LsrResult states its byte, carry and flags |
| Alu.LsrResult | Core/Src/fake6502.c:1280-1289 | LSR stores the operand shifted right, C from bit 0, N clear |
| Alu.Rol | Core/Src/fake6502.c:1459-1467 | the rol handler; RolResult, RolCarry and RolZeroSign state its byte and flags, and RorUndoesRol its inverse |
| Alu.RolResult | Core/Src/fake6502.c:1459-1467 | ROL stores the operand shifted left with the old C in bit 0 |
| Alu.RolCarry | Core/Src/fake6502.c:1459-1467 | ROL sets C from bit 7 of the operand |
| Alu.RolZeroSign | Core/Src/fake6502.c:1459-1467 | ROL sets Z and N from the stored byte |
| Alu.Ror | Core/Src/fake6502.c:1517-1526 | the ror handler; RorResult, RorCarry and RorZeroSign state its byte and flags, and RolUndoesRor its inverse |
| Alu.RorResult | Core/Src/fake6502.c:1517-1526 | ROR stores the operand shifted right with the old C in bit 7 |
| Alu.RorCarry | Core/Src/fake6502.c:1517-1526 | ROR sets C from bit 0 of the operand |
| Alu.RorZeroSign | Core/Src/fake6502.c:1517-1526 | ROR sets Z and N from the stored byte |
| Alu.RorUndoesRol | Core/Src/fake6502.c:1517-1526 | ROR after ROL gives back the operand and the carry |
| Alu.RolUndoesRor | Core/Src/fake6502.c:1459-1467 | ROL after ROR gives back the operand and the carry |
| Alu.Inc | Core/Src/fake6502.c:1040-1049 | the inc handler; IncResult states its wrapped byte and flags, and DecUndoesInc its inverse |
| Alu.IncResult | Core/Src/fake6502.c:1040-1049 | INC stores operand + 1 modulo 256 with Z and N from it |
| Alu.Dec | Core/Src/fake6502.c:894-903 | the dec handler; DecResult states its wrapped byte and flags |
| Alu.DecResult | Core/Src/fake6502.c:894-903 | DEC stores operand - 1 modulo 256 with Z and N from it |
| Alu.DecUndoesInc | Core/Src/fake6502.c:894-903 | DEC after INC gives back every byte, 0xFF and 0x00 included |
| Alu.Slo | Core/Src/fake6502.c:2396-2406 | slo as written; SloResult states its accumulator and flags |
| Alu.SloResult | Core/Src/fake6502.c:2396-2406 | SLO leaves A or-ed with the shifted operand in A, C from bit 7 of the operand, Z and N from A |
| Alu.Rla | Core/Src/fake6502.c:2480-2490 | rla as written; RlaResult states its accumulator and the cleared carry |
| Alu.RlaResult | Core/Src/fake6502.c:2480-2490 | RLA leaves A & ((operand << 1) with C in bit 0) in A, and always clears C |
| Alu.Sre | Core/Src/fake6502.c:2569-2580 | sre as written; SreResult states its accumulator and carry |
| Alu.SreResult | Core/Src/fake6502.c:2569-2580 | SRE leaves A ^ (operand >> 1) in A, C from bit 0 of the operand |
| Alu.Rra | Core/Src/fake6502.c:2670-2683 | rra as written; RraResult, RraCarry and RraZeroSign state its accumulator and flags |
| Alu.RraResult | Core/Src/fake6502.c:2670-2683 | RRA leaves A + operand + bit 0 of the operand in A, C from bit 0 of the operand, V unchanged |
| Alu.RraCarry | Core/Src/fake6502.c:2670-2683 | the byte RRA stores and its carry: the un-rotated operand is added with the new carry |
| Alu.RraZeroSign | Core/Src/fake6502.c:2670-2683 | RRA sets Z and N from the stored byte |
| Isa.Decode | Core/Src/fake6502.c:2712-2732 | the opcode table; DecodeControl, DecodeBranches, DecodeConditions and DecodeUndocumented state its cells, and StepDecodes that step6502 dispatches through it |
| Isa.OperandLength | Core/Src/fake6502.c:222-235 | implied and accumulator modes take no operand byte; the zero-page family, IMM and REL take one; the absolute family and IND take two |
| Machine.Push8 | Core/Src/fake6502.c:194-196 | push8; Push8Reads, Push8Frame and Push8StaysInStackPage state what it writes, and Pull8AfterPush8 that Pull8 undoes it |
| Machine.Pull8 | Core/Src/fake6502.c:205-207 | pull8; Pull8AfterPush8 states that it gives back the pushed byte and sp |
| Machine.Push16 | Core/Src/fake6502.c:188-192 | push16; Push16Reads, Push16Frame and Push16StaysInStackPage state what it writes, and Pull16AfterPush16 that Pull16 undoes it |
| Machine.Pull16 | Core/Src/fake6502.c:198-203 | pull16; Pull16AfterPush16 states that it gives back the pushed word and sp for every sp |
| Machine.EffectiveAddress | Core/Src/fake6502.c:222-235 | the addressing macros; the AddressingFacts lemmas state each mode's address and its page wraps, and Cpu.Address is proved equal to it |
| Machine.Operate | Core/Src/fake6502.c:241-1929 | the instruction handlers; OperateKeepsPc, OperateKeepsMemory and the HandlerFacts lemmas state what each handler changes, and Cpu.Operate is proved equal to it |
| Machine.StackHandler | Core/Src/fake6502.c:666-1587 | brk, jsr, rti, rts, pha, php, pla and plp; JsrPushesReturn, RtsHandlerPulls, BrkPushesFrame and the round trips JsrThenRts and BrkThenRti state their effect |
| Machine.Interrupt | Core/Src/fake6502.c:2741-2746 | the interrupt entry; InterruptEntry states the frame it pushes, and ReturnUndoesInterrupt that RTI undoes it in every state |
| Machine.Execute | Core/Src/fake6502.c:2760-2763 | one table entry after the fetch; ExecuteAdvancesPc states where pc ends, and Cpu.Execute is proved equal to it |
| Machine.Step | Core/Src/fake6502.c:2760-2763 | step6502; StepDecodes, StepAdvancesPc, StepBranch and StepJmpAbsolute state its effect, and Cpu.Step is proved equal to it |
| Machine.Run | Core/Src/fake6502.c:2751-2758 | exec6502; RunOne and RunAdd state that n steps then k steps are n + k steps, and Cpu.Exec is proved equal to it |
| Machine.Reset | Core/Src/fake6502.c:209-216 | reset6502; ResetState states pc from 0xFFFC, A, X and Y zero and sp 0xFD |
| Machine.Irq | Core/Src/fake6502.c:2741-2746 | irq6502; IrqPushesFrame states the frame and vector 0xFFFE, and IrqThenRti that RTI resumes exactly |
| Machine.Nmi | Core/Src/fake6502.c:2734-2739 | nmi6502; NmiPushesFrame states the frame and vector 0xFFFA, and NmiThenRti that RTI resumes exactly |
| Machine.Read | Core/Src/fake6502.c:184 | read6502 on the flat 64 KiB memory; ReadOfWrite states that it sees the last write at its own address |
| Machine.Write | Core/Src/fake6502.c:185 | write6502 on the flat memory; ReadOfWrite states that it changes only the written address |
| Machine.ReadWord | Core/Src/fake6502.c:227 | a little-endian word at addr and addr + 1; Cpu.ReadWord is proved equal to it |
| Machine.Modify | Core/Src/fake6502.c:547-568 | the write-back of a read-modify-write handler, to A for the `_acc` forms and through PUTVALUE otherwise; RmwIsModify, RmwWritesEffectiveAddress and RmwOnAccumulator state where it stores |
| Machine.Taken | Core/Src/fake6502.c:606-686 | the branch conditions; BranchConditions states each of the eight on C, Z, N and V |
| Machine.FlagChange | Core/Src/fake6502.c:688-703 | clc, cld, cli, clv, sec, sed and sei; FlagOf and FlagChangeOneFlag state that each sets one bit and keeps the other seven |
| Machine.StoreHandler | Core/Src/fake6502.c:1825-1888 | sta, stx, sty, sax and dcp; StoreWritesEffectiveAddress, StoresKeepStatus and DcpComparesOldValue state what they write and set |
| Machine.Assign | Core/Src/fake6502.c:1890-1918 | the register updates of loads, transfers, increments and decrements; AssignRegisters, AssignStatus, AssignFlags and AssignStackPointer state what changes |
| Machine.Tested | Core/Src/fake6502.c:627-870 | bit, cmp, cpx and cpy; TestsChangeOnlyStatus, CompareRegister and BitFlags state the flags they set |
| Machine.ReadOfWrite | Core/Src/fake6502.c:237-239 | a read sees the byte last written at its own address and no other write |
| Machine.StackAddrInPage | Core/Src/fake6502.c:194-196 | every stack address is in page 1 at offset sp |
| AddressingFacts.NextPcSkipsOperand | Core/Src/fake6502.c:222-235 | every addressing macro moves pc past exactly the operand bytes of its mode |
| AddressingFacts.ZeroPageIndexInPageZero | Core/Src/fake6502.c:224-225 | ZPX and ZPY wrap the sum of operand and index at 0xFF |
| AddressingFacts.ZeroPageIndexedInPageZero | Core/Src/fake6502.c:224-225 | the effective address of ZPX and ZPY never leaves page zero |
| AddressingFacts.IndexedCrossesPage | Core/Src/fake6502.c:228-231 | ABSX and ABSY add the index over 16 bits, carrying into the next page |
| AddressingFacts.SamePageNextKeepsPage | Core/Src/fake6502.c:232 | the second pointer byte of IND is in the pointer's page, one above the low byte |
| AddressingFacts.SamePageNextWraps | Core/Src/fake6502.c:232 | a pointer at offset 0xFF of a page takes its second byte from offset 0x00 of the same page |
| AddressingFacts.IndirectPageWrap | Core/Src/fake6502.c:232 | JMP (abs) with the pointer at the end of a page reads the high byte of the target from the start of that page |
| AddressingFacts.IndexedIndirectWrapExample | Core/Src/fake6502.c:233 | (zp,X) with operand 0xFF and X = 1 reads its pointer from 0x00 and 0x01 |
| AddressingFacts.IndexedIndirectInPageZero | Core/Src/fake6502.c:233 | (zp,X) reads both pointer bytes in page zero, each index wrapped |
| AddressingFacts.IndirectIndexedWrapExample | Core/Src/fake6502.c:234-235 | (zp),Y with the pointer at 0xFF takes its high byte from 0x00, then adds Y |
| AddressingFacts.BranchForward | Core/Src/fake6502.c:226 | REL with an offset below 0x80 targets the next instruction plus the offset |
| AddressingFacts.BranchBackward | Core/Src/fake6502.c:226 | REL with an offset of 0x80 or more targets the next instruction minus 0x100 - offset |
| StackFacts.Push8Reads | Core/Src/fake6502.c:194-196 | push8 stores the byte at 0x100 + sp and decrements sp |
| StackFacts.Push8Frame | Core/Src/fake6502.c:194-196 | push8 writes no other address |
| StackFacts.StackAddrInjective | Core/Src/fake6502.c:194-196 | distinct stack pointers give distinct stack addresses |
| StackFacts.Push16Reads | Core/Src/fake6502.c:188-192 | push16 stores the high byte at sp and the low byte at sp - 1, wrapped within the page, and moves sp down by two |
| StackFacts.Push16Frame | Core/Src/fake6502.c:188-192 | push16 writes no address but those two |
| StackFacts.Pull8AfterPush8 | Core/Src/fake6502.c:205-207 | pull8 after push8 gives back the byte and the old sp, for every sp |
| StackFacts.Pull16AfterPush16 | Core/Src/fake6502.c:198-203 | pull16 after push16 gives back the word and the old sp, for every sp including 0x00 and 0x01 |
| StackFacts.OutsideStackPage | Core/Src/fake6502.c:194-196 | no address outside page 1 is a stack address |
| StackFacts.Push8StaysInStackPage | Core/Src/fake6502.c:194-196 | push8 changes no byte outside page 1 |
| StackFacts.Push16StaysInStackPage | Core/Src/fake6502.c:188-192 | push16 changes no byte outside page 1, even when sp wraps from 0x00 to 0xFF |
| StackFacts.InterruptEntry | Core/Src/fake6502.c:2741-2746 | an interrupt entry pushes three bytes, sets I, keeps the other flags and A, X, Y, and loads pc from the vector |
| StackFacts.InterruptSp | Core/Src/fake6502.c:2741-2746 | an interrupt entry moves sp down by three |
| StackFacts.InterruptPushesReturnHi | Core/Src/fake6502.c:2741-2746 | the high byte of the return address goes to sp |
| StackFacts.InterruptPushesReturnLo | Core/Src/fake6502.c:2741-2746 | the low byte of the return address goes to sp - 1 |
| StackFacts.InterruptPushesStatus | Core/Src/fake6502.c:2741-2746 | the status byte goes to sp - 2 |
| StackFacts.ReturnReads | Core/Src/fake6502.c:1580-1583 | RTI pulls the status, then the low and high bytes of pc |
| StackFacts.ReturnIgnoresPc | Core/Src/fake6502.c:1580-1583 | RTI's result does not depend on the pc it is entered with |
| StackFacts.ReturnPopsFrame | Core/Src/fake6502.c:1580-1583 | RTI on a stack holding an interrupt frame restores pc and status from it and moves sp up by three |
| StackFacts.ReturnUndoesInterrupt | Core/Src/fake6502.c:1580-1583 | RTI after an interrupt entry restores pc, status, sp, A, X and Y |
| HandlerFacts.ArithChangesOnlyAccumulator | Core/Src/fake6502.c:2396-2406 | the accumulator handlers, SLO, RLA, SRE, RRA and ISB included, change only A and the status, never memory |
| HandlerFacts.TestsChangeOnlyStatus | Core/Src/fake6502.c:740-750 | BIT, CMP, CPX and CPY change only the status |
| HandlerFacts.FlagsChangeOnlyStatus | Core/Src/fake6502.c:688-690 | CLC through SEI change only the status |
| HandlerFacts.LoadIsAssign | Core/Src/fake6502.c:1119-1126 | a load hands its operand to the register assignment of its target |
| HandlerFacts.TransferIsAssign | Core/Src/fake6502.c:1890-1895 | a transfer hands its source register to the register assignment of its target |
| HandlerFacts.CountIsAssign | Core/Src/fake6502.c:1062-1067 | INX, INY, DEX and DEY hand the counted value to the register assignment |
| HandlerFacts.AssignKeepsPcAndMemory | Core/Src/fake6502.c:1119-1126 | a register assignment keeps pc and memory |
| HandlerFacts.RmwIsModify | Core/Src/fake6502.c:1040-1049 | a read-modify-write handler stores its result through the mode, A or memory |
| HandlerFacts.ModifyKeepsPc | Core/Src/fake6502.c:1040-1049 | a read-modify-write handler keeps pc |
| HandlerFacts.StoreIsHandler | Core/Src/fake6502.c:1850-1853 | a store handler applies the store of its operation |
| HandlerFacts.StoreHandlerKeepsPc | Core/Src/fake6502.c:1850-1853 | a store keeps pc |
| HandlerFacts.StackIsHandler | Core/Src/fake6502.c:1440-1442 | a push or pull handler applies the stack operation it names |
| HandlerFacts.PushPullKeepsPc | Core/Src/fake6502.c:1440-1457 | PHA, PHP, PLA and PLP keep pc |
| HandlerFacts.OperateKeepsPc | Core/Src/fake6502.c:2760-2763 | every handler that does not jump leaves pc where its addressing macro put it |
| HandlerFacts.ExecuteAdvancesPc | Core/Src/fake6502.c:2760-2763 | an instruction that does not jump ends just past its operand bytes |
| HandlerFacts.OperateKeepsMemory | Core/Src/fake6502.c:237-239 | only the read-modify-write, stack and store handlers write memory |
| HandlerFacts.IsbIsSbc | Core/Src/fake6502.c:2274-2303 | ISB leaves A and the status as SBC of the un-incremented operand would |
| HandlerFacts.RmwWritesEffectiveAddress | Core/Src/fake6502.c:1040-1049 | a read-modify-write on memory stores its result at the effective address and nowhere else |
| HandlerFacts.RmwOnAccumulator | Core/Src/fake6502.c:547-556 | a read-modify-write on A leaves memory alone |
| HandlerFacts.StoreWritesEffectiveAddress | Core/Src/fake6502.c:1850-1853 | a store writes its byte at the effective address only and keeps the registers |
| HandlerFacts.StoresKeepStatus | Core/Src/fake6502.c:2011-2014 | STA, STX, STY and SAX keep the status; only DCP changes it |
| HandlerFacts.DcpComparesOldValue | Core/Src/fake6502.c:2091-2103 | DCP stores operand - 1 but sets the flags of comparing A with the operand as it was |
| HandlerFacts.DcpQuirkExample | Core/Src/fake6502.c:2091-2103 | A = 0 and the byte 0x01: DCP stores 0x00 and still leaves Z clear |
| HandlerFacts.CompareStatus | Core/Src/fake6502.c:740-858 | CMP compares A, CPX compares X and CPY compares Y with the operand |
| HandlerFacts.ComparedRegisterFlags | Core/Src/fake6502.c:740-858 | the flags of a compare of the register the operation names |
| HandlerFacts.CompareRegister | Core/Src/fake6502.c:740-858 | a compare sets C iff the register is at least the operand and Z iff they are equal, and changes nothing but the status |
| HandlerFacts.FlagOf | Core/Src/fake6502.c:688-702 | the flag each flag handler touches is one single status bit |
| HandlerFacts.FlagChangeOneFlag | Core/Src/fake6502.c:1813-1823 | CLC through SEI give their one flag its value and leave the other seven bits alone |
| HandlerFacts.BranchTakenOrNot | Core/Src/fake6502.c:606-611 | a branch goes to its target when its condition holds and falls through otherwise |
| HandlerFacts.BranchConditions | Core/Src/fake6502.c:606-686 | BCC/BCS branch on carry, BNE/BEQ on zero, BPL/BMI on sign and BVC/BVS on overflow, clear and set respectively |
| HandlerFacts.AssignRegisters | Core/Src/fake6502.c:1890-1927 | loads, transfers and counts put the value in their register or registers only and keep sp; TXS sets sp only |
| HandlerFacts.AssignStatus | Core/Src/fake6502.c:1890-1895 | the register assignment applies zerocalc and signcalc to the value, except for TXS |
| HandlerFacts.AssignFlags | Core/Src/fake6502.c:1890-1895 | so Z iff the value is 0 and N iff it is negative, the other flags kept |
| HandlerFacts.AssignStackPointer | Core/Src/fake6502.c:1918-1920 | TXS copies X to sp and keeps the status |
| HandlerFacts.CountWraps | Core/Src/fake6502.c:1062-1067 | 0xFF + 1 counts to 0x00 with Z set; 0x00 - 1 counts to 0xFF with N set |
| HandlerFacts.TransferCopies | Core/Src/fake6502.c:1890-1927 | each transfer copies the register it names |
| HandlerFacts.LaxLoadsBoth | Core/Src/fake6502.c:1981-1989 | LAX loads the operand into both A and X |
| ExecuteFacts.DecodeControl | Core/Src/fake6502.c:2712-2732 | the table sends 0x00, 0x20, 0x40, 0x60, 0x4C and 0x6C to BRK, JSR, RTI, RTS and the two JMPs |
| ExecuteFacts.DecodeBranches | Core/Src/fake6502.c:2712-2732 | column 0 of every odd row holds a conditional branch in relative mode |
| ExecuteFacts.DecodeConditions | Core/Src/fake6502.c:2712-2732 | which condition each branch cell tests |
| ExecuteFacts.DecodeUndocumented | Core/Src/fake6502.c:2712-2732 | the 0x_3 column decodes to the undocumented handlers the table names |
| ExecuteFacts.StepDecodes | Core/Src/fake6502.c:2760-2763 | step6502 runs the handler the table names for the opcode at pc, with pc past the opcode |
| ExecuteFacts.ExecuteImplied | Core/Src/fake6502.c:666-672 | BRK and RTI run on the state after the opcode fetch and take no operand |
| ExecuteFacts.ExecuteWithoutOperand | Core/Src/fake6502.c:2760-2763 | an implied-mode entry runs its handler with no address |
| ExecuteFacts.StepIsBrk | Core/Src/fake6502.c:2712-2714 | opcode 0x00 runs BRK |
| ExecuteFacts.StepBrk | Core/Src/fake6502.c:666-672 | BRK at p enters through 0xFFFE pushing p + 2 and the status with B set |
| ExecuteFacts.StepRti | Core/Src/fake6502.c:1580-1583 | RTI pulls the status, then pc |
| ExecuteFacts.BrkPushesFrame | Core/Src/fake6502.c:666-672 | after BRK at p the stack holds p + 2, high byte first, then the status with B set; I is set and sp is down by three |
| ExecuteFacts.BrkThenRti | Core/Src/fake6502.c:1580-1583 | BRK at p followed by RTI at the vector resumes at p + 2 with the pushed status and sp restored |
| ExecuteFacts.IrqPushesFrame | Core/Src/fake6502.c:2741-2746 | irq6502 pushes pc and the unmodified status, sets I and loads pc from 0xFFFE |
| ExecuteFacts.NmiPushesFrame | Core/Src/fake6502.c:2734-2739 | nmi6502 pushes the same frame and loads pc from 0xFFFA |
| ExecuteFacts.IrqThenRti | Core/Src/fake6502.c:2741-2746 | an RTI first thing in the IRQ handler resumes the interrupted program exactly |
| ExecuteFacts.NmiThenRti | Core/Src/fake6502.c:2734-2739 | an RTI first thing in the NMI handler resumes the interrupted program exactly |
| ExecuteFacts.ExecuteJsr | Core/Src/fake6502.c:1086-1090 | JSR takes its target as an absolute operand with pc past it |
| ExecuteFacts.StepIsJsr | Core/Src/fake6502.c:2716 | opcode 0x20 runs JSR with the operand word as target |
| ExecuteFacts.JsrReturnAddress | Core/Src/fake6502.c:1086-1090 | the address JSR pushes is the opcode's address plus two |
| ExecuteFacts.JsrHandlerPushesHi | Core/Src/fake6502.c:1086-1090 | the JSR handler writes the high byte of pc - 1 at sp |
| ExecuteFacts.JsrHandlerPushesLo | Core/Src/fake6502.c:1086-1090 | and its low byte at sp - 1 |
| ExecuteFacts.JsrHandlerSp | Core/Src/fake6502.c:1086-1090 | and moves sp down by two |
| ExecuteFacts.JsrHandlerJumps | Core/Src/fake6502.c:1086-1090 | and jumps to the target, keeping A, X, Y and the status |
| ExecuteFacts.JsrHandler | Core/Src/fake6502.c:1086-1090 | the whole effect of the JSR handler |
| ExecuteFacts.JsrHandlerAfterFetch | Core/Src/fake6502.c:1086-1090 | run after the fetch of a JSR at p, the handler pushes p + 2 |
| ExecuteFacts.JsrPushesReturn | Core/Src/fake6502.c:1086-1090 | after JSR at p the stack holds p + 2, high byte first, sp is down by two and pc is the target |
| ExecuteFacts.StepIsRts | Core/Src/fake6502.c:2722 | opcode 0x60 runs RTS |
| ExecuteFacts.ReturnFromSubroutine | Core/Src/fake6502.c:1585-1587 | RTS pulls pc, low byte first, and adds one |
| ExecuteFacts.StackWordAfterFetch | Core/Src/fake6502.c:198-203 | the word on top of the stack depends only on sp and memory |
| ExecuteFacts.RtsHandlerPc | Core/Src/fake6502.c:1585-1587 | the RTS handler continues after the address on the stack |
| ExecuteFacts.RtsHandlerSp | Core/Src/fake6502.c:1585-1587 | the RTS handler moves sp up by two |
| ExecuteFacts.RtsHandlerKeeps | Core/Src/fake6502.c:1585-1587 | the RTS handler changes nothing else |
| ExecuteFacts.RtsHandlerPulls | Core/Src/fake6502.c:1585-1587 | the whole effect of the RTS handler after its fetch |
| ExecuteFacts.StepRts | Core/Src/fake6502.c:1585-1587 | RTS at any address continues at the pulled address plus one with sp up by two |
| ExecuteFacts.ReturnAfterJsr | Core/Src/fake6502.c:1585-1587 | the address RTS computes from what JSR at p pushed is p + 3 |
| ExecuteFacts.PulledJsrReturn | Core/Src/fake6502.c:198-203 | the word pulled from the bytes JSR left below a stack top is the pushed return address |
| ExecuteFacts.ReturnedFromJsr | Core/Src/fake6502.c:1585-1587 | a pc computed by RTS from such a stack is the JSR's address plus three |
| ExecuteFacts.RtsAfterJsrPc | Core/Src/fake6502.c:1585-1587 | an RTS finding the bytes JSR at p pushed resumes at p + 3 |
| ExecuteFacts.RtsAfterJsrSp | Core/Src/fake6502.c:1585-1587 | and with sp back where it was before the JSR |
| ExecuteFacts.RtsAfterJsr | Core/Src/fake6502.c:1585-1587 | RTS on the stack JSR at p left returns to p + 3 with sp restored, whatever else the subroutine did |
| ExecuteFacts.JsrThenRts | Core/Src/fake6502.c:1086-1090 | JSR at p with RTS as the first instruction of the subroutine returns to p + 3 with sp restored |
| ExecuteFacts.ExecuteJmp | Core/Src/fake6502.c:1076-1079 | JMP takes its effective address as pc and changes nothing else |
| ExecuteFacts.StepJmpAbsolute | Core/Src/fake6502.c:1076-1079 | JMP abs at p continues at the operand word |
| ExecuteFacts.StepJmpIndirect | Core/Src/fake6502.c:1081-1084 | JMP (abs) continues at the word stored at the pointer address, read with the page wrap |
| ExecuteFacts.ExecuteBranch | Core/Src/fake6502.c:606-611 | a branch goes to its target when the condition holds, otherwise to the next instruction |
| ExecuteFacts.StepBranch | Core/Src/fake6502.c:606-686 | a branch at p goes to p + 2 plus the sign-extended offset when taken, and to p + 2 otherwise |
| ExecuteFacts.StepAdvancesPc | Core/Src/fake6502.c:2760-2763 | every instruction that does not jump ends just past its opcode and operand |
| ExecuteFacts.ResetState | Core/Src/fake6502.c:209-216 | after reset pc is the reset vector, A, X and Y are 0 and sp is 0xFD |
| ExecuteFacts.RunOne | Core/Src/fake6502.c:2751-2758 | exec6502 of one instruction is one step |
| ExecuteFacts.RunAdd | Core/Src/fake6502.c:2751-2758 | running a instructions then b is running a + b |
| Processor.Cpu.constructor | Core/Src/fake6502.c:177-180 | the registers start at zero over the given memory |
| Processor.Cpu.Read | Core/Src/fake6502.c:184 | read6502 returns the byte the machine state holds at the address |
| Processor.Cpu.Write | Core/Src/fake6502.c:185 | write6502 gives the state the written byte at the address |
| Processor.Cpu.Push8 | Core/Src/fake6502.c:194-196 | the new state is Machine.Push8 of the old |
| Processor.Cpu.Pull8 | Core/Src/fake6502.c:205-207 | the byte and new state are Machine.Pull8 of the old |
| Processor.Cpu.Push16 | Core/Src/fake6502.c:188-192 | the new state is Machine.Push16 of the old |
| Processor.Cpu.Pull16 | Core/Src/fake6502.c:198-203 | the word and new state are Machine.Pull16 of the old |
| Processor.Cpu.ReadWord | Core/Src/fake6502.c:227 | a little-endian word at addr and addr + 1 |
| Processor.Cpu.ZeroPage | Core/Src/fake6502.c:223 | ZP gives the operand byte as address, pc past it |
| Processor.Cpu.ZeroPageIndexed | Core/Src/fake6502.c:224-225 | ZPX/ZPY give the operand plus the index wrapped in page zero, pc past it |
| Processor.Cpu.RelativeTarget | Core/Src/fake6502.c:226 | REL gives the sign-extended target, pc past the offset |
| Processor.Cpu.Absolute | Core/Src/fake6502.c:227 | ABSO gives the operand word, pc past it |
| Processor.Cpu.AbsoluteIndexed | Core/Src/fake6502.c:228-231 | ABSX/ABSY give the operand word plus the index, pc past it |
| Processor.Cpu.Indirect | Core/Src/fake6502.c:232 | IND gives the word stored at the pointer address, read with the page wrap |
| Processor.Cpu.IndexedIndirect | Core/Src/fake6502.c:233 | INDX gives the word at operand + X in page zero |
| Processor.Cpu.IndirectIndexed | Core/Src/fake6502.c:234-235 | INDY gives the zero-page word plus Y |
| Processor.Cpu.Address | Core/Src/fake6502.c:222-235 | the effective address of each mode and pc past the operand, as Machine resolves them |
| Processor.Cpu.ShortAddress | Core/Src/fake6502.c:222-226 | the same for the one-byte-operand modes |
| Processor.Cpu.AbsoluteAddress | Core/Src/fake6502.c:227-232 | the same for the two-byte-operand modes |
| Processor.Cpu.GetValue | Core/Src/fake6502.c:237 | the operand: the byte at ea, or A for the `_acc` handlers |
| Processor.Cpu.Operate | Core/Src/fake6502.c:241-1929 | one handler after its addressing macro: the new state is Machine.Operate of the old |
| Processor.Cpu.OperateOnMemory | Core/Src/fake6502.c:1040-1049 | the handlers that read or write memory beyond the operand, as Machine.Operate |
| Processor.Cpu.OperateOnRegisters | Core/Src/fake6502.c:1119-1126 | the handlers that change registers only, as Machine.Operate |
| Processor.Cpu.OperateOnPcOrStatus | Core/Src/fake6502.c:606-611 | the branches, flag handlers, BIT, compares, JMP and NOP, as Machine.Operate |
| Processor.Cpu.OperateOnDataRegisters | Core/Src/fake6502.c:1062-1067 | counts, loads and transfers, as Machine.Operate |
| Processor.Cpu.Interrupt | Core/Src/fake6502.c:2741-2746 | the entry sequence: the new state is Machine.Interrupt of the old |
| Processor.Cpu.StackHandler | Core/Src/fake6502.c:1440-1457 | BRK, JSR, RTI, RTS, PHA, PHP, PLA and PLP as Machine.StackHandler |
| Processor.Cpu.Subroutine | Core/Src/fake6502.c:1580-1587 | the stack handlers that set pc, as Machine.StackHandler |
| Processor.Cpu.Brk | Core/Src/fake6502.c:666-672 | BRK pushes pc + 1 and the status with B set and enters through 0xFFFE |
| Processor.Cpu.Jsr | Core/Src/fake6502.c:1086-1090 | JSR pushes pc - 1 and jumps |
| Processor.Cpu.Rti | Core/Src/fake6502.c:1580-1583 | RTI pulls the status, then pc |
| Processor.Cpu.Rts | Core/Src/fake6502.c:1585-1587 | RTS pulls pc and adds one |
| Processor.Cpu.PushOrPull | Core/Src/fake6502.c:1440-1457 | PHA, PHP, PLA and PLP as Machine.StackHandler |
| Processor.Cpu.StoreHandler | Core/Src/fake6502.c:1850-1853 | STA, STX, STY, SAX and DCP as Machine.StoreHandler |
| Processor.Cpu.Assign | Core/Src/fake6502.c:1890-1895 | the register assignment as Machine.Assign |
| Processor.Cpu.Execute | Core/Src/fake6502.c:2760-2763 | one table entry after the fetch: the new state is Machine.Execute of the old |
| Processor.Cpu.Step | Core/Src/fake6502.c:2760-2763 | step6502: the new state is Machine.Step of the old |
| Processor.Cpu.Exec | Core/Src/fake6502.c:2751-2758 | exec6502(n): the new state is Machine.Run of the old for n steps |
| Processor.Cpu.Reset | Core/Src/fake6502.c:209-216 | reset6502 as Machine.Reset |
| Processor.Cpu.Irq | Core/Src/fake6502.c:2741-2746 | irq6502 as Machine.Irq |
| Processor.Cpu.Nmi | Core/Src/fake6502.c:2734-2739 | nmi6502 as Machine.Nmi |
| RiotTimer.Wrap | Core/Src/main.c:412-428 | the `uint32_t` arithmetic of update_timer, reduction modulo 2^32; UpdateReloads and NegativeCountIsLarge state the wrapped results |
| RiotTimer.Initialised | Core/Src/main.c:399-402 | init_timer stops the timer (no prescale, no timeout) and keeps the other fields |
| RiotTimer.Restarted | Core/Src/main.c:404-410 | reset_timer: running iff the scale is nonzero, count and start value equal start, prescaler within bounds |
| RiotTimer.Updated | Core/Src/main.c:412-428 | update_timer changes nothing on a stopped or timed-out timer and never changes the prescale or the start value |
| RiotTimer.UpdateCountsDown | Core/Src/main.c:425-427 | fewer ticks than the count subtract from the count only, and the timer keeps running |
| RiotTimer.UpdateReloads | Core/Src/main.c:416-424 | otherwise the count reloads to start value minus overshoot, wrapped, and the prescaler steps, wrapping to 0 at the prescale |
| RiotTimer.UpdateTimesOut | Core/Src/main.c:416-421 | an update sets timeout, to 1, exactly when a reload happens at the last prescaler step |
| RiotTimer.ReloadStaysBelowStart | Core/Src/main.c:421-423 | an overshoot within the start value reloads to at most the start value |
| RiotTimer.UpdatePreservesPrescaler | Core/Src/main.c:412-428 | the prescaler stays below the prescale across every update |
| RiotTimer.UpdatedAll | Core/Src/main.c:412-428 | update_timer applied to each tick count in turn; TimeoutHolds and StoppedHolds state that a timed-out or stopped timer stays fixed |
| RiotTimer.TimeoutHolds | Core/Src/main.c:413-415 | once timed out, any sequence of updates leaves the timer as it is |
| RiotTimer.StoppedHolds | Core/Src/main.c:413-415 | a timer with no prescale ignores any sequence of updates |
| RiotTimer.NegativeCountIsLarge | Core/Src/main.c:416 | an overshoot beyond the start value leaves a count that compares as huge, so the next update only subtracts |
| RiotTimer.Timer.constructor | Core/Src/main.c:106-112 | the static TIMER record starts zeroed |
| RiotTimer.Timer.Init | Core/Src/main.c:399-402 | the record becomes Initialised of the old |
| RiotTimer.Timer.Reset | Core/Src/main.c:404-410 | the record becomes Restarted(scale, start) |
| RiotTimer.Timer.Update | Core/Src/main.c:412-428 | the record becomes Updated of the old by ticks |
| Riot003.Rearmed | Core/Src/main.c:216-220 | reading a timed-out timer keeps its prescale, truncates the start value to a byte, clears prescaler and timeout and sets the count to 255 |
| Riot003.Prescale | Core/Src/main.c:381-395 | writes to 0x1704-0x1707 choose prescale 1, 8, 64 or 1024 |
| Riot003.RegisterRead | Core/Src/main.c:206-234 | a register read changes only the timer, and only for a count read of a timed-out timer |
| Riot003.RegisterWrite | Core/Src/main.c:363-397 | a write outside 0x1700-0x1707 changes nothing |
| Riot003.DataRegistersReadBack | Core/Src/main.c:363-379 | a write to 0x1700, 0x1701 or 0x1703 reads back from the same address |
| Riot003.SbdNotReadBack | Core/Src/main.c:211-212 | a write to 0x1702 sets sbd, but 0x1702 reads sad |
| Riot003.TimerWriteStarts | Core/Src/main.c:381-395 | a timer write restarts the timer at the value with its prescale and leaves the port registers |
| Riot003.TimerWriteReadsBack | Core/Src/main.c:215-229 | right after a timer write 0x1706 and 0x170E read the value and 0x1707 reads 0 |
| Riot003.TimeoutFlag | Core/Src/main.c:224-230 | 0x1707 reads 0x80 iff the timer timed out, 0 otherwise, and changes nothing |
| Riot003.TimeoutReadRearms | Core/Src/main.c:215-221 | a count read of a timed-out timer returns 0, clears the flag, and the next count read returns 0xFF |
| Riot003.CountRead | Core/Src/main.c:221-223 | a count read of a running timer returns the low byte of the count and changes nothing |
| Riot003.UndecodedReadsZero | Core/Src/main.c:230-232 | every other address reads 0 and changes nothing |
| Riot003.RegistersPreservePrescaler | Core/Src/main.c:206-234 | register reads and writes keep the prescaler below the prescale |
| Riot003.Riot.constructor | Core/Src/main.c:114-120 | the static RIOT record starts zeroed |
| Riot003.Riot.Read | Core/Src/main.c:206-234 | the value and new registers are RegisterRead of the old |
| Riot003.Riot.Write | Core/Src/main.c:363-397 | the new registers are RegisterWrite of the old |
| Kim1.ReadRegion | Core/Src/main.c:164-188 | the corrected read decode lands every address inside the array it selects |
| Kim1.WriteRegion | Core/Src/main.c:190-204 | the write decode reaches RAM, the RIOT RAMs and registers, and drops everything else |
| Kim1.ReadRegionAsWritten | Core/Src/main.c:164-188 | read6502's decode as written, the as-written half of the finding; ReadRegionAsWrittenOverruns and ReadRegionAsWrittenElsewhere state where it differs from ReadRegion |
| Kim1.ReadRegionAsWrittenOverruns | Core/Src/main.c:179-180 | the decode as written indexes the 64-byte RAM at 0x40 for address 0x9C40, out of bounds |
| Kim1.ReadRegionAsWrittenElsewhere | Core/Src/main.c:164-188 | outside 0x9C00-0x9FFF the written and corrected decodes agree |
| Kim1.MemoryMap | Core/Src/main.c:164-188 | the read windows: RAM below 0x1000, RIOT RAMs, ROMs, registers, the ROM mirrors, RAM from 0x2000 to 9000, and zero elsewhere |
| Kim1.RamCellsDistinct | Core/Src/main.c:190-204 | no two addresses share a RAM cell |
| Kim1.BusRead | Core/Src/main.c:164-188 | only a RIOT-003 register read can change the state, and then only the RIOT-003 part |
| Kim1.BusWrite | Core/Src/main.c:190-204 | a write to an unmapped address or a keypad register changes nothing |
| Kim1.WritableIsRam | Core/Src/main.c:190-204 | the writable addresses are exactly those whose writes land in RAM |
| Kim1.WriteThenRead | Core/Src/main.c:190-204 | a byte written to a writable address reads back |
| Kim1.WriteKeepsOthers | Core/Src/main.c:190-204 | a RAM write changes no other address's read |
| Kim1.IgnoredWrites | Core/Src/main.c:190-204 | writes to the ROMs and to unmapped addresses change nothing |
| Kim1.TopPageMirrorsRom | Core/Src/main.c:181-182 | the top page reads the last page of the 6530-002 ROM, so the vectors come from 0x1FFA-0x1FFF |
| Kim1.HighRomMirror | Core/Src/main.c:179-180 | in the corrected decode 0x9C00-0x9FFF reads as 0x1C00-0x1FFF does |
| Kim1.RamWindowEndsAt9000 | Core/Src/main.c:183-184 | the RAM window above 0x2000 ends at decimal 9000: 0x2329 reads 0 whatever was written |
| Kim1.RamIndexBelow1329 | Core/Src/main.c:183-184 | RAM cells from index 0x1329 on are unreachable from the bus |
| Kim1.TimerThroughBus | Core/Src/main.c:197-198 | a RIOT-003 timer write then a count read through the bus gives the value back |
| Kim1.Bus.constructor | Core/Src/main.c:102-104 | RAM and the RIOT RAMs start zeroed, with the given ROM images |
| Kim1.Bus.Read | Core/Src/main.c:164-188 | the value and new state are BusRead of the old |
| Kim1.Bus.Write | Core/Src/main.c:190-204 | the new state is BusWrite of the old |
| PaperTape.DigitValue | Core/Src/main.c:463-468 | a hex digit's value is below 16 |
| PaperTape.DigitsReadBack | Core/Src/main.c:463-468 | both the upper- and lower-case spelling of every digit read back as the digit |
| PaperTape.IsTapeChar | Core/Src/main.c:445-448 | the filter test: ';' and the hex digits of either case; KeptTapeLine and EncodedRecordIsTapeLine state that such characters pass the filter unchanged |
| PaperTape.Kept | Core/Src/main.c:441-451 | the kept line is no longer than the input and holds only ';' and hex digits |
| PaperTape.KeptAppend | Core/Src/main.c:441-451 | the filter looks at one character at a time: it distributes over concatenation |
| PaperTape.KeptTapeLine | Core/Src/main.c:445-451 | a line of tape characters passes the filter unchanged |
| PaperTape.Scan | Core/Src/main.c:432-456 | reading a line consumes at least one character unless input runs out, and an interrupted read consumes all the input |
| PaperTape.ScanEnds | Core/Src/main.c:432-456 | a line ends at the first newline with fewer than 1024 kept, or when 1024 tape characters have been kept before any newline, or the input runs out first |
| PaperTape.ScanTapeLine | Core/Src/main.c:432-456 | a line of fewer than 1024 tape characters and its newline is read as exactly that line |
| PaperTape.ReadByte | Core/Src/main.c:458-482 | a byte read succeeds iff two characters remain from the position, and then moves two characters on |
| PaperTape.ReadHexByte | Core/Src/main.c:463-480 | two hex digits read as hi * 16 + lo, in either case |
| PaperTape.ReadEncodedByte | Core/Src/main.c:458-482 | a byte written as two hex digits reads back |
| PaperTape.ReadByteKeepsStale | Core/Src/main.c:463-480 | two non-hex characters leave the caller's byte as it was |
| PaperTape.ReadWord | Core/Src/main.c:484-490 | a word read succeeds iff four characters remain, and then moves four on with a 16-bit value |
| PaperTape.WordIsBigEndian | Core/Src/main.c:488 | the first byte read is the high byte, the second the low byte |
| PaperTape.ReadEncodedWord | Core/Src/main.c:484-490 | a word written as four hex digits reads back |
| PaperTape.EncodeByte | Core/Src/main.c:458-482 | a byte is written as two characters |
| PaperTape.EncodeWord | Core/Src/main.c:484-490 | a word is written as four characters |
| PaperTape.EncodeBytes | Core/Src/main.c:536-544 | n bytes are written as 2n characters |
| PaperTape.ReadData | Core/Src/main.c:536-544 | reading n data bytes yields at most n bytes, exactly n when complete |
| PaperTape.ReadEncodedData | Core/Src/main.c:536-544 | data bytes written as hex digits read back, and reading stops right after them |
| PaperTape.Sum | Core/Src/main.c:541 | the plain sum of the data bytes lies between 0 and 255 per byte |
| PaperTape.ChecksumSeed | Core/Src/main.c:534 | the starting checksum, address bytes plus count, fits in 16 bits |
| PaperTape.Checksum | Core/Src/main.c:534-545 | the checksum a record must carry; ChecksumStep states that it grows by each data byte modulo 0x10000, DataLoopSums that the loop computes it, and RecordDecision that the line is accepted exactly when its checksum word equals it |
| PaperTape.RecordCheck | Core/Src/main.c:512-558 | a line shorter than 9 characters or not starting with ';' goes to LOADER with nothing written; at most 255 bytes are written; RecordDecision and RecordRejects give acceptance and rejection for every other line |
| PaperTape.EncodeRecord | Core/Src/main.c:517-548 | an encoded record is 11 + 2n characters |
| PaperTape.RecordRoundTrip | Core/Src/main.c:517-558 | an encoded record writes its data at its address, goes to LOADER iff the checksum is wrong, and to LOAD7 iff right and empty |
| PaperTape.EncodedRecordFields | Core/Src/main.c:522-548 | where count, address, data and checksum of an encoded record lie |
| PaperTape.EncodedCount | Core/Src/main.c:524 | the count field of an encoded record |
| PaperTape.EncodedAddress | Core/Src/main.c:529 | the address field of an encoded record |
| PaperTape.EncodedData | Core/Src/main.c:536-544 | the data field of an encoded record |
| PaperTape.EncodedChecksum | Core/Src/main.c:545 | the checksum field of an encoded record |
| PaperTape.RecordOfFields | Core/Src/main.c:522-558 | the record check once its four fields have been read |
| PaperTape.Load7OnlyForEmptyRecord | Core/Src/main.c:512-558 | LOAD7 exactly when the line is accepted and holds no data; the next line exactly when it is accepted and holds data |
| PaperTape.RecordDecision | Core/Src/main.c:512-558 | for every line, the record check goes anywhere but LOADER exactly when the line is accepted: ';' first, at least 9 characters, all data bytes and a checksum word present, and the checksum equal to the record's |
| PaperTape.RecordRejects | Core/Src/main.c:522-553 | on a line of 9 or more characters starting with ';', the count and address are always read, the bytes read are the ones written from the address, and a data field cut short, a missing checksum or a wrong checksum go to LOADER |
| PaperTape.Writes | Core/Src/main.c:542-543 | data byte k is written to start + k, the address wrapping at 0x10000 |
| PaperTape.ReadDataStep | Core/Src/main.c:536-544 | one more byte read moves it from what is left to read onto what was read |
| PaperTape.ReadDataFails | Core/Src/main.c:537-540 | a byte the line does not hold ends the reading, incomplete |
| PaperTape.ReadDataDone | Core/Src/main.c:536 | with nothing left to read the reading is complete |
| PaperTape.ChecksumStep | Core/Src/main.c:541 | adding one more byte to the checksum modulo 0x10000 gives the record checksum of the longer data |
| PaperTape.DataLoopReads | Core/Src/main.c:536-540 | the data loop reads exactly what ReadData reads, after the bytes already read |
| PaperTape.DataLoopSums | Core/Src/main.c:541 | the data loop ends with the record's checksum over every byte it read |
| PaperTape.DataLoopWrites | Core/Src/main.c:542-543 | the data loop writes every byte it read, one after the other from the record's address, wrapping at 0x10000 |
| PaperTape.DataLoopFromStart | Core/Src/main.c:534-544 | from a record's first data byte the loop gives ReadData's bytes, the record's checksum and its writes |
| PaperTape.DataLoop | Core/Src/main.c:536-544 | the data loop of the record check; DataLoopReads, DataLoopSums and DataLoopWrites state what it reads, sums and writes, and Tape.WriteData is proved equal to it |
| PaperTape.WriteAll | Core/Src/main.c:542-543 | the bus after the loop's write6502 calls, in order; Deposit and Tape.WriteData keep the bus equal to it |
| PaperTape.Receiving | Core/Src/main.c:497-560 | paper_tape_receive over the whole input; ReceivingReturnsToRom and ReceiveEncodedRecord state where it sends the 6502, and Tape.Receive is proved equal to it |
| PaperTape.ReceivingReturnsToRom | Core/Src/main.c:497-560 | whenever the loader sets pc, it sets it to LOADER (0x1D3E) or LOAD7 (0x1D2E) |
| PaperTape.EncodedByteIsTapeChars | Core/Src/main.c:445-448 | an encoded byte consists of tape characters |
| PaperTape.EncodedWordIsTapeChars | Core/Src/main.c:445-448 | an encoded word consists of tape characters |
| PaperTape.EncodedBytesAreTapeChars | Core/Src/main.c:445-448 | encoded data consists of tape characters |
| PaperTape.EncodedRecordIsTapeLine | Core/Src/main.c:445-448 | an encoded record passes the line filter unchanged |
| PaperTape.ReceiveEncodedRecord | Core/Src/main.c:497-560 | an encoded record line writes its data; a wrong checksum returns to LOADER, an empty correct record to LOAD7, otherwise loading goes on with the next line |
| PaperTape.Tape.constructor | Core/Src/main.c:161-162 | the 1024-byte line buffer starts empty |
| PaperTape.Tape.ReadLine | Core/Src/main.c:432-456 | the line end and characters consumed are Scan's, and the buffer holds the kept characters of what was consumed |
| PaperTape.Tape.ReadByteAt | Core/Src/main.c:458-482 | the result and new position are ReadByte's on the buffer |
| PaperTape.Tape.ReadWordAt | Core/Src/main.c:484-490 | the result and new position are ReadWord's on the buffer |
| PaperTape.Tape.CheckRecord | Core/Src/main.c:512-558 | the result is RecordCheck of the buffer, and the bus received exactly the writes of that result |
| PaperTape.Tape.WriteData | Core/Src/main.c:536-544 | the data loop's bytes, checksum and bus writes are those of the value-level data loop |
| PaperTape.Tape.Receive | Core/Src/main.c:497-560 | the ending and the final bus are those of Receiving on the input, the stale locals and the initial bus |

## Left out

- The interpreter and the bus are two separate models. `Processor.Cpu` reads and writes a 64 KiB array. `Kim1.Bus` models what `read6502` and `write6502` do in main.c. The proofs never connect the two, so the interpreter's memory is not shown to follow the KIM-1 memory map.
- The ROM images `RIOT002_ROM` and `RIOT003_ROM` are parameters: their contents are data, not logic.
- `riot002read` and `riot002write` (the keypad and display RIOT) are hardware I/O. A read of 0x1740-0x177F returns a `keypad` parameter, and a write to it leaves the modelled state alone.
- UART and HAL calls are not modelled.
  - The received characters are a parameter.
  - The echo of each line back to the terminal (main.c:509-510) is not modelled.
  - `check_special` is not modelled. The end of the received input stands for the point where `check_special` returns 1; `paper_tape_receive` then returns without touching pc (`Ending.Stopped`).
- Uninitialised and stale C locals are a parameter, `PaperTape.Stale`.
  - `count` and `b1` are carried from one line to the next.
  - `b1` and `b2` of `paper_tape_read_word` are never initialised.
  - Their values are modelled instead of being undefined.
- PaperTape.Scan and PaperTape.Receiving are value-level restatements of the loops of `read_paper_tape_line` and `paper_tape_receive`. The `Tape` methods are proved equal to them.
- The cycle counter `clockticks6502`, `hookexternal`, `callexternal` and `GLOBAL_REGISTERS` are not modelled. They have no effect on the modelled state.
- The BCD paths of ADC and SBC are not modelled. This build defines NES_CPU and does not compile them.
- The main loop, which calls `update_timer(..., 16)` for both RIOTs after every `step6502` (main.c:779-780), the init functions, `check_pc`, `keyMode` and the serial and keypad dispatch are not modelled. They are host scheduling and I/O.
- RiotTimer.Timer.Update: `tick_accum` is `uint32_t`, so `tick_accum + 1` wraps modulo 2^32, and Updated wraps it the same way. From reset_timer on, the prescaler stays below the prescale (Restarted, UpdatePreservesPrescaler, RegistersPreservePrescaler), so that wrap cannot be reached; UpdateCountsDown, UpdateReloads and UpdateTimesOut state the wrapped arithmetic for every timer.

## Findings

| source | as written | input that shows it | evidently intended | confidence | as-written member | corrected member |
|---|---|---|---|---|---|---|
| Core/Src/main.c:179-180 | `read6502` reads 0x9C00-0x9FFF from the 64-byte `RIOT002_RAM` at offset `addr - 0x9C00`, up to 0x3FF | address 0x9C40: index 0x40 is past the end of the 64-byte array | the window mirrors the 1 KiB 6530-002 ROM at 0x1C00-0x1FFF, as the top page 0xFF00 does | not executed | Kim1.ReadRegionAsWrittenOverruns | Kim1.HighRomMirror |
