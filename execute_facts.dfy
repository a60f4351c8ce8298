/**
 * Properties of whole instructions: what one step of the interpreter does for the
 * control-flow handlers, which handlers touch memory and the program counter, the quirks of
 * the undocumented handlers, and how `Run` composes.
 */
module ExecuteFacts {
  import opened Bits
  import opened Flags
  import opened Alu
  import opened Isa
  import opened Machine
  import opened StackFacts
  import opened HandlerFacts

  // ---------------------------------------------------------------- the table

  /** The cells of the control-flow opcodes. */
  lemma DecodeControl()
    ensures Decode(0x00) == Instr(Stack(BRK), Imp) && Decode(0x40) == Instr(Stack(RTI), Imp)
    ensures Decode(0x20) == Instr(Stack(JSR), Abso) && Decode(0x60) == Instr(Stack(RTS), Imp)
    ensures Decode(0x4C) == Instr(JMP, Abso) && Decode(0x6C) == Instr(JMP, Ind)
  {
  }

  /** Column 0 of every odd row holds a conditional branch in relative mode. */
  lemma DecodeBranches(opcode: byte)
    requires opcode & 0x1F == 0x10
    ensures Decode(opcode).op.Branch? && Decode(opcode).mode == Rel
  {
    assert opcode & 0x0F == 0 && (opcode >> 4) & 1 == 1;
  }

  /** Which branch each of those cells holds. */
  lemma DecodeConditions()
    ensures Decode(0x10).op == Branch(BPL) && Decode(0x30).op == Branch(BMI)
    ensures Decode(0x50).op == Branch(BVC) && Decode(0x70).op == Branch(BVS)
    ensures Decode(0x90).op == Branch(BCC) && Decode(0xB0).op == Branch(BCS)
    ensures Decode(0xD0).op == Branch(BNE) && Decode(0xF0).op == Branch(BEQ)
  {
  }

  /** The undocumented opcodes decode to the handlers the table names, here for the 0x_3 column. */
  lemma DecodeUndocumented()
    ensures Decode(0x03) == Instr(Arith(SLO), Indx) && Decode(0x23) == Instr(Arith(RLA), Indx)
    ensures Decode(0x43) == Instr(Arith(SRE), Indx) && Decode(0x63) == Instr(Arith(RRA), Indx)
    ensures Decode(0x83) == Instr(Store(SAX), Indx) && Decode(0xA3) == Instr(Load(LAX), Indx)
    ensures Decode(0xC3) == Instr(Store(DCP), Indx) && Decode(0xE3) == Instr(Arith(ISB), Indx)
  {
  }

  // ---------------------------------------------------------------- BRK and RTI

  /** Two increments of a 16-bit address are one addition of two. */
  lemma NextNext(p: word)
    ensures p + 1 + 1 == p + 2
  {
  }

  /** step6502 runs the handler the table names for the opcode at pc, with pc past the opcode. */
  lemma StepDecodes(m: Machine, ins: Instr)
    requires Decode(Read(m, m.pc)) == ins
    ensures Step(m) == Execute(ins, m.(pc := m.pc + 1))
  {
  }

  /** BRK and RTI take no operand; the handler runs on the state after the opcode fetch. */
  lemma ExecuteImplied(op: StackOp, s: Machine)
    ensures Execute(Instr(Stack(op), Imp), s) == StackHandler(op, s, 0)
  {
    ExecuteWithoutOperand(Instr(Stack(op), Imp), s);
    StackIsHandler(op, Imp, s, 0);
  }

  /** An implied-mode entry runs its handler on the state as it is, with no address. */
  lemma ExecuteWithoutOperand(ins: Instr, s: Machine)
    requires ins.mode == Imp
    ensures Execute(ins, s) == Operate(ins, s, 0)
  {
    assert s.(pc := NextPc(Imp, s.pc)) == s;
  }

  /** The table sends opcode 0x00 to BRK. */
  lemma StepIsBrk(m: Machine)
    requires Read(m, m.pc) == 0x00
    ensures Step(m) == StackHandler(BRK, m.(pc := m.pc + 1), 0)
  {
    DecodeControl();
    ExecuteImplied(BRK, m.(pc := m.pc + 1));
  }

  /** BRK at p is an interrupt entry returning to p + 2, pushing the status with B set, through 0xFFFE. */
  lemma StepBrk(m: Machine)
    requires Read(m, m.pc) == 0x00
    ensures Step(m) == Interrupt(m.(pc := m.pc + 1), m.pc + 2, m.status | BREAK, 0xFFFE)
  {
    StepIsBrk(m);
    NextNext(m.pc);
  }

  /** RTI pulls the status, then pc, and ignores the operand bytes. */
  lemma StepRti(m: Machine)
    requires Read(m, m.pc) == 0x40
    ensures Step(m) == StackHandler(RTI, m.(pc := m.pc + 1), 0)
  {
    DecodeControl();
    ExecuteImplied(RTI, m.(pc := m.pc + 1));
  }

  /**
   * BRK at p: the stack holds p + 2, high byte first, then the status with B set; I is set,
   * sp has gone down by three and pc comes from the vector at 0xFFFE.
   */
  lemma BrkPushesFrame(m: Machine)
    requires Read(m, m.pc) == 0x00
    ensures var t := Step(m);
      Read(t, StackAddr(m.sp)) == Hi(m.pc + 2) && Read(t, StackAddr(m.sp - 1)) == Lo(m.pc + 2) &&
      Read(t, StackAddr(m.sp - 2)) == m.status | BREAK &&
      t.pc == Word(Read(m, 0xFFFE), Read(m, 0xFFFF)) && t.sp == m.sp - 3 &&
      Has(t.status, INTERRUPT) && t.status & !INTERRUPT == m.status & !INTERRUPT
  {
    StepBrk(m);
    var s := m.(pc := m.pc + 1);
    InterruptEntry(s, m.pc + 2, m.status | BREAK, 0xFFFE);
    InterruptPushesReturnHi(s, m.pc + 2, m.status | BREAK, 0xFFFE);
    InterruptPushesReturnLo(s, m.pc + 2, m.status | BREAK, 0xFFFE);
    InterruptPushesStatus(s, m.pc + 2, m.status | BREAK, 0xFFFE);
  }

  /**
   * BRK at p followed by RTI, at the address the vector names, resumes at p + 2 with the
   * status BRK pushed (B set), sp and A, X, Y as before.
   */
  lemma BrkThenRti(m: Machine)
    requires Read(m, m.pc) == 0x00
    requires Read(Step(m), Step(m).pc) == 0x40
    ensures var r := Step(Step(m));
      r.pc == m.pc + 2 && r.status == m.status | BREAK && r.sp == m.sp &&
      r.a == m.a && r.x == m.x && r.y == m.y
  {
    var t := Step(m);
    StepBrk(m);
    StepRti(t);
    ReturnUndoesInterrupt(m.(pc := m.pc + 1), m.pc + 2, m.status | BREAK, 0xFFFE, t.pc + 1);
  }

  // ---------------------------------------------------------------- IRQ and NMI

  /**
   * irq6502: the stack holds pc, high byte first, then the status as it was (B not forced);
   * I is set, sp has gone down by three and pc comes from the vector at 0xFFFE.
   */
  lemma IrqPushesFrame(m: Machine)
    ensures var t := Irq(m);
      Read(t, StackAddr(m.sp)) == Hi(m.pc) && Read(t, StackAddr(m.sp - 1)) == Lo(m.pc) &&
      Read(t, StackAddr(m.sp - 2)) == m.status &&
      t.pc == Word(Read(m, 0xFFFE), Read(m, 0xFFFF)) && t.sp == m.sp - 3 &&
      Has(t.status, INTERRUPT) && t.status & !INTERRUPT == m.status & !INTERRUPT
  {
    InterruptEntry(m, m.pc, m.status, 0xFFFE);
    InterruptPushesReturnHi(m, m.pc, m.status, 0xFFFE);
    InterruptPushesReturnLo(m, m.pc, m.status, 0xFFFE);
    InterruptPushesStatus(m, m.pc, m.status, 0xFFFE);
  }

  /** nmi6502: the same frame, through the vector at 0xFFFA. */
  lemma NmiPushesFrame(m: Machine)
    ensures var t := Nmi(m);
      Read(t, StackAddr(m.sp)) == Hi(m.pc) && Read(t, StackAddr(m.sp - 1)) == Lo(m.pc) &&
      Read(t, StackAddr(m.sp - 2)) == m.status &&
      t.pc == Word(Read(m, 0xFFFA), Read(m, 0xFFFB)) && t.sp == m.sp - 3 &&
      Has(t.status, INTERRUPT) && t.status & !INTERRUPT == m.status & !INTERRUPT
  {
    InterruptEntry(m, m.pc, m.status, 0xFFFA);
    InterruptPushesReturnHi(m, m.pc, m.status, 0xFFFA);
    InterruptPushesReturnLo(m, m.pc, m.status, 0xFFFA);
    InterruptPushesStatus(m, m.pc, m.status, 0xFFFA);
  }

  /** An RTI first thing in the interrupt handler resumes the interrupted program exactly. */
  lemma IrqThenRti(m: Machine)
    requires Read(Irq(m), Irq(m).pc) == 0x40
    ensures var r := Step(Irq(m));
      r.pc == m.pc && r.status == m.status && r.sp == m.sp && r.a == m.a && r.x == m.x && r.y == m.y
  {
    var t := Irq(m);
    StepRti(t);
    ReturnUndoesInterrupt(m, m.pc, m.status, 0xFFFE, t.pc + 1);
  }

  lemma NmiThenRti(m: Machine)
    requires Read(Nmi(m), Nmi(m).pc) == 0x40
    ensures var r := Step(Nmi(m));
      r.pc == m.pc && r.status == m.status && r.sp == m.sp && r.a == m.a && r.x == m.x && r.y == m.y
  {
    var t := Nmi(m);
    StepRti(t);
    ReturnUndoesInterrupt(m, m.pc, m.status, 0xFFFA, t.pc + 1);
  }

  // ---------------------------------------------------------------- JSR, RTS and JMP

  /** JSR reads its target as an absolute operand and runs with pc past the operand. */
  lemma ExecuteJsr(s: Machine)
    ensures Execute(Instr(Stack(JSR), Abso), s) == StackHandler(JSR, s.(pc := s.pc + 2), ReadWord(s, s.pc))
  {
  }

  /** The table sends opcode 0x20 to JSR, which takes the operand word as its target. */
  lemma StepIsJsr(m: Machine)
    requires Read(m, m.pc) == 0x20
    ensures Step(m) == StackHandler(JSR, m.(pc := m.pc + 1 + 2), ReadWord(m, m.pc + 1))
  {
    StepDecodes(m, Instr(Stack(JSR), Abso));
    var s := m.(pc := m.pc + 1);
    ExecuteJsr(s);
    OffsetCongruent(s.pc, m.pc + 1, 2);
    assert s.(pc := s.pc + 2) == m.(pc := m.pc + 1 + 2);
    assert ReadWord(s, s.pc) == ReadWord(m, m.pc + 1);
  }

  /** The address JSR pushes: the opcode's address plus three, minus one. */
  lemma JsrReturnAddress(p: word, q: word)
    requires q == p + 1 + 2
    ensures q - 1 == p + 2
  {
  }

  /** The JSR handler writes the high byte of `ret` = pc - 1 at `top` = sp ... */
  lemma JsrHandlerPushesHi(u: Machine, target: word, ret: word, top: byte)
    requires ret == u.pc - 1 && top == u.sp
    ensures Read(StackHandler(JSR, u, target), StackAddr(top)) == Hi(ret)
  {
    Push16Reads(u, u.pc - 1);
  }

  /** ... its low byte just below ... */
  lemma JsrHandlerPushesLo(u: Machine, target: word, ret: word, top: byte)
    requires ret == u.pc - 1 && top == u.sp
    ensures Read(StackHandler(JSR, u, target), StackAddr(top - 1)) == Lo(ret)
  {
    Push16Reads(u, u.pc - 1);
    StackOffsetsCongruent(u.sp, top);
  }

  /** ... moves sp down by two ... */
  lemma JsrHandlerSp(u: Machine, target: word, top: byte)
    requires top == u.sp
    ensures StackHandler(JSR, u, target).sp == top - 2
  {
    Push16Reads(u, u.pc - 1);
  }

  /** ... and jumps, keeping the other registers. */
  lemma JsrHandlerJumps(u: Machine, target: word)
    ensures var t := StackHandler(JSR, u, target);
      t.pc == target && t.a == u.a && t.x == u.x && t.y == u.y && t.status == u.status
  {
  }

  /** The whole effect of the JSR handler. */
  lemma JsrHandler(u: Machine, target: word, ret: word, top: byte)
    requires ret == u.pc - 1 && top == u.sp
    ensures var t := StackHandler(JSR, u, target);
      Read(t, StackAddr(top)) == Hi(ret) && Read(t, StackAddr(top - 1)) == Lo(ret) &&
      t.sp == top - 2 && t.pc == target &&
      t.a == u.a && t.x == u.x && t.y == u.y && t.status == u.status
  {
    JsrHandlerPushesHi(u, target, ret, top);
    JsrHandlerPushesLo(u, target, ret, top);
    JsrHandlerSp(u, target, top);
    JsrHandlerJumps(u, target);
  }

  /** The JSR handler run from `u`, the state with pc past a JSR at `m.pc`, pushes `m.pc + 2`. */
  lemma JsrHandlerAfterFetch(m: Machine, u: Machine, t: Machine)
    requires u.pc == m.pc + 1 + 2 && u.sp == m.sp
    requires u.a == m.a && u.x == m.x && u.y == m.y && u.status == m.status
    requires t == StackHandler(JSR, u, ReadWord(m, m.pc + 1))
    ensures Read(t, StackAddr(m.sp)) == Hi(m.pc + 2) && Read(t, StackAddr(m.sp - 1)) == Lo(m.pc + 2) &&
      t.sp == m.sp - 2 && t.pc == ReadWord(m, m.pc + 1) &&
      t.a == m.a && t.x == m.x && t.y == m.y && t.status == m.status
  {
    JsrReturnAddress(m.pc, u.pc);
    JsrHandler(u, ReadWord(m, m.pc + 1), m.pc + 2, m.sp);
  }

  /**
   * JSR at p: the stack holds p + 2 (the last byte of the instruction), high byte first,
   * sp has gone down by two and pc is the operand; no other register changes.
   */
  lemma JsrPushesReturn(m: Machine)
    requires Read(m, m.pc) == 0x20
    ensures var t := Step(m);
      Read(t, StackAddr(m.sp)) == Hi(m.pc + 2) && Read(t, StackAddr(m.sp - 1)) == Lo(m.pc + 2) &&
      t.sp == m.sp - 2 && t.pc == ReadWord(m, m.pc + 1) &&
      t.a == m.a && t.x == m.x && t.y == m.y && t.status == m.status
  {
    StepIsJsr(m);
    JsrHandlerAfterFetch(m, m.(pc := m.pc + 1 + 2), Step(m));
  }

  /** The table sends opcode 0x60 to RTS. */
  lemma StepIsRts(t: Machine)
    requires Read(t, t.pc) == 0x60
    ensures Step(t) == StackHandler(RTS, t.(pc := t.pc + 1), 0)
  {
    DecodeControl();
    ExecuteImplied(RTS, t.(pc := t.pc + 1));
  }

  /** RTS pulls pc, low byte first, and adds one. */
  lemma ReturnFromSubroutine(t: Machine)
    ensures StackHandler(RTS, t, 0).pc == Word(Read(t, StackAddr(t.sp + 1)), Read(t, StackAddr(t.sp + 2))) + 1
  {
    OffsetCongruent(Pull16(t).0, Word(Read(t, StackAddr(t.sp + 1)), Read(t, StackAddr(t.sp + 2))), 1);
  }

  /** The word on top of the stack is the same in two states with the same sp and memory. */
  lemma StackWordAfterFetch(t: Machine, s: Machine)
    requires s.sp == t.sp && s.mem == t.mem
    ensures Word(Read(s, StackAddr(s.sp + 1)), Read(s, StackAddr(s.sp + 2))) + 1 ==
      Word(Read(t, StackAddr(t.sp + 1)), Read(t, StackAddr(t.sp + 2))) + 1
  {
    StackOffsetsCongruent(s.sp, t.sp);
    OffsetCongruent(Word(Read(s, StackAddr(s.sp + 1)), Read(s, StackAddr(s.sp + 2))),
      Word(Read(t, StackAddr(t.sp + 1)), Read(t, StackAddr(t.sp + 2))), 1);
  }

  /** The RTS handler run from `s`, the state after the fetch at t, continues after the address on t's stack ... */
  lemma RtsHandlerPc(t: Machine, s: Machine)
    requires s.sp == t.sp && s.mem == t.mem
    ensures StackHandler(RTS, s, 0).pc == Word(Read(t, StackAddr(t.sp + 1)), Read(t, StackAddr(t.sp + 2))) + 1
  {
    ReturnFromSubroutine(s);
    StackWordAfterFetch(t, s);
  }

  /** ... moves sp up by two ... */
  lemma RtsHandlerSp(t: Machine, s: Machine)
    requires s.sp == t.sp
    ensures StackHandler(RTS, s, 0).sp == t.sp + 2
  {
    StackOffsetsCongruent(s.sp, t.sp);
  }

  /** ... and changes nothing else. */
  lemma RtsHandlerKeeps(t: Machine, s: Machine)
    requires s.a == t.a && s.x == t.x && s.y == t.y && s.status == t.status && s.mem == t.mem
    ensures var r := StackHandler(RTS, s, 0);
      r.a == t.a && r.x == t.x && r.y == t.y && r.status == t.status && r.mem == t.mem
  {
  }

  /** The RTS handler after the fetch at t: the address on t's stack plus one and sp up by two; nothing else changes. */
  lemma RtsHandlerPulls(t: Machine, s: Machine)
    requires s.sp == t.sp && s.mem == t.mem
    requires s.a == t.a && s.x == t.x && s.y == t.y && s.status == t.status
    ensures var r := StackHandler(RTS, s, 0);
      r.pc == Word(Read(t, StackAddr(t.sp + 1)), Read(t, StackAddr(t.sp + 2))) + 1 && r.sp == t.sp + 2 &&
      r.a == t.a && r.x == t.x && r.y == t.y && r.status == t.status && r.mem == t.mem
  {
    RtsHandlerPc(t, s);
    RtsHandlerSp(t, s);
    RtsHandlerKeeps(t, s);
  }

  /** RTS at any address: the pulled address plus one, sp up by two. */
  lemma StepRts(t: Machine)
    requires Read(t, t.pc) == 0x60
    ensures var r := Step(t);
      r.pc == Word(Read(t, StackAddr(t.sp + 1)), Read(t, StackAddr(t.sp + 2))) + 1 && r.sp == t.sp + 2 &&
      r.a == t.a && r.x == t.x && r.y == t.y && r.status == t.status && r.mem == t.mem
  {
    StepIsRts(t);
    RtsHandlerPulls(t, t.(pc := t.pc + 1));
  }

  /** Two pushes below `top` are pulled back from `sp + 1` and `sp + 2`. */
  lemma StackSlots(top: byte, sp: byte)
    requires sp == top - 2
    ensures sp + 1 == top - 1 && sp + 2 == top
  {
  }

  /** RTS reads back what JSR at p pushed: p + 3 is the address after the JSR. */
  lemma ReturnAfterJsr(p: word, w: word)
    requires w == Word(Lo(p + 2), Hi(p + 2))
    ensures w + 1 == p + 3
  {
    WordOfBytes(p + 2);
  }

  /** The address RTS computes from a stack on which JSR at p left its two bytes below `top`. */
  lemma PulledJsrReturn(u: Machine, top: byte, p: word)
    requires u.sp + 2 == top
    requires Read(u, StackAddr(top)) == Hi(p + 2) && Read(u, StackAddr(top - 1)) == Lo(p + 2)
    ensures Word(Read(u, StackAddr(u.sp + 1)), Read(u, StackAddr(u.sp + 2))) + 1 == p + 3
  {
    assert u.sp == top - 2;
    StackSlots(top, u.sp);
    ReturnAfterJsr(p, Word(Read(u, StackAddr(u.sp + 1)), Read(u, StackAddr(u.sp + 2))));
  }

  /** A state `r` whose pc RTS computed from the stack JSR at `m.pc` left below `m.sp` is back at `m.pc + 3`. */
  lemma ReturnedFromJsr(m: Machine, u: Machine, r: Machine)
    requires u.sp + 2 == m.sp
    requires Read(u, StackAddr(m.sp)) == Hi(m.pc + 2) && Read(u, StackAddr(m.sp - 1)) == Lo(m.pc + 2)
    requires r.pc == Word(Read(u, StackAddr(u.sp + 1)), Read(u, StackAddr(u.sp + 2))) + 1
    ensures r.pc == m.pc + 3
  {
    PulledJsrReturn(u, m.sp, m.pc);
  }

  /** An RTS that finds the two bytes JSR at p pushed below `m.sp` resumes at p + 3 ... */
  lemma RtsAfterJsrPc(m: Machine, u: Machine)
    requires u.sp + 2 == m.sp
    requires Read(u, StackAddr(m.sp)) == Hi(m.pc + 2) && Read(u, StackAddr(m.sp - 1)) == Lo(m.pc + 2)
    requires Read(u, u.pc) == 0x60
    ensures Step(u).pc == m.pc + 3
  {
    StepRts(u);
    ReturnedFromJsr(m, u, Step(u));
  }

  /** ... and with sp back where it was before the JSR. */
  lemma RtsAfterJsrSp(m: Machine, u: Machine)
    requires u.sp + 2 == m.sp
    requires Read(u, u.pc) == 0x60
    ensures Step(u).sp == m.sp
  {
    StepRts(u);
  }

  /**
   * So an RTS that finds the stack as JSR at p left it returns to p + 3 with the stack as
   * before the JSR, whatever the subroutine did in between.
   */
  lemma RtsAfterJsr(m: Machine, u: Machine)
    requires u.sp + 2 == m.sp
    requires Read(u, StackAddr(m.sp)) == Hi(m.pc + 2) && Read(u, StackAddr(m.sp - 1)) == Lo(m.pc + 2)
    requires Read(u, u.pc) == 0x60
    ensures Step(u).pc == m.pc + 3 && Step(u).sp == m.sp
  {
    RtsAfterJsrPc(m, u);
    RtsAfterJsrSp(m, u);
  }

  /** JSR at p with an RTS as the first instruction of the subroutine returns to p + 3. */
  lemma JsrThenRts(m: Machine)
    requires Read(m, m.pc) == 0x20
    requires Read(Step(m), Step(m).pc) == 0x60
    ensures Step(Step(m)).pc == m.pc + 3 && Step(Step(m)).sp == m.sp
  {
    JsrPushesReturn(m);
    assert Step(m).sp + 2 == m.sp;
    RtsAfterJsr(m, Step(m));
  }

  /** JMP takes its effective address as the new pc and changes nothing else. */
  lemma ExecuteJmp(mode: Mode, s: Machine)
    ensures Execute(Instr(JMP, mode), s) == s.(pc := EffectiveAddress(mode, s))
  {
  }

  /** JMP abs at p continues at the operand word. */
  lemma StepJmpAbsolute(m: Machine)
    requires Read(m, m.pc) == 0x4C
    ensures Step(m) == m.(pc := ReadWord(m, m.pc + 1))
  {
    DecodeControl();
    ExecuteJmp(Abso, m.(pc := m.pc + 1));
  }

  /** JMP (abs) at p continues at the word the pointer operand names, read with the page wrap. */
  lemma StepJmpIndirect(m: Machine)
    requires Read(m, m.pc) == 0x6C
    ensures Step(m) == m.(pc := Indirect(m.(pc := m.pc + 1)))
  {
    DecodeControl();
    ExecuteJmp(Ind, m.(pc := m.pc + 1));
  }

  // ---------------------------------------------------------------- branches and straight-line steps

  /** A branch handler after REL: the target when the condition holds, otherwise the next instruction. */
  lemma ExecuteBranch(c: Condition, s: Machine)
    ensures Execute(Instr(Branch(c), Rel), s) ==
      s.(pc := if Taken(c, s.status) then BranchTarget(s.pc, Read(s, s.pc)) else s.pc + 1)
  {
  }

  /** A branch at p goes to p + 2 plus the sign-extended offset when taken, and to p + 2 otherwise. */
  lemma StepBranch(m: Machine)
    requires Read(m, m.pc) & 0x1F == 0x10
    ensures var c := Decode(Read(m, m.pc)).op.cond;
      Step(m) == m.(pc := if Taken(c, m.status) then BranchTarget(m.pc + 1, Read(m, m.pc + 1)) else m.pc + 1 + 1)
  {
    DecodeBranches(Read(m, m.pc));
    StepDecodes(m, Instr(Branch(Decode(Read(m, m.pc)).op.cond), Rel));
    ExecuteBranch(Decode(Read(m, m.pc)).op.cond, m.(pc := m.pc + 1));
  }

  /** Every instruction that does not jump ends just past its opcode and operand bytes. */
  lemma StepAdvancesPc(m: Machine)
    requires !Jumps(Decode(Read(m, m.pc)).op)
    ensures Step(m).pc == NextPc(Decode(Read(m, m.pc)).mode, m.pc + 1)
  {
    ExecuteAdvancesPc(Decode(Read(m, m.pc)), m.(pc := m.pc + 1));
  }

  // ---------------------------------------------------------------- reset and exec6502

  /** After reset6502 pc is the reset vector, A, X and Y are 0 and the stack top is 0x01FD. */
  lemma ResetState(m: Machine)
    ensures var r := Reset(m);
      r.pc == Word(Read(m, 0xFFFC), Read(m, 0xFFFD)) && r.a == 0 && r.x == 0 && r.y == 0 &&
      StackAddr(r.sp) == 0x01FD && r.status == m.status && r.mem == m.mem
  {
  }

  /** exec6502(1) is one step ... */
  lemma RunOne(m: Machine)
    ensures Run(m, 1) == Step(m)
  {
  }

  /** Applying f a times and then b times is applying it a + b times. */
  lemma {:induction false} IterateAdd(f: Machine -> Machine, m: Machine, a: nat, b: nat)
    ensures Iterate(f, m, a + b) == Iterate(f, Iterate(f, m, a), b)
    decreases b
  {
    if b > 0 {
      IterateAdd(f, m, a, b - 1);
      assert a + b - 1 == a + (b - 1);
    }
  }

  /** ... and running a steps and then b steps is running a + b steps. */
  lemma RunAdd(m: Machine, a: nat, b: nat)
    ensures Run(m, a + b) == Run(Run(m, a), b)
  {
    IterateAdd(Step, m, a, b);
  }
}
