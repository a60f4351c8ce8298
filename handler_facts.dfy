/**
 * What the handlers do once their addressing macro has run: which of them move pc, which
 * write memory and where, what the compares, the flag handlers and the register handlers
 * leave in the registers, and the undocumented handlers whose memory write is missing.
 */
module HandlerFacts {
  import opened Bits
  import opened Flags
  import opened Alu
  import opened Isa
  import opened Machine

  /** The handlers that set pc themselves: the branches, JMP and the stack handlers that jump. */
  predicate Jumps(op: Op)
  {
    op.Branch? || op == JMP || (op.Stack? && op.stack in {BRK, JSR, RTI, RTS})
  }

  /** The handlers that can write memory. */
  predicate Writes(op: Op)
  {
    op.Rmw? || op.Stack? || op.Store?
  }

  /**
   * The accumulator handlers change only A and the status. In particular the undocumented
   * SLO, RLA, SRE, RRA and ISB, which on the processor also write their shifted, rotated or
   * incremented operand back, leave memory as it was here.
   */
  lemma ArithChangesOnlyAccumulator(op: ArithOp, mode: Mode, s: Machine, ea: word)
    ensures var r := Operate(Instr(Arith(op), mode), s, ea);
      r == s.(a := r.a, status := r.status)
  {
  }

  /** BIT, CMP, CPX and CPY change the status and nothing else ... */
  lemma TestsChangeOnlyStatus(op: TestOp, mode: Mode, s: Machine, ea: word)
    ensures var r := Operate(Instr(Test(op), mode), s, ea);
      r == s.(status := r.status)
  {
  }

  /** ... and so do CLC … SEI. */
  lemma FlagsChangeOnlyStatus(op: FlagOp, mode: Mode, s: Machine, ea: word)
    ensures var r := Operate(Instr(Flag(op), mode), s, ea);
      r == s.(status := r.status)
  {
  }

  /** Loads, transfers and counts hand their value to Assign ... */
  lemma LoadIsAssign(op: LoadOp, mode: Mode, s: Machine, ea: word)
    ensures Operate(Instr(Load(op), mode), s, ea) == Assign(s, LoadTarget(op), Operand(mode, s, ea))
  {
  }

  lemma TransferIsAssign(op: TransferOp, mode: Mode, s: Machine, ea: word)
    ensures Operate(Instr(Transfer(op), mode), s, ea) == Assign(s, TransferTarget(op), Transferred(op, s.a, s.x, s.y, s.sp))
  {
  }

  lemma CountIsAssign(op: CountOp, mode: Mode, s: Machine, ea: word)
    ensures Operate(Instr(Count(op), mode), s, ea) == Assign(s, CountTarget(op), Counted(op, s.x, s.y))
  {
  }

  /** ... which changes registers only. */
  lemma AssignKeepsPcAndMemory(s: Machine, t: Target, v: byte)
    ensures Assign(s, t, v).pc == s.pc && Assign(s, t, v).mem == s.mem
  {
  }

  /** The read-modify-write handlers, the stores and the pushes and pulls keep pc. */
  lemma RmwIsModify(op: RmwOp, mode: Mode, s: Machine, ea: word)
    ensures Operate(Instr(Rmw(op), mode), s, ea) == Modify(s, mode, ea, Modified(op, Operand(mode, s, ea), s.status))
  {
  }

  lemma ModifyKeepsPc(s: Machine, mode: Mode, ea: word, r: Result)
    ensures Modify(s, mode, ea, r).pc == s.pc
  {
  }

  lemma StoreIsHandler(op: StoreOp, mode: Mode, s: Machine, ea: word)
    ensures Operate(Instr(Store(op), mode), s, ea) == StoreHandler(op, s, ea, Operand(mode, s, ea))
  {
  }

  lemma StoreHandlerKeepsPc(op: StoreOp, s: Machine, ea: word, v: byte)
    ensures StoreHandler(op, s, ea, v).pc == s.pc
  {
  }

  lemma StackIsHandler(op: StackOp, mode: Mode, s: Machine, ea: word)
    ensures Operate(Instr(Stack(op), mode), s, ea) == StackHandler(op, s, ea)
  {
  }

  lemma PushPullKeepsPc(op: StackOp, s: Machine, ea: word)
    requires !(op in {BRK, JSR, RTI, RTS})
    ensures StackHandler(op, s, ea).pc == s.pc
  {
    match op
    case PHA => assert Push8(s, s.a).pc == s.pc;
    case PHP => assert Push8(s, s.status | BREAK).pc == s.pc;
    case PLA => assert Pull8(s).1.pc == s.pc;
    case PLP => assert Pull8(s).1.pc == s.pc;
  }

  /** Every handler that does not jump leaves pc where its addressing macro put it ... */
  lemma OperateKeepsPc(ins: Instr, s: Machine, ea: word)
    requires !Jumps(ins.op)
    ensures Operate(ins, s, ea).pc == s.pc
  {
    match ins.op
    case Arith(op) => ArithChangesOnlyAccumulator(op, ins.mode, s, ea);
    case Rmw(op) =>
      RmwIsModify(op, ins.mode, s, ea);
      ModifyKeepsPc(s, ins.mode, ea, Modified(op, Operand(ins.mode, s, ea), s.status));
    case Flag(op) => FlagsChangeOnlyStatus(op, ins.mode, s, ea);
    case Stack(op) =>
      StackIsHandler(op, ins.mode, s, ea);
      PushPullKeepsPc(op, s, ea);
    case Store(op) =>
      StoreIsHandler(op, ins.mode, s, ea);
      StoreHandlerKeepsPc(op, s, ea, Operand(ins.mode, s, ea));
    case Test(op) => TestsChangeOnlyStatus(op, ins.mode, s, ea);
    case Count(op) =>
      CountIsAssign(op, ins.mode, s, ea);
      AssignKeepsPcAndMemory(s, CountTarget(op), Counted(op, s.x, s.y));
    case Load(op) =>
      LoadIsAssign(op, ins.mode, s, ea);
      AssignKeepsPcAndMemory(s, LoadTarget(op), Operand(ins.mode, s, ea));
    case Transfer(op) =>
      TransferIsAssign(op, ins.mode, s, ea);
      AssignKeepsPcAndMemory(s, TransferTarget(op), Transferred(op, s.a, s.x, s.y, s.sp));
    case NOP =>
  }

  /** ... so an instruction that does not jump ends just past its operand bytes. */
  lemma ExecuteAdvancesPc(ins: Instr, m: Machine)
    requires !Jumps(ins.op)
    ensures Execute(ins, m).pc == NextPc(ins.mode, m.pc)
  {
    OperateKeepsPc(ins, m.(pc := NextPc(ins.mode, m.pc)), EffectiveAddress(ins.mode, m));
  }

  /** Only the read-modify-write, stack and store handlers write memory. */
  lemma OperateKeepsMemory(ins: Instr, s: Machine, ea: word)
    requires !Writes(ins.op)
    ensures Operate(ins, s, ea).mem == s.mem
  {
    match ins.op
    case Arith(op) => ArithChangesOnlyAccumulator(op, ins.mode, s, ea);
    case Flag(op) => FlagsChangeOnlyStatus(op, ins.mode, s, ea);
    case Test(op) => TestsChangeOnlyStatus(op, ins.mode, s, ea);
    case Count(op) =>
      CountIsAssign(op, ins.mode, s, ea);
      AssignKeepsPcAndMemory(s, CountTarget(op), Counted(op, s.x, s.y));
    case Load(op) =>
      LoadIsAssign(op, ins.mode, s, ea);
      AssignKeepsPcAndMemory(s, LoadTarget(op), Operand(ins.mode, s, ea));
    case Transfer(op) =>
      TransferIsAssign(op, ins.mode, s, ea);
      AssignKeepsPcAndMemory(s, TransferTarget(op), Transferred(op, s.a, s.x, s.y, s.sp));
    case Branch(_) =>
    case JMP =>
    case NOP =>
  }

  /** ISB subtracts the operand as it was, not the incremented one: it is SBC of the same operand. */
  lemma IsbIsSbc(mode: Mode, s: Machine, ea: word)
    ensures Operate(Instr(Arith(ISB), mode), s, ea) == Operate(Instr(Arith(SBC), mode), s, ea)
  {
  }

  /** A read-modify-write handler in memory stores its result at `ea` and nowhere else. */
  lemma RmwWritesEffectiveAddress(op: RmwOp, mode: Mode, s: Machine, ea: word, b: word)
    requires mode != Acc
    ensures var r := Operate(Instr(Rmw(op), mode), s, ea);
      Read(r, b) == if b == ea then Modified(op, Read(s, ea), s.status).value else Read(s, b)
  {
    ReadOfWrite(s, ea, Modified(op, Read(s, ea), s.status).value, b);
  }

  /** A read-modify-write handler on A leaves memory alone. */
  lemma RmwOnAccumulator(op: RmwOp, s: Machine, ea: word)
    ensures var r := Operate(Instr(Rmw(op), Acc), s, ea);
      r.mem == s.mem && r.a == Modified(op, s.a, s.status).value && r.status == Modified(op, s.a, s.status).status
  {
  }

  /** The byte a store handler writes. */
  function Stored(op: StoreOp, s: Machine, v: byte): byte
  {
    match op
    case STA => s.a
    case STX => s.x
    case STY => s.y
    case SAX => s.a & s.x
    case DCP => v - 1
  }

  /** A store writes its byte at `ea` and nowhere else, and keeps the registers. */
  lemma StoreWritesEffectiveAddress(op: StoreOp, s: Machine, ea: word, v: byte, b: word)
    ensures var r := StoreHandler(op, s, ea, v);
      Read(r, b) == (if b == ea then Stored(op, s, v) else Read(s, b)) &&
      r.pc == s.pc && r.sp == s.sp && r.a == s.a && r.x == s.x && r.y == s.y
  {
    ReadOfWrite(s, ea, Stored(op, s, v), b);
  }

  /** Only DCP of the stores changes the status ... */
  lemma StoresKeepStatus(op: StoreOp, s: Machine, ea: word, v: byte)
    requires op != DCP
    ensures StoreHandler(op, s, ea, v).status == s.status
  {
  }

  /** ... and it compares A with the byte as it was before the decrement. */
  lemma DcpComparesOldValue(s: Machine, ea: word, v: byte)
    ensures var r := StoreHandler(DCP, s, ea, v);
      (Has(r.status, CARRY) <==> s.a >= v) && (Has(r.status, ZERO) <==> s.a == v) &&
      (Has(r.status, SIGN) <==> s.a - v >= 0x80)
  {
    CompareFlags(s.a, v, s.status);
  }

  /**
   * With A = 0 and the byte 0x01, DCP stores 0x00 and still leaves Z clear, because it
   * compares A with 0x01; comparing with the stored byte would set Z.
   */
  lemma DcpQuirkExample(s: Machine, ea: word)
    requires s.a == 0
    ensures var r := StoreHandler(DCP, s, ea, 0x01);
      Read(r, ea) == 0x00 && !Has(r.status, ZERO) && Has(Compare(s.a, Read(r, ea), s.status), ZERO)
  {
    ReadOfWrite(s, ea, 0x00, ea);
    CompareFlags(s.a, 0x01, s.status);
    CompareFlags(s.a, 0x00, s.status);
  }

  /** CMP compares A, CPX compares X and CPY compares Y with the operand ... */
  lemma CompareStatus(op: TestOp, mode: Mode, s: Machine, ea: word)
    requires op != BIT
    ensures Operate(Instr(Test(op), mode), s, ea).status ==
      Compare(TestedRegister(op, s.a, s.x, s.y), Operand(mode, s, ea), s.status)
  {
  }

  /** The flags of a compare of the register `op` names. */
  lemma ComparedRegisterFlags(op: TestOp, s: Machine, v: byte, status: byte)
    requires op != BIT
    requires status == Compare(TestedRegister(op, s.a, s.x, s.y), v, s.status)
    ensures var reg := TestedRegister(op, s.a, s.x, s.y);
      (Has(status, CARRY) <==> reg >= v) && (Has(status, ZERO) <==> reg == v) &&
      (Has(status, SIGN) <==> reg - v >= 0x80) && status & 0x7C == s.status & 0x7C
  {
    CompareFlags(TestedRegister(op, s.a, s.x, s.y), v, s.status);
  }

  /**
   * ... setting C iff the register (A for CMP, X for CPX, Y for CPY) is at least the operand,
   * Z iff they are equal, and N from bit 7 of the difference; V, I, D and B are kept.
   */
  lemma CompareRegister(op: TestOp, mode: Mode, s: Machine, ea: word)
    requires op != BIT
    ensures var reg := TestedRegister(op, s.a, s.x, s.y);
      var v := Operand(mode, s, ea);
      var r := Operate(Instr(Test(op), mode), s, ea);
      (Has(r.status, CARRY) <==> reg >= v) && (Has(r.status, ZERO) <==> reg == v) &&
      (Has(r.status, SIGN) <==> reg - v >= 0x80) && r.status & 0x7C == s.status & 0x7C
  {
    CompareStatus(op, mode, s, ea);
    ComparedRegisterFlags(op, s, Operand(mode, s, ea), Operate(Instr(Test(op), mode), s, ea).status);
  }

  /** The flag a flag handler touches ... */
  function FlagOf(op: FlagOp): (f: byte)
    ensures IsFlag(f)
  {
    match op
    case CLC | SEC => CARRY
    case CLD | SED => DECIMAL
    case CLI | SEI => INTERRUPT
    case CLV => OVERFLOW
  }

  /** ... and whether it sets it. */
  predicate Sets(op: FlagOp)
  {
    op == SEC || op == SED || op == SEI
  }

  /** CLC … SEI give their one flag its value and leave the other seven bits alone. */
  lemma FlagChangeOneFlag(op: FlagOp, status: byte)
    ensures Has(FlagChange(op, status), FlagOf(op)) == Sets(op)
    ensures FlagChange(op, status) & !FlagOf(op) == status & !FlagOf(op)
  {
    PutOneFlag(status, FlagOf(op), Sets(op));
  }

  /** A branch goes to its target when the condition holds and otherwise falls through. */
  lemma BranchTakenOrNot(c: Condition, s: Machine, ea: word)
    ensures var r := Operate(Instr(Branch(c), Rel), s, ea);
      r == s.(pc := if Taken(c, s.status) then ea else s.pc)
  {
  }

  /** Each branch tests one flag: BCC/BCS carry, BNE/BEQ zero, BPL/BMI sign, BVC/BVS overflow. */
  lemma BranchConditions(status: byte)
    ensures Taken(BCS, status) <==> Has(status, CARRY)
    ensures Taken(BCC, status) <==> !Taken(BCS, status)
    ensures Taken(BEQ, status) <==> Has(status, ZERO)
    ensures Taken(BNE, status) <==> !Taken(BEQ, status)
    ensures Taken(BMI, status) <==> Has(status, SIGN)
    ensures Taken(BPL, status) <==> !Taken(BMI, status)
    ensures Taken(BVS, status) <==> Has(status, OVERFLOW)
    ensures Taken(BVC, status) <==> !Taken(BVS, status)
  {
  }

  /**
   * Loads, transfers into A, X or Y and the counts put the value in their register(s) and
   * no other, and keep sp; TXS sets sp and keeps the status.
   */
  lemma AssignRegisters(s: Machine, t: Target, v: byte)
    requires t != ToSp
    ensures var r := Assign(s, t, v);
      (t == ToA || t == ToAX ==> r.a == v) && (t == ToX || t == ToAX ==> r.x == v) && (t == ToY ==> r.y == v) &&
      (t == ToX || t == ToY ==> r.a == s.a) && (t != ToX && t != ToAX ==> r.x == s.x) && (t != ToY ==> r.y == s.y) &&
      r.sp == s.sp && r.pc == s.pc && r.mem == s.mem
  {
  }

  /** Assign sets zerocalc and signcalc from the value ... */
  lemma AssignStatus(s: Machine, t: Target, v: byte)
    requires t != ToSp
    ensures Assign(s, t, v).status == ZeroSign(s.status, v)
  {
  }

  /** ... so Z iff the value is 0 and N iff it is negative, the other flags kept. */
  lemma AssignFlags(s: Machine, t: Target, v: byte)
    requires t != ToSp
    ensures var r := Assign(s, t, v);
      (Has(r.status, ZERO) <==> v == 0) && (Has(r.status, SIGN) <==> v >= 0x80) && r.status & 0x7D == s.status & 0x7D
  {
    AssignStatus(s, t, v);
    ZeroSignOfValue(s.status, v);
  }

  lemma AssignStackPointer(s: Machine, v: byte)
    ensures Assign(s, ToSp, v) == s.(sp := v)
  {
  }

  /** INX/INY and DEX/DEY wrap: 0xFF + 1 is 0x00 with Z set, 0x00 - 1 is 0xFF with N set. */
  lemma CountWraps(s: Machine, mode: Mode, ea: word)
    ensures s.x == 0xFF ==>
      Operate(Instr(Count(INX), mode), s, ea).x == 0x00 && Has(Operate(Instr(Count(INX), mode), s, ea).status, ZERO)
    ensures s.y == 0x00 ==>
      Operate(Instr(Count(DEY), mode), s, ea).y == 0xFF && Has(Operate(Instr(Count(DEY), mode), s, ea).status, SIGN)
  {
    ZeroSignOfValue(s.status, s.x + 1);
    ZeroSignOfValue(s.status, s.y - 1);
  }

  /** The transfers copy the register they name. */
  lemma TransferCopies(op: TransferOp, mode: Mode, s: Machine, ea: word)
    ensures var r := Operate(Instr(Transfer(op), mode), s, ea);
      (op == TAX ==> r.x == s.a) && (op == TAY ==> r.y == s.a) && (op == TSX ==> r.x == s.sp) &&
      (op == TXA ==> r.a == s.x) && (op == TYA ==> r.a == s.y) && (op == TXS ==> r.sp == s.x && r.status == s.status)
  {
  }

  /** LAX loads A and X with the same operand. */
  lemma LaxLoadsBoth(mode: Mode, s: Machine, ea: word)
    ensures var r := Operate(Instr(Load(LAX), mode), s, ea);
      r.a == Operand(mode, s, ea) && r.x == Operand(mode, s, ea)
  {
    LoadIsAssign(LAX, mode, s, ea);
    AssignRegisters(s, ToAX, Operand(mode, s, ea));
  }
}
