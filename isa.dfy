/**
 * The instruction set as the interpreter dispatches it: every handler name in the dispatch
 * table is an operation and an addressing recipe, and the table maps each of the 256 opcode
 * bytes to one of them. The undocumented handlers are part of the build.
 */
module Isa {
  import opened Bits

  // The operations, grouped by the shape of their handlers.

  /** Handlers that combine A with the operand and save the result to A (ISB … RRA are undocumented). */
  datatype ArithOp = ADC | SBC | AND | ORA | EOR | ISB | SLO | RLA | SRE | RRA
  /** Read-modify-write handlers, on A or on the byte at the effective address. */
  datatype RmwOp = ASL | LSR | ROL | ROR | INC | DEC
  /** The conditional branches. */
  datatype Condition = BCC | BCS | BEQ | BNE | BMI | BPL | BVS | BVC
  /** The handlers that set or clear one status flag. */
  datatype FlagOp = CLC | CLD | CLI | CLV | SEC | SED | SEI
  /** The handlers that go through the stack. */
  datatype StackOp = BRK | JSR | RTI | RTS | PHA | PHP | PLA | PLP
  /** The handlers that store a byte at the effective address (SAX and DCP are undocumented). */
  datatype StoreOp = STA | STX | STY | SAX | DCP
  /** The handlers that only set flags from a register and the operand. */
  datatype TestOp = BIT | CMP | CPX | CPY
  /** Increment and decrement of X and Y. */
  datatype CountOp = DEX | DEY | INX | INY
  /** Loads of A, X and Y (LAX, undocumented, loads both A and X). */
  datatype LoadOp = LDA | LDX | LDY | LAX
  /** Register to register transfers. */
  datatype TransferOp = TAX | TAY | TSX | TXA | TYA | TXS

  /** The operation part of a handler name (`adc_imm` is `Arith(ADC)`). */
  datatype Op =
    | Arith(arith: ArithOp)
    | Rmw(rmw: RmwOp)
    | Branch(cond: Condition)
    | Flag(flag: FlagOp)
    | Stack(stack: StackOp)
    | Store(store: StoreOp)
    | Test(test: TestOp)
    | Count(count: CountOp)
    | Load(load: LoadOp)
    | Transfer(transfer: TransferOp)
    | JMP
    | NOP

  /**
   * The addressing recipe of a handler. ABSXNP, ABSYNP and INDYNP compute exactly what
   * ABSX, ABSY and INDY compute, so they share a mode; `Imp` is a handler with no operand
   * and `Acc` one that works on the accumulator.
   */
  datatype Mode = Imp | Acc | Imm | Zp | Zpx | Zpy | Rel | Abso | Absx | Absy | Ind | Indx | Indy

  datatype Instr = Instr(op: Op, mode: Mode)

  /** How many operand bytes follow the opcode. */
  function OperandLength(mode: Mode): (n: nat)
    ensures n <= 2
    ensures n == 0 <==> mode == Imp || mode == Acc
    ensures n == 2 <==> mode == Abso || mode == Absx || mode == Absy || mode == Ind
  {
    match mode
    case Imp | Acc => 0
    case Imm | Zp | Zpx | Zpy | Rel | Indx | Indy => 1
    case Abso | Absx | Absy | Ind => 2
  }

  /** The dispatch table, cell by cell: `Row0` holds opcodes 0x00 to 0x0F, `Row1` 0x10 to 0x1F, and so on. */
  const Row0: seq<Instr> := [
    Instr(Stack(BRK), Imp), Instr(Arith(ORA), Indx), Instr(NOP, Imp), Instr(Arith(SLO), Indx),
    Instr(NOP, Zp), Instr(Arith(ORA), Zp), Instr(Rmw(ASL), Zp), Instr(Arith(SLO), Zp),
    Instr(Stack(PHP), Imp), Instr(Arith(ORA), Imm), Instr(Rmw(ASL), Acc), Instr(NOP, Imm),
    Instr(NOP, Abso), Instr(Arith(ORA), Abso), Instr(Rmw(ASL), Abso), Instr(Arith(SLO), Abso)
  ]
  const Row1: seq<Instr> := [
    Instr(Branch(BPL), Rel), Instr(Arith(ORA), Indy), Instr(NOP, Imp), Instr(Arith(SLO), Indy),
    Instr(NOP, Zpx), Instr(Arith(ORA), Zpx), Instr(Rmw(ASL), Zpx), Instr(Arith(SLO), Zpx),
    Instr(Flag(CLC), Imp), Instr(Arith(ORA), Absy), Instr(NOP, Imp), Instr(Arith(SLO), Absy),
    Instr(NOP, Absx), Instr(Arith(ORA), Absx), Instr(Rmw(ASL), Absx), Instr(Arith(SLO), Absx)
  ]
  const Row2: seq<Instr> := [
    Instr(Stack(JSR), Abso), Instr(Arith(AND), Indx), Instr(NOP, Imp), Instr(Arith(RLA), Indx),
    Instr(Test(BIT), Zp), Instr(Arith(AND), Zp), Instr(Rmw(ROL), Zp), Instr(Arith(RLA), Zp),
    Instr(Stack(PLP), Imp), Instr(Arith(AND), Imm), Instr(Rmw(ROL), Acc), Instr(NOP, Imm),
    Instr(Test(BIT), Abso), Instr(Arith(AND), Abso), Instr(Rmw(ROL), Abso), Instr(Arith(RLA), Abso)
  ]
  const Row3: seq<Instr> := [
    Instr(Branch(BMI), Rel), Instr(Arith(AND), Indy), Instr(NOP, Imp), Instr(Arith(RLA), Indy),
    Instr(NOP, Zpx), Instr(Arith(AND), Zpx), Instr(Rmw(ROL), Zpx), Instr(Arith(RLA), Zpx),
    Instr(Flag(SEC), Imp), Instr(Arith(AND), Absy), Instr(NOP, Imp), Instr(Arith(RLA), Absy),
    Instr(NOP, Absx), Instr(Arith(AND), Absx), Instr(Rmw(ROL), Absx), Instr(Arith(RLA), Absx)
  ]
  const Row4: seq<Instr> := [
    Instr(Stack(RTI), Imp), Instr(Arith(EOR), Indx), Instr(NOP, Imp), Instr(Arith(SRE), Indx),
    Instr(NOP, Zp), Instr(Arith(EOR), Zp), Instr(Rmw(LSR), Zp), Instr(Arith(SRE), Zp),
    Instr(Stack(PHA), Imp), Instr(Arith(EOR), Imm), Instr(Rmw(LSR), Acc), Instr(NOP, Imm),
    Instr(JMP, Abso), Instr(Arith(EOR), Abso), Instr(Rmw(LSR), Abso), Instr(Arith(SRE), Abso)
  ]
  const Row5: seq<Instr> := [
    Instr(Branch(BVC), Rel), Instr(Arith(EOR), Indy), Instr(NOP, Imp), Instr(Arith(SRE), Indy),
    Instr(NOP, Zpx), Instr(Arith(EOR), Zpx), Instr(Rmw(LSR), Zpx), Instr(Arith(SRE), Zpx),
    Instr(Flag(CLI), Imp), Instr(Arith(EOR), Absy), Instr(NOP, Imp), Instr(Arith(SRE), Absy),
    Instr(NOP, Absx), Instr(Arith(EOR), Absx), Instr(Rmw(LSR), Absx), Instr(Arith(SRE), Absx)
  ]
  const Row6: seq<Instr> := [
    Instr(Stack(RTS), Imp), Instr(Arith(ADC), Indx), Instr(NOP, Imp), Instr(Arith(RRA), Indx),
    Instr(NOP, Zp), Instr(Arith(ADC), Zp), Instr(Rmw(ROR), Zp), Instr(Arith(RRA), Zp),
    Instr(Stack(PLA), Imp), Instr(Arith(ADC), Imm), Instr(Rmw(ROR), Acc), Instr(NOP, Imm),
    Instr(JMP, Ind), Instr(Arith(ADC), Abso), Instr(Rmw(ROR), Abso), Instr(Arith(RRA), Abso)
  ]
  const Row7: seq<Instr> := [
    Instr(Branch(BVS), Rel), Instr(Arith(ADC), Indy), Instr(NOP, Imp), Instr(Arith(RRA), Indy),
    Instr(NOP, Zpx), Instr(Arith(ADC), Zpx), Instr(Rmw(ROR), Zpx), Instr(Arith(RRA), Zpx),
    Instr(Flag(SEI), Imp), Instr(Arith(ADC), Absy), Instr(NOP, Imp), Instr(Arith(RRA), Absy),
    Instr(NOP, Absx), Instr(Arith(ADC), Absx), Instr(Rmw(ROR), Absx), Instr(Arith(RRA), Absx)
  ]
  const Row8: seq<Instr> := [
    Instr(NOP, Imm), Instr(Store(STA), Indx), Instr(NOP, Imp), Instr(Store(SAX), Indx),
    Instr(Store(STY), Zp), Instr(Store(STA), Zp), Instr(Store(STX), Zp), Instr(Store(SAX), Zp),
    Instr(Count(DEY), Imp), Instr(NOP, Imm), Instr(Transfer(TXA), Imp), Instr(NOP, Imm),
    Instr(Store(STY), Abso), Instr(Store(STA), Abso), Instr(Store(STX), Abso), Instr(Store(SAX), Abso)
  ]
  const Row9: seq<Instr> := [
    Instr(Branch(BCC), Rel), Instr(Store(STA), Indy), Instr(NOP, Imp), Instr(NOP, Indy),
    Instr(Store(STY), Zpx), Instr(Store(STA), Zpx), Instr(Store(STX), Zpx), Instr(Store(SAX), Zpx),
    Instr(Transfer(TYA), Imp), Instr(Store(STA), Absy), Instr(Transfer(TXS), Imp), Instr(NOP, Absy),
    Instr(NOP, Absx), Instr(Store(STA), Absx), Instr(NOP, Absy), Instr(NOP, Absy)
  ]
  const RowA: seq<Instr> := [
    Instr(Load(LDY), Imm), Instr(Load(LDA), Indx), Instr(Load(LDX), Imm), Instr(Load(LAX), Indx),
    Instr(Load(LDY), Zp), Instr(Load(LDA), Zp), Instr(Load(LDX), Zp), Instr(Load(LAX), Zp),
    Instr(Transfer(TAY), Imp), Instr(Load(LDA), Imm), Instr(Transfer(TAX), Imp), Instr(NOP, Imm),
    Instr(Load(LDY), Abso), Instr(Load(LDA), Abso), Instr(Load(LDX), Abso), Instr(Load(LAX), Abso)
  ]
  const RowB: seq<Instr> := [
    Instr(Branch(BCS), Rel), Instr(Load(LDA), Indy), Instr(NOP, Imp), Instr(Load(LAX), Indy),
    Instr(Load(LDY), Zpx), Instr(Load(LDA), Zpx), Instr(Load(LDX), Zpx), Instr(Load(LAX), Zpx),
    Instr(Flag(CLV), Imp), Instr(Load(LDA), Absy), Instr(Transfer(TSX), Imp), Instr(Load(LAX), Absy),
    Instr(Load(LDY), Absx), Instr(Load(LDA), Absx), Instr(Load(LDX), Absy), Instr(Load(LAX), Absx)
  ]
  const RowC: seq<Instr> := [
    Instr(Test(CPY), Imm), Instr(Test(CMP), Indx), Instr(NOP, Imp), Instr(Store(DCP), Indx),
    Instr(Test(CPY), Zp), Instr(Test(CMP), Zp), Instr(Rmw(DEC), Zp), Instr(Store(DCP), Zp),
    Instr(Count(INY), Imp), Instr(Test(CMP), Imm), Instr(Count(DEX), Imp), Instr(NOP, Imm),
    Instr(Test(CPY), Abso), Instr(Test(CMP), Abso), Instr(Rmw(DEC), Abso), Instr(Store(DCP), Abso)
  ]
  const RowD: seq<Instr> := [
    Instr(Branch(BNE), Rel), Instr(Test(CMP), Indy), Instr(NOP, Imp), Instr(Store(DCP), Indy),
    Instr(NOP, Zpx), Instr(Test(CMP), Zpx), Instr(Rmw(DEC), Zpx), Instr(Store(DCP), Zpx),
    Instr(Flag(CLD), Imp), Instr(Test(CMP), Absy), Instr(NOP, Imp), Instr(Store(DCP), Absy),
    Instr(NOP, Absx), Instr(Test(CMP), Absx), Instr(Rmw(DEC), Absx), Instr(Store(DCP), Absx)
  ]
  const RowE: seq<Instr> := [
    Instr(Test(CPX), Imm), Instr(Arith(SBC), Indx), Instr(NOP, Imp), Instr(Arith(ISB), Indx),
    Instr(Test(CPX), Zp), Instr(Arith(SBC), Zp), Instr(Rmw(INC), Zp), Instr(Arith(ISB), Zp),
    Instr(Count(INX), Imp), Instr(Arith(SBC), Imm), Instr(NOP, Imp), Instr(Arith(SBC), Imm),
    Instr(Test(CPX), Abso), Instr(Arith(SBC), Abso), Instr(Rmw(INC), Abso), Instr(Arith(ISB), Abso)
  ]
  const RowF: seq<Instr> := [
    Instr(Branch(BEQ), Rel), Instr(Arith(SBC), Indy), Instr(NOP, Imp), Instr(Arith(ISB), Indy),
    Instr(NOP, Zpx), Instr(Arith(SBC), Zpx), Instr(Rmw(INC), Zpx), Instr(Arith(ISB), Zpx),
    Instr(Flag(SED), Imp), Instr(Arith(SBC), Absy), Instr(NOP, Imp), Instr(Arith(ISB), Absy),
    Instr(NOP, Absx), Instr(Arith(SBC), Absx), Instr(Rmw(INC), Absx), Instr(Arith(ISB), Absx)
  ]

  /** The handler the table holds for an opcode byte: row by high nibble, column by low nibble. */
  function Decode(opcode: byte): Instr
  {
    var col := (opcode & 0x0F) as int;
    match opcode >> 4
    case 0x0 => Row0[col]
    case 0x1 => Row1[col]
    case 0x2 => Row2[col]
    case 0x3 => Row3[col]
    case 0x4 => Row4[col]
    case 0x5 => Row5[col]
    case 0x6 => Row6[col]
    case 0x7 => Row7[col]
    case 0x8 => Row8[col]
    case 0x9 => Row9[col]
    case 0xA => RowA[col]
    case 0xB => RowB[col]
    case 0xC => RowC[col]
    case 0xD => RowD[col]
    case 0xE => RowE[col]
    case _ => RowF[col]
  }
}
