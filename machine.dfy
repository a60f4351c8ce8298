/**
 * The interpreter as a function on machine states. A state is the register file of
 * fake6502.c together with the 64 KiB the processor sees through read6502 and write6502,
 * taken here as plain memory. Every handler becomes one case of `Execute`; `Step` is
 * step6502 and `Run` is exec6502.
 */
module Machine {
  import opened Bits
  import opened Flags
  import opened Alu
  import opened Isa

  datatype State = State(pc: word, sp: byte, a: byte, x: byte, y: byte, status: byte, mem: seq<byte>)

  /** A state whose memory covers the whole 16-bit address space. */
  type Machine = s: State | |s.mem| == 0x10000
    witness State(0, 0, 0, 0, 0, 0, seq(0x10000, _ => 0))

  function Read(m: Machine, addr: word): byte
  {
    m.mem[addr as int]
  }

  /** A little-endian word at `addr` and `addr + 1`, the address wrapping at 0xFFFF. */
  function ReadWord(m: Machine, addr: word): word
  {
    Word(Read(m, addr), Read(m, addr + 1))
  }

  function Write(m: Machine, addr: word, v: byte): Machine
  {
    m.(mem := m.mem[addr as int := v])
  }

  /** A read sees the byte last written to its own address, and only that one. */
  lemma ReadOfWrite(m: Machine, addr: word, v: byte, b: word)
    ensures Read(Write(m, addr, v), b) == if b == addr then v else Read(m, b)
  {
    WordAsIntRoundTrip(addr);
    WordAsIntRoundTrip(b);
    if b != addr {
      WordAsIntInjective(b, addr);
    }
  }

  // ---------------------------------------------------------------- the stack

  /** `BASE_STACK + sp`: the stack lives in page 1. */
  function StackAddr(sp: byte): word
  {
    0x0100 | sp as word
  }

  /** Every stack address lies in page 1, at offset sp. */
  lemma StackAddrInPage(sp: byte)
    ensures Hi(StackAddr(sp)) == 0x01 && Lo(StackAddr(sp)) == sp
  {
  }

  /** push8: store at the stack pointer, then post-decrement it. */
  function Push8(m: Machine, v: byte): Machine
  {
    Write(m, StackAddr(m.sp), v).(sp := m.sp - 1)
  }

  /** pull8: pre-increment the stack pointer, then load; memory is not changed. */
  function Pull8(m: Machine): (byte, Machine)
  {
    var sp := m.sp + 1;
    (Read(m, StackAddr(sp)), m.(sp := sp))
  }

  /** push16: the high byte at `sp`, the low byte at `(sp - 1) & 0xFF`, then `sp -= 2`. */
  function Push16(m: Machine, w: word): Machine
  {
    var m1 := Write(m, StackAddr(m.sp), Hi(w));
    Write(m1, StackAddr(m.sp - 1), Lo(w)).(sp := m.sp - 2)
  }

  /** pull16: the low byte from `(sp + 1) & 0xFF`, the high byte from `(sp + 2) & 0xFF`, then `sp += 2`. */
  function Pull16(m: Machine): (word, Machine)
  {
    (Word(Read(m, StackAddr(m.sp + 1)), Read(m, StackAddr(m.sp + 2))), m.(sp := m.sp + 2))
  }

  // ---------------------------------------------------------------- addressing

  /** An effective address and the program counter after the operand bytes. */
  datatype Address = Address(ea: word, next: word)

  /** ZPX, ZPY and the pointer of INDX: operand plus index register, wrapped to page zero. */
  function ZeroPageIndex(operand: byte, index: byte): word
  {
    (operand as word + index as word) & 0xFF
  }

  /** ABSX, ABSY and INDY: a base address plus an index register, wrapping at 0xFFFF. */
  function Indexed(base: word, index: byte): word
  {
    base + index as word
  }

  /**
   * The branch target for the offset byte at `at`: the address after that byte plus the
   * offset sign-extended to 16 bits.
   */
  function BranchTarget(at: word, offset: byte): word
  {
    (at + 1) + SignExtend(offset)
  }

  /** The address of a pointer's high byte for IND and INDY: the low byte is incremented, the page kept. */
  function SamePageNext(ptr: word): word
  {
    (ptr & 0xFF00) | ((ptr + 1) & 0x00FF)
  }

  /** ZP: the operand byte is the address. */
  function ZeroPage(m: Machine): word
  {
    Read(m, m.pc) as word
  }

  /** ZPX and ZPY. */
  function ZeroPageIndexed(m: Machine, index: byte): word
  {
    ZeroPageIndex(Read(m, m.pc), index)
  }

  /** REL: the target of a taken branch. */
  function RelativeTarget(m: Machine): word
  {
    BranchTarget(m.pc, Read(m, m.pc))
  }

  /** ABSO: the two operand bytes, low byte first. */
  function Absolute(m: Machine): word
  {
    ReadWord(m, m.pc)
  }

  /** ABSX and ABSY. */
  function AbsoluteIndexed(m: Machine, index: byte): word
  {
    Indexed(ReadWord(m, m.pc), index)
  }

  /** IND (JMP only): the pointer's high byte comes from the same page as its low byte. */
  function Indirect(m: Machine): word
  {
    var ptr := ReadWord(m, m.pc);
    Word(Read(m, ptr), Read(m, SamePageNext(ptr)))
  }

  /** INDX: both pointer bytes are read from page zero, at operand + X and the byte after it. */
  function IndexedIndirect(m: Machine): word
  {
    var zp := ZeroPageIndex(Read(m, m.pc), m.x);
    Word(Read(m, zp & 0x00FF), Read(m, (zp + 1) & 0x00FF))
  }

  /** INDY: a page-zero pointer whose high byte wraps within page zero, plus Y. */
  function IndirectIndexed(m: Machine): word
  {
    var zp := Read(m, m.pc) as word;
    Indexed(Word(Read(m, zp), Read(m, SamePageNext(zp))), m.y)
  }

  /** The program counter after the operand bytes of a mode. */
  function NextPc(mode: Mode, pc: word): word
  {
    match mode
    case Imp | Acc => pc
    case Imm | Zp | Zpx | Zpy | Rel | Indx | Indy => pc + 1
    case Abso | Absx | Absy | Ind => pc + 2
  }

  /**
   * The effective address of the addressing macros IMM … INDYNP, evaluated with `pc` just
   * past the opcode. For REL it is the branch target, the address after the operand plus
   * the sign-extended offset. Modes without an operand give no address.
   */
  function EffectiveAddress(mode: Mode, m: Machine): word
  {
    match mode
    case Imp | Acc => 0
    case Imm => m.pc
    case Zp => ZeroPage(m)
    case Zpx => ZeroPageIndexed(m, m.x)
    case Zpy => ZeroPageIndexed(m, m.y)
    case Rel => RelativeTarget(m)
    case Abso => Absolute(m)
    case Absx => AbsoluteIndexed(m, m.x)
    case Absy => AbsoluteIndexed(m, m.y)
    case Ind => Indirect(m)
    case Indx => IndexedIndirect(m)
    case Indy => IndirectIndexed(m)
  }

  /** An addressing macro: the effective address and the advanced program counter. */
  function Resolve(mode: Mode, m: Machine): Address
  {
    Address(EffectiveAddress(mode, m), NextPc(mode, m.pc))
  }

  // ---------------------------------------------------------------- handlers

  /** SAVEACCUM of an ALU result together with its flags. */
  function Accumulate(m: Machine, r: Result): Machine
  {
    m.(a := r.value, status := r.status)
  }

  /** A read-modify-write handler: `_acc` variants save to A, the others PUTVALUE at `ea`. */
  function Modify(m: Machine, mode: Mode, ea: word, r: Result): Machine
  {
    if mode == Acc then Accumulate(m, r) else Write(m, ea, r.value).(status := r.status)
  }

  /** A conditional branch: `pc += reladdr` when the condition holds. */
  function BranchIf(m: Machine, target: word, taken: bool): Machine
  {
    if taken then m.(pc := target) else m
  }

  /** Entry through a vector: push pc and the given status byte, set I, load pc from the vector. */
  function Interrupt(m: Machine, ret: word, pushed: byte, vector: word): Machine
  {
    var t := Push8(Push16(m, ret), pushed);
    t.(status := t.status | INTERRUPT, pc := ReadWord(t, vector))
  }

  /** A new status byte. */
  function WithStatus(m: Machine, status: byte): Machine
  {
    m.(status := status)
  }

  /** Loads and transfers into A, X and Y: the new value with zerocalc and signcalc on it. */
  function WithA(m: Machine, v: byte): Machine
  {
    m.(a := v, status := ZeroSign(m.status, v))
  }

  function WithX(m: Machine, v: byte): Machine
  {
    m.(x := v, status := ZeroSign(m.status, v))
  }

  function WithY(m: Machine, v: byte): Machine
  {
    m.(y := v, status := ZeroSign(m.status, v))
  }

  /** The ALU part of the accumulator handlers. ISB shares SBC's arithmetic. */
  function Arithmetic(op: ArithOp, a: byte, v: byte, status: byte): Result
  {
    match op
    case ADC => Adc(a, v, status)
    case SBC => Sbc(a, v, status)
    case AND => And(a, v, status)
    case ORA => Ora(a, v, status)
    case EOR => Eor(a, v, status)
    case ISB => Sbc(a, v, status)
    case SLO => Slo(a, v, status)
    case RLA => Rla(a, v, status)
    case SRE => Sre(a, v, status)
    case RRA => Rra(a, v, status)
  }

  /** The new value and flags of the read-modify-write handlers. */
  function Modified(op: RmwOp, v: byte, status: byte): Result
  {
    match op
    case ASL => Asl(v, status)
    case LSR => Lsr(v, status)
    case ROL => Rol(v, status)
    case ROR => Ror(v, status)
    case INC => Inc(v, status)
    case DEC => Dec(v, status)
  }

  /** The condition each branch handler tests. */
  function Taken(c: Condition, status: byte): bool
  {
    match c
    case BCC => !Has(status, CARRY)
    case BCS => Has(status, CARRY)
    case BEQ => Has(status, ZERO)
    case BNE => !Has(status, ZERO)
    case BMI => Has(status, SIGN)
    case BPL => !Has(status, SIGN)
    case BVS => Has(status, OVERFLOW)
    case BVC => !Has(status, OVERFLOW)
  }

  /** The flag handlers CLC … SEI: the flag they touch and the value they give it. */
  function FlagChange(op: FlagOp, status: byte): byte
  {
    match op
    case CLC => Put(status, CARRY, false)
    case CLD => Put(status, DECIMAL, false)
    case CLI => Put(status, INTERRUPT, false)
    case CLV => Put(status, OVERFLOW, false)
    case SEC => Put(status, CARRY, true)
    case SED => Put(status, DECIMAL, true)
    case SEI => Put(status, INTERRUPT, true)
  }

  /** BRK, JSR, RTI, RTS, PHA, PHP, PLA and PLP. */
  function StackHandler(op: StackOp, s: Machine, ea: word): Machine
  {
    match op
    case BRK => Interrupt(s, s.pc + 1, s.status | BREAK, 0xFFFE)
    case JSR => Push16(s, s.pc - 1).(pc := ea)
    case RTI =>
      var (b, t) := Pull8(s);
      var (w, u) := Pull16(t.(status := b));
      u.(pc := w)
    case RTS =>
      var (w, t) := Pull16(s);
      t.(pc := w + 1)
    case PHA => Push8(s, s.a)
    case PHP => Push8(s, s.status | BREAK)
    case PLA =>
      var (b, t) := Pull8(s);
      WithA(t, b)
    case PLP =>
      var (b, t) := Pull8(s);
      t.(status := b)
  }

  /** The store handlers; `v` is the byte at `ea` before the handler, which DCP compares A with. */
  function StoreHandler(op: StoreOp, s: Machine, ea: word, v: byte): Machine
  {
    match op
    case STA => Write(s, ea, s.a)
    case STX => Write(s, ea, s.x)
    case STY => Write(s, ea, s.y)
    case SAX => Write(s, ea, s.a & s.x)
    case DCP => WithStatus(Write(s, ea, v - 1), Compare(s.a, v, s.status))
  }

  /**
   * Where a load, a transfer or a count puts its value: A, X or Y with zerocalc and signcalc
   * on the value, both A and X for LAX, and sp, without touching the flags, for TXS.
   */
  datatype Target = ToA | ToX | ToY | ToAX | ToSp

  function Assign(s: Machine, t: Target, v: byte): Machine
  {
    match t
    case ToA => WithA(s, v)
    case ToX => WithX(s, v)
    case ToY => WithY(s, v)
    case ToAX => WithX(s, v).(a := v)
    case ToSp => s.(sp := v)
  }

  /** The register BIT and the compares look at. */
  function TestedRegister(op: TestOp, a: byte, x: byte, y: byte): byte
  {
    match op
    case BIT | CMP => a
    case CPX => x
    case CPY => y
  }

  /** BIT and the compares change only the status. */
  function Tested(op: TestOp, reg: byte, v: byte, status: byte): byte
  {
    if op == BIT then Bit(reg, v, status) else Compare(reg, v, status)
  }

  /** DEX and INX count X, DEY and INY count Y, wrapping modulo 256. */
  function CountTarget(op: CountOp): Target
  {
    if op == DEX || op == INX then ToX else ToY
  }

  function Counted(op: CountOp, x: byte, y: byte): byte
  {
    match op
    case DEX => x - 1
    case DEY => y - 1
    case INX => x + 1
    case INY => y + 1
  }

  function LoadTarget(op: LoadOp): Target
  {
    match op
    case LDA => ToA
    case LDX => ToX
    case LDY => ToY
    case LAX => ToAX
  }

  function TransferTarget(op: TransferOp): Target
  {
    match op
    case TXA | TYA => ToA
    case TAX | TSX => ToX
    case TAY => ToY
    case TXS => ToSp
  }

  /** The register a transfer copies. */
  function Transferred(op: TransferOp, a: byte, x: byte, y: byte, sp: byte): byte
  {
    match op
    case TAX | TAY => a
    case TXA | TXS => x
    case TYA => y
    case TSX => sp
  }

  /**
   * GETVALUE: the operand byte, A for the `_acc` handlers and otherwise the byte at the
   * effective address. Handlers that do not use it ignore it.
   */
  function Operand(mode: Mode, s: Machine, ea: word): byte
  {
    if mode == Acc then s.a else Read(s, ea)
  }

  /**
   * One table entry, entered with `pc` just past the opcode: the addressing macro moves pc
   * past the operand and gives the effective address, then the handler runs.
   */
  function Execute(ins: Instr, m: Machine): Machine
  {
    var r := Resolve(ins.mode, m);
    Operate(ins, m.(pc := r.next), r.ea)
  }

  /** The handlers that write memory or, beyond fetching their operand, read it. */
  predicate UsesMemory(op: Op)
  {
    op.Arith? || op.Rmw? || op.Stack? || op.Store?
  }

  /** The handler of an operation, once its addressing macro has run. */
  function Operate(ins: Instr, s: Machine, ea: word): Machine
  {
    match ins.op
    case Arith(op) => Accumulate(s, Arithmetic(op, s.a, Operand(ins.mode, s, ea), s.status))
    case Rmw(op) => Modify(s, ins.mode, ea, Modified(op, Operand(ins.mode, s, ea), s.status))
    case Branch(c) => BranchIf(s, ea, Taken(c, s.status))
    case Flag(op) => s.(status := FlagChange(op, s.status))
    case Stack(op) => StackHandler(op, s, ea)
    case Store(op) => StoreHandler(op, s, ea, Operand(ins.mode, s, ea))
    case Test(op) => s.(status := Tested(op, TestedRegister(op, s.a, s.x, s.y), Operand(ins.mode, s, ea), s.status))
    case Count(op) => Assign(s, CountTarget(op), Counted(op, s.x, s.y))
    case Load(op) => Assign(s, LoadTarget(op), Operand(ins.mode, s, ea))
    case Transfer(op) => Assign(s, TransferTarget(op), Transferred(op, s.a, s.x, s.y, s.sp))
    case JMP => s.(pc := ea)
    case NOP => s
  }

  /** step6502: fetch the opcode at `pc`, advance `pc`, run the handler the table names. */
  function Step(m: Machine): Machine
  {
    Execute(Decode(Read(m, m.pc)), m.(pc := m.pc + 1))
  }

  /** exec6502(n): `n` steps in a row. */
  function Run(m: Machine, n: nat): Machine
  {
    Iterate(Step, m, n)
  }

  /** `n` applications of `f` in a row. */
  function Iterate(f: Machine -> Machine, m: Machine, n: nat): Machine
    decreases n
  {
    if n == 0 then m else f(Iterate(f, m, n - 1))
  }

  // ---------------------------------------------------------------- entry sequences

  /** reset6502: pc from the reset vector, A, X and Y cleared, sp = 0xFD; status is kept. */
  function Reset(m: Machine): Machine
  {
    m.(pc := ReadWord(m, 0xFFFC), a := 0, x := 0, y := 0, sp := 0xFD)
  }

  /** irq6502: push pc and the status as it is, set I, continue at the vector at 0xFFFE. */
  function Irq(m: Machine): Machine
  {
    Interrupt(m, m.pc, m.status, 0xFFFE)
  }

  /** nmi6502: as irq6502 with the vector at 0xFFFA. */
  function Nmi(m: Machine): Machine
  {
    Interrupt(m, m.pc, m.status, 0xFFFA)
  }
}
