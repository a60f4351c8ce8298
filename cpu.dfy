/**
 * The interpreter as fake6502.c runs it: global registers updated in place and a 64 KiB
 * memory array behind read6502 and write6502. Every method is proved against the state
 * function of module Machine that describes it, through `Snapshot`, the machine state the
 * object stands for.
 */
module Processor {
  import opened Bits
  import opened Flags
  import opened Alu
  import opened Isa
  import Machine

  class Cpu {
    var pc: word
    var sp: byte
    var a: byte
    var x: byte
    var y: byte
    var status: byte
    /** The bytes read6502 and write6502 reach, one per address. */
    const mem: array<byte>

    ghost predicate Valid()
      reads this
    {
      mem.Length == 0x10000
    }

    /** The machine state this processor is in. */
    ghost function Snapshot(): Machine.Machine
      reads this, mem
      requires Valid()
    {
      Machine.State(pc, sp, a, x, y, status, mem[..])
    }

    /** Registers start at zero; `reset6502` gives them their defined values. */
    constructor (memory: array<byte>)
      requires memory.Length == 0x10000
      ensures Valid() && mem == memory
      ensures Snapshot() == Machine.State(0, 0, 0, 0, 0, 0, old(memory[..]))
    {
      mem := memory;
      pc, sp, a, x, y, status := 0, 0, 0, 0, 0, 0;
    }

    // ------------------------------------------------------------ the bus

    /** read6502. */
    method Read(addr: word) returns (v: byte)
      requires Valid()
      ensures v == Machine.Read(Snapshot(), addr)
    {
      v := mem[addr as int];
    }

    /** write6502. */
    method Write(addr: word, v: byte)
      requires Valid()
      modifies mem
      ensures Snapshot() == Machine.Write(old(Snapshot()), addr, v)
    {
      ghost var before := Snapshot();
      mem[addr as int] := v;
      assert mem[..] == before.mem[addr as int := v];
      assert pc == before.pc && sp == before.sp && a == before.a && x == before.x && y == before.y && status == before.status;
    }

    // ------------------------------------------------------------ the stack

    method Push8(v: byte)
      requires Valid()
      modifies this, mem
      ensures Snapshot() == Machine.Push8(old(Snapshot()), v)
    {
      Write(Machine.StackAddr(sp), v);
      sp := sp - 1;
    }

    method Pull8() returns (v: byte)
      requires Valid()
      modifies this
      ensures (v, Snapshot()) == Machine.Pull8(old(Snapshot()))
    {
      sp := sp + 1;
      v := Read(Machine.StackAddr(sp));
    }

    method Push16(w: word)
      requires Valid()
      modifies this, mem
      ensures Snapshot() == Machine.Push16(old(Snapshot()), w)
    {
      Write(Machine.StackAddr(sp), Hi(w));
      Write(Machine.StackAddr(sp - 1), Lo(w));
      sp := sp - 2;
    }

    method Pull16() returns (w: word)
      requires Valid()
      modifies this
      ensures (w, Snapshot()) == Machine.Pull16(old(Snapshot()))
    {
      var lo := Read(Machine.StackAddr(sp + 1));
      var hi := Read(Machine.StackAddr(sp + 2));
      w := Word(lo, hi);
      sp := sp + 2;
    }

    // ------------------------------------------------------------ addressing

    /** A two-byte little-endian read, as ABSO and IND spell it out. */
    method ReadWord(addr: word) returns (w: word)
      requires Valid()
      ensures w == Machine.ReadWord(Snapshot(), addr)
    {
      var lo := Read(addr);
      var hi := Read(addr + 1);
      w := Word(lo, hi);
    }

    /** ZP. */
    method ZeroPage() returns (ea: word)
      requires Valid()
      modifies this
      ensures ea == Machine.ZeroPage(old(Snapshot()))
      ensures Snapshot() == old(Snapshot()).(pc := old(pc) + 1)
    {
      var b := Read(pc);
      ea := b as word;
      pc := pc + 1;
    }

    /** ZPX and ZPY. */
    method ZeroPageIndexed(index: byte) returns (ea: word)
      requires Valid()
      modifies this
      ensures ea == Machine.ZeroPageIndexed(old(Snapshot()), index)
      ensures Snapshot() == old(Snapshot()).(pc := old(pc) + 1)
    {
      var b := Read(pc);
      ea := Machine.ZeroPageIndex(b, index);
      pc := pc + 1;
    }

    /** REL. */
    method RelativeTarget() returns (ea: word)
      requires Valid()
      modifies this
      ensures ea == Machine.RelativeTarget(old(Snapshot()))
      ensures Snapshot() == old(Snapshot()).(pc := old(pc) + 1)
    {
      var b := Read(pc);
      ea := Machine.BranchTarget(pc, b);
      pc := pc + 1;
    }

    /** ABSO. */
    method Absolute() returns (ea: word)
      requires Valid()
      modifies this
      ensures ea == Machine.Absolute(old(Snapshot()))
      ensures Snapshot() == old(Snapshot()).(pc := old(pc) + 2)
    {
      ea := ReadWord(pc);
      pc := pc + 2;
    }

    /** ABSX and ABSY. */
    method AbsoluteIndexed(index: byte) returns (ea: word)
      requires Valid()
      modifies this
      ensures ea == Machine.AbsoluteIndexed(old(Snapshot()), index)
      ensures Snapshot() == old(Snapshot()).(pc := old(pc) + 2)
    {
      var base := ReadWord(pc);
      ea := Machine.Indexed(base, index);
      pc := pc + 2;
    }

    /** IND. */
    method Indirect() returns (ea: word)
      requires Valid()
      modifies this
      ensures ea == Machine.Indirect(old(Snapshot()))
      ensures Snapshot() == old(Snapshot()).(pc := old(pc) + 2)
    {
      var ptr := ReadWord(pc);
      var lo := Read(ptr);
      var hi := Read(Machine.SamePageNext(ptr));
      ea := Word(lo, hi);
      pc := pc + 2;
    }

    /** INDX. */
    method IndexedIndirect() returns (ea: word)
      requires Valid()
      modifies this
      ensures ea == Machine.IndexedIndirect(old(Snapshot()))
      ensures Snapshot() == old(Snapshot()).(pc := old(pc) + 1)
    {
      var b := Read(pc);
      pc := pc + 1;
      var zp := Machine.ZeroPageIndex(b, x);
      var lo := Read(zp & 0x00FF);
      var hi := Read((zp + 1) & 0x00FF);
      ea := Word(lo, hi);
    }

    /** INDY. */
    method IndirectIndexed() returns (ea: word)
      requires Valid()
      modifies this
      ensures ea == Machine.IndirectIndexed(old(Snapshot()))
      ensures Snapshot() == old(Snapshot()).(pc := old(pc) + 1)
    {
      var b := Read(pc);
      pc := pc + 1;
      var zp := b as word;
      var lo := Read(zp);
      var hi := Read(Machine.SamePageNext(zp));
      ea := Machine.Indexed(Word(lo, hi), y);
    }

    /** The addressing macro of a mode: the effective address, with pc moved past the operand. */
    method Address(mode: Mode) returns (ea: word)
      requires Valid()
      modifies this
      ensures ea == Machine.EffectiveAddress(mode, old(Snapshot()))
      ensures Snapshot() == old(Snapshot()).(pc := Machine.NextPc(mode, old(pc)))
    {
      match mode
      case Imp | Acc => ea := 0;
      case Imm | Zp | Zpx | Zpy | Rel => ea := ShortAddress(mode);
      case Abso | Absx | Absy | Ind => ea := AbsoluteAddress(mode);
      case Indx => ea := IndexedIndirect();
      case Indy => ea := IndirectIndexed();
    }

    /** The modes whose operand is one byte used directly. */
    method ShortAddress(mode: Mode) returns (ea: word)
      requires Valid() && mode in {Imm, Zp, Zpx, Zpy, Rel}
      modifies this
      ensures ea == Machine.EffectiveAddress(mode, old(Snapshot()))
      ensures Snapshot() == old(Snapshot()).(pc := old(pc) + 1)
    {
      match mode
      case Imm => ea := pc; pc := pc + 1;
      case Zp => ea := ZeroPage();
      case Zpx => ea := ZeroPageIndexed(x);
      case Zpy => ea := ZeroPageIndexed(y);
      case Rel => ea := RelativeTarget();
    }

    /** The modes whose operand is a two-byte address. */
    method AbsoluteAddress(mode: Mode) returns (ea: word)
      requires Valid() && mode in {Abso, Absx, Absy, Ind}
      modifies this
      ensures ea == Machine.EffectiveAddress(mode, old(Snapshot()))
      ensures Snapshot() == old(Snapshot()).(pc := old(pc) + 2)
    {
      match mode
      case Abso => ea := Absolute();
      case Absx => ea := AbsoluteIndexed(x);
      case Absy => ea := AbsoluteIndexed(y);
      case Ind => ea := Indirect();
    }

    /** GETVALUE, or A for the `_acc` handlers. */
    method GetValue(mode: Mode, ea: word) returns (v: byte)
      requires Valid()
      ensures v == Machine.Operand(mode, Snapshot(), ea)
    {
      if mode == Acc {
        v := a;
      } else {
        v := Read(ea);
      }
    }

    // ------------------------------------------------------------ handler families

    /** A handler, once its addressing macro has given `ea`. */
    method Operate(ins: Instr, ea: word)
      requires Valid()
      modifies this, mem
      ensures Snapshot() == Machine.Operate(ins, old(Snapshot()), ea)
    {
      if Machine.UsesMemory(ins.op) {
        OperateOnMemory(ins, ea);
      } else {
        OperateOnRegisters(ins, ea);
      }
    }

    /** The handlers that go through read6502 or write6502 beyond their operand fetch. */
    method OperateOnMemory(ins: Instr, ea: word)
      requires Valid() && Machine.UsesMemory(ins.op)
      modifies this, mem
      ensures Snapshot() == Machine.Operate(ins, old(Snapshot()), ea)
    {
      match ins.op
      case Arith(op) =>
        var v := GetValue(ins.mode, ea);
        var r := Machine.Arithmetic(op, a, v, status);
        a, status := r.value, r.status;
      case Rmw(op) =>
        var v := GetValue(ins.mode, ea);
        var r := Machine.Modified(op, v, status);
        if ins.mode == Acc {
          a := r.value;
        } else {
          Write(ea, r.value);
        }
        status := r.status;
      case Stack(op) =>
        StackHandler(op, ea);
      case Store(op) =>
        var v := GetValue(ins.mode, ea);
        StoreHandler(op, ea, v);
    }

    /** The handlers that change registers only. */
    method OperateOnRegisters(ins: Instr, ea: word)
      requires Valid() && !Machine.UsesMemory(ins.op)
      modifies this
      ensures Snapshot() == Machine.Operate(ins, old(Snapshot()), ea)
    {
      if ins.op.Count? || ins.op.Load? || ins.op.Transfer? {
        OperateOnDataRegisters(ins, ea);
      } else {
        OperateOnPcOrStatus(ins, ea);
      }
    }

    /** The branches, the flag handlers, BIT and the compares, JMP and NOP. */
    method OperateOnPcOrStatus(ins: Instr, ea: word)
      requires Valid() && (ins.op.Branch? || ins.op.Flag? || ins.op.Test? || ins.op == JMP || ins.op == NOP)
      modifies this
      ensures Snapshot() == Machine.Operate(ins, old(Snapshot()), ea)
    {
      match ins.op
      case Branch(c) =>
        if Machine.Taken(c, status) {
          pc := ea;
        }
      case Flag(op) =>
        status := Machine.FlagChange(op, status);
      case Test(op) =>
        var v := GetValue(ins.mode, ea);
        status := Machine.Tested(op, Machine.TestedRegister(op, a, x, y), v, status);
      case JMP =>
        pc := ea;
      case NOP =>
    }

    /** The counts, loads and transfers. */
    method OperateOnDataRegisters(ins: Instr, ea: word)
      requires Valid() && (ins.op.Count? || ins.op.Load? || ins.op.Transfer?)
      modifies this
      ensures Snapshot() == Machine.Operate(ins, old(Snapshot()), ea)
    {
      match ins.op
      case Count(op) =>
        Assign(Machine.CountTarget(op), Machine.Counted(op, x, y));
      case Load(op) =>
        var v := GetValue(ins.mode, ea);
        Assign(Machine.LoadTarget(op), v);
      case Transfer(op) =>
        Assign(Machine.TransferTarget(op), Machine.Transferred(op, a, x, y, sp));
    }

    /** The entry sequence shared by brk, irq6502 and nmi6502. */
    method Interrupt(ret: word, pushed: byte, vector: word)
      requires Valid()
      modifies this, mem
      ensures Snapshot() == Machine.Interrupt(old(Snapshot()), ret, pushed, vector)
    {
      Push16(ret);
      Push8(pushed);
      status := status | INTERRUPT;
      pc := ReadWord(vector);
    }

    /** BRK, JSR, RTI, RTS, PHA, PHP, PLA and PLP. */
    method StackHandler(op: StackOp, ea: word)
      requires Valid()
      modifies this, mem
      ensures Snapshot() == Machine.StackHandler(op, old(Snapshot()), ea)
    {
      if op == BRK || op == JSR || op == RTI || op == RTS {
        Subroutine(op, ea);
      } else {
        PushOrPull(op);
      }
    }

    /** The stack handlers that set pc. */
    method Subroutine(op: StackOp, ea: word)
      requires Valid() && (op == BRK || op == JSR || op == RTI || op == RTS)
      modifies this, mem
      ensures Snapshot() == Machine.StackHandler(op, old(Snapshot()), ea)
    {
      match op
      case BRK => Brk(ea);
      case JSR => Jsr(ea);
      case RTI => Rti(ea);
      case RTS => Rts(ea);
    }

    /** brk: push pc + 1 and the status with B set, then enter through 0xFFFE. */
    method Brk(ea: word)
      requires Valid()
      modifies this, mem
      ensures Snapshot() == Machine.StackHandler(BRK, old(Snapshot()), ea)
    {
      Interrupt(pc + 1, status | BREAK, 0xFFFE);
    }

    /** jsr: push pc - 1 and jump. */
    method Jsr(ea: word)
      requires Valid()
      modifies this, mem
      ensures Snapshot() == Machine.StackHandler(JSR, old(Snapshot()), ea)
    {
      Push16(pc - 1);
      pc := ea;
    }

    /** rti: pull the status, then pc. */
    method Rti(ea: word)
      requires Valid()
      modifies this, mem
      ensures Snapshot() == Machine.StackHandler(RTI, old(Snapshot()), ea)
    {
      status := Pull8();
      pc := Pull16();
    }

    /** rts: pull pc and add one. */
    method Rts(ea: word)
      requires Valid()
      modifies this, mem
      ensures Snapshot() == Machine.StackHandler(RTS, old(Snapshot()), ea)
    {
      var w := Pull16();
      pc := w + 1;
    }

    /** PHA, PHP, PLA and PLP. */
    method PushOrPull(op: StackOp)
      requires Valid() && !(op == BRK || op == JSR || op == RTI || op == RTS)
      modifies this, mem
      ensures Snapshot() == Machine.StackHandler(op, old(Snapshot()), 0)
    {
      match op
      case PHA =>
        Push8(a);
      case PHP =>
        Push8(status | BREAK);
      case PLA =>
        var b := Pull8();
        a, status := b, ZeroSign(status, b);
      case PLP =>
        status := Pull8();
    }

    /** STA, STX, STY and the undocumented SAX and DCP; `v` is the byte at `ea` before the handler. */
    method StoreHandler(op: StoreOp, ea: word, v: byte)
      requires Valid()
      modifies this, mem
      ensures Snapshot() == Machine.StoreHandler(op, old(Snapshot()), ea, v)
    {
      match op
      case STA => Write(ea, a);
      case STX => Write(ea, x);
      case STY => Write(ea, y);
      case SAX => Write(ea, a & x);
      case DCP =>
        Write(ea, v - 1);
        status := Compare(a, v, status);
    }

    /** A new value for the register or registers `t` names. */
    method Assign(t: Machine.Target, v: byte)
      requires Valid()
      modifies this
      ensures Snapshot() == Machine.Assign(old(Snapshot()), t, v)
    {
      match t
      case ToA => a, status := v, ZeroSign(status, v);
      case ToX => x, status := v, ZeroSign(status, v);
      case ToY => y, status := v, ZeroSign(status, v);
      case ToAX => a, x, status := v, v, ZeroSign(status, v);
      case ToSp => sp := v;
    }

    // ------------------------------------------------------------ the driver

    /** One handler, entered with pc just past the opcode: the family of the operation does the work. */
    method Execute(ins: Instr)
      requires Valid()
      modifies this, mem
      ensures Snapshot() == Machine.Execute(ins, old(Snapshot()))
    {
      var ea := Address(ins.mode);
      Operate(ins, ea);
    }

    /** step6502: fetch, advance pc, dispatch through the table. */
    method Step()
      requires Valid()
      modifies this, mem
      ensures Snapshot() == Machine.Step(old(Snapshot()))
    {
      var opcode := Read(pc);
      pc := pc + 1;
      Execute(Decode(opcode));
    }

    /** exec6502(n): `while (instrs-- > 0)` one step. */
    method Exec(n: nat)
      requires Valid()
      modifies this, mem
      ensures Snapshot() == Machine.Run(old(Snapshot()), n)
    {
      var remaining: nat := n;
      while remaining > 0
        invariant Valid()
        invariant remaining <= n
        invariant Snapshot() == Machine.Run(old(Snapshot()), n - remaining)
        decreases remaining
      {
        Step();
        remaining := remaining - 1;
      }
    }

    /** reset6502. */
    method Reset()
      requires Valid()
      modifies this
      ensures Snapshot() == Machine.Reset(old(Snapshot()))
    {
      pc := ReadWord(0xFFFC);
      a := 0;
      x := 0;
      y := 0;
      sp := 0xFD;
    }

    /** irq6502. */
    method Irq()
      requires Valid()
      modifies this, mem
      ensures Snapshot() == Machine.Irq(old(Snapshot()))
    {
      Interrupt(pc, status, 0xFFFE);
    }

    /** nmi6502. */
    method Nmi()
      requires Valid()
      modifies this, mem
      ensures Snapshot() == Machine.Nmi(old(Snapshot()))
    {
      Interrupt(pc, status, 0xFFFA);
    }
  }
}
