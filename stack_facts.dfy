/**
 * Properties of the stack primitives and the interrupt entry of the interpreter: what a
 * push leaves for the matching pull, that the stack never leaves page 1, and what BRK,
 * IRQ and NMI leave on the stack for RTI.
 */
module StackFacts {
  import opened Bits
  import opened Flags
  import opened Isa
  import opened Machine

  /** push8 stores the byte at sp and moves sp down by one. */
  lemma Push8Reads(m: Machine, v: byte)
    ensures Read(Push8(m, v), StackAddr(m.sp)) == v && Push8(m, v).sp == m.sp - 1
  {
    ReadOfWrite(m, StackAddr(m.sp), v, StackAddr(m.sp));
  }

  /** push8 writes only at sp. */
  lemma Push8Frame(m: Machine, v: byte, b: word)
    requires b != StackAddr(m.sp)
    ensures Read(Push8(m, v), b) == Read(m, b)
  {
    ReadOfWrite(m, StackAddr(m.sp), v, b);
  }

  /** Two stack pointers that differ give two stack addresses that differ. */
  lemma StackAddrInjective(p: byte, q: byte)
    requires p != q
    ensures StackAddr(p) != StackAddr(q)
  {
    StackAddrInPage(p);
    StackAddrInPage(q);
  }

  /** push16 stores the high byte at sp, the low byte at sp - 1, and moves sp down by two. */
  lemma Push16Reads(m: Machine, w: word)
    ensures Read(Push16(m, w), StackAddr(m.sp)) == Hi(w)
    ensures Read(Push16(m, w), StackAddr(m.sp - 1)) == Lo(w)
    ensures Push16(m, w).sp == m.sp - 2
  {
    var m1 := Write(m, StackAddr(m.sp), Hi(w));
    StackAddrInjective(m.sp, m.sp - 1);
    ReadOfWrite(m, StackAddr(m.sp), Hi(w), StackAddr(m.sp));
    ReadOfWrite(m1, StackAddr(m.sp - 1), Lo(w), StackAddr(m.sp));
    ReadOfWrite(m1, StackAddr(m.sp - 1), Lo(w), StackAddr(m.sp - 1));
  }

  /** push16 writes only at sp and sp - 1. */
  lemma Push16Frame(m: Machine, w: word, b: word)
    requires b != StackAddr(m.sp) && b != StackAddr(m.sp - 1)
    ensures Read(Push16(m, w), b) == Read(m, b)
  {
    var m1 := Write(m, StackAddr(m.sp), Hi(w));
    var m2 := Write(m1, StackAddr(m.sp - 1), Lo(w));
    ReadOfWrite(m, StackAddr(m.sp), Hi(w), b);
    ReadOfWrite(m1, StackAddr(m.sp - 1), Lo(w), b);
    assert Push16(m, w).mem == m2.mem;
  }

  /** pull8 after push8 gives back the pushed byte and the old stack pointer, for every sp. */
  lemma Pull8AfterPush8(m: Machine, v: byte)
    ensures var (b, t) := Pull8(Push8(m, v));
      b == v && t.sp == m.sp && t.(mem := m.mem) == m
  {
    Push8Reads(m, v);
  }

  /** pull16 after push16 gives back the pushed word and the old stack pointer, for every sp. */
  lemma Pull16AfterPush16(m: Machine, w: word)
    ensures var (u, t) := Pull16(Push16(m, w));
      u == w && t.sp == m.sp && t.(mem := m.mem) == m
  {
    Push16Reads(m, w);
    var p := Push16(m, w);
    assert p.sp + 1 == m.sp - 1 && p.sp + 2 == m.sp;
    WordOfBytes(w);
  }

  /** No address outside page 1 is a stack address. */
  lemma OutsideStackPage(sp: byte, b: word)
    requires Hi(b) != 0x01
    ensures b != StackAddr(sp)
  {
    StackAddrInPage(sp);
  }

  /** push8 changes no byte outside page 1. */
  lemma Push8StaysInStackPage(m: Machine, v: byte, b: word)
    requires Hi(b) != 0x01
    ensures Read(Push8(m, v), b) == Read(m, b)
  {
    OutsideStackPage(m.sp, b);
    Push8Frame(m, v, b);
  }

  /** push16 changes no byte outside page 1, even when sp wraps from 0x00 to 0xFF. */
  lemma Push16StaysInStackPage(m: Machine, w: word, b: word)
    requires Hi(b) != 0x01
    ensures Read(Push16(m, w), b) == Read(m, b)
  {
    OutsideStackPage(m.sp, b);
    OutsideStackPage(m.sp - 1, b);
    Push16Frame(m, w, b);
  }

  /**
   * An interrupt entry (BRK, IRQ, NMI) pushes three bytes, sets I, keeps every other flag and
   * every register but pc and sp, and continues at the vector. The vector lies outside
   * page 1, so it is read as it was before the pushes.
   */
  lemma InterruptEntry(m: Machine, ret: word, pushed: byte, vector: word)
    requires Hi(vector) != 0x01 && Hi(vector + 1) != 0x01
    ensures var t := Interrupt(m, ret, pushed, vector);
      t.pc == Word(Read(m, vector), Read(m, vector + 1)) &&
      t.sp == m.sp - 3 && Has(t.status, INTERRUPT) && t.status & !INTERRUPT == m.status & !INTERRUPT &&
      t.a == m.a && t.x == m.x && t.y == m.y
  {
    var p := Push16(m, ret);
    var q := Push8(p, pushed);
    Push16StaysInStackPage(m, ret, vector);
    Push16StaysInStackPage(m, ret, vector + 1);
    Push8StaysInStackPage(p, pushed, vector);
    Push8StaysInStackPage(p, pushed, vector + 1);
  }

  /** An interrupt entry takes three bytes of stack ... */
  lemma InterruptSp(m: Machine, ret: word, pushed: byte, vector: word)
    ensures Interrupt(m, ret, pushed, vector).sp == m.sp - 3
  {
  }

  /** ... the high byte of the return address at sp ... */
  lemma InterruptPushesReturnHi(m: Machine, ret: word, pushed: byte, vector: word)
    ensures Read(Interrupt(m, ret, pushed, vector), StackAddr(m.sp)) == Hi(ret)
  {
    var p := Push16(m, ret);
    Push16Reads(m, ret);
    StackAddrInjective(m.sp, p.sp);
    Push8Frame(p, pushed, StackAddr(m.sp));
    assert Interrupt(m, ret, pushed, vector).mem == Push8(p, pushed).mem;
  }

  /** ... its low byte at sp - 1 ... */
  lemma InterruptPushesReturnLo(m: Machine, ret: word, pushed: byte, vector: word)
    ensures Read(Interrupt(m, ret, pushed, vector), StackAddr(m.sp - 1)) == Lo(ret)
  {
    var p := Push16(m, ret);
    Push16Reads(m, ret);
    StackAddrInjective(m.sp - 1, p.sp);
    Push8Frame(p, pushed, StackAddr(m.sp - 1));
    assert Interrupt(m, ret, pushed, vector).mem == Push8(p, pushed).mem;
  }

  /** ... and the status byte at sp - 2. */
  lemma InterruptPushesStatus(m: Machine, ret: word, pushed: byte, vector: word)
    ensures Read(Interrupt(m, ret, pushed, vector), StackAddr(m.sp - 2)) == pushed
  {
    var p := Push16(m, ret);
    Push16Reads(m, ret);
    Push8Reads(p, pushed);
    assert Interrupt(m, ret, pushed, vector).mem == Push8(p, pushed).mem;
  }

  /** What RTI takes from the stack: the status byte, then the low and the high byte of pc. */
  lemma ReturnReads(t: Machine)
    ensures var r := StackHandler(RTI, t, 0);
      r.sp == t.sp + 3 && r.status == Read(t, StackAddr(t.sp + 1)) &&
      Lo(r.pc) == Read(t, StackAddr(t.sp + 2)) && Hi(r.pc) == Read(t, StackAddr(t.sp + 3)) &&
      r.a == t.a && r.x == t.x && r.y == t.y
  {
    var (b, t1) := Pull8(t);
    assert t1.sp + 1 == t.sp + 2 && t1.sp + 2 == t.sp + 3;
    BytesOfWord(Read(t, StackAddr(t.sp + 2)), Read(t, StackAddr(t.sp + 3)));
  }

  /** RTI does not look at the program counter it is entered with. */
  lemma ReturnIgnoresPc(t: Machine, pc: word)
    ensures StackHandler(RTI, t.(pc := pc), 0) == StackHandler(RTI, t, 0)
  {
  }

  /**
   * RTI on a stack holding an interrupt frame below `top` — pc high at `top`, pc low at
   * `top - 1`, the status byte at `top - 2` — returns that pc and status and sets sp to `top`.
   */
  lemma ReturnPopsFrame(t: Machine, ret: word, pushed: byte, top: byte)
    requires t.sp == top - 3
    requires Read(t, StackAddr(top)) == Hi(ret) && Read(t, StackAddr(top - 1)) == Lo(ret)
    requires Read(t, StackAddr(top - 2)) == pushed
    ensures var r := StackHandler(RTI, t, 0);
      r.pc == ret && r.status == pushed && r.sp == top && r.a == t.a && r.x == t.x && r.y == t.y
  {
    ReturnReads(t);
    assert t.sp + 1 == top - 2 && t.sp + 2 == top - 1 && t.sp + 3 == top;
    var r := StackHandler(RTI, t, 0);
    WordOfBytes(r.pc);
    WordOfBytes(ret);
  }

  /**
   * RTI undoes an interrupt entry: pc and status come back as pushed, and sp, A, X and Y are
   * as before the entry, whatever the handler did to pc in between.
   */
  lemma ReturnUndoesInterrupt(m: Machine, ret: word, pushed: byte, vector: word, pc: word)
    ensures var r := StackHandler(RTI, Interrupt(m, ret, pushed, vector).(pc := pc), 0);
      r.pc == ret && r.status == pushed && r.sp == m.sp && r.a == m.a && r.x == m.x && r.y == m.y
  {
    var t := Interrupt(m, ret, pushed, vector);
    InterruptSp(m, ret, pushed, vector);
    InterruptPushesReturnHi(m, ret, pushed, vector);
    InterruptPushesReturnLo(m, ret, pushed, vector);
    InterruptPushesStatus(m, ret, pushed, vector);
    ReturnPopsFrame(t, ret, pushed, m.sp);
    ReturnIgnoresPc(t, pc);
  }
}
