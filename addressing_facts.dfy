/**
 * Properties of the addressing macros IMM … INDYNP: how far each moves the program counter,
 * and where the page-zero and page-wrapping recipes read their pointers.
 */
module AddressingFacts {
  import opened Bits
  import opened Isa
  import opened Machine

  /** Every recipe moves pc past exactly the operand bytes of its mode. */
  lemma NextPcSkipsOperand(mode: Mode, pc: word)
    ensures OperandLength(mode) == 0 ==> NextPc(mode, pc) == pc
    ensures OperandLength(mode) == 1 ==> NextPc(mode, pc) == pc + 1
    ensures OperandLength(mode) == 2 ==> NextPc(mode, pc) == pc + 2
  {
  }

  /** ZPX, ZPY and the INDX pointer stay in page zero: the sum wraps at 0xFF … */
  lemma ZeroPageIndexInPageZero(operand: byte, index: byte)
    ensures Hi(ZeroPageIndex(operand, index)) == 0x00
    ensures Lo(ZeroPageIndex(operand, index)) == operand + index
  {
  }

  /** … so ZPX and ZPY never reach beyond 0x00FF. */
  lemma ZeroPageIndexedInPageZero(m: Machine, index: byte)
    ensures ZeroPageIndexed(m, index) <= 0x00FF
  {
    ZeroPageIndexInPageZero(Read(m, m.pc), index);
  }

  /** ABSX, ABSY and INDY add the index over the full 16 bits: a carry out of the low byte moves to the next page. */
  lemma IndexedCrossesPage(page: byte)
    ensures Indexed(Word(0xFF, page), 0x01) == Word(0x00, page + 1)
  {
  }

  /**
   * The address after a pointer byte, as IND and INDY compute it: the low byte goes up by one
   * and the page stays; from 0xFF it wraps to 0x00 of the same page.
   */
  lemma SamePageNextKeepsPage(ptr: word)
    ensures Hi(SamePageNext(ptr)) == Hi(ptr)
    ensures Lo(SamePageNext(ptr)) == Lo(ptr) + 1
  {
  }

  lemma SamePageNextWraps(ptr: word)
    ensures Lo(ptr) == 0xFF ==> SamePageNext(ptr) == ptr & 0xFF00
    ensures Lo(ptr) != 0xFF ==> SamePageNext(ptr) == ptr + 1
  {
  }

  /**
   * JMP (abs) with the pointer at the end of a page takes the high byte of the target from
   * the first byte of that same page, not from the next page.
   */
  lemma IndirectPageWrap(m: Machine, page: byte)
    requires ReadWord(m, m.pc) == Word(0xFF, page)
    ensures Indirect(m) == Word(Read(m, Word(0xFF, page)), Read(m, Word(0x00, page)))
  {
    SamePageNextWraps(Word(0xFF, page));
    BytesOfWord(0xFF, page);
    assert Word(0xFF, page) & 0xFF00 == Word(0x00, page);
  }

  /** (zp,X) with operand 0xFF and X = 1 reads its pointer from 0x00 and 0x01. */
  lemma IndexedIndirectWrapExample(m: Machine)
    requires Read(m, m.pc) == 0xFF && m.x == 0x01
    ensures IndexedIndirect(m) == Word(Read(m, 0x0000), Read(m, 0x0001))
  {
    assert ZeroPageIndex(0xFF, 0x01) == 0x0000;
  }

  /** (zp,X) reads both pointer bytes in page zero, at operand + X and one after, each wrapped. */
  lemma IndexedIndirectInPageZero(m: Machine)
    ensures var zp := Read(m, m.pc) + m.x;
      IndexedIndirect(m) == Word(Read(m, zp as word), Read(m, (zp + 1) as word))
  {
    var zp := ZeroPageIndex(Read(m, m.pc), m.x);
    ZeroPageIndexInPageZero(Read(m, m.pc), m.x);
    assert zp & 0x00FF == (Read(m, m.pc) + m.x) as word;
    assert (zp + 1) & 0x00FF == (Read(m, m.pc) + m.x + 1) as word;
  }

  /** (zp),Y with the pointer at 0xFF takes its high byte from 0x00, then adds Y. */
  lemma IndirectIndexedWrapExample(m: Machine)
    requires Read(m, m.pc) == 0xFF
    ensures IndirectIndexed(m) == Indexed(Word(Read(m, 0x00FF), Read(m, 0x0000)), m.y)
  {
    assert SamePageNext(0x00FF) == 0x0000;
  }

  /** REL: an offset below 0x80 branches forward from the address after it … */
  lemma BranchForward(at: word, offset: byte)
    requires offset < 0x80
    ensures BranchTarget(at, offset) == at + 1 + offset as word
  {
  }

  /** … and one from 0x80 up branches back by 0x100 - offset. */
  lemma BranchBackward(at: word, offset: byte)
    requires offset >= 0x80
    ensures BranchTarget(at, offset) == at + 1 - (0x100 - offset as word)
  {
  }
}
