/** Fixed-width machine words of the 6502: 8-bit bytes and 16-bit little-endian words. */
module Bits {

  type byte = bv8
  type word = bv16

  /** An address as a number, the form the range tests of the memory map compare. */
  type Address = n: int | 0 <= n < 0x10000

  /** A `uint8_t` as a number, for the host code that only stores, compares and adds bytes. */
  type u8 = n: int | 0 <= n < 0x100

  /** Low byte of a word. */
  function Lo(w: word): byte { (w & 0xFF) as byte }

  /** High byte of a word. */
  function Hi(w: word): byte { (w >> 8) as byte }

  /** The word `lo | hi << 8`, the byte order of every 16-bit value in memory. */
  function Word(lo: byte, hi: byte): word
  {
    (lo as word) | ((hi as word) << 8)
  }

  /** A word splits back into the two bytes it was built from. */
  lemma BytesOfWord(lo: byte, hi: byte)
    ensures Lo(Word(lo, hi)) == lo && Hi(Word(lo, hi)) == hi
  {
  }

  /** Every word is determined by its two bytes. */
  lemma WordOfBytes(w: word)
    ensures Word(Lo(w), Hi(w)) == w
  {
  }

  /** The REL recipe: an 8-bit displacement widened to 16 bits by copying bit 7 into the high byte. */
  function SignExtend(b: byte): word
  {
    var r: word := b as word;
    if r & 0x80 != 0 then r | 0xFF00 else r
  }

  /** The low byte is the displacement and the high byte copies its sign. */
  lemma SignExtendBytes(b: byte)
    ensures Lo(SignExtend(b)) == b
    ensures Hi(SignExtend(b)) == if b < 0x80 then 0x00 else 0xFF
  {
  }

  /** Converting a word to a number and back gives the word again. */
  lemma WordAsIntRoundTrip(w: word)
    ensures (w as int) as word == w
  {
  }

  /** Distinct words are distinct memory indices. */
  lemma WordAsIntInjective(v: word, w: word)
    requires v != w
    ensures v as int != w as int
  {
    WordAsIntRoundTrip(v);
    WordAsIntRoundTrip(w);
  }

  /** Equal addresses stay equal when the same offset is added to both. */
  lemma OffsetCongruent(v: word, w: word, k: word)
    requires v == w
    ensures v + k == w + k
  {
  }

  /** The same for the stack offsets the pushes and pulls use, which wrap within a byte. */
  lemma StackOffsetsCongruent(v: byte, w: byte)
    requires v == w
    ensures v + 1 == w + 1 && v + 2 == w + 2 && v + 3 == w + 3
    ensures v - 1 == w - 1 && v - 2 == w - 2 && v - 3 == w - 3
  {
  }
}
