/**
 * The status register and the flag macros of the interpreter (setcarry/clearcarry …
 * signcalc). The macros are plain functions here; what each one does to the status byte
 * is stated by the lemma after it, so that the step function, which uses all of them,
 * does not carry their facts into every proof about it.
 */
module Flags {
  import opened Bits

  const CARRY: byte := 0x01
  const ZERO: byte := 0x02
  const INTERRUPT: byte := 0x04
  const DECIMAL: byte := 0x08
  const BREAK: byte := 0x10
  const CONSTANT: byte := 0x20
  const OVERFLOW: byte := 0x40
  const SIGN: byte := 0x80

  /** One of the eight status bits. */
  predicate IsFlag(f: byte)
  {
    f == CARRY || f == ZERO || f == INTERRUPT || f == DECIMAL ||
    f == BREAK || f == CONSTANT || f == OVERFLOW || f == SIGN
  }

  /** Whether flag `f` is set in `status`. */
  predicate Has(status: byte, f: byte)
  {
    status & f != 0
  }

  /** `status |= f` when `on`, `status &= ~f` otherwise. */
  function Put(status: byte, f: byte, on: bool): byte
    requires IsFlag(f)
  {
    if on then status | f else status & !f
  }

  /** The set and clear macros give the flag the chosen value and change no other bit. */
  lemma PutOneFlag(status: byte, f: byte, on: bool)
    requires IsFlag(f)
    ensures Has(Put(status, f, on), f) == on
    ensures Put(status, f, on) & !f == status & !f
  {
  }

  /** zerocalc: Z from the low byte of a (possibly 16-bit) intermediate. */
  function ZeroCalc(status: byte, n: word): byte
  {
    Put(status, ZERO, n & 0x00FF == 0)
  }

  /** signcalc: N from bit 7 of an intermediate. */
  function SignCalc(status: byte, n: word): byte
  {
    Put(status, SIGN, n & 0x0080 != 0)
  }

  /** carrycalc: C from the high byte of a 16-bit intermediate. */
  function CarryCalc(status: byte, n: word): byte
  {
    Put(status, CARRY, n & 0xFF00 != 0)
  }

  /** overflowcalc(n, m, o): V from result `n`, accumulator `m` and operand `o`. */
  function OverflowCalc(status: byte, n: word, m: byte, o: byte): byte
  {
    Put(status, OVERFLOW, (n ^ m as word) & (n ^ o as word) & 0x0080 != 0)
  }

  /** zerocalc sets Z iff the low byte of the intermediate is zero and changes no other bit. */
  lemma ZeroCalcFlag(status: byte, n: word)
    ensures Has(ZeroCalc(status, n), ZERO) <==> Lo(n) == 0
    ensures ZeroCalc(status, n) & !ZERO == status & !ZERO
  {
  }

  /** signcalc sets N iff the low byte of the intermediate is negative and changes no other bit. */
  lemma SignCalcFlag(status: byte, n: word)
    ensures Has(SignCalc(status, n), SIGN) <==> Lo(n) >= 0x80
    ensures SignCalc(status, n) & !SIGN == status & !SIGN
  {
  }

  /** carrycalc sets C iff the intermediate does not fit in a byte and changes no other bit. */
  lemma CarryCalcFlag(status: byte, n: word)
    ensures Has(CarryCalc(status, n), CARRY) <==> n > 0xFF
    ensures CarryCalc(status, n) & !CARRY == status & !CARRY
  {
  }

  /**
   * overflowcalc sets V iff the accumulator and the operand have one sign and the result the
   * other, and changes no other bit.
   */
  lemma OverflowCalcFlag(status: byte, n: word, m: byte, o: byte)
    ensures Has(OverflowCalc(status, n, m, o), OVERFLOW) <==> (m < 0x80) == (o < 0x80) && (Lo(n) < 0x80) != (m < 0x80)
    ensures OverflowCalc(status, n, m, o) & !OVERFLOW == status & !OVERFLOW
  {
  }

  /** Z and N set from a byte value, as every load, transfer and increment does. */
  function ZeroSign(status: byte, v: byte): byte
  {
    SignCalc(ZeroCalc(status, v as word), v as word)
  }

  /** Loads and transfers set Z iff the value is zero and N iff it is negative, and nothing else. */
  lemma ZeroSignOfValue(status: byte, v: byte)
    ensures Has(ZeroSign(status, v), ZERO) <==> v == 0
    ensures Has(ZeroSign(status, v), SIGN) <==> v >= 0x80
    ensures ZeroSign(status, v) & 0x7D == status & 0x7D
  {
  }
}
