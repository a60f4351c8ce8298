/**
 * The arithmetic and logic of the instruction handlers, lifted out of the handlers as pure
 * functions of the accumulator (or register), the operand byte and the status register.
 * Each mirrors the flag-macro sequence of its handler family in fake6502.c; the build has
 * NES_CPU defined, so ADC and SBC never look at the Decimal flag.
 *
 * The functions carry no postconditions: the step function uses every one of them, and
 * their meaning is stated by the lemma that follows each, which the proofs about single
 * instructions call where they need it.
 */
module Alu {
  import opened Bits
  import opened Flags

  /** The byte an operation produces and the new status register. */
  datatype Result = Result(value: byte, status: byte)

  /** `status & FLAG_CARRY`: the carry as the number 0 or 1. */
  function CarryIn(status: byte): (c: byte)
    ensures c == 0 || c == 1
    ensures c == 1 <==> Has(status, CARRY)
  {
    status & CARRY
  }

  /** The 9-bit sum a + v + c, computed in 16 bits where it cannot wrap. */
  function WideSum(a: byte, v: byte, c: byte): word
  {
    a as word + v as word + c as word
  }

  /** The flag sequence of every ADC handler: carrycalc, zerocalc, overflowcalc, signcalc. */
  function AddStatus(status: byte, result: word, a: byte, v: byte): byte
  {
    var s1 := CarryCalc(status, result);
    var s2 := ZeroCalc(s1, result);
    var s3 := OverflowCalc(s2, result, a, v);
    SignCalc(s3, result)
  }

  /** zerocalc then signcalc on one intermediate, as the logical and increment handlers do. */
  function NzStatus(status: byte, result: word): byte
  {
    SignCalc(ZeroCalc(status, result), result)
  }

  /** carrycalc, zerocalc and signcalc on one intermediate, as the shift handlers do. */
  function NzcStatus(status: byte, result: word): byte
  {
    SignCalc(ZeroCalc(CarryCalc(status, result), result), result)
  }

  /** The flags AddStatus sets from a sum, and the ones it keeps. */
  lemma AddStatusFlags(status: byte, result: word, a: byte, v: byte)
    ensures Has(AddStatus(status, result, a, v), CARRY) <==> result > 0xFF
    ensures Has(AddStatus(status, result, a, v), ZERO) <==> Lo(result) == 0
    ensures Has(AddStatus(status, result, a, v), SIGN) <==> Lo(result) >= 0x80
    ensures Has(AddStatus(status, result, a, v), OVERFLOW) <==>
      (a < 0x80) == (v < 0x80) && (Lo(result) < 0x80) != (a < 0x80)
    ensures AddStatus(status, result, a, v) & 0x3C == status & 0x3C
  {
    var s1 := CarryCalc(status, result);
    var s2 := ZeroCalc(s1, result);
    var s3 := OverflowCalc(s2, result, a, v);
    CarryCalcFlag(status, result);
    ZeroCalcFlag(s1, result);
    OverflowCalcFlag(s2, result, a, v);
    SignCalcFlag(s3, result);
  }

  /** The flags NzStatus sets from an intermediate, and the ones it keeps. */
  lemma NzStatusFlags(status: byte, result: word)
    ensures Has(NzStatus(status, result), ZERO) <==> Lo(result) == 0
    ensures Has(NzStatus(status, result), SIGN) <==> Lo(result) >= 0x80
    ensures NzStatus(status, result) & 0x7D == status & 0x7D
  {
    ZeroCalcFlag(status, result);
    SignCalcFlag(ZeroCalc(status, result), result);
  }

  /** The flags NzcStatus sets from an intermediate, and the ones it keeps. */
  lemma NzcStatusFlags(status: byte, result: word)
    ensures Has(NzcStatus(status, result), CARRY) <==> result > 0xFF
    ensures Has(NzcStatus(status, result), ZERO) <==> Lo(result) == 0
    ensures Has(NzcStatus(status, result), SIGN) <==> Lo(result) >= 0x80
    ensures NzcStatus(status, result) & 0x7C == status & 0x7C
  {
    CarryCalcFlag(status, result);
    ZeroCalcFlag(CarryCalc(status, result), result);
    SignCalcFlag(ZeroCalc(CarryCalc(status, result), result), result);
  }

  // ---------------------------------------------------------------- ADC and SBC

  /** ADC: binary add with carry. */
  function Adc(a: byte, v: byte, status: byte): Result
  {
    var result := WideSum(a, v, status & CARRY);
    Result(Lo(result), AddStatus(status, result, a, v))
  }

  /** ADC stores a + v + C, modulo 256 ... */
  lemma AdcSum(a: byte, v: byte, status: byte)
    ensures Adc(a, v, status).value == a + v + CarryIn(status)
  {
    assert WideSum(a, v, status & CARRY) == a as word + v as word + (status & CARRY) as word;
  }

  /** ... sets C on an unsigned carry out of bit 7 ... */
  lemma AdcCarry(a: byte, v: byte, status: byte)
    ensures Has(Adc(a, v, status).status, CARRY) <==> a as word + v as word + CarryIn(status) as word > 0xFF
  {
    AddStatusFlags(status, WideSum(a, v, status & CARRY), a, v);
  }

  /** ... Z and N from the stored byte ... */
  lemma AdcZeroSign(a: byte, v: byte, status: byte)
    ensures var r := Adc(a, v, status);
      (Has(r.status, ZERO) <==> r.value == 0) && (Has(r.status, SIGN) <==> r.value >= 0x80)
  {
    AddStatusFlags(status, WideSum(a, v, status & CARRY), a, v);
  }

  /** ... V on signed overflow: both operands of one sign, the sum of the other ... */
  lemma AdcOverflow(a: byte, v: byte, status: byte)
    ensures var r := Adc(a, v, status);
      Has(r.status, OVERFLOW) <==> (a < 0x80) == (v < 0x80) && (r.value < 0x80) != (a < 0x80)
  {
    AddStatusFlags(status, WideSum(a, v, status & CARRY), a, v);
  }

  /** ... and leaves I, D, B and the constant bit alone. */
  lemma AdcKeepsOtherFlags(a: byte, v: byte, status: byte)
    ensures Adc(a, v, status).status & 0x3C == status & 0x3C
  {
    AddStatusFlags(status, WideSum(a, v, status & CARRY), a, v);
  }

  /** 0x50 + 0x50 with C clear: 0xA0, a signed overflow, negative, no carry. */
  lemma AdcSignedOverflowExample(status: byte)
    requires !Has(status, CARRY)
    ensures var r := Adc(0x50, 0x50, status);
      r.value == 0xA0 && Has(r.status, OVERFLOW) && Has(r.status, SIGN) &&
      !Has(r.status, CARRY) && !Has(r.status, ZERO)
  {
    assert CarryIn(status) == 0;
    AdcSum(0x50, 0x50, status);
    AdcCarry(0x50, 0x50, status);
    AdcZeroSign(0x50, 0x50, status);
    AdcOverflow(0x50, 0x50, status);
  }

  /** SBC: the handlers complement the operand (`0x00ff ^ GETVALUE`) and run the ADC sequence. */
  function Sbc(a: byte, m: byte, status: byte): Result
  {
    Adc(a, 0x00FF ^ m, status)
  }

  /** SBC stores a - m - (1 - C), modulo 256: subtraction with borrow = 1 - C ... */
  lemma SbcDifference(a: byte, m: byte, status: byte)
    ensures Sbc(a, m, status).value == a - m - (1 - CarryIn(status))
  {
    AdcSum(a, 0x00FF ^ m, status);
  }

  /** ... sets C exactly when no borrow occurs ... */
  lemma SbcCarry(a: byte, m: byte, status: byte)
    ensures Has(Sbc(a, m, status).status, CARRY) <==> a as word >= m as word + (1 - CarryIn(status)) as word
  {
    AdcCarry(a, 0x00FF ^ m, status);
  }

  /** ... Z and N from the stored byte ... */
  lemma SbcZeroSign(a: byte, m: byte, status: byte)
    ensures var r := Sbc(a, m, status);
      (Has(r.status, ZERO) <==> r.value == 0) && (Has(r.status, SIGN) <==> r.value >= 0x80)
  {
    AdcZeroSign(a, 0x00FF ^ m, status);
  }

  /** ... V when the operands differ in sign and the result's sign differs from a's ... */
  lemma SbcOverflow(a: byte, m: byte, status: byte)
    ensures var r := Sbc(a, m, status);
      Has(r.status, OVERFLOW) <==> (a < 0x80) != (m < 0x80) && (r.value < 0x80) != (a < 0x80)
  {
    AdcOverflow(a, 0x00FF ^ m, status);
  }

  /** ... and leaves I, D, B and the constant bit alone. */
  lemma SbcKeepsOtherFlags(a: byte, m: byte, status: byte)
    ensures Sbc(a, m, status).status & 0x3C == status & 0x3C
  {
    AdcKeepsOtherFlags(a, 0x00FF ^ m, status);
  }

  /** The Decimal flag has no effect on the sum ADC stores in this build ... */
  lemma AdcValueIgnoresDecimal(a: byte, v: byte, status: byte)
    ensures Adc(a, v, status | DECIMAL).value == Adc(a, v, status & !DECIMAL).value
  {
    assert (status | DECIMAL) & CARRY == (status & !DECIMAL) & CARRY;
  }

  /** ... nor on the flags it sets, apart from passing D itself through ... */
  lemma AdcFlagsIgnoreDecimal(a: byte, v: byte, status: byte)
    ensures Adc(a, v, status | DECIMAL).status & !DECIMAL == Adc(a, v, status & !DECIMAL).status & !DECIMAL
  {
    assert (status | DECIMAL) & CARRY == (status & !DECIMAL) & CARRY;
    var result := WideSum(a, v, status & CARRY);
    AddStatusFlags(status | DECIMAL, result, a, v);
    AddStatusFlags(status & !DECIMAL, result, a, v);
  }

  /** ... and the same holds for SBC. */
  lemma SbcValueIgnoresDecimal(a: byte, m: byte, status: byte)
    ensures Sbc(a, m, status | DECIMAL).value == Sbc(a, m, status & !DECIMAL).value
  {
    AdcValueIgnoresDecimal(a, 0x00FF ^ m, status);
  }

  lemma SbcFlagsIgnoreDecimal(a: byte, m: byte, status: byte)
    ensures Sbc(a, m, status | DECIMAL).status & !DECIMAL == Sbc(a, m, status & !DECIMAL).status & !DECIMAL
  {
    AdcFlagsIgnoreDecimal(a, 0x00FF ^ m, status);
  }

  // ---------------------------------------------------------------- comparisons

  /** CMP, CPX and CPY: compare a register with an operand. */
  function Compare(reg: byte, v: byte, status: byte): byte
  {
    var result: word := reg as word - v as word;
    var s := Put(status, CARRY, reg >= v);
    var s := Put(s, ZERO, reg == v);
    SignCalc(s, result)
  }

  /** C iff reg >= v, Z iff reg == v, N from bit 7 of reg - v; V, I, D and B are kept. */
  lemma CompareFlags(reg: byte, v: byte, status: byte)
    ensures Has(Compare(reg, v, status), CARRY) <==> reg >= v
    ensures Has(Compare(reg, v, status), ZERO) <==> reg == v
    ensures Has(Compare(reg, v, status), SIGN) <==> reg - v >= 0x80
    ensures Compare(reg, v, status) & 0x7C == status & 0x7C
  {
  }

  /** A comparison sets C exactly as a subtraction without borrow would ... */
  lemma CompareCarryIsSubtraction(reg: byte, v: byte, status: byte)
    ensures Has(Compare(reg, v, status), CARRY) <==> Has(Sbc(reg, v, status | CARRY).status, CARRY)
  {
    CompareFlags(reg, v, status);
    SbcCarry(reg, v, status | CARRY);
    assert CarryIn(status | CARRY) == 1;
  }

  /** ... and Z ... */
  lemma CompareZeroIsSubtraction(reg: byte, v: byte, status: byte)
    ensures Has(Compare(reg, v, status), ZERO) <==> Has(Sbc(reg, v, status | CARRY).status, ZERO)
  {
    CompareFlags(reg, v, status);
    SbcDifference(reg, v, status | CARRY);
    SbcZeroSign(reg, v, status | CARRY);
    assert CarryIn(status | CARRY) == 1;
  }

  /** ... and N. */
  lemma CompareSignIsSubtraction(reg: byte, v: byte, status: byte)
    ensures Has(Compare(reg, v, status), SIGN) <==> Has(Sbc(reg, v, status | CARRY).status, SIGN)
  {
    CompareFlags(reg, v, status);
    SbcDifference(reg, v, status | CARRY);
    SbcZeroSign(reg, v, status | CARRY);
    assert CarryIn(status | CARRY) == 1;
  }

  // ---------------------------------------------------------------- logical operations

  function And(a: byte, v: byte, status: byte): Result
  {
    var result: word := a as word & v as word;
    Result(Lo(result), NzStatus(status, result))
  }

  function Ora(a: byte, v: byte, status: byte): Result
  {
    var result: word := a as word | v as word;
    Result(Lo(result), NzStatus(status, result))
  }

  function Eor(a: byte, v: byte, status: byte): Result
  {
    var result: word := a as word ^ v as word;
    Result(Lo(result), NzStatus(status, result))
  }

  /** A byte stored with Z and N set from it and every other flag kept. */
  predicate StoresWithZeroSign(r: Result, value: byte, status: byte)
  {
    r.value == value && (Has(r.status, ZERO) <==> value == 0) && (Has(r.status, SIGN) <==> value >= 0x80) &&
    r.status & 0x7D == status & 0x7D
  }

  /** AND stores a & v with Z and N from it ... */
  lemma AndResult(a: byte, v: byte, status: byte)
    ensures StoresWithZeroSign(And(a, v, status), a & v, status)
  {
    NzStatusFlags(status, a as word & v as word);
  }

  /** ... ORA a | v ... */
  lemma OraResult(a: byte, v: byte, status: byte)
    ensures StoresWithZeroSign(Ora(a, v, status), a | v, status)
  {
    NzStatusFlags(status, a as word | v as word);
  }

  /** ... and EOR a ^ v. */
  lemma EorResult(a: byte, v: byte, status: byte)
    ensures StoresWithZeroSign(Eor(a, v, status), a ^ v, status)
  {
    NzStatusFlags(status, a as word ^ v as word);
  }

  /** BIT: Z from a & v; N and V copied from bits 7 and 6 of the operand. */
  function Bit(a: byte, v: byte, status: byte): byte
  {
    var result: word := a as word & v as word;
    var s := ZeroCalc(status, result);
    (s & 0x3F) | (v & 0xC0)
  }

  lemma BitFlags(a: byte, v: byte, status: byte)
    ensures Has(Bit(a, v, status), ZERO) <==> a & v == 0
    ensures Has(Bit(a, v, status), SIGN) <==> Has(v, SIGN)
    ensures Has(Bit(a, v, status), OVERFLOW) <==> Has(v, OVERFLOW)
    ensures Bit(a, v, status) & 0x3D == status & 0x3D
  {
  }

  // ---------------------------------------------------------------- shifts and rotates

  /** Z and N set from the stored byte, and V, I, D and B kept. */
  predicate ZeroSignOf(r: Result, status: byte)
  {
    (Has(r.status, ZERO) <==> r.value == 0) && (Has(r.status, SIGN) <==> r.value >= 0x80) &&
    r.status & 0x7C == status & 0x7C
  }

  /** A byte stored with C from the operation, Z and N from the byte, and V, I, D and B kept. */
  predicate StoresWithCarry(r: Result, value: byte, carry: bool, status: byte)
  {
    r.value == value && (Has(r.status, CARRY) <==> carry) && ZeroSignOf(r, status)
  }

  /** ASL: shift left; bit 7 goes to C. */
  function Asl(v: byte, status: byte): Result
  {
    var result: word := (v as word) << 1;
    Result(Lo(result), NzcStatus(status, result))
  }

  /** LSR: shift right; bit 0 goes to C. */
  function Lsr(v: byte, status: byte): Result
  {
    var result: word := (v as word) >> 1;
    var s := Put(status, CARRY, v & 1 != 0);
    Result(Lo(result), NzStatus(s, result))
  }

  /** ROL: rotate left through the carry. */
  function Rol(v: byte, status: byte): Result
  {
    var result: word := ((v as word) << 1) | (status & CARRY) as word;
    Result(Lo(result), NzcStatus(status, result))
  }

  /** ROR: rotate right through the carry. */
  function Ror(v: byte, status: byte): Result
  {
    var result: word := ((v as word) >> 1) | (((status & CARRY) as word) << 7);
    var s := Put(status, CARRY, v & 1 != 0);
    Result(Lo(result), NzStatus(s, result))
  }

  /** ASL stores v << 1 and moves bit 7 into C ... */
  lemma AslResult(v: byte, status: byte)
    ensures StoresWithCarry(Asl(v, status), v << 1, v >= 0x80, status)
  {
    NzcStatusFlags(status, (v as word) << 1);
  }

  /** ... LSR stores v >> 1, never negative, and moves bit 0 into C ... */
  lemma LsrResult(v: byte, status: byte)
    ensures StoresWithCarry(Lsr(v, status), v >> 1, v & 1 == 1, status) && !Has(Lsr(v, status).status, SIGN)
  {
    PutOneFlag(status, CARRY, v & 1 != 0);
    NzStatusFlags(Put(status, CARRY, v & 1 != 0), (v as word) >> 1);
  }

  /** ... ROL brings the old C into bit 0 ... */
  lemma RolResult(v: byte, status: byte)
    ensures StoresWithCarry(Rol(v, status), (v << 1) | CarryIn(status), v >= 0x80, status)
  {
    RolCarry(v, status);
    RolZeroSign(v, status);
  }

  lemma RolCarry(v: byte, status: byte)
    ensures var r := Rol(v, status);
      r.value == (v << 1) | CarryIn(status) && (Has(r.status, CARRY) <==> v >= 0x80)
  {
    NzcStatusFlags(status, ((v as word) << 1) | (status & CARRY) as word);
  }

  lemma RolZeroSign(v: byte, status: byte)
    ensures ZeroSignOf(Rol(v, status), status)
  {
    NzcStatusFlags(status, ((v as word) << 1) | (status & CARRY) as word);
  }

  /** ... and ROR into bit 7. */
  lemma RorResult(v: byte, status: byte)
    ensures StoresWithCarry(Ror(v, status), (v >> 1) | (CarryIn(status) << 7), v & 1 == 1, status)
  {
    RorCarry(v, status);
    RorZeroSign(v, status);
  }

  lemma RorCarry(v: byte, status: byte)
    ensures var r := Ror(v, status);
      r.value == (v >> 1) | (CarryIn(status) << 7) && (Has(r.status, CARRY) <==> v & 1 == 1)
  {
    PutOneFlag(status, CARRY, v & 1 != 0);
    NzStatusFlags(Put(status, CARRY, v & 1 != 0), ((v as word) >> 1) | (((status & CARRY) as word) << 7));
  }

  lemma RorZeroSign(v: byte, status: byte)
    ensures ZeroSignOf(Ror(v, status), status)
  {
    PutOneFlag(status, CARRY, v & 1 != 0);
    NzStatusFlags(Put(status, CARRY, v & 1 != 0), ((v as word) >> 1) | (((status & CARRY) as word) << 7));
  }

  /** ROR undoes ROL: the operand and the carry both come back. */
  lemma RorUndoesRol(v: byte, status: byte)
    ensures var r := Rol(v, status);
      && Ror(r.value, r.status).value == v
      && (Has(Ror(r.value, r.status).status, CARRY) <==> Has(status, CARRY))
  {
  }

  /** ROL undoes ROR. */
  lemma RolUndoesRor(v: byte, status: byte)
    ensures var r := Ror(v, status);
      && Rol(r.value, r.status).value == v
      && (Has(Rol(r.value, r.status).status, CARRY) <==> Has(status, CARRY))
  {
  }

  // ---------------------------------------------------------------- increments

  /** INC and DEC on a memory byte, with Z and N. */
  function Inc(v: byte, status: byte): Result
  {
    var result: word := v as word + 1;
    Result(Lo(result), NzStatus(status, result))
  }

  function Dec(v: byte, status: byte): Result
  {
    var result: word := v as word - 1;
    Result(Lo(result), NzStatus(status, result))
  }

  /** INC stores v + 1 modulo 256 with Z and N from it ... */
  lemma IncResult(v: byte, status: byte)
    ensures StoresWithZeroSign(Inc(v, status), v + 1, status)
  {
    NzStatusFlags(status, v as word + 1);
  }

  /** ... DEC v - 1 modulo 256 ... */
  lemma DecResult(v: byte, status: byte)
    ensures StoresWithZeroSign(Dec(v, status), v - 1, status)
  {
    NzStatusFlags(status, v as word - 1);
  }

  /** ... and DEC undoes INC, 0xFF and 0x00 included. */
  lemma DecUndoesInc(v: byte, status: byte)
    ensures Dec(Inc(v, status).value, status).value == v
  {
  }

  // ---------------------------------------------------------------- undocumented combinations

  /** SLO as written: A | (v << 1), with C from bit 7 of v; the shifted byte is not stored. */
  function Slo(a: byte, v: byte, status: byte): Result
  {
    var result: word := a as word | ((v as word) << 1);
    Result(Lo(result), NzcStatus(status, result))
  }

  /** RLA as written: A & ((v << 1) | C). */
  function Rla(a: byte, v: byte, status: byte): Result
  {
    var result: word := a as word & (((v as word) << 1) | (status & CARRY) as word);
    Result(Lo(result), NzcStatus(status, result))
  }

  /** SRE as written: A ^ (v >> 1), with C from bit 0 of v. */
  function Sre(a: byte, v: byte, status: byte): Result
  {
    var s := Put(status, CARRY, v & 1 != 0);
    var result: word := a as word ^ ((v as word) >> 1);
    Result(Lo(result), NzStatus(s, result))
  }

  /**
   * What SLO, RLA and SRE leave in A and the flags. RLA's and-result never exceeds 0xFF, so
   * its carrycalc always clears C.
   */
  lemma SloResult(a: byte, v: byte, status: byte)
    ensures StoresWithCarry(Slo(a, v, status), a | (v << 1), v >= 0x80, status)
  {
    NzcStatusFlags(status, a as word | ((v as word) << 1));
  }

  lemma RlaResult(a: byte, v: byte, status: byte)
    ensures StoresWithCarry(Rla(a, v, status), a & ((v << 1) | CarryIn(status)), false, status)
  {
    NzcStatusFlags(status, a as word & (((v as word) << 1) | (status & CARRY) as word));
  }

  lemma SreResult(a: byte, v: byte, status: byte)
    ensures StoresWithCarry(Sre(a, v, status), a ^ (v >> 1), v & 1 == 1, status)
  {
    PutOneFlag(status, CARRY, v & 1 != 0);
    NzStatusFlags(Put(status, CARRY, v & 1 != 0), a as word ^ ((v as word) >> 1));
  }

  /**
   * RRA as written: the rotated byte is computed and dropped; C takes bit 0 of v, and then
   * A + v + C (the un-rotated v, the new C) is stored with zerocalc and signcalc only.
   */
  function Rra(a: byte, v: byte, status: byte): Result
  {
    var s := Put(status, CARRY, v & 1 != 0);
    var result := WideSum(a, v, s & CARRY);
    Result(Lo(result), NzStatus(s, result))
  }

  /** RRA adds v and its own bit 0 to A, C is bit 0 of v, and V is left as it was. */
  lemma RraResult(a: byte, v: byte, status: byte)
    ensures StoresWithCarry(Rra(a, v, status), a + v + (v & 1), v & 1 == 1, status)
    ensures Has(Rra(a, v, status).status, OVERFLOW) == Has(status, OVERFLOW)
  {
    RraCarry(a, v, status);
    RraZeroSign(a, v, status);
  }

  lemma RraCarry(a: byte, v: byte, status: byte)
    ensures var r := Rra(a, v, status);
      r.value == a + v + (v & 1) && (Has(r.status, CARRY) <==> v & 1 == 1)
  {
    var s := Put(status, CARRY, v & 1 != 0);
    PutOneFlag(status, CARRY, v & 1 != 0);
    assert s & CARRY == v & 1;
    NzStatusFlags(s, WideSum(a, v, s & CARRY));
  }

  lemma RraZeroSign(a: byte, v: byte, status: byte)
    ensures ZeroSignOf(Rra(a, v, status), status)
  {
    var s := Put(status, CARRY, v & 1 != 0);
    PutOneFlag(status, CARRY, v & 1 != 0);
    NzStatusFlags(s, WideSum(a, v, s & CARRY));
  }
}
