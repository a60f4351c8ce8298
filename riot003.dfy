/**
 * The register file of the RIOT at 0x1700-0x173F (the 6530-003): two data-direction and two
 * data registers, and the interval timer behind 0x1704-0x1707 on writes and 0x1706, 0x1707
 * and 0x170E on reads.
 */
module Riot003 {
  import opened Bits
  import opened RiotTimer

  datatype RiotState = RiotState(padd: u8, sad: u8, pbdd: u8, sbd: u8, timer: TimerState)

  /** The value a register read yields and the registers afterwards (a read can re-arm the timer). */
  datatype Reply = Reply(value: u8, state: RiotState)

  /** The `uint8_t` conversion of the count: its low eight bits. */
  function CountByte(count: u32): u8
  {
    count % 0x100
  }

  /** Reading the timer after it timed out restarts it with its own prescale at count 255. */
  function Rearmed(t: TimerState): (r: TimerState)
    ensures r.mult == t.mult && r.startValue == t.startValue % 0x100
    ensures r.tickAccum == 0 && r.timeout == 0 && r.count == 255
  {
    Restarted(t.mult, t.startValue % 0x100).(timeout := 0, count := 255)
  }

  /** The prescale that a write to 0x1704-0x1707 starts the timer with. */
  function Prescale(address: Address): (scale: u32)
    requires 0x1704 <= address <= 0x1707
    ensures scale in {1, 8, 64, 1024}
  {
    if address == 0x1704 then 1
    else if address == 0x1705 then 8
    else if address == 0x1706 then 64
    else 1024
  }

  /** riot003read */
  function RegisterRead(s: RiotState, address: Address): (r: Reply)
    ensures r.state == s.(timer := r.state.timer)
    ensures r.state.timer != s.timer ==> (address == 0x1706 || address == 0x170E) && s.timer.timeout != 0
  {
    if address == 0x1700 then Reply(s.sad, s)
    else if address == 0x1701 then Reply(s.padd, s)
    else if address == 0x1702 then Reply(s.sad, s)
    else if address == 0x1703 then Reply(s.pbdd, s)
    else if address == 0x1706 || address == 0x170E then
      if s.timer.timeout != 0 then Reply(0, s.(timer := Rearmed(s.timer)))
      else Reply(CountByte(s.timer.count), s)
    else if address == 0x1707 then Reply(if s.timer.timeout != 0 then 0x80 else 0, s)
    else Reply(0, s)
  }

  /** riot003write */
  function RegisterWrite(s: RiotState, address: Address, value: u8): (r: RiotState)
    ensures !(0x1700 <= address <= 0x1707) ==> r == s
  {
    if address == 0x1700 then s.(sad := value)
    else if address == 0x1701 then s.(padd := value)
    else if address == 0x1702 then s.(sbd := value)
    else if address == 0x1703 then s.(pbdd := value)
    else if 0x1704 <= address <= 0x1707 then s.(timer := Restarted(Prescale(address), value))
    else s
  }

  /** Writes to 0x1700, 0x1701 and 0x1703 read back from the same address. */
  lemma DataRegistersReadBack(s: RiotState, address: Address, value: u8)
    requires address in {0x1700, 0x1701, 0x1703}
    ensures RegisterRead(RegisterWrite(s, address, value), address).value == value
  {
  }

  /** 0x1702 stores `sbd`, but a read of 0x1702 returns `sad`: the written value does not come back. */
  lemma SbdNotReadBack(s: RiotState, value: u8)
    ensures RegisterWrite(s, 0x1702, value).sbd == value
    ensures RegisterRead(RegisterWrite(s, 0x1702, value), 0x1702).value == s.sad
  {
  }

  /** A write to 0x1704-0x1707 starts the timer at `value` with prescale 1, 8, 64 or 1024 and leaves the ports. */
  lemma TimerWriteStarts(s: RiotState, address: Address, value: u8)
    requires 0x1704 <= address <= 0x1707
    ensures RegisterWrite(s, address, value) == s.(timer := Restarted(Prescale(address), value))
    ensures Prescale(address) == [1, 8, 64, 1024][address - 0x1704]
  {
  }

  /** Right after a timer write, 0x1706 and 0x170E read the start value and 0x1707 reads 0. */
  lemma TimerWriteReadsBack(s: RiotState, address: Address, value: u8)
    requires 0x1704 <= address <= 0x1707
    ensures RegisterRead(RegisterWrite(s, address, value), 0x1706).value == value
    ensures RegisterRead(RegisterWrite(s, address, value), 0x170E).value == value
    ensures RegisterRead(RegisterWrite(s, address, value), 0x1707).value == 0
  {
  }

  /** 0x1707 reads 0x80 exactly when the timer has timed out, and the read changes nothing. */
  lemma TimeoutFlag(s: RiotState)
    ensures RegisterRead(s, 0x1707).value == 0x80 <==> s.timer.timeout != 0
    ensures RegisterRead(s, 0x1707).value == 0 <==> s.timer.timeout == 0
    ensures RegisterRead(s, 0x1707).state == s
  {
  }

  /**
   * Reading the count of a timed-out timer returns 0, clears the timeout, restarts the
   * prescaler and sets the count to 255; the following count read returns 255.
   */
  lemma TimeoutReadRearms(s: RiotState, address: Address)
    requires address == 0x1706 || address == 0x170E
    requires s.timer.timeout != 0
    ensures RegisterRead(s, address).value == 0
    ensures RegisterRead(RegisterRead(s, address).state, 0x1707).value == 0
    ensures RegisterRead(RegisterRead(s, address).state, address).value == 0xFF
    ensures RegisterRead(s, address).state.timer.mult == s.timer.mult
  {
  }

  /** A count read of a running timer returns the low byte of the count and changes nothing. */
  lemma CountRead(s: RiotState, address: Address)
    requires address == 0x1706 || address == 0x170E
    requires s.timer.timeout == 0
    ensures RegisterRead(s, address) == Reply(s.timer.count % 0x100, s)
  {
  }

  /** Addresses outside the decoded ones read 0 and change nothing. */
  lemma UndecodedReadsZero(s: RiotState, address: Address)
    requires !(address in {0x1700, 0x1701, 0x1702, 0x1703, 0x1706, 0x1707, 0x170E})
    ensures RegisterRead(s, address) == Reply(0, s)
  {
  }

  /** Register reads and writes keep the prescaler below the prescale. */
  lemma RegistersPreservePrescaler(s: RiotState, address: Address, value: u8)
    requires PrescalerBelowScale(s.timer)
    ensures PrescalerBelowScale(RegisterRead(s, address).state.timer)
    ensures PrescalerBelowScale(RegisterWrite(s, address, value).timer)
  {
  }

  /** The `riot003` record: its four port registers and its timer. */
  class Riot {
    var padd: u8
    var sad: u8
    var pbdd: u8
    var sbd: u8
    const timer: Timer

    /** The registers this record holds. */
    function Snapshot(): RiotState
      reads this, timer
    {
      RiotState(padd, sad, pbdd, sbd, timer.Snapshot())
    }

    /** Static storage starts zeroed. */
    constructor ()
      ensures Snapshot() == RiotState(0, 0, 0, 0, TimerState(0, 0, 0, 0, 0))
      ensures fresh(timer)
    {
      padd, sad, pbdd, sbd := 0, 0, 0, 0;
      timer := new Timer();
    }

    /** riot003read */
    method Read(address: Address) returns (value: u8)
      modifies timer
      ensures Reply(value, Snapshot()) == RegisterRead(old(Snapshot()), address)
    {
      if address == 0x1700 {
        value := sad;
      } else if address == 0x1701 {
        value := padd;
      } else if address == 0x1702 {
        value := sad;
      } else if address == 0x1703 {
        value := pbdd;
      } else if address == 0x1706 || address == 0x170E {
        if timer.timeout != 0 {
          timer.Reset(timer.mult, timer.startValue % 0x100);
          timer.timeout := 0;
          timer.count := 255;
          value := 0;
        } else {
          value := CountByte(timer.count);
        }
      } else if address == 0x1707 {
        value := if timer.timeout != 0 then 0x80 else 0;
      } else {
        value := 0;
      }
    }

    /** riot003write */
    method Write(address: Address, value: u8)
      modifies this, timer
      ensures Snapshot() == RegisterWrite(old(Snapshot()), address, value)
    {
      if address == 0x1700 {
        sad := value;
      } else if address == 0x1701 {
        padd := value;
      } else if address == 0x1702 {
        sbd := value;
      } else if address == 0x1703 {
        pbdd := value;
      } else if address == 0x1704 {
        timer.Reset(1, value);
      } else if address == 0x1705 {
        timer.Reset(8, value);
      } else if address == 0x1706 {
        timer.Reset(64, value);
      } else if address == 0x1707 {
        timer.Reset(1024, value);
      }
    }
  }
}
