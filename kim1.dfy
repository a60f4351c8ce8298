/**
 * The KIM-1 memory map behind read6502 and write6502 in main.c: 32 KiB of RAM, the 64-byte
 * RAMs and 1 KiB ROMs of the two RIOTs, and the RIOT register windows. The ROM images are
 * parameters whose contents are not modelled; the keyboard and display RIOT (6530-002)
 * is hardware I/O, so what its registers read is a parameter and writes to them leave the
 * modelled state alone.
 */
module Kim1 {
  import opened Bits
  import opened RiotTimer
  import opened Riot003

  /** Where an address lands, with the index into the array it selects. */
  datatype Region =
    | Ram(i: int)
    | Riot003Ram(i: int)
    | Riot002Ram(i: int)
    | Riot003Rom(i: int)
    | Riot002Rom(i: int)
    | Riot003Registers
    | Riot002Registers
    | Unmapped

  /** Every index lies inside the array its region names (RAM 0x8000, RIOT RAMs 64, ROMs 1024). */
  predicate InBounds(r: Region)
  {
    match r
    case Ram(i) => 0 <= i < 0x8000
    case Riot003Ram(i) => 0 <= i < 64
    case Riot002Ram(i) => 0 <= i < 64
    case Riot003Rom(i) => 0 <= i < 1024
    case Riot002Rom(i) => 0 <= i < 1024
    case _ => true
  }

  /**
   * The read decode of read6502 as written. The window 0x9C00-0x9FFF indexes the 64-byte
   * RAM of the 6530-002 with offsets up to 0x3FF.
   */
  function ReadRegionAsWritten(n: Address): Region
  {
    if 0x9C00 <= n < 0xA000 then Riot002Ram(n - 0x9C00) else ReadRegion(n)
  }

  /**
   * The read decode of read6502, in the order it tests its ranges, with 0x9C00-0x9FFF read
   * from the 6530-002 ROM as the mirror 0x8000 above 0x1C00. The RAM window above
   * 0x2000 ends at the decimal constant 9000 (0x2328) that the code compares against.
   */
  function ReadRegion(n: Address): (r: Region)
    ensures InBounds(r)
  {
    if 0x1C00 <= n < 0x2000 then Riot002Rom(n - 0x1C00)
    else if n < 0x1000 then Ram(n)
    else if 0x1800 <= n < 0x1C00 then Riot003Rom(n - 0x1800)
    else if 0x1780 <= n < 0x17C0 then Riot003Ram(n - 0x1780)
    else if 0x17C0 <= n < 0x1800 then Riot002Ram(n - 0x17C0)
    else if 0x1700 <= n < 0x1740 then Riot003Registers
    else if 0x1740 <= n < 0x1780 then Riot002Registers
    else if 0x9C00 <= n < 0xA000 then Riot002Rom(n - 0x9C00)
    else if n >= 0xFF00 then Riot002Rom(n - 0xFC00)
    else if 0x2000 <= n <= 9000 then Ram(n - 0x1000)
    else Unmapped
  }

  /** The write decode of write6502: RAM, the RIOT RAMs and the RIOT registers; anything else is dropped. */
  function WriteRegion(n: Address): (r: Region)
    ensures r.Ram? || r.Riot003Ram? || r.Riot002Ram? || r.Riot003Registers? || r.Riot002Registers? || r.Unmapped?
    ensures !r.Unmapped? ==> r == ReadRegion(n)
    ensures InBounds(r)
  {
    if n < 0x1000 then Ram(n)
    else if 0x1780 <= n < 0x17C0 then Riot003Ram(n - 0x1780)
    else if 0x17C0 <= n < 0x1800 then Riot002Ram(n - 0x17C0)
    else if 0x1700 <= n < 0x1740 then Riot003Registers
    else if 0x1740 <= n < 0x1780 then Riot002Registers
    else if 0x2000 <= n <= 9000 then Ram(n - 0x1000)
    else Unmapped
  }

  /** The read decode as written indexes past the end of the 64-byte RAM, already at 0x9C40. */
  lemma ReadRegionAsWrittenOverruns()
    ensures !InBounds(ReadRegionAsWritten(0x9C40))
    ensures ReadRegionAsWritten(0x9FFF) == Riot002Ram(0x3FF)
  {
  }

  /** Outside 0x9C00-0x9FFF the read decode as written and the corrected one agree. */
  lemma ReadRegionAsWrittenElsewhere(n: Address)
    requires !(0x9C00 <= n < 0xA000)
    ensures ReadRegionAsWritten(n) == ReadRegion(n)
  {
  }

  /** The memory map as disjoint windows. */
  lemma MemoryMap(n: Address)
    ensures n < 0x1000 ==> ReadRegion(n) == Ram(n)
    ensures 0x1000 <= n < 0x1700 ==> ReadRegion(n) == Unmapped
    ensures 0x1700 <= n < 0x1740 ==> ReadRegion(n) == Riot003Registers
    ensures 0x1740 <= n < 0x1780 ==> ReadRegion(n) == Riot002Registers
    ensures 0x1780 <= n < 0x17C0 ==> ReadRegion(n) == Riot003Ram(n - 0x1780)
    ensures 0x17C0 <= n < 0x1800 ==> ReadRegion(n) == Riot002Ram(n - 0x17C0)
    ensures 0x1800 <= n < 0x1C00 ==> ReadRegion(n) == Riot003Rom(n - 0x1800)
    ensures 0x1C00 <= n < 0x2000 ==> ReadRegion(n) == Riot002Rom(n - 0x1C00)
    ensures 0x2000 <= n <= 9000 ==> ReadRegion(n) == Ram(n - 0x1000)
    ensures 9000 < n < 0x9C00 ==> ReadRegion(n) == Unmapped
    ensures 0x9C00 <= n < 0xA000 ==> ReadRegion(n) == Riot002Rom(n - 0x9C00)
    ensures 0xA000 <= n < 0xFF00 ==> ReadRegion(n) == Unmapped
    ensures 0xFF00 <= n ==> ReadRegion(n) == Riot002Rom(n - 0xFC00)
  {
  }

  /** The address a RAM cell is read from: the inverse of the read decode on the RAM regions. */
  function CellAddress(r: Region): int
  {
    match r
    case Ram(i) => if i < 0x1000 then i else i + 0x1000
    case Riot003Ram(i) => i + 0x1780
    case Riot002Ram(i) => i + 0x17C0
    case _ => -1
  }

  predicate IsRamCell(r: Region)
  {
    r.Ram? || r.Riot003Ram? || r.Riot002Ram?
  }

  lemma CellAddressInverts(n: Address)
    requires IsRamCell(ReadRegion(n))
    ensures CellAddress(ReadRegion(n)) == n
  {
  }

  /** No two addresses share a RAM cell: the decode is one-to-one on every RAM region. */
  lemma RamCellsDistinct(p: Address, q: Address)
    requires p != q
    requires IsRamCell(ReadRegion(p))
    ensures ReadRegion(p) != ReadRegion(q)
  {
    CellAddressInverts(p);
    if IsRamCell(ReadRegion(q)) {
      CellAddressInverts(q);
    }
  }

  datatype Memory = Memory(ram: seq<u8>, riot002Ram: seq<u8>, riot003Ram: seq<u8>, riot003: RiotState)

  /** The writable state behind the bus, with its arrays at their declared sizes. */
  type BusState = m: Memory | |m.ram| == 0x8000 && |m.riot002Ram| == 64 && |m.riot003Ram| == 64
    witness Memory(seq(0x8000, _ => 0), seq(64, _ => 0), seq(64, _ => 0), RiotState(0, 0, 0, 0, TimerState(0, 0, 0, 0, 0)))

  /** The ROM images of the 6530-002 and 6530-003, 1 KiB each. */
  datatype RomImages = RomImages(riot002: seq<u8>, riot003: seq<u8>)

  type Roms = r: RomImages | |r.riot002| == 1024 && |r.riot003| == 1024
    witness RomImages(seq(1024, _ => 0), seq(1024, _ => 0))

  /** The result of a bus read: the byte and the state afterwards. */
  datatype Fetched = Fetched(value: u8, state: BusState)

  /**
   * read6502. `keypad` stands for what riot002read returns. Only RIOT-003 register reads
   * can change the state.
   */
  function BusRead(m: BusState, roms: Roms, addr: Address, keypad: u8): (r: Fetched)
    ensures !ReadRegion(addr).Riot003Registers? ==> r.state == m
    ensures r.state == m.(riot003 := r.state.riot003)
  {
    match ReadRegion(addr)
    case Ram(i) => Fetched(m.ram[i], m)
    case Riot003Ram(i) => Fetched(m.riot003Ram[i], m)
    case Riot002Ram(i) => Fetched(m.riot002Ram[i], m)
    case Riot003Rom(i) => Fetched(roms.riot003[i], m)
    case Riot002Rom(i) => Fetched(roms.riot002[i], m)
    case Riot003Registers =>
      var reply := RegisterRead(m.riot003, addr);
      Fetched(reply.value, m.(riot003 := reply.state))
    case Riot002Registers => Fetched(keypad, m)
    case Unmapped => Fetched(0, m)
  }

  /** write6502 */
  function BusWrite(m: BusState, addr: Address, value: u8): (r: BusState)
    ensures WriteRegion(addr).Unmapped? || WriteRegion(addr).Riot002Registers? ==> r == m
  {
    match WriteRegion(addr)
    case Ram(i) => m.(ram := m.ram[i := value])
    case Riot003Ram(i) => m.(riot003Ram := m.riot003Ram[i := value])
    case Riot002Ram(i) => m.(riot002Ram := m.riot002Ram[i := value])
    case Riot003Registers => m.(riot003 := RegisterWrite(m.riot003, addr, value))
    case _ => m
  }

  /** The addresses whose writes land in RAM and read back. */
  predicate Writable(n: Address)
  {
    n < 0x1000 || 0x1780 <= n < 0x1800 || 0x2000 <= n <= 9000
  }

  lemma WritableIsRam(n: Address)
    ensures Writable(n) <==> IsRamCell(WriteRegion(n))
  {
  }

  /** A byte written to a writable address reads back. */
  lemma WriteThenRead(m: BusState, roms: Roms, addr: Address, value: u8, keypad: u8)
    requires Writable(addr)
    ensures BusRead(BusWrite(m, addr, value), roms, addr, keypad).value == value
  {
  }

  /** A RAM write changes no other address: every other read sees what it saw before. */
  lemma WriteKeepsOthers(m: BusState, roms: Roms, addr: Address, other: Address, value: u8, keypad: u8)
    requires Writable(addr) && other != addr
    ensures BusRead(BusWrite(m, addr, value), roms, other, keypad).value == BusRead(m, roms, other, keypad).value
  {
    WritableIsRam(addr);
    RamCellsDistinct(addr, other);
  }

  /** Writes to the ROMs and to unmapped addresses change nothing. */
  lemma IgnoredWrites(m: BusState, addr: Address, value: u8)
    requires 0x1800 <= addr < 0x2000 || 0x1000 <= addr < 0x1700 || 9000 < addr
    ensures BusWrite(m, addr, value) == m
  {
  }

  /** The top page reads the last page of the 6530-002 ROM, so the vectors at 0xFFFA-0xFFFF come from 0x1FFA-0x1FFF. */
  lemma TopPageMirrorsRom(m: BusState, roms: Roms, addr: Address, keypad: u8)
    requires addr >= 0xFF00
    ensures BusRead(m, roms, addr, keypad) == BusRead(m, roms, addr - 0xE000, keypad)
  {
  }

  /** 0x9C00-0x9FFF reads the 6530-002 ROM as 0x1C00-0x1FFF does. */
  lemma HighRomMirror(m: BusState, roms: Roms, addr: Address, keypad: u8)
    requires 0x9C00 <= addr < 0xA000
    ensures BusRead(m, roms, addr, keypad) == BusRead(m, roms, addr - 0x8000, keypad)
  {
  }

  /** The RAM window above 0x2000 stops at 0x2328: 0x2329 reads 0 whatever was written to it. */
  lemma RamWindowEndsAt9000(m: BusState, roms: Roms, value: u8, keypad: u8)
    ensures BusRead(BusWrite(m, 0x2329, value), roms, 0x2329, keypad).value == 0
  {
    IgnoredWrites(m, 0x2329, value);
  }

  /** So the RAM cells from index 0x1329 on are never reached from the bus. */
  lemma RamIndexBelow1329(n: Address)
    requires ReadRegion(n).Ram?
    ensures ReadRegion(n).i < 0x1329
  {
  }

  /** RIOT-003 registers are reached through the bus: a timer write then a count read gives the value back. */
  lemma TimerThroughBus(m: BusState, roms: Roms, addr: Address, value: u8, keypad: u8)
    requires 0x1704 <= addr <= 0x1707
    ensures BusRead(BusWrite(m, addr, value), roms, 0x1706, keypad).value == value
  {
    TimerWriteReadsBack(m.riot003, addr, value);
  }

  /** The bus: RAM arrays updated in place, the ROM images, and the RIOT-003 record. */
  class Bus {
    const ram: array<u8>
    const riot002Ram: array<u8>
    const riot003Ram: array<u8>
    const roms: Roms
    const riot003: Riot

    ghost predicate Valid()
      reads this
    {
      ram.Length == 0x8000 && riot002Ram.Length == 64 && riot003Ram.Length == 64
      && riot002Ram != riot003Ram
    }

    /** The state the arrays and the RIOT record hold. */
    ghost function Snapshot(): BusState
      reads this, ram, riot002Ram, riot003Ram, riot003, riot003.timer
      requires Valid()
    {
      Memory(ram[..], riot002Ram[..], riot003Ram[..], riot003.Snapshot())
    }

    /** Static storage starts zeroed; the ROM images are given. */
    constructor (images: Roms)
      ensures Valid() && fresh(ram) && fresh(riot002Ram) && fresh(riot003Ram) && fresh(riot003) && fresh(riot003.timer)
      ensures roms == images
      ensures Snapshot() == Memory(seq(0x8000, _ => 0), seq(64, _ => 0), seq(64, _ => 0), RiotState(0, 0, 0, 0, TimerState(0, 0, 0, 0, 0)))
    {
      ram := new u8[0x8000](_ => 0);
      riot002Ram := new u8[64](_ => 0);
      riot003Ram := new u8[64](_ => 0);
      roms := images;
      riot003 := new Riot();
    }

    /** read6502; `keypad` is what riot002read returns. */
    method Read(addr: Address, keypad: u8) returns (value: u8)
      requires Valid()
      modifies riot003.timer
      ensures Valid()
      ensures Fetched(value, Snapshot()) == BusRead(old(Snapshot()), roms, addr, keypad)
    {
      var region := ReadRegion(addr);
      match region {
        case Ram(i) => value := ram[i];
        case Riot003Ram(i) => value := riot003Ram[i];
        case Riot002Ram(i) => value := riot002Ram[i];
        case Riot003Rom(i) => value := roms.riot003[i];
        case Riot002Rom(i) => value := roms.riot002[i];
        case Riot003Registers => value := riot003.Read(addr);
        case Riot002Registers => value := keypad;
        case Unmapped => value := 0;
      }
    }

    /** write6502 */
    method Write(addr: Address, value: u8)
      requires Valid()
      modifies ram, riot002Ram, riot003Ram, riot003, riot003.timer
      ensures Valid()
      ensures Snapshot() == BusWrite(old(Snapshot()), addr, value)
    {
      var region := WriteRegion(addr);
      match region {
        case Ram(i) => ram[i] := value;
        case Riot003Ram(i) => riot003Ram[i] := value;
        case Riot002Ram(i) => riot002Ram[i] := value;
        case Riot003Registers => riot003.Write(addr, value);
        case _ =>
      }
    }
  }
}
