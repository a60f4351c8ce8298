/**
 * The paper-tape loader of main.c. A line arrives over the serial port; the filter keeps
 * only `;` and hex digits, at most 1024 of them. A record line has the form
 * `;CCAAAA` + CC data bytes + `SSSS`, every field in hex: CC is the byte count, AAAA the
 * load address, and SSSS the checksum, which is the sum of the address bytes, the count and
 * the data bytes modulo 0x10000. Each data byte goes to the bus through write6502 as soon as
 * it is read, before the checksum is checked. A bad record sends the 6502 to LOADER
 * (0x1D3E), the ROM's error display; a good record with count 0 ends the tape and sends it
 * to LOAD7 (0x1D2E); any other good record is followed by the next line.
 */
module PaperTape {
  import opened Bits
  import Kim1

  /** The ROM's paper-tape error display, where a bad record resumes. */
  const LOADER: word := 0x1D3E
  /** Where the ROM resumes after the last record of a tape. */
  const LOAD7: word := 0x1D2E
  /** The size of the line buffer. */
  const LineCapacity := 1024

  predicate IsHexDigit(c: char)
  {
    '0' <= c <= '9' || 'A' <= c <= 'F' || 'a' <= c <= 'f'
  }

  /** The characters the line filter keeps. */
  predicate IsTapeChar(c: char)
  {
    c == ';' || IsHexDigit(c)
  }

  function DigitValue(c: char): (d: int)
    requires IsHexDigit(c)
    ensures 0 <= d < 16
  {
    if '0' <= c <= '9' then c as int - '0' as int
    else if 'A' <= c <= 'F' then c as int - 'A' as int + 10
    else c as int - 'a' as int + 10
  }

  /** The digit a tape writer uses for `d`, upper case ... */
  function UpperDigit(d: int): char
    requires 0 <= d < 16
  {
    "0123456789ABCDEF"[d]
  }

  /** ... or lower case. */
  function LowerDigit(d: int): char
    requires 0 <= d < 16
  {
    "0123456789abcdef"[d]
  }

  /** Both spellings of every digit read back as the digit. */
  lemma DigitsReadBack(d: int)
    requires 0 <= d < 16
    ensures IsHexDigit(UpperDigit(d)) && DigitValue(UpperDigit(d)) == d
    ensures IsHexDigit(LowerDigit(d)) && DigitValue(LowerDigit(d)) == d
  {
  }

  // ---------------------------------------------------------------------------------
  // The line filter (read_paper_tape_line)

  predicate AllTapeChars(s: seq<char>)
  {
    forall i :: 0 <= i < |s| ==> IsTapeChar(s[i])
  }

  /** The characters of `received` the filter keeps, in order. */
  function Kept(received: seq<char>): (line: seq<char>)
    ensures |line| <= |received|
    ensures AllTapeChars(line)
  {
    if |received| == 0 then []
    else if IsTapeChar(received[|received| - 1]) then Kept(received[..|received| - 1]) + [received[|received| - 1]]
    else Kept(received[..|received| - 1])
  }

  /** Keeping distributes over concatenation: the filter looks at one character at a time. */
  lemma {:induction false} KeptAppend(s: seq<char>, t: seq<char>)
    ensures Kept(s + t) == Kept(s) + Kept(t)
    decreases |t|
  {
    if |t| == 0 {
      assert s + t == s;
    } else {
      assert (s + t)[..|s + t| - 1] == s + t[..|t| - 1];
      KeptAppend(s, t[..|t| - 1]);
    }
  }

  /** Every tape character is kept, and only those: a line of tape characters passes unchanged. */
  lemma {:induction false} KeptTapeLine(s: seq<char>)
    requires AllTapeChars(s)
    ensures Kept(s) == s
    decreases |s|
  {
    if |s| != 0 {
      KeptTapeLine(s[..|s| - 1]);
      assert s[..|s| - 1] + [s[|s| - 1]] == s;
    }
  }

  /** How the filter stopped: at a newline, with a full buffer, or because the input ended. */
  datatype LineEnd = Newline | Full | Interrupted

  /** How a line ended and how many received characters it took, the newline included. */
  datatype LineScan = LineScan(end: LineEnd, consumed: nat)

  /**
   * read_paper_tape_line as a function of what the port delivers: from the `k`-th received
   * character on, with `kept` characters already in the buffer. A newline ends the line; a
   * carriage return or another character outside the protocol is dropped; a kept character
   * that fills the buffer ends the line too.
   */
  function Scan(received: seq<char>, k: nat, kept: nat): (r: LineScan)
    requires k <= |received| && kept < LineCapacity
    ensures k <= r.consumed <= |received|
    ensures r.end != Interrupted ==> k < r.consumed
    ensures r.end == Interrupted ==> r.consumed == |received|
    decreases |received| - k
  {
    if k == |received| then LineScan(Interrupted, k)
    else if received[k] == '\n' then LineScan(Newline, k + 1)
    else if received[k] == '\r' || !IsTapeChar(received[k]) then Scan(received, k + 1, kept)
    else if kept + 1 == LineCapacity then LineScan(Full, k + 1)
    else Scan(received, k + 1, kept + 1)
  }

  /**
   * What a line scan means: it stops at the first newline, or where the kept characters
   * fill the buffer, or at the end of the input, whichever comes first.
   */
  ghost predicate LineTaken(received: seq<char>, r: LineScan)
    requires r.consumed <= |received|
  {
    && (r.end == Newline ==> 0 < r.consumed && received[r.consumed - 1] == '\n' && '\n' !in received[..r.consumed - 1]
                             && |Kept(received[..r.consumed])| < LineCapacity)
    && (r.end == Full ==> '\n' !in received[..r.consumed] && |Kept(received[..r.consumed])| == LineCapacity)
    && (r.end == Interrupted ==> '\n' !in received && |Kept(received)| < LineCapacity)
  }

  lemma {:induction false} ScanEnds(received: seq<char>, k: nat, kept: nat)
    requires k <= |received| && kept < LineCapacity
    requires kept == |Kept(received[..k])| && '\n' !in received[..k]
    ensures LineTaken(received, Scan(received, k, kept))
    decreases |received| - k
  {
    if k == |received| {
      assert received[..k] == received;
    } else {
      var c := received[k];
      if c == '\n' {
        EndsAtNewline(received, k);
      } else {
        KeptOneMore(received, k);
        assert '\n' !in received[..k + 1];
        if c == '\r' || !IsTapeChar(c) {
          assert Scan(received, k, kept) == Scan(received, k + 1, kept);
          ScanEnds(received, k + 1, kept);
        } else if kept + 1 != LineCapacity {
          assert Scan(received, k, kept) == Scan(received, k + 1, kept + 1);
          ScanEnds(received, k + 1, kept + 1);
        } else {
          assert Scan(received, k, kept) == LineScan(Full, k + 1);
        }
      }
    }
  }

  /** The first newline ends the line, with the characters kept before it. */
  lemma EndsAtNewline(received: seq<char>, k: nat)
    requires k < |received| && received[k] == '\n'
    requires '\n' !in received[..k] && |Kept(received[..k])| < LineCapacity
    ensures received[..k + 1][..k] == received[..k]
    ensures |Kept(received[..k + 1])| < LineCapacity
  {
    KeptOneMore(received, k);
    assert received[..k + 1][..k] == received[..k];
  }

  /** One more received character adds one kept character exactly when it is a tape character. */
  lemma KeptOneMore(received: seq<char>, k: nat)
    requires k < |received|
    ensures received[..k + 1] == received[..k] + [received[k]]
    ensures |Kept(received[..k + 1])| == |Kept(received[..k])| + if IsTapeChar(received[k]) then 1 else 0
  {
    var c := received[k];
    assert received[..k + 1] == received[..k] + [c];
    KeptAppend(received[..k], [c]);
    assert Kept([c]) == if IsTapeChar(c) then [c] else [] by {
      assert [c][..0] == [];
    }
  }

  /** A line of fewer than LineCapacity tape characters and its newline is read as exactly that line. */
  lemma {:induction false} ScanTapeLine(line: seq<char>, rest: seq<char>, k: nat)
    requires |line| < LineCapacity && k <= |line|
    requires AllTapeChars(line)
    ensures Scan(line + ['\n'] + rest, k, k) == LineScan(Newline, |line| + 1)
    ensures Kept((line + ['\n'] + rest)[..|line| + 1]) == line
    decreases |line| - k
  {
    var received := line + ['\n'] + rest;
    if k < |line| {
      assert received[k] == line[k];
      ScanTapeLine(line, rest, k + 1);
    } else {
      assert received[k] == '\n';
    }
    assert received[..|line| + 1] == line + ['\n'];
    KeptAppend(line, ['\n']);
    KeptTapeLine(line);
  }

  // ---------------------------------------------------------------------------------
  // Fields (paper_tape_read_byte and paper_tape_read_word)

  datatype ByteField = ByteFail | ByteOk(value: u8, pos: nat)

  /**
   * paper_tape_read_byte at `pos`, with `b` what the caller's byte held before. A digit
   * that is not hex leaves the byte as it was: the first sets the high nibble, the second adds.
   */
  function ReadByte(line: seq<char>, pos: nat, b: u8): (r: ByteField)
    ensures r.ByteOk? <==> pos + 1 < |line|
    ensures r.ByteOk? ==> r.pos == pos + 2
  {
    if pos >= |line| then ByteFail
    else
      var hi := if IsHexDigit(line[pos]) then DigitValue(line[pos]) * 16 else b;
      if pos + 1 >= |line| then ByteFail
      else
        var c := line[pos + 1];
        ByteOk(if IsHexDigit(c) then (hi + DigitValue(c)) % 0x100 else hi, pos + 2)
  }

  /** Two hex digits read as their value, `hi * 16 + lo`, in either case. */
  lemma ReadHexByte(line: seq<char>, pos: nat, b: u8)
    requires pos + 1 < |line| && IsHexDigit(line[pos]) && IsHexDigit(line[pos + 1])
    ensures ReadByte(line, pos, b).value == 16 * DigitValue(line[pos]) + DigitValue(line[pos + 1])
  {
  }

  /** A byte written as two hex digits reads back. */
  lemma ReadEncodedByte(line: seq<char>, pos: nat, v: u8, b: u8)
    requires pos + 1 < |line| && line[pos..pos + 2] == EncodeByte(v)
    ensures ReadByte(line, pos, b) == ByteOk(v, pos + 2)
  {
    assert line[pos] == UpperDigit(v / 16) && line[pos + 1] == UpperDigit(v % 16);
    DigitsReadBack(v / 16);
    DigitsReadBack(v % 16);
  }

  /** Two non-hex characters (a stray `;`) leave the caller's byte as it was. */
  lemma ReadByteKeepsStale(line: seq<char>, pos: nat, b: u8)
    requires pos + 1 < |line| && line[pos] == ';' && line[pos + 1] == ';'
    ensures ReadByte(line, pos, b) == ByteOk(b, pos + 2)
  {
  }

  datatype WordField = WordFail | WordOk(value: int, pos: nat)

  /** paper_tape_read_word: two bytes, the first the high one. `hi` and `lo` are what its locals held. */
  function ReadWord(line: seq<char>, pos: nat, hi: u8, lo: u8): (r: WordField)
    ensures r.WordOk? <==> pos + 3 < |line|
    ensures r.WordOk? ==> r.pos == pos + 4 && 0 <= r.value < 0x10000
  {
    match ReadByte(line, pos, hi)
    case ByteFail => WordFail
    case ByteOk(h, p) =>
      match ReadByte(line, p, lo)
      case ByteFail => WordFail
      case ByteOk(l, q) => WordOk(h * 256 + l, q)
  }

  /** The word is big-endian: the byte at `pos` is its high byte, the one after its low byte. */
  lemma WordIsBigEndian(line: seq<char>, pos: nat, hi: u8, lo: u8)
    requires pos + 3 < |line|
    ensures ReadWord(line, pos, hi, lo).value / 256 == ReadByte(line, pos, hi).value
    ensures ReadWord(line, pos, hi, lo).value % 256 == ReadByte(line, pos + 2, lo).value
  {
  }

  /** A word written as four hex digits reads back. */
  lemma ReadEncodedWord(line: seq<char>, pos: nat, w: int, hi: u8, lo: u8)
    requires 0 <= w < 0x10000
    requires pos + 3 < |line| && line[pos..pos + 4] == EncodeWord(w)
    ensures ReadWord(line, pos, hi, lo) == WordOk(w, pos + 4)
  {
    assert line[pos..pos + 2] == EncodeWord(w)[..2];
    assert line[pos + 2..pos + 4] == EncodeWord(w)[2..];
    ReadEncodedByte(line, pos, w / 256, hi);
    ReadEncodedByte(line, pos + 2, w % 256, lo);
  }

  /** The digits a tape writer puts down for a byte and for a word. */
  function EncodeByte(v: u8): (s: seq<char>)
    ensures |s| == 2
  {
    [UpperDigit(v / 16), UpperDigit(v % 16)]
  }

  function EncodeWord(w: int): (s: seq<char>)
    requires 0 <= w < 0x10000
    ensures |s| == 4
  {
    EncodeByte(w / 256) + EncodeByte(w % 256)
  }

  function EncodeBytes(data: seq<u8>): (s: seq<char>)
    ensures |s| == 2 * |data|
  {
    if |data| == 0 then [] else EncodeByte(data[0]) + EncodeBytes(data[1..])
  }

  // ---------------------------------------------------------------------------------
  // The record check (paper_tape_receive)

  /**
   * What the record check's locals hold before a line: `count` and `data` (b1) keep their
   * values from the previous line; `hi` and `lo` stand for the never-initialised locals of
   * paper_tape_read_word.
   */
  datatype Stale = Stale(count: u8, data: u8, hi: u8, lo: u8)

  /** The data bytes of a record, read one after the other; `complete` is false when the line ran out. */
  datatype DataField = DataField(bytes: seq<u8>, pos: nat, complete: bool)

  function ReadData(line: seq<char>, pos: nat, n: nat, b: u8): (r: DataField)
    ensures |r.bytes| <= n
    ensures r.complete ==> |r.bytes| == n
    decreases n
  {
    if n == 0 then DataField([], pos, true)
    else match ReadByte(line, pos, b)
      case ByteFail => DataField([], pos, false)
      case ByteOk(v, p) =>
        var rest := ReadData(line, p, n - 1, v);
        DataField([v] + rest.bytes, rest.pos, rest.complete)
  }

  /** Data bytes written as hex digits read back, and the reading stops right after them. */
  lemma {:induction false} ReadEncodedData(line: seq<char>, pos: nat, data: seq<u8>, b: u8)
    requires pos + 2 * |data| <= |line| && line[pos..pos + 2 * |data|] == EncodeBytes(data)
    ensures ReadData(line, pos, |data|, b) == DataField(data, pos + 2 * |data|, true)
    decreases |data|
  {
    if |data| != 0 {
      assert line[pos..pos + 2] == EncodeBytes(data)[..2];
      ReadEncodedByte(line, pos, data[0], b);
      assert line[pos + 2..pos + 2 + 2 * |data[1..]|] == EncodeBytes(data)[2..];
      ReadEncodedData(line, pos + 2, data[1..], data[0]);
      assert [data[0]] + data[1..] == data;
    }
  }

  /** The plain sum of the data bytes: never more than 255 per byte. */
  function Sum(data: seq<u8>): (s: int)
    ensures 0 <= s <= 255 * |data|
  {
    if |data| == 0 then 0 else Sum(data[..|data| - 1]) + data[|data| - 1]
  }

  /** The checksum before the first data byte: the two address bytes and the count. */
  function ChecksumSeed(addr: int, count: u8): (seed: int)
    requires 0 <= addr < 0x10000
    ensures 0 <= seed < 0x10000
  {
    addr / 256 + addr % 256 + count
  }

  /** The checksum a record must carry. */
  function Checksum(addr: int, count: u8, data: seq<u8>): int
    requires 0 <= addr < 0x10000
  {
    (ChecksumSeed(addr, count) + Sum(data)) % 0x10000
  }

  function LastOr(data: seq<u8>, b: u8): u8
  {
    if |data| == 0 then b else data[|data| - 1]
  }

  /** The decision on one line. */
  datatype Outcome = Loader | Load7 | NextLine

  /**
   * One pass of the record check: the outcome, the address the data went to and the data
   * bytes written before the check ended, and what the locals hold for the next line.
   */
  datatype RecordResult = RecordResult(outcome: Outcome, start: Address, data: seq<u8>, after: Stale)

  function RecordCheck(line: seq<char>, stale: Stale): (r: RecordResult)
    ensures |line| < 9 || line[0] != ';' ==> r.outcome == Loader && r.data == []
    ensures |r.data| < 0x100
  {
    if |line| < 9 || line[0] != ';' then RecordResult(Loader, 0, [], stale)
    else match ReadByte(line, 1, stale.count)
      case ByteFail => RecordResult(Loader, 0, [], stale)
      case ByteOk(count, p) =>
        match ReadWord(line, p, stale.hi, stale.lo)
        case WordFail => RecordResult(Loader, 0, [], stale.(count := count))
        case WordOk(addr, q) =>
          var d := ReadData(line, q, count, stale.data);
          var after := stale.(count := count, data := LastOr(d.bytes, stale.data));
          if !d.complete then RecordResult(Loader, addr, d.bytes, after)
          else match ReadWord(line, d.pos, stale.hi, stale.lo)
            case WordFail => RecordResult(Loader, addr, d.bytes, after)
            case WordOk(target, _) =>
              if target != Checksum(addr, count, d.bytes) then RecordResult(Loader, addr, d.bytes, after)
              else if count == 0 then RecordResult(Load7, addr, d.bytes, after)
              else RecordResult(NextLine, addr, d.bytes, after)
  }

  /** A record line as a tape writer produces it, with the checksum given. */
  function EncodeRecord(addr: int, data: seq<u8>, checksum: int): (line: seq<char>)
    requires 0 <= addr < 0x10000 && |data| < 0x100 && 0 <= checksum < 0x10000
    ensures |line| == 11 + 2 * |data|
  {
    [';'] + EncodeByte(|data|) + EncodeWord(addr) + EncodeBytes(data) + EncodeWord(checksum)
  }

  /**
   * The record check reads back what a tape writer wrote. All data bytes are written whatever
   * the checksum says; the line is accepted exactly when its checksum is the sum of the
   * address bytes, the count and the data modulo 0x10000; an accepted empty record ends the tape.
   */
  lemma RecordRoundTrip(addr: int, data: seq<u8>, checksum: int, stale: Stale)
    requires 0 <= addr < 0x10000 && |data| < 0x100 && 0 <= checksum < 0x10000
    ensures RecordCheck(EncodeRecord(addr, data, checksum), stale)
      == RecordResult(
           if checksum != Checksum(addr, |data|, data) then Loader
           else if |data| == 0 then Load7
           else NextLine,
           addr, data,
           stale.(count := |data|, data := LastOr(data, stale.data)))
  {
    var line := EncodeRecord(addr, data, checksum);
    var n := |data|;
    EncodedRecordFields(addr, data, checksum);
    ReadEncodedByte(line, 1, n, stale.count);
    ReadEncodedWord(line, 3, addr, stale.hi, stale.lo);
    ReadEncodedData(line, 7, data, stale.data);
    ReadEncodedWord(line, 7 + 2 * n, checksum, stale.hi, stale.lo);
    RecordOfFields(line, stale, n, addr, data, checksum);
  }

  /** Where the fields of an encoded record lie. */
  lemma EncodedRecordFields(addr: int, data: seq<u8>, checksum: int)
    requires 0 <= addr < 0x10000 && |data| < 0x100 && 0 <= checksum < 0x10000
    ensures var line, n := EncodeRecord(addr, data, checksum), |data|;
      line[0] == ';' && line[1..3] == EncodeByte(n) && line[3..7] == EncodeWord(addr)
      && line[7..7 + 2 * n] == EncodeBytes(data) && line[7 + 2 * n..11 + 2 * n] == EncodeWord(checksum)
  {
    EncodedCount(addr, data, checksum);
    EncodedAddress(addr, data, checksum);
    EncodedData(addr, data, checksum);
    EncodedChecksum(addr, data, checksum);
  }

  lemma EncodedCount(addr: int, data: seq<u8>, checksum: int)
    requires 0 <= addr < 0x10000 && |data| < 0x100 && 0 <= checksum < 0x10000
    ensures EncodeRecord(addr, data, checksum)[1..3] == EncodeByte(|data|)
  {
    var a, b, c, d := EncodeByte(|data|), EncodeWord(addr), EncodeBytes(data), EncodeWord(checksum);
    Middle([';'], a, b + c + d);
    assert EncodeRecord(addr, data, checksum) == [';'] + a + (b + c + d);
  }

  lemma EncodedAddress(addr: int, data: seq<u8>, checksum: int)
    requires 0 <= addr < 0x10000 && |data| < 0x100 && 0 <= checksum < 0x10000
    ensures EncodeRecord(addr, data, checksum)[3..7] == EncodeWord(addr)
  {
    var a, b, c, d := EncodeByte(|data|), EncodeWord(addr), EncodeBytes(data), EncodeWord(checksum);
    Middle([';'] + a, b, c + d);
    assert EncodeRecord(addr, data, checksum) == [';'] + a + b + (c + d);
  }

  lemma EncodedData(addr: int, data: seq<u8>, checksum: int)
    requires 0 <= addr < 0x10000 && |data| < 0x100 && 0 <= checksum < 0x10000
    ensures EncodeRecord(addr, data, checksum)[7..7 + 2 * |data|] == EncodeBytes(data)
  {
    var a, b, c, d := EncodeByte(|data|), EncodeWord(addr), EncodeBytes(data), EncodeWord(checksum);
    Middle([';'] + a + b, c, d);
  }

  lemma EncodedChecksum(addr: int, data: seq<u8>, checksum: int)
    requires 0 <= addr < 0x10000 && |data| < 0x100 && 0 <= checksum < 0x10000
    ensures EncodeRecord(addr, data, checksum)[7 + 2 * |data|..11 + 2 * |data|] == EncodeWord(checksum)
  {
    var a, b, c, d := EncodeByte(|data|), EncodeWord(addr), EncodeBytes(data), EncodeWord(checksum);
    Middle([';'] + a + b + c, d, []);
    assert EncodeRecord(addr, data, checksum) == [';'] + a + b + c + d + [];
  }

  /** The middle part of a concatenation. */
  lemma Middle(x: seq<char>, y: seq<char>, z: seq<char>)
    ensures (x + y + z)[|x|..|x| + |y|] == y
  {
  }

  /** The record check once its four fields have been read. */
  lemma RecordOfFields(line: seq<char>, stale: Stale, count: u8, addr: int, data: seq<u8>, target: int)
    requires |line| >= 9 && line[0] == ';' && 0 <= addr < 0x10000 && |data| == count
    requires ReadByte(line, 1, stale.count) == ByteOk(count, 3)
    requires ReadWord(line, 3, stale.hi, stale.lo) == WordOk(addr, 7)
    requires ReadData(line, 7, count, stale.data) == DataField(data, 7 + 2 * count, true)
    requires ReadWord(line, 7 + 2 * count, stale.hi, stale.lo).WordOk?
    requires ReadWord(line, 7 + 2 * count, stale.hi, stale.lo).value == target
    ensures RecordCheck(line, stale)
      == RecordResult(
           if target != Checksum(addr, count, data) then Loader
           else if count == 0 then Load7
           else NextLine,
           addr, data,
           stale.(count := count, data := LastOr(data, stale.data)))
  {
  }

  /**
   * A line the record check accepts, stated field by field: it starts with ';' and holds at
   * least 9 characters (so the count and the address are always read), all `count` data bytes
   * and a checksum word are present, and the checksum is the record's checksum.
   */
  predicate Accepted(line: seq<char>, stale: Stale)
  {
    |line| >= 9 && line[0] == ';'
    && var count := ReadByte(line, 1, stale.count).value;
       var addr := ReadWord(line, 3, stale.hi, stale.lo).value;
       var d := ReadData(line, 7, count, stale.data);
       var t := ReadWord(line, d.pos, stale.hi, stale.lo);
       d.complete && t.WordOk? && t.value == Checksum(addr, count, d.bytes)
  }

  /** The record check goes to LOADER exactly on the lines it does not accept, whatever the line holds. */
  lemma RecordDecision(line: seq<char>, stale: Stale)
    ensures RecordCheck(line, stale).outcome != Loader <==> Accepted(line, stale)
  {
  }

  /**
   * On a line of at least 9 characters starting with ';', the count and the address are read,
   * the data bytes read are the ones written from the address, and a data field cut short, a
   * missing checksum or a checksum that is not the record's sends the loader to LOADER.
   */
  lemma RecordRejects(line: seq<char>, stale: Stale)
    requires |line| >= 9 && line[0] == ';'
    ensures ReadByte(line, 1, stale.count).ByteOk? && ReadWord(line, 3, stale.hi, stale.lo).WordOk?
    ensures var count := ReadByte(line, 1, stale.count).value;
      var addr := ReadWord(line, 3, stale.hi, stale.lo).value;
      var d := ReadData(line, 7, count, stale.data);
      var t := ReadWord(line, d.pos, stale.hi, stale.lo);
      var r := RecordCheck(line, stale);
      r.start == addr && r.data == d.bytes
      && (!d.complete ==> r.outcome == Loader)
      && (d.complete && !t.WordOk? ==> r.outcome == Loader)
      && (d.complete && t.WordOk? && t.value != Checksum(addr, count, d.bytes) ==> r.outcome == Loader)
  {
  }

  /** An accepted record ends the tape (LOAD7) exactly when it holds no data, and goes on to the next line otherwise. */
  lemma Load7OnlyForEmptyRecord(line: seq<char>, stale: Stale)
    ensures RecordCheck(line, stale).outcome == Load7 <==> Accepted(line, stale) && RecordCheck(line, stale).data == []
    ensures RecordCheck(line, stale).outcome == NextLine <==> Accepted(line, stale) && RecordCheck(line, stale).data != []
  {
  }

  /** The writes of a record: data byte k goes to `start + k`, the address wrapping at 0x10000. */
  function Writes(start: Address, data: seq<u8>): (w: seq<(Address, u8)>)
    ensures |w| == |data|
    ensures forall k :: 0 <= k < |data| ==> w[k] == ((start + k) % 0x10000, data[k])
  {
    seq(|data|, k requires 0 <= k < |data| => ((start + k) % 0x10000, data[k]))
  }

  /** The bus after a list of writes, the last one applied last. */
  function WriteAll(m: Kim1.BusState, writes: seq<(Address, u8)>): Kim1.BusState
  {
    if |writes| == 0 then m
    else
      var w := writes[|writes| - 1];
      Kim1.BusWrite(WriteAll(m, writes[..|writes| - 1]), w.0, w.1)
  }

  /** The end of the loader: it returns with the 6502 sent to `pc`, or without a new pc once the input ends. */
  datatype Ending = Returned(pc: word) | Stopped

  /** Bytes read first, ahead of what a later read returns. */
  function Prepend(data: seq<u8>, r: DataField): DataField
  {
    DataField(data + r.bytes, r.pos, r.complete)
  }

  /** One more byte read: it moves from what is left to read onto the bytes already read. */
  lemma {:induction false} ReadDataStep(line: seq<char>, whole: DataField, data: seq<u8>, pos: nat, n: nat, b: u8)
    requires whole == Prepend(data, ReadData(line, pos, n, b))
    requires n > 0 && ReadByte(line, pos, b).ByteOk?
    ensures var f := ReadByte(line, pos, b);
      whole == Prepend(data + [f.value], ReadData(line, f.pos, n - 1, f.value))
  {
    var f := ReadByte(line, pos, b);
    var r := ReadData(line, f.pos, n - 1, f.value);
    assert ReadData(line, pos, n, b) == DataField([f.value] + r.bytes, r.pos, r.complete);
    assert data + ([f.value] + r.bytes) == data + [f.value] + r.bytes;
  }

  /** A byte the line does not hold ends the reading, incomplete, with the bytes already read. */
  lemma ReadDataFails(line: seq<char>, whole: DataField, data: seq<u8>, pos: nat, n: nat, b: u8)
    requires whole == Prepend(data, ReadData(line, pos, n, b))
    requires n > 0 && ReadByte(line, pos, b).ByteFail?
    ensures whole == DataField(data, pos, false)
  {
    assert data + [] == data;
  }

  /** Nothing left to read: the reading is complete. */
  lemma ReadDataDone(line: seq<char>, whole: DataField, data: seq<u8>, pos: nat, b: u8)
    requires whole == Prepend(data, ReadData(line, pos, 0, b))
    ensures whole == DataField(data, pos, true)
  {
    assert data + [] == data;
  }

  /** One more data byte is one more write, at the address after the previous one. */
  lemma WritesStep(start: Address, data: seq<u8>, at: Address, v: u8)
    requires at == (start + |data|) % 0x10000
    ensures Writes(start, data) + [(at, v)] == Writes(start, data + [v])
  {
  }

  /** One more write is one more bus write, applied last. */
  lemma WriteAllAppend(m: Kim1.BusState, writes: seq<(Address, u8)>, at: Address, v: u8)
    ensures WriteAll(m, writes + [(at, v)]) == Kim1.BusWrite(WriteAll(m, writes), at, v)
  {
    assert (writes + [(at, v)])[..|writes|] == writes;
  }

  /** The address after a wrapped address is the next address, wrapped. */
  lemma NextAddress(start: Address, n: nat, at: Address)
    requires at == (start + n) % 0x10000
    ensures (at as int + 1) % 0x10000 == (start + n + 1) % 0x10000
  {
  }

  /** A checksum kept modulo 0x10000 one byte at a time is the checksum of the whole. */
  lemma ChecksumStep(addr: Address, count: u8, data: seq<u8>, v: u8)
    ensures (Checksum(addr, count, data) + v) % 0x10000 == Checksum(addr, count, data + [v])
  {
    assert (data + [v])[..|data|] == data;
  }

  /** Before the first data byte the checksum is its seed, and no write has been made. */
  lemma DataLoopStart(addr: Address, count: u8)
    ensures Checksum(addr, count, []) == ChecksumSeed(addr, count)
    ensures addr == (addr + 0) % 0x10000 && Writes(addr, []) == []
  {
  }

  /** Where the data loop ends: what it read, its running checksum and the writes it made. */
  datatype DataRun = DataRun(field: DataField, checksum: int, writes: seq<(Address, u8)>)

  /**
   * The rest of the data loop from a given point: `n` bytes still to read at `pos`, the bytes
   * `data` read so far, the running checksum, the next address to write and the writes so far.
   */
  function DataLoop(line: seq<char>, pos: nat, n: nat, b: u8, data: seq<u8>, checksum: int, at: Address, writes: seq<(Address, u8)>): DataRun
    decreases n
  {
    if n == 0 then DataRun(DataField(data, pos, true), checksum, writes)
    else
      match ReadByte(line, pos, b)
      case ByteFail => DataRun(DataField(data, pos, false), checksum, writes)
      case ByteOk(v, next) =>
        DataLoop(line, next, n - 1, v, data + [v], (checksum + v) % 0x10000, (at as int + 1) % 0x10000, writes + [(at, v)])
  }

  /** The data loop reads what ReadData reads, after the bytes it has already read. */
  lemma {:induction false} DataLoopReads(line: seq<char>, pos: nat, n: nat, b: u8, data: seq<u8>, checksum: int, at: Address,
                                         writes: seq<(Address, u8)>)
    ensures DataLoop(line, pos, n, b, data, checksum, at, writes).field == Prepend(data, ReadData(line, pos, n, b))
    decreases n
  {
    if n == 0 {
      assert data + [] == data;
    } else {
      match ReadByte(line, pos, b)
      case ByteFail =>
        assert data + [] == data;
      case ByteOk(v, next) =>
        var rest := ReadData(line, next, n - 1, v);
        DataLoopReads(line, next, n - 1, v, data + [v], (checksum + v) % 0x10000, (at as int + 1) % 0x10000, writes + [(at, v)]);
        assert data + [v] + rest.bytes == data + ([v] + rest.bytes);
    }
  }

  /** The data loop ends with the record's checksum over all it read, kept modulo 0x10000. */
  lemma {:induction false} DataLoopSums(line: seq<char>, pos: nat, n: nat, b: u8, data: seq<u8>, checksum: int, at: Address,
                                        writes: seq<(Address, u8)>, addr: Address, count: u8)
    requires checksum == Checksum(addr, count, data)
    ensures var r := DataLoop(line, pos, n, b, data, checksum, at, writes);
      r.checksum == Checksum(addr, count, r.field.bytes)
    decreases n
  {
    if n != 0 {
      match ReadByte(line, pos, b)
      case ByteFail =>
      case ByteOk(v, next) =>
        ChecksumStep(addr, count, data, v);
        DataLoopSums(line, next, n - 1, v, data + [v], (checksum + v) % 0x10000, (at as int + 1) % 0x10000, writes + [(at, v)], addr, count);
    }
  }

  /** The data loop writes every byte it read, one after the other from `addr` on. */
  lemma {:induction false} DataLoopWrites(line: seq<char>, pos: nat, n: nat, b: u8, data: seq<u8>, checksum: int, at: Address,
                                          writes: seq<(Address, u8)>, addr: Address)
    requires at == (addr + |data|) % 0x10000 && writes == Writes(addr, data)
    ensures var r := DataLoop(line, pos, n, b, data, checksum, at, writes);
      r.writes == Writes(addr, r.field.bytes)
    decreases n
  {
    if n != 0 {
      match ReadByte(line, pos, b)
      case ByteFail =>
      case ByteOk(v, next) =>
        WritesStep(addr, data, at, v);
        NextAddress(addr, |data|, at);
        DataLoopWrites(line, next, n - 1, v, data + [v], (checksum + v) % 0x10000, (at as int + 1) % 0x10000, writes + [(at, v)], addr);
    }
  }

  /**
   * From the start of a record's data, the loop reads exactly what ReadData reads, ends with
   * the record's checksum over what it read, and has written those bytes from `addr` on.
   */
  lemma DataLoopFromStart(line: seq<char>, first: nat, count: u8, b0: u8, addr: Address)
    ensures var r := DataLoop(line, first, count, b0, [], ChecksumSeed(addr, count), addr, []);
      r.field == ReadData(line, first, count, b0)
      && r.checksum == Checksum(addr, count, r.field.bytes)
      && r.writes == Writes(addr, r.field.bytes)
  {
    var init := ChecksumSeed(addr, count);
    var whole := ReadData(line, first, count, b0);
    DataLoopStart(addr, count);
    DataLoopReads(line, first, count, b0, [], init, addr, []);
    assert [] + whole.bytes == whole.bytes;
    DataLoopSums(line, first, count, b0, [], init, addr, [], addr, count);
    DataLoopWrites(line, first, count, b0, [], init, addr, [], addr);
  }

  /** write6502 of one data byte, one more entry on the list of writes the bus has seen. */
  method Deposit(bus: Kim1.Bus, ghost m: Kim1.BusState, ghost writes: seq<(Address, u8)>, at: Address, v: u8)
    requires bus.Valid() && bus.Snapshot() == WriteAll(m, writes)
    modifies bus.ram, bus.riot002Ram, bus.riot003Ram, bus.riot003, bus.riot003.timer
    ensures bus.Valid() && bus.Snapshot() == WriteAll(m, writes + [(at, v)])
  {
    WriteAllAppend(m, writes, at, v);
    bus.Write(at, v);
  }

  /** Where the loader leaves the 6502 and what it left on the bus. */
  datatype Loaded = Loaded(ending: Ending, bus: Kim1.BusState)

  /**
   * paper_tape_receive as a function of the characters the port delivers: a line at a time,
   * each record's data bytes written to the bus, until a record ends the load or the input ends.
   */
  function Receiving(received: seq<char>, stale: Stale, m: Kim1.BusState): (r: Loaded)
    decreases |received|
  {
    var scan := Scan(received, 0, 0);
    if scan.end == Interrupted then Loaded(Stopped, m)
    else
      var record := RecordCheck(Kept(received[..scan.consumed]), stale);
      var written := WriteAll(m, Writes(record.start, record.data));
      match record.outcome
      case Loader => Loaded(Returned(LOADER), written)
      case Load7 => Loaded(Returned(LOAD7), written)
      case NextLine => Receiving(received[scan.consumed..], record.after, written)
  }

  /** The loader never sends the 6502 anywhere but LOADER or LOAD7. */
  lemma {:induction false} ReceivingReturnsToRom(received: seq<char>, stale: Stale, m: Kim1.BusState)
    ensures Receiving(received, stale, m).ending.Returned? ==> Receiving(received, stale, m).ending.pc in {LOADER, LOAD7}
    decreases |received|
  {
    var scan := Scan(received, 0, 0);
    if scan.end != Interrupted {
      var record := RecordCheck(Kept(received[..scan.consumed]), stale);
      if record.outcome == NextLine {
        ReceivingReturnsToRom(received[scan.consumed..], record.after, WriteAll(m, Writes(record.start, record.data)));
      }
    }
  }

  lemma TapeCharsConcat(s: seq<char>, t: seq<char>)
    requires AllTapeChars(s) && AllTapeChars(t)
    ensures AllTapeChars(s + t)
  {
    assert forall i :: 0 <= i < |s + t| ==> (s + t)[i] == if i < |s| then s[i] else t[i - |s|];
  }

  /** A tape writer's digits are all characters the line filter keeps. */
  lemma EncodedByteIsTapeChars(v: u8)
    ensures AllTapeChars(EncodeByte(v))
  {
    DigitsReadBack(v / 16);
    DigitsReadBack(v % 16);
  }

  lemma EncodedWordIsTapeChars(w: int)
    requires 0 <= w < 0x10000
    ensures AllTapeChars(EncodeWord(w))
  {
    EncodedByteIsTapeChars(w / 256);
    EncodedByteIsTapeChars(w % 256);
    TapeCharsConcat(EncodeByte(w / 256), EncodeByte(w % 256));
  }

  lemma {:induction false} EncodedBytesAreTapeChars(data: seq<u8>)
    ensures AllTapeChars(EncodeBytes(data))
    decreases |data|
  {
    if |data| != 0 {
      EncodedByteIsTapeChars(data[0]);
      EncodedBytesAreTapeChars(data[1..]);
      TapeCharsConcat(EncodeByte(data[0]), EncodeBytes(data[1..]));
    }
  }

  lemma EncodedRecordIsTapeLine(addr: int, data: seq<u8>, checksum: int)
    requires 0 <= addr < 0x10000 && |data| < 0x100 && 0 <= checksum < 0x10000
    ensures AllTapeChars(EncodeRecord(addr, data, checksum))
  {
    var a, b, c, d := EncodeByte(|data|), EncodeWord(addr), EncodeBytes(data), EncodeWord(checksum);
    EncodedByteIsTapeChars(|data|);
    EncodedWordIsTapeChars(addr);
    EncodedBytesAreTapeChars(data);
    EncodedWordIsTapeChars(checksum);
    assert AllTapeChars([';']);
    TapeCharsConcat([';'], a);
    TapeCharsConcat([';'] + a, b);
    TapeCharsConcat([';'] + a + b, c);
    TapeCharsConcat([';'] + a + b + c, d);
  }

  /**
   * A record line as a tape writer produces it, followed by a newline: its data is written
   * from its address on; a wrong checksum sends the 6502 to LOADER, a right one on an empty
   * record to LOAD7, and a right one on a non-empty record lets the loader go on with the
   * rest of the tape.
   */
  lemma ReceiveEncodedRecord(addr: int, data: seq<u8>, checksum: int, rest: seq<char>, stale: Stale, m: Kim1.BusState)
    requires 0 <= addr < 0x10000 && |data| < 0x100 && 0 <= checksum < 0x10000
    ensures var written := WriteAll(m, Writes(addr, data));
      Receiving(EncodeRecord(addr, data, checksum) + ['\n'] + rest, stale, m)
      == if checksum != Checksum(addr, |data|, data) then Loaded(Returned(LOADER), written)
         else if |data| == 0 then Loaded(Returned(LOAD7), written)
         else Receiving(rest, stale.(count := |data|, data := LastOr(data, stale.data)), written)
  {
    var line := EncodeRecord(addr, data, checksum);
    var received := line + ['\n'] + rest;
    EncodedRecordIsTapeLine(addr, data, checksum);
    ScanTapeLine(line, rest, 0);
    assert received[|line| + 1..] == rest;
    RecordRoundTrip(addr, data, checksum, stale);
  }

  /** The line buffer and its fill level. */
  class Tape {
    /** paper_tape_line */
    const line: array<char>
    /** paper_tape_line_len */
    var len: int

    ghost predicate Valid()
      reads this
    {
      line.Length == LineCapacity && 0 <= len <= LineCapacity
    }

    /** The characters the buffer holds. */
    function Contents(): seq<char>
      reads this, line
      requires Valid()
    {
      line[..len]
    }

    constructor ()
      ensures Valid() && Contents() == [] && fresh(line)
    {
      line := new char[LineCapacity](_ => ' ');
      len := 0;
    }

    /**
     * read_paper_tape_line over the characters `received` delivers: the buffer ends up with
     * the kept characters of the part of `received` the line took.
     */
    method ReadLine(received: seq<char>) returns (end: LineEnd, consumed: nat)
      requires Valid()
      modifies this, line
      ensures Valid()
      ensures LineScan(end, consumed) == Scan(received, 0, 0)
      ensures Contents() == Kept(received[..consumed])
    {
      len := 0;
      consumed := 0;
      while consumed < |received|
        invariant Valid() && consumed <= |received| && len < LineCapacity
        invariant Contents() == Kept(received[..consumed])
        invariant Scan(received, consumed, len) == Scan(received, 0, 0)
      {
        var ch := received[consumed];
        assert received[..consumed + 1] == received[..consumed] + [ch];
        KeptAppend(received[..consumed], [ch]);
        consumed := consumed + 1;
        if ch == '\n' {
          return Newline, consumed;
        } else if ch == '\r' {
          continue;
        } else if !IsTapeChar(ch) {
          continue;
        }
        line[len] := ch;
        len := len + 1;
        if len == LineCapacity {
          return Full, consumed;
        }
      }
      return Interrupted, consumed;
    }

    /** paper_tape_read_byte; `value` is what the byte holds after a successful read. */
    method ReadByteAt(pos: nat, b: u8) returns (failed: bool, next: nat, value: u8)
      requires Valid()
      ensures failed <==> ReadByte(Contents(), pos, b).ByteFail?
      ensures !failed ==> ReadByte(Contents(), pos, b) == ByteOk(value, next)
    {
      next, value := pos, b;
      if next >= len {
        return true, next, value;
      }
      var ch := line[next];
      next := next + 1;
      if IsHexDigit(ch) {
        value := DigitValue(ch) * 16;
      }
      if next >= len {
        return true, next, value;
      }
      ch := line[next];
      next := next + 1;
      if IsHexDigit(ch) {
        value := (value + DigitValue(ch)) % 0x100;
      }
      return false, next, value;
    }

    /** paper_tape_read_word */
    method ReadWordAt(pos: nat, hi: u8, lo: u8) returns (failed: bool, next: nat, value: int)
      requires Valid()
      ensures failed <==> ReadWord(Contents(), pos, hi, lo).WordFail?
      ensures !failed ==> ReadWord(Contents(), pos, hi, lo) == WordOk(value, next)
    {
      var b1: u8, b2: u8;
      value := 0;
      failed, next, b1 := ReadByteAt(pos, hi);
      if failed {
        return;
      }
      failed, next, b2 := ReadByteAt(next, lo);
      if failed {
        return;
      }
      value := b1 as int * 256 + b2 as int;
    }

    /**
     * The body of paper_tape_receive's loop for the line in the buffer: the header fields,
     * the data bytes with their bus writes, and the checksum comparison.
     */
    method CheckRecord(bus: Kim1.Bus, stale: Stale) returns (result: RecordResult)
      requires Valid() && bus.Valid()
      modifies bus.ram, bus.riot002Ram, bus.riot003Ram, bus.riot003, bus.riot003.timer
      ensures bus.Valid()
      ensures result == RecordCheck(Contents(), stale)
      ensures bus.Snapshot() == WriteAll(old(bus.Snapshot()), Writes(result.start, result.data))
    {
      if len < 9 || line[0] != ';' {
        return RecordResult(Loader, 0, [], stale);
      }
      var failed, pos, count, addr, target;
      failed, pos, count := ReadByteAt(1, stale.count);
      if failed {
        return RecordResult(Loader, 0, [], stale);
      }
      failed, pos, addr := ReadWordAt(pos, stale.hi, stale.lo);
      if failed {
        return RecordResult(Loader, 0, [], stale.(count := count));
      }
      var d, checksum := WriteData(bus, pos, count, addr, stale.data);
      DataLoopFromStart(Contents(), pos, count, stale.data, addr);
      var after := stale.(count := count, data := LastOr(d.bytes, stale.data));
      if !d.complete {
        return RecordResult(Loader, addr, d.bytes, after);
      }
      failed, pos, target := ReadWordAt(d.pos, stale.hi, stale.lo);
      if failed {
        return RecordResult(Loader, addr, d.bytes, after);
      }
      if target != checksum {
        return RecordResult(Loader, addr, d.bytes, after);
      }
      if count == 0 {
        return RecordResult(Load7, addr, d.bytes, after);
      }
      return RecordResult(NextLine, addr, d.bytes, after);
    }

    /**
     * The data loop of paper_tape_receive: `count` bytes from `first`, each added to the
     * checksum modulo 0x10000 and written to the bus at the next address, wrapping at
     * 0x10000; it stops at the first byte the line does not hold.
     */
    method WriteData(bus: Kim1.Bus, first: nat, count: u8, addr: Address, b0: u8) returns (d: DataField, checksum: int)
      requires Valid() && bus.Valid()
      modifies bus.ram, bus.riot002Ram, bus.riot003Ram, bus.riot003, bus.riot003.timer
      ensures bus.Valid()
      ensures var r := DataLoop(Contents(), first, count, b0, [], ChecksumSeed(addr, count), addr, []);
        d == r.field && checksum == r.checksum && bus.Snapshot() == WriteAll(old(bus.Snapshot()), r.writes)
    {
      ghost var s := Contents();
      ghost var m := bus.Snapshot();
      var init := ChecksumSeed(addr, count);
      checksum := init;
      var pos := first;
      var b1 := b0;
      var at: Address := addr;
      var data := [];
      ghost var writes := [];
      var i := 0;
      while i < count
        invariant Valid() && bus.Valid() && Contents() == s
        invariant 0 <= i <= count
        invariant DataLoop(s, pos, count - i, b1, data, checksum, at, writes) == DataLoop(s, first, count, b0, [], init, addr, [])
        invariant bus.Snapshot() == WriteAll(m, writes)
      {
        var before := pos;
        ghost var b := b1;
        var failed;
        failed, pos, b1 := ReadByteAt(pos, b1);
        if failed {
          d := DataField(data, before, false);
          break;
        }
        assert DataLoop(s, before, count - i, b, data, checksum, at, writes)
            == DataLoop(s, pos, count - i - 1, b1, data + [b1], (checksum + b1) % 0x10000, (at as int + 1) % 0x10000, writes + [(at, b1)]);
        checksum := (checksum + b1) % 0x10000;
        Deposit(bus, m, writes, at, b1);
        writes := writes + [(at, b1)];
        at := (at as int + 1) % 0x10000;
        data := data + [b1];
        i := i + 1;
      }
      if i == count {
        d := DataField(data, pos, true);
      }
    }

    /**
     * paper_tape_receive over the characters `received` delivers: a line at a time until a
     * record sends the 6502 to LOADER or LOAD7, or the input ends.
     */
    method Receive(bus: Kim1.Bus, received: seq<char>, stale: Stale) returns (ending: Ending)
      requires Valid() && bus.Valid()
      modifies this, line, bus.ram, bus.riot002Ram, bus.riot003Ram, bus.riot003, bus.riot003.timer
      ensures Valid() && bus.Valid()
      ensures Loaded(ending, bus.Snapshot()) == Receiving(received, stale, old(bus.Snapshot()))
    {
      ghost var m := bus.Snapshot();
      var rest := received;
      var current := stale;
      while true
        invariant Valid() && bus.Valid()
        invariant Receiving(rest, current, bus.Snapshot()) == Receiving(received, stale, m)
        decreases |rest|
      {
        ghost var snap := bus.Snapshot();
        var end, consumed := ReadLine(rest);
        if end == Interrupted {
          return Stopped;
        }
        var result := CheckRecord(bus, current);
        if result.outcome == Loader {
          return Returned(LOADER);
        } else if result.outcome == Load7 {
          return Returned(LOAD7);
        }
        current := result.after;
        rest := rest[consumed..];
      }
    }
  }
}
