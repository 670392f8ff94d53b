/**
 * The append-only flash log: 32 pages of 128 slots, each slot one 16-byte
 * record, written in order with a page-erase on entry and a wrap back to
 * page 0, recovered at boot by a forward scan and read back by a backward
 * query.
 */
module DataLogger {
  import opened Ints
  import opened Wrappers
  import Flash

  const FLASH_START_ADDR: u32 := 0x0807_0000
  const FLASH_END_ADDR: u32 := 0x0807_FFFF
  const FLASH_PAGE_SIZE := 2048
  const LOG_RECORD_SIZE := 16
  /** FLASH_PAGE_SIZE / LOG_RECORD_SIZE (see RegionGeometry). */
  const LOG_RECORDS_PER_PAGE := 128
  /** (FLASH_END_ADDR - FLASH_START_ADDR + 1) / LOG_RECORD_SIZE. */
  const MAX_LOG_RECORDS := 4096
  /** (FLASH_END_ADDR - FLASH_START_ADDR + 1) / FLASH_PAGE_SIZE, the page count the loops use. */
  const LOG_PAGES := 32
  const LOG_WORDS := 16384

  const LOG_TYPE_SENSOR: u8 := 0x01
  const LOG_TYPE_OPERATION: u8 := 0x02
  const LOG_TYPE_ALARM: u8 := 0x03
  const LOG_TYPE_SYSTEM: u8 := 0x04

  const OP_FAN_ON: u8 := 0x01
  const OP_FAN_OFF: u8 := 0x02
  const OP_PUMP_ON: u8 := 0x03
  const OP_PUMP_OFF: u8 := 0x04
  const OP_LIGHT_ON: u8 := 0x05
  const OP_LIGHT_OFF: u8 := 0x06
  const OP_MODE_AUTO: u8 := 0x07
  const OP_MODE_MANUAL: u8 := 0x08

  /**
   * LogRecord_t as the four 32-bit words that ReadRecord copies out of flash
   * and WriteRecord programs, `((u32*)raw_data)[0..3]`; the bytes of the
   * union are these words in little-endian order.
   */
  datatype Raw = Raw(w0: u32, w1: u32, w2: u32, w3: u32)
  {
    /** The words in flash order. */
    function Words(): seq<u32>
    {
      [w0, w1, w2, w3]
    }
  }

  /** raw_data[k]: byte k of the record. */
  function RawByte(r: Raw, k: nat): u8
    requires k < 16
  {
    var w := if k < 4 then r.w0 else if k < 8 then r.w1 else if k < 12 then r.w2 else r.w3;
    if k % 4 == 0 then w % 0x100
    else if k % 4 == 1 then (w / 0x100) % 0x100
    else if k % 4 == 2 then (w / 0x1_0000) % 0x100
    else w / 0x100_0000
  }

  /** The record whose raw_data bytes are bs. */
  function FromBytes(bs: seq<u8>): Raw
    requires |bs| == 16
  {
    Raw(Word(bs[0..4]), Word(bs[4..8]), Word(bs[8..12]), Word(bs[12..16]))
  }

  /** Byte k of a record is byte k % 4 of its word k / 4. */
  lemma RawByteOfWord(r: Raw, k: nat, w: u32)
    requires k < 16 && w == (if k < 4 then r.w0 else if k < 8 then r.w1 else if k < 12 then r.w2 else r.w3)
    ensures RawByte(r, k) == Bytes4(w)[k % 4]
  {
  }

  /** Writing the sixteen bytes of the union and reading them back gives the same bytes. */
  lemma FromBytesBytes(bs: seq<u8>)
    requires |bs| == 16
    ensures forall k :: 0 <= k < 16 ==> RawByte(FromBytes(bs), k) == bs[k]
  {
    var r := FromBytes(bs);
    forall k | 0 <= k < 16
      ensures RawByte(r, k) == bs[k]
    {
      var j := k / 4;
      var chunk := bs[4 * j .. 4 * j + 4];
      BytesOfWord(chunk);
      RawByteOfWord(r, k, Word(chunk));
    }
  }

  /** The u32 timestamp every layout keeps in bytes 0-3, i.e. word 0. */
  function Timestamp(r: Raw): u32 { r.w0 }

  /** The log_type byte every layout keeps at offset 4. */
  function LogType(r: Raw): u8 { RawByte(r, 4) }

  /** The record as DataLogger_WriteSensorData fills it (reserved bytes zeroed). */
  function SensorRecord(ts: u32, temp: u8, humi: u8, light: u8, fan: u8, pump: u8,
                        lightDev: u8, mode: u8, alarms: u8): Raw
  {
    FromBytes(Bytes4(ts) + [LOG_TYPE_SENSOR, temp, humi, light, fan, pump, lightDev, mode, alarms, 0, 0, 0])
  }

  /** The record as DataLogger_WriteOperation fills it. */
  function OperationRecord(ts: u32, op: u8, oldVal: u8, newVal: u8, trigger: u8): Raw
  {
    FromBytes(Bytes4(ts) + [LOG_TYPE_OPERATION, op, oldVal, newVal, trigger, 0, 0, 0, 0, 0, 0, 0])
  }

  /** The record as DataLogger_WriteAlarm fills it (duration left 0). */
  function AlarmRecord(ts: u32, alarmType: u8, level: u8, triggerVal: u8, threshold: u8): Raw
  {
    FromBytes(Bytes4(ts) + [LOG_TYPE_ALARM, alarmType, level, triggerVal, threshold, 0, 0, 0, 0, 0, 0, 0])
  }

  /** Sensor view: temperature, humidity and light at bytes 5, 6, 7. */
  function SensorTemperature(r: Raw): u8 { RawByte(r, 5) }
  function SensorHumidity(r: Raw): u8 { RawByte(r, 6) }
  function SensorLight(r: Raw): u8 { RawByte(r, 7) }

  /** Words 0 and 1 of a record built from bytes: the timestamp word and the bytes 4-7 of the union. */
  lemma {:induction false} HeadWords(bs: seq<u8>)
    requires |bs| == 16
    ensures Timestamp(FromBytes(bs)) == Word(bs[0..4])
    ensures forall k :: 4 <= k < 8 ==> RawByte(FromBytes(bs), k) == bs[k]
  {
    var r := FromBytes(bs);
    BytesOfWord(bs[4..8]);
    assert Bytes4(r.w1) == bs[4..8];
  }

  /** The sensor layout: timestamp, type at byte 4, then temperature, humidity and light. */
  lemma SensorLayout(ts: u32, a: u8, b: u8, c: u8, d: u8, e: u8, f: u8, g: u8, h: u8)
    ensures var r := SensorRecord(ts, a, b, c, d, e, f, g, h);
      && Timestamp(r) == ts && LogType(r) == LOG_TYPE_SENSOR
      && SensorTemperature(r) == a && SensorHumidity(r) == b && SensorLight(r) == c
  {
    var bs := Bytes4(ts) + [LOG_TYPE_SENSOR, a, b, c, d, e, f, g, h, 0, 0, 0];
    assert bs[0..4] == Bytes4(ts);
    WordOfBytes(ts);
    HeadWords(bs);
  }

  /** The operation layout: timestamp, then the type at byte 4. */
  lemma OperationLayout(ts: u32, a: u8, b: u8, c: u8, d: u8)
    ensures var r := OperationRecord(ts, a, b, c, d);
      Timestamp(r) == ts && LogType(r) == LOG_TYPE_OPERATION
  {
    var bs := Bytes4(ts) + [LOG_TYPE_OPERATION, a, b, c, d, 0, 0, 0, 0, 0, 0, 0];
    assert bs[0..4] == Bytes4(ts);
    WordOfBytes(ts);
    HeadWords(bs);
  }

  /** The alarm layout: timestamp, then the type at byte 4. */
  lemma AlarmLayout(ts: u32, a: u8, b: u8, c: u8, d: u8)
    ensures var r := AlarmRecord(ts, a, b, c, d);
      Timestamp(r) == ts && LogType(r) == LOG_TYPE_ALARM
  {
    var bs := Bytes4(ts) + [LOG_TYPE_ALARM, a, b, c, d, 0, 0, 0, 0, 0, 0, 0];
    assert bs[0..4] == Bytes4(ts);
    WordOfBytes(ts);
    HeadWords(bs);
  }

  /**
   * Byte 0 of a record, the byte the logger tests for 0xFF to decide whether a
   * slot is in use, is the low byte of the timestamp, not the log type.
   */
  lemma PresenceByteIsTimestampLowByte(r: Raw)
    ensures RawByte(r, 0) == Timestamp(r) % 0x100
    ensures Timestamp(r) % 0x100 == 0xFF ==> RawByte(r, 0) == 0xFF
  {
  }

  // ---------------------------------------------------------------------
  // Slots in the flash words

  /** The four words from word index w on. */
  function WordsAt(m: seq<u32>, w: nat): Raw
    requires w + 4 <= |m|
  {
    Raw(m[w], m[w + 1], m[w + 2], m[w + 3])
  }

  /** Contents of global slot g (page g / 128, offset g % 128). */
  function SlotRecord(m: seq<u32>, g: nat): Raw
    requires 4 * g + 4 <= |m|
  {
    WordsAt(m, 4 * g)
  }

  /** Address of (page, offset), computed as the C code does. */
  function SlotAddr(page: nat, offset: nat): int
  {
    FLASH_START_ADDR + page * FLASH_PAGE_SIZE + offset * LOG_RECORD_SIZE
  }

  /** The bound test of DataLogger_ReadRecord: a whole record must fit below FLASH_END_ADDR. */
  predicate AddrOk(addr: int)
  {
    FLASH_START_ADDR <= addr <= FLASH_END_ADDR - LOG_RECORD_SIZE
  }

  /** The bound test lets global slot g through. */
  predicate Readable(g: int)
  {
    0 <= g && AddrOk(FLASH_START_ADDR + g * LOG_RECORD_SIZE)
  }

  /** The address of (page, offset) is that of global slot page * 128 + offset; offsets past 127 run into later pages. */
  lemma SlotAddress(page: nat, offset: nat)
    ensures var g := page * LOG_RECORDS_PER_PAGE + offset;
      && SlotAddr(page, offset) == FLASH_START_ADDR + LOG_RECORD_SIZE * g
      && (SlotAddr(page, offset) - FLASH_START_ADDR) / 4 == 4 * g
      && (AddrOk(SlotAddr(page, offset)) <==> Readable(g))
  {
  }

  /** A slot counts as in use when its raw_data[0] (the low byte of word 4g) is not erased. */
  predicate Present(m: seq<u32>, g: nat)
    requires 4 * g + 4 <= |m|
  {
    RawByte(SlotRecord(m, g), 0) != 0xFF
  }

  /** The last slot, page 31 offset 127, fails the bound test although records are written there. */
  lemma LastSlotUnreadable()
    ensures SlotAddr(LOG_PAGES - 1, LOG_RECORDS_PER_PAGE - 1) == FLASH_START_ADDR + (MAX_LOG_RECORDS - 1) * LOG_RECORD_SIZE
    ensures !Readable(MAX_LOG_RECORDS - 1)
    ensures forall g :: 0 <= g < MAX_LOG_RECORDS - 1 ==> Readable(g)
  {
  }

  /** The region is 32 pages of 2048 bytes holding 4096 16-byte records. */
  lemma RegionGeometry()
    ensures LOG_RECORDS_PER_PAGE == FLASH_PAGE_SIZE / LOG_RECORD_SIZE
    ensures MAX_LOG_RECORDS == (FLASH_END_ADDR - FLASH_START_ADDR + 1) / LOG_RECORD_SIZE
    ensures LOG_PAGES == (FLASH_END_ADDR - FLASH_START_ADDR + 1) / FLASH_PAGE_SIZE
    ensures LOG_PAGES * LOG_RECORDS_PER_PAGE == MAX_LOG_RECORDS
    ensures LOG_WORDS == LOG_PAGES * Flash.WORDS_PER_PAGE && LOG_WORDS * 4 == FLASH_END_ADDR - FLASH_START_ADDR + 1
  {
  }

  // ---------------------------------------------------------------------
  // DataLoggerInfo_t

  datatype Info = Info(total: u32, sensor: u32, operation: u32, alarm: u32,
                       oldest: u32, newest: u32, page: u16, offset: u16)

  const ZERO_INFO := Info(0, 0, 0, 0, 0, 0, 0, 0)

  /** The global slot index of a cursor. */
  function CursorSlot(info: Info): nat { info.page * LOG_RECORDS_PER_PAGE + info.offset }

  /** Moving to the next page once the offset has reached 128 (used by Init and WriteRecord). */
  function NextPageIfFull(info: Info): Info
  {
    if info.offset >= LOG_RECORDS_PER_PAGE then info.(page := Wrap16(info.page + 1), offset := 0) else info
  }

  // ---------------------------------------------------------------------
  // Boot-time recovery scan (DataLogger_Init)

  /** The first slot at or after g that the scan reads as empty, or 4096 when there is none. */
  function FirstGapFrom(m: seq<u32>, g: nat): (n: nat)
    requires |m| == LOG_WORDS && g <= MAX_LOG_RECORDS
    ensures g <= n <= MAX_LOG_RECORDS
    decreases MAX_LOG_RECORDS - g
  {
    if g == MAX_LOG_RECORDS then MAX_LOG_RECORDS
    else if Readable(g) && !Present(m, g) then g
    else FirstGapFrom(m, g + 1)
  }

  /** The info after the scan takes in an in-use record with timestamp t and type ty found at slot g. */
  function Absorb(info: Info, g: nat, t: u32, ty: u8): Info
    requires g < MAX_LOG_RECORDS
  {
    Info(total := Wrap32(info.total + 1),
         sensor := if ty == LOG_TYPE_SENSOR then Wrap32(info.sensor + 1) else info.sensor,
         operation := if ty == LOG_TYPE_OPERATION then Wrap32(info.operation + 1) else info.operation,
         alarm := if ty == LOG_TYPE_ALARM then Wrap32(info.alarm + 1) else info.alarm,
         oldest := if info.oldest == 0 || t < info.oldest then t else info.oldest,
         newest := if t > info.newest then t else info.newest,
         page := g / LOG_RECORDS_PER_PAGE,
         offset := g % LOG_RECORDS_PER_PAGE + 1)
  }

  /** The scan stops at slot g: it is readable and reads as empty. */
  predicate EndsScan(m: seq<u32>, g: nat)
    requires |m| == LOG_WORDS
  {
    Readable(g) && !Present(m, g)
  }

  /** What reading slot g does to the info: an in-use readable record is absorbed, anything else leaves it. */
  function ScanOne(m: seq<u32>, g: nat, info: Info): Info
    requires |m| == LOG_WORDS && g < MAX_LOG_RECORDS
  {
    if Readable(g) && Present(m, g) then Absorb(info, g, Timestamp(SlotRecord(m, g)), LogType(SlotRecord(m, g))) else info
  }

  /** The info after the scan has read slots 0 .. n-1, skipping unreadable ones. */
  function Scanned(m: seq<u32>, n: nat): Info
    requires |m| == LOG_WORDS && n <= MAX_LOG_RECORDS
  {
    if n == 0 then ZERO_INFO
    else ScanOne(m, n - 1, Scanned(m, n - 1))
  }

  /** What DataLogger_Init leaves in logger_info for flash contents m. */
  function InitInfo(m: seq<u32>): Info
    requires |m| == LOG_WORDS
  {
    NextPageIfFull(Scanned(m, FirstGapFrom(m, 0)))
  }

  lemma {:induction false} NoGapBefore(m: seq<u32>, k: nat, g: nat)
    requires |m| == LOG_WORDS && k <= MAX_LOG_RECORDS && k <= g < FirstGapFrom(m, k)
    ensures Readable(g) ==> Present(m, g)
    decreases g - k
  {
    if k < g {
      NoGapBefore(m, k + 1, g);
    }
  }

  /** One step of the scan: what reading slot g does to the info and the gap. */
  lemma ScanStep(m: seq<u32>, g: nat)
    requires |m| == LOG_WORDS && g < MAX_LOG_RECORDS
    ensures !(Readable(g) && !Present(m, g)) ==> FirstGapFrom(m, g) == FirstGapFrom(m, g + 1)
    ensures Readable(g) && !Present(m, g) ==> FirstGapFrom(m, g) == g
    ensures Readable(g) && Present(m, g) ==> Scanned(m, g + 1) == Absorb(Scanned(m, g), g, m[4 * g], m[4 * g + 1] % 0x100)
    ensures !Readable(g) ==> Scanned(m, g + 1) == Scanned(m, g)
  {
  }

  /**
   * The scan as the loops run it: from slot g up to (not including) hi,
   * taking in each slot until an empty one stops it; the flag says whether it
   * stopped.
   */
  function ScanFrom(m: seq<u32>, g: nat, hi: nat, info: Info): (Info, bool)
    requires |m| == LOG_WORDS && g <= hi <= MAX_LOG_RECORDS
    decreases hi - g
  {
    if g == hi then (info, false)
    else if EndsScan(m, g) then (info, true)
    else ScanFrom(m, g + 1, hi, ScanOne(m, g, info))
  }

  /** Scanning up to hi is scanning up to mid and, unless that stopped, on from mid. */
  lemma {:induction false} ScanFromSplit(m: seq<u32>, lo: nat, mid: nat, hi: nat, info: Info)
    requires |m| == LOG_WORDS && lo <= mid <= hi <= MAX_LOG_RECORDS
    ensures ScanFrom(m, lo, hi, info) ==
            var r := ScanFrom(m, lo, mid, info); if r.1 then r else ScanFrom(m, mid, hi, r.0)
    decreases mid - lo
  {
    if lo < mid && !EndsScan(m, lo) {
      ScanFromSplit(m, lo + 1, mid, hi, ScanOne(m, lo, info));
    }
  }

  /**
   * The loop-shaped scan agrees with the slot-by-slot definition: from slot 0
   * it stops exactly when there is an empty readable slot, and leaves the
   * scan of the slots before the first one.
   */
  lemma {:induction false} ScanFromScanned(m: seq<u32>, g: nat)
    requires |m| == LOG_WORDS && g <= FirstGapFrom(m, 0) && FirstGapFrom(m, 0) == FirstGapFrom(m, g)
    ensures ScanFrom(m, g, MAX_LOG_RECORDS, Scanned(m, g)) ==
            (Scanned(m, FirstGapFrom(m, 0)), FirstGapFrom(m, 0) < MAX_LOG_RECORDS)
    decreases MAX_LOG_RECORDS - g
  {
    if g < MAX_LOG_RECORDS {
      ScanStep(m, g);
      if !EndsScan(m, g) {
        ScanFromScanned(m, g + 1);
      }
    }
  }

  /** With no gap before n, the scan has counted every readable slot below n. */
  lemma {:induction false} ScannedCounts(m: seq<u32>, n: nat)
    requires |m| == LOG_WORDS && n <= FirstGapFrom(m, 0)
    ensures Scanned(m, n).total == (if n == MAX_LOG_RECORDS then n - 1 else n)
    ensures Scanned(m, n).sensor + Scanned(m, n).operation + Scanned(m, n).alarm <= Scanned(m, n).total
  {
    if n > 0 {
      ScannedCounts(m, n - 1);
      ScannedCountsStep(m, n);
    }
  }

  lemma ScannedCountsStep(m: seq<u32>, n: nat)
    requires |m| == LOG_WORDS && 0 < n <= FirstGapFrom(m, 0)
    requires Scanned(m, n - 1).total == n - 1
    requires Scanned(m, n - 1).sensor + Scanned(m, n - 1).operation + Scanned(m, n - 1).alarm <= n - 1
    ensures Scanned(m, n).total == (if n == MAX_LOG_RECORDS then n - 1 else n)
    ensures Scanned(m, n).sensor + Scanned(m, n).operation + Scanned(m, n).alarm <= Scanned(m, n).total
  {
    var prev := Scanned(m, n - 1);
    if n - 1 < MAX_LOG_RECORDS - 1 {
      NoGapBefore(m, 0, n - 1);
      AbsorbCounts(prev, n - 1, Timestamp(SlotRecord(m, n - 1)), LogType(SlotRecord(m, n - 1)));
    } else {
      assert Scanned(m, n) == prev;
    }
  }

  /** Taking in one record adds one to the total and at most one to the type counters. */
  lemma AbsorbCounts(info: Info, g: nat, t: u32, ty: u8)
    requires g < MAX_LOG_RECORDS && info.total < MAX_LOG_RECORDS
    requires info.sensor + info.operation + info.alarm <= info.total
    ensures var i := Absorb(info, g, t, ty);
      i.total == info.total + 1 && i.sensor + i.operation + i.alarm <= i.total
  {
  }

  /** With no gap before n, the scan's cursor is just after the last readable slot below n. */
  lemma ScannedCursor(m: seq<u32>, n: nat)
    requires |m| == LOG_WORDS && n <= FirstGapFrom(m, 0)
    ensures var i := Scanned(m, n);
      && (n == 0 ==> i.page == 0 && i.offset == 0)
      && (0 < n < MAX_LOG_RECORDS ==> i.page == (n - 1) / LOG_RECORDS_PER_PAGE && i.offset == (n - 1) % LOG_RECORDS_PER_PAGE + 1)
      && (n == MAX_LOG_RECORDS ==> i.page == LOG_PAGES - 1 && i.offset == LOG_RECORDS_PER_PAGE - 1)
  {
    if 0 < n < MAX_LOG_RECORDS {
      NoGapBefore(m, 0, n - 1);
    } else if n == MAX_LOG_RECORDS {
      assert Scanned(m, n) == Scanned(m, n - 1);
      NoGapBefore(m, 0, n - 2);
    }
  }

  /**
   * After Init the cursor designates the first slot the scan found empty
   * (all records before it are counted), or slot 4095 when every readable slot
   * is in use; the type counters never exceed the total.
   */
  lemma InitCursor(m: seq<u32>)
    requires |m| == LOG_WORDS
    ensures var i := InitInfo(m); var n := FirstGapFrom(m, 0);
      && i.page < LOG_PAGES && i.offset < LOG_RECORDS_PER_PAGE
      && CursorSlot(i) == (if n == MAX_LOG_RECORDS then n - 1 else n)
      && i.total == CursorSlot(i)
      && i.sensor + i.operation + i.alarm <= i.total
  {
    ScannedCounts(m, FirstGapFrom(m, 0));
    ScannedCursor(m, FirstGapFrom(m, 0));
  }

  /** The newest timestamp after the scan is at least every counted record's timestamp. */
  lemma {:induction false} ScannedNewest(m: seq<u32>, n: nat, g: nat)
    requires |m| == LOG_WORDS && g < n <= MAX_LOG_RECORDS
    requires Readable(g) && Present(m, g)
    ensures Timestamp(SlotRecord(m, g)) <= Scanned(m, n).newest
  {
    if g < n - 1 {
      ScannedNewest(m, n - 1, g);
    }
  }

  /**
   * A record whose timestamp is 0xFF modulo 256 reads as an empty slot: the
   * scan stops there at the latest, so neither it nor anything after it is
   * counted.
   */
  lemma {:induction false} TimestampStopsScan(m: seq<u32>, g: nat, k: nat)
    requires |m| == LOG_WORDS && k <= g && Readable(g)
    requires Timestamp(SlotRecord(m, g)) % 0x100 == 0xFF
    ensures FirstGapFrom(m, k) <= g
    decreases g - k
  {
    if k < g {
      TimestampStopsScan(m, g, k + 1);
    }
  }

  // ---------------------------------------------------------------------
  // Writing (DataLogger_WriteRecord)

  /** The memory after erasing page p, when the page is not write-protected. */
  function EraseIf(m: seq<u32>, locked: set<nat>, p: nat): seq<u32>
    requires |m| == LOG_WORDS && p < LOG_PAGES
  {
    if p in locked then m else Flash.ErasePageOf(m, p)
  }

  /** Where the next record goes: the cursor after the page advance and the wrap to page 0. */
  function WriteCursor(info: Info): Info
  {
    var i := NextPageIfFull(info);
    if i.page >= LOG_PAGES then i.(page := 0, offset := 0) else i
  }

  /** The memory after the erases WriteRecord performs before programming. */
  function Prepared(info: Info, m: seq<u32>, locked: set<nat>): (r: seq<u32>)
    requires |m| == LOG_WORDS && info.offset <= LOG_RECORDS_PER_PAGE
    ensures |r| == LOG_WORDS
  {
    var c := WriteCursor(info);
    var m1 := if NextPageIfFull(info).page >= LOG_PAGES then EraseIf(m, locked, 0) else m;
    var a := Flash.WORDS_PER_PAGE * c.page;
    if c.offset == 0 && m1[a] != Flash.ERASED then EraseIf(m1, locked, c.page) else m1
  }

  /** Programming words ws[j..] at word index base + j.., stopping at the first failure. */
  function ProgramFrom(m: seq<u32>, locked: set<nat>, base: nat, ws: seq<u32>, j: nat): (res: (seq<u32>, bool))
    requires base + |ws| <= |m| && j <= |ws|
    ensures |res.0| == |m|
    decreases |ws| - j
  {
    if j == |ws| then (m, true)
    else if (base + j) / Flash.WORDS_PER_PAGE in locked || m[base + j] != Flash.ERASED then (m, false)
    else ProgramFrom(m[base + j := ws[j]], locked, base, ws, j + 1)
  }

  /** The whole effect of DataLogger_WriteRecord: new info, new memory, status. */
  function WriteRecordSpec(info: Info, m: seq<u32>, locked: set<nat>, r: Raw): (Info, seq<u32>, u8)
    requires |m| == LOG_WORDS && info.offset <= LOG_RECORDS_PER_PAGE
  {
    var c := WriteCursor(info);
    var m1 := Prepared(info, m, locked);
    var res := ProgramFrom(m1, locked, 4 * CursorSlot(c), r.Words(), 0);
    if res.1 then (c.(offset := c.offset + 1, total := Wrap32(c.total + 1)), res.0, 0)
    else (c, res.0, 1)
  }

  lemma {:induction false} ProgramFromFacts(m: seq<u32>, locked: set<nat>, base: nat, ws: seq<u32>, j: nat, p: nat)
    requires base + |ws| <= |m| && j <= |ws|
    requires p * Flash.WORDS_PER_PAGE <= base + j && base + |ws| <= (p + 1) * Flash.WORDS_PER_PAGE
    ensures var res := ProgramFrom(m, locked, base, ws, j);
      && (res.1 <==> (j < |ws| ==> p !in locked) && forall i :: base + j <= i < base + |ws| ==> m[i] == Flash.ERASED)
      && (forall i :: 0 <= i < |m| && !(base + j <= i < base + |ws|) ==> res.0[i] == m[i])
      && (res.1 ==> forall i :: base + j <= i < base + |ws| ==> res.0[i] == ws[i - base])
    decreases |ws| - j
  {
    if j < |ws| {
      assert (base + j) / Flash.WORDS_PER_PAGE == p;
    }
    if j < |ws| && p !in locked && m[base + j] == Flash.ERASED {
      var m' := m[base + j := ws[j]];
      ProgramFromFacts(m', locked, base, ws, j + 1, p);
      assert forall i :: base + j + 1 <= i < base + |ws| ==> m'[i] == m[i];
      assert (forall i :: base + j + 1 <= i < base + |ws| ==> m'[i] == Flash.ERASED)
        <==> (forall i :: base + j <= i < base + |ws| ==> m[i] == Flash.ERASED);
      var res := ProgramFrom(m', locked, base, ws, j + 1);
      assert ProgramFrom(m, locked, base, ws, j) == res;
      assert res.0[base + j] == ws[j] by {
        assert !(base + j + 1 <= base + j < base + |ws|);
      }
    }
  }

  /** The four words of slot g all read erased. */
  predicate SlotErased(m: seq<u32>, g: nat)
    requires 4 * g + 4 <= |m|
  {
    forall i :: 4 * g <= i < 4 * g + 4 ==> m[i] == Flash.ERASED
  }

  /**
   * A write lands in the slot under the write cursor and succeeds exactly when
   * that page is not protected and the slot reads erased after the
   * preparatory erases. On success the slot then holds the record and the
   * offset and the total advance by one; on failure the cursor stays on the
   * slot and the total is unchanged. Nothing outside the slot differs from
   * the prepared memory, the type counters, oldest and newest are never
   * touched, and the cursor stays inside the region.
   */
  lemma WriteRecordFacts(info: Info, m: seq<u32>, locked: set<nat>, r: Raw)
    requires |m| == LOG_WORDS && info.offset <= LOG_RECORDS_PER_PAGE
    ensures WriteCursor(info).page < LOG_PAGES && WriteCursor(info).offset < LOG_RECORDS_PER_PAGE
    ensures var s := WriteRecordSpec(info, m, locked, r); var c := WriteCursor(info);
      && s.0.page == c.page && s.0.offset <= LOG_RECORDS_PER_PAGE
      && s.0.sensor == info.sensor && s.0.operation == info.operation && s.0.alarm == info.alarm
      && s.0.oldest == info.oldest && s.0.newest == info.newest
    ensures var s := WriteRecordSpec(info, m, locked, r); var c := WriteCursor(info);
      s.2 == 0 <==> c.page !in locked && SlotErased(Prepared(info, m, locked), CursorSlot(c))
    ensures var s := WriteRecordSpec(info, m, locked, r); var c := WriteCursor(info);
      s.2 == 0 ==> s.0.offset == c.offset + 1 && s.0.total == Wrap32(info.total + 1) && SlotRecord(s.1, CursorSlot(c)) == r
    ensures var s := WriteRecordSpec(info, m, locked, r);
      s.2 != 0 ==> s.0 == WriteCursor(info)
    ensures var s := WriteRecordSpec(info, m, locked, r); var g := CursorSlot(WriteCursor(info));
      forall i :: 0 <= i < LOG_WORDS && !(4 * g <= i < 4 * g + 4) ==> s.1[i] == Prepared(info, m, locked)[i]
  {
    var c := WriteCursor(info);
    var g := CursorSlot(c);
    var m1 := Prepared(info, m, locked);
    ProgramFromFacts(m1, locked, 4 * g, r.Words(), 0, c.page);
    var res := ProgramFrom(m1, locked, 4 * g, r.Words(), 0);
    if res.1 {
      assert res.0[4 * g] == r.w0 && res.0[4 * g + 1] == r.w1;
      assert res.0[4 * g + 2] == r.w2 && res.0[4 * g + 3] == r.w3;
    }
  }

  // ---------------------------------------------------------------------
  // Backward query (DataLogger_Query)

  datatype LogQuery = LogQuery(startTime: u32, endTime: u32, logType: u8, maxRecords: u16)

  /** The record passes the query's presence, time-window and type tests. */
  predicate Matches(r: Raw, q: LogQuery)
  {
    RawByte(r, 0) != 0xFF && q.startTime <= Timestamp(r) <= q.endTime && (q.logType == 0 || LogType(r) == q.logType)
  }

  /** The highest slot the query visits: the current page with offset current_offset - 1 as a u16. */
  function QueryTop(info: Info): nat
  {
    info.page * LOG_RECORDS_PER_PAGE + Wrap16(info.offset - 1)
  }

  /** The slot's record when it is readable and matches. */
  function Hit(m: seq<u32>, g: int, q: LogQuery): seq<Raw>
    requires |m| == LOG_WORDS
  {
    if Readable(g) && Matches(SlotRecord(m, g), q) then [SlotRecord(m, g)] else []
  }

  /** The matching records among the first n slots visited from top downwards. */
  function Hits(m: seq<u32>, top: nat, n: nat, q: LogQuery): seq<Raw>
    requires |m| == LOG_WORDS && n <= top + 1
  {
    if n == 0 then [] else Hits(m, top, n - 1, q) + Hit(m, top - (n - 1), q)
  }

  /** One more slot visited: slot g's hit is appended. */
  lemma HitsStep(m: seq<u32>, top: nat, g: nat, q: LogQuery)
    requires |m| == LOG_WORDS && g <= top
    ensures Hits(m, top, top - g + 1, q) == Hits(m, top, top - g, q) + Hit(m, g, q)
  {
  }

  /** The offset the query starts from on a page: current_offset - 1 as a u16 on the current page, 127 below it. */
  function StartOffset(info: Info, page: nat): u16
  {
    if page == info.page then Wrap16(info.offset - 1) else LOG_RECORDS_PER_PAGE - 1
  }

  function Take<T>(s: seq<T>, k: nat): seq<T>
  {
    if |s| <= k then s else s[..k]
  }

  function Min(a: int, b: int): int { if a <= b then a else b }

  /** What DataLogger_Query returns: the first min(buffer, max) matching records, newest slot first. */
  function QueryResult(m: seq<u32>, info: Info, q: LogQuery, bufferSize: u16): seq<Raw>
    requires |m| == LOG_WORDS
  {
    var top := QueryTop(info);
    Take(Hits(m, top, top + 1, q), Min(bufferSize, q.maxRecords))
  }

  lemma {:induction false} HitsPrefix(m: seq<u32>, top: nat, n: nat, k: nat, q: LogQuery)
    requires |m| == LOG_WORDS && n <= k <= top + 1
    ensures Hits(m, top, n, q) <= Hits(m, top, k, q)
    decreases k - n
  {
    if n < k {
      HitsPrefix(m, top, n, k - 1, q);
    }
  }

  /** Every hit is a readable, matching slot among those visited. */
  lemma {:induction false} HitsSound(m: seq<u32>, top: nat, n: nat, q: LogQuery)
    requires |m| == LOG_WORDS && n <= top + 1
    ensures forall r :: r in Hits(m, top, n, q) ==> Matches(r, q)
    ensures forall r :: r in Hits(m, top, n, q) ==> exists g :: top - n < g <= top && Readable(g) && r == SlotRecord(m, g)
  {
    if n > 0 {
      HitsSound(m, top, n - 1, q);
    }
  }

  /**
   * The query returns at most min(buffer_size, max_records) records, each of
   * them a readable slot below the start point that is in use, inside
   * [start_time, end_time] and of the requested type (0 = any).
   */
  lemma QueryResultSound(m: seq<u32>, info: Info, q: LogQuery, bufferSize: u16)
    requires |m| == LOG_WORDS
    ensures var res := QueryResult(m, info, q, bufferSize);
      && |res| <= bufferSize && |res| <= q.maxRecords
      && (forall r :: r in res ==> Matches(r, q))
      && (forall r :: r in res ==> exists g :: 0 <= g <= QueryTop(info) && Readable(g) && r == SlotRecord(m, g))
  {
    var top := QueryTop(info);
    HitsSound(m, top, top + 1, q);
    var h := Hits(m, top, top + 1, q);
    var res := QueryResult(m, info, q, bufferSize);
    assert forall r :: r in res ==> r in h;
  }

  /**
   * The query as the loops run it: visit slots g, g-1, ..., 0, appending each
   * readable matching record while fewer than limit have been found, and
   * giving up at the first match found once the limit is reached.
   */
  function QueryFrom(m: seq<u32>, g: int, q: LogQuery, acc: seq<Raw>, limit: nat): seq<Raw>
    requires |m| == LOG_WORDS && -1 <= g
    decreases g + 1
  {
    if g == -1 then acc
    else if Readable(g) && Matches(SlotRecord(m, g), q) then
      if |acc| < limit then QueryFrom(m, g - 1, q, acc + [SlotRecord(m, g)], limit) else acc
    else QueryFrom(m, g - 1, q, acc, limit)
  }

  /** A prefix longer than acc cuts back to acc. */
  lemma TakeOfLonger<T>(acc: seq<T>, x: T, full: seq<T>)
    requires acc + [x] <= full
    ensures Take(full, |acc|) == acc
  {
    assert full[..|acc|] == (acc + [x])[..|acc|];
  }

  /** One slot of the loop-shaped query, in terms of the slot's hit. */
  lemma QueryFromStep(m: seq<u32>, g: nat, q: LogQuery, acc: seq<Raw>, limit: nat)
    requires |m| == LOG_WORDS
    ensures QueryFrom(m, g, q, acc, limit) ==
      if Hit(m, g, q) != [] && |acc| >= limit then acc else QueryFrom(m, g - 1, q, acc + Hit(m, g, q), limit)
  {
    if Hit(m, g, q) == [] {
      assert acc + [] == acc;
    }
  }

  /** A hit found with limit records already collected: those records are the first limit hits. */
  lemma QueryFromFull(m: seq<u32>, top: nat, g: nat, q: LogQuery, acc: seq<Raw>, limit: nat)
    requires |m| == LOG_WORDS && g <= top
    requires acc == Hits(m, top, top - g, q) && |acc| == limit && Hit(m, g, q) != []
    ensures acc == Take(Hits(m, top, top + 1, q), limit)
  {
    HitsStep(m, top, g, q);
    HitsPrefix(m, top, top - g + 1, top + 1, q);
    TakeOfLonger(acc, Hit(m, g, q)[0], Hits(m, top, top + 1, q));
  }

  /** The loop-shaped query returns the first limit hits of the downward visit. */
  lemma {:induction false} QueryFromHits(m: seq<u32>, top: nat, g: int, q: LogQuery, acc: seq<Raw>, limit: nat)
    requires |m| == LOG_WORDS && -1 <= g <= top
    requires acc == Hits(m, top, top - g, q) && |acc| <= limit
    ensures QueryFrom(m, g, q, acc, limit) == Take(Hits(m, top, top + 1, q), limit)
    decreases g + 1
  {
    if g >= 0 {
      HitsStep(m, top, g, q);
      QueryFromStep(m, g, q, acc, limit);
      if Hit(m, g, q) != [] && |acc| >= limit {
        QueryFromFull(m, top, g, q, acc, limit);
      } else {
        QueryFromHits(m, top, g - 1, q, acc + Hit(m, g, q), limit);
      }
    }
  }

  /** The query run from the cursor with nothing found yet gives QueryResult. */
  lemma QueryPlan(m: seq<u32>, info: Info, q: LogQuery, bufferSize: u16)
    requires |m| == LOG_WORDS
    ensures var res := QueryResult(m, info, q, bufferSize);
      && QueryFrom(m, QueryTop(info), q, [], Min(bufferSize, q.maxRecords)) == res
      && |res| <= bufferSize && |res| <= q.maxRecords
      && (forall r :: r in res ==> Matches(r, q))
  {
    QueryFromHits(m, QueryTop(info), QueryTop(info), q, [], Min(bufferSize, q.maxRecords));
    QueryResultSound(m, info, q, bufferSize);
  }

  lemma {:induction false} HitsAboveRegion(m: seq<u32>, top: nat, n: nat, q: LogQuery)
    requires |m| == LOG_WORDS && n <= top + 1 && top - n >= MAX_LOG_RECORDS - 2
    ensures Hits(m, top, n, q) == []
  {
    if n > 0 {
      HitsAboveRegion(m, top, n - 1, q);
    }
  }

  lemma {:induction false} HitsShift(m: seq<u32>, top: nat, k: nat, q: LogQuery)
    requires |m| == LOG_WORDS && MAX_LOG_RECORDS - 2 <= top && k <= MAX_LOG_RECORDS - 1
    ensures Hits(m, top, top - (MAX_LOG_RECORDS - 2) + k, q) == Hits(m, MAX_LOG_RECORDS - 2, k, q)
  {
    if k == 0 {
      HitsAboveRegion(m, top, top - (MAX_LOG_RECORDS - 2), q);
    } else {
      HitsShift(m, top, k - 1, q);
    }
  }

  /**
   * With current_offset 0 the start offset wraps to 65535, so the scan of the
   * current page runs through the addresses of all later pages: the query then
   * sees every readable slot, from slot 4094 down.
   */
  lemma QueryFromWrappedOffset(m: seq<u32>, info: Info, q: LogQuery)
    requires |m| == LOG_WORDS && info.offset == 0 && info.page < LOG_PAGES
    ensures QueryTop(info) == info.page * LOG_RECORDS_PER_PAGE + 0xFFFF
    ensures Hits(m, QueryTop(info), QueryTop(info) + 1, q) == Hits(m, MAX_LOG_RECORDS - 2, MAX_LOG_RECORDS - 1, q)
  {
    HitsShift(m, QueryTop(info), MAX_LOG_RECORDS - 1, q);
  }

  // ---------------------------------------------------------------------
  // Daily statistics (DataLogger_GetDailyStats)

  function SensorCount(rs: seq<Raw>): nat
  {
    if rs == [] then 0 else SensorCount(rs[..|rs| - 1]) + (if LogType(rs[|rs| - 1]) == LOG_TYPE_SENSOR then 1 else 0)
  }

  function OperationCount(rs: seq<Raw>): nat
  {
    if rs == [] then 0 else OperationCount(rs[..|rs| - 1]) + (if LogType(rs[|rs| - 1]) == LOG_TYPE_OPERATION then 1 else 0)
  }

  /** Sum of byte `field` over the sensor records of rs. */
  function SensorSum(rs: seq<Raw>, field: nat): nat
    requires field < 16
  {
    if rs == [] then 0
    else SensorSum(rs[..|rs| - 1], field) + (if LogType(rs[|rs| - 1]) == LOG_TYPE_SENSOR then RawByte(rs[|rs| - 1], field) else 0)
  }

  lemma {:induction false} SumBound(rs: seq<Raw>, field: nat)
    requires field < 16
    ensures SensorSum(rs, field) <= 255 * SensorCount(rs)
    ensures SensorCount(rs) + OperationCount(rs) <= |rs|
  {
    if rs != [] {
      SumBound(rs[..|rs| - 1], field);
    }
  }

  /** The average of one sensor field as the C code divides it (0 when there are no sensor records). */
  function Average(rs: seq<Raw>, field: nat): nat
    requires field < 16
  {
    if SensorCount(rs) == 0 then 0 else SensorSum(rs, field) / SensorCount(rs)
  }

  /** An integer average of bytes is itself a byte. */
  lemma AverageIsByte(rs: seq<Raw>, field: nat)
    requires field < 16
    ensures Average(rs, field) <= 255
  {
    SumBound(rs, field);
    if SensorCount(rs) > 0 {
      DivBound(SensorSum(rs, field), SensorCount(rs), 255);
    }
  }

  /**
   * The loop of DataLogger_GetDailyStats over the records found: sum the
   * three sensor bytes and count the sensor and the operation records
   * (u16 loop index, so at most 65535 records).
   */
  method Tally(records: seq<Raw>) returns (tempSum: u32, humiSum: u32, lightSum: u32, sensorCount: u16, operations: u16)
    requires |records| <= 0xFFFF
    ensures tempSum == SensorSum(records, 5) && humiSum == SensorSum(records, 6) && lightSum == SensorSum(records, 7)
    ensures sensorCount == SensorCount(records) && operations == OperationCount(records)
  {
    tempSum, humiSum, lightSum, sensorCount, operations := 0, 0, 0, 0, 0;
    var i := 0;
    while i < |records|
      invariant 0 <= i <= |records|
      invariant tempSum == SensorSum(records[..i], 5) && humiSum == SensorSum(records[..i], 6)
      invariant lightSum == SensorSum(records[..i], 7)
      invariant sensorCount == SensorCount(records[..i]) && operations == OperationCount(records[..i])
    {
      assert records[..i + 1][..i] == records[..i];
      SumBound(records[..i + 1], 5);
      SumBound(records[..i + 1], 6);
      SumBound(records[..i + 1], 7);
      var r := records[i];
      if LogType(r) == LOG_TYPE_SENSOR {
        tempSum := tempSum + SensorTemperature(r);
        humiSum := humiSum + SensorHumidity(r);
        lightSum := lightSum + SensorLight(r);
        sensorCount := sensorCount + 1;
      } else if LogType(r) == LOG_TYPE_OPERATION {
        operations := operations + 1;
      }
      i := i + 1;
    }
    assert records[..|records|] == records;
  }

  lemma DivBound(s: nat, c: nat, b: nat)
    requires 0 < c && s <= b * c
    ensures s / c <= b
  {
    var q := s / c;
    assert q * c <= s;
    assert (q - b) * c <= 0;
  }

  // ---------------------------------------------------------------------
  // The logger object

  /** First write-protected page at or after p, or LOG_PAGES. */
  function FirstLockedFrom(locked: set<nat>, p: nat): (k: nat)
    requires p <= LOG_PAGES
    ensures p <= k <= LOG_PAGES
    decreases LOG_PAGES - p
  {
    if p == LOG_PAGES || p in locked then p else FirstLockedFrom(locked, p + 1)
  }

  class Logger {
    var info: Info
    const flash: Flash.Bank

    /** The bank is the 32-page log region. */
    ghost predicate FlashOk()
      reads this, flash
    {
      flash.Valid() && flash.pages == LOG_PAGES && flash.base == FLASH_START_ADDR
    }

    ghost predicate Valid()
      reads this, flash
    {
      FlashOk() && info.page < LOG_PAGES && info.offset <= LOG_RECORDS_PER_PAGE
    }

    /** logger_info starts zeroed, as a global of the C program does. */
    constructor (flash: Flash.Bank)
      requires flash.Valid() && flash.pages == LOG_PAGES && flash.base == FLASH_START_ADDR
      ensures Valid() && this.flash == flash && info == ZERO_INFO
    {
      this.flash := flash;
      info := ZERO_INFO;
    }

    /** DataLogger_ReadRecord: the four words at addr, or None when addr fails the bound test. */
    method ReadRecord(addr: u32) returns (r: Option<Raw>)
      requires FlashOk() && addr % 4 == 0
      ensures r.None? <==> !AddrOk(addr)
      ensures r.Some? ==> r.value == WordsAt(flash.mem[..], (addr - FLASH_START_ADDR) / 4)
    {
      if addr < FLASH_START_ADDR || addr > FLASH_END_ADDR - LOG_RECORD_SIZE {
        return None;
      }
      var w := (addr - FLASH_START_ADDR) / 4;
      r := Some(Raw(flash.mem[w], flash.mem[w + 1], flash.mem[w + 2], flash.mem[w + 3]));
    }

    /**
     * The body of the Init scan for one slot: count an in-use record into the
     * running info, or report the empty slot that ends the scan.
     */
    method ScanSlot(cur: Info, page: nat, offset: nat) returns (next: Info, stop: bool)
      requires FlashOk() && page < LOG_PAGES && offset < LOG_RECORDS_PER_PAGE
      ensures stop == EndsScan(flash.mem[..], page * LOG_RECORDS_PER_PAGE + offset)
      ensures next == ScanOne(flash.mem[..], page * LOG_RECORDS_PER_PAGE + offset, cur)
    {
      SlotAddress(page, offset);
      next, stop := cur, false;
      var rec := ReadRecord(SlotAddr(page, offset));
      if rec.Some? {
        var r := rec.value;
        if RawByte(r, 0) != 0xFF {
          next := next.(total := Wrap32(next.total + 1));
          if LogType(r) == LOG_TYPE_SENSOR {
            next := next.(sensor := Wrap32(next.sensor + 1));
          } else if LogType(r) == LOG_TYPE_OPERATION {
            next := next.(operation := Wrap32(next.operation + 1));
          } else if LogType(r) == LOG_TYPE_ALARM {
            next := next.(alarm := Wrap32(next.alarm + 1));
          }
          if next.oldest == 0 || Timestamp(r) < next.oldest {
            next := next.(oldest := Timestamp(r));
          }
          if Timestamp(r) > next.newest {
            next := next.(newest := Timestamp(r));
          }
          next := next.(page := page, offset := offset + 1);
        } else {
          stop := true;
        }
      }
    }

    /** The inner loop of the Init scan: the slots of one page, in offset order, until an empty one. */
    method ScanPage(cur: Info, page: nat) returns (next: Info, stop: bool)
      requires FlashOk() && page < LOG_PAGES
      ensures (next, stop) == ScanFrom(flash.mem[..], page * LOG_RECORDS_PER_PAGE, page * LOG_RECORDS_PER_PAGE + LOG_RECORDS_PER_PAGE, cur)
    {
      ghost var m := flash.mem[..];
      ghost var lo, hi := page * LOG_RECORDS_PER_PAGE, page * LOG_RECORDS_PER_PAGE + LOG_RECORDS_PER_PAGE;
      next := cur;
      var offset := 0;
      ghost var g := lo;
      while offset < LOG_RECORDS_PER_PAGE
        invariant 0 <= offset <= LOG_RECORDS_PER_PAGE
        invariant g == lo + offset
        invariant ScanFrom(m, lo, hi, cur) == ScanFrom(m, g, hi, next)
      {
        next, stop := ScanSlot(next, page, offset);
        if stop {
          return;
        }
        offset := offset + 1;
        g := g + 1;
      }
      stop := false;
    }

    /**
     * DataLogger_Init: forward scan that stops at the first empty slot. The
     * running counters are kept in a local Info and stored into logger_info
     * when the scan is over.
     */
    method Init()
      requires Valid()
      modifies this`info
      ensures Valid()
      ensures info == InitInfo(flash.mem[..])
    {
      ghost var m := flash.mem[..];
      var cur := ZERO_INFO;
      var page := 0;
      while page < LOG_PAGES
        invariant 0 <= page <= LOG_PAGES
        invariant ScanFrom(m, 0, MAX_LOG_RECORDS, ZERO_INFO) == ScanFrom(m, page * LOG_RECORDS_PER_PAGE, MAX_LOG_RECORDS, cur)
      {
        ScanFromSplit(m, page * LOG_RECORDS_PER_PAGE, page * LOG_RECORDS_PER_PAGE + LOG_RECORDS_PER_PAGE, MAX_LOG_RECORDS, cur);
        var stop;
        cur, stop := ScanPage(cur, page);
        if stop {
          break;
        }
        page := page + 1;
      }
      ScanFromScanned(m, 0);
      InitCursor(m);
      if cur.offset >= LOG_RECORDS_PER_PAGE {
        cur := cur.(page := Wrap16(cur.page + 1), offset := 0);
      }
      info := cur;
    }

    /** DataLogger_WriteRecord. */
    method WriteRecord(r: Raw) returns (status: u8)
      requires Valid()
      modifies this`info, flash.mem
      ensures Valid()
      ensures (info, flash.mem[..], status) == WriteRecordSpec(old(info), old(flash.mem[..]), flash.locked, r)
    {
      PrepareSlot();
      var w := Flash.WORDS_PER_PAGE * info.page + 4 * info.offset;
      var ok := ProgramRecord(w, r);
      if !ok {
        return 1;
      }
      info := info.(offset := info.offset + 1, total := Wrap32(info.total + 1));
      status := 0;
    }

    /**
     * The first half of DataLogger_WriteRecord: move to the next page when the
     * current one is full, wrap to page 0 (erasing it) past the last page, and
     * erase the cursor page when writing its first slot over a non-erased word.
     */
    method PrepareSlot()
      requires Valid()
      modifies this`info, flash.mem
      ensures FlashOk() && info == WriteCursor(old(info))
      ensures flash.mem[..] == Prepared(old(info), old(flash.mem[..]), flash.locked)
    {
      ghost var info0 := info;
      ghost var m0 := flash.mem[..];
      if info.offset >= LOG_RECORDS_PER_PAGE {
        info := info.(page := Wrap16(info.page + 1), offset := 0);
      }
      if info.page >= LOG_PAGES {
        var _ := flash.ErasePage(0);
        info := info.(page := 0, offset := 0);
      }
      ghost var m1 := flash.mem[..];
      assert m1 == if NextPageIfFull(info0).page >= LOG_PAGES then EraseIf(m0, flash.locked, 0) else m0;
      var w := Flash.WORDS_PER_PAGE * info.page + 4 * info.offset;
      if info.offset == 0 {
        if flash.mem[w] != Flash.ERASED {
          var _ := flash.ErasePage(info.page);
        }
      }
    }

    /** The programming loop of DataLogger_WriteRecord: the four words from word index w on, stopping at the first failure. */
    method ProgramRecord(w: nat, r: Raw) returns (ok: bool)
      requires FlashOk() && w + 4 <= LOG_WORDS
      modifies flash.mem
      ensures (flash.mem[..], ok) == ProgramFrom(old(flash.mem[..]), flash.locked, w, r.Words(), 0)
    {
      ghost var m1 := flash.mem[..];
      var i := 0;
      while i < 4
        invariant 0 <= i <= 4 && FlashOk()
        invariant ProgramFrom(m1, flash.locked, w, r.Words(), 0) == ProgramFrom(flash.mem[..], flash.locked, w, r.Words(), i)
      {
        ok := flash.ProgramWord(w + i, r.Words()[i]);
        if !ok {
          return;
        }
        i := i + 1;
      }
      ok := true;
    }

    /** DataLogger_WriteSensorData with the RTC counter value `now` as the timestamp. */
    method WriteSensorData(now: u32, temp: u8, humi: u8, light: u8, fan: u8, pump: u8,
                           lightDev: u8, mode: u8, alarms: u8) returns (status: u8)
      requires Valid()
      modifies this`info, flash.mem
      ensures Valid()
      ensures var (i2, m2, st) := WriteRecordSpec(old(info), old(flash.mem[..]), flash.locked,
                                                   SensorRecord(now, temp, humi, light, fan, pump, lightDev, mode, alarms));
        && status == st && flash.mem[..] == m2
        && info == if st == 0 then i2.(sensor := Wrap32(i2.sensor + 1), newest := now) else i2
    {
      status := WriteRecord(SensorRecord(now, temp, humi, light, fan, pump, lightDev, mode, alarms));
      if status == 0 {
        info := info.(sensor := Wrap32(info.sensor + 1), newest := now);
      }
    }

    /** DataLogger_WriteOperation. */
    method WriteOperation(now: u32, op: u8, oldVal: u8, newVal: u8, trigger: u8) returns (status: u8)
      requires Valid()
      modifies this`info, flash.mem
      ensures Valid()
      ensures var (i2, m2, st) := WriteRecordSpec(old(info), old(flash.mem[..]), flash.locked,
                                                   OperationRecord(now, op, oldVal, newVal, trigger));
        && status == st && flash.mem[..] == m2
        && info == if st == 0 then i2.(operation := Wrap32(i2.operation + 1), newest := now) else i2
    {
      status := WriteRecord(OperationRecord(now, op, oldVal, newVal, trigger));
      if status == 0 {
        info := info.(operation := Wrap32(info.operation + 1), newest := now);
      }
    }

    /** DataLogger_WriteAlarm. */
    method WriteAlarm(now: u32, alarmType: u8, level: u8, triggerVal: u8, threshold: u8) returns (status: u8)
      requires Valid()
      modifies this`info, flash.mem
      ensures Valid()
      ensures var (i2, m2, st) := WriteRecordSpec(old(info), old(flash.mem[..]), flash.locked,
                                                   AlarmRecord(now, alarmType, level, triggerVal, threshold));
        && status == st && flash.mem[..] == m2
        && info == if st == 0 then i2.(alarm := Wrap32(i2.alarm + 1), newest := now) else i2
    {
      status := WriteRecord(AlarmRecord(now, alarmType, level, triggerVal, threshold));
      if status == 0 {
        info := info.(alarm := Wrap32(info.alarm + 1), newest := now);
      }
    }

    /** DataLogger_Query: walk pages and offsets downwards from the cursor, collecting matches. */
    method Query(q: LogQuery, bufferSize: u16) returns (records: seq<Raw>)
      requires Valid()
      ensures records == QueryResult(flash.mem[..], info, q, bufferSize)
      ensures |records| <= bufferSize && |records| <= q.maxRecords
      ensures forall r :: r in records ==> Matches(r, q)
    {
      ghost var m := flash.mem[..];
      ghost var limit := Min(bufferSize, q.maxRecords);
      ghost var want := QueryResult(m, info, q, bufferSize);
      QueryPlan(m, info, q, bufferSize);
      records := [];
      var page := info.page;
      while true
        invariant 0 <= page <= info.page
        invariant want == QueryFrom(m, page * LOG_RECORDS_PER_PAGE + StartOffset(info, page), q, records, limit)
        invariant |records| <= limit
        decreases page
      {
        var full;
        records, full := QueryPage(q, bufferSize, page, StartOffset(info, page), records);
        if full {
          return;
        }
        if page == 0 {
          assert want == QueryFrom(m, -1, q, records, limit);
          return;
        }
        page := page - 1;
        assert StartOffset(info, page) == LOG_RECORDS_PER_PAGE - 1;
      }
    }

    /**
     * The inner loop of DataLogger_Query: the offsets of one page from its
     * start offset down to 0. `full` reports the early return on a match
     * found with the buffer already full.
     */
    method QueryPage(q: LogQuery, bufferSize: u16, page: u16, start: u16, found: seq<Raw>) returns (records: seq<Raw>, full: bool)
      requires FlashOk() && page < LOG_PAGES
      requires |found| <= Min(bufferSize, q.maxRecords)
      ensures |records| <= Min(bufferSize, q.maxRecords)
      ensures QueryFrom(flash.mem[..], page * LOG_RECORDS_PER_PAGE + start, q, found, Min(bufferSize, q.maxRecords)) ==
        if full then records else QueryFrom(flash.mem[..], page * LOG_RECORDS_PER_PAGE - 1, q, records, Min(bufferSize, q.maxRecords))
    {
      ghost var m := flash.mem[..];
      ghost var limit := Min(bufferSize, q.maxRecords);
      var offset: u16 := start;
      ghost var g: int := page * LOG_RECORDS_PER_PAGE + offset;
      records, full := found, false;
      while true
        invariant 0 <= offset && g == page * LOG_RECORDS_PER_PAGE + offset
        invariant QueryFrom(m, page * LOG_RECORDS_PER_PAGE + start, q, found, limit) == QueryFrom(m, g, q, records, limit)
        invariant |records| <= limit
        decreases offset
      {
        QueryFromStep(m, g, q, records, limit);
        records, full := QuerySlot(q, bufferSize, page, offset, records);
        if full {
          return;
        }
        if offset == 0 {
          break;
        }
        offset := offset - 1;
        g := g - 1;
      }
    }

    /**
     * One pass of the inner loop body of DataLogger_Query: read the slot at
     * (page, offset) and append it when it is in use, in the time window and
     * of the requested type; `full` reports a match found with no room left.
     */
    method QuerySlot(q: LogQuery, bufferSize: u16, page: u16, offset: u16, found: seq<Raw>) returns (records: seq<Raw>, full: bool)
      requires FlashOk() && page < LOG_PAGES
      requires |found| <= Min(bufferSize, q.maxRecords)
      ensures |records| <= Min(bufferSize, q.maxRecords)
      ensures var h := Hit(flash.mem[..], page * LOG_RECORDS_PER_PAGE + offset, q);
        && full == (h != [] && |found| >= Min(bufferSize, q.maxRecords))
        && records == if full then found else found + h
    {
      ghost var g := page * LOG_RECORDS_PER_PAGE + offset;
      records, full := found, false;
      SlotAddress(page, offset);
      var rec := ReadRecord(SlotAddr(page, offset));
      assert rec.Some? ==> rec.value == SlotRecord(flash.mem[..], g);
      assert Hit(flash.mem[..], g, q) == if rec.Some? && Matches(rec.value, q) then [rec.value] else [];
      if rec.Some? {
        var r := rec.value;
        if RawByte(r, 0) != 0xFF {
          if Timestamp(r) >= q.startTime && Timestamp(r) <= q.endTime {
            if q.logType == 0 || LogType(r) == q.logType {
              if |records| < bufferSize && |records| < q.maxRecords {
                records := records + [r];
              } else {
                full := true;
              }
            }
          }
        }
      }
    }

    /** DataLogger_EraseAll: erase every page, then zero logger_info; stop at the first failure. */
    method EraseAll() returns (status: u8)
      requires Valid()
      modifies this`info, flash.mem
      ensures Valid()
      ensures var k := FirstLockedFrom(flash.locked, 0);
        && (status == 0 <==> k == LOG_PAGES)
        && (status == 0 ==> info == ZERO_INFO)
        && (status != 0 ==> info == old(info))
        && (forall i :: 0 <= i < LOG_WORDS ==> flash.mem[i] == if i / Flash.WORDS_PER_PAGE < k then Flash.ERASED else old(flash.mem[i]))
    {
      var page := 0;
      while page < LOG_PAGES
        invariant 0 <= page <= LOG_PAGES
        invariant info == old(info)
        invariant FirstLockedFrom(flash.locked, 0) == FirstLockedFrom(flash.locked, page)
        invariant forall i :: 0 <= i < LOG_WORDS ==> flash.mem[i] == if i / Flash.WORDS_PER_PAGE < page then Flash.ERASED else old(flash.mem[i])
      {
        var ok := flash.ErasePage(page);
        if !ok {
          return 1;
        }
        page := page + 1;
      }
      info := ZERO_INFO;
      status := 0;
    }

    /**
     * DataLogger_GetDailyStats: query [date, date + 86400] for up to 100
     * records of any type, average the sensor fields and count operations.
     */
    method GetDailyStats(date: u32) returns (avgTemp: u8, avgHumi: u8, avgLight: u8, operations: u16)
      requires Valid()
      ensures var rs := QueryResult(flash.mem[..], info, LogQuery(date, Wrap32(date + 86400), 0, 100), 100);
        && avgTemp == Average(rs, 5) && avgHumi == Average(rs, 6) && avgLight == Average(rs, 7)
        && operations == OperationCount(rs)
        && |rs| <= 100
    {
      var records := Query(LogQuery(date, Wrap32(date + 86400), 0, 100), 100);
      var tempSum, humiSum, lightSum, sensorCount;
      tempSum, humiSum, lightSum, sensorCount, operations := Tally(records);
      AverageIsByte(records, 5);
      AverageIsByte(records, 6);
      AverageIsByte(records, 7);
      if sensorCount > 0 {
        avgTemp := tempSum / sensorCount;
        avgHumi := humiSum / sensorCount;
        avgLight := lightSum / sensorCount;
      } else {
        avgTemp, avgHumi, avgLight := 0, 0, 0;
      }
    }
  }
}
