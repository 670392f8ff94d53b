/**
 * The DHT11 temperature and humidity sensor of dht11.c: bytes assembled from the bits on
 * the data line, the five-byte frame with its checksum, the plausibility filter over
 * successive readings and the consecutive-error counter. The bit timing on the wire is
 * not modelled: the bits and the presence answer are inputs.
 */
module Dht11 {
  import opened Ints

  /** DHT11_Status_t. */
  const DHT11_OK := 0
  const DHT11_ERROR_TIMEOUT := 1
  const DHT11_ERROR_NO_RESPONSE := 2
  const DHT11_ERROR_INVALID_DATA := 3

  /** Bytes per frame: humidity, humidity fraction, temperature, temperature fraction, checksum. */
  const FRAME_LEN := 5

  /** The byte the shift-and-or loop builds from bits, first bit most significant. */
  function ShiftIn(bits: seq<bool>): nat
  {
    if |bits| == 0 then 0
    else 2 * ShiftIn(bits[..|bits| - 1]) + (if bits[|bits| - 1] then 1 else 0)
  }

  /** Σ bit_i·2^(n−1−i): the positional value of the bits, first bit most significant. */
  function Positional(bits: seq<bool>): nat
  {
    if |bits| == 0 then 0
    else (if bits[0] then Pow2(|bits| - 1) else 0) + Positional(bits[1..])
  }

  /** Shifting the bits in one by one gives their positional value. */
  lemma {:induction false} ShiftInIsPositional(bits: seq<bool>)
    ensures ShiftIn(bits) == Positional(bits)
    ensures ShiftIn(bits) < Pow2(|bits|)
  {
    if |bits| > 0 {
      var n := |bits|;
      var init := bits[..n - 1];
      ShiftInIsPositional(init);
      if n == 1 {
        assert bits[1..] == [];
      } else {
        ShiftInIsPositional(bits[1..]);
        assert bits[1..][..n - 2] == init[1..];
        ShiftInIsPositional(init[1..]);
        assert init[0] == bits[0];
        assert Positional(init) == (if bits[0] then Pow2(n - 2) else 0) + Positional(init[1..]);
        assert Positional(bits[1..]) == ShiftIn(bits[1..])
          == 2 * ShiftIn(init[1..]) + (if bits[n - 1] then 1 else 0);
      }
    }
  }

  /** The n bits of v, most significant first. */
  function BitsOf(v: nat, n: nat): (bits: seq<bool>)
    ensures |bits| == n
  {
    if n == 0 then [] else BitsOf(v / 2, n - 1) + [v % 2 == 1]
  }

  /** Splitting a byte into bits and shifting them back in gives the byte. */
  lemma {:induction false} BitsRoundTrip(v: nat, n: nat)
    requires v < Pow2(n)
    ensures ShiftIn(BitsOf(v, n)) == v
  {
    if n > 0 {
      BitsRoundTrip(v / 2, n - 1);
      assert BitsOf(v, n)[..n - 1] == BitsOf(v / 2, n - 1);
    }
  }

  /** Shifting bits in and splitting the result again gives the bits. */
  lemma {:induction false} ShiftInRoundTrip(bits: seq<bool>)
    ensures BitsOf(ShiftIn(bits), |bits|) == bits
  {
    if |bits| > 0 {
      var init := bits[..|bits| - 1];
      ShiftInRoundTrip(init);
      assert init + [bits[|bits| - 1]] == bits;
    }
  }

  /** DHT11_Read_Byte, given the eight bits DHT11_Read_Bit returns in turn. */
  method ReadByte(bits: seq<bool>) returns (dat: u8)
    requires |bits| == 8
    ensures dat == Positional(bits)
  {
    dat := 0;
    var i := 0;
    while i < 8
      invariant 0 <= i <= 8
      invariant dat == ShiftIn(bits[..i]) && dat < Pow2(i)
    {
      assert bits[..i + 1][..i] == bits[..i];
      if i + 1 < 8 {
        Pow2Increasing(i + 1, 8);
      }
      Pow2Widths();
      dat := Wrap8(dat * 2);
      if bits[i] {
        dat := dat + 1;
      }
      i := i + 1;
    }
    assert bits[..8] == bits;
    ShiftInIsPositional(bits);
  }

  /** Byte k of a 40-bit frame. */
  function ByteAt(bits: seq<bool>, k: int): nat
    requires |bits| == 8 * FRAME_LEN && 0 <= k < FRAME_LEN
  {
    Positional(bits[8 * k..8 * k + 8])
  }

  /** The five DHT11_Read_Byte calls of DHT11_Read_Data, given the 40 bits of a frame. */
  method ReadFrame(bits: seq<bool>) returns (buf: seq<u8>)
    requires |bits| == 8 * FRAME_LEN
    ensures |buf| == FRAME_LEN
    ensures forall k :: 0 <= k < FRAME_LEN ==> buf[k] == ByteAt(bits, k)
  {
    buf := [];
    var i := 0;
    while i < FRAME_LEN
      invariant 0 <= i <= FRAME_LEN && |buf| == i
      invariant forall k :: 0 <= k < i ==> buf[k] == ByteAt(bits, k)
    {
      var b := ReadByte(bits[8 * i..8 * i + 8]);
      buf := buf + [b];
      i := i + 1;
    }
  }

  /** The sum of the first four bytes, in int as C promotes u8 operands. */
  function DataSum(buf: seq<u8>): int
    requires |buf| == FRAME_LEN
  {
    buf[0] as int + buf[1] as int + buf[2] as int + buf[3] as int
  }

  /** The checksum test of DHT11_Read_Data. */
  predicate ChecksumOk(buf: seq<u8>)
    requires |buf| == FRAME_LEN
  {
    DataSum(buf) == buf[4]
  }

  /** What DHT11_Read_Data returns and leaves in *temp and *humi. */
  datatype Reading = Reading(status: int, temp: u8, humi: u8)

  /**
   * DHT11_Read_Data as written, for a presence answer, the frame read and the values the
   * caller's variables held before the call: a frame whose checksum fails still reports
   * success, leaving the caller's variables as they were.
   */
  function ReadDataAsWritten(present: bool, buf: seq<u8>, temp: u8, humi: u8): (r: Reading)
    requires |buf| == FRAME_LEN
  {
    if !present then Reading(1, temp, humi)
    else if ChecksumOk(buf) then Reading(0, buf[2], buf[0])
    else Reading(0, temp, humi)
  }

  /**
   * A corrupted frame is reported as a good reading: the caller then takes the contents
   * of its own uninitialised variables for a measurement.
   */
  lemma CorruptFrameReportedGood(temp: u8, humi: u8)
    ensures !ChecksumOk([60, 0, 25, 0, 0])
    ensures ReadDataAsWritten(true, [60, 0, 25, 0, 0], temp, humi) == Reading(0, temp, humi)
  {
  }

  /** DHT11_Read_Data as intended: a frame that fails its checksum is a failed read. */
  function ReadData(present: bool, buf: seq<u8>, temp: u8, humi: u8): (r: Reading)
    requires |buf| == FRAME_LEN
  {
    if present && ChecksumOk(buf) then Reading(0, buf[2], buf[0]) else Reading(1, temp, humi)
  }

  /**
   * The corrected read succeeds exactly for a present sensor and a matching checksum; a
   * success carries the integer bytes of the frame, a failure leaves the outputs alone.
   * It agrees with the code as written except on frames whose checksum fails.
   */
  lemma ReadDataMeaning(present: bool, buf: seq<u8>, temp: u8, humi: u8)
    requires |buf| == FRAME_LEN
    ensures var r := ReadData(present, buf, temp, humi);
      (r.status == 0 <==> present && ChecksumOk(buf))
      && (r.status == 0 ==> r.temp == buf[2] && r.humi == buf[0])
      && (r.status != 0 ==> r.temp == temp && r.humi == humi)
    ensures !present || ChecksumOk(buf) ==>
      ReadData(present, buf, temp, humi) == ReadDataAsWritten(present, buf, temp, humi)
  {
  }

  /**
   * The checksum is compared as an integer, not modulo 256: a frame whose first four
   * bytes sum to 256 or more is never accepted, even when its last byte is the sum's
   * low byte as the sensor sends it.
   */
  lemma WideSumRejected(buf: seq<u8>)
    requires |buf| == FRAME_LEN && DataSum(buf) >= 256
    ensures !ChecksumOk(buf)
    ensures ReadData(true, buf, 0, 0).status == 1
  {
  }

  /** The fraction bytes matter only through the checksum. */
  lemma FractionsIgnored(buf: seq<u8>, f1: u8, f3: u8, temp: u8, humi: u8)
    requires |buf| == FRAME_LEN && ChecksumOk(buf) && ChecksumOk(buf[1 := f1][3 := f3])
    ensures ReadData(true, buf[1 := f1][3 := f3], temp, humi) == ReadData(true, buf, temp, humi)
  {
  }

  /** The sensor's specified range: 0..50 °C and 20..90 %RH. */
  predicate InRange(temp: u8, humi: u8)
  {
    temp <= 50 && 20 <= humi <= 90
  }

  function Abs(x: int): nat
  {
    if x < 0 then -x else x
  }

  /** The statics of DHT11_Validate_Data. */
  datatype Filter = Filter(lastTemp: u8, lastHumi: u8, firstRead: bool)

  /** The statics before the first call. */
  const INITIAL_FILTER := Filter(25, 50, true)

  /** The last accepted reading is within the specified range. */
  predicate FilterOk(f: Filter)
  {
    InRange(f.lastTemp, f.lastHumi)
  }

  /**
   * One DHT11_Validate_Data call: whether the reading is accepted, and the new statics.
   * A reading is accepted when it is in range and, after the first accepted one, within
   * 10 °C and 20 %RH of the last accepted reading.
   */
  function Validate(f: Filter, temp: u8, humi: u8): (r: (bool, Filter))
    requires FilterOk(f)
    ensures FilterOk(r.1)
    ensures r.0 <==> (InRange(temp, humi)
      && (!f.firstRead ==> Abs(temp - f.lastTemp) <= 10 && Abs(humi - f.lastHumi) <= 20))
    ensures r.0 ==> r.1 == Filter(temp, humi, false)
    ensures !r.0 ==> r.1 == f
  {
    if temp > 50 || humi > 90 || humi < 20 then (false, f)
    else if !f.firstRead && (Abs(temp - f.lastTemp) > 10 || Abs(humi - f.lastHumi) > 20) then (false, f)
    else (true, Filter(temp, humi, false))
  }

  /** The statics after a run of readings. */
  function ValidateAll(f: Filter, readings: seq<(u8, u8)>): (r: Filter)
    requires FilterOk(f)
    ensures FilterOk(r)
    decreases |readings|
  {
    if |readings| == 0 then f
    else ValidateAll(Validate(f, readings[0].0, readings[0].1).1, readings[1..])
  }

  /**
   * A real change of more than 10 °C is never followed: once the statics hold an
   * accepted reading, the new temperature is rejected however often it is read.
   */
  lemma {:induction false} JumpLockedOut(f: Filter, temp: u8, humi: u8, n: nat)
    requires FilterOk(f) && !f.firstRead && Abs(temp - f.lastTemp) > 10
    ensures ValidateAll(f, seq(n, _ => (temp, humi))) == f
  {
    if n > 0 {
      var rs := seq(n, _ => (temp, humi));
      assert rs[1..] == seq(n - 1, _ => (temp, humi));
      JumpLockedOut(f, temp, humi, n - 1);
    }
  }

  /** The first in-range reading is always accepted. */
  lemma FirstInRangeAccepted(temp: u8, humi: u8)
    requires InRange(temp, humi)
    ensures Validate(INITIAL_FILTER, temp, humi) == (true, Filter(temp, humi, false))
  {
  }

  /** DHT11_Validate_Data with its static variables as fields. */
  class Validator {
    var lastTemp: u8
    var lastHumi: u8
    var firstRead: bool

    function State(): Filter
      reads this
    {
      Filter(lastTemp, lastHumi, firstRead)
    }

    constructor ()
      ensures State() == INITIAL_FILTER && FilterOk(State())
    {
      lastTemp, lastHumi, firstRead := 25, 50, true;
    }

    method Check(temp: u8, humi: u8) returns (ok: bool)
      requires FilterOk(State())
      modifies this
      ensures (ok, State()) == Validate(old(State()), temp, humi)
    {
      if temp > 50 || humi > 90 || humi < 20 {
        return false;
      }
      if !firstRead {
        if Abs(temp - lastTemp) > 10 || Abs(humi - lastHumi) > 20 {
          return false;
        }
      }
      lastTemp := temp;
      lastHumi := humi;
      firstRead := false;
      return true;
    }
  }

  /** Consecutive failures after which the filter is reset. */
  const ERROR_LIMIT := 5

  /**
   * One update of consecutive_errors in DHT11_Update_With_Retry: the new count and
   * whether the filter is reset.
   */
  function CountErrors(errors: u8, ok: bool): (r: (u8, bool))
  {
    var e := if ok then 0 else Wrap8(errors + 1);
    if e >= ERROR_LIMIT then (0, true) else (e, false)
  }

  /** The count and the last reset flag after n failures in a row from count c. */
  function Failures(c: u8, n: nat): (r: (u8, bool))
  {
    if n == 0 then (c, false) else CountErrors(Failures(c, n - 1).0, false)
  }

  /**
   * From a cleared count, the n-th failure in a row leaves n mod 5 and resets the
   * filter exactly when n is a multiple of 5; a success clears the count.
   */
  lemma {:induction false} EveryFifthFailureResets(n: nat)
    ensures Failures(0, n).0 == n % ERROR_LIMIT
    ensures n > 0 ==> (Failures(0, n).1 <==> n % ERROR_LIMIT == 0)
    ensures CountErrors(Failures(0, n).0, true) == (0, false)
  {
    if n > 0 {
      EveryFifthFailureResets(n - 1);
    }
  }

  /** The static consecutive_errors of DHT11_Update_With_Retry. */
  class ErrorCounter {
    var errors: u8

    constructor ()
      ensures errors == 0
    {
      errors := 0;
    }

    /** Records the status of one enhanced read; returns whether the filter was reset. */
    method Record(status: int) returns (resetFilter: bool)
      modifies this
      ensures (errors, resetFilter) == CountErrors(old(errors), status == DHT11_OK)
      ensures errors < ERROR_LIMIT
    {
      if status == DHT11_OK {
        errors := 0;
      } else {
        errors := Wrap8(errors + 1);
      }
      resetFilter := false;
      if errors >= ERROR_LIMIT {
        resetFilter := true;
        errors := 0;
      }
    }
  }
}
