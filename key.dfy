/**
 * The key scanner of key.c: four keys (KEY_UP active high, KEY0..KEY2 active low)
 * and a static key_up flag that arms the scanner until a press is reported.
 */
module Key {
  import opened Ints

  /** Key codes returned by KEY_Scan. */
  const KEY_NONE := 0
  const KEY_UP_PRESS := 1
  const KEY0_PRESS := 2
  const KEY1_PRESS := 3
  const KEY2_PRESS := 4

  /** The four pin levels read at one moment (true = high). */
  datatype Pins = Pins(up: bool, key0: bool, key1: bool, key2: bool)

  /** A key is active when KEY_UP reads high or one of KEY0..KEY2 reads low. */
  predicate AnyActive(p: Pins)
  {
    p.up || !p.key0 || !p.key1 || !p.key2
  }

  /** All four keys read released. */
  predicate AllReleased(p: Pins)
  {
    !p.up && p.key0 && p.key1 && p.key2
  }

  /** The code reported for the levels read after the debounce delay, by fixed priority. */
  function Priority(p: Pins): (code: int)
    ensures code == KEY_NONE <==> !AnyActive(p)
    ensures p.up ==> code == KEY_UP_PRESS
    ensures !p.up && !p.key0 ==> code == KEY0_PRESS
    ensures code == KEY2_PRESS ==> !p.key2 && p.key1 && p.key0 && !p.up
  {
    if p.up then KEY_UP_PRESS
    else if !p.key0 then KEY0_PRESS
    else if !p.key1 then KEY1_PRESS
    else if !p.key2 then KEY2_PRESS
    else KEY_NONE
  }

  /** No key is active exactly when all keys are released. */
  lemma ReleasedIsInactive(p: Pins)
    ensures AllReleased(p) <==> !AnyActive(p)
  {
  }

  /**
   * One KEY_Scan: the flag and the levels read first decide the branch, the levels
   * read after the debounce delay decide the code. Returns (code, new key_up).
   */
  function ScanStep(armed: bool, mode: u8, first: Pins, later: Pins): (r: (int, bool))
    ensures (armed || mode != 0) && AnyActive(first) ==> r == (Priority(later), false)
    ensures r.0 != KEY_NONE ==> (armed || mode != 0) && AnyActive(first) && !r.1
    ensures !(armed || mode != 0) ==> r.0 == KEY_NONE && (r.1 <==> AllReleased(first))
    ensures (armed || mode != 0) && !AnyActive(first) ==> r == (KEY_NONE, true)
  {
    var armed' := mode != 0 || armed;
    if armed' && AnyActive(first) then (Priority(later), false)
    else if AllReleased(first) then (KEY_NONE, true)
    else (KEY_NONE, armed')
  }

  /** Scans in mode 0 over a sequence of (first, later) readings: the codes returned. */
  function Codes(armed: bool, scans: seq<(Pins, Pins)>): (codes: seq<int>)
    ensures |codes| == |scans|
    decreases |scans|
  {
    if |scans| == 0 then []
    else
      var r := ScanStep(armed, 0, scans[0].0, scans[0].1);
      [r.0] + Codes(r.1, scans[1..])
  }

  /**
   * In mode 0 a held key is reported at most once: after a report, every scan returns
   * KEY_NONE until one reads all keys released.
   */
  lemma {:induction false} NoRepeatWhileHeld(scans: seq<(Pins, Pins)>)
    requires forall i :: 0 <= i < |scans| ==> !AllReleased(scans[i].0)
    ensures forall i :: 0 <= i < |scans| ==> Codes(false, scans)[i] == KEY_NONE
  {
    if |scans| > 0 {
      NoRepeatWhileHeld(scans[1..]);
      assert forall i :: 1 <= i < |scans| ==> Codes(false, scans)[i] == Codes(false, scans[1..])[i - 1];
    }
  }

  /**
   * A press seen first but gone after the debounce delay is not reported, yet the
   * scanner stays disarmed.
   */
  lemma BouncedPressDisarms(first: Pins, later: Pins)
    requires AnyActive(first) && AllReleased(later)
    ensures ScanStep(true, 0, first, later) == (KEY_NONE, false)
  {
  }

  /** The static key_up flag of KEY_Scan. */
  class Scanner {
    var armed: bool

    constructor ()
      ensures armed
    {
      armed := true;
    }

    /** KEY_Scan(mode), given the levels read before and after the debounce delay. */
    method Scan(mode: u8, first: Pins, later: Pins) returns (code: int)
      modifies this
      ensures (code, armed) == ScanStep(old(armed), mode, first, later)
    {
      if mode != 0 {
        armed := true;
      }
      if armed && (first.up || !first.key0 || !first.key1 || !first.key2) {
        armed := false;
        if later.up {
          return KEY_UP_PRESS;
        } else if !later.key0 {
          return KEY0_PRESS;
        } else if !later.key1 {
          return KEY1_PRESS;
        } else if !later.key2 {
          return KEY2_PRESS;
        }
      } else if !first.up && first.key0 && first.key1 && first.key2 {
        armed := true;
      }
      return KEY_NONE;
    }
  }
}
