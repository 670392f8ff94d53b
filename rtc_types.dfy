/** The clock and timer records declared in rtc.h, shared by both clock implementations. */
module RtcTypes {
  import opened Ints

  /** RTC_Time_t: a calendar date and time of day, plus a weekday number. */
  datatype Time = Time(year: u16, month: u8, date: u8, hour: u8, min: u8, sec: u8, week: u8)

  /**
   * RTC_Timer_t: a time-of-day task. The callback is a function pointer; here it is a
   * number naming the function, 0 standing for the null pointer.
   */
  datatype Timer = Timer(enable: u8, hour: u8, min: u8, repeatType: u8, weekMask: u8, callback: nat)

  /** A zero-filled timer slot (what memset leaves behind). */
  const EMPTY_TIMER := Timer(0, 0, 0, 0, 0, 0)

  /** Repeat types. */
  const TIMER_ONCE: u8 := 0
  const TIMER_DAILY: u8 := 1
  const TIMER_WEEKLY: u8 := 2

  /** Weekday mask bits, Monday first. */
  const WEEK_MON: u8 := 0x01
  const WEEK_TUE: u8 := 0x02
  const WEEK_WED: u8 := 0x04
  const WEEK_THU: u8 := 0x08
  const WEEK_FRI: u8 := 0x10
  const WEEK_SAT: u8 := 0x20
  const WEEK_SUN: u8 := 0x40

  /** The mask constants in Monday-to-Sunday order. */
  const WEEK_MASKS: seq<u8> := [WEEK_MON, WEEK_TUE, WEEK_WED, WEEK_THU, WEEK_FRI, WEEK_SAT, WEEK_SUN]

  /**
   * The weekly test `week_mask & (1 << (week - 1))` on a u8 mask: shifts of 8 or more
   * select a bit the mask does not have; week 0 (a negative shift) selects nothing.
   */
  predicate WeekSelected(mask: u8, week: u8)
  {
    1 <= week <= 8 && (mask as bv8) & ((1 as bv8) << (week - 1)) != 0
  }

  /**
   * Each mask constant is the single bit 1 << k for the k-th day of the week, so the
   * weekly test with a weekday number w selects exactly the mask constant WEEK_MASKS[w - 1].
   */
  lemma WeekMaskBits(k: nat, w: u8)
    requires k < 7 && 1 <= w <= 7
    ensures WeekSelected(WEEK_MASKS[k], w) <==> w as int == k + 1
  {
  }
}
