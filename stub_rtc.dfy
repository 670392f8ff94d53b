/**
 * The software clock of missing_functions_stub.c: a one-second tick with cascading
 * carries, the Kim Larsen weekday formula and an eight-slot time-of-day scheduler.
 */
module StubRtc {
  import opened Ints
  import opened Wrappers
  import opened RtcTypes
  import Calendar

  /** The clock's start value: 2025-07-11 12:00:00, labelled weekday 5. */
  const INITIAL_TIME := Time(2025, 7, 11, 12, 0, 0, 5)

  /** Month lengths of a common year. */
  const MONTH_DAYS: seq<u8> := [31, 28, 31, 30, 31, 30, 31, 31, 30, 31, 30, 31]

  /** Number of timer slots. */
  const MAX_TIMERS := 8

  /** RTC_Is_Leap_Year. */
  function IsLeapYear(year: u16): (leap: bool)
    ensures leap <==> Calendar.GregorianLeap(year)
  {
    (year % 4 == 0 && year % 100 != 0) || year % 400 == 0
  }

  /** RTC_Get_Month_Days: the table entry, 29 for a leap February, 0 for a month outside 1..12. */
  function MonthDays(year: u16, month: u8): (days: u8)
    ensures 1 <= month <= 12 ==> days as int == Calendar.MonthLength(year, month)
    ensures !(1 <= month <= 12) ==> days == 0
  {
    if month < 1 || month > 12 then 0
    else if month == 2 && IsLeapYear(year) then 29
    else MONTH_DAYS[month - 1]
  }

  /**
   * The Kim Larsen sum of RTC_Get_Week: January and February count as months 13 and 14
   * of the previous year (the u16 year wraps below 0).
   */
  function KimLarsenSum(t: Time): (sum: int)
    ensures 0 <= sum
  {
    var year: int := if t.month < 3 then Wrap16(t.year as int - 1) else t.year as int;
    var month: int := if t.month < 3 then t.month as int + 12 else t.month as int;
    t.date as int + 2 * month + 3 * (month + 1) / 5 + year + year / 4 - year / 100 + year / 400
  }

  /** RTC_Get_Week: the Kim Larsen value with 0 mapped to 7. */
  function Week(t: Time): (week: u8)
    ensures 1 <= week <= 7
  {
    WeekNumber(KimLarsenSum(t))
  }

  /** A weekday sum taken mod 7, with 0 reported as 7. */
  function WeekNumber(sum: int): (week: u8)
    ensures 1 <= week <= 7
    ensures week as int % 7 == sum % 7
  {
    var w := sum % 7;
    if w == 0 then 7 else w
  }

  /** The next sum's number follows the week % 7 + 1 cycle. */
  lemma WeekNumberStep(a: int, b: int)
    requires b % 7 == (a % 7 + 1) % 7
    ensures WeekNumber(b) as int == WeekNumber(a) as int % 7 + 1
  {
  }

  /**
   * The stub's sum is Kim Larsen's, and so the true weekday counted from Monday = 0,
   * for every month 1..12 of a year from 1 on (and from March of year 0).
   */
  lemma KimLarsenIsWeekday(t: Time)
    requires 1 <= t.month <= 12 && (1 <= t.year || 3 <= t.month)
    ensures KimLarsenSum(t) % 7 == Calendar.Weekday(t.year, t.month, t.date)
  {
    assert KimLarsenSum(t) == Calendar.KimLarsen(t.year, t.month, t.date);
    Calendar.KimLarsenWeekday(t.year, t.month, t.date);
  }

  /**
   * The weekday numbering Get_Week produces: Tuesday = 1 .. Sunday = 6, Monday = 7
   * (the Kim Larsen Monday = 0 mapped to 7).
   */
  lemma WeekNumbering(t: Time)
    requires 1 <= t.month <= 12 && (1 <= t.year || 3 <= t.month)
    ensures Week(t) as int == (if Calendar.Weekday(t.year, t.month, t.date) == 0 then 7
                               else Calendar.Weekday(t.year, t.month, t.date))
  {
    KimLarsenIsWeekday(t);
  }

  /**
   * 2025-07-11 is a Friday (weekday 4 from Monday = 0): Get_Week gives it 4 while the
   * clock's initial value labels it 5.
   */
  lemma InitialWeekMislabelled()
    ensures Calendar.Weekday(2025, 7, 11) == 4
    ensures Week(INITIAL_TIME) == 4 && INITIAL_TIME.week == 5
  {
    KimLarsenIsWeekday(INITIAL_TIME);
  }

  /**
   * With Get_Week's numbering, the weekly test for WEEK_MON (bit 0) passes on Tuesdays
   * and on no other day, and on a Monday the bit tested is WEEK_SUN's.
   */
  lemma MondayMaskFiresOnTuesday(t: Time)
    requires Calendar.ValidDate(t.year, t.month, t.date) && (1 <= t.year || 3 <= t.month)
    ensures WeekSelected(WEEK_MON, Week(t)) <==> Calendar.Weekday(t.year, t.month, t.date) == 1
    ensures Calendar.Weekday(t.year, t.month, t.date) == 0 ==> WeekSelected(WEEK_SUN, Week(t))
  {
    WeekNumbering(t);
    WeekMaskBits(0, Week(t));
    WeekMaskBits(6, Week(t));
  }

  /** A date and time the clock can legitimately hold. */
  predicate ValidTime(t: Time)
  {
    Calendar.ValidDate(t.year, t.month, t.date) && t.hour < 24 && t.min < 60 && t.sec < 60
    && 1 <= t.week <= 7
  }

  /** Seconds since 0000-01-01 00:00:00. */
  function Seconds(t: Time): int
    requires 1 <= t.month <= 12
  {
    Calendar.DayNumber(t.year, t.month, t.date) * 86400 + t.hour as int * 3600 + t.min as int * 60 + t.sec as int
  }

  /**
   * The clock after one RTC_Process_Interrupt: every field is a C u8 (the year a u16)
   * incremented with wrap-around; month ends come from MonthDays, and the weekday
   * advances as week % 7 + 1 at midnight.
   */
  function Tick(t: Time): Time
  {
    var sec := Wrap8(t.sec as int + 1);
    if sec < 60 then t.(sec := sec)
    else
      var min := Wrap8(t.min as int + 1);
      if min < 60 then t.(sec := 0, min := min)
      else
        var hour := Wrap8(t.hour as int + 1);
        if hour < 24 then t.(sec := 0, min := 0, hour := hour)
        else
          var date := Wrap8(t.date as int + 1);
          var week := Wrap8(t.week as int % 7 + 1);
          if date <= MonthDays(t.year, t.month) then
            t.(sec := 0, min := 0, hour := 0, date := date, week := week)
          else
            var month := Wrap8(t.month as int + 1);
            if month <= 12 then
              t.(sec := 0, min := 0, hour := 0, date := 1, month := month, week := week)
            else
              Time(Wrap16(t.year as int + 1), 1, 1, 0, 0, 0, week)
  }

  /** The tick keeps a valid clock valid (the year wraps from 65535 to 0). */
  lemma TickKeepsValid(t: Time)
    requires ValidTime(t)
    ensures ValidTime(Tick(t))
  {
  }

  /** Away from the u16 year limit, the tick advances the clock by exactly one second. */
  lemma TickIsNextSecond(t: Time)
    requires ValidTime(t) && t.year < 0xFFFF
    ensures Seconds(Tick(t)) == Seconds(t) + 1
  {
    var n := Tick(t);
    if t.sec == 59 && t.min == 59 && t.hour == 23 {
      TickNextDate(t);
      var d := Calendar.DayNumber(t.year, t.month, t.date);
      assert Seconds(n) == (d + 1) * 86400;
      assert Seconds(t) == d * 86400 + 86399;
    } else {
      assert n.year == t.year && n.month == t.month && n.date == t.date;
    }
  }

  /** Past 23:59:59 the tick moves to midnight of the next calendar day. */
  lemma TickNextDate(t: Time)
    requires ValidTime(t) && t.year < 0xFFFF && t.sec == 59 && t.min == 59 && t.hour == 23
    ensures var n := Tick(t);
      1 <= n.month <= 12 && n.hour == 0 && n.min == 0 && n.sec == 0
      && n.week as int == t.week as int % 7 + 1
      && Calendar.DayNumber(n.year, n.month, n.date) == Calendar.DayNumber(t.year, t.month, t.date) + 1
  {
    var n := Tick(t);
    Calendar.NextDay(t.year, t.month, t.date);
    if t.date < MonthDays(t.year, t.month) {
      assert n.year == t.year && n.month == t.month && n.date == t.date + 1;
    } else if t.month < 12 {
      assert n.year == t.year && n.month == t.month + 1 && n.date == 1;
    } else {
      assert n.year == t.year + 1 && n.month == 1 && n.date == 1;
    }
  }

  /** The tick either keeps the date and weekday or moves both to the next day. */
  lemma TickDay(t: Time)
    requires ValidTime(t) && t.year < 0xFFFF
    ensures var n := Tick(t);
      || (n.year == t.year && n.month == t.month && n.date == t.date && n.week == t.week)
      || (Calendar.DayNumber(n.year, n.month, n.date) == Calendar.DayNumber(t.year, t.month, t.date) + 1
          && n.week as int == t.week as int % 7 + 1)
  {
    var n := Tick(t);
    if t.sec == 59 && t.min == 59 && t.hour == 23 {
      TickNextDate(t);
    } else {
      assert n.year == t.year && n.month == t.month && n.date == t.date && n.week == t.week;
    }
  }

  /** Get_Week's numbers of consecutive days follow the week % 7 + 1 cycle. */
  lemma WeekSuccessor(t: Time, n: Time)
    requires 1 <= t.month <= 12 && 1 <= n.month <= 12 && 1 <= t.year && 1 <= n.year
    requires Calendar.DayNumber(n.year, n.month, n.date) == Calendar.DayNumber(t.year, t.month, t.date) + 1
    ensures Week(n) as int == Week(t) as int % 7 + 1
  {
    KimLarsenStep(t, n);
    WeekNumberStep(KimLarsenSum(t), KimLarsenSum(n));
  }

  lemma KimLarsenStep(t: Time, n: Time)
    requires 1 <= t.month <= 12 && 1 <= n.month <= 12 && 1 <= t.year && 1 <= n.year
    requires Calendar.DayNumber(n.year, n.month, n.date) == Calendar.DayNumber(t.year, t.month, t.date) + 1
    ensures KimLarsenSum(n) % 7 == (KimLarsenSum(t) % 7 + 1) % 7
  {
    KimLarsenIsWeekday(t);
    KimLarsenIsWeekday(n);
    Calendar.WeekdayNext(t.year, t.month, t.date, n.year, n.month, n.date);
  }

  /** Week depends on the date only. */
  lemma WeekOfDate(t: Time, n: Time)
    requires n.year == t.year && n.month == t.month && n.date == t.date
    ensures Week(n) == Week(t)
  {
  }

  /** At midnight the week % 7 + 1 step agrees with Get_Week on the new date. */
  lemma TickKeepsWeek(t: Time)
    requires ValidTime(t) && 1 <= t.year < 0xFFFF && t.week == Week(t)
    ensures Tick(t).week == Week(Tick(t))
  {
    var n := Tick(t);
    TickKeepsValid(t);
    TickDay(t);
    if n.year == t.year && n.month == t.month && n.date == t.date && n.week == t.week {
      WeekOfDate(t, n);
    } else {
      WeekSuccessor(t, n);
    }
  }

  /** A timer slot's time-of-day matches the clock at the start of a minute. */
  predicate Due(tm: Timer, now: Time)
  {
    tm.enable != 0 && tm.hour == now.hour && tm.min == now.min && now.sec == 0
  }

  /** RTC_Timer_Check's decision for one slot: once, daily, or weekly when the mask selects today. */
  predicate Triggers(tm: Timer, now: Time)
  {
    Due(tm, now)
    && (tm.repeatType == TIMER_ONCE || tm.repeatType == TIMER_DAILY
        || (tm.repeatType == TIMER_WEEKLY && WeekSelected(tm.weekMask, now.week)))
  }

  /** A one-shot slot that came due is disabled, whether or not it has a callback. */
  function Checked(tm: Timer, now: Time): Timer
  {
    if Due(tm, now) && tm.repeatType == TIMER_ONCE then tm.(enable := 0) else tm
  }

  /** The callbacks one check invokes, in slot order (null callbacks are skipped). */
  function Callbacks(ts: seq<Timer>, now: Time): (cbs: seq<nat>)
    ensures |cbs| <= |ts|
    ensures forall c :: c in cbs ==> c != 0
  {
    if ts == [] then []
    else
      var last := ts[|ts| - 1];
      Callbacks(ts[..|ts| - 1], now) + (if Triggers(last, now) && last.callback != 0 then [last.callback] else [])
  }

  /** A fired one-shot timer never fires again. */
  lemma OneShotFiresOnce(tm: Timer, now: Time, later: Time)
    requires tm.repeatType == TIMER_ONCE && Triggers(tm, now)
    ensures !Triggers(Checked(tm, now), later)
  {
  }

  /** A daily timer is left as it is and fires on every due minute. */
  lemma DailyFiresEveryDay(tm: Timer, now: Time, later: Time)
    requires tm.repeatType == TIMER_DAILY
    ensures Checked(tm, now) == tm
    ensures Triggers(Checked(tm, now), later) <==> Due(tm, later)
  {
  }

  /** Repeat types other than once, daily and weekly never fire and are never disabled. */
  lemma UnknownTypeNeverFires(tm: Timer, now: Time)
    requires tm.repeatType > TIMER_WEEKLY
    ensures !Triggers(tm, now) && Checked(tm, now) == tm
  {
  }

  /** No callback fires in a second that does not start a minute. */
  lemma {:induction false} QuietInsideMinute(ts: seq<Timer>, now: Time)
    requires now.sec != 0
    ensures Callbacks(ts, now) == []
  {
    if ts != [] {
      QuietInsideMinute(ts[..|ts| - 1], now);
    }
  }

  /** The test RTC_Timer_Check makes of one slot: whether its callback runs and what the slot becomes. */
  method CheckSlot(tm: Timer, now: Time) returns (fire: bool, next: Timer)
    ensures fire <==> Triggers(tm, now) && tm.callback != 0
    ensures next == Checked(tm, now)
  {
    next := tm;
    var trigger := false;
    if tm.enable != 0 && tm.hour == now.hour && tm.min == now.min && now.sec == 0 {
      if tm.repeatType == TIMER_ONCE {
        trigger := true;
        next := tm.(enable := 0);
      } else if tm.repeatType == TIMER_DAILY {
        trigger := true;
      } else if tm.repeatType == TIMER_WEEKLY {
        if WeekSelected(tm.weekMask, now.week) {
          trigger := true;
        }
      }
    }
    fire := trigger && tm.callback != 0;
  }

  /** The clock, its timer table and the record of callbacks invoked. */
  class Clock {
    /** current_time */
    var now: Time
    /** timers[8] */
    const timers: array<Timer>
    /** timer_count */
    var count: nat
    /** The callbacks invoked so far, in order. */
    var calls: seq<nat>

    ghost predicate Valid()
      reads this
    {
      timers.Length == MAX_TIMERS && count <= MAX_TIMERS
    }

    constructor ()
      ensures Valid() && fresh(timers)
      ensures now == INITIAL_TIME && count == 0 && calls == []
      ensures timers[..] == seq(MAX_TIMERS, _ => EMPTY_TIMER)
    {
      now := INITIAL_TIME;
      timers := new Timer[MAX_TIMERS](_ => EMPTY_TIMER);
      count := 0;
      calls := [];
    }

    /** RTC_Init: clears the timer table; the time is kept. */
    method Init() returns (status: u8)
      requires Valid()
      modifies this`count, timers
      ensures Valid() && status == 0
      ensures now == old(now) && count == 0 && calls == old(calls)
      ensures timers[..] == seq(MAX_TIMERS, _ => EMPTY_TIMER)
    {
      var i := 0;
      while i < MAX_TIMERS
        invariant 0 <= i <= MAX_TIMERS
        invariant forall k :: 0 <= k < i ==> timers[k] == EMPTY_TIMER
      {
        timers[i] := EMPTY_TIMER;
        i := i + 1;
      }
      count := 0;
      status := 0;
    }

    /** RTC_Set_Time: copies the given time (none: a null pointer) and recomputes its weekday. */
    method SetTime(time: Option<Time>)
      modifies this`now
      ensures now == if time.None? then old(now) else time.value.(week := Week(time.value))
    {
      if time.Some? {
        now := time.value;
        now := now.(week := Week(now));
      }
    }

    /** RTC_Get_Time. */
    method GetTime() returns (time: Time)
      ensures time == now
    {
      time := now;
    }

    /** RTC_Timer_Add: appends at index count unless the pointer is null or the table is full. */
    method TimerAdd(timer: Option<Timer>) returns (status: u8)
      requires Valid()
      modifies this`count, timers
      ensures Valid()
      ensures status == 0 <==> timer.Some? && old(count) < MAX_TIMERS
      ensures status != 0 ==> status == 1 && count == old(count) && timers[..] == old(timers[..])
      ensures status == 0 ==> count == old(count) + 1 && timers[..] == old(timers[..])[old(count) := timer.value]
    {
      if timer.None? || count >= MAX_TIMERS {
        return 1;
      }
      timers[count] := timer.value;
      count := count + 1;
      status := 0;
    }

    /** RTC_Timer_Check: fires the due slots and disables the one-shot ones. */
    method TimerCheck()
      requires Valid()
      modifies timers, this`calls
      ensures forall k :: 0 <= k < count ==> timers[k] == Checked(old(timers[k]), now)
      ensures forall k :: count <= k < timers.Length ==> timers[k] == old(timers[k])
      ensures calls == old(calls) + Callbacks(old(timers[..count]), now)
    {
      ghost var slots := old(timers[..count]);
      var at := now;
      var i := 0;
      while i < count
        invariant 0 <= i <= count
        invariant forall k :: 0 <= k < i ==> timers[k] == Checked(old(timers[k]), at)
        invariant forall k :: i <= k < timers.Length ==> timers[k] == old(timers[k])
        invariant calls == old(calls) + Callbacks(slots[..i], at)
      {
        var tm := timers[i];
        assert tm == slots[i] && slots[..i + 1][..i] == slots[..i];
        var fire, next := CheckSlot(tm, at);
        timers[i] := next;
        if fire {
          calls := calls + [tm.callback];
        }
        i := i + 1;
      }
      assert slots[..count] == slots;
    }

    /**
     * RTC_Process_Interrupt: one tick; when the seconds carry into the minutes, the
     * timers are checked against the new time.
     */
    method ProcessInterrupt()
      requires Valid()
      modifies this`now, this`calls, timers
      ensures now == Tick(old(now))
      ensures Wrap8(old(now).sec as int + 1) < 60 ==> calls == old(calls) && timers[..] == old(timers[..])
      ensures Wrap8(old(now).sec as int + 1) >= 60 ==>
        calls == old(calls) + Callbacks(old(timers[..count]), now)
        && (forall k :: 0 <= k < count ==> timers[k] == Checked(old(timers[k]), now))
        && (forall k :: count <= k < timers.Length ==> timers[k] == old(timers[k]))
    {
      now := now.(sec := Wrap8(now.sec as int + 1));
      if now.sec >= 60 {
        now := now.(sec := 0, min := Wrap8(now.min as int + 1));
        if now.min >= 60 {
          now := now.(min := 0, hour := Wrap8(now.hour as int + 1));
          if now.hour >= 24 {
            now := now.(hour := 0, date := Wrap8(now.date as int + 1), week := Wrap8(now.week as int % 7 + 1));
            var maxDays := MonthDays(now.year, now.month);
            if now.date > maxDays {
              now := now.(date := 1, month := Wrap8(now.month as int + 1));
              if now.month > 12 {
                now := now.(month := 1, year := Wrap16(now.year as int + 1));
              }
            }
          }
        }
        TimerCheck();
      }
    }
  }
}
