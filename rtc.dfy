/**
 * The hardware clock driver of rtc.c: a seconds-since-1970 counter converted to and
 * from a calendar time, a Zeller-style weekday, an alarm a given time of day ahead,
 * and an eight-slot timer table with removal by shifting.
 */
module Rtc {
  import opened Ints
  import opened RtcTypes
  import Calendar

  /** Month lengths of a common year. */
  const MONTH_DAYS: seq<u8> := [31, 28, 31, 30, 31, 30, 31, 31, 30, 31, 30, 31]

  const MAX_TIMERS := 8
  const EPOCH_YEAR := 1970
  const DAY_SECONDS := 86400
  const LEAP_YEAR_SECONDS := 31622400
  const COMMON_YEAR_SECONDS := 31536000

  /** RTC_Is_Leap_Year. */
  function IsLeapYear(year: u16): (leap: bool)
    ensures leap <==> Calendar.GregorianLeap(year)
  {
    if year % 4 == 0 then
      if year % 100 == 0 then year % 400 == 0 else true
    else false
  }

  /** RTC_Get_Month_Days: a table lookup with no range check, so month must be 1..12. */
  function MonthDays(year: u16, month: u8): (days: u8)
    requires 1 <= month <= 12
    ensures days as int == Calendar.MonthLength(year, month)
  {
    if month == 2 && IsLeapYear(year) then 29 else MONTH_DAYS[month - 1]
  }

  /* ---------------------------------------------------------------- weekday */

  /** The weekday sum of RTC_Get_Week for a year, month and date, before it is stored in the u16 temp2. */
  function WeekSum(y: u16, m: u8, d: u8): int
  {
    var yearH := Wrap8(y as int / 100);
    var yearL := if m < 3 then Wrap8(y as int % 100 - 1) else y as int % 100;
    var month := if m < 3 then m as int + 12 else m as int;
    yearL + yearL / 4 + yearH / 4 - 2 * yearH + 26 * (month + 1) / 10 + d as int - 1
  }

  /**
   * RTC_Get_Week: stores temp2 % 7 (0 = Sunday) as the weekday, and adds 12 to the
   * caller's month for January and February.
   */
  function GetWeek(t: Time): (r: Time)
    ensures r.year == t.year && r.date == t.date && r.hour == t.hour && r.min == t.min && r.sec == t.sec
    ensures r.month as int == if t.month < 3 then t.month as int + 12 else t.month as int
    ensures r.week < 7
  {
    var month := if t.month < 3 then t.month + 12 else t.month;
    t.(month := month, week := Wrap16(WeekSum(t.year, t.month, t.date)) % 7)
  }

  lemma ZellerMonthTerm(month: int)
    requires 3 <= month <= 14
    ensures 26 * (month + 1) / 10 == 2 * month + 3 * (month + 1) / 5 + 2
  {
    assert month == 3 || month == 4 || month == 5 || month == 6 || month == 7 || month == 8
      || month == 9 || month == 10 || month == 11 || month == 12 || month == 13 || month == 14;
  }

  /** A year split into its century and its year within the century. */
  lemma YearHalves(year: int)
    requires 0 <= year
    ensures year / 4 == 25 * (year / 100) + year % 100 / 4
    ensures year / 400 == year / 100 / 4
  {
  }

  /** Without wrap-around, the weekday sum is Kim Larsen's plus one, less a multiple of 7. */
  lemma WeekSumIsKimLarsen(y: u16, m: u8, d: u8)
    requires 1 <= m <= 12 && y < 25600
    requires m >= 3 || y % 100 != 0
    ensures var year := if m < 3 then y as int - 1 else y as int;
      WeekSum(y, m, d) == Calendar.KimLarsen(y, m, d) + 1 - 7 * 18 * (year / 100)
  {
    var year := if m < 3 then y as int - 1 else y as int;
    var month := if m < 3 then m as int + 12 else m as int;
    YearHalves(year);
    assert Wrap8(y as int / 100) == year / 100;
    assert (if m < 3 then Wrap8(y as int % 100 - 1) else y as int % 100) == year % 100;
    ZellerMonthTerm(month);
  }

  /**
   * When the year halves do not wrap and the sum is not negative, RTC_Get_Week gives the
   * true weekday counted from Sunday = 0.
   */
  lemma GetWeekIsWeekday(t: Time)
    requires Calendar.ValidDate(t.year, t.month, t.date) && t.year < 25600
    requires t.month >= 3 || t.year % 100 != 0
    requires 0 <= WeekSum(t.year, t.month, t.date) < 0x1_0000
    ensures GetWeek(t).week as int == (Calendar.Weekday(t.year, t.month, t.date) + 1) % 7
  {
    SumIsWeekday(t.year, t.month, t.date);
  }

  /** The weekday sum, taken mod 7, counts weekdays from Sunday = 0. */
  lemma SumIsWeekday(y: u16, m: u8, d: u8)
    requires Calendar.ValidDate(y, m, d) && y < 25600
    requires m >= 3 || y % 100 != 0
    ensures WeekSum(y, m, d) % 7 == (Calendar.Weekday(y, m, d) + 1) % 7
  {
    var year := if m < 3 then y as int - 1 else y as int;
    WeekSumIsKimLarsen(y, m, d);
    Calendar.KimLarsenWeekday(y, m, d);
    ShiftedWeekday(WeekSum(y, m, d), Calendar.KimLarsen(y, m, d), year / 100, Calendar.Weekday(y, m, d));
  }

  /** A sum one more than a Kim Larsen sum, less a multiple of 7, counts from Sunday. */
  lemma ShiftedWeekday(sum: int, kl: int, h: int, w: int)
    requires sum == kl + 1 - 7 * 18 * h && kl % 7 == w
    ensures sum % 7 == (w + 1) % 7
  {
    Calendar.ModShift(kl + 1, -18 * h);
    Calendar.ModShift(kl % 7 + 1, kl / 7);
  }

  /**
   * 2000-03-01 was a Wednesday (3 from Sunday = 0), but its weekday sum is negative
   * and wraps in the u16, so RTC_Get_Week reports Friday.
   */
  lemma NegativeSumWraps(t: Time)
    requires t.year == 2000 && t.month == 3 && t.date == 1
    ensures WeekSum(t.year, t.month, t.date) == -25 && GetWeek(t).week == 5
    ensures (Calendar.Weekday(t.year, t.month, t.date) + 1) % 7 == 3
  {
    WeekdayOf(t.year as int, t.month as int, t.date as int, 2494);
  }

  /** The weekday of a date from a Kim Larsen sum worked out by hand. */
  lemma WeekdayOf(y: int, m: int, d: int, sum: int)
    requires 1 <= y && 1 <= m <= 12 && Calendar.KimLarsen(y, m, d) == sum
    ensures Calendar.Weekday(y, m, d) == sum % 7
  {
    Calendar.KimLarsenWeekday(y, m, d);
  }

  /**
   * In January of a year divisible by 100 the u8 yearL wraps from 0 to 255:
   * 2000-01-01 was a Saturday (6 from Sunday = 0), RTC_Get_Week reports Thursday.
   */
  lemma CenturyJanuaryWraps(t: Time)
    requires t.year == 2000 && t.month == 1 && t.date == 1
    ensures GetWeek(t).week == 4
    ensures (Calendar.Weekday(t.year, t.month, t.date) + 1) % 7 == 6
  {
    WeekdayOf(t.year as int, t.month as int, t.date as int, 2518);
  }

  /* ---------------------------------------------------------------- set time */

  /** The count RTC_Set_Time computes, in whole integers: days before the date, then the time of day. */
  function SetSeconds(t: Time): int
    requires t.month <= 13
  {
    Calendar.DaysBetween(EPOCH_YEAR, t.year) * DAY_SECONDS
    + Calendar.DaysBeforeMonth(t.year, if t.month == 0 then 1 else t.month) * DAY_SECONDS
    + (t.date as int - 1) * DAY_SECONDS + t.hour as int * 3600 + t.min as int * 60 + t.sec as int
  }

  /* ---------------------------------------------------------------- get time */

  /** The cumulative month table Get_Time rebuilds from 1970's month lengths on every call. */
  function DaysMonth(k: int): int
    requires 0 <= k <= 12
  {
    Calendar.DaysBeforeMonth(EPOCH_YEAR, k + 1)
  }

  /** The year loop of Get_Time: peel whole years off a day count, stopping at a leap year's day 365. */
  function PeelFrom(days: int, year: int): (r: (int, int))
    requires 0 <= days
    ensures 0 <= r.0 <= days && year <= r.1
    decreases days
  {
    if days >= 365 then
      if Calendar.GregorianLeap(year) then
        if days >= 366 then PeelFrom(days - 366, year + 1) else (days, year)
      else PeelFrom(days - 365, year + 1)
    else (days, year)
  }

  /** The bound the month scan compares against for month k + 1 (February adjusted in a leap year). */
  function Bound(k: int, leap: bool): int
    requires 0 <= k < 12
  {
    DaysMonth(k + 1) + (if leap && k == 1 then 1 else 0)
  }

  /** The month scan of Get_Time from index k: the first month whose bound exceeds the day, else 12. */
  function MonthFrom(doy: int, leap: bool, k: int): (r: int)
    requires 0 <= k <= 12
    ensures k <= r <= 12
    decreases 12 - k
  {
    if k == 12 then 12 else if doy < Bound(k, leap) then k else MonthFrom(doy, leap, k + 1)
  }

  /** The calendar fields Get_Time derives from a counter value, before RTC_Get_Week. */
  function CountDate(s: u32): Time
  {
    var days := s / DAY_SECONDS;
    var yd := PeelFrom(days, EPOCH_YEAR);
    var k := MonthFrom(yd.0, Calendar.GregorianLeap(yd.1), 0);
    var rest := s % DAY_SECONDS;
    Time(Wrap16(yd.1), Wrap8(k + 1), Wrap8(yd.0 - DaysMonth(k) + 1),
         Wrap8(rest / 3600), Wrap8(rest % 3600 / 60), Wrap8(rest % 3600 % 60), 0)
  }

  /** RTC_Get_Time's result for a counter value. */
  function FromCount(s: u32): Time
  {
    GetWeek(CountDate(s))
  }

  /** The time of day is the counter modulo a day. */
  lemma CountTimeOfDay(s: u32)
    ensures var t := CountDate(s);
      t.hour < 24 && t.min < 60 && t.sec < 60
      && t.hour as int * 3600 + t.min as int * 60 + t.sec as int == s % DAY_SECONDS
  {
  }

  /** The year peel: whole years from the start year, then a day inside the year reached. */
  lemma {:induction false} PeelSplits(days: int, year: int)
    requires 0 <= days
    ensures var r := PeelFrom(days, year);
      Calendar.DaysBetween(year, r.1) + r.0 == days && r.0 < Calendar.YearDays(r.1)
      && (r.1 - year) * 365 <= days
    decreases days
  {
    if days >= 365 && !(Calendar.GregorianLeap(year) && days < 366) {
      var d := if Calendar.GregorianLeap(year) then days - 366 else days - 365;
      PeelSplits(d, year + 1);
      var r := PeelFrom(d, year + 1);
      Calendar.DaysBetweenSplit(year, year + 1, r.1);
    }
  }

  /** A day count split as whole years plus a day of the final year is what the peel finds. */
  lemma {:induction false} PeelUnique(days: int, year: int, y: int, doy: int)
    requires year <= y && 0 <= doy < Calendar.YearDays(y)
    requires days == Calendar.DaysBetween(year, y) + doy
    ensures PeelFrom(days, year) == (doy, y)
    decreases y - year
  {
    if y > year {
      Calendar.DaysBetweenSplit(year, year + 1, y);
      PeelUnique(days - Calendar.YearDays(year), year + 1, y, doy);
    }
  }

  /** Days before a month in a given year, from the common-year table. */
  lemma {:induction false} DaysBeforeMonthShift(y: int, m: int)
    requires 1 <= m <= 13
    ensures Calendar.DaysBeforeMonth(y, m)
      == Calendar.DaysBeforeMonth(EPOCH_YEAR, m) + (if m >= 3 && Calendar.GregorianLeap(y) then 1 else 0)
    decreases m
  {
    if m > 1 {
      DaysBeforeMonthShift(y, m - 1);
    }
  }

  /** The bounds grow month by month. */
  lemma BoundStep(k: int, leap: bool)
    requires 0 <= k < 11
    ensures Bound(k, leap) < Bound(k + 1, leap)
  {
    assert DaysMonth(k + 2) == DaysMonth(k + 1) + Calendar.MonthLength(EPOCH_YEAR, k + 2);
  }

  lemma {:induction false} BoundsIncrease(j: int, k: int, leap: bool)
    requires 0 <= j < k < 12
    ensures Bound(j, leap) < Bound(k, leap)
    decreases k - j
  {
    BoundStep(j, leap);
    if j + 1 < k {
      BoundsIncrease(j + 1, k, leap);
    }
  }

  /** The scan stops at the month whose bounds bracket the day. */
  lemma {:induction false} MonthFromFinds(doy: int, leap: bool, j: int, k: int)
    requires 0 <= j <= k <= 12
    requires k < 12 ==> doy < Bound(k, leap)
    requires j < k ==> Bound(k - 1, leap) <= doy
    ensures MonthFrom(doy, leap, j) == k
    decreases k - j
  {
    if j < k {
      if j < k - 1 {
        BoundsIncrease(j, k - 1, leap);
      }
      MonthFromFinds(doy, leap, j + 1, k);
    }
  }

  /** A valid time of a common year, or of January or February: the calendar round trip. */
  predicate Reversible(t: Time)
  {
    Calendar.ValidDate(t.year, t.month, t.date) && t.hour < 24 && t.min < 60 && t.sec < 60
    && EPOCH_YEAR <= t.year && (!Calendar.GregorianLeap(t.year) || t.month <= 2)
  }

  /** The day count of a date from 1970, split as whole years plus a day of the year. */
  lemma DayCount(t: Time)
    requires Calendar.ValidDate(t.year, t.month, t.date) && EPOCH_YEAR <= t.year && t.hour < 24
      && t.min < 60 && t.sec < 60
    ensures var doy := Calendar.DaysBeforeMonth(t.year, t.month) + t.date - 1;
      SetSeconds(t) == (Calendar.DaysBetween(EPOCH_YEAR, t.year) + doy) * DAY_SECONDS
                       + t.hour as int * 3600 + t.min as int * 60 + t.sec as int
      && 0 <= doy < Calendar.YearDays(t.year)
  {
    Calendar.MonthsFillYear(t.year);
    MonthWithinYear(t.year, t.month);
  }

  lemma MonthWithinYear(y: int, m: int)
    requires 1 <= m <= 12
    ensures Calendar.DaysBeforeMonth(y, m) + Calendar.MonthLength(y, m) <= Calendar.DaysBeforeMonth(y, 13)
    decreases 13 - m
  {
    if m < 12 {
      MonthWithinYear(y, m + 1);
    }
  }

  /** Division of a count by the length of a day. */
  lemma DivDay(s: int, days: int, rest: int)
    requires 0 <= rest < DAY_SECONDS && s == days * DAY_SECONDS + rest
    ensures s / DAY_SECONDS == days && s % DAY_SECONDS == rest
  {
  }

  /** The fields of CountDate, given how the counter splits into days and the time of day. */
  lemma CountDateParts(s: u32, days: int, rest: int, y: int, doy: int, k: int)
    requires 0 <= days && 0 <= rest < DAY_SECONDS && s as int == days * DAY_SECONDS + rest
    requires PeelFrom(days, EPOCH_YEAR) == (doy, y) && MonthFrom(doy, Calendar.GregorianLeap(y), 0) == k
    ensures var c := CountDate(s);
      c.year == Wrap16(y) && c.month == Wrap8(k + 1) && c.date == Wrap8(doy - DaysMonth(k) + 1)
      && c.week == 0 && c.hour < 24 && c.min < 60 && c.sec < 60
      && c.hour as int * 3600 + c.min as int * 60 + c.sec as int == rest
  {
    DivDay(s as int, days, rest);
    CountTimeOfDay(s);
  }

  /** A time of day has one reading as hours, minutes and seconds. */
  lemma ClockFieldsUnique(h1: int, m1: int, s1: int, h2: int, m2: int, s2: int)
    requires 0 <= h1 && 0 <= m1 < 60 && 0 <= s1 < 60 && 0 <= h2 && 0 <= m2 < 60 && 0 <= s2 < 60
    requires h1 * 3600 + m1 * 60 + s1 == h2 * 3600 + m2 * 60 + s2
    ensures h1 == h2 && m1 == m2 && s1 == s2
  {
    var x := h1 * 3600 + m1 * 60 + s1;
    assert x / 3600 == h1 && x / 3600 == h2;
    assert x % 3600 / 60 == m1 && x % 3600 / 60 == m2;
  }

  /**
   * Set_Time then Get_Time gives back the time (with Get_Week's month rewrite) for any
   * date of a common year, and for January and February of a leap year, while the count
   * fits in 32 bits.
   */
  lemma SetThenGet(t: Time)
    requires Reversible(t) && SetSeconds(t) < 0x1_0000_0000
    ensures FromCount(Wrap32(SetSeconds(t))) == GetWeek(t)
  {
    CountOfSet(t);
    assert Wrap32(SetSeconds(t)) == SetSeconds(t) as u32;
  }

  /** The calendar fields Get_Time derives from the count Set_Time stores are the time set. */
  lemma CountOfSet(t: Time)
    requires Reversible(t) && SetSeconds(t) < 0x1_0000_0000
    ensures CountDate(SetSeconds(t) as u32) == t.(week := 0)
  {
    CountFieldsOfSet(t);
    var c := CountDate(SetSeconds(t) as u32);
    ClockFieldsUnique(c.hour as int, c.min as int, c.sec as int, t.hour as int, t.min as int, t.sec as int);
  }

  /** The date fields come back as set, and the time fields read the same second of the day. */
  lemma CountFieldsOfSet(t: Time)
    requires Reversible(t) && SetSeconds(t) < 0x1_0000_0000
    ensures var c := CountDate(SetSeconds(t) as u32);
      c.year == t.year && c.month == t.month && c.date == t.date && c.week == 0
      && c.hour < 24 && c.min < 60 && c.sec < 60
      && c.hour as int * 3600 + c.min as int * 60 + c.sec as int
         == t.hour as int * 3600 + t.min as int * 60 + t.sec as int
  {
    var s := SetSeconds(t);
    SetSplits(t);
    var doy := Calendar.DaysBeforeMonth(t.year, t.month) + t.date - 1;
    MonthOfDay(t);
    CountDateParts(s as u32, s / DAY_SECONDS, s % DAY_SECONDS, t.year as int, doy, t.month - 1);
  }

  /** The count of a valid time splits into whole years, a day of the year and a time of day. */
  lemma SetSplits(t: Time)
    requires Calendar.ValidDate(t.year, t.month, t.date) && EPOCH_YEAR <= t.year && t.hour < 24
      && t.min < 60 && t.sec < 60
    ensures var s := SetSeconds(t);
      0 <= s
      && PeelFrom(s / DAY_SECONDS, EPOCH_YEAR) == (Calendar.DaysBeforeMonth(t.year, t.month) + t.date - 1, t.year as int)
      && s % DAY_SECONDS == t.hour as int * 3600 + t.min as int * 60 + t.sec as int
  {
    DayCount(t);
    var doy := Calendar.DaysBeforeMonth(t.year, t.month) + t.date - 1;
    var days := Calendar.DaysBetween(EPOCH_YEAR, t.year) + doy;
    DivDay(SetSeconds(t), days, t.hour as int * 3600 + t.min as int * 60 + t.sec as int);
    PeelUnique(days, EPOCH_YEAR, t.year, doy);
  }

  /** In a common year, or in January or February, the scan finds the month of the date. */
  lemma MonthOfDay(t: Time)
    requires Calendar.ValidDate(t.year, t.month, t.date)
    requires !Calendar.GregorianLeap(t.year) || t.month <= 2
    ensures var doy := Calendar.DaysBeforeMonth(t.year, t.month) + t.date - 1;
      MonthFrom(doy, Calendar.GregorianLeap(t.year), 0) == t.month - 1
      && doy - DaysMonth(t.month - 1) + 1 == t.date as int
  {
    var doy := Calendar.DaysBeforeMonth(t.year, t.month) + t.date - 1;
    DaysBeforeMonthShift(t.year, t.month);
    DaysBeforeMonthShift(t.year, t.month + 1);
    assert Calendar.DaysBeforeMonth(t.year, t.month + 1) == Calendar.DaysBeforeMonth(t.year, t.month) + Calendar.MonthLength(t.year, t.month);
    MonthFromFinds(doy, Calendar.GregorianLeap(t.year), 0, t.month - 1);
  }

  /**
   * From March of a leap year on, Get_Time reports the day after the date that was set:
   * the month scan uses the common-year table with only February's bound adjusted.
   * December 31 comes out as day 1 of month 13.
   */
  lemma LeapDatesLate(t: Time)
    requires Calendar.ValidDate(t.year, t.month, t.date) && t.hour < 24 && t.min < 60 && t.sec < 60
    requires EPOCH_YEAR <= t.year && Calendar.GregorianLeap(t.year) && 3 <= t.month
    requires SetSeconds(t) < 0x1_0000_0000
    ensures var r := CountDate(Wrap32(SetSeconds(t)));
      r.year == t.year
      && (if t.month == 12 && t.date == 31 then r.month == 13 && r.date == 1
          else 3 <= r.month <= 12
               && Calendar.DaysBeforeMonth(t.year, r.month) + r.date as int
                  == Calendar.DaysBeforeMonth(t.year, t.month) + t.date as int + 1)
  {
    var s := SetSeconds(t);
    SetSplits(t);
    var doy := Calendar.DaysBeforeMonth(t.year, t.month) + t.date - 1;
    var k := LeapMonthScan(t.year as int, t.month as int, t.date as int);
    CountDateParts(s as u32, s / DAY_SECONDS, s % DAY_SECONDS, t.year as int, doy, k);
    assert Wrap32(s) == s as u32;
    var r := CountDate(s as u32);
    assert r.month as int == k + 1 && r.date as int == doy - DaysMonth(k) + 1;
  }

  /** The scan of a date from March of a leap year: the month index and day it reports. */
  lemma LeapMonthScan(y: int, m: int, d: int) returns (k: int)
    requires Calendar.ValidDate(y, m, d) && Calendar.GregorianLeap(y) && 3 <= m
    ensures var doy := Calendar.DaysBeforeMonth(y, m) + d - 1;
      0 <= k <= 12 && MonthFrom(doy, true, 0) == k && 1 <= doy - DaysMonth(k) + 1 <= 31
      && (if m == 12 && d == 31 then k == 12 && doy - DaysMonth(k) + 1 == 1
          else 2 <= k < 12
               && Calendar.DaysBeforeMonth(y, k + 1) + doy - DaysMonth(k) + 1
                  == Calendar.DaysBeforeMonth(y, m) + d + 1)
  {
    var doy := Calendar.DaysBeforeMonth(y, m) + d - 1;
    DaysBeforeMonthShift(y, m);
    DaysBeforeMonthShift(y, m + 1);
    assert Calendar.DaysBeforeMonth(y, m + 1) == Calendar.DaysBeforeMonth(y, m) + Calendar.MonthLength(y, m);
    if d < Calendar.MonthLength(y, m) {
      k := m - 1;
      MonthFromFinds(doy, true, 0, k);
    } else if m < 12 {
      k := m;
      LeapMonthEnd(y, m, doy);
    } else {
      k := 12;
      Calendar.MonthsFillYear(EPOCH_YEAR);
      Calendar.MonthsFillYear(y);
      MonthFromFinds(doy, true, 0, 12);
    }
  }

  /** The last day of a month from March to November of a leap year reads as the next month's first. */
  lemma LeapMonthEnd(y: int, m: int, doy: int)
    requires Calendar.GregorianLeap(y) && 3 <= m < 12
    requires doy == Calendar.DaysBeforeMonth(y, m + 1) - 1
    ensures MonthFrom(doy, true, 0) == m && doy - DaysMonth(m) + 1 == 1
  {
    DaysBeforeMonthShift(y, m + 1);
    DaysBeforeMonthShift(y, m + 2);
    assert Calendar.DaysBeforeMonth(y, m + 2) == Calendar.DaysBeforeMonth(y, m + 1) + Calendar.MonthLength(y, m + 1);
    MonthFromFinds(doy, true, 0, m);
  }

  /** The scan on its own: day-of-year 60 of a leap year becomes March 2, day 365 month 13. */
  lemma LeapScanExamples()
    ensures MonthFrom(60, true, 0) == 2 && 60 - DaysMonth(2) + 1 == 2
    ensures MonthFrom(365, true, 0) == 12 && 365 - DaysMonth(12) + 1 == 1
  {
    Calendar.MonthsFillYear(EPOCH_YEAR);
    assert DaysMonth(2) == 59 && DaysMonth(3) == 90;
    MonthFromFinds(60, true, 0, 2);
    MonthFromFinds(365, true, 0, 12);
  }

  /* ---------------------------------------------------------------- alarm */

  /** RTC_Set_Alarm's delay as written: the difference is a u32, so "<= 0" only catches 0. */
  function AlarmDelayAsWritten(nowOfDay: int, hour: u8, min: u8, sec: u8): (d: u32)
  {
    var diff := Wrap32(hour as int * 3600 + min as int * 60 + sec as int - nowOfDay);
    if diff <= 0 then Wrap32(diff + DAY_SECONDS) else diff
  }

  /**
   * The delay the alarm evidently intends: the time until the next occurrence of the
   * target time of day, a whole day when it is now.
   */
  function AlarmDelay(nowOfDay: int, hour: u8, min: u8, sec: u8): (d: int)
    ensures var target := hour as int * 3600 + min as int * 60 + sec as int;
      0 <= nowOfDay < DAY_SECONDS && target < DAY_SECONDS ==>
        1 <= d <= DAY_SECONDS && (nowOfDay + d) % DAY_SECONDS == target
  {
    var diff := hour as int * 3600 + min as int * 60 + sec as int - nowOfDay;
    if diff <= 0 then diff + DAY_SECONDS else diff
  }

  /** At 12:00:00, an 11:00:00 alarm is set 2^32 - 3600 seconds ahead instead of 23 hours. */
  lemma AlarmWraps()
    ensures AlarmDelayAsWritten(43200, 11, 0, 0) == 0x1_0000_0000 - 3600
    ensures AlarmDelay(43200, 11, 0, 0) == 82800
  {
  }

  /** The two agree exactly when the target time of day is later than now, or equal to it. */
  lemma AlarmAgreesWhenLater(nowOfDay: int, hour: u8, min: u8, sec: u8)
    requires 0 <= nowOfDay <= hour as int * 3600 + min as int * 60 + sec as int < DAY_SECONDS
    ensures AlarmDelayAsWritten(nowOfDay, hour, min, sec) as int == AlarmDelay(nowOfDay, hour, min, sec)
  {
  }

  /* ---------------------------------------------------------------- timers */

  /** The table after removing entry i: later entries shift down by one. */
  function Removed(s: seq<Timer>, i: int): (r: seq<Timer>)
    requires 0 <= i < |s|
    ensures |r| == |s| - 1
    ensures forall j :: 0 <= j < |r| ==> r[j] == s[if j < i then j else j + 1]
  {
    s[..i] + s[i + 1..]
  }

  /** Removing the entry just added gives back the table. */
  lemma AddThenRemove(s: seq<Timer>, t: Timer)
    ensures Removed(s + [t], |s|) == s
  {
  }

  /** The counter, the current time, the alarm register and the timer table. */
  class Clock {
    /** The RTC counter register: seconds since 1970-01-01 00:00:00. */
    var counter: u32
    /** current_time */
    var now: Time
    /** The RTC alarm register and its interrupt enable. */
    var alarm: u32
    var alarmEnabled: bool
    /** rtc_timers[8] */
    const timers: array<Timer>
    /** timer_count */
    var count: nat

    ghost predicate Valid()
      reads this
    {
      timers.Length == MAX_TIMERS && count <= MAX_TIMERS
    }

    constructor (counter0: u32)
      ensures Valid() && fresh(timers)
      ensures counter == counter0 && count == 0 && !alarmEnabled
    {
      counter := counter0;
      now := Time(0, 0, 0, 0, 0, 0, 0);
      alarm := 0;
      alarmEnabled := false;
      timers := new Timer[MAX_TIMERS](_ => EMPTY_TIMER);
      count := 0;
    }

    /** RTC_Set_Time: writes the counter and keeps the time, weekday computed. */
    method SetTime(time: Time)
      requires time.month <= 13
      modifies this`counter, this`now
      ensures counter == Wrap32(SetSeconds(time))
      ensures now == GetWeek(time)
    {
      var seccount := YearSeconds(time.year);
      ghost var base := Calendar.DaysBetween(EPOCH_YEAR, time.year) * DAY_SECONDS;
      seccount := AddMonthSeconds(seccount, base, time.year, time.month);
      var k := if time.month == 0 then 1 else time.month as int;
      seccount := AddDaySeconds(seccount, base + Calendar.DaysBeforeMonth(time.year, k) * DAY_SECONDS,
                                time.date as int, time.hour as int, time.min as int, time.sec as int);
      counter := seccount;
      now := GetWeek(time);
    }

    /** RTC_Get_Time: converts the counter to a calendar time. */
    method GetTime() returns (time: Time)
      ensures time == FromCount(counter)
    {
      time := CountToDate(counter);
      time := GetWeek(time);
    }

    /** RTC_Set_Alarm with the intended delay: the alarm fires at the next occurrence of the time of day. */
    method SetAlarm(hour: u8, min: u8, sec: u8) returns (status: u8)
      modifies this`alarm, this`alarmEnabled
      ensures status == 0 && alarmEnabled
      ensures var t := FromCount(counter);
        alarm == Wrap32(counter as int
                        + AlarmDelay(t.hour as int * 3600 + t.min as int * 60 + t.sec as int, hour, min, sec))
    {
      var temp := GetTime();
      var nowOfDay := temp.hour as int * 3600 + temp.min as int * 60 + temp.sec as int;
      var delay := AlarmDelay(nowOfDay, hour, min, sec);
      alarm := Wrap32(counter as int + delay);
      alarmEnabled := true;
      status := 0;
    }

    /** RTC_Timer_Init: empties the table. */
    method TimerInit()
      requires Valid()
      modifies this`count, timers
      ensures Valid() && count == 0
      ensures timers[..] == seq(MAX_TIMERS, _ => EMPTY_TIMER)
    {
      count := 0;
      var i := 0;
      while i < MAX_TIMERS
        invariant 0 <= i <= MAX_TIMERS && count == 0
        invariant forall k :: 0 <= k < i ==> timers[k] == EMPTY_TIMER
      {
        timers[i] := EMPTY_TIMER;
        i := i + 1;
      }
    }

    /** RTC_Timer_Add: appends unless the table is full. */
    method TimerAdd(timer: Timer) returns (status: u8)
      requires Valid()
      modifies this`count, timers
      ensures Valid()
      ensures status == 0 <==> old(count) < MAX_TIMERS
      ensures status != 0 ==> status == 1 && count == old(count) && timers[..] == old(timers[..])
      ensures status == 0 ==> count == old(count) + 1 && timers[..] == old(timers[..])[old(count) := timer]
    {
      if count >= MAX_TIMERS {
        return 1;
      }
      timers[count] := timer;
      count := count + 1;
      status := 0;
    }

    /** RTC_Timer_Remove: shifts the later entries down; an index past the end is ignored. */
    method TimerRemove(index: u8)
      requires Valid()
      modifies this`count, timers
      ensures Valid()
      ensures index as int >= old(count) ==> count == old(count) && timers[..] == old(timers[..])
      ensures index as int < old(count) ==>
        count == old(count) - 1
        && timers[..count] == Removed(old(timers[..])[..count + 1], index as int)
        && timers[count..] == old(timers[..])[count..]
    {
      if index as int >= count {
        return;
      }
      var i := index as int;
      while i < count - 1
        invariant Valid() && count == old(count)
        invariant index as int <= i <= count - 1
        invariant forall k :: 0 <= k < index as int ==> timers[k] == old(timers[k])
        invariant forall k :: index as int <= k < i ==> timers[k] == old(timers[k + 1])
        invariant forall k :: i <= k < timers.Length ==> timers[k] == old(timers[k])
      {
        timers[i] := timers[i + 1];
        i := i + 1;
      }
      count := count - 1;
    }
  }

  /** The year loop of RTC_Set_Time: the seconds of the whole years from 1970, modulo 2^32. */
  method YearSeconds(year: u16) returns (seccount: u32)
    ensures seccount == Wrap32(Calendar.DaysBetween(EPOCH_YEAR, year) * DAY_SECONDS)
  {
    seccount := 0;
    var t: int := EPOCH_YEAR;
    while t < year as int
      invariant EPOCH_YEAR <= t && (t <= year as int || t == EPOCH_YEAR)
      invariant seccount == Wrap32(Calendar.DaysBetween(EPOCH_YEAR, t) * DAY_SECONDS)
    {
      WrapAdd32(Calendar.DaysBetween(EPOCH_YEAR, t) * DAY_SECONDS, Calendar.YearDays(t) * DAY_SECONDS);
      if IsLeapYear(t) {
        seccount := Wrap32(seccount as int + LEAP_YEAR_SECONDS);
      } else {
        seccount := Wrap32(seccount as int + COMMON_YEAR_SECONDS);
      }
      t := t + 1;
    }
  }

  /** The month loop of RTC_Set_Time: adds the seconds of the months before the given one. */
  method AddMonthSeconds(seccount0: u32, ghost base: int, year: u16, month: u8) returns (seccount: u32)
    requires month <= 13 && seccount0 == Wrap32(base)
    ensures seccount == Wrap32(base + Calendar.DaysBeforeMonth(year, if month == 0 then 1 else month) * DAY_SECONDS)
  {
    seccount := seccount0;
    var k := 0;
    while k < month as int - 1
      invariant 0 <= k && (k <= month as int - 1 || k == 0)
      invariant seccount == Wrap32(base + Calendar.DaysBeforeMonth(year, k + 1) * DAY_SECONDS)
    {
      var temp := MonthDays(year, k + 1);
      WrapAdd32(base + Calendar.DaysBeforeMonth(year, k + 1) * DAY_SECONDS, temp as int * DAY_SECONDS);
      seccount := Wrap32(seccount as int + temp as int * DAY_SECONDS);
      k := k + 1;
    }
  }

  /** The tail of RTC_Set_Time: adds the days of the month and the time of day, modulo 2^32. */
  method AddDaySeconds(seccount0: u32, ghost sum: int, date: int, hour: int, min: int, sec: int)
    returns (seccount: u32)
    requires seccount0 == Wrap32(sum)
    ensures seccount == Wrap32(sum + (date - 1) * DAY_SECONDS + hour * 3600 + min * 60 + sec)
  {
    WrapAdd32(sum, (date - 1) * DAY_SECONDS);
    seccount := Wrap32(seccount0 as int + (date - 1) * DAY_SECONDS);
    WrapAdd32(sum + (date - 1) * DAY_SECONDS, hour * 3600);
    seccount := Wrap32(seccount as int + hour * 3600);
    WrapAdd32(sum + (date - 1) * DAY_SECONDS + hour * 3600, min * 60);
    seccount := Wrap32(seccount as int + min * 60);
    WrapAdd32(sum + (date - 1) * DAY_SECONDS + hour * 3600 + min * 60, sec);
    seccount := Wrap32(seccount as int + sec);
  }

  /** The body of RTC_Get_Time up to the call of RTC_Get_Week. */
  method CountToDate(seccount: u32) returns (time: Time)
    ensures time == CountDate(seccount)
  {
    var table := MonthTable();
    var temp := seccount as int / DAY_SECONDS;
    var doy, year := PeelYears(temp);
    ghost var yd := PeelFrom(temp, EPOCH_YEAR);
    assert Wrap16(yd.1) == year;
    var leap := IsLeapYear(year);
    var k := ScanMonths(doy, leap, table);
    assert k == MonthFrom(yd.0, Calendar.GregorianLeap(yd.1), 0);
    assert table[k] == DaysMonth(k);
    var rest := seccount as int % DAY_SECONDS;
    time := Time(year, Wrap8(k + 1), Wrap8(doy - table[k] + 1),
                 Wrap8(rest / 3600), Wrap8(rest % 3600 / 60), Wrap8(rest % 3600 % 60), 0);
  }

  /** The month table Get_Time rebuilds: entry k is the days of 1970 before month k + 1. */
  method MonthTable() returns (table: seq<int>)
    ensures |table| == 13 && forall k :: 0 <= k < 13 ==> table[k] == DaysMonth(k)
  {
    table := [0];
    var m := 1;
    while m < 13
      invariant 1 <= m <= 13 && |table| == m
      invariant forall k :: 0 <= k < m ==> table[k] == DaysMonth(k)
    {
      table := table + [table[m - 1] + MonthDays(EPOCH_YEAR, m) as int];
      m := m + 1;
    }
  }

  /** The year loop of Get_Time, from 1970. */
  method PeelYears(days: int) returns (doy: int, year: u16)
    requires 0 <= days <= 0xFFFF_FFFF / DAY_SECONDS
    ensures (doy, year as int) == PeelFrom(days, EPOCH_YEAR)
  {
    doy := days;
    var y: int := EPOCH_YEAR;
    while doy >= 365
      invariant 0 <= doy <= days && EPOCH_YEAR <= y
      invariant (y - EPOCH_YEAR) * 365 <= days - doy
      invariant PeelFrom(days, EPOCH_YEAR) == PeelFrom(doy, y)
      decreases doy
    {
      if IsLeapYear(y) {
        if doy >= 366 {
          doy := doy - 366;
        } else {
          break;
        }
      } else {
        doy := doy - 365;
      }
      y := y + 1;
    }
    year := y;
  }

  /** The month scan of Get_Time. */
  method ScanMonths(doy: int, leap: bool, table: seq<int>) returns (k: int)
    requires |table| == 13 && forall j :: 0 <= j < 13 ==> table[j] == DaysMonth(j)
    ensures k == MonthFrom(doy, leap, 0)
  {
    k := 0;
    while k < 12
      invariant 0 <= k <= 12
      invariant MonthFrom(doy, leap, 0) == MonthFrom(doy, leap, k)
    {
      if leap && k == 1 {
        if doy < table[k + 1] + 1 {
          break;
        }
      } else {
        if doy < table[k + 1] {
          break;
        }
      }
      k := k + 1;
    }
  }
}
