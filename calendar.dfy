/**
 * The proleptic Gregorian calendar, written independently of the firmware's
 * tables and formulas. Both clock modules are proved against these definitions.
 */
module Calendar {
  import Ints
  /** Every fourth year is a leap year, except the centuries not divisible by 400. */
  predicate GregorianLeap(y: int)
  {
    y % 4 == 0 && (y % 100 == 0 ==> y % 400 == 0)
  }

  function YearDays(y: int): (n: int)
    ensures n == 365 || n == 366
    ensures n == 366 <==> GregorianLeap(y)
  {
    if GregorianLeap(y) then 366 else 365
  }

  /** Length of month m (1 = January) of year y. */
  function MonthLength(y: int, m: int): (n: int)
    requires 1 <= m <= 12
    ensures 28 <= n <= 31
    ensures n == 29 <==> m == 2 && GregorianLeap(y)
  {
    if m == 2 then (if GregorianLeap(y) then 29 else 28)
    else if m == 4 || m == 6 || m == 9 || m == 11 then 30
    else 31
  }

  /** Days of year y before the first day of month m (m == 13: the whole year). */
  function DaysBeforeMonth(y: int, m: int): (n: int)
    requires 1 <= m <= 13
    ensures 0 <= n
  {
    if m == 1 then 0 else DaysBeforeMonth(y, m - 1) + MonthLength(y, m - 1)
  }

  /** The twelve months make up the year. */
  lemma MonthsFillYear(y: int)
    ensures DaysBeforeMonth(y, 13) == YearDays(y)
  {
    assert DaysBeforeMonth(y, 2) == 31;
    assert DaysBeforeMonth(y, 4) == DaysBeforeMonth(y, 3) + 31;
    assert DaysBeforeMonth(y, 6) == DaysBeforeMonth(y, 4) + 61;
    assert DaysBeforeMonth(y, 8) == DaysBeforeMonth(y, 6) + 61;
    assert DaysBeforeMonth(y, 10) == DaysBeforeMonth(y, 8) + 61;
    assert DaysBeforeMonth(y, 12) == DaysBeforeMonth(y, 10) + 61;
  }

  /** Days from 1 January of year y0 to 1 January of year y (0 when y <= y0). */
  function DaysBetween(y0: int, y: int): (n: int)
    ensures 0 <= n
    decreases y - y0
  {
    if y <= y0 then 0 else DaysBetween(y0, y - 1) + YearDays(y - 1)
  }

  /**
   * Days since 1 January of year 0: 365 a year plus one per leap year before y (the
   * year-by-year sum DaysBetween(0, y), by DaysBetweenZero), then the days of the year.
   */
  function DayNumber(y: int, m: int, d: int): int
    requires 0 <= y && 1 <= m <= 12
  {
    365 * y + LeapsBefore(y) + DaysBeforeMonth(y, m) + d - 1
  }

  /** A date that exists in the calendar. */
  predicate ValidDate(y: int, m: int, d: int)
  {
    1 <= m <= 12 && 1 <= d <= MonthLength(y, m)
  }

  /** Day of the week, 0 = Monday .. 6 = Sunday (1 January of year 0 is a Saturday). */
  function Weekday(y: int, m: int, d: int): (w: int)
    requires 0 <= y && 1 <= m <= 12
    ensures 0 <= w < 7
  {
    (DayNumber(y, m, d) + 5) % 7
  }

  /** Number of leap years in [0, y), in closed form. */
  function LeapsBefore(y: int): int
  {
    (y + 3) / 4 - (y + 99) / 100 + (y + 399) / 400
  }

  /** One more year adds a leap day exactly when that year is a leap year. */
  lemma LeapStep(y: int)
    requires 0 <= y
    ensures LeapsBefore(y + 1) == LeapsBefore(y) + (if GregorianLeap(y) then 1 else 0)
  {
    DivStep(y, 4);
    DivStep(y, 100);
    DivStep(y, 400);
    if y % 400 == 0 {
      MultipleOfFactor(y, 100, 4);
    }
    if y % 100 == 0 {
      MultipleOfFactor(y, 4, 25);
    }
  }

  /** The count of multiples of d below y + 1 grows by one exactly at a multiple. */
  lemma DivStep(y: int, d: int)
    requires 0 <= y && 0 < d
    ensures (y + d) / d == (y + d - 1) / d + (if y % d == 0 then 1 else 0)
  {
    var q, r := y / d, y % d;
    assert d * (q + 1) == d * q + d;
    Ints.DivExact(y + d, d, q + 1, r);
    if r == 0 {
      Ints.DivExact(y + d - 1, d, q, d - 1);
    } else {
      Ints.DivExact(y + d - 1, d, q + 1, r - 1);
    }
  }

  /** A multiple of a·b is a multiple of a. */
  lemma MultipleOfFactor(y: int, a: int, b: int)
    requires 0 < a && 0 < b && y % (a * b) == 0
    ensures y % a == 0
  {
    var k := y / (a * b);
    assert y == a * (b * k);
    Ints.DivExact(y, a, b * k, 0);
  }

  /** The year sum in closed form: 365 days a year plus one per leap year. */
  lemma {:induction false} DaysBetweenZero(y: int)
    requires 0 <= y
    ensures DaysBetween(0, y) == 365 * y + LeapsBefore(y)
    decreases y
  {
    if y > 0 {
      DaysBetweenZero(y - 1);
      LeapStep(y - 1);
    }
  }

  /** Year sums add up over consecutive spans. */
  lemma {:induction false} DaysBetweenSplit(y0: int, y1: int, y: int)
    requires y0 <= y1 <= y
    ensures DaysBetween(y0, y) == DaysBetween(y0, y1) + DaysBetween(y1, y)
    decreases y - y1
  {
    if y > y1 {
      DaysBetweenSplit(y0, y1, y - 1);
    }
  }

  /** The day after a valid date has the next day number. */
  lemma NextDay(y: int, m: int, d: int)
    requires 0 <= y && ValidDate(y, m, d)
    ensures d < MonthLength(y, m) ==> DayNumber(y, m, d + 1) == DayNumber(y, m, d) + 1
    ensures d == MonthLength(y, m) && m < 12 ==> DayNumber(y, m + 1, 1) == DayNumber(y, m, d) + 1
    ensures d == MonthLength(y, m) && m == 12 ==> DayNumber(y + 1, 1, 1) == DayNumber(y, m, d) + 1
  {
    if d == MonthLength(y, m) && m == 12 {
      MonthsFillYear(y);
      LeapStep(y);
    }
  }

  /** From March on, the days before a month follow the 30.6-day rule. */
  lemma {:induction false} DaysBeforeMonthFromMarch(y: int, m: int)
    requires 3 <= m <= 13
    ensures DaysBeforeMonth(y, m) == 30 * (m - 1) + 3 * (m + 1) / 5 - 3 + (if GregorianLeap(y) then 1 else 0)
    decreases m
  {
    if m == 3 {
      assert DaysBeforeMonth(y, 2) == 31;
    } else {
      DaysBeforeMonthFromMarch(y, m - 1);
      assert 3 * (m + 1) / 5 - 3 * m / 5 == MonthLength(y, m - 1) - 30 by {
        assert m == 4 || m == 5 || m == 6 || m == 7 || m == 8 || m == 9 || m == 10
          || m == 11 || m == 12 || m == 13;
      }
    }
  }

  /** Consecutive day numbers fall on consecutive weekdays. */
  lemma WeekdayNext(y: int, m: int, d: int, y2: int, m2: int, d2: int)
    requires 0 <= y && 1 <= m <= 12 && 0 <= y2 && 1 <= m2 <= 12
    requires DayNumber(y2, m2, d2) == DayNumber(y, m, d) + 1
    ensures Weekday(y2, m2, d2) == (Weekday(y, m, d) + 1) % 7
  {
    Ints.SuccessorMod(DayNumber(y, m, d) + 5, 7);
  }

  /**
   * Kim Larsen's weekday sum: January and February count as months 13 and 14 of the
   * previous year.
   */
  function KimLarsen(y: int, m: int, d: int): int
  {
    var year := if m < 3 then y - 1 else y;
    var month := if m < 3 then m + 12 else m;
    d + 2 * month + 3 * (month + 1) / 5 + year + year / 4 - year / 100 + year / 400
  }

  lemma ModShift(a: int, k: int)
    ensures (a + 7 * k) % 7 == a % 7
  {
  }

  /** Kim Larsen's sum mod 7 is the weekday, Monday = 0, whenever its year is not negative. */
  lemma KimLarsenWeekday(y: int, m: int, d: int)
    requires 0 <= y && 1 <= m <= 12 && (1 <= y || 3 <= m)
    ensures KimLarsen(y, m, d) % 7 == Weekday(y, m, d)
  {
    var dn := DayNumber(y, m, d);
    if m >= 3 {
      LeapStep(y);
      DaysBeforeMonthFromMarch(y, m);
      assert (y + 4) / 4 == y / 4 + 1 && (y + 100) / 100 == y / 100 + 1 && (y + 400) / 400 == y / 400 + 1;
      assert dn == 365 * y + y / 4 - y / 100 + y / 400 + 30 * (m - 1) + 3 * (m + 1) / 5 - 3 + d;
      assert KimLarsen(y, m, d) == dn + 5 + 7 * (4 - 4 * m - 52 * y);
      ModShift(dn + 5, 4 - 4 * m - 52 * y);
    } else {
      var p := y - 1;
      assert (p + 4) / 4 == p / 4 + 1 && (p + 100) / 100 == p / 100 + 1 && (p + 400) / 400 == p / 400 + 1;
      assert DaysBeforeMonth(y, 2) == 31;
      assert dn == 365 * p + 365 + p / 4 - p / 100 + p / 400 + (if m == 2 then 31 else 0) + d;
      assert KimLarsen(y, m, d) == dn + 5 + 7 * ((if m == 1 then -48 else -52) - 52 * p);
      ModShift(dn + 5, (if m == 1 then -48 else -52) - 52 * p);
    }
  }
}
