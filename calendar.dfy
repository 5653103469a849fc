/** The proleptic Gregorian calendar as Python's datetime and calendar modules
    compute it: leap years, month lengths, day ordinals (date.toordinal),
    weekdays, the week-number parsing of strptime's %W directive, and the
    truncations TruncDay, TruncWeek and TruncMonth used for time series. */
module Calendar {
  import opened Outcomes

  predicate IsLeap(y: int) {
    y % 4 == 0 && (y % 100 != 0 || y % 400 == 0)
  }

  function DaysInYear(y: int): int {
    if IsLeap(y) then 366 else 365
  }

  /** calendar.monthrange(y, m)[1], the length of month m (1..12) of year y. */
  function DaysInMonth(y: int, m: int): (n: int)
    ensures 28 <= n <= 31
    ensures m == 2 ==> (n == 29 <==> IsLeap(y))
  {
    if m == 2 then (if IsLeap(y) then 29 else 28)
    else if m == 4 || m == 6 || m == 9 || m == 11 then 30
    else 31
  }

  /** Days of year y before the first of month m. */
  function DaysBeforeMonth(y: int, m: int): int
    decreases m
  {
    if m <= 1 then 0 else DaysBeforeMonth(y, m - 1) + DaysInMonth(y, m - 1)
  }

  /** Days before January 1 of year y, counted from January 1 of year 1. */
  function DaysBeforeYear(y: int): int {
    var p := y - 1;
    p * 365 + p / 4 - p / 100 + p / 400
  }

  /** date(y, m, d).toordinal(): day 1 is January 1 of year 1. */
  function Ordinal(y: int, m: int, d: int): int {
    DaysBeforeYear(y) + DaysBeforeMonth(y, m) + d
  }

  /** datetime.MINYEAR and datetime.MAXYEAR: the years a date or datetime can hold. */
  const MinYear: int := 1
  const MaxYear: int := 9999

  /** The ordinal of 9999-12-31, the last date Python's date type can hold. */
  const MaxOrdinal: int := 3652059

  /** date.weekday() of the date with ordinal n: Monday is 0, Sunday is 6. */
  function Weekday(n: int): (w: int)
    ensures 0 <= w < 7
  {
    (n + 6) % 7
  }

  const Monday: int := 0

  datatype Date = Date(year: int, month: int, day: int)

  /** A point in time: a calendar date and the microseconds elapsed since its midnight,
      the resolution of a datetime column. */
  datatype DateTime = DateTime(date: Date, micro: int)

  predicate ValidDate(d: Date) {
    MinYear <= d.year <= MaxYear && 1 <= d.month <= 12 && 1 <= d.day <= DaysInMonth(d.year, d.month)
  }

  predicate ValidDateTime(t: DateTime) {
    ValidDate(t.date) && 0 <= t.micro < 86400000000
  }

  function DayOrdinal(d: Date): int {
    Ordinal(d.year, d.month, d.day)
  }

  /** A point in time on the ordinal time line, so that it can be compared and shifted. */
  datatype Moment = Moment(day: int, micro: int)

  function MomentOf(t: DateTime): Moment {
    Moment(DayOrdinal(t.date), t.micro)
  }

  /** Midnight at the start of day n: what a `date` bound means for a datetime column. */
  function Midnight(n: int): Moment {
    Moment(n, 0)
  }

  predicate MomentLe(a: Moment, b: Moment) {
    a.day < b.day || (a.day == b.day && a.micro <= b.micro)
  }

  /** The moment `days` whole days before t (datetime minus timedelta(days=...)). */
  function DaysBefore(t: DateTime, days: int): Moment {
    Moment(DayOrdinal(t.date) - days, t.micro)
  }

  lemma {:induction false} YearStep(y: int)
    ensures Ordinal(y + 1, 1, 1) == Ordinal(y, 1, 1) + DaysInYear(y)
  {
    LeapCountStep(y - 1);
  }

  /** The count of leap years among 1..p grows by one from p to p + 1 exactly when
      p + 1 is a leap year. */
  lemma LeapCountStep(p: int)
    ensures (p + 1) / 4 - (p + 1) / 100 + (p + 1) / 400 == p / 4 - p / 100 + p / 400 + (if IsLeap(p + 1) then 1 else 0)
  {
    var y := p + 1;
    assert y / 4 == p / 4 + (if y % 4 == 0 then 1 else 0);
    assert y / 100 == p / 100 + (if y % 100 == 0 then 1 else 0);
    assert y / 400 == p / 400 + (if y % 400 == 0 then 1 else 0);
  }

  lemma MaxOrdinalIsLastDate()
    ensures MaxOrdinal == Ordinal(9999, 12, 31)
  {
  }

  /** The ordinal of the Monday that strptime("Y-Ww-1", "%Y-W%W-%w") yields, following
      _calc_julian_from_U_or_W: week 0 holds the days before the year's first Monday,
      week 1 starts on that Monday. A year that does not print as four digits, a week
      outside 0..53 or a Monday past 9999-12-31 (date.fromordinal) raises ValueError. */
  function WeekStart(y: int, w: int): Result<int> {
    if !(1000 <= y <= 9999 && 0 <= w <= 53) then Err(ValueError)
    else
      var jan1 := Ordinal(y, 1, 1);
      var firstWeekday := Weekday(jan1);
      var week0Length := (7 - firstWeekday) % 7;
      var julian := if w == 0 then 1 + Monday - firstWeekday
                    else 1 + week0Length + 7 * (w - 1) + Monday;
      // a non-positive day of year is rebased onto the previous year
      var start := if julian <= 0 then (julian + DaysInYear(y - 1) - 1) + Ordinal(y - 1, 1, 1)
                   else (julian - 1) + jan1;
      if start > MaxOrdinal then Err(ValueError) else Ok(start)
  }

  /** The first Monday of year y, on or after January 1. */
  function FirstMonday(y: int): (n: int)
    ensures Ordinal(y, 1, 1) <= n < Ordinal(y, 1, 1) + 7
    ensures Weekday(n) == Monday
  {
    var jan1 := Ordinal(y, 1, 1);
    MondayOnOrAfter(jan1);
    jan1 + (7 - Weekday(jan1)) % 7
  }

  lemma MondayOnOrAfter(n: int)
    ensures Weekday(n + (7 - Weekday(n)) % 7) == Monday
    ensures Weekday(n - Weekday(n)) == Monday
  {
    var k := Weekday(n);
    assert n + 6 == 7 * ((n + 6) / 7) + k;
    if k == 0 {
      assert n + (7 - k) % 7 == n;
    } else {
      assert n + (7 - k) % 7 + 6 == 7 * ((n + 6) / 7 + 1);
    }
    assert n - k + 6 == 7 * ((n + 6) / 7);
  }

  /** Every week strptime resolves starts on a Monday: week w >= 1 starts 7(w-1) days
      after the year's first Monday, and week 0 starts on the Monday on or before
      January 1 (the same day as week 1 exactly when January 1 is a Monday). */
  lemma {:induction false} WeekStartShape(y: int, w: int)
    requires WeekStart(y, w).Ok?
    ensures Weekday(WeekStart(y, w).value) == Monday
    ensures w >= 1 ==> WeekStart(y, w).value == FirstMonday(y) + 7 * (w - 1)
    ensures w == 0 ==> Ordinal(y, 1, 1) - 6 <= WeekStart(y, w).value <= Ordinal(y, 1, 1)
    ensures w == 0 ==> (WeekStart(y, 0).value == Ordinal(y, 1, 1) <==> Weekday(Ordinal(y, 1, 1)) == Monday)
  {
    var jan1 := Ordinal(y, 1, 1);
    var k := Weekday(jan1);
    YearStep(y - 1);
    MondayOnOrAfter(jan1);
    var s := WeekStart(y, w).value;
    if w == 0 {
      assert s == jan1 - k;
    } else {
      assert s == FirstMonday(y) + 7 * (w - 1);
      WeekdayShift(FirstMonday(y), w - 1);
    }
  }

  lemma WeekdayShift(n: int, j: int)
    ensures Weekday(n + 7 * j) == Weekday(n)
  {
    assert n + 7 * j + 6 == 7 * ((n + 6) / 7 + j) + (n + 6) % 7;
  }

  /** The accepted inputs of WeekStart: a four-digit year, a week in 0..53 and a week
      whose Monday is no later than 9999-12-31. */
  lemma WeekStartErrors(y: int, w: int)
    ensures WeekStart(y, w).Err? <==>
      !(1000 <= y <= 9999 && 0 <= w <= 53) || (w >= 1 && FirstMonday(y) + 7 * (w - 1) > MaxOrdinal)
    ensures WeekStart(y, w).Err? ==> WeekStart(y, w).error == ValueError
    ensures WeekStart(y, 0).Ok? ==> WeekStart(y, 0).value + 6 <= MaxOrdinal
  {
    if 1000 <= y <= 9999 && 0 <= w <= 53 {
      if w >= 1 {
        var jan1 := Ordinal(y, 1, 1);
        var julian := 1 + (7 - Weekday(jan1)) % 7 + 7 * (w - 1) + Monday;
        assert julian >= 1;
        assert (julian - 1) + jan1 == FirstMonday(y) + 7 * (w - 1);
      } else {
        YearStep(y - 1);
        assert WeekStart(y, w).Ok? && WeekStart(y, 0).value + 6 <= MaxOrdinal by {
          YearStep(y);
          assert Ordinal(y, 1, 1) <= Ordinal(9999, 1, 1) by { OrdinalMonotone(y, 9999); }
          assert Ordinal(9999, 1, 1) + 6 < MaxOrdinal;
        }
      }
    }
  }

  lemma {:induction false} OrdinalMonotone(y: int, z: int)
    requires y <= z
    ensures Ordinal(y, 1, 1) <= Ordinal(z, 1, 1)
    decreases z - y
  {
    if y < z {
      YearStep(y);
      OrdinalMonotone(y + 1, z);
    }
  }

  /** TruncDay, TruncWeek and TruncMonth as day ordinals: the day itself, the Monday that
      starts its week, and the first of its month. */
  function TruncDay(t: DateTime): int {
    DayOrdinal(t.date)
  }

  function TruncWeek(t: DateTime): (n: int)
    ensures Weekday(n) == Monday
    ensures n <= DayOrdinal(t.date) < n + 7
  {
    MondayOnOrAfter(DayOrdinal(t.date));
    DayOrdinal(t.date) - Weekday(DayOrdinal(t.date))
  }

  function TruncMonth(t: DateTime): int {
    Ordinal(t.date.year, t.date.month, 1)
  }
}
