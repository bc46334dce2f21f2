/** The proleptic Gregorian calendar behind JavaScript's Date, in UTC: time values are
    integer milliseconds since 1970-01-01, as in section 15.9.1 of ECMA-262 5.1. */
module Calendar {
  const MS_PER_DAY: int := 86_400_000

  predicate IsLeap(y: int) {
    y % 4 == 0 && (y % 100 != 0 || y % 400 == 0)
  }

  function YearLength(y: int): int {
    if IsLeap(y) then 366 else 365
  }

  // Day number of 1 January (section 15.9.1.3).
  function DayFromYear(y: int): int {
    365 * (y - 1970) + (y - 1969) / 4 - (y - 1901) / 100 + (y - 1601) / 400
  }

  // Days before the first of month m (0 = January) within its year (section 15.9.1.4).
  function DaysBefore(m: int, leap: bool): int
    requires 0 <= m < 12
  {
    [0, 31, 59, 90, 120, 151, 181, 212, 243, 273, 304, 334][m] + (if leap && m >= 2 then 1 else 0)
  }

  function MonthLength(y: int, m: int): int
    requires 0 <= m < 12
  {
    if m == 1 then (if IsLeap(y) then 29 else 28)
    else if m in {3, 5, 8, 10} then 30
    else 31
  }

  // Section 15.9.1.12: months outside 0..11 carry into the year, dates outside the
  // month run on into the neighbouring months.
  function MakeDay(y: int, m: int, d: int): int {
    var ym := y + m / 12;
    DayFromYear(ym) + DaysBefore(m % 12, IsLeap(ym)) + d - 1
  }

  lemma QuotientStep(x: int, k: int)
    requires k in {4, 100, 400}
    ensures (x + 1) / k == x / k + (if (x + 1) % k == 0 then 1 else 0)
  {
  }

  lemma YearStep(y: int)
    ensures DayFromYear(y + 1) == DayFromYear(y) + YearLength(y)
  {
    QuotientStep(y - 1969, 4);
    QuotientStep(y - 1901, 100);
    QuotientStep(y - 1601, 400);
    assert (y - 1968) % 4 == 0 <==> y % 4 == 0;
    assert (y - 1900) % 100 == 0 <==> y % 100 == 0;
    assert (y - 1600) % 400 == 0 <==> y % 400 == 0;
    CenturiesAreQuads(y);
  }

  lemma CenturiesAreQuads(y: int)
    ensures y % 100 == 0 ==> y % 4 == 0
    ensures y % 400 == 0 ==> y % 100 == 0
  {
  }

  /** Moving to the same date of the next month adds the length of the month left. */
  lemma MonthStep(y: int, m: int, d: int)
    requires 0 <= m < 12
    ensures MakeDay(y, m + 1, d) == MakeDay(y, m, d) + MonthLength(y, m)
  {
    hide DayFromYear;
    assert m / 12 == 0 && m % 12 == m;
    if m == 11 {
      YearStep(y);
    } else {
      assert (m + 1) / 12 == 0 && (m + 1) % 12 == m + 1;
    }
  }

  /** Moving to the same date of the next year adds the length of the year whose
      29 February may lie in between: in January and February that is the year left,
      from March on the year entered. */
  lemma YearMove(y: int, m: int, d: int)
    requires 0 <= m < 12
    ensures MakeDay(y + 1, m, d) == MakeDay(y, m, d) + YearLength(if m < 2 then y else y + 1)
  {
    hide DayFromYear;
    assert m / 12 == 0 && m % 12 == m;
    YearStep(y);
    LeapYearsApart(y);
  }

  lemma LeapYearsApart(y: int)
    ensures !(IsLeap(y) && IsLeap(y + 1))
  {
  }

  // The year that contains a day (section 15.9.1.3), searched from y.
  function YearSearchUp(day: int, y: int): (r: int)
    requires DayFromYear(y) <= day
    ensures DayFromYear(r) <= day < DayFromYear(r + 1)
    decreases day - DayFromYear(y)
  {
    YearStep(y);
    if day < DayFromYear(y + 1) then y else YearSearchUp(day, y + 1)
  }

  function YearSearchDown(day: int, y: int): (r: int)
    requires day < DayFromYear(y + 1)
    ensures DayFromYear(r) <= day < DayFromYear(r + 1)
    decreases DayFromYear(y + 1) - day
  {
    YearStep(y);
    if DayFromYear(y) <= day then y else YearSearchDown(day, y - 1)
  }

  function YearFromDay(day: int): (y: int)
    ensures DayFromYear(y) <= day < DayFromYear(y + 1)
  {
    if day >= 0 then YearSearchUp(day, 1970) else YearSearchDown(day, 1969)
  }

  function MonthSearch(offset: int, leap: bool, m: int): (r: int)
    requires 0 <= m < 12 && DaysBefore(m, leap) <= offset
    ensures m <= r < 12 && DaysBefore(r, leap) <= offset
    ensures r < 11 ==> offset < DaysBefore(r + 1, leap)
    decreases 12 - m
  {
    if m == 11 || offset < DaysBefore(m + 1, leap) then m else MonthSearch(offset, leap, m + 1)
  }

  function MonthFromDay(day: int): (m: int)
    ensures 0 <= m < 12
  {
    var y := YearFromDay(day);
    MonthSearch(day - DayFromYear(y), IsLeap(y), 0)
  }

  function DateFromDay(day: int): int {
    var y := YearFromDay(day);
    day - DayFromYear(y) - DaysBefore(MonthFromDay(day), IsLeap(y)) + 1
  }

  lemma DateLiesInMonth(offset: int, y: int)
    requires 0 <= offset < YearLength(y)
    ensures var m := MonthSearch(offset, IsLeap(y), 0);
            0 <= offset - DaysBefore(m, IsLeap(y)) < MonthLength(y, m)
  {
  }

  /** Breaking a day into year, month and date and putting it together again gives the
      day back, and the date lies within its month. */
  lemma MakeDayInvertsParts(day: int)
    ensures var y, m, d := YearFromDay(day), MonthFromDay(day), DateFromDay(day);
            MakeDay(y, m, d) == day && 1 <= d <= MonthLength(y, m)
  {
    hide DayFromYear, YearFromDay, IsLeap, DaysBefore, MakeDay, MonthLength;
    var y := YearFromDay(day);
    MakeDayInYear(y, MonthFromDay(day), DateFromDay(day));
    YearStep(y);
    DateLiesInMonth(day - DayFromYear(y), y);
  }

  lemma MakeDayInYear(y: int, m: int, d: int)
    requires 0 <= m < 12
    ensures MakeDay(y, m, d) == DayFromYear(y) + DaysBefore(m, IsLeap(y)) + d - 1
  {
    assert m / 12 == 0 && m % 12 == m;
  }

  function Day(t: int): int { t / MS_PER_DAY }
  function TimeWithinDay(t: int): int { t % MS_PER_DAY }
  function MakeDate(day: int, time: int): int { day * MS_PER_DAY + time }

  // d.setMonth(d.getMonth() + 1)
  function NextMonth(t: int): int {
    var day := Day(t);
    MakeDate(MakeDay(YearFromDay(day), MonthFromDay(day) + 1, DateFromDay(day)), TimeWithinDay(t))
  }

  // d.setFullYear(d.getFullYear() + 1)
  function NextYear(t: int): int {
    var day := Day(t);
    MakeDate(MakeDay(YearFromDay(day) + 1, MonthFromDay(day), DateFromDay(day)), TimeWithinDay(t))
  }

  // d.setDate(d.getDate() + n)
  function AddDays(t: int, n: int): int {
    var day := Day(t);
    MakeDate(MakeDay(YearFromDay(day), MonthFromDay(day), DateFromDay(day) + n), TimeWithinDay(t))
  }

  /** The monthly step is as long as the month it starts in, even when the date does not
      exist in the next month and runs over into the month after it. */
  lemma NextMonthAdvance(t: int)
    ensures var y, m := YearFromDay(Day(t)), MonthFromDay(Day(t));
            NextMonth(t) == t + MonthLength(y, m) * MS_PER_DAY && 28 <= MonthLength(y, m) <= 31
  {
    hide DayFromYear, MakeDay;
    var y, m, d := YearFromDay(Day(t)), MonthFromDay(Day(t)), DateFromDay(Day(t));
    MakeDayInvertsParts(Day(t));
    MonthStep(y, m, d);
    ShiftDay(t, MonthLength(y, m));
  }

  /** The yearly step is 366 days long exactly when a 29 February lies on the way, the
      starting day included. */
  lemma NextYearAdvance(t: int)
    ensures var y, m := YearFromDay(Day(t)), MonthFromDay(Day(t));
            NextYear(t) == t + YearLength(if m < 2 then y else y + 1) * MS_PER_DAY
  {
    hide DayFromYear, MakeDay;
    var y, m, d := YearFromDay(Day(t)), MonthFromDay(Day(t)), DateFromDay(Day(t));
    MakeDayInvertsParts(Day(t));
    YearMove(y, m, d);
    ShiftDay(t, YearLength(if m < 2 then y else y + 1));
  }

  lemma ShiftDay(t: int, n: int)
    ensures MakeDate(Day(t) + n, TimeWithinDay(t)) == t + n * MS_PER_DAY
  {
  }

  lemma AddDaysAdvance(t: int, n: int)
    ensures AddDays(t, n) == t + n * MS_PER_DAY
  {
    MakeDayInvertsParts(Day(t));
    ShiftDay(t, n);
  }

  // Math.ceil(ms / day) for whole milliseconds.
  function CeilDays(ms: int): (days: int)
    ensures (days - 1) * MS_PER_DAY < ms <= days * MS_PER_DAY
  {
    (ms + MS_PER_DAY - 1) / MS_PER_DAY
  }

  // ---------- Where a month lies ----------

  // The first day of the n-th month, counted from January of the year 0.
  function FirstOf(n: int): int {
    MakeDay(0, n, 1)
  }

  lemma FirstOfIs(y: int, m: int)
    ensures FirstOf(12 * y + m) == MakeDay(y, m, 1)
  {
    assert (12 * y + m) / 12 == y + m / 12 && (12 * y + m) % 12 == m % 12;
  }

  lemma {:induction false} MonthsFollow(n: int, k: nat)
    ensures FirstOf(n) + 28 * k <= FirstOf(n + k)
    decreases k
  {
    hide MakeDay;
    if k > 0 {
      MonthsFollow(n, k - 1);
      var j := n + k - 1;
      MonthStep(j / 12, j % 12, 1);
      FirstOfIs(j / 12, j % 12);
      FirstOfIs(j / 12, j % 12 + 1);
      assert 12 * (j / 12) + j % 12 == j;
    }
  }

  /** A day is in a month if and only if it lies between its first day and the first day of
      the month after it. */
  lemma InMonthIff(day: int, y: int, m: int)
    requires 0 <= m < 12
    ensures YearFromDay(day) == y && MonthFromDay(day) == m <==> MakeDay(y, m, 1) <= day < MakeDay(y, m + 1, 1)
  {
    hide YearFromDay, MonthFromDay, DateFromDay, MakeDay;
    var y', m', d' := YearFromDay(day), MonthFromDay(day), DateFromDay(day);
    MakeDayInvertsParts(day);
    ShiftDate(y', m', d');
    MonthStep(y', m', 1);
    FirstOfIs(y', m');
    FirstOfIs(y', m' + 1);
    FirstOfIs(y, m);
    FirstOfIs(y, m + 1);
    var n, n' := 12 * y + m, 12 * y' + m';
    if n' < n { MonthsFollow(n' + 1, n - n' - 1); }
    if n < n' { MonthsFollow(n + 1, n' - n - 1); }
  }

  lemma ShiftDate(y: int, m: int, d: int)
    ensures MakeDay(y, m, d) == MakeDay(y, m, 1) + d - 1
  {
  }

  /** Day 0 is 1 January 1970; 29 February 2024 and 1 January 2026 are days 19782 and 20454,
      and the latter begins 1767225600 seconds after day 0. */
  lemma KnownDays()
    ensures MakeDay(1970, 0, 1) == 0 && MakeDay(2024, 1, 29) == 19782 && MakeDay(2026, 0, 1) == 20454
    ensures MakeDate(20454, 0) == 1_767_225_600_000
  {
    hide MakeDay;
    MakeDayInYear(1970, 0, 1);
    MakeDayInYear(2024, 1, 29);
    MakeDayInYear(2026, 0, 1);
    assert DayFromYear(1970) == 0 && DayFromYear(2024) == 19723 && DayFromYear(2026) == 20454;
  }
}
