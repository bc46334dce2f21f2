/** The aggregations by month that keep the order of their rows: income, expenses and new
    users. */
module Reports {
  import opened Grouping
  import opened JsText
  import Calendar

  // A row with its creation time (milliseconds, UTC) and an amount in cents.
  datatype Dated = Dated(at: int, amount: int)

  function YearOf(t: int): int { Calendar.YearFromDay(Calendar.Day(t)) }
  function MonthOf(t: int): int { Calendar.MonthFromDay(Calendar.Day(t)) + 1 }

  // String(n)
  function IntText(n: int): string {
    if n < 0 then "-" + Decimal(-n) else Decimal(n)
  }

  // ---------- Income and expenses by month ----------

  function MonthYear(t: int): string {
    YearMonth(YearOf(t), MonthOf(t))
  }

  function YearMonth(year: int, month: int): string {
    IntText(year) + "-" + IntText(month)
  }

  function ByMonth(items: seq<Dated>): (rows: seq<Entry>)
    ensures |rows| == |items|
  {
    seq(|items|, i requires 0 <= i < |items| => Entry(MonthYear(items[i].at), items[i].amount))
  }

  method MonthlySummary(items: seq<Dated>) returns (summary: seq<Entry>)
    ensures summary == Group(ByMonth(items))
  {
    hide MonthYear, Group;
    summary := [];
    NothingGrouped();
    ghost var rows := ByMonth(items);
    for i := 0 to |items|
      invariant summary == Group(rows[..i])
    {
      var monthYear := MonthYear(items[i].at);
      var existing := Find(summary, monthYear);
      if existing < |summary| {
        summary := summary[existing := Entry(monthYear, summary[existing].total + items[i].amount)];
      } else {
        summary := summary + [Entry(monthYear, items[i].amount)];
      }
      GroupOneMore(rows, i);
    }
    assert rows[..|items|] == rows;
  }

  method ExpenseSummary(receipts: seq<Dated>, mileages: seq<Dated>) returns (summary: seq<Entry>)
    ensures summary == Group(ByMonth(receipts + mileages))
  {
    summary := MonthlySummary(receipts + mileages);
  }

  // How many users were created in each month.
  method UserActivity(createdAt: seq<int>) returns (activity: seq<Entry>)
    ensures activity == Group(ByMonth(Ones(createdAt)))
  {
    hide MonthYear, Group;
    activity := [];
    NothingGrouped();
    ghost var rows := ByMonth(Ones(createdAt));
    for i := 0 to |createdAt|
      invariant activity == Group(rows[..i])
    {
      var monthYear := MonthYear(createdAt[i]);
      var existing := Find(activity, monthYear);
      if existing < |activity| {
        activity := activity[existing := Entry(monthYear, activity[existing].total + 1)];
      } else {
        activity := activity + [Entry(monthYear, 1)];
      }
      GroupOneMore(rows, i);
    }
    assert rows[..|createdAt|] == rows;
  }

  function Ones(times: seq<int>): (items: seq<Dated>)
    ensures |items| == |times|
  {
    seq(|times|, i requires 0 <= i < |times| => Dated(times[i], 1))
  }

  lemma NothingGrouped()
    ensures Group([]) == []
  {
  }

  lemma DigitsEndAtDash(a: string, b: string, u: string, v: string)
    requires AllDigits(b) && |a| < |b|
    ensures a + "-" + u != b + "-" + v
  {
    assert (a + "-" + u)[|a|] == '-';
    assert (b + "-" + v)[|a|] == b[|a|];
  }

  lemma DigitsThenDash(a: string, b: string, u: string, v: string)
    requires AllDigits(a) && AllDigits(b) && a + "-" + u == b + "-" + v
    ensures a == b && u == v
  {
    if |a| != |b| {
      if |a| < |b| { DigitsEndAtDash(a, b, u, v); } else { DigitsEndAtDash(b, a, v, u); }
    } else {
      var s, n := a + "-" + u, |a|;
      assert s[..n] == a && s[n + 1..] == u;
      assert (b + "-" + v)[..n] == b && (b + "-" + v)[n + 1..] == v;
    }
  }

  lemma DecimalInjective(m: nat, n: nat)
    requires Decimal(m) == Decimal(n)
    ensures m == n
  {
    ValueOfDecimal(m);
    ValueOfDecimal(n);
  }

  lemma SignShows(y: int, m: nat)
    ensures YearMonth(y, m) != "" && (YearMonth(y, m)[0] == '-' <==> y < 0)
    ensures var digits := Decimal(if y < 0 then -y else y) + "-" + Decimal(m);
      digits == if y < 0 then YearMonth(y, m)[1..] else YearMonth(y, m)
  {
    hide Decimal, YearMonth;
    if y < 0 { SignBefore(y, m); } else { NoSign(y, m); }
  }

  lemma SignBefore(y: int, m: nat)
    requires y < 0
    ensures YearMonth(y, m) == "-" + (Decimal(-y) + "-" + Decimal(m))
  {
    hide Decimal;
  }

  lemma NoSign(y: nat, m: nat)
    ensures YearMonth(y, m) == Decimal(y) + "-" + Decimal(m) && IsDigit(YearMonth(y, m)[0])
  {
    hide Decimal;
    assert YearMonth(y, m)[0] == Decimal(y)[0];
  }

  lemma YearMonthInjective(y: int, m: nat, y': int, m': nat)
    requires YearMonth(y, m) == YearMonth(y', m')
    ensures y == y' && m == m'
  {
    hide Decimal, YearMonth;
    SignShows(y, m);
    SignShows(y', m');
    var (n, n') := if y < 0 then (-y, -y') else (y, y');
    DigitsThenDash(Decimal(n), Decimal(n'), Decimal(m), Decimal(m'));
    DecimalInjective(n, n');
    DecimalInjective(m, m');
  }

  /** Two rows share a bucket if and only if their year and month are the same. */
  lemma MonthYearToldApart(t: int, t': int)
    ensures MonthYear(t) == MonthYear(t') <==> SameMonth(t, t')
  {
    hide YearOf, MonthOf, YearMonth;
    MonthIsPositive(t);
    MonthIsPositive(t');
    if MonthYear(t) == MonthYear(t') {
      YearMonthInjective(YearOf(t), MonthOf(t), YearOf(t'), MonthOf(t'));
    }
  }

  lemma MonthIsPositive(t: int)
    ensures 1 <= MonthOf(t) <= 12
  {
  }

  // From the first moment of month m (1 is January) of year y up to that of the next.
  predicate InMonth(t: int, y: int, m: int) {
    Calendar.MakeDate(Calendar.MakeDay(y, m - 1, 1), 0) <= t < Calendar.MakeDate(Calendar.MakeDay(y, m, 1), 0)
  }

  lemma InMonthIff(t: int, y: int, m: int)
    requires 1 <= m <= 12
    ensures YearOf(t) == y && MonthOf(t) == m <==> InMonth(t, y, m)
  {
    hide Calendar.YearFromDay, Calendar.MonthFromDay, Calendar.MakeDay;
    Calendar.InMonthIff(Calendar.Day(t), y, m - 1);
  }

  /** A row's bucket is named after the month that the row lies in. */
  lemma MonthYearIff(t: int, y: int, m: nat)
    requires 1 <= m <= 12
    ensures MonthYear(t) == YearMonth(y, m) <==> InMonth(t, y, m)
  {
    hide YearOf, MonthOf, YearMonth, InMonth;
    MonthIsPositive(t);
    InMonthIff(t, y, m);
    if MonthYear(t) == YearMonth(y, m) { YearMonthInjective(YearOf(t), MonthOf(t), y, m); }
  }

  /** The name of January 2026 is 2026-1. */
  lemma KnownMonth(t: int)
    requires InMonth(t, 2026, 1)
    ensures MonthYear(t) == "2026-1"
  {
    hide YearOf, MonthOf, InMonth;
    InMonthIff(t, 2026, 1);
    DecimalOf2026();
    assert Decimal(1) == "1";
  }

  lemma DecimalOf2026()
    ensures Decimal(2026) == "2026"
  {
    assert Decimal(2) == "2" && Decimal(20) == Decimal(2) + "0" && Decimal(202) == Decimal(20) + "2";
    assert Decimal(2026) == Decimal(202) + "6";
  }

  /** What the monthly summary is: one bucket for each month in which a row was created,
      holding the sum of that month's rows, whatever the order of the rows; the buckets
      add up to all rows. */
  lemma MonthlySummaryMeans(items: seq<Dated>, y: int, m: nat)
    requires 1 <= m <= 12
    ensures var s, key := Group(ByMonth(items)), YearMonth(y, m);
      && Distinct(s) && Sum(s) == Sum(ByMonth(items))
      && (HasKey(s, key) <==> exists i :: 0 <= i < |items| && InMonth(items[i].at, y, m))
      && (Entry(key, SumOfMonth(items, y, m)) in s <==> HasKey(s, key))
  {
    hide MonthYear, YearOf, MonthOf, YearMonth, InMonth;
    var rows, key := ByMonth(items), YearMonth(y, m);
    GroupConserves(rows);
    GroupIsPerKey(rows);
    forall i | 0 <= i < |items|
      ensures rows[i].key == key <==> InMonth(items[i].at, y, m)
    {
      MonthYearIff(items[i].at, y, m);
    }
    SumOfMonthIs(items, y, m);
    InGroupIff(rows, Entry(key, SumOfMonth(items, y, m)));
    assert HasKey(rows, key) <==> exists x :: x in rows && x.key == key;
  }

  predicate SameMonth(t: int, t': int) {
    YearOf(t) == YearOf(t') && MonthOf(t) == MonthOf(t')
  }

  // The amounts of the rows created in a month.
  function SumOfMonth(items: seq<Dated>, y: int, m: int): int {
    if items == [] then 0
    else
      var i := items[|items| - 1];
      SumOfMonth(items[..|items| - 1], y, m) + if InMonth(i.at, y, m) then i.amount else 0
  }

  lemma {:induction false} SumOfMonthIs(items: seq<Dated>, y: int, m: nat)
    requires 1 <= m <= 12
    ensures SumOf(ByMonth(items), YearMonth(y, m)) == SumOfMonth(items, y, m)
  {
    hide MonthYear, YearOf, MonthOf, YearMonth, InMonth;
    if items != [] {
      var before := items[..|items| - 1];
      SumOfMonthIs(before, y, m);
      MonthYearIff(items[|items| - 1].at, y, m);
      assert ByMonth(items)[..|items| - 1] == ByMonth(before);
    }
  }

  // Which users were created in a month.
  function CreatedIn(times: seq<int>, y: int, m: int): set<nat> {
    set i: nat | i < |times| && InMonth(times[i], y, m)
  }

  /** The users' activity of a month is the number of users created in it. */
  lemma {:induction false} ActivityCounts(times: seq<int>, y: int, m: int)
    ensures SumOfMonth(Ones(times), y, m) == |CreatedIn(times, y, m)|
  {
    hide InMonth;
    if times != [] {
      var n, front := |times| - 1, times[..|times| - 1];
      ActivityCounts(front, y, m);
      assert Ones(times)[..n] == Ones(front);
      assert CreatedIn(times, y, m) == CreatedIn(front, y, m) + if InMonth(times[n], y, m) then {n} else {};
    }
  }
}
