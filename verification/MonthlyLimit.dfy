/** The monthly limit on invoices: what a synchronisation counts before it starts, and what
    that means for the number of invoices in a month. */
module MonthlyLimit {
  import opened Wrappers
  import Billing
  import Calendar

  function YearOf(t: int): int { Calendar.YearFromDay(Calendar.Day(t)) }
  function MonthOf(t: int): int { Calendar.MonthFromDay(Calendar.Day(t)) }

  // new Date(year, month, 1)
  function MonthStart(t: int): int {
    Calendar.MakeDate(Calendar.MakeDay(YearOf(t), MonthOf(t), 1), 0)
  }

  // new Date(year, month + 1, 0): the start of the month's last day
  function LastMidnight(t: int): int {
    Calendar.MakeDate(Calendar.MakeDay(YearOf(t), MonthOf(t) + 1, 0), 0)
  }

  function NextMonthStart(t: int): int {
    Calendar.MakeDate(Calendar.MakeDay(YearOf(t), MonthOf(t) + 1, 1), 0)
  }

  /** Every moment lies in its month, and the last midnight is one day before its end. */
  lemma MonthBounds(t: int)
    ensures MonthStart(t) <= t < NextMonthStart(t) && LastMidnight(t) == NextMonthStart(t) - Calendar.MS_PER_DAY
    ensures MonthStart(t) < LastMidnight(t)
  {
    hide Calendar.YearFromDay, Calendar.MonthFromDay, Calendar.DateFromDay, Calendar.MakeDay, Calendar.MonthLength;
    var day := Calendar.Day(t);
    var y, m, d := YearOf(t), MonthOf(t), Calendar.DateFromDay(day);
    Calendar.MakeDayInvertsParts(day);
    Calendar.MonthStep(y, m, 1);
    ShiftDate(y, m, 1, d - 1);
    ShiftDate(y, m + 1, 0, 1);
    LongEnough(y, m);
  }

  lemma ShiftDate(y: int, m: int, d: int, n: int)
    ensures Calendar.MakeDay(y, m, d + n) == Calendar.MakeDay(y, m, d) + n
  {
  }

  lemma LongEnough(y: int, m: int)
    requires 0 <= m < 12
    ensures Calendar.MonthLength(y, m) >= 28
  {
  }

  // ---------- Counting ----------

  // How many of the creation times lie in [from, to).
  function Number(created: seq<int>, from: int, to: int): nat {
    if created == [] then 0 else Number(created[1..], from, to) + if from <= created[0] < to then 1 else 0
  }

  // What a synchronisation at t counts, up to and including the last midnight.
  function Counted(created: seq<int>, t: int): nat {
    Number(created, MonthStart(t), LastMidnight(t) + 1)
  }

  // The invoices of the month, and those of its last day.
  function Total(created: seq<int>, t: int): nat {
    Number(created, MonthStart(t), NextMonthStart(t))
  }

  function OnLastDay(created: seq<int>, t: int): nat {
    Number(created, LastMidnight(t) + 1, NextMonthStart(t))
  }

  lemma {:induction false} NumberSplits(created: seq<int>, a: int, b: int, c: int)
    requires a <= b <= c
    ensures Number(created, a, c) == Number(created, a, b) + Number(created, b, c)
  {
    if created != [] { NumberSplits(created[1..], a, b, c); }
  }

  /** The invoices of the last day are not counted. */
  lemma CountedIsWithoutLastDay(created: seq<int>, t: int)
    ensures Counted(created, t) == Total(created, t) - OnLastDay(created, t)
  {
    hide MonthStart, LastMidnight, NextMonthStart;
    MonthBounds(t);
    NumberSplits(created, MonthStart(t), LastMidnight(t) + 1, NextMonthStart(t));
  }

  lemma {:induction false} NumberConcat(created: seq<int>, more: seq<int>, from: int, to: int)
    ensures Number(created + more, from, to) == Number(created, from, to) + Number(more, from, to)
  {
    if created == [] {
      assert created + more == more;
    } else {
      assert (created + more)[1..] == created[1..] + more;
      NumberConcat(created[1..], more, from, to);
    }
  }

  function Times(t: int, n: nat): seq<int> {
    seq(n, _ => t)
  }

  lemma {:induction false} NumberOfTimes(t: int, n: nat, from: int, to: int)
    ensures Number(Times(t, n), from, to) == if from <= t < to then n else 0
  {
    if n > 0 {
      assert Times(t, n)[1..] == Times(t, n - 1);
      NumberOfTimes(t, n - 1, from, to);
    }
  }

  // ---------- One synchronisation ----------

  // Its time, whether the limit is checked at all, and the invoices it would create. An
  // invoice entered by hand is one unchecked.
  datatype Try = Try(at: int, checked: bool, size: nat)

  predicate LetThrough(created: seq<int>, s: Try, limit: int) {
    s.checked ==> Counted(created, s.at) < limit
  }

  function AfterTry(created: seq<int>, s: Try, limit: int): seq<int> {
    if LetThrough(created, s, limit) then created + Times(s.at, s.size) else created
  }

  /** This is the check of the two synchronisations: the cron job's and that of a reading
      on request ask only users of a paid plan, the manual one asks everybody. */
  lemma TryIsBillings(st: Billing.State, user: Billing.UserId, r: Billing.Reading, created: seq<int>, n: nat)
    requires r.latest.Some? ==> r.latest.value in st.histories
    requires user in st.plans && user in st.configs && r.mailbox == Billing.Read(n)
    requires r.thisMonth == Counted(created, st.now)
    ensures var access, plan := Billing.CheckAccess(st, user, r.latest), st.plans[user];
            var cron := Try(st.now, plan.limited && access.kind == Billing.ActiveLabel, n);
            Billing.ReadMail(st, user, r).1 ==
              if access.Granted? && LetThrough(created, cron, plan.perMonth) then Some(n) else None
    ensures var plan := st.plans[user];
            Billing.AtLimit(st, user, r.thisMonth) <==>
            !LetThrough(created, Try(st.now, plan.limited, n), plan.perMonth)
  {
    hide Counted, Calendar.CeilDays;
  }

  // ---------- A month ----------

  predicate SameMonth(t: int, t': int) {
    YearOf(t) == YearOf(t') && MonthOf(t) == MonthOf(t')
  }

  function AfterAll(created: seq<int>, tries: seq<Try>, limit: int): seq<int> {
    if tries == [] then created
    else AfterTry(AfterAll(created, tries[..|tries| - 1], limit), tries[|tries| - 1], limit)
  }

  lemma TryAdds(created: seq<int>, s: Try, limit: int, t: int)
    requires SameMonth(s.at, t)
    ensures Total(AfterTry(created, s, limit), t) ==
            Total(created, t) + if LetThrough(created, s, limit) then s.size else 0
  {
    hide MonthStart, LastMidnight, NextMonthStart;
    SameBounds(s.at, t);
    MonthBounds(s.at);
    NumberConcat(created, Times(s.at, s.size), MonthStart(t), NextMonthStart(t));
    NumberOfTimes(s.at, s.size, MonthStart(t), NextMonthStart(t));
  }

  lemma SameBounds(t: int, t': int)
    requires SameMonth(t, t')
    ensures MonthStart(t) == MonthStart(t') && LastMidnight(t) == LastMidnight(t')
    ensures NextMonthStart(t) == NextMonthStart(t')
  {
  }

  // The k-th synchronisation is refused or finds room for all its invoices.
  ghost predicate Fits(created: seq<int>, tries: seq<Try>, limit: int, t: int, k: nat)
    requires k < |tries|
  {
    var before := AfterAll(created, tries[..k], limit);
    LetThrough(before, tries[k], limit) ==> Total(before, t) + tries[k].size <= limit
  }

  /** A month that starts within the limit ends within it if and only if every
      synchronisation that is let through finds room for all the invoices it creates. */
  lemma {:induction false} StaysWithinIff(created: seq<int>, tries: seq<Try>, limit: int, t: int)
    requires Total(created, t) <= limit && forall k :: 0 <= k < |tries| ==> SameMonth(tries[k].at, t)
    ensures Total(AfterAll(created, tries, limit), t) >= Total(created, t)
    ensures Total(AfterAll(created, tries, limit), t) <= limit <==>
            forall k :: 0 <= k < |tries| ==> Fits(created, tries, limit, t, k)
    decreases |tries|
  {
    hide Total, AfterTry, LetThrough, SameMonth;
    if tries != [] {
      var front, last := tries[..|tries| - 1], tries[|tries| - 1];
      var before := AfterAll(created, front, limit);
      StaysWithinIff(created, front, limit, t);
      TryAdds(before, last, limit, t);
      forall k | 0 <= k < |front|
        ensures Fits(created, tries, limit, t, k) <==> Fits(created, front, limit, t, k)
      {
        assert tries[..k] == front[..k];
      }
      assert tries[..|front|] == front && tries[|front|] == last;
      assert Fits(created, tries, limit, t, |front|) <==>
             (LetThrough(before, last, limit) ==> Total(before, t) + last.size <= limit);
    }
  }

  /** A synchronisation whose limit is checked is let through if and only if the month's
      invoices, those of its last day aside, are fewer than the limit. */
  lemma LetThroughIff(created: seq<int>, s: Try, limit: int)
    requires s.checked
    ensures LetThrough(created, s, limit) <==> Total(created, s.at) - OnLastDay(created, s.at) < limit
  {
    hide Counted, Total, OnLastDay;
    CountedIsWithoutLastDay(created, s.at);
  }

  // So it finds room if it creates one invoice and the last day has none yet.
  lemma OneInvoiceFits(created: seq<int>, s: Try, limit: int)
    requires s.checked && s.size <= 1 && OnLastDay(created, s.at) == 0 && LetThrough(created, s, limit)
    ensures Total(created, s.at) + s.size <= limit
  {
    hide Total, OnLastDay, LetThrough;
    LetThroughIff(created, s, limit);
  }

  // Nothing is added to the last day by then.
  lemma LastDayStaysEmpty(created: seq<int>, s: Try, limit: int, t: int)
    requires s.at <= LastMidnight(t) && OnLastDay(created, t) == 0
    ensures OnLastDay(AfterTry(created, s, limit), t) == 0
  {
    hide MonthStart, LastMidnight, NextMonthStart;
    NumberConcat(created, Times(s.at, s.size), LastMidnight(t) + 1, NextMonthStart(t));
    NumberOfTimes(s.at, s.size, LastMidnight(t) + 1, NextMonthStart(t));
  }

  /** Checked synchronisations that create one invoice at most keep to the limit until the
      last day begins. */
  lemma {:induction false} OneByOneStaysWithin(created: seq<int>, tries: seq<Try>, limit: int, t: int)
    requires Total(created, t) <= limit && OnLastDay(created, t) == 0
    requires forall k :: 0 <= k < |tries| ==>
               SameMonth(tries[k].at, t) && tries[k].at <= LastMidnight(t) && tries[k].checked && tries[k].size <= 1
    ensures Total(AfterAll(created, tries, limit), t) <= limit && OnLastDay(AfterAll(created, tries, limit), t) == 0
    decreases |tries|
  {
    hide Total, OnLastDay, AfterTry, LetThrough, SameMonth, LastMidnight;
    if tries != [] {
      var front, last := tries[..|tries| - 1], tries[|tries| - 1];
      var before := AfterAll(created, front, limit);
      OneByOneStaysWithin(created, front, limit, t);
      TryAdds(before, last, limit, t);
      LastDayStaysEmpty(before, last, limit, t);
      SameCounts(before, last.at, t);
      if LetThrough(before, last, limit) { OneInvoiceFits(before, last, limit); }
    }
  }

  lemma SameCounts(created: seq<int>, t: int, t': int)
    requires SameMonth(t, t')
    ensures Total(created, t) == Total(created, t') && OnLastDay(created, t) == OnLastDay(created, t')
  {
    hide MonthStart, LastMidnight, NextMonthStart;
    SameBounds(t, t');
  }

  // ---------- The three ways past the limit ----------

  /** An import of two where there is room for one, a trial's of one where there is none,
      and on the last day of a month any number: each is let through. */
  lemma PastTheLimit(t: int, limit: nat)
    requires limit > 0
    ensures LetThrough(Times(MonthStart(t), limit - 1), Try(t, true, 2), limit)
            && Total(Times(MonthStart(t), limit - 1), t) + 2 == limit + 1
    ensures LetThrough(Times(MonthStart(t), limit), Try(t, false, 1), limit)
            && Total(Times(MonthStart(t), limit), t) == limit
    ensures LastMidnight(t) < t ==>
              forall n: nat :: LetThrough(Times(t, n), Try(t, true, 1), limit) && Total(Times(t, n), t) == n
  {
    hide MonthStart, LastMidnight, NextMonthStart;
    MonthBounds(t);
    NumberOfTimes(MonthStart(t), limit - 1, MonthStart(t), NextMonthStart(t));
    NumberOfTimes(MonthStart(t), limit - 1, MonthStart(t), LastMidnight(t) + 1);
    NumberOfTimes(MonthStart(t), limit, MonthStart(t), NextMonthStart(t));
    forall n: nat | LastMidnight(t) < t
      ensures LetThrough(Times(t, n), Try(t, true, 1), limit) && Total(Times(t, n), t) == n
    {
      NumberOfTimes(t, n, MonthStart(t), NextMonthStart(t));
      NumberOfTimes(t, n, MonthStart(t), LastMidnight(t) + 1);
    }
  }
}
