/** Revenue by month, listed in the order in which JavaScript sorts strings, and when
    that is the order of the calendar. */
module RevenueReport {
  import opened Grouping
  import opened JsText
  import opened Reports

  // s.padStart(2, '0')
  function Pad2(s: string): string {
    if s == "" then "00" else if |s| == 1 then "0" + s else s
  }

  function SortableMonth(year: int, month: int): string {
    IntText(year) + "-" + Pad2(IntText(month))
  }

  function BySortableMonth(items: seq<Dated>): (rows: seq<Entry>)
    ensures |rows| == |items|
  {
    seq(|items|, i requires 0 <= i < |items| => Entry(SortableMonth(YearOf(items[i].at), MonthOf(items[i].at)),
                                                      items[i].amount))
  }

  method RevenueGrowth(histories: seq<Dated>) returns (result: seq<Entry>)
    ensures result == Sort(Group(BySortableMonth(histories)))
  {
    hide Group, SortableMonth, YearOf, MonthOf, Sort;
    var monthWiseRevenue: seq<Entry> := [];
    NothingGrouped();
    ghost var rows := BySortableMonth(histories);
    for i := 0 to |histories|
      invariant monthWiseRevenue == Group(rows[..i])
    {
      var item := histories[i];
      var month := SortableMonth(YearOf(item.at), MonthOf(item.at));
      var k := Find(monthWiseRevenue, month);
      if k == |monthWiseRevenue| {
        monthWiseRevenue := monthWiseRevenue + [Entry(month, 0)];
      }
      monthWiseRevenue := monthWiseRevenue[k := Entry(month, monthWiseRevenue[k].total + item.amount)];
      GroupOneMore(rows, i);
    }
    assert rows[..|histories|] == rows;
    result := Sort(monthWiseRevenue);
  }

  // ---------- Array.prototype.sort on strings ----------

  predicate Less(s: string, t: string) {
    t != "" && (s == "" || s[0] < t[0] || (s[0] == t[0] && Less(s[1..], t[1..])))
  }

  function Insert(e: Entry, list: seq<Entry>): seq<Entry> {
    if list == [] || !Less(list[0].key, e.key) then [e] + list else [list[0]] + Insert(e, list[1..])
  }

  function Sort(list: seq<Entry>): seq<Entry> {
    if list == [] then [] else Insert(list[0], Sort(list[1..]))
  }

  ghost predicate Ascending(list: seq<Entry>) {
    forall i, j :: 0 <= i < j < |list| ==> Less(list[i].key, list[j].key)
  }

  lemma {:induction false} LessTotal(s: string, t: string)
    ensures Less(s, t) || Less(t, s) || s == t
    ensures !(Less(s, t) && Less(t, s)) && !Less(s, s)
  {
    if s != "" && t != "" && s[0] == t[0] {
      LessTotal(s[1..], t[1..]);
      assert s == [s[0]] + s[1..] && t == [t[0]] + t[1..];
    }
    if s != "" { LessTotal(s[1..], s[1..]); }
  }

  lemma {:induction false} LessTransitive(s: string, t: string, u: string)
    requires Less(s, t) && Less(t, u)
    ensures Less(s, u)
  {
    if s != "" && s[0] == t[0] && t[0] == u[0] { LessTransitive(s[1..], t[1..], u[1..]); }
  }

  lemma {:induction false} InsertHas(e: Entry, list: seq<Entry>)
    ensures multiset(Insert(e, list)) == multiset(list) + multiset{e}
  {
    if list != [] && Less(list[0].key, e.key) {
      InsertHas(e, list[1..]);
      assert list == [list[0]] + list[1..];
    }
  }

  lemma {:induction false} InsertKeeps(e: Entry, list: seq<Entry>)
    requires Ascending(list) && forall x :: x in list ==> x.key != e.key
    ensures Ascending(Insert(e, list))
  {
    hide Less;
    if list != [] {
      LessTotal(list[0].key, e.key);
      if Less(list[0].key, e.key) {
        InsertKeeps(e, list[1..]);
        forall x | x in Insert(e, list[1..])
          ensures Less(list[0].key, x.key)
        {
          InsertHas(e, list[1..]);
          assert x in multiset(Insert(e, list[1..]));
        }
      } else {
        forall x | x in list
          ensures Less(e.key, x.key)
        {
          if x != list[0] { LessTransitive(e.key, list[0].key, x.key); }
        }
      }
    }
  }

  /** The result holds the same months with the same totals, in ascending order of their
      texts. */
  lemma {:induction false} SortOrders(list: seq<Entry>)
    requires Distinct(list)
    ensures Ascending(Sort(list)) && multiset(Sort(list)) == multiset(list)
  {
    hide Less, Insert;
    if list != [] {
      SortOrders(list[1..]);
      InsertHas(list[0], Sort(list[1..]));
      assert list == [list[0]] + list[1..];
      forall x | x in Sort(list[1..])
        ensures x.key != list[0].key
      {
        assert x in multiset(Sort(list[1..])) && x in list[1..];
      }
      InsertKeeps(list[0], Sort(list[1..]));
    }
  }

  // ---------- Texts and the calendar ----------

  predicate Before(y: int, m: int, y': int, m': int) {
    y < y' || (y == y' && m < m')
  }

  lemma {:induction false} LessAppend(s: string, t: string, u: string, v: string)
    requires |s| == |t|
    ensures Less(s + u, t + v) <==> if s == t then Less(u, v) else Less(s, t)
  {
    if s == "" {
      assert s + u == u && t + v == v;
    } else {
      assert (s + u)[1..] == s[1..] + u && (t + v)[1..] == t[1..] + v;
      LessAppend(s[1..], t[1..], u, v);
      assert s == [s[0]] + s[1..] && t == [t[0]] + t[1..];
    }
  }

  // Of two numbers with equally many digits, the smaller one is the smaller text.
  lemma {:induction false} DigitsInOrder(s: string, t: string)
    requires AllDigits(s) && AllDigits(t) && |s| == |t|
    ensures Less(s, t) <==> Value(s) < Value(t)
    ensures s == t <==> Value(s) == Value(t)
  {
    if s != "" {
      var n := |s| - 1;
      DigitsInOrder(s[..n], t[..n]);
      LessAppend(s[..n], t[..n], [s[n]], [t[n]]);
      assert s == s[..n] + [s[n]] && t == t[..n] + [t[n]];
      assert Less([s[n]], [t[n]]) <==> s[n] < t[n];
    }
  }

  lemma {:induction false} DecimalGrows(m: nat, n: nat)
    requires m <= n
    ensures |Decimal(m)| <= |Decimal(n)|
  {
    if m >= 10 { DecimalGrows(m / 10, n / 10); }
  }

  lemma PaddedMonths(m: nat, m': nat)
    requires 1 <= m <= 12 && 1 <= m' <= 12
    ensures Less(Pad2(IntText(m)), Pad2(IntText(m'))) <==> m < m'
  {
    TwoDigits(m);
    TwoDigits(m');
    DigitsInOrder(Pad2(IntText(m)), Pad2(IntText(m')));
  }

  lemma TwoDigits(m: nat)
    requires 1 <= m <= 12
    ensures AllDigits(Pad2(IntText(m))) && |Pad2(IntText(m))| == 2 && Value(Pad2(IntText(m))) == m
  {
    ValueOfDecimal(m);
    if m < 10 {
      var d := Decimal(m);
      assert d == [DigitChar(m)] && ("0" + d)[..1] == "0" && "0"[..0] == "" && d[..0] == "";
    } else {
      assert Decimal(m) == Decimal(1) + [DigitChar(m % 10)];
    }
  }

  /** Years of equally many digits: the order of the texts is the order of the months. */
  lemma SameLengthInOrder(y: nat, m: nat, y': nat, m': nat)
    requires 1 <= m <= 12 && 1 <= m' <= 12 && |Decimal(y)| == |Decimal(y')|
    ensures Less(SortableMonth(y, m), SortableMonth(y', m')) <==> Before(y, m, y', m')
  {
    hide Decimal, Pad2, Less;
    ValueOfDecimal(y);
    ValueOfDecimal(y');
    DigitsInOrder(Decimal(y), Decimal(y'));
    var p, p' := Pad2(IntText(m)), Pad2(IntText(m'));
    PaddedMonths(m, m');
    LessAppend(Decimal(y), Decimal(y'), "-" + p, "-" + p');
    LessAppend("-", "-", p, p');
    assert SortableMonth(y, m) == Decimal(y) + ("-" + p) && SortableMonth(y', m') == Decimal(y') + ("-" + p');
  }

  // A number that takes one digit more than the one before it starts with 1, that one
  // with 9.
  lemma {:induction false} RollOver(y: nat)
    requires |Decimal(y)| < |Decimal(y + 1)|
    ensures Decimal(y)[0] == '9' && Decimal(y + 1)[0] == '1'
  {
    if y >= 10 {
      assert (y + 1) / 10 == y / 10 || (y + 1) / 10 == y / 10 + 1;
      RollOver(y / 10);
    }
  }

  lemma {:induction false} SomeYearRollsOver(lo: nat, hi: nat) returns (y: nat)
    requires lo <= hi && |Decimal(lo)| < |Decimal(hi)|
    ensures lo <= y < hi && |Decimal(y)| < |Decimal(y + 1)|
  {
    if |Decimal(hi - 1)| < |Decimal(hi)| {
      y := hi - 1;
    } else {
      y := SomeYearRollsOver(lo, hi - 1);
    }
  }

  ghost predicate Chronological(lo: nat, hi: nat) {
    forall y, m, y', m' :: lo <= y <= hi && lo <= y' <= hi && 1 <= m <= 12 && 1 <= m' <= 12 ==>
      (Less(SortableMonth(y, m), SortableMonth(y', m')) <==> Before(y, m, y', m'))
  }

  /** Sorting the texts sorts the months if and only if all years in the range have the
      same number of digits: it does for 1000 to 9999, and from 9999 to 10000 it does
      not. */
  lemma ChronologicalIff(lo: nat, hi: nat)
    requires lo <= hi
    ensures Chronological(lo, hi) <==> |Decimal(lo)| == |Decimal(hi)|
  {
    hide Decimal, Less, SortableMonth;
    DecimalGrows(lo, hi);
    if |Decimal(lo)| == |Decimal(hi)| {
      forall y: nat, m: nat, y': nat, m': nat | lo <= y <= hi && lo <= y' <= hi && 1 <= m <= 12 && 1 <= m' <= 12
        ensures Less(SortableMonth(y, m), SortableMonth(y', m')) <==> Before(y, m, y', m')
      {
        DecimalGrows(lo, y);
        DecimalGrows(y, hi);
        DecimalGrows(lo, y');
        DecimalGrows(y', hi);
        SameLengthInOrder(y, m, y', m');
      }
    } else {
      var y := SomeYearRollsOver(lo, hi);
      RollOver(y);
      TenIsBeforeNine(y);
      assert Before(y, 1, y + 1, 1) && lo <= y + 1 <= hi;
    }
  }

  lemma TenIsBeforeNine(y: nat)
    requires Decimal(y)[0] == '9' && Decimal(y + 1)[0] == '1'
    ensures !Less(SortableMonth(y, 1), SortableMonth(y + 1, 1))
  {
  }

  /** The revenue list has exactly one entry per month with revenue, each with that
      month's sum, in ascending order of their texts. */
  lemma RevenueListed(items: seq<Dated>, e: Entry)
    ensures var rows := BySortableMonth(items); var result := Sort(Group(rows));
      && Ascending(result)
      && (e in result <==> HasKey(rows, e.key) && e.total == SumOf(rows, e.key))
  {
    hide SortableMonth;
    var rows := BySortableMonth(items);
    GroupIsPerKey(rows);
    SortOrders(Group(rows));
    InGroupIff(rows, e);
    assert HasKey(rows, e.key) <==> exists x :: x in rows && x.key == e.key;
    assert e in Sort(Group(rows)) <==> e in multiset(Sort(Group(rows)));
    assert e in Group(rows) <==> e in multiset(Group(rows));
  }

  /** As long as the years have equally many digits, an earlier entry of the list is an
      earlier month: the months of histories a and b. */
  lemma RevenueInOrder(items: seq<Dated>, lo: nat, hi: nat, i: nat, j: nat) returns (a: nat, b: nat)
    requires |Decimal(lo)| == |Decimal(hi)| && forall k :: 0 <= k < |items| ==> lo <= YearOf(items[k].at) <= hi
    requires i < j < |Sort(Group(BySortableMonth(items)))|
    ensures a < |items| && b < |items|
    ensures var result := Sort(Group(BySortableMonth(items)));
      && result[i].key == SortableMonth(YearOf(items[a].at), MonthOf(items[a].at))
      && result[j].key == SortableMonth(YearOf(items[b].at), MonthOf(items[b].at))
      && Before(YearOf(items[a].at), MonthOf(items[a].at), YearOf(items[b].at), MonthOf(items[b].at))
  {
    hide Sort, Group, Less, SortableMonth, Decimal, YearOf, MonthOf;
    var rows := BySortableMonth(items);
    var result := Sort(Group(rows));
    RevenueListed(items, result[i]);
    RevenueListed(items, result[j]);
    a :| 0 <= a < |items| && rows[a].key == result[i].key;
    b :| 0 <= b < |items| && rows[b].key == result[j].key;
    assert lo <= YearOf(items[a].at) <= hi && lo <= YearOf(items[b].at) <= hi;
    MonthIsPositive(items[a].at);
    MonthIsPositive(items[b].at);
    ChronologicalIff(lo, hi);
    assert Less(result[i].key, result[j].key);
  }

  // ---------- Which month an entry is for ----------

  lemma IntTextInjective(y: int, y': int)
    requires IntText(y) == IntText(y')
    ensures y == y'
  {
    hide Decimal;
    SignOfText(y);
    SignOfText(y');
    if y < 0 && y' < 0 {
      assert IntText(y)[1..] == Decimal(-y) && IntText(y')[1..] == Decimal(-y');
      DecimalInjective(-y, -y');
    } else if y >= 0 && y' >= 0 {
      DecimalInjective(y, y');
    }
  }

  lemma SignOfText(y: int)
    ensures IntText(y) != "" && (IntText(y)[0] == '-' <==> y < 0)
  {
    hide Decimal;
  }

  lemma SortableMonthInjective(y: int, m: nat, y': int, m': nat)
    requires 1 <= m <= 12 && 1 <= m' <= 12 && SortableMonth(y, m) == SortableMonth(y', m')
    ensures y == y' && m == m'
  {
    hide Decimal, IntText, Pad2;
    var p, p', s := Pad2(IntText(m)), Pad2(IntText(m')), SortableMonth(y, m);
    TwoDigits(m);
    TwoDigits(m');
    assert s[|s| - 2..] == p && s[|s| - 2..] == p';
    assert s[..|s| - 3] == IntText(y) && s[..|s| - 3] == IntText(y');
    IntTextInjective(y, y');
  }

  lemma SortableMonthIff(t: int, y: int, m: nat)
    requires 1 <= m <= 12
    ensures SortableMonth(YearOf(t), MonthOf(t)) == SortableMonth(y, m) <==> InMonth(t, y, m)
  {
    hide YearOf, MonthOf, SortableMonth, InMonth;
    MonthIsPositive(t);
    InMonthIff(t, y, m);
    if SortableMonth(YearOf(t), MonthOf(t)) == SortableMonth(y, m) {
      SortableMonthInjective(YearOf(t), MonthOf(t), y, m);
    }
  }

  /** The revenue list has an entry for a month if and only if a row lies in it, and that
      holds the sum of the month's rows. */
  lemma RevenueOfMonth(items: seq<Dated>, y: int, m: nat)
    requires 1 <= m <= 12
    ensures var result, key := Sort(Group(BySortableMonth(items))), SortableMonth(y, m);
      && (HasKey(result, key) <==> exists i :: 0 <= i < |items| && InMonth(items[i].at, y, m))
      && (Entry(key, SumOfMonth(items, y, m)) in result <==> HasKey(result, key))
  {
    hide YearOf, MonthOf, SortableMonth, InMonth, Sort, Group;
    var rows, key := BySortableMonth(items), SortableMonth(y, m);
    var result, sum := Sort(Group(rows)), SumOfMonth(items, y, m);
    forall i | 0 <= i < |items|
      ensures rows[i].key == key <==> InMonth(items[i].at, y, m)
    {
      SortableMonthIff(items[i].at, y, m);
    }
    SumOfSortableMonth(items, y, m);
    RevenueListed(items, Entry(key, sum));
    if i :| 0 <= i < |result| && result[i].key == key { RevenueListed(items, result[i]); }
  }

  lemma {:induction false} SumOfSortableMonth(items: seq<Dated>, y: int, m: nat)
    requires 1 <= m <= 12
    ensures SumOf(BySortableMonth(items), SortableMonth(y, m)) == SumOfMonth(items, y, m)
  {
    hide YearOf, MonthOf, SortableMonth, InMonth;
    if items != [] {
      var before := items[..|items| - 1];
      SumOfSortableMonth(before, y, m);
      SortableMonthIff(items[|items| - 1].at, y, m);
      assert BySortableMonth(items)[..|items| - 1] == BySortableMonth(before);
    }
  }

  /** The name of January 2026 is 2026-01. */
  lemma KnownSortableMonth(t: int)
    requires InMonth(t, 2026, 1)
    ensures SortableMonth(YearOf(t), MonthOf(t)) == "2026-01"
  {
    hide YearOf, MonthOf, InMonth;
    InMonthIff(t, 2026, 1);
    DecimalOf2026();
    assert Decimal(1) == "1";
  }
}
