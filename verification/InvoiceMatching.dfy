/** Matching bank rows from Tink with rows read from e-mails, and listing both. */
module InvoiceMatching {
  import opened Wrappers

  const DAY := 24 * 60 * 60 * 1000

  class Row {
    const currency: string
    const amount: real
    const date: int
    var matched: bool
    var linkedInvoiceId: Option<string>

    constructor (currency: string, amount: real, date: int, linkedInvoiceId: Option<string>)
      ensures this.currency == currency && this.amount == amount && this.date == date
      ensures !matched && this.linkedInvoiceId == linkedInvoiceId
    {
      this.currency, this.amount, this.date := currency, amount, date;
      matched, this.linkedInvoiceId := false, linkedInvoiceId;
    }
  }

  predicate Compatible(t: Row, e: Row) {
    t.currency == e.currency && -1.0 < t.amount - e.amount < 1.0 && -2 * DAY <= t.date - e.date <= 2 * DAY
  }

  // The last of the first n rows that t is compatible with.
  function LastCompatible(t: Row, rows: seq<Row>, n: nat): (r: Option<nat>)
    requires n <= |rows|
    ensures r.Some? ==> r.value < n && Compatible(t, rows[r.value])
    ensures forall i :: 0 <= i < n && Compatible(t, rows[i]) ==> r.Some? && i <= r.value
  {
    if n == 0 then None
    else if Compatible(t, rows[n - 1]) then Some(n - 1)
    else LastCompatible(t, rows, n - 1)
  }

  ghost predicate HasCounterpart(row: Row, tinkRows: seq<Row>, emailRows: seq<Row>) {
    || (row in tinkRows && exists e :: e in emailRows && Compatible(row, e))
    || (row in emailRows && exists t :: t in tinkRows && Compatible(t, row))
  }

  // The invoice a Tink row is linked to, given what it was linked to.
  function Linked(t: Row, emailRows: seq<Row>, n: nat, was: Option<string>): Option<string>
    requires n <= |emailRows|
    reads emailRows
  {
    var last := LastCompatible(t, emailRows, n);
    if last.Some? then emailRows[last.value].linkedInvoiceId else was
  }

  // One row against all e-mail rows: the inner loop.
  method MatchRow(t: Row, emailRows: seq<Row>)
    modifies t, emailRows
    ensures forall row :: row == t || row in emailRows ==>
      (row.matched <==> old(row.matched) || HasCounterpart(row, [t], emailRows))
    ensures t !in emailRows ==>
      && (forall e :: e in emailRows ==> e.linkedInvoiceId == old(e.linkedInvoiceId))
      && t.linkedInvoiceId == Linked(t, emailRows, |emailRows|, old(t.linkedInvoiceId))
  {
    hide Compatible, HasCounterpart;
    NoCounterpart([t], emailRows);
    for j := 0 to |emailRows|
      invariant forall row :: row == t || row in emailRows ==>
        (row.matched <==> old(row.matched) || HasCounterpart(row, [t], emailRows[..j]))
      invariant t !in emailRows ==>
        && (forall e :: e in emailRows ==> e.linkedInvoiceId == old(e.linkedInvoiceId))
        && t.linkedInvoiceId == Linked(t, emailRows, j, old(t.linkedInvoiceId))
    {
      OneMoreEmail(t, emailRows, j);
      var e := emailRows[j];
      if Compatible(t, e) {
        t.matched := true;
        t.linkedInvoiceId := e.linkedInvoiceId;
        e.matched := true;
      }
    }
    assert emailRows[..|emailRows|] == emailRows;
  }

  lemma NoCounterpart(tinkRows: seq<Row>, emailRows: seq<Row>)
    ensures forall row :: !HasCounterpart(row, tinkRows, emailRows[..0])
    ensures forall row :: !HasCounterpart(row, tinkRows[..0], emailRows)
  {
  }

  lemma OneMoreEmail(t: Row, emailRows: seq<Row>, j: nat)
    requires j < |emailRows|
    ensures forall row :: HasCounterpart(row, [t], emailRows[..j + 1]) <==>
      HasCounterpart(row, [t], emailRows[..j]) || (Compatible(t, emailRows[j]) && (row == t || row == emailRows[j]))
  {
  }

  /** A row is matched at the end if and only if it was before or has a compatible row in
      the other list. Every Tink row is linked to the invoice of the last compatible
      e-mail row, as long as no row object stands in both lists; e-mail rows keep their
      link. All rows are returned, latest first, equally old ones in the order given. */
  method MatchTransactions(tinkRows: seq<Row>, emailRows: seq<Row>) returns (all: seq<Row>)
    modifies tinkRows, emailRows
    ensures forall row :: row in tinkRows || row in emailRows ==>
      (row.matched <==> old(row.matched) || HasCounterpart(row, tinkRows, emailRows))
    ensures (forall t :: t in tinkRows ==> t !in emailRows) ==>
      && (forall e :: e in emailRows ==> e.linkedInvoiceId == old(e.linkedInvoiceId))
      && (forall t :: t in tinkRows ==> t.linkedInvoiceId == Linked(t, emailRows, |emailRows|, old(t.linkedInvoiceId)))
    ensures all == SortByDate(tinkRows + emailRows)
  {
    hide HasCounterpart;
    ghost var was := map t | t in tinkRows :: t.linkedInvoiceId;
    NoCounterpart(tinkRows, emailRows);
    for i := 0 to |tinkRows|
      invariant forall row :: row in tinkRows || row in emailRows ==>
        (row.matched <==> old(row.matched) || HasCounterpart(row, tinkRows[..i], emailRows))
      invariant (forall t :: t in tinkRows ==> t !in emailRows) ==>
        && (forall e :: e in emailRows ==> e.linkedInvoiceId == old(e.linkedInvoiceId))
        && (forall t :: t in tinkRows ==>
              (t.linkedInvoiceId == if t in tinkRows[..i] then Linked(t, emailRows, |emailRows|, was[t]) else was[t]))
    {
      OneMoreRow(tinkRows, emailRows, i);
      MatchRow(tinkRows[i], emailRows);
      assert forall u :: u in tinkRows[..i + 1] <==> u in tinkRows[..i] || u == tinkRows[i];
    }
    assert tinkRows[..|tinkRows|] == tinkRows;
    all := SortByDate(tinkRows + emailRows);
  }

  lemma OneMoreRow(tinkRows: seq<Row>, emailRows: seq<Row>, i: nat)
    requires i < |tinkRows|
    ensures forall row :: HasCounterpart(row, tinkRows[..i + 1], emailRows) <==>
      HasCounterpart(row, tinkRows[..i], emailRows) || HasCounterpart(row, [tinkRows[i]], emailRows)
    ensures forall row :: HasCounterpart(row, [tinkRows[i]], emailRows) ==> row == tinkRows[i] || row in emailRows
  {
  }

  // ---------- The order of the list ----------

  function Insert(x: Row, s: seq<Row>): seq<Row> {
    if s == [] || s[0].date <= x.date then [x] + s else [s[0]] + Insert(x, s[1..])
  }

  // Array.prototype.sort, which is stable.
  function SortByDate(s: seq<Row>): seq<Row> {
    if s == [] then [] else Insert(s[0], SortByDate(s[1..]))
  }

  ghost predicate LatestFirst(s: seq<Row>) {
    forall i, j :: 0 <= i < j < |s| ==> s[i].date >= s[j].date
  }

  // The rows of one date, in order.
  function OfDate(s: seq<Row>, date: int): seq<Row> {
    if s == [] then [] else (if s[0].date == date then [s[0]] else []) + OfDate(s[1..], date)
  }

  lemma {:induction false} OfDateHas(s: seq<Row>, date: int, x: Row)
    ensures x in OfDate(s, date) <==> x in s && x.date == date
  {
    if s != [] { OfDateHas(s[1..], date, x); }
  }

  lemma {:induction false} InsertAdds(x: Row, s: seq<Row>)
    ensures multiset(Insert(x, s)) == multiset(s) + multiset{x}
  {
    if s != [] && s[0].date > x.date {
      InsertAdds(x, s[1..]);
      assert s == [s[0]] + s[1..];
    }
  }

  lemma {:induction false} InsertHas(x: Row, s: seq<Row>, y: Row)
    ensures y in Insert(x, s) <==> y == x || y in s
  {
    if s != [] && s[0].date > x.date { InsertHas(x, s[1..], y); }
  }

  lemma {:induction false} InsertKeepsOrder(x: Row, s: seq<Row>)
    requires LatestFirst(s)
    ensures LatestFirst(Insert(x, s))
  {
    if s != [] {
      var r := Insert(x, s[1..]);
      if s[0].date <= x.date {
        PutFirst(x, s);
      } else {
        InsertKeepsOrder(x, s[1..]);
        forall y | y in r
          ensures y.date <= s[0].date
        {
          InsertHas(x, s[1..], y);
        }
        PutFirst(s[0], r);
      }
    }
  }

  lemma OfDateCons(y: Row, s: seq<Row>, date: int)
    ensures OfDate([y] + s, date) == (if y.date == date then [y] else []) + OfDate(s, date)
  {
  }

  lemma {:induction false} InsertOfDate(x: Row, s: seq<Row>, date: int)
    ensures OfDate(Insert(x, s), date) == (if x.date == date then [x] else []) + OfDate(s, date)
  {
    hide OfDate;
    if s == [] || s[0].date <= x.date {
      OfDateCons(x, s, date);
    } else {
      InsertOfDate(x, s[1..], date);
      OfDateCons(s[0], Insert(x, s[1..]), date);
      OfDateCons(s[0], s[1..], date);
      assert s == [s[0]] + s[1..];
    }
  }

  lemma PutFirst(y: Row, r: seq<Row>)
    requires LatestFirst(r) && forall x :: x in r ==> x.date <= y.date
    ensures LatestFirst([y] + r)
  {
  }

  /** The listing is a permutation of all rows with the latest first, and rows of the
      same date stay in their order ... */
  lemma {:induction false} SortIsStable(s: seq<Row>, date: int)
    ensures LatestFirst(SortByDate(s)) && multiset(SortByDate(s)) == multiset(s)
    ensures OfDate(SortByDate(s), date) == OfDate(s, date)
  {
    hide Insert, OfDate, LatestFirst;
    if s != [] {
      var rest := SortByDate(s[1..]);
      SortIsStable(s[1..], date);
      InsertKeepsOrder(s[0], rest);
      InsertAdds(s[0], rest);
      InsertOfDate(s[0], rest, date);
      OfDateCons(s[0], s[1..], date);
      assert s == [s[0]] + s[1..];
    } else {
      NothingSorted(date);
    }
  }

  lemma NothingSorted(date: int)
    ensures LatestFirst([]) && OfDate([], date) == []
  {
  }

  lemma OfDateTail(s: seq<Row>, date: int)
    requires s != []
    ensures OfDate(s[1..], date) == if date == s[0].date then OfDate(s, date)[1..] else OfDate(s, date)
  {
  }

  lemma FirstIsThere(r: seq<Row>, q: seq<Row>)
    requires r != [] && OfDate(r, r[0].date) == OfDate(q, r[0].date)
    ensures r[0] in q
  {
    OfDateHas(r, r[0].date, r[0]);
    OfDateHas(q, r[0].date, r[0]);
  }

  /** ... and there is only one such list. */
  lemma {:induction false} StableOrderIsUnique(r: seq<Row>, q: seq<Row>)
    requires LatestFirst(r) && LatestFirst(q) && forall d :: OfDate(r, d) == OfDate(q, d)
    ensures r == q
  {
    if r == [] {
      if q != [] { FirstIsThere(q, r); }
    } else {
      FirstIsThere(r, q);
      FirstIsThere(q, r);
      assert r[0].date == q[0].date;
      assert OfDate(r, r[0].date)[0] == r[0] && OfDate(q, r[0].date)[0] == q[0];
      forall d
        ensures OfDate(r[1..], d) == OfDate(q[1..], d)
      {
        assert OfDate(r, d) == OfDate(q, d);
        OfDateTail(r, d);
        OfDateTail(q, d);
      }
      StableOrderIsUnique(r[1..], q[1..]);
    }
  }

  // ---------- Input order ----------

  /** Which rows count as matched does not depend on the order of either list. */
  lemma OrderDoesNotMatter(row: Row, tinkRows: seq<Row>, emailRows: seq<Row>, tinkRows': seq<Row>, emailRows': seq<Row>)
    requires multiset(tinkRows) == multiset(tinkRows') && multiset(emailRows) == multiset(emailRows')
    ensures HasCounterpart(row, tinkRows, emailRows) <==> HasCounterpart(row, tinkRows', emailRows')
  {
    assert forall x :: x in tinkRows <==> x in multiset(tinkRows);
    assert forall x :: x in tinkRows' <==> x in multiset(tinkRows');
    assert forall x :: x in emailRows <==> x in multiset(emailRows);
    assert forall x :: x in emailRows' <==> x in multiset(emailRows');
  }

  // ---------- Which rows are counterparts ----------

  /** Rows of the two lists are counterparts if and only if they are in the same currency,
      less than one unit apart, and at most two days apart. */
  lemma CounterpartIff(row: Row, tinkRows: seq<Row>, emailRows: seq<Row>)
    ensures HasCounterpart(row, tinkRows, emailRows) <==>
      exists t, e :: t in tinkRows && e in emailRows && (row == t || row == e) && CloseTo(t, e)
  {
    forall t: Row, e: Row
      ensures CloseTo(t, e) <==> Compatible(t, e)
    {
    }
  }

  predicate CloseTo(t: Row, e: Row) {
    && t.currency == e.currency
    && e.amount - 1.0 < t.amount < e.amount + 1.0
    && e.date - 172_800_000 <= t.date <= e.date + 172_800_000
  }

  /** A Tink row is linked as the last e-mail row that is its counterpart, and keeps its
      link if there is none. */
  lemma LinkedToLast(t: Row, emailRows: seq<Row>, i: nat, was: Option<string>)
    requires i < |emailRows|
    ensures CloseTo(t, emailRows[i]) && (forall j :: i < j < |emailRows| ==> !CloseTo(t, emailRows[j])) ==>
      Linked(t, emailRows, |emailRows|, was) == emailRows[i].linkedInvoiceId
    ensures (forall j :: 0 <= j < |emailRows| ==> !CloseTo(t, emailRows[j])) ==>
      Linked(t, emailRows, |emailRows|, was) == was
  {
    forall e: Row
      ensures CloseTo(t, e) <==> Compatible(t, e)
    {
    }
  }
}
