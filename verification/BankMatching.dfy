/** Matching stored bank transactions with each other. A transfer shows up once on each
    account it touches, and the two rows are recognised by currency, amount and time. */
module BankMatching {
  type Id = string
  datatype Trx = Trx(currency: string, amount: real, date: int, matched: bool)
  type Rows = map<Id, Trx>

  const HOUR := 60 * 60 * 1000

  predicate Compatible(a: Trx, b: Trx) {
    a.currency == b.currency && a.amount == b.amount && -HOUR <= a.date - b.date <= HOUR
  }

  // The result of the query for unmatched rows, in some order.
  ghost predicate Lists(rows: Rows, ids: seq<Id>) {
    && (forall k :: k in ids <==> k in rows && !rows[k].matched)
    && (forall i, j :: 0 <= i < j < |ids| ==> ids[i] != ids[j])
  }

  function Listed(rows: Rows, ids: seq<Id>): (s: seq<Trx>)
    requires forall k :: k in ids ==> k in rows
    ensures |s| == |ids|
  {
    seq(|ids|, i requires 0 <= i < |ids| => rows[ids[i]])
  }

  function Mark(rows: Rows, ids: set<Id>): (r: Rows)
    ensures r.Keys == rows.Keys
  {
    map k | k in rows :: if k in ids then rows[k].(matched := true) else rows[k]
  }

  // ---------- What a run counts and marks ----------

  function Count(x: Trx, s: seq<Trx>): nat {
    if s == [] then 0 else (if Compatible(x, s[0]) then 1 else 0) + Count(x, s[1..])
  }

  // The number of compatible pairs.
  function Pairs(s: seq<Trx>): nat {
    if s == [] then 0 else Count(s[0], s[1..]) + Pairs(s[1..])
  }

  function Partners(s: seq<Trx>, i: nat): nat
    requires i < |s|
  {
    Count(s[i], s[..i]) + Count(s[i], s[i + 1..])
  }

  ghost predicate HasPartner(s: seq<Trx>, i: nat)
    requires i < |s|
  {
    exists j :: 0 <= j < |s| && j != i && Compatible(s[i], s[j])
  }

  // The ids among the given ones whose row has a partner.
  ghost function Partnered(rows: Rows, ids: seq<Id>): set<Id>
    requires forall k :: k in ids ==> k in rows
  {
    PartneredAmong(Listed(rows, ids), ids, |ids|)
  }

  ghost function PartneredAmong(s: seq<Trx>, ids: seq<Id>, n: nat): set<Id>
    requires |s| == |ids| && n <= |ids|
  {
    set i | 0 <= i < n && HasPartner(s, i) :: ids[i]
  }

  // Whether the loops have compared positions a and b once they stand at i and j.
  predicate Compared(i: nat, j: nat, a: nat, b: nat) {
    var (x, y) := if a < b then (a, b) else (b, a);
    x != y && (x < i || (x == i && y < j))
  }

  ghost predicate Hit(s: seq<Trx>, i: nat, j: nat, a: nat)
    requires a < |s|
  {
    exists b :: 0 <= b < |s| && Compared(i, j, a, b) && Compatible(s[a], s[b])
  }

  // Which ids are marked by then.
  ghost predicate MarkedSoFar(s: seq<Trx>, ids: seq<Id>, marked: set<Id>, i: nat, j: nat)
    requires |s| == |ids|
  {
    && (forall k :: k in marked ==> k in ids)
    && (forall a :: 0 <= a < |ids| ==> (ids[a] in marked <==> Hit(s, i, j, a)))
  }

  class Transactions {
    var rows: Rows

    constructor (rows: Rows)
      ensures this.rows == rows
    {
      this.rows := rows;
    }

    // Marks exactly the listed rows that have a partner, and returns twice the number
    // of compatible pairs.
    method MatchTransactions(ids: seq<Id>) returns (matchedCount: nat)
      requires Lists(rows, ids)
      modifies this
      ensures rows == Mark(old(rows), Partnered(old(rows), ids))
      ensures matchedCount == 2 * Pairs(Listed(old(rows), ids))
    {
      hide MarkedSoFar, Partnered, Mark, Compatible, Count, Pairs;
      var snapshot := rows;
      ghost var s := Listed(snapshot, ids);
      ghost var marked: set<Id> := {};
      matchedCount := 0;
      assert s[0..] == s;
      NoneLeft(s);
      NothingMarked(snapshot, ids);
      for i := 0 to |ids|
        invariant rows == Mark(snapshot, marked)
        invariant MarkedSoFar(s, ids, marked, i, i)
        invariant matchedCount + 2 * Pairs(s[i..]) == 2 * Pairs(s)
      {
        PairsFrom(s, i);
        StartRow(s, ids, marked, i);
        for j := i + 1 to |ids|
          invariant rows == Mark(snapshot, marked)
          invariant MarkedSoFar(s, ids, marked, i, j)
          invariant matchedCount + 2 * Count(s[i], s[j..]) + 2 * Pairs(s[i + 1..]) == 2 * Pairs(s)
        {
          CountFrom(s[i], s, j);
          MarkStep(s, ids, marked, i, j);
          var trx1, trx2 := snapshot[ids[i]], snapshot[ids[j]];
          if Compatible(trx1, trx2) {
            MarkTwo(snapshot, marked, ids[i], ids[j]);
            rows := rows[ids[i] := rows[ids[i]].(matched := true)][ids[j] := rows[ids[j]].(matched := true)];
            marked := marked + {ids[i], ids[j]};
            matchedCount := matchedCount + 2;
          }
        }
        NextRow(s, ids, marked, i);
      }
      NoneLeft(s);
      AllCompared(snapshot, ids, marked);
    }
  }

  lemma NothingMarked(rows: Rows, ids: seq<Id>)
    requires forall k :: k in ids ==> k in rows
    ensures Mark(rows, {}) == rows && MarkedSoFar(Listed(rows, ids), ids, {}, 0, 0)
  {
  }

  lemma StartRow(s: seq<Trx>, ids: seq<Id>, marked: set<Id>, i: nat)
    requires |s| == |ids| && i < |ids| && MarkedSoFar(s, ids, marked, i, i)
    ensures MarkedSoFar(s, ids, marked, i, i + 1)
  {
  }

  lemma PairsFrom(s: seq<Trx>, i: nat)
    requires i < |s|
    ensures Pairs(s[i..]) == Count(s[i], s[i + 1..]) + Pairs(s[i + 1..])
  {
  }

  lemma CountFrom(x: Trx, s: seq<Trx>, j: nat)
    requires j < |s|
    ensures Count(x, s[j..]) == (if Compatible(x, s[j]) then 1 else 0) + Count(x, s[j + 1..])
  {
  }

  lemma NoneLeft(s: seq<Trx>)
    ensures Pairs(s[|s|..]) == 0 && forall x :: Count(x, s[|s|..]) == 0
  {
  }

  lemma MarkTwo(rows: Rows, marked: set<Id>, k: Id, l: Id)
    requires k in rows && l in rows && k != l
    ensures var r := Mark(rows, marked);
      r[k := r[k].(matched := true)][l := r[l].(matched := true)] == Mark(rows, marked + {k, l})
  {
  }

  lemma MarkStep(s: seq<Trx>, ids: seq<Id>, marked: set<Id>, i: nat, j: nat)
    requires |s| == |ids| && i < j < |ids| && MarkedSoFar(s, ids, marked, i, j)
    requires forall a, b :: 0 <= a < b < |ids| ==> ids[a] != ids[b]
    ensures MarkedSoFar(s, ids, if Compatible(s[i], s[j]) then marked + {ids[i], ids[j]} else marked, i, j + 1)
  {
  }

  lemma NextRow(s: seq<Trx>, ids: seq<Id>, marked: set<Id>, i: nat)
    requires |s| == |ids| && i < |ids| && MarkedSoFar(s, ids, marked, i, |ids|)
    ensures MarkedSoFar(s, ids, marked, i + 1, i + 1)
  {
  }

  lemma AllCompared(rows: Rows, ids: seq<Id>, marked: set<Id>)
    requires forall k :: k in ids ==> k in rows
    requires MarkedSoFar(Listed(rows, ids), ids, marked, |ids|, |ids|)
    ensures marked == Partnered(rows, ids)
  {
  }

  // ---------- Handshakes ----------

  function Total(s: seq<Trx>, n: nat): nat
    requires n <= |s|
  {
    if n == 0 then 0 else Total(s, n - 1) + Partners(s, n - 1)
  }

  lemma {:induction false} CountConcat(x: Trx, s: seq<Trx>, t: seq<Trx>)
    ensures Count(x, s + t) == Count(x, s) + Count(x, t)
  {
    if s == [] {
      assert s + t == t;
    } else {
      assert (s + t)[1..] == s[1..] + t;
      CountConcat(x, s[1..], t);
    }
  }

  lemma {:induction false} CountPositiveIff(x: Trx, s: seq<Trx>)
    ensures Count(x, s) > 0 <==> exists j :: 0 <= j < |s| && Compatible(x, s[j])
  {
    if s != [] {
      CountPositiveIff(x, s[1..]);
      assert forall j :: 0 < j < |s| ==> s[j] == s[1..][j - 1];
    }
  }

  lemma CountOne(x: Trx, y: Trx)
    ensures Count(x, [y]) == (if Compatible(x, y) then 1 else 0) == Count(y, [x])
  {
    assert [y][1..] == [] && [x][1..] == [];
  }

  lemma PartnersCons(x: Trx, s: seq<Trx>, k: nat)
    requires k < |s|
    ensures Partners([x] + s, k + 1) == Partners(s, k) + Count(s[k], [x])
  {
    hide Count;
    var t := [x] + s;
    assert t[k + 1] == s[k] && t[..k + 1] == [x] + s[..k] && t[k + 2..] == s[k + 1..];
    CountConcat(s[k], [x], s[..k]);
  }

  // Putting x in front gives every row compatible with it one more partner.
  lemma {:induction false} TotalCons(x: Trx, s: seq<Trx>, n: nat)
    requires n <= |s|
    ensures Total([x] + s, n + 1) == Total(s, n) + Count(x, s) + Count(x, s[..n])
  {
    hide Count, Partners;
    if n == 0 {
      FirstPartners(x, s);
    } else {
      TotalCons(x, s, n - 1);
      PartnersCons(x, s, n - 1);
      assert s[..n] == s[..n - 1] + [s[n - 1]];
      CountConcat(x, s[..n - 1], [s[n - 1]]);
      CountOne(x, s[n - 1]);
    }
  }

  lemma FirstPartners(x: Trx, s: seq<Trx>)
    ensures Total([x] + s, 1) == Count(x, s) && Count(x, s[..0]) == 0 && Total(s, 0) == 0
  {
    var t := [x] + s;
    assert t[0] == x && t[..0] == [] && t[1..] == s && s[..0] == [];
    assert Total(t, 1) == Total(t, 0) + Partners(t, 0);
  }

  /** The returned count is the sum of all rows' numbers of partners. */
  lemma {:induction false} Handshake(s: seq<Trx>)
    ensures Total(s, |s|) == 2 * Pairs(s)
  {
    if s != [] {
      Handshake(s[1..]);
      TotalCons(s[0], s[1..], |s| - 1);
      assert [s[0]] + s[1..] == s && s[1..][..|s| - 1] == s[1..];
    }
  }

  lemma HasPartnerIff(s: seq<Trx>, i: nat)
    requires i < |s|
    ensures HasPartner(s, i) <==> Partners(s, i) > 0
  {
    CountPositiveIff(s[i], s[..i]);
    CountPositiveIff(s[i], s[i + 1..]);
    assert forall j :: i < j < |s| ==> s[j] == s[i + 1..][j - i - 1];
  }

  // The number of rows among the first n that get matched.
  function NewlyMatched(s: seq<Trx>, n: nat): nat
    requires n <= |s|
  {
    if n == 0 then 0 else NewlyMatched(s, n - 1) + if Partners(s, n - 1) > 0 then 1 else 0
  }

  lemma {:induction false} TotalBound(s: seq<Trx>, n: nat)
    requires n <= |s|
    ensures Total(s, n) >= NewlyMatched(s, n)
    ensures Total(s, n) == NewlyMatched(s, n) <==> forall i :: 0 <= i < n ==> Partners(s, i) <= 1
  {
    if n > 0 { TotalBound(s, n - 1); }
  }

  // What a run marks is what NewlyMatched counts.
  lemma {:induction false} PartneredCounted(rows: Rows, ids: seq<Id>, n: nat)
    requires Lists(rows, ids) && n <= |ids|
    ensures |PartneredAmong(Listed(rows, ids), ids, n)| == NewlyMatched(Listed(rows, ids), n)
  {
    hide HasPartner, Partners, PartneredAmong, Listed;
    if n > 0 {
      PartneredCounted(rows, ids, n - 1);
      HasPartnerIff(Listed(rows, ids), n - 1);
      OneMorePartnered(Listed(rows, ids), ids, n - 1);
    } else {
      NonePartnered(Listed(rows, ids), ids);
    }
  }

  lemma NonePartnered(s: seq<Trx>, ids: seq<Id>)
    requires |s| == |ids|
    ensures PartneredAmong(s, ids, 0) == {}
  {
  }

  lemma OneMorePartnered(s: seq<Trx>, ids: seq<Id>, n: nat)
    requires |s| == |ids| && n < |ids| && forall i, j :: 0 <= i < j < |ids| ==> ids[i] != ids[j]
    ensures var before := PartneredAmong(s, ids, n);
            ids[n] !in before && PartneredAmong(s, ids, n + 1) == if HasPartner(s, n) then before + {ids[n]} else before
  {
    hide HasPartner;
  }

  /** The rows that become matched are those with a partner. The count is never less than
      their number, and is that number exactly when no row has more than one partner. */
  lemma CountsMatchedRowsIff(rows: Rows, ids: seq<Id>)
    requires Lists(rows, ids)
    ensures var s, after := Listed(rows, ids), Mark(rows, Partnered(rows, ids));
            var newly := set k | k in rows && !rows[k].matched && after[k].matched;
            && newly == Partnered(rows, ids)
            && 2 * Pairs(s) >= |newly|
            && (2 * Pairs(s) == |newly| <==> forall i :: 0 <= i < |s| ==> Partners(s, i) <= 1)
  {
    hide Partners, Pairs, HasPartner;
    var s := Listed(rows, ids);
    Handshake(s);
    TotalBound(s, |s|);
    PartneredCounted(rows, ids, |ids|);
    assert forall k :: k in Partnered(rows, ids) ==> k in ids;
  }

  /** Three rows alike are counted as six. */
  lemma ThreeCountAsSix(t: Trx)
    requires !t.matched
    ensures var rows, ids := map["a" := t, "b" := t, "c" := t], ["a", "b", "c"];
            Lists(rows, ids) && 2 * Pairs(Listed(rows, ids)) == 6 && Partnered(rows, ids) == {"a", "b", "c"}
  {
    var rows, ids := map["a" := t, "b" := t, "c" := t], ["a", "b", "c"];
    assert "a"[0] != "b"[0] && "a"[0] != "c"[0] && "b"[0] != "c"[0];
    assert Listed(rows, ids) == [t] + ([t] + [t]);
    AllAlike(t);
    forall k
      ensures k in Partnered(rows, ids) <==> k in {"a", "b", "c"}
    {
      PartneredIff(rows, ids, k);
      assert ids[0] in ids && ids[1] in ids;
    }
  }

  lemma AllAlike(t: Trx)
    ensures Pairs([t] + ([t] + [t])) == 3
  {
    hide Pairs, Count;
    var none: seq<Trx> := [];
    NoneLeft(none);
    assert none[0..] == none && [t] + none == [t];
    PairsCons(t, none);
    PairsCons(t, [t]);
    PairsCons(t, [t] + [t]);
    CountConcat(t, [t], [t]);
    CountOne(t, t);
    assert Compatible(t, t) && Count(t, none) == 0;
  }

  /** A second run right after finds nothing: whatever order its query returns, no pair
      of the rows left is compatible, and nothing is marked. */
  lemma SecondRunFindsNothing(rows: Rows, ids: seq<Id>, ids': seq<Id>)
    requires Lists(rows, ids) && Lists(Mark(rows, Partnered(rows, ids)), ids')
    ensures var rows' := Mark(rows, Partnered(rows, ids));
      Pairs(Listed(rows', ids')) == 0 && Mark(rows', Partnered(rows', ids')) == rows'
  {
    var rows' := Mark(rows, Partnered(rows, ids));
    var s' := Listed(rows', ids');
    forall i, j | 0 <= i < |s'| && 0 <= j < |s'| && i != j
      ensures !Compatible(s'[i], s'[j])
    {
      assert ids'[i] in ids' && ids'[j] in ids' && ids'[i] != ids'[j];
      StaysAlone(rows, ids, ids'[i], ids'[j]);
    }
    NoPairs(s');
    assert Partnered(rows', ids') == {};
  }

  lemma StaysAlone(rows: Rows, ids: seq<Id>, k: Id, l: Id)
    requires Lists(rows, ids) && k in ids && l in ids && k != l && k !in Partnered(rows, ids)
    ensures !Compatible(rows[k], rows[l])
  {
    var s := Listed(rows, ids);
    var a :| 0 <= a < |ids| && ids[a] == k;
    var b :| 0 <= b < |ids| && ids[b] == l;
    assert !HasPartner(s, a);
    assert s[a] == rows[k] && s[b] == rows[l];
  }

  lemma {:induction false} NoPairs(s: seq<Trx>)
    requires forall i, j :: 0 <= i < |s| && 0 <= j < |s| && i != j ==> !Compatible(s[i], s[j])
    ensures Pairs(s) == 0
  {
    if s != [] {
      CountPositiveIff(s[0], s[1..]);
      NoPairs(s[1..]);
    }
  }

  // ---------- The order of the query does not matter ----------

  lemma {:induction false} CountInOrder(x: Trx, s: seq<Trx>, t: seq<Trx>)
    requires multiset(s) == multiset(t)
    ensures Count(x, s) == Count(x, t)
  {
    if s == [] {
      assert |multiset(t)| == 0;
    } else {
      assert s == [s[0]] + s[1..];
      var k := Find(t, s[0], s[1..]);
      CountInOrder(x, s[1..], t[..k] + t[k + 1..]);
      assert t == t[..k] + ([t[k]] + t[k + 1..]);
      CountConcat(x, t[..k], [t[k]] + t[k + 1..]);
      CountConcat(x, t[..k], t[k + 1..]);
    }
  }

  // x stands in t, and what is left without it is what rest holds.
  lemma Find(t: seq<Trx>, x: Trx, rest: seq<Trx>) returns (k: nat)
    requires multiset([x] + rest) == multiset(t)
    ensures k < |t| && t[k] == x && multiset(t[..k] + t[k + 1..]) == multiset(rest)
  {
    assert x in multiset([x] + rest);
    k :| 0 <= k < |t| && t[k] == x;
    assert t == t[..k] + [x] + t[k + 1..];
    assert multiset(t[..k] + [x] + t[k + 1..]) == multiset(t[..k]) + multiset{x} + multiset(t[k + 1..]);
    assert multiset([x] + rest) - multiset{x} == multiset(rest);
  }

  lemma PairsCons(y: Trx, s: seq<Trx>)
    ensures Pairs([y] + s) == Count(y, s) + Pairs(s)
  {
    assert ([y] + s)[1..] == s;
  }

  // Moving a row to the front keeps the pairs.
  lemma {:induction false} PairsToFront(x: Trx, s: seq<Trx>, t: seq<Trx>)
    ensures Pairs(s + [x] + t) == Pairs([x] + (s + t))
  {
    hide Count, Pairs;
    if s == [] {
      assert s + [x] + t == [x] + (s + t);
    } else {
      var y, r := s[0], s[1..];
      PairsToFront(x, r, t);
      assert s + [x] + t == [y] + (r + [x] + t) && s + t == [y] + (r + t);
      PairsCons(y, r + [x] + t);
      PairsCons(x, s + t);
      PairsCons(y, r + t);
      PairsCons(x, r + t);
      CountConcat(y, r + [x], t);
      CountConcat(y, r, [x]);
      CountConcat(y, r, t);
      CountConcat(x, [y], r + t);
      CountOne(x, y);
    }
  }

  lemma {:induction false} PairsInOrder(s: seq<Trx>, t: seq<Trx>)
    requires multiset(s) == multiset(t)
    ensures Pairs(s) == Pairs(t)
    decreases |s|
  {
    if s == [] {
      assert |multiset(t)| == 0;
    } else {
      assert s == [s[0]] + s[1..];
      var k := Find(t, s[0], s[1..]);
      var rest := t[..k] + t[k + 1..];
      PairsInOrder(s[1..], rest);
      CountInOrder(s[0], s[1..], rest);
      PairsToFront(s[0], t[..k], t[k + 1..]);
      assert t == t[..k] + [s[0]] + t[k + 1..];
      assert ([s[0]] + rest)[1..] == rest;
    }
  }

  lemma {:induction false} SameRowsListed(rows: Rows, ids: seq<Id>, ids': seq<Id>)
    requires (forall k :: k in ids <==> k in ids') && (forall k :: k in ids ==> k in rows)
    requires forall i, j :: 0 <= i < j < |ids| ==> ids[i] != ids[j]
    requires forall i, j :: 0 <= i < j < |ids'| ==> ids'[i] != ids'[j]
    ensures multiset(Listed(rows, ids)) == multiset(Listed(rows, ids'))
    decreases |ids|
  {
    if ids == [] {
      if ids' != [] { FirstIsMember(ids'); }
    } else {
      var k := Position(ids', ids[0]);
      var rest := ids'[..k] + ids'[k + 1..];
      WithoutFirst(ids, ids', k);
      SameRowsListed(rows, ids[1..], rest);
      var s, s' := Listed(rows, ids), Listed(rows, ids');
      assert s == [s[0]] + Listed(rows, ids[1..]);
      assert s' == s'[..k] + [s'[k]] + s'[k + 1..] && Listed(rows, rest) == s'[..k] + s'[k + 1..];
    }
  }

  lemma FirstIsMember(ids: seq<Id>)
    requires ids != []
    ensures exists k :: k in ids
  {
    assert ids[0] in ids;
  }

  lemma Position(ids: seq<Id>, k: Id) returns (i: nat)
    requires k in ids
    ensures i < |ids| && ids[i] == k
  {
    i :| 0 <= i < |ids| && ids[i] == k;
  }

  lemma WithoutFirst(ids: seq<Id>, ids': seq<Id>, k: nat)
    requires ids != [] && k < |ids'| && ids'[k] == ids[0] && forall l :: l in ids <==> l in ids'
    requires forall i, j :: 0 <= i < j < |ids| ==> ids[i] != ids[j]
    requires forall i, j :: 0 <= i < j < |ids'| ==> ids'[i] != ids'[j]
    ensures var rest := ids'[..k] + ids'[k + 1..];
            && (forall l :: l in ids[1..] <==> l in rest)
            && (forall i, j :: 0 <= i < j < |rest| ==> rest[i] != rest[j])
  {
    var rest := ids'[..k] + ids'[k + 1..];
    forall l
      ensures l in ids[1..] <==> l in ids && l != ids[0]
      ensures l in rest <==> l in ids' && l != ids'[k]
    {
      assert l in ids ==> exists i :: 0 <= i < |ids| && ids[i] == l;
      if l in ids' && l != ids'[k] {
        var i := Position(ids', l);
        assert if i < k then rest[i] == l else rest[i - 1] == l;
      }
    }
  }

  /** Two results of the same query, in whatever order, give the same count and mark the
      same rows. */
  lemma OrderDoesNotMatter(rows: Rows, ids: seq<Id>, ids': seq<Id>)
    requires Lists(rows, ids) && Lists(rows, ids')
    ensures Pairs(Listed(rows, ids)) == Pairs(Listed(rows, ids'))
    ensures Partnered(rows, ids) == Partnered(rows, ids')
  {
    hide Pairs;
    SameRowsListed(rows, ids, ids');
    PairsInOrder(Listed(rows, ids), Listed(rows, ids'));
    forall k
      ensures k in Partnered(rows, ids) <==> k in Partnered(rows, ids')
    {
      PartneredIff(rows, ids, k);
      PartneredIff(rows, ids', k);
    }
  }

  lemma PartneredIff(rows: Rows, ids: seq<Id>, k: Id)
    requires Lists(rows, ids)
    ensures k in Partnered(rows, ids) <==> k in ids && exists l :: l in ids && l != k && Compatible(rows[k], rows[l])
  {
    hide Compatible;
    var s := Listed(rows, ids);
    if k in ids {
      var i := Position(ids, k);
      assert k in Partnered(rows, ids) <==> HasPartner(s, i);
      if l :| l in ids && l != k && Compatible(rows[k], rows[l]) {
        var j := Position(ids, l);
        assert Compatible(s[i], s[j]);
      }
      if HasPartner(s, i) {
        var j :| 0 <= j < |s| && j != i && Compatible(s[i], s[j]);
        assert ids[j] in ids && ids[j] != k;
      }
    }
  }

  // ---------- In terms of the rows ----------

  // The two rows show the same amount in the same currency within an hour of each other.
  ghost predicate Alike(rows: Rows, k: Id, l: Id)
    requires k in rows && l in rows
  {
    && rows[k].currency == rows[l].currency && rows[k].amount == rows[l].amount
    && rows[l].date - 3_600_000 <= rows[k].date <= rows[l].date + 3_600_000
  }

  /** After a run a row is matched if and only if it was, or another unmatched row shows the
      same amount in the same currency at most an hour before or after it. Nothing else
      about it changes. */
  lemma MatchedIff(rows: Rows, ids: seq<Id>, k: Id)
    requires Lists(rows, ids) && k in rows
    ensures var row := Mark(rows, Partnered(rows, ids))[k];
      && row == rows[k].(matched := row.matched)
      && (row.matched <==>
            rows[k].matched || exists l :: l in rows && l != k && !rows[l].matched && Alike(rows, k, l))
  {
    var s := Listed(rows, ids);
    if !rows[k].matched {
      assert k in ids;
      var i :| 0 <= i < |ids| && ids[i] == k;
      forall l | l in rows && l != k && !rows[l].matched && Alike(rows, k, l)
        ensures HasPartner(s, i)
      {
        assert l in ids;
        var j :| 0 <= j < |ids| && ids[j] == l;
        assert Compatible(s[i], s[j]);
      }
      if HasPartner(s, i) {
        var j :| 0 <= j < |s| && j != i && Compatible(s[i], s[j]);
        assert ids[j] in ids && Alike(rows, k, ids[j]);
      }
      assert k in Partnered(rows, ids) <==> HasPartner(s, i);
    }
  }

  // The pairs of listed rows from position n on that are alike.
  ghost function AlikePairs(rows: Rows, ids: seq<Id>, n: nat): set<(nat, nat)>
    requires forall k :: k in ids ==> k in rows
  {
    set i: nat, j: nat | n <= i < |ids| && i < j < |ids| && Alike(rows, ids[i], ids[j]) :: (i, j)
  }

  // Those of one row with the rows from position m on.
  ghost function AlikeFrom(rows: Rows, ids: seq<Id>, i: nat, m: nat): set<(nat, nat)>
    requires i < |ids| && forall k :: k in ids ==> k in rows
  {
    set j: nat | m <= j < |ids| && Alike(rows, ids[i], ids[j]) :: (i, j)
  }

  lemma AlikeIff(rows: Rows, k: Id, l: Id)
    requires k in rows && l in rows
    ensures Alike(rows, k, l) <==> Compatible(rows[k], rows[l])
  {
  }

  lemma {:induction false} RowCount(rows: Rows, ids: seq<Id>, i: nat, m: nat)
    requires i < |ids| && m <= |ids| && forall k :: k in ids ==> k in rows
    ensures |AlikeFrom(rows, ids, i, m)| == Count(Listed(rows, ids)[i], Listed(rows, ids)[m..])
    decreases |ids| - m
  {
    hide Alike, Compatible;
    var s := Listed(rows, ids);
    if m < |ids| {
      RowCount(rows, ids, i, m + 1);
      CountFrom(s[i], s, m);
      AlikeIff(rows, ids[i], ids[m]);
      var one := if Alike(rows, ids[i], ids[m]) then {(i, m)} else {};
      assert AlikeFrom(rows, ids, i, m) == AlikeFrom(rows, ids, i, m + 1) + one;
    } else {
      assert AlikeFrom(rows, ids, i, m) == {};
    }
  }

  /** The count that a run returns is twice the number of pairs of listed rows that show the
      same amount in the same currency within an hour. */
  lemma {:induction false} CountIsPairs(rows: Rows, ids: seq<Id>, n: nat)
    requires n <= |ids| && forall k :: k in ids ==> k in rows
    ensures Pairs(Listed(rows, ids)[n..]) == |AlikePairs(rows, ids, n)|
    decreases |ids| - n
  {
    hide Alike;
    var s := Listed(rows, ids);
    if n < |ids| {
      CountIsPairs(rows, ids, n + 1);
      PairsFrom(s, n);
      RowCount(rows, ids, n, n + 1);
      assert AlikePairs(rows, ids, n) == AlikePairs(rows, ids, n + 1) + AlikeFrom(rows, ids, n, n + 1);
    } else {
      assert AlikePairs(rows, ids, n) == {};
    }
  }
}
