/** Adding amounts up by key, as the reports do it: a list of entries in which each row
    finds its own or makes a new one. */
module Grouping {

  datatype Entry = Entry(key: string, total: int)

  // The position of the first entry with a key, or the length of the list.
  function Find(list: seq<Entry>, key: string): (k: nat)
    ensures k <= |list| && (k < |list| ==> list[k].key == key)
    ensures forall i :: 0 <= i < k ==> list[i].key != key
  {
    if list == [] || list[0].key == key then 0 else 1 + Find(list[1..], key)
  }

  function Add(list: seq<Entry>, row: Entry): seq<Entry> {
    var k := Find(list, row.key);
    if k < |list| then list[k := Entry(row.key, list[k].total + row.total)] else list + [row]
  }

  function Group(rows: seq<Entry>): seq<Entry> {
    if rows == [] then [] else Add(Group(rows[..|rows| - 1]), rows[|rows| - 1])
  }

  lemma GroupOneMore(rows: seq<Entry>, i: nat)
    requires i < |rows|
    ensures Group(rows[..i + 1]) == Add(Group(rows[..i]), rows[i])
  {
    assert rows[..i + 1][..i] == rows[..i];
  }

  // ---------- What grouping means ----------

  function Sum(rows: seq<Entry>): int {
    if rows == [] then 0 else Sum(rows[..|rows| - 1]) + rows[|rows| - 1].total
  }

  // The amounts of one key.
  function SumOf(rows: seq<Entry>, key: string): int {
    if rows == [] then 0
    else SumOf(rows[..|rows| - 1], key) + (var row := rows[|rows| - 1]; if row.key == key then row.total else 0)
  }

  predicate Distinct(list: seq<Entry>) {
    forall i, j :: 0 <= i < j < |list| ==> list[i].key != list[j].key
  }

  predicate HasKey(rows: seq<Entry>, key: string) {
    exists i :: 0 <= i < |rows| && rows[i].key == key
  }

  lemma {:induction false} SumUpdate(list: seq<Entry>, k: nat, e: Entry)
    requires k < |list|
    ensures Sum(list[k := e]) == Sum(list) - list[k].total + e.total
  {
    var n, l := |list| - 1, list[k := e];
    if k < n {
      assert l[..n] == list[..n][k := e];
      SumUpdate(list[..n], k, e);
    } else {
      assert l[..n] == list[..n];
    }
  }

  lemma SumAppend(rows: seq<Entry>, row: Entry)
    ensures Sum(rows + [row]) == Sum(rows) + row.total
    ensures forall key :: SumOf(rows + [row], key) == SumOf(rows, key) + if row.key == key then row.total else 0
  {
  }

  /** Nothing is lost: the totals add up to what came in. */
  lemma {:induction false} GroupConserves(rows: seq<Entry>)
    ensures Sum(Group(rows)) == Sum(rows)
  {
    if rows != [] {
      var before, row := rows[..|rows| - 1], rows[|rows| - 1];
      GroupConserves(before);
      var list := Group(before);
      var k := Find(list, row.key);
      if k < |list| {
        SumUpdate(list, k, Entry(row.key, list[k].total + row.total));
      } else {
        SumAppend(list, row);
      }
    }
  }

  /** One entry per key that occurs, and its total is the sum of that key's rows. */
  lemma {:induction false} GroupIsPerKey(rows: seq<Entry>)
    ensures Distinct(Group(rows))
    ensures forall key :: HasKey(Group(rows), key) <==> HasKey(rows, key)
    ensures forall i :: 0 <= i < |Group(rows)| ==> Group(rows)[i].total == SumOf(rows, Group(rows)[i].key)
  {
    if rows != [] {
      var before, row := rows[..|rows| - 1], rows[|rows| - 1];
      var list := Group(before);
      GroupIsPerKey(before);
      assert rows == before + [row];
      SumAppend(before, row);
      AddKeys(list, row);
      AddKeys(before, row);
      if !HasKey(before, row.key) { SumOfNone(before, row.key); }
    }
  }

  lemma AddKeys(list: seq<Entry>, row: Entry)
    ensures forall key :: HasKey(Add(list, row), key) <==> HasKey(list, key) || key == row.key
    ensures forall key :: HasKey(list + [row], key) <==> HasKey(list, key) || key == row.key
  {
    var l, a := list + [row], Add(list, row);
    assert forall i :: 0 <= i < |list| ==> l[i] == list[i];
    assert l[|list|] == row;
    assert a[Find(list, row.key)].key == row.key;
    assert forall i :: 0 <= i < |list| ==> a[i].key == list[i].key;
  }

  lemma {:induction false} SumOfNone(rows: seq<Entry>, key: string)
    requires !HasKey(rows, key)
    ensures SumOf(rows, key) == 0
  {
    if rows != [] {
      var before := rows[..|rows| - 1];
      assert forall i :: 0 <= i < |before| ==> before[i] == rows[i];
      SumOfNone(before, key);
    }
  }

  // ---------- The order of the rows ----------

  lemma {:induction false} SumOfConcat(rows: seq<Entry>, more: seq<Entry>, key: string)
    ensures SumOf(rows + more, key) == SumOf(rows, key) + SumOf(more, key)
  {
    if more == [] {
      assert rows + more == rows;
    } else {
      var n := |more| - 1;
      assert (rows + more)[..|rows + more| - 1] == rows + more[..n];
      SumOfConcat(rows, more[..n], key);
    }
  }

  // The last row of one order stands somewhere in the other.
  lemma TakeOut(before: seq<Entry>, row: Entry, rows': seq<Entry>) returns (k: nat)
    requires multiset(before + [row]) == multiset(rows')
    ensures k < |rows'| && rows'[k] == row && multiset(before) == multiset(rows'[..k] + rows'[k + 1..])
  {
    assert row in multiset(before + [row]);
    k :| 0 <= k < |rows'| && rows'[k] == row;
    assert rows' == rows'[..k] + [row] + rows'[k + 1..];
    assert multiset(rows'[..k] + [row] + rows'[k + 1..])
        == multiset(rows'[..k]) + multiset{row} + multiset(rows'[k + 1..]);
    assert multiset(before + [row]) - multiset{row} == multiset(before);
  }

  lemma {:induction false} SumOfInOrder(rows: seq<Entry>, rows': seq<Entry>, key: string)
    requires multiset(rows) == multiset(rows')
    ensures SumOf(rows, key) == SumOf(rows', key)
  {
    if rows == [] {
      assert |multiset(rows')| == 0;
    } else {
      var before, row := rows[..|rows| - 1], rows[|rows| - 1];
      assert rows == before + [row];
      var k := TakeOut(before, row, rows');
      var front, back := rows'[..k], rows'[k + 1..];
      SumOfInOrder(before, front + back, key);
      assert rows' == front + [row] + back;
      SumOfConcat(front + [row], back, key);
      SumAppend(front, row);
      SumOfConcat(front, back, key);
    }
  }

  /** The same rows in another order give the same entries. */
  lemma OrderDoesNotMatter(rows: seq<Entry>, rows': seq<Entry>, e: Entry)
    requires multiset(rows) == multiset(rows')
    ensures e in Group(rows) <==> e in Group(rows')
  {
    InGroupIff(rows, e);
    InGroupIff(rows', e);
    SumOfInOrder(rows, rows', e.key);
    assert forall x :: x in rows <==> x in multiset(rows);
    assert forall x :: x in rows' <==> x in multiset(rows');
  }

  lemma InGroupIff(rows: seq<Entry>, e: Entry)
    ensures e in Group(rows) <==> (exists x :: x in rows && x.key == e.key) && e.total == SumOf(rows, e.key)
  {
    var list := Group(rows);
    GroupIsPerKey(rows);
    assert HasKey(rows, e.key) <==> exists x :: x in rows && x.key == e.key;
    if HasKey(list, e.key) {
      var i :| 0 <= i < |list| && list[i].key == e.key;
      assert list[i] in list;
    }
  }
}
