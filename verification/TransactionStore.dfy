/** Storing bank transactions: row by row after a lookup, and in bulk skipping
    duplicates. The table is unique on date, description and amount; the lookup also
    compares the source. */
module TransactionStore {
  import opened Wrappers

  datatype Key = Key(date: int, description: string, cents: int)
  datatype Row = Row(key: Key, source: string, currency: string, matched: bool,
                     attachments: seq<string>, accountId: Option<string>)
  datatype Input = Input(date: int, description: string, amount: real, origin: Option<string>, currency: string,
                         matched: bool, attachments: seq<string>, accountId: Option<string>)

  // A row to store, and whether its column holds the amount as it was given. The lookup
  // is for the amount given, the unique constraint is on the amount stored.
  datatype Draft = Draft(row: Row, exact: bool)

  // The column has two decimals; a tie is rounded away from zero.
  function Cents(amount: real): int {
    if amount < 0.0 then -(0.5 - 100.0 * amount).Floor else (100.0 * amount + 0.5).Floor
  }

  function DraftOf(t: Input): Draft {
    var source := if t.origin.None? || t.origin.value == "" then "Unknown" else t.origin.value;
    Draft(Row(Key(t.date, t.description, Cents(t.amount)), source, t.currency, t.matched, t.attachments, t.accountId),
          Cents(t.amount) as real == 100.0 * t.amount)
  }

  function DraftsOf(ts: seq<Input>): (drafts: seq<Draft>)
    ensures |drafts| == |ts|
  {
    seq(|ts|, i requires 0 <= i < |ts| => DraftOf(ts[i]))
  }

  function Rows(drafts: seq<Draft>): (rows: seq<Row>)
    ensures |rows| == |drafts|
  {
    seq(|drafts|, i requires 0 <= i < |drafts| => drafts[i].row)
  }

  predicate HasKey(table: seq<Row>, k: Key) {
    exists i :: 0 <= i < |table| && table[i].key == k
  }

  predicate HasRow(table: seq<Row>, k: Key, source: string) {
    exists i :: 0 <= i < |table| && table[i].key == k && table[i].source == source
  }

  ghost predicate Unique(table: seq<Row>) {
    forall i, j :: 0 <= i < j < |table| ==> table[i].key != table[j].key
  }

  function Keys(table: seq<Row>): set<Key> {
    set i | 0 <= i < |table| :: table[i].key
  }

  // The lookup before a row is stored.
  predicate Finds(table: seq<Row>, d: Draft) {
    d.exact && HasRow(table, d.row.key, d.row.source)
  }

  // The table after the drafts are stored one by one, and whether none of them failed.
  function Store(table: seq<Row>, drafts: seq<Draft>): (seq<Row>, bool)
    decreases |drafts|
  {
    if drafts == [] then (table, true)
    else if Finds(table, drafts[0]) then Store(table, drafts[1..])
    else if HasKey(table, drafts[0].row.key) then (table, false)
    else Store(table + [drafts[0].row], drafts[1..])
  }

  // The table after a bulk insert that skips duplicates, and how many rows it added.
  function Insert(table: seq<Row>, rows: seq<Row>): (seq<Row>, nat)
    decreases |rows|
  {
    if rows == [] then (table, 0)
    else if HasKey(table, rows[0].key) then Insert(table, rows[1..])
    else
      var (after, count) := Insert(table + [rows[0]], rows[1..]);
      (after, count + 1)
  }

  datatype Reply = NothingGiven | UserNotFound | Failed | Stored | Inserted(count: nat)

  class Transactions {
    var table: seq<Row>
    var tokens: map<string, string>   // users and their Tink access token

    constructor (users: map<string, string>)
      ensures table == [] && tokens == users && Unique(table)
    {
      table, tokens := [], users;
    }

    // Prisma's create: the unique constraint refuses a second row with the same key.
    method Create(row: Row) returns (ok: bool)
      modifies this`table
      ensures ok == !HasKey(old(table), row.key)
      ensures table == if ok then old(table) + [row] else old(table)
    {
      ok := !HasKey(table, row.key);
      if ok { table := table + [row]; }
    }

    method StoreTransactions(ts: seq<Input>) returns (reply: Reply)
      requires Unique(table)
      modifies this`table
      ensures reply == if ts == [] then NothingGiven else if Store(old(table), DraftsOf(ts)).1 then Stored else Failed
      ensures table == Store(old(table), DraftsOf(ts)).0 && Unique(table)
    {
      hide Cents;
      if |ts| == 0 {
        return NothingGiven;
      }
      ghost var drafts := DraftsOf(ts);
      StoreKeepsUnique(table, drafts);
      assert drafts[0..] == drafts;
      for i := 0 to |ts|
        invariant Store(table, drafts[i..]) == Store(old(table), drafts)
      {
        assert drafts[i..][1..] == drafts[i + 1..];
        var d := DraftOf(ts[i]);
        if !Finds(table, d) {
          var created := Create(d.row);
          if !created {
            return Failed;
          }
        }
      }
      reply := Stored;
    }

    method StoreMyTransaction(user: string, ts: seq<Input>, accessToken: string) returns (reply: Reply)
      requires Unique(table)
      modifies this
      ensures user !in old(tokens) ==> reply == UserNotFound && table == old(table) && tokens == old(tokens)
      ensures user in old(tokens) ==>
        && tokens == old(tokens)[user := accessToken]
        && (table, reply) == (Insert(old(table), TinkRows(ts)).0, Inserted(Insert(old(table), TinkRows(ts)).1))
        && reply.count == |Keys(TinkRows(ts)) - Keys(old(table))| == |table| - |old(table)|
      ensures Unique(table)
    {
      if user !in tokens {
        return UserNotFound;
      }
      tokens := tokens[user := accessToken];
      var rows := TinkRows(ts);
      var (after, count) := Insert(table, rows);
      InsertCounts(table, rows);
      table := after;
      reply := Inserted(count);
    }
  }

  function TinkRows(ts: seq<Input>): (rows: seq<Row>)
    ensures |rows| == |ts|
  {
    seq(|ts|, i requires 0 <= i < |ts| => DraftOf(ts[i]).row.(source := "Tink Bank"))
  }

  // ---------- Row by row ----------

  lemma {:induction false} StoreKeepsUnique(table: seq<Row>, drafts: seq<Draft>)
    requires Unique(table)
    ensures Unique(Store(table, drafts).0) && table <= Store(table, drafts).0
    decreases |drafts|
  {
    if drafts != [] {
      if Finds(table, drafts[0]) {
        StoreKeepsUnique(table, drafts[1..]);
      } else if !HasKey(table, drafts[0].row.key) {
        StoreKeepsUnique(table + [drafts[0].row], drafts[1..]);
      }
    }
  }

  // Storing d fails on a row of the same key that its lookup does not find.
  predicate Clash(row: Row, d: Draft) {
    row.key == d.row.key && (row.source != d.row.source || !d.exact)
  }

  ghost predicate ClashFree(table: seq<Row>, drafts: seq<Draft>) {
    && (forall i, j :: 0 <= i < |table| && 0 <= j < |drafts| ==> !Clash(table[i], drafts[j]))
    && (forall i, j :: 0 <= i < j < |drafts| ==> !Clash(drafts[i].row, drafts[j]))
  }

  lemma ClashFreeSplit(table: seq<Row>, drafts: seq<Draft>)
    requires drafts != []
    ensures ClashFree(table, drafts) <==>
            && (forall i :: 0 <= i < |table| ==> !Clash(table[i], drafts[0]))
            && ClashFree(table + [drafts[0].row], drafts[1..])
  {
    var t, r := table + [drafts[0].row], drafts[1..];
    assert forall j :: 0 < j < |drafts| ==> drafts[j] == r[j - 1];
    if ClashFree(t, r) && forall i :: 0 <= i < |table| ==> !Clash(table[i], drafts[0]) {
      forall i, j | 0 <= i < |table| && 0 <= j < |drafts|
        ensures !Clash(table[i], drafts[j])
      {
        assert t[i] == table[i];
      }
      forall i, j | 0 <= i < j < |drafts|
        ensures !Clash(drafts[i].row, drafts[j])
      {
        assert i == 0 ==> t[|table|] == drafts[0].row;
      }
    }
    if ClashFree(table, drafts) {
      forall i, j | 0 <= i < |t| && 0 <= j < |r|
        ensures !Clash(t[i], r[j])
      {
        assert i < |table| ==> t[i] == table[i];
        assert r[j] == drafts[j + 1];
      }
    }
  }

  // Looking a row up again changes nothing about clashes.
  lemma ClashFreeStored(table: seq<Row>, row: Row, drafts: seq<Draft>)
    requires HasRow(table, row.key, row.source)
    ensures ClashFree(table + [row], drafts) <==> ClashFree(table, drafts)
  {
    var k :| 0 <= k < |table| && table[k].key == row.key && table[k].source == row.source;
    var t := table + [row];
    assert forall j :: 0 <= j < |drafts| ==> Clash(t[|table|], drafts[j]) == Clash(table[k], drafts[j]);
    assert forall i :: 0 <= i < |table| ==> t[i] == table[i];
  }

  /** Storing fails exactly when a row has the key of another, stored or earlier in the
      batch, but a different source or an amount with a third decimal. */
  lemma {:induction false} StoreSucceedsIff(table: seq<Row>, drafts: seq<Draft>)
    requires Unique(table)
    ensures Store(table, drafts).1 <==> ClashFree(table, drafts)
    decreases |drafts|
  {
    if drafts != [] {
      ClashFreeSplit(table, drafts);
      if Finds(table, drafts[0]) {
        StoreSucceedsIff(table, drafts[1..]);
        ClashFreeStored(table, drafts[0].row, drafts[1..]);
      } else if !HasKey(table, drafts[0].row.key) {
        StoreSucceedsIff(table + [drafts[0].row], drafts[1..]);
      }
    }
  }

  /** Without failure the keys are the old ones and those of the batch. */
  lemma {:induction false} StoreUnitesKeys(table: seq<Row>, drafts: seq<Draft>)
    requires Store(table, drafts).1
    ensures Keys(Store(table, drafts).0) == Keys(table) + Keys(Rows(drafts))
    decreases |drafts|
  {
    if drafts != [] {
      KeysCons(Rows(drafts));
      assert Rows(drafts)[1..] == Rows(drafts[1..]);
      if Finds(table, drafts[0]) {
        StoreUnitesKeys(table, drafts[1..]);
      } else {
        StoreUnitesKeys(table + [drafts[0].row], drafts[1..]);
        KeysSnoc(table, drafts[0].row);
      }
    }
  }

  lemma KeysCons(rows: seq<Row>)
    requires rows != []
    ensures Keys(rows) == {rows[0].key} + Keys(rows[1..])
  {
  }

  lemma KeysSnoc(table: seq<Row>, row: Row)
    ensures Keys(table + [row]) == Keys(table) + {row.key}
  {
    assert forall i :: 0 <= i < |table| ==> (table + [row])[i] == table[i];
    assert (table + [row])[|table|] == row;
  }

  lemma HasKeyIff(table: seq<Row>, k: Key)
    ensures HasKey(table, k) <==> k in Keys(table)
  {
  }

  /** How far a failing batch gets: the rows before some n are stored, the n-th clashes
      with a stored row, and nothing after it is looked at. */
  lemma {:induction false} FailureStoresPrefix(table: seq<Row>, drafts: seq<Draft>) returns (n: nat)
    requires !Store(table, drafts).1
    ensures n < |drafts|
    ensures Store(table, drafts[..n]) == (Store(table, drafts).0, true)
    ensures HasKey(Store(table, drafts).0, drafts[n].row.key) && !Finds(Store(table, drafts).0, drafts[n])
    decreases |drafts|
  {
    if Finds(table, drafts[0]) {
      n := FailureStoresPrefix(table, drafts[1..]);
      n := n + 1;
      assert drafts[..n][1..] == drafts[1..][..n - 1];
    } else if HasKey(table, drafts[0].row.key) {
      n := 0;
    } else {
      n := FailureStoresPrefix(table + [drafts[0].row], drafts[1..]);
      n := n + 1;
      assert drafts[..n][1..] == drafts[1..][..n - 1];
    }
  }

  // Every row before a failure is there afterwards.
  lemma {:induction false} StoredRowsAreThere(table: seq<Row>, drafts: seq<Draft>, i: nat)
    requires Unique(table) && Store(table, drafts).1 && i < |drafts|
    ensures HasRow(Store(table, drafts).0, drafts[i].row.key, drafts[i].row.source)
    decreases |drafts|
  {
    var row := drafts[0].row;
    var found := Finds(table, drafts[0]);
    var table' := if found then table else table + [row];
    if i > 0 {
      StoredRowsAreThere(table', drafts[1..], i - 1);
    } else {
      assert found || table'[|table|] == row;
      StoreKeepsUnique(table', drafts[1..]);
      HasRowStays(table', Store(table, drafts).0, row.key, row.source);
    }
  }

  lemma HasRowStays(table: seq<Row>, table': seq<Row>, k: Key, source: string)
    requires table <= table' && HasRow(table, k, source)
    ensures HasRow(table', k, source)
  {
    var i :| 0 <= i < |table| && table[i].key == k && table[i].source == source;
    assert table'[i] == table[i];
  }

  lemma {:induction false} KnownRowsAreSkipped(table: seq<Row>, known: seq<Draft>, drafts: seq<Draft>)
    requires forall i :: 0 <= i < |known| ==> Finds(table, known[i])
    ensures Store(table, known + drafts) == Store(table, drafts)
  {
    if known == [] {
      assert known + drafts == drafts;
    } else {
      assert (known + drafts)[1..] == known[1..] + drafts;
      KnownRowsAreSkipped(table, known[1..], drafts);
    }
  }

  predicate AllExact(drafts: seq<Draft>) {
    forall i :: 0 <= i < |drafts| ==> drafts[i].exact
  }

  lemma FirstInexact(drafts: seq<Draft>, m: nat) returns (n: nat)
    requires m <= |drafts|
    ensures n <= m && AllExact(drafts[..n]) && (n < m ==> !drafts[n].exact)
  {
    n := 0;
    while n < m && drafts[n].exact
      invariant n <= m && AllExact(drafts[..n])
    {
      n := n + 1;
    }
  }

  /** Storing the same batch again changes nothing, whether it succeeded or failed. It
      succeeds again if and only if it did before and no amount has a third decimal: such
      an amount is looked up as given, not found, and clashes with its own stored row. */
  lemma StoringAgainIsNoOp(table: seq<Row>, drafts: seq<Draft>)
    requires Unique(table)
    ensures var (after, ok) := Store(table, drafts); Store(after, drafts) == (after, ok && AllExact(drafts))
  {
    var (after, ok) := Store(table, drafts);
    var m := |drafts|;
    if !ok { m := FailureStoresPrefix(table, drafts); }
    assert drafts[..|drafts|] == drafts;
    var n := FirstInexact(drafts, m);
    forall i | 0 <= i < m
      ensures HasRow(after, drafts[i].row.key, drafts[i].row.source)
    {
      StoredRowsAreThere(table, drafts[..m], i);
      assert drafts[..m][i] == drafts[i];
    }
    assert forall i :: 0 <= i < n ==> drafts[..n][i].exact && drafts[..n][i] == drafts[i];
    KnownRowsAreSkipped(after, drafts[..n], drafts[n..]);
    assert drafts == drafts[..n] + drafts[n..];
    if n < |drafts| { StopsAt(after, drafts, n); }
  }

  lemma StopsAt(table: seq<Row>, drafts: seq<Draft>, n: nat)
    requires n < |drafts| && !Finds(table, drafts[n])
    requires HasKey(table, drafts[n].row.key) || HasRow(table, drafts[n].row.key, drafts[n].row.source)
    ensures Store(table, drafts[n..]) == (table, false)
  {
    assert drafts[n..][0] == drafts[n];
  }

  /** Coffee for 2.505 is stored once as 2.51 and fails from then on. */
  lemma ThirdDecimalFailsTwice(t: Input)
    requires t.amount == 2.505
    ensures var (after, ok) := Store([], DraftsOf([t]));
            ok && |after| == 1 && after[0].key.cents == 251 && !Store(after, DraftsOf([t])).1
  {
    var d := DraftOf(t);
    assert (100.0 * t.amount + 0.5).Floor == 251;
    assert DraftsOf([t]) == [d] && [d][1..] == [] && !d.exact;
    StoringAgainIsNoOp([], [d]);
    assert !AllExact([d]) by { assert ![d][0].exact; }
  }

  /** A row that another source has stored ends the batch: the row before it is stored,
      the row after it is lost. */
  lemma OtherSourceFails(a: Draft, b: Draft, c: Draft, stored: Row)
    requires stored.key == b.row.key && stored.source != b.row.source && a.row.key != b.row.key
    ensures Store([stored], [a, b, c]) == ([stored, a.row], false)
  {
    var t := [stored] + [a.row];
    assert [a, b, c][1..] == [b, c] && t[0] == stored && t[1] == a.row;
    assert forall i :: 0 <= i < |t| ==> t[i] == stored || t[i] == a.row;
    assert t[0].key == b.row.key && [stored][0] == stored;
    assert !HasKey([stored], a.row.key) && HasKey(t, b.row.key) && !Finds(t, b);
    assert Store(t, [b, c]) == (t, false);
    var batch := [a, b, c];
    assert batch[1..] == [b, c] && batch[0] == a && !Finds([stored], batch[0]);
    assert t == [stored, a.row];
  }

  // ---------- In bulk ----------

  lemma NoKeys(rows: seq<Row>)
    requires rows == []
    ensures Keys(rows) == {}
  {
  }

  lemma NewKeyStaysUnique(table: seq<Row>, row: Row)
    requires Unique(table) && !HasKey(table, row.key)
    ensures Unique(table + [row])
  {
  }

  lemma KnownKey(table: seq<Row>, rows: seq<Row>)
    requires rows != [] && HasKey(table, rows[0].key)
    ensures Keys(table) + Keys(rows) == Keys(table) + Keys(rows[1..])
    ensures Keys(rows) - Keys(table) == Keys(rows[1..]) - Keys(table)
  {
    KeysCons(rows);
    HasKeyIff(table, rows[0].key);
  }

  lemma NewKey(table: seq<Row>, rows: seq<Row>)
    requires rows != [] && !HasKey(table, rows[0].key)
    ensures var table' := table + [rows[0]];
            && Keys(table) + Keys(rows) == Keys(table') + Keys(rows[1..])
            && |Keys(rows) - Keys(table)| == 1 + |Keys(rows[1..]) - Keys(table')|
  {
    hide Keys;
    KeysCons(rows);
    HasKeyIff(table, rows[0].key);
    KeysSnoc(table, rows[0]);
    var others := Keys(rows[1..]) - Keys(table + [rows[0]]);
    assert rows[0].key !in others && Keys(rows) - Keys(table) == {rows[0].key} + others;
  }

  /** The count reported is the number of distinct keys that were not in the table. */
  lemma {:induction false} InsertCounts(table: seq<Row>, rows: seq<Row>)
    requires Unique(table)
    ensures var (after, count) := Insert(table, rows);
      && Unique(after) && table <= after && Keys(after) == Keys(table) + Keys(rows)
      && count == |Keys(rows) - Keys(table)| == |after| - |table|
    decreases |rows|
  {
    hide Keys, HasKey, Unique;
    if rows == [] {
      NoKeys(rows);
      assert Keys(rows) - Keys(table) == {};
    } else if HasKey(table, rows[0].key) {
      KnownKey(table, rows);
      InsertCounts(table, rows[1..]);
    } else {
      NewKeyStaysUnique(table, rows[0]);
      NewKey(table, rows);
      InsertCounts(table + [rows[0]], rows[1..]);
    }
  }

  /** Inserting the same rows again adds none. */
  lemma InsertingAgainAddsNone(table: seq<Row>, rows: seq<Row>)
    requires Unique(table)
    ensures Insert(Insert(table, rows).0, rows) == (Insert(table, rows).0, 0)
  {
    var after := Insert(table, rows).0;
    InsertCounts(table, rows);
    InsertCounts(after, rows);
    assert Keys(rows) - Keys(after) == {};
    assert Insert(after, rows).0 == after;
  }

  /** The two ways of storing agree whenever the first one does not fail. */
  lemma {:induction false} StoreRefinesInsert(table: seq<Row>, drafts: seq<Draft>)
    requires Store(table, drafts).1
    ensures Store(table, drafts).0 == Insert(table, Rows(drafts)).0
    decreases |drafts|
  {
    if drafts != [] {
      assert Rows(drafts)[1..] == Rows(drafts[1..]);
      if Finds(table, drafts[0]) {
        StoreRefinesInsert(table, drafts[1..]);
      } else {
        StoreRefinesInsert(table + [drafts[0].row], drafts[1..]);
      }
    }
  }

  // ---------- What is in the rows ----------

  /** The stored amount is the nearest cent, and of two equally near ones the larger in
      size; debits are rounded like credits. */
  lemma CentsAreNearest(amount: real)
    ensures var off := Cents(amount) as real - 100.0 * amount;
            && -0.5 <= off <= 0.5
            && (off == 0.5 ==> amount >= 0.0) && (off == -0.5 ==> amount < 0.0)
    ensures Cents(-amount) == -Cents(amount)
  {
  }

  // The amount has no third decimal.
  ghost predicate WholeCents(amount: real) {
    exists n: int :: amount == Hundredths(n)
  }

  function Hundredths(n: int): real {
    n as real / 100.0
  }

  lemma ExactIff(t: Input)
    ensures DraftOf(t).exact <==> WholeCents(t.amount)
  {
    CentsAreNearest(t.amount);
    if DraftOf(t).exact {
      assert t.amount == Hundredths(Cents(t.amount));
    }
    if n: int :| t.amount == Hundredths(n) {
      assert 100.0 * t.amount == n as real;
      NearestOfWhole(Cents(t.amount), n);
    }
  }

  lemma NearestOfWhole(c: int, n: int)
    requires -0.5 <= c as real - n as real <= 0.5
    ensures c == n
  {
  }

  // A stored row is that of an input, from the given source; an input that names none, or
  // an empty one, is from an unknown source.
  ghost predicate RowOf(row: Row, t: Input, source: string) {
    && row.key.date == t.date && row.key.description == t.description && row.key.cents == Cents(t.amount)
    && row.currency == t.currency && row.matched == t.matched
    && row.attachments == t.attachments && row.accountId == t.accountId && row.source == source
  }

  predicate FromSource(t: Input, source: string) {
    if t.origin == None || t.origin == Some("") then source == "Unknown" else t.origin == Some(source)
  }

  lemma {:induction false} NewRowsAmong(table: seq<Row>, drafts: seq<Draft>, i: nat) returns (k: nat)
    requires |table| <= i < |Store(table, drafts).0|
    ensures k < |drafts| && Store(table, drafts).0[i] == drafts[k].row
    decreases |drafts|
  {
    if Finds(table, drafts[0]) {
      k := NewRowsAmong(table, drafts[1..], i);
      k := k + 1;
    } else {
      var table' := table + [drafts[0].row];
      if i == |table| {
        k := 0;
        StoreGrows(table', drafts[1..]);
        assert Store(table', drafts[1..]).0[i] == table'[i];
      } else {
        k := NewRowsAmong(table', drafts[1..], i);
        k := k + 1;
      }
    }
  }

  lemma {:induction false} StoreGrows(table: seq<Row>, drafts: seq<Draft>)
    ensures table <= Store(table, drafts).0
    decreases |drafts|
  {
    if drafts != [] {
      if Finds(table, drafts[0]) {
        StoreGrows(table, drafts[1..]);
      } else if !HasKey(table, drafts[0].row.key) {
        StoreGrows(table + [drafts[0].row], drafts[1..]);
      }
    }
  }

  /** Rows that were there stay, in their place; every row that storing adds is that of one
      of the inputs, column by column. */
  lemma StoredRowsAreInputs(table: seq<Row>, ts: seq<Input>, i: nat) returns (k: nat)
    requires i < |Store(table, DraftsOf(ts)).0|
    ensures |table| <= |Store(table, DraftsOf(ts)).0|
    ensures var row := Store(table, DraftsOf(ts)).0[i];
            if i < |table| then row == table[i]
            else k < |ts| && RowOf(row, ts[k], row.source) && FromSource(ts[k], row.source)
  {
    hide Cents, Store;
    StoreGrows(table, DraftsOf(ts));
    k := 0;
    if i >= |table| { k := NewRowsAmong(table, DraftsOf(ts), i); }
  }

  lemma {:induction false} InsertedAmong(table: seq<Row>, rows: seq<Row>, i: nat) returns (k: nat)
    requires i < |Insert(table, rows).0|
    ensures |table| <= |Insert(table, rows).0|
    ensures if i < |table| then Insert(table, rows).0[i] == table[i]
            else k < |rows| && Insert(table, rows).0[i] == rows[k]
    decreases |rows|
  {
    k := 0;
    if rows != [] {
      if HasKey(table, rows[0].key) {
        k := InsertedAmong(table, rows[1..], i);
        k := k + 1;
      } else {
        k := InsertedAmong(table + [rows[0]], rows[1..], i);
        k := if i <= |table| then 0 else k + 1;
      }
    }
  }

  /** The same for the bulk insert, whose rows are all Tink's. */
  lemma InsertedRowsAreInputs(table: seq<Row>, ts: seq<Input>, i: nat) returns (k: nat)
    requires i < |Insert(table, TinkRows(ts)).0|
    ensures |table| <= |Insert(table, TinkRows(ts)).0|
    ensures var row := Insert(table, TinkRows(ts)).0[i];
            if i < |table| then row == table[i] else k < |ts| && RowOf(row, ts[k], "Tink Bank")
  {
    hide Cents, Insert;
    k := InsertedAmong(table, TinkRows(ts), i);
  }
}
