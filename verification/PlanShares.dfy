/** The subscription dashboard: paid subscribers and revenue by plan, and each plan's
    share of the subscribers in per cent with two decimals. */
module PlanShares {
  import opened Grouping
  import opened Reports

  // A paid subscription and its total amount, in cents.
  datatype Paid = Paid(planName: string, amount: int)

  function Subscribers(paid: seq<Paid>): (rows: seq<Entry>)
    ensures |rows| == |paid|
  {
    seq(|paid|, i requires 0 <= i < |paid| => Entry(paid[i].planName, 1))
  }

  function Revenue(paid: seq<Paid>): (rows: seq<Entry>)
    ensures |rows| == |paid|
  {
    seq(|paid|, i requires 0 <= i < |paid| => Entry(paid[i].planName, paid[i].amount))
  }

  // Number(((count / total) * 100).toFixed(2)) in hundredths of a per cent: the nearest
  // one, and of two equally near ones the larger.
  function Share(count: int, total: int): int
    requires total > 0
  {
    (20000 * count + total) / (2 * total)
  }

  function Shares(list: seq<Entry>, total: int): (r: seq<Entry>)
    requires total > 0 || list == []
    ensures |r| == |list|
  {
    seq(|list|, i requires 0 <= i < |list| => Entry(list[i].key, Share(list[i].total, total)))
  }

  method CountSubscribers(paid: seq<Paid>) returns (graphCal: seq<Entry>)
    ensures graphCal == Group(Subscribers(paid))
  {
    hide Group;
    graphCal := [];
    NothingGrouped();
    ghost var rows := Subscribers(paid);
    for i := 0 to |paid|
      invariant graphCal == Group(rows[..i])
    {
      var k := Find(graphCal, paid[i].planName);
      if k == |graphCal| {
        graphCal := graphCal + [Entry(paid[i].planName, 1)];
      } else {
        graphCal := graphCal[k := Entry(paid[i].planName, graphCal[k].total + 1)];
      }
      GroupOneMore(rows, i);
    }
    assert rows[..|paid|] == rows;
  }

  method SumRevenue(paid: seq<Paid>) returns (totalRevenueGraph: seq<Entry>)
    ensures totalRevenueGraph == Group(Revenue(paid))
  {
    hide Group;
    totalRevenueGraph := [];
    NothingGrouped();
    ghost var rows := Revenue(paid);
    for i := 0 to |paid|
      invariant totalRevenueGraph == Group(rows[..i])
    {
      var row := Entry(paid[i].planName, paid[i].amount);
      var k := Find(totalRevenueGraph, row.key);
      if k == |totalRevenueGraph| {
        totalRevenueGraph := totalRevenueGraph + [row];
      } else {
        totalRevenueGraph := totalRevenueGraph[k := Entry(row.key, totalRevenueGraph[k].total + row.total)];
      }
      GroupOneMore(rows, i);
    }
    assert rows[..|paid|] == rows;
  }

  method DashboardGraph(paid: seq<Paid>)
    returns (subscribers: seq<Entry>, graphCal: seq<Entry>, totalRevenueGraph: seq<Entry>)
    ensures subscribers == Group(Subscribers(paid))
    ensures graphCal == if paid == [] then [] else Shares(subscribers, |paid|)
    ensures totalRevenueGraph == Group(Revenue(paid))
  {
    hide Share;
    assert paid == [] ==> Subscribers(paid) == [];
    graphCal := CountSubscribers(paid);
    subscribers := graphCal;
    for i := 0 to |graphCal|
      invariant |graphCal| == |subscribers|
      invariant forall j :: 0 <= j < i ==>
        |paid| > 0 && graphCal[j] == Entry(subscribers[j].key, Share(subscribers[j].total, |paid|))
      invariant forall j :: i <= j < |graphCal| ==> graphCal[j] == subscribers[j]
    {
      graphCal := graphCal[i := Entry(graphCal[i].key, Share(graphCal[i].total, |paid|))];
    }
    totalRevenueGraph := SumRevenue(paid);
  }

  /** A share is off by at most half a hundredth, and rounds a tie up. */
  lemma ShareIsNearest(count: int, total: int)
    requires total > 0
    ensures -total < 2 * (Share(count, total) * total - 10000 * count) <= total
  {
  }

  function Amounts(paid: seq<Paid>): int {
    if paid == [] then 0 else Amounts(paid[..|paid| - 1]) + paid[|paid| - 1].amount
  }

  lemma {:induction false} SumsOfRows(paid: seq<Paid>)
    ensures Sum(Subscribers(paid)) == |paid| && Sum(Revenue(paid)) == Amounts(paid)
  {
    if paid != [] {
      var n := |paid| - 1;
      SumsOfRows(paid[..n]);
      assert Subscribers(paid)[..n] == Subscribers(paid[..n]) && Revenue(paid)[..n] == Revenue(paid[..n]);
    }
  }

  /** The subscribers of all plans are all paid rows, and the revenue of all plans is
      their total. */
  lemma DashboardConserves(paid: seq<Paid>)
    ensures Sum(Group(Subscribers(paid))) == |paid|
    ensures Sum(Group(Revenue(paid))) == Amounts(paid)
    ensures Distinct(Group(Subscribers(paid))) && Distinct(Group(Revenue(paid)))
  {
    SumsOfRows(paid);
    GroupConserves(Subscribers(paid));
    GroupConserves(Revenue(paid));
    GroupIsPerKey(Subscribers(paid));
    GroupIsPerKey(Revenue(paid));
  }

  lemma {:induction false} SharesBound(list: seq<Entry>, total: int)
    requires total > 0
    ensures -total * |list| <= 2 * (Sum(Shares(list, total)) * total - 10000 * Sum(list)) <= total * |list|
  {
    hide Share;
    if list != [] {
      var n := |list| - 1;
      var front := Sum(Shares(list[..n], total));
      SharesBound(list[..n], total);
      ShareIsNearest(list[n].total, total);
      assert Shares(list, total)[..n] == Shares(list[..n], total);
      Distribute(front, Share(list[n].total, total), total);
      Distribute(n, 1, total);
    }
  }

  lemma Distribute(a: int, b: int, c: int)
    ensures (a + b) * c == a * c + b * c && c * (a + b) == c * a + c * b
  {
  }

  /** The printed shares of k plans add up to 100 per cent, give or take k/2 hundredths. */
  lemma SharesAddUp(paid: seq<Paid>)
    requires paid != []
    ensures var shares := Shares(Group(Subscribers(paid)), |paid|);
      -|shares| <= 2 * (Sum(shares) - 10000) <= |shares|
  {
    hide Group, Share, Distinct, Sum;
    var list := Group(Subscribers(paid));
    var total, sum, k := |paid|, Sum(Shares(list, |paid|)), |list|;
    DashboardConserves(paid);
    SharesBound(list, total);
    Cancel(total, sum, k);
  }

  lemma Cancel(total: int, sum: int, k: int)
    requires total > 0 && -total * k <= 2 * (sum * total - 10000 * total) <= total * k
    ensures -k <= 2 * (sum - 10000) <= k
  {
    var x := 2 * (sum - 10000);
    assert x * total == 2 * (sum * total - 10000 * total);
    if x > k { Scale(total, x, k); }
    if -k > x { Scale(total, -k, x); }
  }

  lemma Scale(total: int, x: int, k: int)
    requires total > 0 && x > k
    ensures x * total > k * total
  {
  }
}
