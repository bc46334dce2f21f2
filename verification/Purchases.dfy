/** What buying, upgrading, paying and a started trial come to: when each reply is given,
    what is in the rows that are written, and what the user may do afterwards. */
module Purchases {
  import opened Wrappers
  import opened Billing
  import BR = BillingRuns
  import PlanRuns
  import Calendar

  // ---------- How long ----------

  // The days of a month that starts now, or of a year.
  function DaysOf(now: int, period: Period): int {
    var y, m := Calendar.YearFromDay(Calendar.Day(now)), Calendar.MonthFromDay(Calendar.Day(now));
    match period
    case Monthly => Calendar.MonthLength(y, m)
    case Yearly => Calendar.YearLength(if m < 2 then y else y + 1)
  }

  lemma PaidUntil(row: History, h: HistoryId, now: int)
    ensures PaidPlan(row, h, now).expiredAt == now + DaysOf(now, row.period) * Calendar.MS_PER_DAY
    ensures DaysOf(now, row.period) >= 28
  {
    hide Calendar.NextMonth, Calendar.NextYear, Calendar.YearFromDay, Calendar.MonthFromDay;
    Calendar.NextMonthAdvance(now);
    Calendar.NextYearAdvance(now);
  }

  lemma TrialUntil(t: Terms, price: real, h: HistoryId, now: int, days: int)
    ensures TrialPlan(t, price, h, now, days).expiredAt == now + days * Calendar.MS_PER_DAY
  {
    hide Calendar.AddDays;
    Calendar.AddDaysAdvance(now, days);
  }

  // A plan row that runs from now for so many days, on the terms of an offer.
  predicate RunsFor(p: Plan, t: Terms, h: HistoryId, now: int, days: int) {
    && p.planName == t.planName && p.limited == t.limited && p.perMonth == t.perMonth && p.intervals == t.intervals
    && p.statusId == h && p.isActive
    && p.createdAt == now && p.expiredAt == now + days * Calendar.MS_PER_DAY
  }

  // ---------- Buying ----------

  predicate Offered(pricings: seq<Pricing>) {
    pricings != [] && pricings[0].stripePriceId != ""
  }

  function TrialDays(pricings: seq<Pricing>): int
    requires pricings != []
  {
    pricings[|pricings| - 1].terms.trialDays
  }

  /** A purchase is refused, and changes nothing, if and only if there is no price, the
      price has no id, or the user has a plan that has not expired. Otherwise the trial
      days of the last price decide: with any, a trial starts unless the user ever had a
      plan; with none, the checkout opens unless Stripe fails. */
  lemma BuyReplies(st0: State, steps: seq<Step>, st: State, user: UserId, pricings: seq<Pricing>, period: Period,
                   h: HistoryId, o: Option<Opened>)
    requires Initial(st0) && Run(st0, steps, st) && h !in st.histories
    ensures var (st', reply) := BuyPlan(st, user, pricings, period, h, o);
            var mayBuy := Offered(pricings) && !(user in st.plans && st.plans[user].expiredAt > st.now);
            && (reply == Refused <==> !mayBuy)
            && (reply == Refused ==> st' == st)
            && (reply == TrialStarted <==> mayBuy && TrialDays(pricings) > 0 && user !in st.plans)
            && (reply == CheckoutOpened <==> mayBuy && TrialDays(pricings) <= 0 && o.Some?)
            && reply != Done
  {
    hide Run, Initial, TrialPlan;
    BR.ReachableInv(st0, steps, st);
  }

  /** Every purchase that is not refused adds the history row on the terms of the first
      price, and its open payment of price and setup fee. */
  lemma BuyAddsHistory(st: State, user: UserId, pricings: seq<Pricing>, period: Period, h: HistoryId, o: Option<Opened>)
    requires BuyPlan(st, user, pricings, period, h, o).1 != Refused
    ensures pricings != []
    ensures var (st', reply), t := BuyPlan(st, user, pricings, period, h, o), pricings[0].terms;
            && AddedHistory(st, st', h, History(user, t, period, st.now))
            && (reply == CheckoutOpened ==>
                  && o.Some? && st'.statuses[h].session == Some(o.value.id)
                  && st'.sessions == st.sessions[o.value.id := Session(ForHistory(h), o.value.payload)])
            && (reply != CheckoutOpened ==> st'.statuses[h].session == None && st'.sessions == st.sessions)
            && (reply != TrialStarted ==> st'.plans == st.plans && st'.configs == st.configs)
  {
    hide TrialPlan, PlanClash, AddHistory, AddedHistory, AddTrial, RecordCheckout;
    var t := pricings[0].terms;
    HistoryIsAdded(st, h, History(user, t, period, st.now));
    var st1 := AddHistory(st, h, History(user, t, period, st.now));
    CheckoutIsRecorded(st, st1, h, History(user, t, period, st.now), o);
    TrialLeavesHistory(st, st1, h, History(user, t, period, st.now), user,
                       TrialPlan(t, t.price, h, st.now, TrialDays(pricings)));
  }

  // The history row with its open payment of price and setup fee is there, and no other
  // has changed.
  ghost predicate AddedHistory(st: State, st': State, h: HistoryId, row: History) {
    && h in st'.histories && h in st'.statuses && st'.histories[h] == row
    && st'.statuses[h].status == Pending && st'.statuses[h].total == row.terms.price + row.terms.setupFee
    && st'.statuses[h].subscription == None && st'.statuses[h].customer == None
    && st'.histories - {h} == st.histories - {h} && st'.statuses - {h} == st.statuses - {h}
    && st'.now == st.now && st'.invoices == st.invoices && st'.delivered == st.delivered
  }

  lemma HistoryIsAdded(st: State, h: HistoryId, row: History)
    ensures var st1 := AddHistory(st, h, row);
            && AddedHistory(st, st1, h, row) && st1.statuses[h].session == None
            && st1.sessions == st.sessions && st1.plans == st.plans && st1.configs == st.configs
  {
  }

  lemma CheckoutIsRecorded(st: State, st1: State, h: HistoryId, row: History, o: Option<Opened>)
    requires AddedHistory(st, st1, h, row)
    ensures var (st', reply) := RecordCheckout(st1, h, o);
            && AddedHistory(st, st', h, row) && st'.plans == st1.plans && st'.configs == st1.configs
            && (o.None? ==> reply == Failed && st' == st1)
            && (o.Some? ==>
                  && reply == CheckoutOpened && st'.statuses[h].session == Some(o.value.id)
                  && st'.sessions == st1.sessions[o.value.id := Session(ForHistory(h), o.value.payload)])
  {
  }

  lemma TrialLeavesHistory(st: State, st1: State, h: HistoryId, row: History, user: UserId, plan: Plan)
    requires AddedHistory(st, st1, h, row)
    ensures var st' := AddTrial(st1, user, plan);
            AddedHistory(st, st', h, row) && st'.statuses == st1.statuses && st'.sessions == st1.sessions
  {
  }

  /** A trial that starts runs for the days of the last price, on the terms and at the
      price of the first and without setup fee, and connects the user's mailbox. */
  lemma BuyStartsTrial(st: State, user: UserId, pricings: seq<Pricing>, period: Period, h: HistoryId, o: Option<Opened>)
    requires BuyPlan(st, user, pricings, period, h, o).1 == TrialStarted
    ensures pricings != []
    ensures var st', t := BuyPlan(st, user, pricings, period, h, o).0, pricings[0].terms;
            && user !in st.plans && user in st'.plans && st'.plans - {user} == st.plans
            && RunsFor(st'.plans[user], t, h, st.now, TrialDays(pricings))
            && st'.plans[user].price == t.price && st'.plans[user].setupFee == 0.0 && st'.plans[user].origin == Trial
            && st'.configs.Keys == st.configs.Keys && st'.configs - {user} == st.configs - {user}
            && (user in st.configs ==>
                  st'.configs[user] == st.configs[user].(sync := true, connect := true, status := Connected))
  {
    hide Calendar.AddDays;
    TrialUntil(pricings[0].terms, pricings[0].terms.price, h, st.now, TrialDays(pricings));
  }

  // ---------- Upgrading ----------

  /** An upgrade is refused, and changes nothing, if and only if there is no price, the
      price has no id, or the user never bought anything. Otherwise the user's latest
      history row has the new terms and period, and its payment is open again: without a
      subscription, and without a session but the one that opened. Plan rows stay. */
  lemma UpgradeRevises(st: State, user: UserId, pricings: seq<Pricing>, period: Period, latest: Option<HistoryId>,
                       o: Option<Opened>)
    requires LatestHistory(st, user, latest)
    ensures var (st', reply) := UpgradePlan(st, user, pricings, period, latest, o);
            var bought := exists h :: h in st.histories && st.histories[h].user == user;
            && (reply == Refused <==> !Offered(pricings) || !bought)
            && (reply == Refused ==> st' == st)
            && (reply == CheckoutOpened <==> Offered(pricings) && bought && o.Some?)
            && (reply == Failed <==> Offered(pricings) && bought && o.None?)
            && (reply != Refused ==>
                  var h, t := latest.value, pricings[0].terms;
                  && h in st'.histories && h in st'.statuses
                  && st'.histories[h].terms == t && st'.histories[h].period == period
                  && st'.histories[h].user == user && st'.histories[h].createdAt == st.histories[h].createdAt
                  && st'.statuses[h].status == Pending && st'.statuses[h].total == t.price + t.setupFee
                  && st'.statuses[h].subscription == None
                  && st'.statuses[h].customer == (if h in st.statuses then st.statuses[h].customer else None)
                  && st'.statuses[h].session == (if o.Some? then Some(o.value.id) else None)
                  && st'.sessions == (if o.None? then st.sessions
                                      else st.sessions[o.value.id := Session(ForHistory(h), o.value.payload)])
                  && st'.histories - {h} == st.histories - {h} && st'.statuses - {h} == st.statuses - {h})
            && st'.plans == st.plans && st'.configs == st.configs && st'.now == st.now
            && st'.invoices == st.invoices && st'.delivered == st.delivered
  {
  }

  // ---------- Paying ----------

  /** In every reachable state, the delivery of a subscription's payment creates the plan
      row if and only if the user has none: on the terms of the history, for a month or a
      year as it says. No other plan row changes. */
  lemma DeliveryCreatesPlan(st0: State, steps: seq<Step>, st: State, s: SessionId)
    requires Initial(st0) && Run(st0, steps, st) && s in st.sessions && st.sessions[s].metadata.ForHistory?
    ensures st.sessions[s].metadata.history in st.histories
    ensures var st', h := Deliver(st, s), st.sessions[s].metadata.history;
            var row := st.histories[h];
            && (row.user in st.plans ==> st'.plans == st.plans)
            && (row.user !in st.plans ==>
                  && row.user in st'.plans && st'.plans - {row.user} == st.plans
                  && var p := st'.plans[row.user];
                     && RunsFor(p, row.terms, h, st.now, DaysOf(st.now, row.period))
                     && p.price == row.terms.price && p.setupFee == row.terms.setupFee && p.origin == Checkout)
  {
    hide Run, Initial, Expiry, Calendar.YearFromDay, Calendar.MonthFromDay;
    BR.ReachableInv(st0, steps, st);
    var h := st.sessions[s].metadata.history;
    BR.MarkPaidFrame(st, s);
    PaidUntil(st.histories[h], h, st.now);
  }

  /** It marks exactly the payments that refer to the session, with what the event says,
      and leaves the other tables alone. */
  lemma DeliveryMarks(st: State, s: SessionId, h: HistoryId)
    requires s in st.sessions && st.sessions[s].metadata.ForHistory? && h in st.statuses
    ensures var st', p := Deliver(st, s), st.sessions[s].payload;
            && st'.statuses.Keys == st.statuses.Keys
            && (st.statuses[h].session == Some(s) ==>
                  && st'.statuses[h].status == Paid && st'.statuses[h].total == st.statuses[h].total
                  && st'.statuses[h].session == Some(s) && st'.statuses[h].subscription == Some(p.subscription)
                  && st'.statuses[h].customer == Some(p.customer))
            && (st.statuses[h].session != Some(s) ==> st'.statuses[h] == st.statuses[h])
            && st'.histories == st.histories && st'.configs == st.configs && st'.invoices == st.invoices
            && st'.sessions == st.sessions && st'.now == st.now && st'.delivered == st.delivered + {s}
  {
    hide PaidPlan, PlanClash;
  }

  /** A session for a history without row or payment status creates no plan. */
  lemma NoPlanWithoutHistory(st: State, s: SessionId, h: HistoryId)
    requires s in st.sessions && st.sessions[s].metadata == ForHistory(h)
    requires h !in st.histories || h !in st.statuses
    ensures Deliver(st, s).plans == st.plans
  {
    BR.MarkPaidFrame(st, s);
  }

  /** The delivery of an invoice's payment marks that invoice paid now, by this session,
      and does nothing else; for an invoice that is gone it does nothing. */
  lemma InvoiceIsPaid(st: State, s: SessionId, i: InvoiceId)
    requires s in st.sessions && st.sessions[s].metadata == ForInvoice(i)
    ensures var st' := Deliver(st, s);
            && st' == st.(invoices := st'.invoices, delivered := st.delivered + {s})
            && st'.invoices.Keys == st.invoices.Keys && st'.invoices - {i} == st.invoices - {i}
            && (i in st.invoices ==>
                  && st'.invoices[i].isPaid && st'.invoices[i].paidAt == Some(st.now)
                  && st'.invoices[i].session == Some(s)
                  && st'.invoices[i].intent == Some(st.sessions[s].payload.intent))
  {
  }

  // ---------- The trial job ----------

  // A history the hourly job is there for: with trial days, not paid, its user without a
  // plan.
  ghost predicate AwaitsTrial(st: State, h: HistoryId) {
    && h in st.histories && st.histories[h].terms.trialDays >= 1 && st.histories[h].user !in st.plans
    && h in st.statuses && st.statuses[h].status != Paid
  }

  // The plan row that the job creates for it.
  predicate StartedFor(p: Plan, row: History, h: HistoryId, now: int) {
    && RunsFor(p, row.terms, h, now, row.terms.trialDays)
    && p.price == 0.0 && p.setupFee == 0.0 && p.origin == Trial
  }

  lemma {:induction false} TrialsCreate(st: State, rows: seq<HistoryId>, user: UserId)
    ensures var st' := ActivateTrials(st, rows).0;
            && st' == st.(plans := st'.plans, configs := st'.configs) && st'.configs.Keys == st.configs.Keys
            && (user in st.plans ==> user in st'.plans && st'.plans[user] == st.plans[user])
            && (user in st'.plans && user !in st.plans ==>
                  exists h :: h in rows && h in st.histories && st.histories[h].user == user
                              && StartedFor(st'.plans[user], st.histories[h], h, st.now))
    decreases |rows|
  {
    hide TrialPlan, StartedFor;
    if rows != [] {
      var front, h := rows[..|rows| - 1], rows[|rows| - 1];
      TrialsCreate(st, front, user);
      if h in st.histories { TrialPlanStarted(st.histories[h], h, st.now); }
      assert forall k :: k in rows <==> k in front || k == h;
    }
  }

  lemma TrialPlanStarted(row: History, h: HistoryId, now: int)
    ensures StartedFor(TrialPlan(row.terms, 0.0, h, now, row.terms.trialDays), row, h, now)
  {
    hide Calendar.AddDays;
    TrialUntil(row.terms, 0.0, h, now, row.terms.trialDays);
  }

  /** The hourly job lists such histories only. Every plan row that it creates is for a user who had none and for a
      history of theirs that is not paid; it costs nothing and runs for the days of that
      history. Rows that are there stay as they are. */
  lemma TrialJobCreates(st: State, rows: seq<HistoryId>, user: UserId)
    requires CanHappen(st, TrialsStep(rows))
    ensures forall h :: h in rows ==> AwaitsTrial(st, h)
    ensures var st' := Next(st, TrialsStep(rows));
            && (user in st.plans ==> user in st'.plans && st'.plans[user] == st.plans[user])
            && (user in st'.plans && user !in st.plans ==>
                  exists h :: h in rows && AwaitsTrial(st, h) && st.histories[h].user == user
                              && StartedFor(st'.plans[user], st.histories[h], h, st.now))
  {
    hide ActivateTrials, StartedFor;
    assert forall h :: h in rows ==> TrialCandidate(st, h);
    TrialsCreate(st, rows, user);
    if user in Next(st, TrialsStep(rows)).plans && user !in st.plans {
      var h :| h in rows && h in st.histories && st.histories[h].user == user
               && StartedFor(Next(st, TrialsStep(rows)).plans[user], st.histories[h], h, st.now);
      assert TrialCandidate(st, h) && AwaitsTrial(st, h);
    }
  }

  /** And for every such history it can create one, and connects the user's mailbox. */
  lemma TrialJobTakes(st: State, h: HistoryId)
    requires BR.Inv(st) && AwaitsTrial(st, h)
    ensures CanHappen(st, TrialsStep([h]))
    ensures var st', user := Next(st, TrialsStep([h])), st.histories[h].user;
            && user in st'.plans && StartedFor(st'.plans[user], st.histories[h], h, st.now)
            && (user in st.configs ==>
                  && user in st'.configs
                  && st'.configs[user] == st.configs[user].(sync := true, connect := true, status := Connected))
  {
    hide TrialPlan, StartedFor;
    TrialPlanStarted(st.histories[h], h, st.now);
    assert [h][..0] == [];
    assert ActivateTrials(st, [h]) == ActivateTrial(st, h);
  }

  // ---------- What the user may do ----------

  /** Access is granted if and only if the plan is active and has not expired; it is a
      paid user's if and only if the latest history has no trial days and is paid. */
  lemma AccessIff(st: State, user: UserId, latest: Option<HistoryId>)
    requires latest.Some? ==> latest.value in st.histories
    ensures var a, active := CheckAccess(st, user, latest), user in st.plans && st.plans[user].isActive;
            && (a.Granted? <==> active && st.now < st.plans[user].expiredAt)
            && (a == Denied(ExpiredLabel) <==> active && st.plans[user].expiredAt <= st.now)
            && (a == Denied(NoneLabel) <==> !active)
            && (a.Granted? ==>
                  && a.planName == st.plans[user].planName
                  && a.kind in {ActiveLabel, TrialLabel}
                  && (a.kind == ActiveLabel <==>
                        && latest.Some? && st.histories[latest.value].terms.trialDays <= 0
                        && latest.value in st.statuses && st.statuses[latest.value].status == Paid)
                  && forall n :: a.remainingDays <= n <==>
                                 st.plans[user].expiredAt - st.now <= n * Calendar.MS_PER_DAY)
  {
    hide Calendar.CeilDays;
    if CheckAccess(st, user, latest).Granted? {
      var ms := st.plans[user].expiredAt - st.now;
      forall n
        ensures Calendar.CeilDays(ms) <= n <==> ms <= n * Calendar.MS_PER_DAY
      {
        CeilIsLeast(ms, n);
      }
    }
  }

  lemma CeilIsLeast(ms: int, n: int)
    ensures Calendar.CeilDays(ms) <= n <==> ms <= n * Calendar.MS_PER_DAY
  {
  }

  /** Paying a first plan of no trial days gives a paid user's access for exactly the days
      of the month or year bought. */
  lemma PayingGrantsAccess(st0: State, steps: seq<Step>, st: State, s: SessionId, later: int)
    requires Initial(st0) && Run(st0, steps, st) && s in st.sessions && st.sessions[s].metadata.ForHistory?
    requires var h := st.sessions[s].metadata.history;
             && h in st.statuses && st.statuses[h].session == Some(s)
             && h in st.histories && st.histories[h].user !in st.plans && st.histories[h].terms.trialDays <= 0
    requires st.now <= later
    ensures var h := st.sessions[s].metadata.history;
            var row, st' := st.histories[h], Deliver(st, s).(now := later);
            && st'.histories == st.histories
            && var a := CheckAccess(st', row.user, Some(h));
               && (a.Granted? <==> later < st.now + DaysOf(st.now, row.period) * Calendar.MS_PER_DAY)
               && (a.Granted? ==> a.kind == ActiveLabel && a.planName == row.terms.planName)
               && (later == st.now ==> a.Granted? && a.remainingDays == DaysOf(st.now, row.period))
  {
    hide Run, Initial, Deliver, DaysOf;
    var h := st.sessions[s].metadata.history;
    var row := st.histories[h];
    DeliveryCreatesPlan(st0, steps, st, s);
    DeliveryMarks(st, s, h);
    PaidUntil(row, h, st.now);
    var st' := Deliver(st, s).(now := later);
    AccessIff(st', row.user, Some(h));
  }

  /** Starting a trial gives access for exactly its days, and as a trial's whatever was
      bought. */
  lemma TrialGrantsAccess(st: State, user: UserId, pricings: seq<Pricing>, period: Period, h: HistoryId,
                          o: Option<Opened>, later: int)
    requires BuyPlan(st, user, pricings, period, h, o).1 == TrialStarted && st.now <= later
    ensures pricings != []
    ensures var st' := BuyPlan(st, user, pricings, period, h, o).0.(now := later);
            && h in st'.histories
            && var a := CheckAccess(st', user, Some(h));
               && (a.Granted? <==> later < st.now + TrialDays(pricings) * Calendar.MS_PER_DAY)
               && (a.Granted? ==> a.kind == TrialLabel && a.planName == pricings[0].terms.planName)
               && (later == st.now && TrialDays(pricings) > 0 ==> a.remainingDays == TrialDays(pricings))
  {
    hide BuyPlan, TrialDays;
    BuyAddsHistory(st, user, pricings, period, h, o);
    BuyStartsTrial(st, user, pricings, period, h, o);
    var st' := BuyPlan(st, user, pricings, period, h, o).0.(now := later);
    AccessIff(st', user, Some(h));
  }

  // ---------- Over whole runs ----------

  // The plan is what its history row sold: a paid one for the period bought and at its
  // price, a trial without setup fee and at its price or for nothing.
  predicate SoldAs(p: Plan, row: History) {
    && p.planName == row.terms.planName && p.limited == row.terms.limited && p.perMonth == row.terms.perMonth
    && p.intervals == row.terms.intervals
    && match p.origin
       case Checkout =>
         && p.price == row.terms.price && p.setupFee == row.terms.setupFee
         && p.expiredAt == p.createdAt + DaysOf(p.createdAt, row.period) * Calendar.MS_PER_DAY
       case Trial => p.setupFee == 0.0 && (p.price == row.terms.price || p.price == 0.0)
  }

  ghost predicate AllSold(st: State) {
    forall u :: u in st.plans ==>
      st.plans[u].statusId in st.histories && SoldAs(st.plans[u], st.histories[st.plans[u].statusId])
  }

  ghost predicate HistoriesKept(st: State, st': State) {
    forall h :: h in st.histories ==> h in st'.histories && st'.histories[h] == st.histories[h]
  }

  // Plan rows that only ended.
  lemma EndedStaySold(st: State, st': State)
    requires AllSold(st) && HistoriesKept(st, st') && PlanRuns.PlansKept(st, st') && st'.plans.Keys == st.plans.Keys
    ensures AllSold(st')
  {
    hide DaysOf;
    forall u | u in st'.plans
      ensures st'.plans[u].statusId in st'.histories && SoldAs(st'.plans[u], st'.histories[st'.plans[u].statusId])
    {
      assert PlanRuns.SamePlan(st.plans[u], st'.plans[u]);
    }
  }

  lemma BuyStaysSold(st: State, user: UserId, pricings: seq<Pricing>, period: Period, h: HistoryId, o: Option<Opened>)
    requires AllSold(st) && h !in st.histories
    ensures AllSold(BuyPlan(st, user, pricings, period, h, o).0)
  {
    hide BuyPlan, DaysOf;
    var (st', reply) := BuyPlan(st, user, pricings, period, h, o);
    BuyRefusedKeeps(st, user, pricings, period, h, o);
    if reply != Refused {
      BuyAddsHistory(st, user, pricings, period, h, o);
      assert forall k :: k in st.histories ==> k in st'.histories - {h} && st'.histories[k] == (st'.histories - {h})[k];
      if reply == TrialStarted {
        BuyStartsTrial(st, user, pricings, period, h, o);
        assert forall u :: u in st'.plans && u != user ==>
                           u in st'.plans - {user} && (st'.plans - {user})[u] == st'.plans[u];
      }
    }
  }

  lemma BuyRefusedKeeps(st: State, user: UserId, pricings: seq<Pricing>, period: Period, h: HistoryId,
                        o: Option<Opened>)
    ensures BuyPlan(st, user, pricings, period, h, o).1 == Refused ==>
              BuyPlan(st, user, pricings, period, h, o).0 == st
  {
    hide TrialPlan, PlanClash;
  }

  lemma DeliverStaysSold(st: State, s: SessionId)
    requires AllSold(st)
    ensures AllSold(Deliver(st, s))
  {
    hide MarkPaid, PlanClash, DaysOf, Expiry;
    if s in st.sessions && st.sessions[s].metadata.ForHistory? {
      BR.MarkPaidFrame(st, s);
      var h := st.sessions[s].metadata.history;
      if h in st.histories { PaidUntil(st.histories[h], h, st.now); }
    }
  }

  lemma {:induction false} TrialsStaySold(st: State, rows: seq<HistoryId>)
    requires AllSold(st)
    ensures AllSold(ActivateTrials(st, rows).0) && ActivateTrials(st, rows).0.histories == st.histories
    decreases |rows|
  {
    hide Calendar.AddDays, PlanClash, DaysOf;
    if rows != [] { TrialsStaySold(st, rows[..|rows| - 1]); }
  }

  lemma StepStaysSold(st: State, step: Step)
    requires AllSold(st) && CanHappen(st, step) && !step.UpgradeStep?
    ensures AllSold(Next(st, step))
  {
    hide BuyPlan, Deliver, ActivateTrials, DeactivateExpired, ConfigNext, AllSold, LatestHistory, PlanRuns.PlansKept;
    match step
    case BuyStep(user, pricings, period, h, o) => BuyStaysSold(st, user, pricings, period, h, o);
    case DeliverStep(s) => DeliverStaysSold(st, s);
    case TrialsStep(rows) => TrialsStaySold(st, rows);
    case MidnightStep(rows) =>
      PlanRuns.MidnightKeepsPlans(st, rows);
      BR.MidnightFrame(st, rows);
      EndedStaySold(st, Next(st, step));
    case TickStep(_) => OtherStepsStaySold(st, step);
    case OtherCheckoutStep(_, _) => OtherStepsStaySold(st, step);
    case UpgradeStep(_, _, _, _, _) =>
    case _ =>
      BR.NextOfConfigStep(st, step);
      OtherStepsStaySold(st, step);
  }

  lemma OtherStepsStaySold(st: State, step: Step)
    requires AllSold(st) && CanHappen(st, step)
    requires Next(st, step).histories == st.histories && Next(st, step).plans == st.plans
    ensures AllSold(Next(st, step))
  {
    hide CanHappen, Next;
  }

  lemma {:induction false} RunStaysSold(st: State, steps: seq<Step>, st': State)
    requires AllSold(st) && Run(st, steps, st') && PlanRuns.WithoutUpgrades(steps)
    ensures AllSold(st')
    decreases |steps|
  {
    hide AllSold, CanHappen, Next;
    if steps != [] {
      StepStaysSold(st, steps[0]);
      RunStaysSold(Next(st, steps[0]), steps[1..], st');
    }
  }

  /** Over any run without upgrades, every plan row is what its history row sold: quota,
      intervals, price and, for a paid one, the length of the period that was chosen. */
  lemma PlansAreAsSold(st0: State, steps: seq<Step>, st: State, user: UserId)
    requires Initial(st0) && Run(st0, steps, st) && PlanRuns.WithoutUpgrades(steps) && user in st.plans
    ensures st.plans[user].statusId in st.histories
    ensures SoldAs(st.plans[user], st.histories[st.plans[user].statusId])
    ensures st.histories[st.plans[user].statusId].user == user
  {
    hide Run, SoldAs;
    RunStaysSold(st0, steps, st);
    BR.ReachableInv(st0, steps, st);
  }
}
