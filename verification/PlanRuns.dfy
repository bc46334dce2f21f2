/** How plan rows come to be and change over whole runs: who may own one, that it is
    created once and only ever ends, what it was paid with, and how long it lasts. */
module PlanRuns {
  import opened Wrappers
  import opened Billing
  import BR = BillingRuns
  import Calendar

  // ---------- A plan row is written once ----------

  // Nothing but isActive differs, and that only from true to false.
  ghost predicate SamePlan(p: Plan, q: Plan) {
    q == p.(isActive := q.isActive) && (q.isActive ==> p.isActive)
  }

  ghost predicate PlansKept(st: State, st': State) {
    forall u :: u in st.plans ==> u in st'.plans && SamePlan(st.plans[u], st'.plans[u])
  }

  lemma SamePlansKept(st: State, st': State)
    requires st'.plans == st.plans
    ensures PlansKept(st, st')
  {
  }

  lemma {:induction false} TrialsKeepPlans(st: State, rows: seq<HistoryId>)
    ensures PlansKept(st, ActivateTrials(st, rows).0)
    decreases |rows|
  {
    hide TrialPlan;
    if rows != [] {
      TrialsKeepPlans(st, rows[..|rows| - 1]);
    }
  }

  lemma {:induction false} MidnightKeepsPlans(st: State, rows: seq<Notice>)
    requires forall n :: n in rows ==> n.user in st.plans
    ensures PlansKept(st, DeactivateExpired(st, rows))
    decreases |rows|
  {
    if rows != [] {
      MidnightKeepsPlans(st, rows[..|rows| - 1]);
    }
  }

  lemma BuyKeepsPlans(st: State, user: UserId, pricings: seq<Pricing>, period: Period, h: HistoryId, o: Option<Opened>)
    ensures PlansKept(st, BuyPlan(st, user, pricings, period, h, o).0)
  {
    hide TrialPlan;
  }

  lemma UpgradeKeepsPlans(st: State, user: UserId, pricings: seq<Pricing>, period: Period, latest: Option<HistoryId>,
                          o: Option<Opened>)
    requires LatestHistory(st, user, latest)
    ensures PlansKept(st, UpgradePlan(st, user, pricings, period, latest, o).0)
  {
  }

  lemma DeliverKeepsPlans(st: State, s: SessionId)
    ensures PlansKept(st, Deliver(st, s))
  {
    hide MarkPaid, CreatePaidPlan;
    if s in st.sessions {
      BR.MarkPaidFrame(st, s);
      if st.sessions[s].metadata.ForHistory? {
        CreatePaidKeepsPlans(MarkPaid(st, s), st.sessions[s].metadata.history);
      }
    }
  }

  lemma CreatePaidKeepsPlans(st: State, h: HistoryId)
    ensures PlansKept(st, CreatePaidPlan(st, h))
  {
    hide PaidPlan;
  }

  lemma StepKeepsPlans(st: State, step: Step)
    requires CanHappen(st, step)
    ensures PlansKept(st, Next(st, step))
  {
    hide BuyPlan, UpgradePlan, Deliver, ActivateTrials, DeactivateExpired, ConfigNext, PlansKept, LatestHistory;
    match step
    case TickStep(_) => SamePlansKept(st, Next(st, step));
    case BuyStep(user, pricings, period, h, o) => BuyKeepsPlans(st, user, pricings, period, h, o);
    case UpgradeStep(user, pricings, period, latest, o) => UpgradeKeepsPlans(st, user, pricings, period, latest, o);
    case OtherCheckoutStep(_, _) => SamePlansKept(st, Next(st, step));
    case DeliverStep(s) => DeliverKeepsPlans(st, s);
    case TrialsStep(rows) => TrialsKeepPlans(st, rows);
    case MidnightStep(rows) => MidnightKeepsPlans(st, rows);
    case _ =>
      BR.NextOfConfigStep(st, step);
      SamePlansKept(st, Next(st, step));
  }

  /** Along every run a plan row keeps its owner, quota, price, payment status and both
      dates; all that can happen to it is that it ends. */
  lemma {:induction false} RunKeepsPlans(st: State, steps: seq<Step>, st': State)
    requires Run(st, steps, st')
    ensures PlansKept(st, st')
    decreases |steps|
  {
    hide CanHappen, Next;
    if steps != [] {
      StepKeepsPlans(st, steps[0]);
      RunKeepsPlans(Next(st, steps[0]), steps[1..], st');
    }
  }

  /** Once a plan row is inactive its user never has access again: no purchase, renewal
      payment, upgrade, trial job or administrator brings it back, because the row is
      never deleted and every path but updating it needs a second row for the user. */
  lemma EndedPlanNeverGrants(st: State, steps: seq<Step>, st': State, user: UserId, latest: Option<HistoryId>)
    requires Run(st, steps, st') && user in st.plans && !st.plans[user].isActive
    requires latest.Some? ==> latest.value in st'.histories
    ensures CheckAccess(st', user, latest) == Denied(NoneLabel)
  {
    RunKeepsPlans(st, steps, st');
  }

  // ---------- What a plan row was paid with ----------

  ghost predicate Backed(st: State)
    requires BR.Inv(st)
  {
    && (forall s :: s in st.sessions && st.sessions[s].metadata.ForHistory? ==>
          var h := st.sessions[s].metadata.history;
          st.statuses[h].session == Some(s) || st.histories[h].user in st.plans)
    && (forall u :: u in st.plans ==>
          st.plans[u].origin == Trial || st.statuses[st.plans[u].statusId].status == Paid)
  }

  lemma AddHistoryKeepsBacked(st: State, h: HistoryId, row: History)
    requires BR.Inv(st) && Backed(st) && h !in st.histories
    ensures BR.Inv(AddHistory(st, h, row)) && Backed(AddHistory(st, h, row))
  {
    BR.AddHistoryKeepsInv(st, h, row);
  }

  lemma AddTrialKeepsBacked(st: State, user: UserId, plan: Plan)
    requires BR.Inv(st) && Backed(st) && plan.origin == Trial
    requires plan.statusId in st.histories && st.histories[plan.statusId].user == user
    ensures BR.Inv(AddTrial(st, user, plan)) && Backed(AddTrial(st, user, plan))
  {
  }

  lemma RecordCheckoutKeepsBacked(st: State, h: HistoryId, o: Option<Opened>)
    requires BR.Inv(st) && Backed(st) && FreshCheckout(st, o)
    requires h in st.histories && st.statuses[h].session.None?
    ensures BR.Inv(RecordCheckout(st, h, o).0) && Backed(RecordCheckout(st, h, o).0)
  {
    BR.RecordCheckoutKeepsInv(st, h, o);
  }

  lemma BuyKeepsBacked(st: State, user: UserId, pricings: seq<Pricing>, period: Period, h: HistoryId, o: Option<Opened>)
    requires BR.Inv(st) && Backed(st) && h !in st.histories && FreshCheckout(st, o)
    ensures BR.Inv(BuyPlan(st, user, pricings, period, h, o).0)
    ensures Backed(BuyPlan(st, user, pricings, period, h, o).0)
  {
    hide BR.Inv, Backed, BuyPlan, RecordCheckout, AddTrial, PlanClash;
    BR.BuyOutcomes(st, user, pricings, period, h, o);
    if pricings != [] {
      var t, days := pricings[0].terms, pricings[|pricings| - 1].terms.trialDays;
      var row := History(user, t, period, st.now);
      AddHistoryKeepsBacked(st, h, row);
      RecordCheckoutKeepsBacked(AddHistory(st, h, row), h, o);
      AddTrialKeepsBacked(AddHistory(st, h, row), user, TrialPlan(t, t.price, h, st.now, days));
    }
  }

  lemma MarkPaidKeepsBacked(st: State, s: SessionId)
    requires BR.Inv(st) && Backed(st) && s in st.sessions
    ensures BR.Inv(MarkPaid(st, s)) && Backed(MarkPaid(st, s))
  {
    BR.MarkPaidKeepsInv(st, s);
  }

  lemma AddPaidKeepsBacked(st: State, user: UserId, plan: Plan)
    requires BR.Inv(st) && Backed(st)
    requires plan.statusId in st.histories && st.histories[plan.statusId].user == user
    requires st.statuses[plan.statusId].status == Paid
    ensures BR.Inv(AddPlan(st, user, plan)) && Backed(AddPlan(st, user, plan))
  {
  }

  lemma DeliverKeepsBacked(st: State, s: SessionId)
    requires BR.Inv(st) && Backed(st)
    ensures BR.Inv(Deliver(st, s)) && Backed(Deliver(st, s))
  {
    hide BR.Inv, Backed, MarkPaid, CreatePaidPlan;
    BR.DeliverKeepsInv(st, s);
    if s in st.sessions && st.sessions[s].metadata.ForHistory? {
      var st1 := MarkPaid(st, s);
      MarkPaidKeepsBacked(st, s);
      CreatePaidKeepsBacked(st, s);
      BackedAlike(CreatePaidPlan(st1, st.sessions[s].metadata.history), Deliver(st, s));
    } else {
      BackedAlike(st, Deliver(st, s));
    }
  }

  lemma BackedAlike(st: State, st': State)
    requires BR.Inv(st) && Backed(st) && BR.Inv(st')
    requires st'.histories == st.histories && st'.statuses == st.statuses && st'.plans == st.plans
             && st'.sessions == st.sessions
    ensures Backed(st')
  {
  }

  // Whoever pays the session that the status refers to, or has a plan row, ends backed.
  lemma CreatePaidKeepsBacked(st: State, s: SessionId)
    requires BR.Inv(st) && Backed(st) && s in st.sessions && st.sessions[s].metadata.ForHistory?
    ensures var st2 := CreatePaidPlan(MarkPaid(st, s), st.sessions[s].metadata.history);
            BR.Inv(st2) && Backed(st2)
  {
    hide PaidPlan;
    var h, st1 := st.sessions[s].metadata.history, MarkPaid(st, s);
    MarkPaidKeepsBacked(st, s);
    var row := st1.histories[h];
    if !PlanClash(st1, row.user, h) {
      PaidPlanIsFor(row, h, st1.now);
      AddPaidKeepsBacked(st1, row.user, PaidPlan(row, h, st1.now));
    }
  }

  lemma PaidPlanIsFor(row: History, h: HistoryId, now: int)
    ensures PaidPlan(row, h, now).statusId == h && PaidPlan(row, h, now).isActive
  {
    hide Expiry;
  }

  lemma {:induction false} TrialsKeepBacked(st: State, rows: seq<HistoryId>)
    requires BR.Inv(st) && Backed(st) && forall h :: h in rows ==> h in st.histories
    ensures BR.Inv(ActivateTrials(st, rows).0) && Backed(ActivateTrials(st, rows).0)
    decreases |rows|
  {
    hide Calendar.AddDays;
    BR.TrialsKeepInv(st, rows);
    if rows != [] {
      TrialsKeepBacked(st, rows[..|rows| - 1]);
    }
  }

  lemma {:induction false} MidnightKeepsBacked(st: State, rows: seq<Notice>)
    requires BR.Inv(st) && Backed(st) && ExpiredRows(st, rows)
    ensures BR.Inv(DeactivateExpired(st, rows)) && Backed(DeactivateExpired(st, rows))
    decreases |rows|
  {
    hide BR.Inv, Backed, LatestHistory;
    if rows != [] {
      BR.LastNotice(st, rows);
      MidnightKeepsBacked(st, rows[..|rows| - 1]);
      DeactivateOneKeepsBacked(DeactivateExpired(st, rows[..|rows| - 1]), rows[|rows| - 1]);
    }
  }

  lemma DeactivateOneKeepsBacked(st: State, n: Notice)
    requires BR.Inv(st) && Backed(st) && n.user in st.plans
    requires LatestHistory(st, n.user, n.latest) && FreshCheckout(st, n.checkout)
    ensures BR.Inv(DeactivateOne(st, n)) && Backed(DeactivateOne(st, n))
  {
    BR.DeactivateOneKeepsInv(st, n);
  }

  lemma StepKeepsBacked(st: State, step: Step)
    requires BR.Inv(st) && Backed(st) && CanHappen(st, step) && !step.UpgradeStep?
    ensures BR.Inv(Next(st, step)) && Backed(Next(st, step))
  {
    hide BR.Inv, BuyPlan, Deliver, ActivateTrials, DeactivateExpired, ConfigNext;
    BR.StepKeepsInv(st, step);
    match step
    case BuyStep(user, pricings, period, h, o) => BuyKeepsBacked(st, user, pricings, period, h, o);
    case DeliverStep(s) => DeliverKeepsBacked(st, s);
    case TrialsStep(rows) => TrialsKeepBacked(st, rows);
    case MidnightStep(rows) => MidnightKeepsBacked(st, rows);
    case _ =>
  }

  ghost predicate WithoutUpgrades(steps: seq<Step>) {
    forall i :: 0 <= i < |steps| ==> !steps[i].UpgradeStep?
  }

  lemma {:induction false} RunKeepsBacked(st: State, steps: seq<Step>, st': State)
    requires BR.Inv(st) && Backed(st) && Run(st, steps, st') && WithoutUpgrades(steps)
    ensures BR.Inv(st') && Backed(st')
    decreases |steps|
  {
    hide BR.Inv, CanHappen, Next;
    if steps != [] {
      StepKeepsBacked(st, steps[0]);
      RunKeepsBacked(Next(st, steps[0]), steps[1..], st');
    }
  }

  /** Without upgrades, every plan row belongs to a payment of its own user and either
      started on a trial path or is paid for. */
  lemma PlanIsTrialOrPaid(st0: State, steps: seq<Step>, st: State, user: UserId)
    requires Initial(st0) && Run(st0, steps, st) && WithoutUpgrades(steps) && user in st.plans
    ensures var id := st.plans[user].statusId;
            && id in st.histories && st.histories[id].user == user
            && id in st.statuses && (st.plans[user].origin == Trial || st.statuses[id].status == Paid)
  {
    RunKeepsBacked(st0, steps, st);
  }

  /** With upgrades it depends on the delivered session. In every reachable state, a
      delivery that creates a plan row leaves it paid exactly when the history's payment
      status still refers to that session, or was paid already. */
  lemma DeliveryPaysIff(st0: State, steps: seq<Step>, st: State, s: SessionId)
    requires Initial(st0) && Run(st0, steps, st)
    requires s in st.sessions && st.sessions[s].metadata.ForHistory?
    ensures var h := st.sessions[s].metadata.history;
            && h in st.histories && h in st.statuses
            && (st.histories[h].user !in st.plans ==>
                  var st', user := Deliver(st, s), st.histories[h].user;
                  && user in st'.plans && st'.plans[user].statusId == h && h in st'.statuses
                  && (st'.statuses[h].status == Paid <==>
                        st.statuses[h].session == Some(s) || st.statuses[h].status == Paid))
  {
    hide Run, Initial;
    BR.ReachableInv(st0, steps, st);
    PaidBy(st, s);
  }

  lemma PaidBy(st: State, s: SessionId)
    requires BR.Inv(st) && s in st.sessions && st.sessions[s].metadata.ForHistory?
    ensures var h, user := st.sessions[s].metadata.history, st.histories[st.sessions[s].metadata.history].user;
            user !in st.plans ==>
              var st' := Deliver(st, s);
              && user in st'.plans && st'.plans[user].statusId == h && h in st'.statuses
              && (st'.statuses[h].status == Paid <==>
                    st.statuses[h].session == Some(s) || st.statuses[h].status == Paid)
  {
    hide PaidPlan;
    PaidPlanIsFor(st.histories[st.sessions[s].metadata.history], st.sessions[s].metadata.history, st.now);
  }

  /** How an upgrade breaks it: buy a plan, upgrade before paying, then pay the first
      checkout. The plan row is created on the upgraded terms and stays unpaid. */
  lemma UpgradeThenPayOldCheckout(st0: State, user: UserId, cheap: Pricing, dear: Pricing, period: Period,
                                  h: HistoryId, first: Opened, second: Opened)
    requires Initial(st0) && first.id != second.id
    requires cheap.stripePriceId != "" && dear.stripePriceId != "" && cheap.terms.trialDays <= 0
    ensures var buy := BuyStep(user, [cheap], period, h, Some(first));
            var upgrade := UpgradeStep(user, [dear], period, Some(h), Some(second));
            exists st ::
              && Run(st0, [buy, upgrade, DeliverStep(first.id)], st) && user in st.plans && h in st.statuses
              && st.plans[user].planName == dear.terms.planName && st.plans[user].price == dear.terms.price
              && st.plans[user].origin == Checkout && st.plans[user].statusId == h
              && st.statuses[h].status == Pending
  {
    hide CanHappen, Next, Initial;
    assert Run(st0, [], st0);
    hide Run;
    var buy := BuyStep(user, [cheap], period, h, Some(first));
    var upgrade := UpgradeStep(user, [dear], period, Some(h), Some(second));
    var st1 := AfterBuying(st0, user, cheap, period, h, first);
    var st2 := AfterUpgrading(st1, user, dear, period, h, first, second);
    AfterPayingFirst(st2, user, h, first, second);
    BR.RunAppend(st0, [], st0, buy);
    BR.RunAppend(st0, [] + [buy], st1, upgrade);
    BR.RunAppend(st0, [] + [buy] + [upgrade], st2, DeliverStep(first.id));
    assert [] + [buy] + [upgrade] + [DeliverStep(first.id)] == [buy, upgrade, DeliverStep(first.id)];
  }

  lemma AfterBuying(st0: State, user: UserId, cheap: Pricing, period: Period, h: HistoryId, first: Opened)
    returns (st1: State)
    requires Initial(st0) && cheap.stripePriceId != "" && cheap.terms.trialDays <= 0
    ensures var buy := BuyStep(user, [cheap], period, h, Some(first));
            CanHappen(st0, buy) && st1 == Next(st0, buy)
    ensures h in st1.statuses && st1.histories.Keys == {h} && st1.histories[h].user == user && st1.plans == map[]
    ensures st1.sessions == map[first.id := Session(ForHistory(h), first.payload)]
    ensures st1.histories[h] == History(user, cheap.terms, period, st0.now)
    ensures st1.statuses[h].session == Some(first.id) && st1.configs == map[] && st1.now == st0.now
  {
    hide TrialPlan;
    st1 := Next(st0, BuyStep(user, [cheap], period, h, Some(first)));
  }

  lemma AfterUpgrading(st1: State, user: UserId, dear: Pricing, period: Period, h: HistoryId, first: Opened,
                       second: Opened)
    returns (st2: State)
    requires h in st1.statuses && st1.histories.Keys == {h} && st1.histories[h].user == user && st1.plans == map[]
    requires st1.sessions == map[first.id := Session(ForHistory(h), first.payload)]
    requires first.id != second.id && dear.stripePriceId != ""
    ensures var upgrade := UpgradeStep(user, [dear], period, Some(h), Some(second));
            CanHappen(st1, upgrade) && st2 == Next(st1, upgrade)
    ensures h in st2.histories && st2.histories[h].user == user && st2.histories[h].terms == dear.terms
            && st2.plans == map[]
    ensures h in st2.statuses && st2.statuses[h].session == Some(second.id) && st2.statuses[h].status == Pending
    ensures first.id in st2.sessions && st2.sessions[first.id].metadata == ForHistory(h)
  {
    st2 := Next(st1, UpgradeStep(user, [dear], period, Some(h), Some(second)));
  }

  lemma AfterPayingFirst(st2: State, user: UserId, h: HistoryId, first: Opened, second: Opened)
    requires h in st2.histories && st2.histories[h].user == user && st2.plans == map[] && first.id != second.id
    requires h in st2.statuses && st2.statuses[h].session == Some(second.id) && st2.statuses[h].status == Pending
    requires first.id in st2.sessions && st2.sessions[first.id].metadata == ForHistory(h)
    ensures CanHappen(st2, DeliverStep(first.id))
    ensures var st, t := Next(st2, DeliverStep(first.id)), st2.histories[h].terms;
            && user in st.plans && h in st.statuses
            && st.plans[user].planName == t.planName && st.plans[user].price == t.price
            && st.plans[user].origin == Checkout && st.plans[user].statusId == h
            && st.statuses[h].status == Pending
  {
    hide Expiry;
  }

  // ---------- How long a plan lasts ----------

  function Longest(trialDays: int): int {
    if trialDays > 366 then trialDays else 366
  }

  // No price on offer grants more than the given number of trial days.
  ghost predicate OffersAtMost(step: Step, days: int) {
    match step
    case BuyStep(_, pricings, _, _, _) => forall p :: p in pricings ==> p.terms.trialDays <= days
    case UpgradeStep(_, pricings, _, _, _) => forall p :: p in pricings ==> p.terms.trialDays <= days
    case _ => true
  }

  ghost predicate WithinBound(p: Plan, now: int, days: int) {
    p.createdAt <= now && p.createdAt < p.expiredAt <= p.createdAt + Longest(days) * Calendar.MS_PER_DAY
  }

  ghost predicate Bounded(st: State, days: int) {
    && (forall h :: h in st.histories ==> st.histories[h].terms.trialDays <= days)
    && (forall u :: u in st.plans ==> WithinBound(st.plans[u], st.now, days))
  }

  lemma TrialWithinBound(t: Terms, price: real, id: HistoryId, now: int, trialDays: int, days: int)
    requires 0 < trialDays <= days
    ensures WithinBound(TrialPlan(t, price, id, now, trialDays), now, days)
  {
    hide Calendar.AddDays;
    Calendar.AddDaysAdvance(now, trialDays);
  }

  lemma PaidWithinBound(row: History, id: HistoryId, now: int, days: int)
    ensures WithinBound(PaidPlan(row, id, now), now, days)
  {
    hide Calendar.NextMonth, Calendar.NextYear;
    Calendar.NextMonthAdvance(now);
    Calendar.NextYearAdvance(now);
  }

  lemma {:induction false} TrialsStayBounded(st: State, rows: seq<HistoryId>, days: int)
    requires Bounded(st, days)
    requires forall h :: h in rows ==> h in st.histories && st.histories[h].terms.trialDays > 0
    ensures var r := ActivateTrials(st, rows).0;
            Bounded(r, days) && r.histories == st.histories && r.now == st.now
    decreases |rows|
  {
    hide TrialPlan, WithinBound;
    if rows != [] {
      var h := rows[|rows| - 1];
      TrialsStayBounded(st, rows[..|rows| - 1], days);
      var row := st.histories[h];
      TrialWithinBound(row.terms, 0.0, h, st.now, row.terms.trialDays, days);
    }
  }

  lemma {:induction false} MidnightStaysBounded(st: State, rows: seq<Notice>, days: int)
    requires Bounded(st, days) && forall n :: n in rows ==> n.user in st.plans
    ensures Bounded(DeactivateExpired(st, rows), days)
    decreases |rows|
  {
    hide WithinBound, DeactivateOne, Bounded;
    if rows != [] {
      var front, last := rows[..|rows| - 1], rows[|rows| - 1];
      MidnightStaysBounded(st, front, days);
      EndingStaysBounded(DeactivateExpired(st, front), last, days);
    }
  }

  lemma EndingStaysBounded(st: State, n: Notice, days: int)
    requires Bounded(st, days) && n.user in st.plans
    ensures Bounded(DeactivateOne(st, n), days)
  {
  }

  lemma BuyStaysBounded(st: State, user: UserId, pricings: seq<Pricing>, period: Period, h: HistoryId,
                        o: Option<Opened>, days: int)
    requires Bounded(st, days) && forall p :: p in pricings ==> p.terms.trialDays <= days
    ensures Bounded(BuyPlan(st, user, pricings, period, h, o).0, days)
  {
    hide TrialPlan, WithinBound, PlanClash;
    if pricings != [] {
      var t, trial := pricings[0].terms, pricings[|pricings| - 1].terms.trialDays;
      assert pricings[0] in pricings && pricings[|pricings| - 1] in pricings;
      var st1 := AddHistory(st, h, History(user, t, period, st.now));
      assert Bounded(st1, days);
      RecordCheckoutFrame(st1, h, o);
      if trial > 0 {
        TrialWithinBound(t, t.price, h, st.now, trial, days);
      }
    }
  }

  lemma RecordCheckoutFrame(st: State, h: HistoryId, o: Option<Opened>)
    requires h in st.statuses
    ensures var r := RecordCheckout(st, h, o).0;
            r.histories == st.histories && r.plans == st.plans && r.now == st.now && r.configs == st.configs
  {
  }

  lemma DeliverStaysBounded(st: State, s: SessionId, days: int)
    requires Bounded(st, days)
    ensures Bounded(Deliver(st, s), days)
  {
    hide PaidPlan, WithinBound;
    if s in st.sessions && st.sessions[s].metadata.ForHistory? && st.sessions[s].metadata.history in st.histories {
      var h := st.sessions[s].metadata.history;
      PaidWithinBound(st.histories[h], h, st.now, days);
    }
  }

  lemma StaysBounded(st: State, st': State, days: int)
    requires Bounded(st, days) && st'.histories == st.histories && st'.plans == st.plans && st.now <= st'.now
    ensures Bounded(st', days)
  {
  }

  lemma UpgradeStaysBounded(st: State, user: UserId, pricings: seq<Pricing>, period: Period,
                            latest: Option<HistoryId>, o: Option<Opened>, days: int)
    requires Bounded(st, days) && LatestHistory(st, user, latest)
    requires forall p :: p in pricings ==> p.terms.trialDays <= days
    ensures Bounded(UpgradePlan(st, user, pricings, period, latest, o).0, days)
  {
    hide WithinBound, RecordCheckout;
    if pricings != [] && latest.Some? {
      assert pricings[0] in pricings;
      var st1 := ReviseHistory(st, latest.value, pricings[0].terms, period);
      assert Bounded(st1, days);
      RecordCheckoutFrame(st1, latest.value, o);
    }
  }

  lemma StepStaysBounded(st: State, step: Step, days: int)
    requires Bounded(st, days) && CanHappen(st, step) && OffersAtMost(step, days)
    ensures Bounded(Next(st, step), days)
  {
    hide BuyPlan, UpgradePlan, Deliver, ActivateTrials, DeactivateExpired, ConfigNext, Bounded, LatestHistory;
    match step
    case TickStep(_) => StaysBounded(st, Next(st, step), days);
    case BuyStep(user, pricings, period, h, o) => BuyStaysBounded(st, user, pricings, period, h, o, days);
    case UpgradeStep(user, pricings, period, latest, o) =>
      UpgradeStaysBounded(st, user, pricings, period, latest, o, days);
    case OtherCheckoutStep(_, _) => StaysBounded(st, Next(st, step), days);
    case DeliverStep(s) => DeliverStaysBounded(st, s, days);
    case TrialsStep(rows) => TrialsStayBounded(st, rows, days);
    case MidnightStep(rows) => MidnightStaysBounded(st, rows, days);
    case _ =>
      BR.NextOfConfigStep(st, step);
      StaysBounded(st, Next(st, step), days);
  }

  ghost predicate AllOfferAtMost(steps: seq<Step>, days: int) {
    forall i :: 0 <= i < |steps| ==> OffersAtMost(steps[i], days)
  }

  lemma {:induction false} RunStaysBounded(st: State, steps: seq<Step>, st': State, days: int)
    requires Bounded(st, days) && Run(st, steps, st') && AllOfferAtMost(steps, days)
    ensures Bounded(st', days)
    decreases |steps|
  {
    hide Bounded, CanHappen, Next, OffersAtMost;
    if steps != [] {
      StepStaysBounded(st, steps[0], days);
      RunStaysBounded(Next(st, steps[0]), steps[1..], st', days);
    }
  }

  /** Granted access always shows at least one remaining day, and never more than the
      longest trial on offer or a leap year. */
  lemma RemainingDaysBound(st0: State, steps: seq<Step>, st: State, days: int, user: UserId, latest: Option<HistoryId>)
    requires Initial(st0) && Run(st0, steps, st) && AllOfferAtMost(steps, days)
    requires latest.Some? ==> latest.value in st.histories
    ensures var a := CheckAccess(st, user, latest);
            a.Granted? ==> 1 <= a.remainingDays <= Longest(days)
  {
    RunStaysBounded(st0, steps, st, days);
    if CheckAccess(st, user, latest).Granted? {
      var left := st.plans[user].expiredAt - st.now;
      assert WithinBound(st.plans[user], st.now, days);
      assert 0 < left <= Longest(days) * Calendar.MS_PER_DAY;
      var ceil := Calendar.CeilDays(left);
      assert (ceil - 1) * Calendar.MS_PER_DAY < left <= ceil * Calendar.MS_PER_DAY;
    }
  }
}
