/** Safety of the billing tables over every run: what all handlers keep between histories,
    payments, sessions and plan rows, and that a Stripe event counts once. */
module BillingRuns {
  import opened Wrappers
  import opened Billing
  import Calendar

  // ---------- The invariant ----------

  // Histories, payment statuses and sessions point at each other consistently.
  ghost predicate Linked(st: State) {
    && st.histories.Keys == st.statuses.Keys
    && (forall s :: s in st.sessions && st.sessions[s].metadata.ForHistory? ==>
          st.sessions[s].metadata.history in st.histories)
    && (forall h :: h in st.statuses && st.statuses[h].session.Some? ==>
          && st.statuses[h].session.value in st.sessions
          && st.sessions[st.statuses[h].session.value].metadata == ForHistory(h))
    && st.delivered <= st.sessions.Keys
  }

  // The payment status of every plan row belongs to a history of the same user.
  ghost predicate PlansOwned(st: State) {
    forall u :: u in st.plans ==>
      st.plans[u].statusId in st.histories && st.histories[st.plans[u].statusId].user == u
  }

  // A delivered subscription session has left its mark: its user has a plan row, and a
  // status that still refers to the session carries what the event reported.
  ghost predicate Settled(st: State, s: SessionId)
    requires Linked(st) && s in st.sessions && st.sessions[s].metadata.ForHistory?
  {
    var h, p := st.sessions[s].metadata.history, st.sessions[s].payload;
    && st.histories[h].user in st.plans
    && (st.statuses[h].session == Some(s) ==>
          && st.statuses[h].status == Paid
          && st.statuses[h].subscription == Some(p.subscription) && st.statuses[h].customer == Some(p.customer))
  }

  ghost predicate AllSettled(st: State)
    requires Linked(st)
  {
    forall s :: s in st.delivered && st.sessions[s].metadata.ForHistory? ==> Settled(st, s)
  }

  ghost predicate Inv(st: State) {
    Linked(st) && PlansOwned(st) && AllSettled(st)
  }

  // What a step may do to histories, statuses, plans and sessions without disturbing
  // the invariant; enough for every step but the ones that sell or deliver.
  ghost predicate SameBooks(st: State, st': State) {
    st'.histories == st.histories && st'.statuses == st.statuses && st'.sessions == st.sessions
    && st'.plans == st.plans && st'.delivered == st.delivered
  }

  lemma AddHistoryKeepsInv(st: State, h: HistoryId, row: History)
    requires Inv(st) && h !in st.histories
    ensures Inv(AddHistory(st, h, row))
  {
  }

  lemma AddPlanKeepsInv(st: State, user: UserId, plan: Plan)
    requires Inv(st)
    requires plan.statusId in st.histories && st.histories[plan.statusId].user == user
    ensures Inv(AddTrial(st, user, plan)) && Inv(AddPlan(st, user, plan))
  {
    forall s | s in st.delivered && st.sessions[s].metadata.ForHistory?
      ensures Settled(AddPlan(st, user, plan), s)
      ensures Settled(AddTrial(st, user, plan), s)
    {
      assert Settled(st, s);
    }
  }

  lemma RecordCheckoutKeepsInv(st: State, h: HistoryId, o: Option<Opened>)
    requires Inv(st) && h in st.histories && FreshCheckout(st, o)
    ensures Inv(RecordCheckout(st, h, o).0)
  {
    var st' := RecordCheckout(st, h, o).0;
    assert Linked(st') && PlansOwned(st');
    forall s | s in st'.delivered && st'.sessions[s].metadata.ForHistory?
      ensures Settled(st', s)
    {
      assert Settled(st, s);
    }
  }

  // The four states a purchase can end in.
  lemma BuyOutcomes(st: State, user: UserId, pricings: seq<Pricing>, period: Period, h: HistoryId, o: Option<Opened>)
    ensures var r := BuyPlan(st, user, pricings, period, h, o).0;
            || r == st
            || (pricings != [] &&
                var t, days := pricings[0].terms, pricings[|pricings| - 1].terms.trialDays;
                var st1 := AddHistory(st, h, History(user, t, period, st.now));
                || r == st1
                || r == RecordCheckout(st1, h, o).0
                || (days > 0 && !PlanClash(st1, user, h)
                  && r == AddTrial(st1, user, TrialPlan(t, t.price, h, st.now, days))))
  {
    hide AddTrial, TrialPlan, RecordCheckout, PlanClash, Running;
  }

  lemma BuyKeepsInv(st: State, user: UserId, pricings: seq<Pricing>, period: Period, h: HistoryId, o: Option<Opened>)
    requires Inv(st) && h !in st.histories && FreshCheckout(st, o)
    ensures Inv(BuyPlan(st, user, pricings, period, h, o).0)
  {
    hide Inv, BuyPlan, RecordCheckout, AddTrial, PlanClash;
    BuyOutcomes(st, user, pricings, period, h, o);
    if pricings != [] {
      var t, days := pricings[0].terms, pricings[|pricings| - 1].terms.trialDays;
      var row := History(user, t, period, st.now);
      AddHistoryKeepsInv(st, h, row);
      RecordCheckoutKeepsInv(AddHistory(st, h, row), h, o);
      AddPlanKeepsInv(AddHistory(st, h, row), user, TrialPlan(t, t.price, h, st.now, days));
    }
  }

  lemma ReviseKeepsInv(st: State, h: HistoryId, t: Terms, period: Period)
    requires Inv(st) && h in st.histories
    ensures Inv(ReviseHistory(st, h, t, period))
  {
  }

  lemma UpgradeKeepsInv(st: State, user: UserId, pricings: seq<Pricing>, period: Period, latest: Option<HistoryId>,
                        o: Option<Opened>)
    requires Inv(st) && LatestHistory(st, user, latest) && FreshCheckout(st, o)
    ensures Inv(UpgradePlan(st, user, pricings, period, latest, o).0)
  {
    hide Inv;
    if pricings != [] && latest.Some? {
      ReviseKeepsInv(st, latest.value, pricings[0].terms, period);
      RecordCheckoutKeepsInv(ReviseHistory(st, latest.value, pricings[0].terms, period), latest.value, o);
    }
  }

  // Marking writes the payment statuses and nothing else.
  lemma MarkPaidFrame(st: State, s: SessionId)
    requires s in st.sessions
    ensures MarkPaid(st, s) == st.(statuses := MarkPaid(st, s).statuses)
  {
  }

  // The marking half of a delivery, before the event counts as received.
  lemma MarkPaidKeepsInv(st: State, s: SessionId)
    requires Inv(st) && s in st.sessions
    ensures Inv(MarkPaid(st, s))
  {
  }

  lemma CreatePaidPlanKeepsInv(st: State, h: HistoryId)
    requires Inv(st) && h in st.histories
    ensures Inv(CreatePaidPlan(st, h)) && st.histories[h].user in CreatePaidPlan(st, h).plans
  {
    AddPlanKeepsInv(st, st.histories[h].user, PaidPlan(st.histories[h], h, st.now));
  }

  lemma ReceiveKeepsInv(st: State, s: SessionId)
    requires Inv(st) && s in st.sessions
    requires st.sessions[s].metadata.ForHistory? ==> Settled(st, s)
    ensures Inv(st.(delivered := st.delivered + {s}))
  {
  }

  // The session's mark and its user's plan row are in place after one delivery.
  lemma DeliverySettles(st: State, s: SessionId)
    requires Inv(st) && s in st.sessions && st.sessions[s].metadata.ForHistory?
    ensures var st2 := CreatePaidPlan(MarkPaid(st, s), st.sessions[s].metadata.history);
            Inv(st2) && st2.sessions == st.sessions && Settled(st2, s)
  {
    hide PaidPlan;
    MarkPaidKeepsInv(st, s);
    CreatePaidPlanKeepsInv(MarkPaid(st, s), st.sessions[s].metadata.history);
  }

  lemma DeliverKeepsInv(st: State, s: SessionId)
    requires Inv(st)
    ensures Inv(Deliver(st, s))
  {
    hide Calendar.NextMonth, Calendar.NextYear;
    if s in st.sessions && st.sessions[s].metadata.ForHistory? {
      DeliverySettles(st, s);
      ReceiveKeepsInv(CreatePaidPlan(MarkPaid(st, s), st.sessions[s].metadata.history), s);
    }
  }

  lemma {:induction false} TrialsKeepInv(st: State, rows: seq<HistoryId>)
    requires Inv(st)
    requires forall h :: h in rows ==> h in st.histories
    ensures var st' := ActivateTrials(st, rows).0;
            Inv(st') && st'.histories == st.histories
    decreases |rows|
  {
    hide Calendar.AddDays, Inv;
    if rows != [] {
      var front, h := rows[..|rows| - 1], rows[|rows| - 1];
      TrialsKeepInv(st, front);
      var st1 := ActivateTrials(st, front).0;
      var row := st.histories[h];
      AddPlanKeepsInv(st1, row.user, TrialPlan(row.terms, 0.0, h, st1.now, row.terms.trialDays));
    }
  }

  // What the midnight job leaves alone, and which session ids it uses up.
  lemma {:induction false} MidnightFrame(st: State, rows: seq<Notice>)
    requires forall n :: n in rows ==> n.user in st.plans
    ensures var r := DeactivateExpired(st, rows);
            && r.histories == st.histories && r.statuses == st.statuses && r.now == st.now
            && r.delivered == st.delivered
            && forall s :: s in r.sessions ==>
                 s in st.sessions || exists n :: n in rows && n.checkout.Some? && n.checkout.value.id == s
    decreases |rows|
  {
    if rows != [] {
      MidnightFrame(st, rows[..|rows| - 1]);
    }
  }

  // What is still true of the last row once the rows before it are processed.
  lemma LastNotice(st: State, rows: seq<Notice>)
    requires ExpiredRows(st, rows) && rows != []
    ensures var front, n := rows[..|rows| - 1], rows[|rows| - 1];
            && ExpiredRows(st, front)
            && var st1 := DeactivateExpired(st, front);
               n.user in st1.plans && LatestHistory(st1, n.user, n.latest) && FreshCheckout(st1, n.checkout)
  {
    var front := rows[..|rows| - 1];
    assert forall m :: m in front ==> m in rows;
    assert ExpiredRows(st, front);
    MidnightFrame(st, front);
  }

  lemma {:induction false} MidnightKeepsInv(st: State, rows: seq<Notice>)
    requires Inv(st) && ExpiredRows(st, rows)
    ensures Inv(DeactivateExpired(st, rows))
    decreases |rows|
  {
    hide Inv, LatestHistory;
    if rows != [] {
      LastNotice(st, rows);
      MidnightKeepsInv(st, rows[..|rows| - 1]);
      DeactivateOneKeepsInv(DeactivateExpired(st, rows[..|rows| - 1]), rows[|rows| - 1]);
    }
  }

  lemma DeactivateOneKeepsInv(st: State, n: Notice)
    requires Inv(st) && n.user in st.plans && LatestHistory(st, n.user, n.latest) && FreshCheckout(st, n.checkout)
    ensures Inv(DeactivateOne(st, n))
  {
    EndPlanKeepsInv(st, n.user);
    if n.latest.Some? && n.checkout.Some? {
      OpenSessionKeepsInv(EndPlan(st, n.user), n.checkout.value, ForHistory(n.latest.value));
    }
  }

  lemma EndPlanKeepsInv(st: State, user: UserId)
    requires Inv(st) && user in st.plans
    ensures Inv(EndPlan(st, user))
  {
  }

  lemma OpenSessionKeepsInv(st: State, o: Opened, m: Metadata)
    requires Inv(st) && o.id !in st.sessions && (m.ForHistory? ==> m.history in st.histories)
    ensures Inv(OpenSession(st, o, m))
  {
  }

  lemma BooksKeepInv(st: State, st': State)
    requires Inv(st) && SameBooks(st, st')
    ensures Inv(st')
  {
  }

  lemma NextOfConfigStep(st: State, step: Step)
    requires CanHappen(st, step) && ConfigStep(step)
    ensures Next(st, step) == st.(configs := ConfigNext(st, step))
  {
    hide LatestHistory, ExpiredRows, TrialCandidate;
  }

  lemma StepKeepsInv(st: State, step: Step)
    requires Inv(st) && CanHappen(st, step)
    ensures Inv(Next(st, step))
  {
    hide Inv, BuyPlan, UpgradePlan, Deliver, ActivateTrials, DeactivateExpired, ConfigNext, LatestHistory;
    match step
    case TickStep(_) => BooksKeepInv(st, Next(st, step));
    case BuyStep(user, pricings, period, h, o) => BuyKeepsInv(st, user, pricings, period, h, o);
    case UpgradeStep(user, pricings, period, latest, o) => UpgradeKeepsInv(st, user, pricings, period, latest, o);
    case OtherCheckoutStep(o, m) => OpenSessionKeepsInv(st, o, m);
    case DeliverStep(s) => DeliverKeepsInv(st, s);
    case TrialsStep(rows) => TrialsKeepInv(st, rows);
    case MidnightStep(rows) => MidnightKeepsInv(st, rows);
    case _ =>
      NextOfConfigStep(st, step);
      BooksKeepInv(st, Next(st, step));
  }

  lemma {:induction false} RunKeepsInv(st: State, steps: seq<Step>, st': State)
    requires Inv(st) && Run(st, steps, st')
    ensures Inv(st')
    decreases |steps|
  {
    hide Inv;
    if steps != [] {
      StepKeepsInv(st, steps[0]);
      RunKeepsInv(Next(st, steps[0]), steps[1..], st');
    }
  }

  lemma {:induction false} RunAppend(st: State, steps: seq<Step>, mid: State, step: Step)
    requires Run(st, steps, mid) && CanHappen(mid, step)
    ensures Run(st, steps + [step], Next(mid, step))
    decreases |steps|
  {
    hide CanHappen, Next;
    if steps == [] {
      assert [] + [step] == [step] && [step][1..] == [];
      assert Run(Next(mid, step), [], Next(mid, step));
    } else {
      RunAppend(Next(st, steps[0]), steps[1..], mid, step);
      assert (steps + [step])[1..] == steps[1..] + [step];
    }
  }

  lemma ReachableInv(st0: State, steps: seq<Step>, st: State)
    requires Initial(st0) && Run(st0, steps, st)
    ensures Inv(st)
  {
    hide Run;
    RunKeepsInv(st0, steps, st);
  }

  // Marking a session paid that was delivered before finds everything as it leaves it.
  lemma MarkedBefore(st: State, s: SessionId)
    requires Inv(st) && s in st.delivered && st.sessions[s].metadata.ForHistory?
    ensures MarkPaid(st, s) == st && CreatePaidPlan(st, st.sessions[s].metadata.history) == st
  {
    hide PaidPlan;
    assert Settled(st, s);
    assert MarkPaid(st, s).statuses == st.statuses;
  }

  /** A Stripe completion event counts once: in any state that a run reaches, delivering
      an event that was delivered before changes nothing at all, whatever happened in
      between. Only payments of invoices are outside this; see RedeliveredInvoice. */
  lemma RedeliveryIsNoOp(st0: State, steps: seq<Step>, st: State, s: SessionId)
    requires Initial(st0) && Run(st0, steps, st)
    requires s in st.delivered && (s in st.sessions ==> !st.sessions[s].metadata.ForInvoice?)
    ensures Deliver(st, s) == st
  {
    hide Run, Initial, MarkPaid, CreatePaidPlan, AllSettled, PlansOwned;
    ReachableInv(st0, steps, st);
    if st.sessions[s].metadata.ForHistory? {
      MarkedBefore(st, s);
    }
  }

  /** Paying an invoice is not like that: redelivery moves paidAt to the time of the last
      delivery. It is a no-op exactly when no time has passed, and touches nothing else. */
  lemma RedeliveredInvoice(st: State, s: SessionId, i: InvoiceId, later: int)
    requires s in st.sessions && st.sessions[s].metadata == ForInvoice(i) && i in st.invoices
    ensures var once := Deliver(st, s).(now := later);
            var twice := Deliver(once, s);
            && (twice == once <==> later == st.now)
            && twice == once.(invoices := once.invoices[i := once.invoices[i].(paidAt := Some(later))])
  {
  }
}
