/** The payment link that the midnight job mails out: what paying it achieves. */
module Reminders {
  import opened Wrappers
  import opened Billing
  import BR = BillingRuns

  // A session of a history whose user has a plan row already, and to which no payment
  // status refers.
  ghost predicate Orphan(st: State, s: SessionId, h: HistoryId) {
    && s in st.sessions && st.sessions[s].metadata == ForHistory(h)
    && h in st.histories && st.histories[h].user in st.plans
    && forall k :: k in st.statuses ==> st.statuses[k].session != Some(s)
  }

  lemma AddHistoryKeepsOrphan(st: State, h': HistoryId, row: History, s: SessionId, h: HistoryId)
    requires Orphan(st, s, h) && h' !in st.histories
    ensures Orphan(AddHistory(st, h', row), s, h)
  {
  }

  lemma RecordCheckoutKeepsOrphan(st: State, h': HistoryId, o: Option<Opened>, s: SessionId, h: HistoryId)
    requires Orphan(st, s, h) && h' in st.statuses && FreshCheckout(st, o)
    ensures Orphan(RecordCheckout(st, h', o).0, s, h)
  {
  }

  lemma AddTrialKeepsOrphan(st: State, user: UserId, plan: Plan, s: SessionId, h: HistoryId)
    requires Orphan(st, s, h)
    ensures Orphan(AddTrial(st, user, plan), s, h)
  {
  }

  lemma BuyKeepsOrphan(st: State, user: UserId, pricings: seq<Pricing>, period: Period, h': HistoryId,
                       o: Option<Opened>, s: SessionId, h: HistoryId)
    requires Orphan(st, s, h) && h' !in st.histories && FreshCheckout(st, o)
    ensures Orphan(BuyPlan(st, user, pricings, period, h', o).0, s, h)
  {
    hide Orphan, BuyPlan, RecordCheckout, AddTrial, PlanClash;
    BR.BuyOutcomes(st, user, pricings, period, h', o);
    if pricings != [] {
      var t, days := pricings[0].terms, pricings[|pricings| - 1].terms.trialDays;
      var st1 := AddHistory(st, h', History(user, t, period, st.now));
      AddHistoryKeepsOrphan(st, h', History(user, t, period, st.now), s, h);
      RecordCheckoutKeepsOrphan(st1, h', o, s, h);
      AddTrialKeepsOrphan(st1, user, TrialPlan(t, t.price, h', st.now, days), s, h);
    }
  }

  lemma UpgradeKeepsOrphan(st: State, user: UserId, pricings: seq<Pricing>, period: Period, latest: Option<HistoryId>,
                           o: Option<Opened>, s: SessionId, h: HistoryId)
    requires Orphan(st, s, h) && LatestHistory(st, user, latest) && FreshCheckout(st, o)
    ensures Orphan(UpgradePlan(st, user, pricings, period, latest, o).0, s, h)
  {
    hide RecordCheckout;
    if pricings != [] && latest.Some? {
      var st1 := ReviseHistory(st, latest.value, pricings[0].terms, period);
      assert Orphan(st1, s, h);
      RecordCheckoutKeepsOrphan(st1, latest.value, o, s, h);
    }
  }

  // Delivering the session of an orphan changes nothing but that it was delivered.
  lemma DeliverOrphan(st: State, s: SessionId, h: HistoryId)
    requires Orphan(st, s, h)
    ensures Deliver(st, s) == st.(delivered := st.delivered + {s})
  {
    hide PaidPlan;
    assert MarkPaid(st, s).statuses == st.statuses;
    assert PlanClash(st, st.histories[h].user, h);
  }

  lemma DeliverKeepsOrphan(st: State, other: SessionId, s: SessionId, h: HistoryId)
    requires Orphan(st, s, h)
    ensures Orphan(Deliver(st, other), s, h)
  {
    hide PaidPlan;
  }

  lemma {:induction false} TrialsKeepOrphan(st: State, rows: seq<HistoryId>, s: SessionId, h: HistoryId)
    requires Orphan(st, s, h)
    ensures Orphan(ActivateTrials(st, rows).0, s, h)
    decreases |rows|
  {
    hide TrialPlan, PlanClash, Orphan, AddTrial;
    if rows != [] {
      var st1, k := ActivateTrials(st, rows[..|rows| - 1]).0, rows[|rows| - 1];
      TrialsKeepOrphan(st, rows[..|rows| - 1], s, h);
      if k in st1.histories {
        var row := st1.histories[k];
        AddTrialKeepsOrphan(st1, row.user, TrialPlan(row.terms, 0.0, k, st1.now, row.terms.trialDays), s, h);
      }
    }
  }

  lemma DeactivateOneKeepsOrphan(st: State, n: Notice, s: SessionId, h: HistoryId)
    requires Orphan(st, s, h) && n.user in st.plans && FreshCheckout(st, n.checkout)
    ensures Orphan(DeactivateOne(st, n), s, h)
  {
  }

  lemma {:induction false} MidnightKeepsOrphan(st: State, rows: seq<Notice>, s: SessionId, h: HistoryId)
    requires Orphan(st, s, h) && ExpiredRows(st, rows)
    ensures Orphan(DeactivateExpired(st, rows), s, h)
    decreases |rows|
  {
    hide Orphan, LatestHistory, DeactivateOne;
    if rows != [] {
      BR.LastNotice(st, rows);
      MidnightKeepsOrphan(st, rows[..|rows| - 1], s, h);
      DeactivateOneKeepsOrphan(DeactivateExpired(st, rows[..|rows| - 1]), rows[|rows| - 1], s, h);
    }
  }

  lemma SameBooksKeepOrphan(st: State, st': State, s: SessionId, h: HistoryId)
    requires Orphan(st, s, h) && BR.SameBooks(st, st')
    ensures Orphan(st', s, h)
  {
  }

  lemma StepKeepsOrphan(st: State, step: Step, s: SessionId, h: HistoryId)
    requires BR.Inv(st) && Orphan(st, s, h) && CanHappen(st, step)
    ensures Orphan(Next(st, step), s, h)
  {
    hide BR.Inv, Orphan, BuyPlan, UpgradePlan, Deliver, ActivateTrials, DeactivateExpired, ConfigNext, LatestHistory;
    match step
    case TickStep(_) => SameBooksKeepOrphan(st, Next(st, step), s, h);
    case BuyStep(user, pricings, period, k, o) => BuyKeepsOrphan(st, user, pricings, period, k, o, s, h);
    case UpgradeStep(user, pricings, period, latest, o) =>
      UpgradeKeepsOrphan(st, user, pricings, period, latest, o, s, h);
    case OtherCheckoutStep(o, m) => OtherCheckoutKeepsOrphan(st, o, m, s, h);
    case DeliverStep(other) => DeliverKeepsOrphan(st, other, s, h);
    case TrialsStep(rows) => TrialsKeepOrphan(st, rows, s, h);
    case MidnightStep(rows) => MidnightKeepsOrphan(st, rows, s, h);
    case _ =>
      BR.NextOfConfigStep(st, step);
      SameBooksKeepOrphan(st, Next(st, step), s, h);
  }

  lemma OtherCheckoutKeepsOrphan(st: State, o: Opened, m: Metadata, s: SessionId, h: HistoryId)
    requires Orphan(st, s, h) && o.id !in st.sessions
    ensures Orphan(OpenSession(st, o, m), s, h)
  {
  }

  lemma {:induction false} RunKeepsOrphan(st: State, steps: seq<Step>, st': State, s: SessionId, h: HistoryId)
    requires BR.Inv(st) && Orphan(st, s, h) && Run(st, steps, st')
    ensures Orphan(st', s, h)
    decreases |steps|
  {
    hide BR.Inv, Orphan, CanHappen, Next;
    if steps != [] {
      StepKeepsOrphan(st, steps[0], s, h);
      BR.StepKeepsInv(st, steps[0]);
      RunKeepsOrphan(Next(st, steps[0]), steps[1..], st', s, h);
    }
  }

  // ---------- The midnight job's link ----------

  // A notice's session is an orphan as soon as the job has opened it.
  lemma NoticeIsOrphan(st: State, n: Notice)
    requires BR.Inv(st) && n.user in st.plans && LatestHistory(st, n.user, n.latest)
    requires n.latest.Some? && n.checkout.Some? && FreshCheckout(st, n.checkout)
    ensures Orphan(DeactivateOne(st, n), n.checkout.value.id, n.latest.value)
  {
  }

  lemma {:induction false} MidnightOpensOrphans(st: State, rows: seq<Notice>, n: Notice)
    requires BR.Inv(st) && ExpiredRows(st, rows) && n in rows && n.latest.Some? && n.checkout.Some?
    ensures Orphan(DeactivateExpired(st, rows), n.checkout.value.id, n.latest.value)
    decreases |rows|
  {
    hide BR.Inv, Orphan, LatestHistory, DeactivateOne;
    var front, last := rows[..|rows| - 1], rows[|rows| - 1];
    BR.LastNotice(st, rows);
    BR.MidnightKeepsInv(st, front);
    if n in front {
      MidnightOpensOrphans(st, front, n);
      DeactivateOneKeepsOrphan(DeactivateExpired(st, front), last, n.checkout.value.id, n.latest.value);
    } else {
      assert n == last;
      NoticeIsOrphan(DeactivateExpired(st, front), n);
    }
  }

  /** Whoever pays the link that the midnight job sent gets nothing for it: at whatever
      later time Stripe reports the payment, no payment status becomes paid and no plan
      row is created or changed. */
  lemma PaidReminderIsLost(st0: State, before: seq<Step>, st: State, rows: seq<Notice>, n: Notice, after: seq<Step>,
                           st': State)
    requires Initial(st0) && Run(st0, before, st) && CanHappen(st, MidnightStep(rows))
    requires n in rows && n.latest.Some? && n.checkout.Some?
    requires Run(Next(st, MidnightStep(rows)), after, st')
    ensures var s := n.checkout.value.id;
            s in st'.sessions && Deliver(st', s) == st'.(delivered := st'.delivered + {s})
  {
    hide Run, Initial, BR.Inv, Deliver, LatestHistory;
    BR.ReachableInv(st0, before, st);
    MidnightOpensOrphans(st, rows, n);
    BR.StepKeepsInv(st, MidnightStep(rows));
    RunKeepsOrphan(Next(st, MidnightStep(rows)), after, st', n.checkout.value.id, n.latest.value);
    DeliverOrphan(st', n.checkout.value.id, n.latest.value);
  }
}
