/** The IMAP configuration rows over whole runs: every writer, what it keeps between
    connect, sync and connectionStatus, when the date to read from may go back, and why
    a user whose plan ended at midnight stays disconnected. */
module ImapRuns {
  import opened Wrappers
  import opened Billing
  import BR = BillingRuns
  import PlanRuns
  import Calendar

  // ---------- What one step can do to one row ----------

  // Everything any handler ever makes of an existing row at a given time.
  ghost predicate RowStep(now: int, a: Imap, b: Imap, step: Step, user: UserId) {
    || b == a
    || b == SwitchedOn(a)
    || b == SwitchedOff(a)
    || b == a.(connect := false, sync := false)
    || b == a.(lastSync := Some(now))
    || (step.SetImapStep? && step.user == user &&
        b == a.(connect := step.reachable, status := if step.reachable then Connected else ConnectionFailed,
                sync := step.reachable && step.form.automaticSync.GetOr(false), interval := step.form.interval))
    || (step.IntervalStep? && step.user == user && b == a.(interval := Some(step.interval), sync := true))
    || (step == ResetSyncStep(user) && b == a.(lastSync := None))
  }

  lemma {:induction false} EnableRows(c: Configs, users: seq<UserId>)
    ensures var r := EnableFeatures(c, users);
            && r.Keys == c.Keys
            && forall u :: u in c ==> r[u] == if u in users then SwitchedOn(c[u]) else c[u]
    decreases |users|
  {
    if users != [] {
      var front, last := users[..|users| - 1], users[|users| - 1];
      EnableRows(c, front);
      assert forall u :: u in users <==> u in front || u == last;
    }
  }

  lemma {:induction false} TrialRows(st: State, rows: seq<HistoryId>)
    ensures var r := ActivateTrials(st, rows).0.configs;
            && r.Keys == st.configs.Keys
            && forall u :: u in st.configs ==> r[u] == st.configs[u] || r[u] == SwitchedOn(st.configs[u])
    decreases |rows|
  {
    hide TrialPlan, PlanClash;
    if rows != [] {
      TrialRows(st, rows[..|rows| - 1]);
    }
  }

  lemma DeactivateOneRows(st: State, n: Notice)
    requires n.user in st.plans
    ensures DeactivateOne(st, n).configs == SetOff(st.configs, n.user)
  {
  }

  lemma {:induction false} MidnightRows(st: State, rows: seq<Notice>)
    requires forall n :: n in rows ==> n.user in st.plans
    ensures var r := DeactivateExpired(st, rows).configs;
            && r.Keys == st.configs.Keys
            && (forall u :: u in st.configs ==> r[u] == st.configs[u] || r[u] == SwitchedOff(st.configs[u]))
            && (forall n :: n in rows && n.user in r ==> r[n.user] == SwitchedOff(st.configs[n.user]))
    decreases |rows|
  {
    hide DeactivateOne;
    if rows != [] {
      var front, last := rows[..|rows| - 1], rows[|rows| - 1];
      MidnightRows(st, front);
      DeactivateOneRows(DeactivateExpired(st, front), last);
      assert forall n :: n in rows <==> n in front || n == last;
    }
  }

  lemma BuyRows(st: State, user: UserId, pricings: seq<Pricing>, period: Period, h: HistoryId, o: Option<Opened>)
    ensures var r := BuyPlan(st, user, pricings, period, h, o);
            && r.0.configs == (if r.1 == TrialStarted then SetOn(st.configs, user) else st.configs)
            && r.0.now == st.now
  {
  }

  lemma DeliverRows(st: State, s: SessionId)
    ensures Deliver(st, s).configs == st.configs && Deliver(st, s).now == st.now
  {
    hide PaidPlan, PlanClash, MarkPaid;
    if s in st.sessions { BR.MarkPaidFrame(st, s); }
  }

  lemma ConfigStepChangesRow(st: State, step: Step, user: UserId)
    requires CanHappen(st, step) && ConfigStep(step) && user in st.configs
    ensures user in ConfigNext(st, step)
    ensures RowStep(st.now, st.configs[user], ConfigNext(st, step)[user], step, user)
  {
    hide EnableFeatures, MaySetInterval, MaySyncNow, MayRead, AtLimit, ActivePlan, Running, LatestHistory;
    if step.EnableStep? {
      EnableRows(st.configs, step.users);
    }
  }

  lemma UpgradeRows(st: State, user: UserId, pricings: seq<Pricing>, period: Period, latest: Option<HistoryId>,
                    o: Option<Opened>)
    requires LatestHistory(st, user, latest)
    ensures var r := UpgradePlan(st, user, pricings, period, latest, o).0;
            r.configs == st.configs && r.now == st.now
  {
  }

  // The other steps neither add nor remove rows, and can only switch them on or off.
  lemma OtherStepRows(st: State, step: Step)
    requires CanHappen(st, step) && !ConfigStep(step)
    ensures var c := Next(st, step).configs;
            && c.Keys == st.configs.Keys
            && forall u :: u in c ==>
              c[u] == st.configs[u] || c[u] == SwitchedOn(st.configs[u]) || c[u] == SwitchedOff(st.configs[u])
  {
    hide BuyPlan, UpgradePlan, Deliver, ActivateTrials, DeactivateExpired, SwitchedOn, SwitchedOff, LatestHistory;
    match step
    case TickStep(_) =>
    case BuyStep(u, pricings, period, h, o) => BuyRows(st, u, pricings, period, h, o);
    case UpgradeStep(u, pricings, period, latest, o) => UpgradeRows(st, u, pricings, period, latest, o);
    case OtherCheckoutStep(_, _) =>
    case DeliverStep(s) => DeliverRows(st, s);
    case TrialsStep(rows) => TrialRows(st, rows);
    case MidnightStep(rows) => MidnightRows(st, rows);
  }

  /** The only changes any step makes to a configuration row that exists. */
  lemma StepChangesRow(st: State, step: Step, user: UserId)
    requires CanHappen(st, step) && user in st.configs
    ensures user in Next(st, step).configs
    ensures RowStep(st.now, st.configs[user], Next(st, step).configs[user], step, user)
  {
    hide CanHappen, Next, ConfigNext;
    if ConfigStep(step) {
      BR.NextOfConfigStep(st, step);
      ConfigStepChangesRow(st, step, user);
    } else {
      OtherStepRows(st, step);
    }
  }

  // The row setImapConfiguration creates is the only one that can appear.
  lemma StepAddsRow(st: State, step: Step, user: UserId)
    requires CanHappen(st, step) && user !in st.configs && user in Next(st, step).configs
    ensures step.SetImapStep? && step.user == user
    ensures RowStep(st.now, Imap(false, false, Connected, None, None, st.now), Next(st, step).configs[user], step, user)
  {
    hide CanHappen, Next, ConfigNext, RowStep;
    if ConfigStep(step) {
      BR.NextOfConfigStep(st, step);
      ConfigStepAddsRow(st, step, user);
    } else {
      OtherStepRows(st, step);
    }
  }

  lemma ConfigStepAddsRow(st: State, step: Step, user: UserId)
    requires CanHappen(st, step) && ConfigStep(step) && user !in st.configs && user in ConfigNext(st, step)
    ensures step.SetImapStep? && step.user == user
    ensures RowStep(st.now, Imap(false, false, Connected, None, None, st.now), ConfigNext(st, step)[user], step, user)
  {
    hide EnableFeatures, MayRead, AtLimit, ActivePlan, Running, LatestHistory;
    if step.EnableStep? {
      EnableRows(st.configs, step.users);
    }
  }

  // ---------- Invariants of a row ----------

  ghost predicate Healthy(row: Imap, now: int) {
    && (row.connect ==> row.status == Connected)
    && row.createdAt <= now
    && (row.lastSync.Some? ==> row.createdAt <= row.lastSync.value <= now)
  }

  ghost predicate AllHealthy(st: State) {
    forall u :: u in st.configs ==> Healthy(st.configs[u], st.now)
  }

  lemma NowNeverGoesBack(st: State, step: Step)
    requires CanHappen(st, step)
    ensures st.now <= Next(st, step).now
    ensures !step.TickStep? ==> Next(st, step).now == st.now
  {
    hide BuyPlan, UpgradePlan, Deliver, ActivateTrials, DeactivateExpired, ConfigNext, LatestHistory;
    match step
    case BuyStep(u, pricings, period, h, o) => BuyRows(st, u, pricings, period, h, o);
    case UpgradeStep(u, pricings, period, latest, o) => UpgradeRows(st, u, pricings, period, latest, o);
    case DeliverStep(s) => DeliverRows(st, s);
    case TrialsStep(rows) => TrialsKeepNow(st, rows);
    case MidnightStep(rows) => BR.MidnightFrame(st, rows);
    case _ =>
  }

  lemma {:induction false} TrialsKeepNow(st: State, rows: seq<HistoryId>)
    ensures ActivateTrials(st, rows).0.now == st.now
    decreases |rows|
  {
    hide TrialPlan, PlanClash;
    if rows != [] {
      TrialsKeepNow(st, rows[..|rows| - 1]);
    }
  }

  lemma StepKeepsHealthy(st: State, step: Step)
    requires AllHealthy(st) && CanHappen(st, step)
    ensures AllHealthy(Next(st, step))
  {
    hide Next, CanHappen;
    NowNeverGoesBack(st, step);
    forall u | u in Next(st, step).configs
      ensures Healthy(Next(st, step).configs[u], Next(st, step).now)
    {
      if u in st.configs {
        StepChangesRow(st, step, u);
      } else {
        StepAddsRow(st, step, u);
      }
    }
  }

  /** In every reachable state a row that says connect also says CONNECTED, and its sync
      dates lie between its creation and now. */
  lemma {:induction false} RunKeepsHealthy(st: State, steps: seq<Step>, st': State)
    requires AllHealthy(st) && Run(st, steps, st')
    ensures AllHealthy(st')
    decreases |steps|
  {
    hide AllHealthy, CanHappen, Next;
    if steps != [] {
      StepKeepsHealthy(st, steps[0]);
      RunKeepsHealthy(Next(st, steps[0]), steps[1..], st');
    }
  }

  ghost predicate SyncImpliesConnect(st: State) {
    forall u :: u in st.configs && st.configs[u].sync ==> st.configs[u].connect
  }

  /** sync implies connect, for every writer but one. */
  lemma StepKeepsSyncImpliesConnect(st: State, step: Step)
    requires SyncImpliesConnect(st) && CanHappen(st, step) && !step.IntervalStep?
    ensures SyncImpliesConnect(Next(st, step))
  {
    hide Next, CanHappen;
    forall u | u in Next(st, step).configs && Next(st, step).configs[u].sync
      ensures Next(st, step).configs[u].connect
    {
      if u in st.configs {
        StepChangesRow(st, step, u);
      } else {
        StepAddsRow(st, step, u);
      }
    }
  }

  /** setSyncInterval does not look at connect: it keeps the implication exactly when it
      is refused or the row was connected. */
  lemma IntervalKeepsSyncImpliesConnectIff(st: State, user: UserId, interval: IntervalId)
    requires SyncImpliesConnect(st)
    ensures SyncImpliesConnect(Next(st, IntervalStep(user, interval))) <==>
            (MaySetInterval(st, user, interval) ==> st.configs[user].connect)
  {
    var st' := Next(st, IntervalStep(user, interval));
    if MaySetInterval(st, user, interval) {
      assert st'.configs[user].sync && st'.configs[user].connect == st.configs[user].connect;
    }
  }

  // Buying and paying a plan, connecting a mailbox and disconnecting it again.
  lemma ReachDisconnected(st0: State, user: UserId, p: Pricing, period: Period, h: HistoryId, o: Opened)
    returns (steps: seq<Step>, st: State)
    requires Initial(st0) && p.stripePriceId != "" && p.terms.trialDays <= 0
    ensures Run(st0, steps, st) && PaidFor(st, user, h, p.terms.intervals)
    ensures user in st.configs && !st.configs[user].connect
  {
    hide CanHappen, Next, Initial, PaidFor;
    var form := ConnectionForm(None, false, None, None);
    assert Run(st0, [], st0);
    hide Run;
    var st1 := PlanRuns.AfterBuying(st0, user, p, period, h, o);
    var steps1 := [] + [BuyStep(user, [p], period, h, Some(o))];
    BR.RunAppend(st0, [], st0, BuyStep(user, [p], period, h, Some(o)));
    var st2 := AfterPaying(st1, user, h, o);
    BR.RunAppend(st0, steps1, st1, DeliverStep(o.id));
    var st3 := AfterConnecting(st2, user, h, p.terms.intervals, form);
    BR.RunAppend(st0, steps1 + [DeliverStep(o.id)], st2, SetImapStep(user, form, true));
    st := AfterDisconnecting(st3, user, h, p.terms.intervals);
    steps := steps1 + [DeliverStep(o.id)] + [SetImapStep(user, form, true)] + [DisconnectStep(user)];
    BR.RunAppend(st0, steps1 + [DeliverStep(o.id)] + [SetImapStep(user, form, true)], st3, DisconnectStep(user));
  }

  /** And it does succeed on rows that are not: in a reachable state it leaves sync on
      without connect. */
  lemma IntervalOnDisconnected(st0: State, user: UserId, p: Pricing, period: Period, h: HistoryId, o: Opened,
                               interval: IntervalId)
    requires Initial(st0) && p.stripePriceId != "" && p.terms.trialDays <= 0 && interval in p.terms.intervals
    ensures exists steps, st ::
      && Run(st0, steps + [IntervalStep(user, interval)], st)
      && user in st.configs && st.configs[user].sync && !st.configs[user].connect
  {
    hide CanHappen, Next, Initial, PaidFor, Run;
    var steps, st := ReachDisconnected(st0, user, p, period, h, o);
    ThenInterval(st, user, h, p.terms.intervals, interval);
    BR.RunAppend(st0, steps, st, IntervalStep(user, interval));
  }

  ghost predicate PaidFor(st: State, user: UserId, h: HistoryId, intervals: seq<IntervalId>) {
    && user in st.plans && st.plans[user].statusId == h && st.plans[user].isActive
    && st.plans[user].intervals == intervals
    && st.plans[user].expiredAt > st.now && h in st.statuses && st.statuses[h].status == Paid
  }

  lemma ExpiryIsLater(now: int, period: Period)
    ensures Expiry(now, period) > now
  {
    hide Calendar.NextMonth, Calendar.NextYear;
    Calendar.NextMonthAdvance(now);
    Calendar.NextYearAdvance(now);
  }

  lemma AfterPaying(st: State, user: UserId, h: HistoryId, o: Opened) returns (st': State)
    requires h in st.statuses && h in st.histories && st.histories[h].user == user && st.plans == map[]
    requires st.statuses[h].session == Some(o.id) && o.id in st.sessions && st.sessions[o.id].metadata == ForHistory(h)
    ensures CanHappen(st, DeliverStep(o.id)) && st' == Next(st, DeliverStep(o.id))
    ensures PaidFor(st', user, h, st.histories[h].terms.intervals)
  {
    hide Expiry;
    ExpiryIsLater(st.now, st.histories[h].period);
    st' := Next(st, DeliverStep(o.id));
  }

  lemma AfterConnecting(st: State, user: UserId, h: HistoryId, intervals: seq<IntervalId>, form: ConnectionForm)
    returns (st': State)
    requires PaidFor(st, user, h, intervals) && form.interval.None?
    ensures CanHappen(st, SetImapStep(user, form, true)) && st' == Next(st, SetImapStep(user, form, true))
    ensures PaidFor(st', user, h, intervals) && user in st'.configs
  {
    st' := Next(st, SetImapStep(user, form, true));
  }

  lemma AfterDisconnecting(st: State, user: UserId, h: HistoryId, intervals: seq<IntervalId>) returns (st': State)
    requires PaidFor(st, user, h, intervals) && user in st.configs
    ensures CanHappen(st, DisconnectStep(user)) && st' == Next(st, DisconnectStep(user))
    ensures PaidFor(st', user, h, intervals) && user in st'.configs && !st'.configs[user].connect
  {
    st' := Next(st, DisconnectStep(user));
  }

  lemma ThenInterval(st: State, user: UserId, h: HistoryId, intervals: seq<IntervalId>, interval: IntervalId)
    requires PaidFor(st, user, h, intervals) && interval in intervals && user in st.configs && !st.configs[user].connect
    ensures CanHappen(st, IntervalStep(user, interval))
    ensures var c := Next(st, IntervalStep(user, interval)).configs; user in c && c[user].sync && !c[user].connect
  {
  }

  // ---------- The date to read mail from ----------

  ghost predicate SinceKept(st: State, st': State) {
    forall u :: u in st.configs ==>
      u in st'.configs && EffectiveSince(st.configs[u]) <= EffectiveSince(st'.configs[u])
  }

  /** Without resets the date a sync reads from never moves back. */
  lemma {:induction false} SinceNeverGoesBack(st: State, steps: seq<Step>, st': State)
    requires AllHealthy(st) && Run(st, steps, st')
    requires forall i :: 0 <= i < |steps| ==> !steps[i].ResetSyncStep?
    ensures SinceKept(st, st')
    decreases |steps|
  {
    hide CanHappen, Next;
    if steps != [] {
      forall u | u in st.configs
        ensures u in Next(st, steps[0]).configs
        ensures EffectiveSince(st.configs[u]) <= EffectiveSince(Next(st, steps[0]).configs[u])
      {
        StepChangesRow(st, steps[0], u);
      }
      StepKeepsHealthy(st, steps[0]);
      SinceNeverGoesBack(Next(st, steps[0]), steps[1..], st');
    }
  }

  /** A reset moves it back exactly when something was synchronised after the row's
      creation. */
  lemma ResetKeepsSinceIff(st: State, user: UserId)
    requires AllHealthy(st) && user in st.configs
    ensures SinceKept(st, Next(st, ResetSyncStep(user))) <==>
            (st.configs[user].lastSync.Some? ==> st.configs[user].lastSync.value <= st.configs[user].createdAt)
  {
  }

  // ---------- After the midnight job ----------

  ghost predicate Off(st: State, user: UserId) {
    && user in st.plans && !st.plans[user].isActive
    && (user in st.configs ==> !st.configs[user].sync && !st.configs[user].connect)
  }

  lemma {:induction false} MidnightSwitchesOff(st: State, rows: seq<Notice>, n: Notice)
    requires (forall m :: m in rows ==> m.user in st.plans) && n in rows
    ensures Off(DeactivateExpired(st, rows), n.user)
    decreases |rows|
  {
    MidnightRows(st, rows);
    MidnightEnds(st, rows, n);
  }

  lemma DeactivateOneEnds(st: State, n: Notice)
    requires n.user in st.plans
    ensures var p := DeactivateOne(st, n).plans;
            !p[n.user].isActive && forall u :: u in st.plans && !st.plans[u].isActive ==> !p[u].isActive
  {
  }

  lemma {:induction false} MidnightEnds(st: State, rows: seq<Notice>, n: Notice)
    requires (forall m :: m in rows ==> m.user in st.plans) && n in rows
    ensures !DeactivateExpired(st, rows).plans[n.user].isActive
    decreases |rows|
  {
    hide DeactivateOne;
    var front, last := rows[..|rows| - 1], rows[|rows| - 1];
    if n in front {
      MidnightEnds(st, front, n);
    }
    assert DeactivateExpired(st, rows) == DeactivateOne(DeactivateExpired(st, front), last);
    DeactivateOneEnds(DeactivateExpired(st, front), last);
  }

  lemma ConfigStepKeepsOff(st: State, step: Step, user: UserId)
    requires Off(st, user) && ConfigStep(step) && CanHappen(st, step) && step != AdminConnectStep(user)
    ensures var c := ConfigNext(st, step);
            user in c ==> !c[user].sync && !c[user].connect
  {
    hide EnableFeatures, Running;
    if step.EnableStep? {
      EnableRows(st.configs, step.users);
    }
  }

  // No handler switches a row on for a user with an inactive plan row, except the
  // administrator's.
  lemma StepKeepsRowOff(st: State, step: Step, user: UserId)
    requires Off(st, user) && CanHappen(st, step) && step != AdminConnectStep(user)
    ensures var c := Next(st, step).configs;
            user in c ==> !c[user].sync && !c[user].connect
  {
    hide CanHappen, Next, ConfigNext;
    if ConfigStep(step) {
      BR.NextOfConfigStep(st, step);
      ConfigStepKeepsOff(st, step, user);
    } else {
      OtherStepRows(st, step);
      if user in st.configs { OtherStepKeepsOff(st, step, user); }
    }
  }

  lemma OtherStepKeepsOff(st: State, step: Step, user: UserId)
    requires CanHappen(st, step) && !ConfigStep(step) && user in st.plans && user in st.configs
    ensures var c := Next(st, step).configs;
            user in c && (c[user] == st.configs[user] || c[user] == SwitchedOff(st.configs[user]))
  {
    hide BuyPlan, UpgradePlan, Deliver, ActivateTrials, DeactivateExpired, SwitchedOn, SwitchedOff, LatestHistory;
    match step
    case TickStep(_) =>
    case BuyStep(u, pricings, period, h, o) =>
      BuyRows(st, u, pricings, period, h, o);
      if u == user { BuyClashes(st, u, pricings, period, h, o); }
    case UpgradeStep(u, pricings, period, latest, o) => UpgradeRows(st, u, pricings, period, latest, o);
    case OtherCheckoutStep(_, _) =>
    case DeliverStep(s) => DeliverRows(st, s);
    case TrialsStep(rows) => TrialsSkip(st, rows, user);
    case MidnightStep(rows) => MidnightRows(st, rows);
  }

  lemma StepKeepsOff(st: State, step: Step, user: UserId)
    requires Off(st, user) && CanHappen(st, step) && step != AdminConnectStep(user)
    ensures Off(Next(st, step), user)
  {
    hide Next, CanHappen;
    PlanRuns.StepKeepsPlans(st, step);
    StepKeepsRowOff(st, step, user);
  }

  lemma BuyClashes(st: State, user: UserId, pricings: seq<Pricing>, period: Period, h: HistoryId, o: Option<Opened>)
    requires user in st.plans
    ensures BuyPlan(st, user, pricings, period, h, o).1 != TrialStarted
  {
  }

  lemma {:induction false} TrialsSkip(st: State, rows: seq<HistoryId>, user: UserId)
    requires user in st.plans
    ensures var r := ActivateTrials(st, rows).0;
            user in r.plans && (user in r.configs <==> user in st.configs)
            && (user in r.configs ==> r.configs[user] == st.configs[user])
    decreases |rows|
  {
    hide TrialPlan;
    if rows != [] {
      TrialsSkip(st, rows[..|rows| - 1], user);
    }
  }

  ghost predicate NoAdminConnect(steps: seq<Step>, user: UserId) {
    forall i :: 0 <= i < |steps| ==> steps[i] != AdminConnectStep(user)
  }

  lemma {:induction false} RunKeepsOff(st: State, steps: seq<Step>, st': State, user: UserId)
    requires Off(st, user) && Run(st, steps, st') && NoAdminConnect(steps, user)
    ensures Off(st', user)
    decreases |steps|
  {
    hide Off, CanHappen, Next;
    if steps != [] {
      StepKeepsOff(st, steps[0], user);
      RunKeepsOff(Next(st, steps[0]), steps[1..], st', user);
    }
  }

  /** After the midnight job ends a user's plan, their mail connection stays off through
      every continuation in which no administrator reconnects them. */
  lemma DeactivatedStaysOff(st: State, rows: seq<Notice>, n: Notice, steps: seq<Step>, st': State)
    requires CanHappen(st, MidnightStep(rows)) && n in rows
    requires Run(Next(st, MidnightStep(rows)), steps, st') && NoAdminConnect(steps, n.user)
    ensures n.user in st'.configs ==> !st'.configs[n.user].sync && !st'.configs[n.user].connect
  {
    MidnightSwitchesOff(st, rows, n);
    RunKeepsOff(Next(st, MidnightStep(rows)), steps, st', n.user);
  }
}
