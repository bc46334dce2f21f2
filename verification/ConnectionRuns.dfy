/** How long a mailbox stays disconnected when its user disconnects it, and connected when
    an administrator connects it, over whole runs. */
module ConnectionRuns {
  import opened Wrappers
  import opened Billing
  import opened ImapRuns
  import BR = BillingRuns
  import PlanRuns
  import Calendar

  // ---------- How long a disconnection lasts ----------

  // The steps that connect a disconnected row: the hourly job, the administrator, a
  // successful configuration, a trial that starts.
  ghost predicate Reconnects(st: State, step: Step, user: UserId) {
    match step
    case EnableStep(users) => user in users
    case AdminConnectStep(u) => u == user
    case SetImapStep(u, form, reachable) =>
      u == user && reachable && ActivePlan(st, u) && Running(st, u) && (form.interval.Some? ==> form.intervalExists)
    case BuyStep(u, pricings, _, h, _) =>
      && u == user && pricings != [] && pricings[0].stripePriceId != ""
      && pricings[|pricings| - 1].terms.trialDays > 0 && !PlanClash(st, u, h)
    case TrialsStep(rows) => TrialStarts(st, rows, user)
    case _ => false
  }

  // None of the first n trial rows clashes with a plan row, or with a row before it.
  ghost predicate NoClash(st: State, rows: seq<HistoryId>, n: nat)
    requires n <= |rows|
  {
    && (forall i :: 0 <= i < n ==> rows[i] in st.histories && !PlanClash(st, st.histories[rows[i]].user, rows[i]))
    && (forall i, j :: 0 <= i < j < n ==> st.histories[rows[i]].user != st.histories[rows[j]].user)
  }

  // One of the user's rows is listed before the first that clashes.
  ghost predicate TrialStarts(st: State, rows: seq<HistoryId>, user: UserId) {
    exists i :: 0 <= i < |rows| && NoClash(st, rows, i + 1) && st.histories[rows[i]].user == user
  }

  // The plan rows after n rows without a clash.
  ghost predicate PlansAfter(st: State, rows: seq<HistoryId>, plans: map<UserId, Plan>) {
    && (forall u :: u in st.plans ==> u in plans && plans[u] == st.plans[u])
    && (forall h :: h in rows && h in st.histories ==>
          var u := st.histories[h].user; u in plans && plans[u].statusId == h)
    && (forall u :: u in plans && u !in st.plans ==>
          exists h :: h in rows && h in st.histories && st.histories[h].user == u)
  }

  lemma ClashAfter(st: State, front: seq<HistoryId>, st1: State, h: HistoryId)
    requires NoClash(st, front, |front|) && h in st.histories && PlansAfter(st, front, st1.plans)
    ensures PlanClash(st1, st.histories[h].user, h) <==> !NoClash(st, front + [h], |front| + 1)
  {
    var rows, user := front + [h], st.histories[h].user;
    assert forall i :: 0 <= i < |front| ==> rows[i] == front[i] && front[i] in front;
    assert rows[|front|] == h;
    forall u | u in st1.plans && st1.plans[u].statusId == h
      ensures u in st.plans || u == user
    {
      if u !in st.plans {
        var k :| k in front && k in st.histories && st.histories[k].user == u;
        assert st1.plans[u].statusId == k;
      }
    }
    if user in st1.plans && user !in st.plans {
      var k :| k in front && k in st.histories && st.histories[k].user == user;
      assert exists i :: 0 <= i < |front| && front[i] == k;
    }
    if PlanClash(st, user, h) {
      if user !in st.plans {
        var u :| u in st.plans && st.plans[u].statusId == h;
        assert u in st1.plans && st1.plans[u].statusId == h;
      }
    }
  }

  lemma {:induction false} TrialsUntilClash(st: State, rows: seq<HistoryId>)
    ensures var (r, going) := ActivateTrials(st, rows);
            && r.histories == st.histories && (going <==> NoClash(st, rows, |rows|))
            && (going ==> PlansAfter(st, rows, r.plans))
    decreases |rows|
  {
    hide PlanClash, TrialPlan, PlansAfter, NoClash;
    if rows == [] {
      NothingListed(st, rows);
    } else {
      var front, h := rows[..|rows| - 1], rows[|rows| - 1];
      var (st1, going) := ActivateTrials(st, front);
      TrialsUntilClash(st, front);
      assert rows == front + [h];
      if going && h in st.histories {
        ClashAfter(st, front, st1, h);
        if ActivateTrial(st1, h).1 { AddedPlan(st, front, st1, h); }
      }
      ShorterNoClash(st, front, h);
    }
  }

  lemma NothingListed(st: State, rows: seq<HistoryId>)
    requires rows == []
    ensures NoClash(st, rows, 0) && PlansAfter(st, rows, st.plans)
  {
  }

  lemma ShorterNoClash(st: State, front: seq<HistoryId>, h: HistoryId)
    ensures forall n :: 0 <= n <= |front| ==> (NoClash(st, front + [h], n) <==> NoClash(st, front, n))
    ensures NoClash(st, front + [h], |front| + 1) ==> NoClash(st, front, |front|) && h in st.histories
  {
    hide PlanClash;
    var rows := front + [h];
    assert forall i :: 0 <= i < |front| ==> rows[i] == front[i];
    assert rows[|front|] == h;
  }

  lemma AddedPlan(st: State, front: seq<HistoryId>, st1: State, h: HistoryId)
    requires PlansAfter(st, front, st1.plans) && st1.histories == st.histories && h in st.histories
    requires ActivateTrial(st1, h).1
    ensures PlansAfter(st, front + [h], ActivateTrial(st1, h).0.plans)
  {
    hide Calendar.AddDays;
    var plans := ActivateTrial(st1, h).0.plans;
    forall k | k in front + [h] && k in st.histories
      ensures var u := st.histories[k].user; u in plans && plans[u].statusId == k
    {
      if k != h { assert k in front; }
    }
    assert h in front + [h] && forall k :: k in front ==> k in front + [h];
  }

  lemma {:induction false} TrialStartsIff(st: State, rows: seq<HistoryId>, user: UserId)
    ensures user !in st.plans && user in ActivateTrials(st, rows).0.plans <==> TrialStarts(st, rows, user)
    decreases |rows|
  {
    hide PlanClash, TrialPlan, PlansAfter, NoClash;
    if rows != [] {
      var front, h := rows[..|rows| - 1], rows[|rows| - 1];
      assert rows == front + [h];
      TrialStartsIff(st, front, user);
      TrialsUntilClash(st, front);
      TrialsUntilClash(st, rows);
      TrialStartsSnoc(st, front, h, user);
      PlanRuns.TrialsKeepPlans(st, front);
      LastTrial(st, rows);
    }
  }

  lemma TrialStartsSnoc(st: State, front: seq<HistoryId>, h: HistoryId, user: UserId)
    ensures TrialStarts(st, front + [h], user) <==>
            || TrialStarts(st, front, user)
            || (h in st.histories && NoClash(st, front + [h], |front| + 1) && st.histories[h].user == user)
    ensures NoClash(st, front + [h], |front| + 1) ==> NoClash(st, front, |front|) && h in st.histories
  {
    hide NoClash;
    ShorterNoClash(st, front, h);
    var rows := front + [h];
    assert forall i :: 0 <= i < |front| ==> rows[i] == front[i];
    assert rows[|front|] == h;
  }

  // What the last row adds to the plan rows.
  lemma LastTrial(st: State, rows: seq<HistoryId>)
    requires rows != []
    ensures var front, h := rows[..|rows| - 1], rows[|rows| - 1];
            var before, after := ActivateTrials(st, front).0, ActivateTrials(st, rows);
            if !ActivateTrials(st, front).1 || !after.1 then after.0.plans == before.plans
            else h in before.histories && before.histories[h].user !in before.plans
                 && after.0.plans.Keys == before.plans.Keys + {before.histories[h].user}
  {
    hide TrialPlan;
  }

  lemma {:induction false} TrialsConnect(st: State, rows: seq<HistoryId>, user: UserId)
    requires user in st.configs
    ensures var r := ActivateTrials(st, rows).0;
            && user in r.configs && (user in st.plans ==> user in r.plans)
            && var starts := user !in st.plans && user in r.plans;
               r.configs[user] == if starts then SwitchedOn(st.configs[user]) else st.configs[user]
    decreases |rows|
  {
    hide TrialPlan;
    if rows != [] {
      TrialsConnect(st, rows[..|rows| - 1], user);
    }
  }

  lemma BuyStartsTrial(st: State, user: UserId, pricings: seq<Pricing>, period: Period, h: HistoryId, o: Option<Opened>)
    ensures var r := BuyPlan(st, user, pricings, period, h, o);
            r.1 == TrialStarted <==>
              && pricings != [] && pricings[0].stripePriceId != ""
              && pricings[|pricings| - 1].terms.trialDays > 0 && !PlanClash(st, user, h)
  {
    hide TrialPlan;
  }

  lemma ConfigStepReconnects(st: State, step: Step, user: UserId)
    requires CanHappen(st, step) && ConfigStep(step) && user in st.configs && !st.configs[user].connect
    ensures user in ConfigNext(st, step)
    ensures ConfigNext(st, step)[user].connect <==> Reconnects(st, step, user)
  {
    hide EnableFeatures, MaySetInterval, MaySyncNow, MayRead, AtLimit, ActivePlan, Running, LatestHistory, TrialStarts;
    if step.EnableStep? {
      EnableRows(st.configs, step.users);
    }
  }

  lemma OtherStepReconnects(st: State, step: Step, user: UserId)
    requires CanHappen(st, step) && !ConfigStep(step) && user in st.configs && !st.configs[user].connect
    ensures user in Next(st, step).configs
    ensures Next(st, step).configs[user].connect <==> Reconnects(st, step, user)
  {
    hide BuyPlan, UpgradePlan, Deliver, ActivateTrials, DeactivateExpired, LatestHistory, TrialStarts, PlanClash;
    match step
    case TickStep(_) =>
    case BuyStep(u, pricings, period, h, o) =>
      BuyRows(st, u, pricings, period, h, o);
      BuyStartsTrial(st, u, pricings, period, h, o);
    case UpgradeStep(u, pricings, period, latest, o) => UpgradeRows(st, u, pricings, period, latest, o);
    case OtherCheckoutStep(_, _) =>
    case DeliverStep(s) => DeliverRows(st, s);
    case TrialsStep(rows) =>
      TrialsConnect(st, rows, user);
      TrialStartsIff(st, rows, user);
    case MidnightStep(rows) => MidnightRows(st, rows);
  }

  lemma StepReconnectsIff(st: State, step: Step, user: UserId)
    requires CanHappen(st, step) && user in st.configs && !st.configs[user].connect
    ensures user in Next(st, step).configs
    ensures Next(st, step).configs[user].connect <==> Reconnects(st, step, user)
  {
    hide CanHappen, Next, ConfigNext, Reconnects;
    if ConfigStep(step) {
      BR.NextOfConfigStep(st, step);
      ConfigStepReconnects(st, step, user);
    } else {
      OtherStepReconnects(st, step, user);
    }
  }

  ghost predicate StaysDisconnected(st: State, steps: seq<Step>, user: UserId)
    decreases |steps|
  {
    && user in st.configs && !st.configs[user].connect
    && (steps != [] ==> CanHappen(st, steps[0]) && StaysDisconnected(Next(st, steps[0]), steps[1..], user))
  }

  ghost predicate NeverReconnected(st: State, steps: seq<Step>, user: UserId)
    decreases |steps|
  {
    steps != [] ==>
      && CanHappen(st, steps[0]) && !Reconnects(st, steps[0], user)
      && NeverReconnected(Next(st, steps[0]), steps[1..], user)
  }

  lemma {:induction false} StaysDisconnectedIff(st: State, steps: seq<Step>, st': State, user: UserId)
    requires Run(st, steps, st') && user in st.configs && !st.configs[user].connect
    ensures StaysDisconnected(st, steps, user) <==> NeverReconnected(st, steps, user)
    decreases |steps|
  {
    hide CanHappen, Next, Reconnects;
    if steps != [] {
      StepReconnectsIff(st, steps[0], user);
      if !Next(st, steps[0]).configs[user].connect {
        StaysDisconnectedIff(Next(st, steps[0]), steps[1..], st', user);
      }
    }
  }

  /** A mailbox that its user disconnects stays so, over any run, if and only if none of
      the run's steps is one that reconnects it. */
  lemma DisconnectLastsIff(st: State, user: UserId, steps: seq<Step>, st': State)
    requires user in st.configs && Run(Next(st, DisconnectStep(user)), steps, st')
    ensures var off := Next(st, DisconnectStep(user));
            StaysDisconnected(off, steps, user) <==> NeverReconnected(off, steps, user)
  {
    hide Run;
    StaysDisconnectedIff(Next(st, DisconnectStep(user)), steps, st', user);
  }

  /** The next hourly job is such a step for every user with an active, unexpired plan: it
      undoes their disconnection. */
  lemma HourlyJobReconnects(st: State, user: UserId, users: seq<UserId>)
    requires user in st.configs && user in users && forall u :: u in users ==> ActivePlan(st, u) && Running(st, u)
    ensures var off := Next(st, DisconnectStep(user));
            && CanHappen(off, EnableStep(users)) && Reconnects(off, EnableStep(users), user)
            && var c := Next(off, EnableStep(users)).configs; user in c && c[user].connect && c[user].sync
  {
    hide EnableFeatures;
    EnableRows(Next(st, DisconnectStep(user)).configs, users);
  }

  // ---------- How long an administrator's connection lasts ----------

  // A user whose plan has ended, with a connected mailbox.
  ghost predicate OnAfterEnd(st: State, user: UserId) {
    user in st.plans && !st.plans[user].isActive && user in st.configs && st.configs[user].connect
  }

  predicate Disconnects(step: Step, user: UserId) {
    step == DisconnectStep(user) || step == AdminDisconnectStep(user)
  }

  lemma ConfigStepOnAfterEnd(st: State, step: Step, user: UserId)
    requires CanHappen(st, step) && ConfigStep(step) && OnAfterEnd(st, user)
    ensures user in ConfigNext(st, step)
    ensures ConfigNext(st, step)[user].connect <==> !Disconnects(step, user)
  {
    hide EnableFeatures, AtLimit, Running, LatestHistory;
    if step.EnableStep? {
      EnableRows(st.configs, step.users);
    }
  }

  lemma {:induction false} MidnightOthers(st: State, rows: seq<Notice>, user: UserId)
    requires (forall n :: n in rows ==> n.user in st.plans && n.user != user) && user in st.configs
    ensures var c := DeactivateExpired(st, rows).configs; user in c && c[user] == st.configs[user]
    decreases |rows|
  {
    hide DeactivateOne;
    if rows != [] {
      MidnightOthers(st, rows[..|rows| - 1], user);
      DeactivateOneRows(DeactivateExpired(st, rows[..|rows| - 1]), rows[|rows| - 1]);
    }
  }

  lemma OtherStepOnAfterEnd(st: State, step: Step, user: UserId)
    requires CanHappen(st, step) && !ConfigStep(step) && OnAfterEnd(st, user)
    ensures var c := Next(st, step).configs; user in c && c[user].connect
  {
    hide BuyPlan, UpgradePlan, Deliver, ActivateTrials, DeactivateExpired, LatestHistory;
    match step
    case TickStep(_) =>
    case BuyStep(u, pricings, period, h, o) => BuyRows(st, u, pricings, period, h, o);
    case UpgradeStep(u, pricings, period, latest, o) => UpgradeRows(st, u, pricings, period, latest, o);
    case OtherCheckoutStep(_, _) =>
    case DeliverStep(s) => DeliverRows(st, s);
    case TrialsStep(rows) => TrialRows(st, rows);
    case MidnightStep(rows) => MidnightOthers(st, rows, user);
  }

  ghost predicate StaysConnected(st: State, steps: seq<Step>, user: UserId)
    decreases |steps|
  {
    && user in st.configs && st.configs[user].connect
    && (steps != [] ==> CanHappen(st, steps[0]) && StaysConnected(Next(st, steps[0]), steps[1..], user))
  }

  ghost predicate NoDisconnect(steps: seq<Step>, user: UserId) {
    forall i :: 0 <= i < |steps| ==> !Disconnects(steps[i], user)
  }

  lemma StepOnAfterEnd(st: State, step: Step, user: UserId)
    requires CanHappen(st, step) && OnAfterEnd(st, user)
    ensures user in Next(st, step).plans && !Next(st, step).plans[user].isActive
    ensures user in Next(st, step).configs
    ensures Next(st, step).configs[user].connect <==> !Disconnects(step, user)
  {
    hide CanHappen, Next, ConfigNext;
    PlanRuns.StepKeepsPlans(st, step);
    if ConfigStep(step) {
      BR.NextOfConfigStep(st, step);
      ConfigStepOnAfterEnd(st, step, user);
    } else {
      OtherStepOnAfterEnd(st, step, user);
    }
  }

  lemma {:induction false} OnAfterEndIff(st: State, steps: seq<Step>, st': State, user: UserId)
    requires Run(st, steps, st') && OnAfterEnd(st, user)
    ensures StaysConnected(st, steps, user) <==> NoDisconnect(steps, user)
    decreases |steps|
  {
    hide CanHappen, Next;
    if steps != [] {
      StepOnAfterEnd(st, steps[0], user);
      assert NoDisconnect(steps, user) <==>
        !Disconnects(steps[0], user) && NoDisconnect(steps[1..], user);
      if !Disconnects(steps[0], user) {
        OnAfterEndIff(Next(st, steps[0]), steps[1..], st', user);
      }
    }
  }

  /** A mailbox that an administrator connects for a user whose plan has ended stays
      connected, over any run, if and only if neither that user nor an administrator
      disconnects it: no job ever switches it off, as none looks at ended plans. */
  lemma AdminConnectionLastsIff(st: State, user: UserId, steps: seq<Step>, st': State)
    requires user in st.configs && user in st.plans && !st.plans[user].isActive
    requires Run(Next(st, AdminConnectStep(user)), steps, st')
    ensures StaysConnected(Next(st, AdminConnectStep(user)), steps, user) <==> NoDisconnect(steps, user)
  {
    hide Run, StaysConnected, NoDisconnect;
    OnAfterEndIff(Next(st, AdminConnectStep(user)), steps, st', user);
  }
}
