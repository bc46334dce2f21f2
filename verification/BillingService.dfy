/** The handlers themselves, statement by statement over the shared tables. Each one is
    proved to do to the tables what its function in Billing says, to be a step of a run,
    and to keep what every run keeps. */
module BillingService {
  import opened Wrappers
  import opened Billing
  import BR = BillingRuns
  import ImapRuns
  import Calendar

  // What every run keeps.
  ghost predicate Consistent(st: State) {
    BR.Inv(st) && ImapRuns.AllHealthy(st)
  }

  lemma StepRuns(st: State, step: Step)
    requires Consistent(st) && CanHappen(st, step)
    ensures Consistent(Next(st, step)) && Run(st, [step], Next(st, step))
  {
    hide CanHappen, Next, BR.Inv, ImapRuns.AllHealthy;
    BR.StepKeepsInv(st, step);
    ImapRuns.StepKeepsHealthy(st, step);
    assert [step][1..] == [] && Run(Next(st, step), [], Next(st, step));
  }

  // The same for the larger handlers, in terms of their own functions.
  lemma BuyRuns(st: State, user: UserId, pricings: seq<Pricing>, period: Period, h: HistoryId, o: Option<Opened>)
    requires Consistent(st) && CanHappen(st, BuyStep(user, pricings, period, h, o))
    ensures var st' := BuyPlan(st, user, pricings, period, h, o).0;
            Consistent(st') && Run(st, [BuyStep(user, pricings, period, h, o)], st')
  {
    hide Consistent, Run, BuyPlan;
    StepRuns(st, BuyStep(user, pricings, period, h, o));
  }

  lemma UpgradeRuns(st: State, user: UserId, pricings: seq<Pricing>, period: Period, latest: Option<HistoryId>,
                    o: Option<Opened>)
    requires Consistent(st) && CanHappen(st, UpgradeStep(user, pricings, period, latest, o))
    ensures latest.Some? ==> latest.value in st.histories
    ensures var st' := UpgradePlan(st, user, pricings, period, latest, o).0;
            Consistent(st') && Run(st, [UpgradeStep(user, pricings, period, latest, o)], st')
  {
    hide Consistent, Run, UpgradePlan;
    StepRuns(st, UpgradeStep(user, pricings, period, latest, o));
  }

  lemma DeliverRuns(st: State, s: SessionId)
    requires Consistent(st)
    ensures Consistent(Deliver(st, s)) && Run(st, [DeliverStep(s)], Deliver(st, s))
  {
    hide Consistent, Run, Deliver;
    StepRuns(st, DeliverStep(s));
  }

  lemma MidnightRuns(st: State, rows: seq<Notice>)
    requires Consistent(st) && CanHappen(st, MidnightStep(rows))
    ensures forall n :: n in rows ==> n.user in st.plans
    ensures Consistent(DeactivateExpired(st, rows)) && Run(st, [MidnightStep(rows)], DeactivateExpired(st, rows))
  {
    hide Consistent, Run, DeactivateExpired;
    StepRuns(st, MidnightStep(rows));
  }

  lemma SetImapRuns(st: State, user: UserId, form: ConnectionForm, reachable: bool)
    requires Consistent(st)
    ensures var st' := st.(configs := SetImap(st, user, form, reachable).0);
            Consistent(st') && Run(st, [SetImapStep(user, form, reachable)], st')
  {
    hide Consistent, Run, SetImap;
    StepRuns(st, SetImapStep(user, form, reachable));
  }

  class Backend {
    var clock: int
    var histories: map<HistoryId, History>
    var statuses: map<HistoryId, Status>
    var plans: map<UserId, Plan>
    var configs: map<UserId, Imap>
    var invoices: map<InvoiceId, InvoiceRow>
    var sessions: map<SessionId, Session>
    var delivered: set<SessionId>
    var syncs: seq<SyncRecord>       // the synchronisation history, read by nobody here

    ghost predicate Valid()
      reads this
    {
      Consistent(View())
    }

    function View(): State
      reads this
    {
      State(clock, histories, statuses, plans, configs, invoices, sessions, delivered)
    }

    constructor (now: int, invoices: map<InvoiceId, InvoiceRow>)
      ensures Valid() && Initial(View()) && View().now == now && View().invoices == invoices && syncs == []
    {
      clock := now;
      histories, statuses, plans, configs := map[], map[], map[], map[];
      this.invoices := invoices;
      sessions, delivered, syncs := map[], {}, [];
    }

    // Prisma's create on userSubscriptionPlan.
    method CreatePlan(user: UserId, plan: Plan) returns (ok: bool)
      modifies this`plans
      ensures ok == !PlanClash(old(View()), user, plan.statusId)
      ensures View() == if ok then AddPlan(old(View()), user, plan) else old(View())
    {
      ok := user !in plans && forall u :: u in plans ==> plans[u].statusId != plan.statusId;
      if ok {
        plans := plans[user := plan];
      }
    }

    // A trial's plan row, and the mailbox switched on.
    method StartTrial(user: UserId, plan: Plan) returns (ok: bool)
      modifies this`plans, this`configs
      ensures ok == !PlanClash(old(View()), user, plan.statusId)
      ensures View() == if ok then AddTrial(old(View()), user, plan) else old(View())
    {
      hide PlanClash;
      ok := CreatePlan(user, plan);
      if ok {
        SwitchOn(user);
      }
    }

    // Prisma's create on a history with its payment status.
    method CreateHistory(h: HistoryId, row: History)
      modifies this`histories, this`statuses
      ensures View() == AddHistory(old(View()), h, row) && h in statuses
    {
      histories := histories[h := row];
      statuses := statuses[h := Status(Pending, row.terms.price + row.terms.setupFee, None, None, None)];
    }

    // Prisma's updateMany on imapConfiguration with { sync, connect: true, CONNECTED }.
    method SwitchOn(user: UserId)
      modifies this`configs
      ensures View() == old(View()).(configs := SetOn(old(configs), user))
    {
      if user in configs {
        configs := configs[user := configs[user].(sync := true, connect := true, status := Connected)];
      }
    }

    method SwitchOff(user: UserId)
      modifies this`configs
      ensures View() == old(View()).(configs := SetOff(old(configs), user))
    {
      if user in configs {
        configs := configs[user := configs[user].(sync := false, connect := false, status := ConnectionFailed)];
      }
    }

    method OpenCheckout(h: HistoryId, o: Option<Opened>) returns (reply: Reply)
      requires h in statuses
      modifies this`sessions, this`statuses
      ensures (View(), reply) == RecordCheckout(old(View()), h, o)
    {
      match o
      case None => reply := Failed;
      case Some(c) =>
        sessions := sessions[c.id := Session(ForHistory(h), c.payload)];
        statuses := statuses[h := statuses[h].(session := Some(c.id))];
        reply := CheckoutOpened;
    }

    method BuyPlan(user: UserId, pricings: seq<Pricing>, period: Period, h: HistoryId, o: Option<Opened>)
      returns (reply: Reply)
      requires Valid() && CanHappen(View(), BuyStep(user, pricings, period, h, o))
      modifies this`histories, this`statuses, this`plans, this`configs, this`sessions
      ensures Valid() && Run(old(View()), [BuyStep(user, pricings, period, h, o)], View())
      ensures (View(), reply) == Billing.BuyPlan(old(View()), user, pricings, period, h, o)
    {
      hide Calendar.AddDays, PlanClash, AddHistory, AddTrial, Consistent, Run, CanHappen;
      BuyRuns(View(), user, pricings, period, h, o);
      var freeTrialDay := 0;
      for i := 0 to |pricings|
        invariant freeTrialDay == if i == 0 then 0 else pricings[i - 1].terms.trialDays
      {
        freeTrialDay := pricings[i].terms.trialDays;
      }
      if |pricings| == 0 || pricings[0].stripePriceId == "" {
        return Refused;
      }
      if user in plans && plans[user].expiredAt > clock {
        return Refused;
      }
      var pricing := pricings[0].terms;
      CreateHistory(h, History(user, pricing, period, clock));
      if freeTrialDay > 0 {
        var created := StartTrial(user, TrialPlan(pricing, pricing.price, h, clock, freeTrialDay));
        return if created then TrialStarted else Failed;
      }
      reply := OpenCheckout(h, o);
    }

    method UpgradePlan(user: UserId, pricings: seq<Pricing>, period: Period, latest: Option<HistoryId>,
                       o: Option<Opened>)
      returns (reply: Reply)
      requires Valid() && CanHappen(View(), UpgradeStep(user, pricings, period, latest, o))
      modifies this`histories, this`statuses, this`sessions
      ensures Valid() && Run(old(View()), [UpgradeStep(user, pricings, period, latest, o)], View())
      ensures (View(), reply) == Billing.UpgradePlan(old(View()), user, pricings, period, latest, o)
    {
      hide Consistent, Run, CanHappen, ReviseHistory;
      UpgradeRuns(View(), user, pricings, period, latest, o);
      if |pricings| == 0 || pricings[0].stripePriceId == "" || latest.None? {
        return Refused;
      }
      UpdateHistory(latest.value, pricings[0].terms, period);
      reply := OpenCheckout(latest.value, o);
    }

    // Prisma's nested update of a history and its payment status.
    method UpdateHistory(h: HistoryId, t: Terms, period: Period)
      requires h in histories
      modifies this`histories, this`statuses
      ensures View() == ReviseHistory(old(View()), h, t, period)
    {
      var total := t.price + t.setupFee;
      histories := histories[h := histories[h].(terms := t, period := period)];
      if h in statuses {
        statuses := statuses[h := statuses[h].(status := Pending, total := total, session := None,
                                               subscription := None)];
      } else {
        statuses := statuses[h := Status(Pending, total, None, None, None)];
      }
    }

    // checkout.session.completed
    method HandleCompleted(s: SessionId)
      requires Valid()
      modifies this`statuses, this`plans, this`invoices, this`delivered
      ensures Valid() && Run(old(View()), [DeliverStep(s)], View())
      ensures View() == Deliver(old(View()), s)
    {
      hide Consistent, Run, MarkPaid, CreatePaidPlan;
      DeliverRuns(View(), s);
      if s !in sessions {
        return;
      }
      match sessions[s].metadata {
        case ForInvoice(i) =>
          if i in invoices {
            invoices := invoices[i := InvoiceRow(true, Some(clock), Some(s), Some(sessions[s].payload.intent))];
          }
        case Unlabelled =>
        case ForHistory(h) =>
          MarkSessionPaid(s);
          CreatePlanFromHistory(h);
      }
      delivered := delivered + {s};
    }

    // Prisma's updateMany on the payment statuses of a session.
    method MarkSessionPaid(s: SessionId)
      requires s in sessions
      modifies this`statuses
      ensures View() == MarkPaid(old(View()), s)
    {
      var payload := sessions[s].payload;
      statuses := map k | k in statuses ::
        if statuses[k].session == Some(s)
        then statuses[k].(status := Paid, subscription := Some(payload.subscription),
                          customer := Some(payload.customer))
        else statuses[k];
    }

    method CreatePlanFromHistory(h: HistoryId)
      modifies this`plans
      ensures View() == CreatePaidPlan(old(View()), h)
    {
      hide Calendar.NextMonth, Calendar.NextYear, PlanClash;
      if h !in histories || h !in statuses {
        return;
      }
      var history := histories[h];
      var expirationDate := clock;
      if history.period.Monthly? {
        expirationDate := Calendar.NextMonth(expirationDate);
      } else {
        expirationDate := Calendar.NextYear(expirationDate);
      }
      var t := history.terms;
      var _ := CreatePlan(history.user,
        Plan(t.planName, t.limited, t.perMonth, t.intervals, t.price, t.setupFee, h, true, clock, expirationDate,
             Checkout));
    }

    method ActivateFreeTrial(rows: seq<HistoryId>)
      requires Valid() && CanHappen(View(), TrialsStep(rows))
      modifies this`plans, this`configs
      ensures Valid() && Run(old(View()), [TrialsStep(rows)], View())
      ensures View() == ActivateTrials(old(View()), rows).0
    {
      hide Calendar.AddDays, PlanClash, Consistent, Run;
      StepRuns(View(), TrialsStep(rows));
      assert rows[..0] == [];
      for i := 0 to |rows|
        invariant ActivateTrials(old(View()), rows[..i]) == (View(), true)
      {
        assert rows[..i + 1][..i] == rows[..i] && rows[..i + 1][i] == rows[i];
        assert TrialCandidate(old(View()), rows[i]);
        var history := histories[rows[i]];
        var created := StartTrial(history.user,
          TrialPlan(history.terms, 0.0, rows[i], clock, history.terms.trialDays));
        if !created {
          AbortedTrialsStay(old(View()), rows, i + 1);
          return;
        }
      }
      assert rows[..|rows|] == rows;
    }

    method EnableSubscriptionFeatures(users: seq<UserId>)
      requires Valid() && CanHappen(View(), EnableStep(users))
      modifies this`configs
      ensures Valid() && Run(old(View()), [EnableStep(users)], View())
      ensures View() == old(View()).(configs := EnableFeatures(old(configs), users))
    {
      hide Consistent, Run;
      StepRuns(View(), EnableStep(users));
      assert users[..0] == [];
      for i := 0 to |users|
        invariant configs == EnableFeatures(old(configs), users[..i])
      {
        assert users[..i + 1][..i] == users[..i] && users[..i + 1][i] == users[i];
        SwitchOn(users[i]);
      }
      assert users[..|users|] == users;
    }

    method DeactivateExpiredSubscriptions(rows: seq<Notice>)
      requires Valid() && CanHappen(View(), MidnightStep(rows))
      modifies this`plans, this`configs, this`sessions
      ensures Valid() && Run(old(View()), [MidnightStep(rows)], View())
      ensures View() == DeactivateExpired(old(View()), rows)
    {
      hide Consistent, Run, CanHappen, DeactivateOne;
      MidnightRuns(View(), rows);
      assert rows[..0] == [];
      for i := 0 to |rows|
        invariant View() == DeactivateExpired(old(View()), rows[..i])
      {
        assert View().plans.Keys == old(View()).plans.Keys;
        assert rows[..i + 1][..i] == rows[..i] && rows[..i + 1][i] == rows[i];
        assert rows[i].user in plans;
        Deactivate(rows[i]);
      }
      assert rows[..|rows|] == rows;
    }

    // One turn of the loop.
    method Deactivate(n: Notice)
      requires n.user in plans
      modifies this`plans, this`configs, this`sessions
      ensures View() == DeactivateOne(old(View()), n)
    {
      plans := plans[n.user := plans[n.user].(isActive := false)];
      SwitchOff(n.user);
      SendPaymentNotification(n);
    }

    method SendPaymentNotification(n: Notice)
      modifies this`sessions
      ensures View() == if n.latest.Some? && n.checkout.Some?
                        then OpenSession(old(View()), n.checkout.value, ForHistory(n.latest.value)) else old(View())
    {
      if n.latest.Some? && n.checkout.Some? {
        sessions := sessions[n.checkout.value.id := Session(ForHistory(n.latest.value), n.checkout.value.payload)];
      }
    }

    method SetImapConfiguration(user: UserId, form: ConnectionForm, reachable: bool) returns (reply: Reply)
      requires Valid()
      modifies this`configs
      ensures Valid() && Run(old(View()), [SetImapStep(user, form, reachable)], View())
      ensures (View(), reply) == (old(View()).(configs := SetImap(old(View()), user, form, reachable).0),
                                  SetImap(old(View()), user, form, reachable).1)
    {
      hide Consistent, Run;
      SetImapRuns(View(), user, form, reachable);
      var hasAccess := false;
      if user in plans && plans[user].isActive {
        if plans[user].expiredAt > clock {
          hasAccess := true;
        }
      }
      if !hasAccess {
        return Refused;
      }
      if form.interval.Some? {
        if !form.intervalExists {
          return Refused;
        }
      }
      SaveConfiguration(user, form, reachable);
      reply := Done;
    }

    // The upsert of the row, and the update that follows it.
    method SaveConfiguration(user: UserId, form: ConnectionForm, isConnected: bool)
      modifies this`configs
      ensures configs == old(configs)[user :=
        (if user in old(configs) then old(configs)[user] else Imap(false, false, Connected, None, None, clock)).(
          connect := isConnected, status := if isConnected then Connected else ConnectionFailed,
          sync := isConnected && form.automaticSync.GetOr(false), interval := form.interval)]
    {
      var status := if isConnected then Connected else ConnectionFailed;
      var sync := if isConnected then form.automaticSync.GetOr(false) else false;
      if user in configs {
        configs := configs[user := configs[user].(connect := isConnected, status := status, sync := sync,
                                                  interval := form.interval)];
      } else {
        configs := configs[user := Imap(isConnected, sync, status, form.interval, None, clock)];
      }
      if form.connect.None? && configs[user].connect {
        // an absent field is not written
        if form.automaticSync.Some? {
          configs := configs[user := configs[user].(sync := form.automaticSync.value)];
        }
      }
    }

    method ImapDisconnect(user: UserId)
      requires Valid()
      modifies this`configs
      ensures Valid() && Run(old(View()), [DisconnectStep(user)], View())
      ensures View() == old(View()).(configs := Disconnect(old(configs), user))
    {
      hide Consistent, Run;
      StepRuns(View(), DisconnectStep(user));
      if user in configs {
        configs := configs[user := configs[user].(connect := false, sync := false)];
      }
    }

    method ConnectUser(user: UserId)
      requires Valid()
      modifies this`configs
      ensures Valid() && Run(old(View()), [AdminConnectStep(user)], View())
      ensures View() == old(View()).(configs := AdminConnect(old(configs), user))
    {
      hide Consistent, Run;
      StepRuns(View(), AdminConnectStep(user));
      if user in configs && !configs[user].connect {
        SwitchOn(user);
      }
    }

    method DisconnectUser(user: UserId)
      requires Valid()
      modifies this`configs
      ensures Valid() && Run(old(View()), [AdminDisconnectStep(user)], View())
      ensures View() == old(View()).(configs := AdminDisconnect(old(configs), user))
    {
      hide Consistent, Run;
      StepRuns(View(), AdminDisconnectStep(user));
      if user in configs && configs[user].connect {
        SwitchOff(user);
      }
    }

    method SetSyncInterval(user: UserId, interval: IntervalId) returns (reply: Reply)
      requires Valid()
      modifies this`configs
      ensures Valid() && Run(old(View()), [IntervalStep(user, interval)], View())
      ensures View() == old(View()).(configs := Billing.SetSyncInterval(old(View()), user, interval))
      ensures reply == Done <==> MaySetInterval(old(View()), user, interval)
    {
      hide Consistent, Run;
      StepRuns(View(), IntervalStep(user, interval));
      if user !in plans || !plans[user].isActive {
        return Refused;
      }
      var id := plans[user].statusId;
      if id !in statuses || statuses[id].status != Paid {
        return Refused;
      }
      if interval !in plans[user].intervals || user !in configs {
        return Refused;
      }
      configs := configs[user := configs[user].(interval := Some(interval), sync := true)];
      reply := Done;
    }

    method ReadEmailTransactionsSince(user: UserId, r: Reading) returns (created: Option<nat>)
      requires LatestHistory(View(), user, r.latest)
      modifies this`configs
      ensures (View(), created) == (old(View()).(configs := ReadMail(old(View()), user, r).0),
                                    ReadMail(old(View()), user, r).1)
    {
      hide Calendar.CeilDays;
      var userAccess := CheckAccess(View(), user, r.latest);
      if userAccess.Denied? {
        return None;
      }
      if userAccess.kind == ActiveLabel && plans[user].limited {
        if r.thisMonth >= plans[user].perMonth {
          return None;
        }
      }
      if user !in configs {
        return Some(0);
      }
      match r.mailbox
      case LoginFailed =>
        SwitchOff(user);
        created := Some(0);
      case Unreadable => created := None;
      case Read(n) => created := Some(n);
    }

    // From the row's creation on; lastSync stays.
    method ReadEmailTransactions(user: UserId, r: Reading) returns (created: Option<nat>)
      requires Valid() && CanHappen(View(), ReadStep(user, r))
      modifies this`configs
      ensures Valid() && Run(old(View()), [ReadStep(user, r)], View())
      ensures View() == old(View()).(configs := ReadMail(old(View()), user, r).0)
      ensures user in old(configs) ==> created == ReadMail(old(View()), user, r).1
      ensures user !in old(configs) ==> created == Some(0)
    {
      hide Consistent, Run, MayRead;
      StepRuns(View(), ReadStep(user, r));
      if user !in configs {
        return Some(0);
      }
      created := ReadEmailTransactionsSince(user, r);
    }

    // The part the cron job and the manual sync have in common.
    method SyncMail(user: UserId, kind: SyncKind, r: Reading)
      requires user in configs && LatestHistory(View(), user, r.latest)
      modifies this`configs, this`syncs
      ensures View() == old(View()).(configs := Sync(old(View()), user, r))
      ensures syncs == old(syncs) + [RecordOf(old(View()), user, kind, r)]
    {
      var created := ReadEmailTransactionsSince(user, r);
      syncs := syncs + [SyncRecord(user, kind, clock, created.Some?, created.GetOr(0))];
      if created.Some? && created.value > 0 && user in configs {
        configs := configs[user := configs[user].(lastSync := Some(clock))];
      }
    }

    method RunSyncJob(user: UserId, r: Reading)
      requires Valid() && CanHappen(View(), SyncJobStep(user, r))
      modifies this`configs, this`syncs
      ensures Valid() && Run(old(View()), [SyncJobStep(user, r)], View())
      ensures View() == old(View()).(configs := Billing.RunSyncJob(old(View()), user, r))
      ensures syncs == old(syncs) + if user in old(configs) then [RecordOf(old(View()), user, CronSync, r)] else []
    {
      hide Consistent, Run, Sync, RecordOf;
      StepRuns(View(), SyncJobStep(user, r));
      if user !in configs {
        return;
      }
      SyncMail(user, CronSync, r);
    }

    method SyncEmails(user: UserId, r: Reading)
      requires Valid() && CanHappen(View(), SyncNowStep(user, r))
      modifies this`configs, this`syncs
      ensures Valid() && Run(old(View()), [SyncNowStep(user, r)], View())
      ensures View() == old(View()).(configs := Billing.SyncEmails(old(View()), user, r))
      ensures syncs == old(syncs) + if MaySyncNow(old(View()), user) && !AtLimit(old(View()), user, r.thisMonth)
                                    then [RecordOf(old(View()), user, ManualSync, r)] else []
    {
      hide Consistent, Run, Sync, RecordOf;
      StepRuns(View(), SyncNowStep(user, r));
      if user !in plans || !plans[user].isActive {
        return;
      }
      if plans[user].limited && r.thisMonth >= plans[user].perMonth {
        return;
      }
      if user !in configs || !configs[user].connect {
        return;
      }
      if !configs[user].sync || configs[user].interval.None? {
        return;
      }
      if configs[user].interval.value !in plans[user].intervals {
        return;
      }
      SyncMail(user, ManualSync, r);
    }

    method ResetLastSync(user: UserId)
      requires Valid()
      modifies this`configs
      ensures Valid() && Run(old(View()), [ResetSyncStep(user)], View())
      ensures View() == old(View()).(configs := Billing.ResetLastSync(old(configs), user))
    {
      hide Consistent, Run;
      StepRuns(View(), ResetSyncStep(user));
      if user in configs {
        configs := configs[user := configs[user].(lastSync := None)];
      }
    }
  }

  // Rows after the failing one are not looked at any more.
  lemma {:induction false} AbortedTrialsStay(st: State, rows: seq<HistoryId>, i: nat)
    requires i <= |rows| && !ActivateTrials(st, rows[..i]).1
    ensures ActivateTrials(st, rows) == ActivateTrials(st, rows[..i])
    decreases |rows| - i
  {
    hide TrialPlan, PlanClash;
    if i == |rows| {
      assert rows[..i] == rows;
    } else {
      assert rows[..i + 1][..i] == rows[..i];
      AbortedTrialsStay(st, rows, i + 1);
    }
  }
}
