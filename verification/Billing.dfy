/** The tables shared by checkout, Stripe webhook, subscription cron jobs and the IMAP
    handlers, and what each handler makes of them. A handler is one atomic step;
    everything it gets from outside (Stripe, the mail server, generated ids, which of
    several equally recent rows a query returns) is an argument. */
module Billing {
  import opened Wrappers
  import Calendar

  type UserId = string
  type HistoryId = string
  type SessionId = string
  type InvoiceId = string
  type IntervalId = string

  datatype Period = Monthly | Yearly
  datatype PaymentStatus = Paid | Pending
  datatype ConnectionStatus = Connected | ConnectionFailed

  // What a price row offers. A null freeTrialDays is 0: every reader treats them alike.
  datatype Terms = Terms(planName: string, limited: bool, perMonth: int, intervals: seq<IntervalId>,
                         price: real, setupFee: real, trialDays: int)
  datatype Pricing = Pricing(terms: Terms, stripePriceId: string)

  datatype History = History(user: UserId, terms: Terms, period: Period, createdAt: int)

  // Keyed by its history: subscriptionPlanHistoryId is unique and always set.
  datatype Status = Status(status: PaymentStatus, total: real, session: Option<SessionId>,
                           subscription: Option<string>, customer: Option<string>)

  // Which path created a plan row. Not a column; recorded to state theorems.
  datatype Origin = Trial | Checkout

  datatype Plan = Plan(planName: string, limited: bool, perMonth: int, intervals: seq<IntervalId>,
                       price: real, setupFee: real, statusId: HistoryId,
                       isActive: bool, createdAt: int, expiredAt: int, origin: Origin)

  datatype Imap = Imap(connect: bool, sync: bool, status: ConnectionStatus,
                       interval: Option<IntervalId>, lastSync: Option<int>, createdAt: int)

  datatype InvoiceRow = InvoiceRow(isPaid: bool, paidAt: Option<int>, session: Option<SessionId>,
                                   intent: Option<string>)

  // What a checkout session was checkout for, and what Stripe sends back with every
  // delivery of its completion event.
  datatype Metadata = ForHistory(history: HistoryId) | ForInvoice(invoice: InvoiceId) | Unlabelled
  datatype Session = Session(metadata: Metadata, payload: Payload)
  datatype Payload = Payload(subscription: string, customer: string, intent: string)
  datatype Opened = Opened(id: SessionId, payload: Payload)

  type Configs = map<UserId, Imap>

  datatype State = State(
    now: int,
    histories: map<HistoryId, History>,
    statuses: map<HistoryId, Status>,
    plans: map<UserId, Plan>,                // UserId is unique
    configs: Configs,                        // IMAP settings; userId is unique
    invoices: map<InvoiceId, InvoiceRow>,
    sessions: map<SessionId, Session>,       // at Stripe
    delivered: set<SessionId>)               // completion events received at least once

  datatype Reply = Refused | Failed | TrialStarted | CheckoutOpened | Done

  ghost predicate LatestHistory(st: State, user: UserId, h: Option<HistoryId>) {
    match h
    case None => forall k :: k in st.histories ==> st.histories[k].user != user
    case Some(k) =>
      && k in st.histories && st.histories[k].user == user
      && forall j :: j in st.histories && st.histories[j].user == user ==>
                       st.histories[j].createdAt <= st.histories[k].createdAt
  }

  // ---------- Rows and small updates ----------

  // Creating a plan row fails on either of its two unique columns.
  predicate PlanClash(st: State, user: UserId, statusId: HistoryId) {
    user in st.plans || exists u :: u in st.plans && st.plans[u].statusId == statusId
  }

  predicate Running(st: State, user: UserId) {
    user in st.plans && st.plans[user].expiredAt > st.now
  }

  predicate ActivePlan(st: State, user: UserId) {
    user in st.plans && st.plans[user].isActive
  }

  function SwitchedOn(row: Imap): Imap {
    row.(sync := true, connect := true, status := Connected)
  }

  function SwitchedOff(row: Imap): Imap {
    row.(sync := false, connect := false, status := ConnectionFailed)
  }

  function SetOn(c: Configs, user: UserId): Configs {
    if user in c then c[user := SwitchedOn(c[user])] else c
  }

  function SetOff(c: Configs, user: UserId): Configs {
    if user in c then c[user := SwitchedOff(c[user])] else c
  }

  function TrialPlan(t: Terms, price: real, statusId: HistoryId, now: int, days: int): Plan {
    Plan(t.planName, t.limited, t.perMonth, t.intervals, price, 0.0, statusId,
         true, now, Calendar.AddDays(now, days), Trial)
  }

  function Expiry(now: int, period: Period): int {
    if period.Monthly? then Calendar.NextMonth(now) else Calendar.NextYear(now)
  }

  function PaidPlan(h: History, statusId: HistoryId, now: int): Plan {
    var t := h.terms;
    Plan(t.planName, t.limited, t.perMonth, t.intervals, t.price, t.setupFee, statusId,
         true, now, Expiry(now, h.period), Checkout)
  }

  // A history row with its pending payment status, created together.
  function AddHistory(st: State, h: HistoryId, row: History): State {
    st.(histories := st.histories[h := row],
        statuses := st.statuses[h := Status(Pending, row.terms.price + row.terms.setupFee, None, None, None)])
  }

  function AddPlan(st: State, user: UserId, plan: Plan): State {
    st.(plans := st.plans[user := plan])
  }

  // A trial's plan row, with the user's mail connection switched on.
  function AddTrial(st: State, user: UserId, plan: Plan): State {
    AddPlan(st, user, plan).(configs := SetOn(st.configs, user))
  }

  function OpenSession(st: State, o: Opened, m: Metadata): State {
    st.(sessions := st.sessions[o.id := Session(m, o.payload)])
  }

  // The outcome of asking Stripe for a checkout and recording it on the payment status.
  function RecordCheckout(st: State, h: HistoryId, o: Option<Opened>): (State, Reply)
    requires h in st.statuses
  {
    match o
    case None => (st, Failed)
    case Some(c) =>
      (OpenSession(st, c, ForHistory(h)).(
         statuses := st.statuses[h := st.statuses[h].(session := Some(c.id))]), CheckoutOpened)
  }

  // ---------- Checkout ----------

  function BuyPlan(st: State, user: UserId, pricings: seq<Pricing>, period: Period,
                   h: HistoryId, o: Option<Opened>): (State, Reply)
  {
    if pricings == [] || pricings[0].stripePriceId == "" || Running(st, user) then (st, Refused)
    else
      var t := pricings[0].terms;
      var days := pricings[|pricings| - 1].terms.trialDays;
      var st1 := AddHistory(st, h, History(user, t, period, st.now));
      if days <= 0 then RecordCheckout(st1, h, o)
      else if PlanClash(st1, user, h) then (st1, Failed)
      else
        (AddTrial(st1, user, TrialPlan(t, t.price, h, st.now, days)), TrialStarted)
  }

  // The latest history row is rewritten in place and its payment starts over.
  function ReviseHistory(st: State, h: HistoryId, t: Terms, period: Period): (r: State)
    requires h in st.histories
    ensures h in r.statuses
  {
    var total := t.price + t.setupFee;
    var status := if h in st.statuses
                  then st.statuses[h].(status := Pending, total := total, session := None, subscription := None)
                  else Status(Pending, total, None, None, None);
    st.(histories := st.histories[h := st.histories[h].(terms := t, period := period)],
        statuses := st.statuses[h := status])
  }

  function UpgradePlan(st: State, user: UserId, pricings: seq<Pricing>, period: Period,
                       latest: Option<HistoryId>, o: Option<Opened>): (State, Reply)
    requires latest.Some? ==> latest.value in st.histories
  {
    if pricings == [] || pricings[0].stripePriceId == "" || latest.None? then (st, Refused)
    else RecordCheckout(ReviseHistory(st, latest.value, pricings[0].terms, period), latest.value, o)
  }

  // ---------- Webhook ----------

  function MarkPaid(st: State, s: SessionId): State
    requires s in st.sessions
  {
    var p := st.sessions[s].payload;
    st.(statuses := map h | h in st.statuses ::
          if st.statuses[h].session == Some(s)
          then st.statuses[h].(status := Paid, subscription := Some(p.subscription), customer := Some(p.customer))
          else st.statuses[h])
  }

  function CreatePaidPlan(st: State, h: HistoryId): State {
    if h !in st.histories || h !in st.statuses || PlanClash(st, st.histories[h].user, h) then st
    else AddPlan(st, st.histories[h].user, PaidPlan(st.histories[h], h, st.now))
  }

  function PayInvoice(st: State, i: InvoiceId, s: SessionId): State
    requires s in st.sessions
  {
    if i !in st.invoices then st
    else
      st.(invoices := st.invoices[i := InvoiceRow(true, Some(st.now), Some(s), Some(st.sessions[s].payload.intent))])
  }

  // One delivery of checkout.session.completed.
  function Deliver(st: State, s: SessionId): State {
    if s !in st.sessions then st
    else
      var st1 := match st.sessions[s].metadata
                 case ForInvoice(i) => PayInvoice(st, i, s)
                 case Unlabelled => st
                 case ForHistory(h) => CreatePaidPlan(MarkPaid(st, s), h);
      st1.(delivered := st.delivered + {s})
  }

  // ---------- Cron jobs ----------

  // The hourly trial job, after the first rows of its query result. A failing insert
  // ends the job, so the flag says whether it still runs.
  function ActivateTrials(st: State, rows: seq<HistoryId>): (State, bool) {
    if rows == [] then (st, true)
    else
      var (st1, going) := ActivateTrials(st, rows[..|rows| - 1]);
      if going then ActivateTrial(st1, rows[|rows| - 1]) else (st1, false)
  }

  function ActivateTrial(st: State, h: HistoryId): (State, bool) {
    if h !in st.histories || PlanClash(st, st.histories[h].user, h) then (st, false)
    else
      var row := st.histories[h];
      (AddTrial(st, row.user, TrialPlan(row.terms, 0.0, h, st.now, row.terms.trialDays)), true)
  }

  predicate TrialCandidate(st: State, h: HistoryId) {
    && h in st.histories && st.histories[h].terms.trialDays > 0
    && h in st.statuses && st.statuses[h].status == Pending
    && st.histories[h].user !in st.plans
  }

  // The hourly job that switches IMAP on for every active, unexpired plan.
  function EnableFeatures(c: Configs, users: seq<UserId>): Configs {
    if users == [] then c
    else SetOn(EnableFeatures(c, users[..|users| - 1]), users[|users| - 1])
  }

  // One user of the midnight job: the notice may open a session for the latest history.
  datatype Notice = Notice(user: UserId, latest: Option<HistoryId>, checkout: Option<Opened>)

  function EndPlan(st: State, user: UserId): State
    requires user in st.plans
  {
    st.(plans := st.plans[user := st.plans[user].(isActive := false)], configs := SetOff(st.configs, user))
  }

  function DeactivateOne(st: State, n: Notice): State
    requires n.user in st.plans
  {
    var st1 := EndPlan(st, n.user);
    if n.latest.Some? && n.checkout.Some? then OpenSession(st1, n.checkout.value, ForHistory(n.latest.value)) else st1
  }

  function DeactivateExpired(st: State, rows: seq<Notice>): (r: State)
    requires forall n :: n in rows ==> n.user in st.plans
    ensures r.plans.Keys == st.plans.Keys
  {
    if rows == [] then st
    else DeactivateOne(DeactivateExpired(st, rows[..|rows| - 1]), rows[|rows| - 1])
  }

  // ---------- IMAP configuration ----------

  datatype ConnectionForm = ConnectionForm(interval: Option<IntervalId>, intervalExists: bool,
                                           automaticSync: Option<bool>, connect: Option<bool>)

  function SetImap(st: State, user: UserId, form: ConnectionForm, reachable: bool): (Configs, Reply) {
    if !ActivePlan(st, user) || !Running(st, user) then (st.configs, Refused)
    else if form.interval.Some? && !form.intervalExists then (st.configs, Refused)
    else
      var row := if user in st.configs then st.configs[user] else Imap(false, false, Connected, None, None, st.now);
      (st.configs[user := row.(
         connect := reachable, status := if reachable then Connected else ConnectionFailed,
         sync := reachable && form.automaticSync.GetOr(false), interval := form.interval)], Done)
  }

  function Disconnect(c: Configs, user: UserId): Configs {
    if user in c then c[user := c[user].(connect := false, sync := false)] else c
  }

  function AdminConnect(c: Configs, user: UserId): Configs {
    if user in c && !c[user].connect then SetOn(c, user) else c
  }

  function AdminDisconnect(c: Configs, user: UserId): Configs {
    if user in c && c[user].connect then SetOff(c, user) else c
  }

  predicate MaySetInterval(st: State, user: UserId, interval: IntervalId) {
    && ActivePlan(st, user)
    && st.plans[user].statusId in st.statuses && st.statuses[st.plans[user].statusId].status == Paid
    && interval in st.plans[user].intervals
    && user in st.configs
  }

  function SetSyncInterval(st: State, user: UserId, interval: IntervalId): Configs {
    if MaySetInterval(st, user, interval)
    then st.configs[user := st.configs[user].(interval := Some(interval), sync := true)]
    else st.configs
  }

  // ---------- Mail synchronisation ----------

  datatype Label = ActiveLabel | TrialLabel | ExpiredLabel | NoneLabel
  datatype Access = Denied(kind: Label) | Granted(kind: Label, remainingDays: int, planName: string)

  function CheckAccess(st: State, user: UserId, latest: Option<HistoryId>): Access
    requires latest.Some? ==> latest.value in st.histories
  {
    if !ActivePlan(st, user) then Denied(NoneLabel)
    else if !Running(st, user) then Denied(ExpiredLabel)
    else
      var trial := latest.None? || latest.value !in st.statuses || st.statuses[latest.value].status != Paid
                   || st.histories[latest.value].terms.trialDays > 0;
      Granted(if trial then TrialLabel else ActiveLabel,
              Calendar.CeilDays(st.plans[user].expiredAt - st.now), st.plans[user].planName)
  }

  // What reading the mailbox comes to, once access is granted.
  datatype Mailbox = LoginFailed | Unreadable | Read(created: nat)

  // What the queries and the mail server say during one synchronisation: a latest
  // history of the user, their invoices of this month so far, the mailbox.
  datatype Reading = Reading(latest: Option<HistoryId>, thisMonth: int, mailbox: Mailbox)

  predicate AtLimit(st: State, user: UserId, thisMonth: int)
    requires user in st.plans
  {
    st.plans[user].limited && thisMonth >= st.plans[user].perMonth
  }

  // Without access, or with a paid plan whose monthly limit is reached, reading fails.
  predicate MayRead(st: State, user: UserId, r: Reading)
    requires r.latest.Some? ==> r.latest.value in st.histories
  {
    var access := CheckAccess(st, user, r.latest);
    access.Granted? && (access.kind == ActiveLabel ==> !AtLimit(st, user, r.thisMonth))
  }

  // The configuration after reading, and how many invoices were created; none at all
  // when the read ended in an error.
  function ReadMail(st: State, user: UserId, r: Reading): (Configs, Option<nat>)
    requires r.latest.Some? ==> r.latest.value in st.histories
  {
    if !MayRead(st, user, r) then (st.configs, None)
    else if user !in st.configs then (st.configs, Some(0))
    else
      match r.mailbox
      case LoginFailed => (SetOff(st.configs, user), Some(0))
      case Unreadable => (st.configs, None)
      case Read(n) => (st.configs, Some(n))
  }

  // The cron job and the manual sync share this tail.
  function Sync(st: State, user: UserId, r: Reading): Configs
    requires user in st.configs && (r.latest.Some? ==> r.latest.value in st.histories)
  {
    var (c, created) := ReadMail(st, user, r);
    if created.Some? && created.value > 0 && user in c then c[user := c[user].(lastSync := Some(st.now))] else c
  }

  function RunSyncJob(st: State, user: UserId, r: Reading): Configs
    requires r.latest.Some? ==> r.latest.value in st.histories
  {
    if user in st.configs then Sync(st, user, r) else st.configs
  }

  predicate MaySyncNow(st: State, user: UserId) {
    && ActivePlan(st, user) && user in st.configs
    && st.configs[user].connect && st.configs[user].sync
    && st.configs[user].interval.Some? && st.configs[user].interval.value in st.plans[user].intervals
  }

  // The manual sync refuses at the monthly limit for every plan, trials included.
  function SyncEmails(st: State, user: UserId, r: Reading): Configs
    requires r.latest.Some? ==> r.latest.value in st.histories
  {
    if MaySyncNow(st, user) && !AtLimit(st, user, r.thisMonth) then Sync(st, user, r) else st.configs
  }

  // One row of the synchronisation history.
  datatype SyncKind = CronSync | ManualSync
  datatype SyncRecord = SyncRecord(user: UserId, kind: SyncKind, at: int, succeeded: bool, created: nat)

  function RecordOf(st: State, user: UserId, kind: SyncKind, r: Reading): SyncRecord
    requires r.latest.Some? ==> r.latest.value in st.histories
  {
    var created := ReadMail(st, user, r).1;
    SyncRecord(user, kind, st.now, created.Some?, created.GetOr(0))
  }

  function ResetLastSync(c: Configs, user: UserId): Configs {
    if user in c then c[user := c[user].(lastSync := None)] else c
  }

  // The date a sync reads from.
  function EffectiveSince(row: Imap): int {
    row.lastSync.GetOr(row.createdAt)
  }

  // ---------- Runs ----------

  datatype Step =
    | TickStep(to: int)
    | BuyStep(user: UserId, pricings: seq<Pricing>, period: Period, h: HistoryId, checkout: Option<Opened>)
    | UpgradeStep(user: UserId, pricings: seq<Pricing>, period: Period, latest: Option<HistoryId>,
                  checkout: Option<Opened>)
    | OtherCheckoutStep(o: Opened, metadata: Metadata)   // invoice payments and trial reminders
    | DeliverStep(session: SessionId)
    | TrialsStep(rows: seq<HistoryId>)
    | EnableStep(users: seq<UserId>)
    | MidnightStep(notices: seq<Notice>)
    | SetImapStep(user: UserId, form: ConnectionForm, reachable: bool)
    | DisconnectStep(user: UserId)
    | AdminConnectStep(user: UserId)
    | AdminDisconnectStep(user: UserId)
    | IntervalStep(user: UserId, interval: IntervalId)
    | SyncJobStep(user: UserId, reading: Reading)
    | SyncNowStep(user: UserId, reading: Reading)
    | ReadStep(user: UserId, reading: Reading)     // reading from the row's creation, on request
    | ResetSyncStep(user: UserId)

  ghost predicate FreshCheckout(st: State, o: Option<Opened>) {
    o.Some? ==> o.value.id !in st.sessions
  }

  // The midnight query's rows: distinct users with an active, expired plan, and Stripe
  // gives every notice a session id of its own.
  ghost predicate ExpiredRows(st: State, rows: seq<Notice>) {
    && (forall n :: n in rows ==>
          && ActivePlan(st, n.user) && !Running(st, n.user)
          && LatestHistory(st, n.user, n.latest) && FreshCheckout(st, n.checkout))
    && (forall i, j :: 0 <= i < j < |rows| ==>
          && rows[i].user != rows[j].user
          && (rows[i].checkout.Some? && rows[j].checkout.Some? ==>
            rows[i].checkout.value.id != rows[j].checkout.value.id))
  }

  // What the outside world can do in a state: time moves forward, generated ids are
  // new, queries return rows that satisfy them. A cron job may stop early, so its rows
  // are any part of its query's result.
  ghost predicate CanHappen(st: State, step: Step) {
    match step
    case TickStep(to) => st.now <= to
    case BuyStep(user, pricings, period, h, checkout) => h !in st.histories && FreshCheckout(st, checkout)
    case UpgradeStep(user, pricings, period, latest, checkout) =>
      LatestHistory(st, user, latest) && FreshCheckout(st, checkout)
    case OtherCheckoutStep(o, metadata) => !metadata.ForHistory? && FreshCheckout(st, Some(o))
    case DeliverStep(s) => true
    case TrialsStep(rows) => forall h :: h in rows ==> TrialCandidate(st, h)
    case EnableStep(users) => forall u :: u in users ==> ActivePlan(st, u) && Running(st, u)
    case MidnightStep(notices) => ExpiredRows(st, notices)
    case SyncJobStep(user, r) => LatestHistory(st, user, r.latest)
    case SyncNowStep(user, r) => LatestHistory(st, user, r.latest)
    case ReadStep(user, r) => LatestHistory(st, user, r.latest)
    case _ => true
  }

  ghost function Next(st: State, step: Step): State
    requires CanHappen(st, step)
  {
    match step
    case TickStep(to) => st.(now := to)
    case BuyStep(user, pricings, period, h, checkout) => BuyPlan(st, user, pricings, period, h, checkout).0
    case UpgradeStep(user, pricings, period, latest, checkout) =>
      UpgradePlan(st, user, pricings, period, latest, checkout).0
    case OtherCheckoutStep(o, metadata) => OpenSession(st, o, metadata)
    case DeliverStep(s) => Deliver(st, s)
    case TrialsStep(rows) => ActivateTrials(st, rows).0
    case MidnightStep(notices) => DeactivateExpired(st, notices)
    case _ => st.(configs := ConfigNext(st, step))
  }

  // The steps that write nothing but IMAP configurations.
  predicate ConfigStep(step: Step) {
    step.EnableStep? || step.SetImapStep? || step.DisconnectStep? || step.AdminConnectStep?
    || step.AdminDisconnectStep? || step.IntervalStep? || step.SyncJobStep? || step.SyncNowStep?
    || step.ReadStep? || step.ResetSyncStep?
  }

  ghost function ConfigNext(st: State, step: Step): Configs
    requires CanHappen(st, step)
  {
    match step
    case EnableStep(users) => EnableFeatures(st.configs, users)
    case SetImapStep(user, form, reachable) => SetImap(st, user, form, reachable).0
    case DisconnectStep(user) => Disconnect(st.configs, user)
    case AdminConnectStep(user) => AdminConnect(st.configs, user)
    case AdminDisconnectStep(user) => AdminDisconnect(st.configs, user)
    case IntervalStep(user, interval) => SetSyncInterval(st, user, interval)
    case SyncJobStep(user, r) => RunSyncJob(st, user, r)
    case SyncNowStep(user, r) => SyncEmails(st, user, r)
    case ReadStep(user, r) => ReadMail(st, user, r).0
    case ResetSyncStep(user) => ResetLastSync(st.configs, user)
    case _ => st.configs
  }

  /** st' is reached from st by a run of the given steps. */
  ghost predicate Run(st: State, steps: seq<Step>, st': State)
    decreases |steps|
  {
    if steps == [] then st' == st
    else CanHappen(st, steps[0]) && Run(Next(st, steps[0]), steps[1..], st')
  }

  // Empty tables, apart from invoices entered by hand.
  predicate Initial(st: State) {
    && st.histories == map[] && st.statuses == map[] && st.plans == map[] && st.configs == map[]
    && st.sessions == map[] && st.delivered == {}
  }
}
