/** What each handler makes of a user's mail connection, and when a synchronisation reads
    the mailbox, switches it off or moves its date. */
module Mailboxes {
  import opened Wrappers
  import opened Billing
  import BR = BillingRuns
  import ImapRuns
  import Purchases
  import Calendar

  // A connection that is switched on, or off.
  predicate On(row: Imap) {
    row.connect && row.sync && row.status == Connected
  }

  predicate Off(row: Imap) {
    !row.connect && !row.sync && row.status == ConnectionFailed
  }

  // The row keeps its interval and dates.
  predicate KeepsRest(row: Imap, row': Imap) {
    row'.interval == row.interval && row'.lastSync == row.lastSync && row'.createdAt == row.createdAt
  }

  // No row but the user's changes, appears or goes.
  ghost predicate OthersSame(c: Configs, c': Configs, user: UserId) {
    c' - {user} == c - {user}
  }

  // ---------- Connecting ----------

  /** Saving a configuration is refused, and changes nothing, if and only if the user has no
      active, unexpired plan or names an interval that does not exist. Otherwise the row
      says whether the connection test succeeded, synchronises if it did and the form asks
      for it, and has the form's interval; a new row starts its dates now. */
  lemma SetImapIff(st: State, user: UserId, form: ConnectionForm, reachable: bool)
    ensures var (c, reply) := SetImap(st, user, form, reachable);
            var may := user in st.plans && st.plans[user].isActive && st.now < st.plans[user].expiredAt
                       && !(form.interval.Some? && !form.intervalExists);
            && (reply == if may then Done else Refused)
            && (!may ==> c == st.configs)
            && (may ==>
                  && user in c && OthersSame(st.configs, c, user)
                  && c[user].connect == reachable && c[user].interval == form.interval
                  && (c[user].sync <==> reachable && form.automaticSync == Some(true))
                  && (c[user].status == Connected <==> reachable)
                  && (user in st.configs ==>
                        && c[user].lastSync == st.configs[user].lastSync
                        && c[user].createdAt == st.configs[user].createdAt)
                  && (user !in st.configs ==> c[user].lastSync == None && c[user].createdAt == st.now))
  {
  }

  /** A user's disconnection clears connect and sync and nothing else. An administrator's
      connect and disconnect switch the whole connection, and only one that is not already
      so. */
  lemma ConnectAndDisconnect(c: Configs, user: UserId)
    requires user in c
    ensures var c' := Disconnect(c, user);
            && user in c' && OthersSame(c, c', user) && KeepsRest(c[user], c'[user])
            && !c'[user].connect && !c'[user].sync && c'[user].status == c[user].status
    ensures var c' := AdminConnect(c, user);
            && user in c' && OthersSame(c, c', user) && KeepsRest(c[user], c'[user])
            && (if c[user].connect then c'[user] == c[user] else On(c'[user]))
    ensures var c' := AdminDisconnect(c, user);
            && user in c' && OthersSame(c, c', user) && KeepsRest(c[user], c'[user])
            && (if c[user].connect then Off(c'[user]) else c'[user] == c[user])
  {
  }

  /** Choosing an interval needs an active plan whose payment is settled and which allows
      the interval, and a configuration; it stores the interval and sets sync. */
  lemma IntervalIsSetIff(st: State, user: UserId, interval: IntervalId)
    ensures var c := SetSyncInterval(st, user, interval);
            var may := user in st.configs && user in st.plans && st.plans[user].isActive
                       && interval in st.plans[user].intervals
                       && var h := st.plans[user].statusId; h in st.statuses && st.statuses[h].status == Paid;
            && (MaySetInterval(st, user, interval) <==> may)
            && (!may ==> c == st.configs)
            && (may ==>
                  && user in c && OthersSame(st.configs, c, user)
                  && c[user] == st.configs[user].(interval := Some(interval), sync := true))
  {
  }

  // ---------- Jobs ----------

  /** The hourly job connects the mailbox of every user with an active, unexpired plan, and
      no other. */
  lemma HourlyJobConnects(st: State, users: seq<UserId>, user: UserId)
    requires CanHappen(st, EnableStep(users)) && user in st.configs
    ensures var c := EnableFeatures(st.configs, users);
            && c.Keys == st.configs.Keys
            && (user in users ==>
                  && On(c[user]) && KeepsRest(st.configs[user], c[user])
                  && user in st.plans && st.plans[user].isActive && st.now < st.plans[user].expiredAt)
            && (user !in users ==> c[user] == st.configs[user])
  {
    hide EnableFeatures;
    ImapRuns.EnableRows(st.configs, users);
  }

  lemma HourlyJobTakes(st: State, user: UserId)
    requires user in st.plans && st.plans[user].isActive && st.now < st.plans[user].expiredAt
    ensures CanHappen(st, EnableStep([user]))
  {
  }

  // The notice is for this user.
  ghost predicate Listed(rows: seq<Notice>, user: UserId) {
    exists n :: n in rows && n.user == user
  }

  lemma DeactivateOneEnds(st: State, n: Notice, user: UserId)
    requires n.user in st.plans
    ensures var st' := DeactivateOne(st, n);
            && st' == st.(plans := st'.plans, configs := st'.configs, sessions := st'.sessions)
            && st'.plans.Keys == st.plans.Keys && st'.configs.Keys == st.configs.Keys
            && (user in st.plans ==>
                  st'.plans[user] == if user == n.user then st.plans[user].(isActive := false) else st.plans[user])
            && (user in st.configs && user == n.user ==>
                  Off(st'.configs[user]) && KeepsRest(st.configs[user], st'.configs[user]))
            && (user in st.configs && user != n.user ==> st'.configs[user] == st.configs[user])
  {
    hide EndPlan;
    PlanEnds(st, n.user, user);
  }

  lemma PlanEnds(st: State, ended: UserId, user: UserId)
    requires ended in st.plans
    ensures var st' := EndPlan(st, ended);
            && st' == st.(plans := st'.plans, configs := st'.configs)
            && st'.plans.Keys == st.plans.Keys && st'.configs.Keys == st.configs.Keys
            && (user in st.plans ==>
                  st'.plans[user] == if user == ended then st.plans[user].(isActive := false) else st.plans[user])
            && (user in st.configs && user == ended ==>
                  Off(st'.configs[user]) && KeepsRest(st.configs[user], st'.configs[user]))
            && (user in st.configs && user != ended ==> st'.configs[user] == st.configs[user])
  {
  }

  lemma {:induction false} MidnightPlans(st: State, rows: seq<Notice>, user: UserId)
    requires forall n :: n in rows ==> n.user in st.plans
    ensures var st' := DeactivateExpired(st, rows);
            && st' == st.(plans := st'.plans, configs := st'.configs, sessions := st'.sessions)
            && st'.plans.Keys == st.plans.Keys && st'.configs.Keys == st.configs.Keys
            && (user in st.plans ==>
                  st'.plans[user] ==
                  if Listed(rows, user) then st.plans[user].(isActive := false) else st.plans[user])
            && (user in st.configs && Listed(rows, user) ==>
                  Off(st'.configs[user]) && KeepsRest(st.configs[user], st'.configs[user]))
            && (user in st.configs && !Listed(rows, user) ==> st'.configs[user] == st.configs[user])
    decreases |rows|
  {
    hide DeactivateOne;
    if rows != [] {
      var front, last := rows[..|rows| - 1], rows[|rows| - 1];
      MidnightPlans(st, front, user);
      DeactivateOneEnds(DeactivateExpired(st, front), last, user);
      assert Listed(rows, user) <==> Listed(front, user) || last.user == user;
    }
  }

  /** The midnight job ends the listed plans, which are active and expired, switches their
      users' mailboxes off, and leaves everybody else's alone. */
  lemma MidnightEnds(st: State, rows: seq<Notice>, user: UserId)
    requires CanHappen(st, MidnightStep(rows)) && user in st.plans
    ensures var st' := Next(st, MidnightStep(rows));
            && user in st'.plans && st'.configs.Keys == st.configs.Keys
            && (Listed(rows, user) ==>
                  && st.plans[user].isActive && st.plans[user].expiredAt <= st.now
                  && st'.plans[user] == st.plans[user].(isActive := false)
                  && (user in st.configs ==>
                        Off(st'.configs[user]) && KeepsRest(st.configs[user], st'.configs[user])))
            && (!Listed(rows, user) ==>
                  && st'.plans[user] == st.plans[user]
                  && (user in st.configs ==> st'.configs[user] == st.configs[user]))
            && st'.histories == st.histories && st'.statuses == st.statuses && st'.invoices == st.invoices
  {
    hide DeactivateExpired, LatestHistory;
    MidnightPlans(st, rows, user);
  }

  lemma EndingKeepsSessions(st: State, user: UserId)
    requires user in st.plans
    ensures EndPlan(st, user).sessions == st.sessions
  {
  }

  /** For each of them whose notice gets a checkout it opens a session for the latest
      history, and no other session. */
  lemma {:induction false} MidnightOpens(st: State, rows: seq<Notice>, s: SessionId)
    requires ExpiredRows(st, rows)
    ensures var st' := DeactivateExpired(st, rows);
            && (forall n :: n in rows && n.checkout.Some? && n.checkout.value.id == s && n.latest.Some? ==>
                  s in st'.sessions
                  && st'.sessions[s] == Session(ForHistory(n.latest.value), n.checkout.value.payload))
            && (s in st'.sessions && s !in st.sessions ==>
                  exists n :: n in rows && n.checkout.Some? && n.checkout.value.id == s && n.latest.Some?)
            && (s in st.sessions ==> s in st'.sessions && st'.sessions[s] == st.sessions[s])
    decreases |rows|
  {
    hide LatestHistory, EndPlan;
    if rows != [] {
      var front, last := rows[..|rows| - 1], rows[|rows| - 1];
      BR.LastNotice(st, rows);
      EndingKeepsSessions(DeactivateExpired(st, front), last.user);
      MidnightOpens(st, front, s);
      assert forall n :: n in rows <==> n in front || n == last;
      assert forall n :: n in front ==> exists i :: 0 <= i < |front| && front[i] == n;
    }
  }

  /** And the job may list any user whose plan is active and has expired. */
  lemma MidnightTakes(st: State, n: Notice)
    requires n.user in st.plans && st.plans[n.user].isActive && st.plans[n.user].expiredAt <= st.now
    requires LatestHistory(st, n.user, n.latest) && FreshCheckout(st, n.checkout)
    ensures CanHappen(st, MidnightStep([n]))
  {
  }

  // ---------- Reading ----------

  ghost predicate PaidFor(st: State, latest: Option<HistoryId>)
    requires latest.Some? ==> latest.value in st.histories
  {
    && latest.Some? && st.histories[latest.value].terms.trialDays <= 0
    && latest.value in st.statuses && st.statuses[latest.value].status == Paid
  }

  // The user may read mail: an active, unexpired plan, and if the latest history is paid
  // and had no trial days, room in the month.
  ghost predicate Readable(st: State, user: UserId, r: Reading)
    requires r.latest.Some? ==> r.latest.value in st.histories
  {
    && user in st.plans && st.plans[user].isActive && st.now < st.plans[user].expiredAt
    && (st.plans[user].limited && PaidFor(st, r.latest) ==> r.thisMonth < st.plans[user].perMonth)
  }

  lemma ReadableIff(st: State, user: UserId, r: Reading)
    requires r.latest.Some? ==> r.latest.value in st.histories
    ensures MayRead(st, user, r) <==> Readable(st, user, r)
  {
    hide Calendar.CeilDays;
  }

  /** Reading fails if and only if it is not allowed, or the configured mailbox cannot be
      read; a login that fails reads as nothing and switches the connection off, and
      without a configuration there is nothing to read. */
  lemma ReadMailIff(st: State, user: UserId, r: Reading)
    requires r.latest.Some? ==> r.latest.value in st.histories
    ensures var (c, created) := ReadMail(st, user, r);
            && c.Keys == st.configs.Keys && OthersSame(st.configs, c, user)
            && (created == None <==> !Readable(st, user, r) || (user in st.configs && r.mailbox == Unreadable))
            && (forall n: nat :: created == Some(n) <==>
                  && Readable(st, user, r) && (user in st.configs ==> r.mailbox != Unreadable)
                  && n == if user in st.configs && r.mailbox.Read? then r.mailbox.created else 0)
            && (user in st.configs ==>
                  if Readable(st, user, r) && r.mailbox == LoginFailed
                  then Off(c[user]) && KeepsRest(st.configs[user], c[user]) else c[user] == st.configs[user])
  {
    hide MayRead, Readable;
    ReadableIff(st, user, r);
  }

  /** The cron job moves the date to now if and only if it may read and creates an invoice;
      and changes nothing else about the connection unless the login fails. Its history row
      tells of it. */
  lemma SyncJobIff(st: State, user: UserId, r: Reading)
    requires (r.latest.Some? ==> r.latest.value in st.histories) && user in st.configs
    ensures var c, row := RunSyncJob(st, user, r), st.configs[user];
            && c.Keys == st.configs.Keys && OthersSame(st.configs, c, user)
            && (if Readable(st, user, r) && r.mailbox == LoginFailed then Off(c[user]) && KeepsRest(row, c[user])
                else if Readable(st, user, r) && r.mailbox.Read? && r.mailbox.created >= 1
                then c[user] == row.(lastSync := c[user].lastSync) && c[user].lastSync == Some(st.now)
                else c[user] == row)
    ensures forall kind ::
              var record := RecordOf(st, user, kind, r);
              && record.user == user && record.kind == kind && record.at == st.now
              && (record.succeeded <==> Readable(st, user, r) && r.mailbox != Unreadable)
              && record.created == if Readable(st, user, r) && r.mailbox.Read? then r.mailbox.created else 0
  {
    hide MayRead, Readable;
    ReadableIff(st, user, r);
  }

  /** The manual synchronisation does the same, if the mailbox is connected and set to
      synchronise at an interval that the active plan allows, and the plan's month has room;
      otherwise it does nothing. */
  lemma SyncNowIff(st: State, user: UserId, r: Reading)
    requires r.latest.Some? ==> r.latest.value in st.histories
    ensures var may := user in st.plans && st.plans[user].isActive && user in st.configs
                       && st.configs[user].connect && st.configs[user].sync
                       && (exists i :: i in st.plans[user].intervals && st.configs[user].interval == Some(i))
                       && (st.plans[user].limited ==> r.thisMonth < st.plans[user].perMonth);
            && (may <==> MaySyncNow(st, user) && !AtLimit(st, user, r.thisMonth))
            && SyncEmails(st, user, r) == if may then RunSyncJob(st, user, r) else st.configs
  {
    hide ReadMail;
  }

  /** Resetting forgets the date; the next synchronisation reads from the row's creation. */
  lemma ResetForgetsDate(c: Configs, user: UserId)
    requires user in c
    ensures var c' := ResetLastSync(c, user);
            && user in c' && OthersSame(c, c', user)
            && c'[user] == c[user].(lastSync := None) && EffectiveSince(c'[user]) == c[user].createdAt
  {
  }
}
