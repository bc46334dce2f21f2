/** The registry of cron jobs: one mail synchronisation per user and the daily check of
    expiring trials. Jobs are objects that are started and stopped; the registry finds
    them by name. */
module Scheduler {
  import opened Wrappers
  import Billing

  type UserId = Billing.UserId

  datatype Task = SyncMail(user: UserId) | CheckTrials

  function JobName(t: Task): string {
    match t
    case SyncMail(user) => "sync_" + user
    case CheckTrials => "trial_expiry_check"
  }

  /** A job's name says what it does: no two users share one, and none is the name of the
      trial check. */
  lemma JobNamesDiffer(a: Task, b: Task)
    ensures JobName(a) == JobName(b) <==> a == b
  {
    assert JobName(CheckTrials)[0] == 't';
    assert forall u :: JobName(SyncMail(u))[0] == 's' && JobName(SyncMail(u))[5..] == u;
  }

  const TRIAL_CHECK_TIME := "0 9 * * *"

  // What is registered: the names of the jobs, each with its cron expression.
  type Schedule = map<string, string>

  // Where a user's job comes from: the selected interval, as far as the plan allows it
  // and the connection is on.
  function SelectedTime(st: Billing.State, times: map<Billing.IntervalId, string>, user: UserId): Option<string> {
    if Billing.MaySyncNow(st, user) && st.configs[user].interval.value in times
    then Some(times[st.configs[user].interval.value]) else None
  }

  function Setup(s: Schedule, st: Billing.State, times: map<Billing.IntervalId, string>, user: UserId): Schedule {
    var time := SelectedTime(st, times, user);
    if time.Some? then s[JobName(SyncMail(user)) := time.value] else s
  }

  function SetupAll(s: Schedule, st: Billing.State, times: map<Billing.IntervalId, string>,
                    users: seq<UserId>): Schedule
    decreases |users|
  {
    if users == [] then s else SetupAll(Setup(s, st, times, users[0]), st, times, users[1..])
  }

  class CronJob {
    const time: string
    const task: Task
    var running: bool

    constructor (time: string, task: Task)
      ensures this.time == time && this.task == task && !running
    {
      this.time, this.task, running := time, task, false;
    }

    method Start()
      modifies this
      ensures running
    {
      running := true;
    }

    method Stop()
      modifies this
      ensures !running
    {
      running := false;
    }
  }

  class CronConfig {
    var jobs: map<string, CronJob>
    ghost var made: set<CronJob>     // every job there ever was

    // The running jobs are exactly the registered ones, each under its own name.
    ghost predicate Valid()
      reads this, made
    {
      && (forall n :: n in jobs ==> jobs[n] in made && JobName(jobs[n].task) == n)
      && (forall j :: j in made ==> (j.running <==> JobName(j.task) in jobs && jobs[JobName(j.task)] == j))
    }

    ghost function View(): Schedule
      reads this, made
      requires Valid()
    {
      map n | n in jobs :: jobs[n].time
    }

    constructor ()
      ensures Valid() && View() == map[]
    {
      jobs, made := map[], {};
    }

    // The registry's addCronJob on a new job, started at once.
    method Add(task: Task, time: string)
      requires Valid() && JobName(task) !in jobs
      modifies this
      ensures Valid() && View() == old(View())[JobName(task) := time]
      ensures fresh(made - old(made)) && old(made) <= made
    {
      hide JobName;
      var job := new CronJob(time, task);
      assert job !in made;
      jobs := jobs[JobName(task) := job];
      made := made + {job};
      job.Start();
    }

    // Stops and deletes a job; an unknown name is only logged.
    method Remove(task: Task)
      requires Valid()
      modifies this`jobs, made
      ensures Valid() && View() == old(View()) - {JobName(task)} && jobs == old(jobs) - {JobName(task)}
    {
      hide JobName;
      var name := JobName(task);
      if name in jobs {
        var job := jobs[name];
        job.Stop();
        jobs := jobs - {name};
      }
    }

    method StopCronForUser(user: UserId)
      requires Valid()
      modifies this`jobs, made
      ensures Valid() && View() == old(View()) - {JobName(SyncMail(user))}
    {
      Remove(SyncMail(user));
    }

    method CreateCronForUser(user: UserId, cronTime: string)
      requires Valid()
      modifies this, made
      ensures Valid() && View() == old(View())[JobName(SyncMail(user)) := cronTime]
      ensures fresh(made - old(made)) && old(made) <= made
    {
      hide JobName;
      StopCronForUser(user);
      Add(SyncMail(user), cronTime);
    }

    method SetupCronForUser(st: Billing.State, times: map<Billing.IntervalId, string>, user: UserId)
      requires Valid()
      modifies this, made
      ensures Valid() && View() == Setup(old(View()), st, times, user)
      ensures fresh(made - old(made)) && old(made) <= made
    {
      if user !in st.plans || !st.plans[user].isActive {
        return;
      }
      if user !in st.configs || !st.configs[user].connect {
        return;
      }
      var interval := st.configs[user].interval;
      if !st.configs[user].sync || interval.None? || interval.value !in times {
        return;
      }
      if interval.value !in st.plans[user].intervals {
        return;
      }
      CreateCronForUser(user, times[interval.value]);
    }

    // At start-up, for the users with an active plan.
    method InitializeAllCronJobs(st: Billing.State, times: map<Billing.IntervalId, string>, users: seq<UserId>)
      requires Valid() && forall u :: u in users <==> Billing.ActivePlan(st, u)
      modifies this, made
      ensures Valid() && View() == SetupAll(old(View()), st, times, users)
      ensures fresh(made - old(made)) && old(made) <= made
    {
      assert users[0..] == users;
      for i := 0 to |users|
        invariant Valid() && fresh(made - old(made)) && old(made) <= made
        invariant SetupAll(View(), st, times, users[i..]) == SetupAll(old(View()), st, times, users)
      {
        assert users[i..][1..] == users[i + 1..];
        SetupCronForUser(st, times, users[i]);
      }
    }

    method SetupTrialExpiryNotificationCron()
      requires Valid()
      modifies this, made
      ensures Valid() && View() == old(View())[JobName(CheckTrials) := TRIAL_CHECK_TIME]
      ensures fresh(made - old(made)) && old(made) <= made
    {
      hide JobName;
      Remove(CheckTrials);
      Add(CheckTrials, TRIAL_CHECK_TIME);
    }

    // At shut-down: every job is stopped, and none stays registered.
    method OnModuleDestroy()
      requires Valid()
      modifies this`jobs, made
      ensures Valid() && View() == map[] && forall j :: j in made ==> !j.running
    {
      while |jobs| > 0
        invariant Valid()
        decreases jobs.Keys
      {
        var name :| name in jobs;
        var job := jobs[name];
        Remove(job.task);
      }
    }
  }
  // ---------- Any sequence of set-up, stop and shut-down ----------

  datatype Op =
    | SetupOp(st: Billing.State, times: map<Billing.IntervalId, string>, user: UserId)
    | StopOp(user: UserId)
    | InitializeOp(st: Billing.State, times: map<Billing.IntervalId, string>, users: seq<UserId>)
    | TrialOp
    | DestroyOp

  function Apply(s: Schedule, op: Op): Schedule {
    match op
    case SetupOp(st, times, user) => Setup(s, st, times, user)
    case StopOp(user) => s - {JobName(SyncMail(user))}
    case InitializeOp(st, times, users) => SetupAll(s, st, times, users)
    case TrialOp => s[JobName(CheckTrials) := TRIAL_CHECK_TIME]
    case DestroyOp => map[]
  }

  function ApplyAll(s: Schedule, ops: seq<Op>): Schedule {
    if ops == [] then s else Apply(ApplyAll(s, ops[..|ops| - 1]), ops[|ops| - 1])
  }

  lemma {:induction false} SetupAllGives(s: Schedule, st: Billing.State, times: map<Billing.IntervalId, string>,
                                         users: seq<UserId>, task: Task)
    ensures var s' := SetupAll(s, st, times, users); var n := JobName(task);
      if task.SyncMail? && task.user in users && SelectedTime(st, times, task.user).Some?
      then n in s' && Some(s'[n]) == SelectedTime(st, times, task.user)
      else (n in s' <==> n in s) && (n in s ==> s'[n] == s[n])
    decreases |users|
  {
    hide SelectedTime, JobName;
    if users != [] {
      SetupAllGives(Setup(s, st, times, users[0]), st, times, users[1..], task);
      JobNamesDiffer(task, SyncMail(users[0]));
    }
  }

  /** From an empty registry, start-up registers a job for exactly the users who may sync
      now, at the time they selected, and nothing else but the trial check. */
  lemma StartUpRegisters(st: Billing.State, times: map<Billing.IntervalId, string>, users: seq<UserId>, task: Task)
    requires forall u :: u in users <==> Billing.ActivePlan(st, u)
    ensures var s := ApplyAll(map[], [InitializeOp(st, times, users), TrialOp]); var n := JobName(task);
      if task.CheckTrials? then n in s && s[n] == "0 9 * * *"
      else
        var time := SelectedTime(st, times, task.user);
        (n in s <==> time.Some?) && (n in s ==> Some(s[n]) == time)
  {
    hide JobName;
    var first := [InitializeOp(st, times, users)];
    var ops := first + [TrialOp];
    var s := SetupAll(map[], st, times, users);
    assert ops[..1] == first && first[..0] == [];
    assert ApplyAll(map[], first) == s;
    assert ApplyAll(map[], ops) == s[JobName(CheckTrials) := TRIAL_CHECK_TIME];
    SetupAllGives(map[], st, times, users, task);
    JobNamesDiffer(task, CheckTrials);
    assert task.SyncMail? && SelectedTime(st, times, task.user).Some? ==> Billing.ActivePlan(st, task.user);
  }

  /** A user has a time to be scheduled at if and only if their active plan allows the
      interval they selected, that has a time, and the mailbox is connected and set to
      synchronise. */
  lemma SelectedTimeIff(st: Billing.State, times: map<Billing.IntervalId, string>, user: UserId, time: string)
    ensures SelectedTime(st, times, user) == Some(time) <==>
      && user in st.plans && st.plans[user].isActive
      && user in st.configs && st.configs[user].connect && st.configs[user].sync
      && exists i :: i in st.plans[user].intervals && i in times && times[i] == time
                     && st.configs[user].interval == Some(i)
  {
  }

  // The last operation that decides about a user's job.
  predicate Decides(op: Op, user: UserId) {
    match op
    case SetupOp(st, times, u) => u == user && SelectedTime(st, times, user).Some?
    case StopOp(u) => u == user
    case InitializeOp(st, times, users) => user in users && SelectedTime(st, times, user).Some?
    case TrialOp => false
    case DestroyOp => true
  }

  ghost predicate LastToDecide(ops: seq<Op>, i: nat, user: UserId)
    requires i < |ops|
  {
    Decides(ops[i], user) && forall k :: i < k < |ops| ==> !Decides(ops[k], user)
  }

  /** A user is scheduled if and only if the last operation that decided about them set
      them up. Setting up a user who is not allowed to sync decides nothing: a job they
      already have goes on. */
  lemma {:induction false} LastDecisionCounts(ops: seq<Op>, user: UserId)
    ensures JobName(SyncMail(user)) in ApplyAll(map[], ops) <==>
      exists i :: 0 <= i < |ops| && LastToDecide(ops, i, user) && !ops[i].StopOp? && !ops[i].DestroyOp?
  {
    hide SelectedTime, JobName, Decides;
    if ops != [] {
      var last, before := |ops| - 1, ops[..|ops| - 1];
      LastDecisionCounts(before, user);
      OneDecision(ApplyAll(map[], before), ops[last], user);
      assert LastToDecide(ops, last, user) == Decides(ops[last], user);
      forall i | 0 <= i < last
        ensures LastToDecide(ops, i, user) <==> !Decides(ops[last], user) && LastToDecide(before, i, user)
      {
        assert forall k :: i < k < last ==> before[k] == ops[k];
      }
    }
  }

  lemma OneDecision(s: Schedule, op: Op, user: UserId)
    ensures JobName(SyncMail(user)) in Apply(s, op) <==>
      if Decides(op, user) then !op.StopOp? && !op.DestroyOp? else JobName(SyncMail(user)) in s
  {
    hide SelectedTime, JobName;
    match op
    case SetupOp(st, times, u) => JobNamesDiffer(SyncMail(user), SyncMail(u));
    case StopOp(u) => JobNamesDiffer(SyncMail(user), SyncMail(u));
    case InitializeOp(st, times, users) => SetupAllGives(s, st, times, users, SyncMail(user));
    case TrialOp => JobNamesDiffer(SyncMail(user), CheckTrials);
    case DestroyOp =>
  }
}
