/** Who gets in: when a login succeeds, which password it takes, and that every login goes
    back to a password that was given. */
module Passwords {
  import opened Wrappers
  import opened OneTimeCodes
  import opened OneTimeCodeRuns
  import OneTimeCodeLaws

  // The address belongs to this user, who exists, is not deleted and has this password.
  predicate RightPassword(st: State, email: Email, user: UserId, password: string) {
    && email in st.emails && st.emails[email] == user
    && user in st.users && !st.users[user].deleted && st.users[user].password == password
  }

  // ---------- One login ----------

  /** A login succeeds at once if and only if the password is right and two-factor login is
      off; a code is mailed if and only if it is right and two-factor login is on. Nothing
      changes but that a code which cannot be used any more is replaced. */
  lemma LogInIff(st: State, email: Email, password: string, code: int, user: UserId)
    ensures var (st', reply) := LogIn(st, email, password, code);
            && (reply == LoggedIn(user) <==>
                  RightPassword(st, email, user, password) && !st.users[user].twoFactor)
            && (reply == CodeSent && email in st.emails && st.emails[email] == user <==>
                  RightPassword(st, email, user, password) && st.users[user].twoFactor)
            && (reply.Refused? || reply.CodeSent? || reply.LoggedIn?)
            && (reply != CodeSent ==> st' == st)
            && (reply == CodeSent ==>
                  && email in st.emails
                  && st' == st.(redis := st'.redis, journal := st'.journal, origins := st'.origins)
                  && Login(email) in st'.redis && st'.redis - {Login(email)} == st.redis - {Login(email)}
                  && st'.redis[Login(email)] ==
                     if Login(email) in st.redis && st.now < st.redis[Login(email)].expiresAt
                     then st.redis[Login(email)]
                     else Entry(Payload(code, 0, st.now, Some(st.emails[email])), st.now + 300_000))
  {
  }

  /** A code lets in only a user who exists and has an address. */
  lemma CodeLogsInUser(st: State, email: Email, code: int, user: UserId)
    ensures VerifyLogin(st, email, code).1 == LoggedIn(user) ==>
              user in st.users && exists e :: e in st.emails && st.emails[e] == user
  {
  }

  /** A new account is let in at once, with the password it was made with and no other. */
  lemma NewAccountLogsIn(st: State, email: Email, token: Token, password: string, user: UserId, tried: string,
                         code: int)
    requires CompleteRegistration(st, email, token, password, user).1 == Created(user)
    ensures var st' := CompleteRegistration(st, email, token, password, user).0;
            LogIn(st', email, tried, code).1 == LoggedIn(user) <==> tried == password
  {
  }

  // ---------- Every login ----------

  // The state after a sequence of steps.
  function After(st: State, steps: seq<Step>): State {
    if steps == [] then st else Next(After(st, steps[..|steps| - 1]), steps[|steps| - 1]).0
  }

  lemma {:induction false} AfterIsRun(st: State, steps: seq<Step>, st': State)
    requires Run(st, steps, st')
    ensures st' == After(st, steps)
    decreases |steps|
  {
    hide Next, CanHappen;
    if steps != [] {
      AfterIsRun(Next(st, steps[0]).0, steps[1..], st');
      AfterFirst(st, steps);
    }
  }

  lemma {:induction false} AfterFirst(st: State, steps: seq<Step>)
    requires steps != []
    ensures After(st, steps) == After(Next(st, steps[0]).0, steps[1..])
    decreases |steps|
  {
    hide Next;
    var front := steps[..|steps| - 1];
    if front == [] {
      assert steps[1..] == [];
    } else {
      AfterFirst(st, front);
      assert front[1..] == steps[1..][..|steps[1..]| - 1];
    }
  }

  // The i-th step gave the right password of a two-factor user, for this code.
  predicate GaveAt(st0: State, steps: seq<Step>, i: nat, email: Email, user: UserId, code: int) {
    && i < |steps| && steps[i].LogInStep? && steps[i].email == email && steps[i].code == code
    && RightPassword(After(st0, steps[..i]), email, user, steps[i].password)
    && After(st0, steps[..i]).users[user].twoFactor
  }

  // A stored login code is the one of the step before, or that step stored it for
  // whoever gave the right password.
  lemma LoginEntryFrom(st: State, step: Step, email: Email)
    requires Login(email) in Next(st, step).0.redis
    ensures var entry, k := Next(st, step).0.redis[Login(email)], Login(email);
            || (k in st.redis && SameCode(st.redis[k], entry))
            || (step.LogInStep? && step.email == email && entry.value.Payload? && entry.value.code == step.code
                && entry.value.user.Some? && RightPassword(st, email, entry.value.user.value, step.password)
                && st.users[entry.value.user.value].twoFactor)
  {
    match step
    case LogInStep(_, _, _) =>
    case VerifyRegistrationStep(e, code, _) =>
      hide TryCode;
      TryKeepsCode(st, Registration(e), code, email);
    case VerifyLoginStep(e, code) =>
      hide TryCode;
      TryKeepsCode(st, Login(e), code, email);
    case _ => OtherStepKeepsCode(st, step, email);
  }

  lemma TryKeepsCode(st: State, k: Key, code: int, email: Email)
    ensures var redis := TryCode(st, k, code).0.redis;
            Login(email) in redis ==> Login(email) in st.redis && SameCode(st.redis[Login(email)], redis[Login(email)])
  {
  }

  lemma OtherStepKeepsCode(st: State, step: Step, email: Email)
    requires !step.LogInStep? && !step.VerifyRegistrationStep? && !step.VerifyLoginStep?
    ensures var redis := Next(st, step).0.redis;
            Login(email) in redis ==> Login(email) in st.redis && redis[Login(email)] == st.redis[Login(email)]
  {
  }

  predicate SameCode(a: Entry, b: Entry) {
    a.value.Payload? && b.value.Payload? ==> a.value.code == b.value.code && a.value.user == b.value.user
  }

  lemma {:induction false} CodesWereEarned(st0: State, steps: seq<Step>, email: Email)
    requires Login(email) !in st0.redis
    requires forall n :: 0 <= n <= |steps| ==> CountsTries(After(st0, steps[..n]), email)
    requires Login(email) in After(st0, steps).redis
    ensures var v := After(st0, steps).redis[Login(email)].value;
            v.Payload? && v.user.Some? && exists i: nat :: GaveAt(st0, steps, i, email, v.user.value, v.code)
    decreases |steps|
  {
    hide Next, RightPassword;
    assert steps[..|steps|] == steps;
    if steps != [] {
      var front, last := steps[..|steps| - 1], steps[|steps| - 1];
      var v := After(st0, steps).redis[Login(email)].value;
      LoginEntryFrom(After(st0, front), last, email);
      assert forall n :: 0 <= n <= |front| ==> front[..n] == steps[..n];
      if Login(email) in After(st0, front).redis && SameCode(After(st0, front).redis[Login(email)],
                                                             After(st0, steps).redis[Login(email)]) {
        CodesWereEarned(st0, front, email);
        var i: nat :| GaveAt(st0, front, i, email, v.user.value, v.code);
        assert GaveAt(st0, steps, i, email, v.user.value, v.code);
      } else {
        assert GaveAt(st0, steps, |front|, email, v.user.value, v.code);
      }
    }
  }

  // A stored login code counts its tries.
  predicate CountsTries(st: State, email: Email) {
    Login(email) in st.redis ==> st.redis[Login(email)].value.Payload?
  }

  lemma {:induction false} LoginEntriesCount(st0: State, steps: seq<Step>, st: State, email: Email)
    requires Initial(st0) && Run(st0, steps, st)
    ensures forall n :: 0 <= n <= |steps| ==> CountsTries(After(st0, steps[..n]), email)
  {
    hide Run, Initial, CountsTries;
    forall n | 0 <= n <= |steps|
      ensures CountsTries(After(st0, steps[..n]), email)
    {
      var mid := RunPrefix(st0, steps, st, n);
      AfterIsRun(st0, steps[..n], mid);
      CodeCounts(st0, steps[..n], mid, email);
    }
  }

  lemma {:induction false} RunPrefix(st: State, steps: seq<Step>, st': State, n: nat) returns (mid: State)
    requires Run(st, steps, st') && n <= |steps|
    ensures Run(st, steps[..n], mid)
    decreases |steps|
  {
    hide Next, CanHappen;
    if n == 0 {
      mid := st;
    } else {
      mid := RunPrefix(Next(st, steps[0]).0, steps[1..], st', n - 1);
      assert steps[..n][1..] == steps[1..][..n - 1];
    }
  }

  lemma CodeCounts(st0: State, steps: seq<Step>, st: State, email: Email)
    requires Initial(st0) && Run(st0, steps, st)
    ensures CountsTries(st, email)
  {
    hide Run, Tally, LastTouch;
    OneTimeCodeLaws.InitialInv(st0);
    OneTimeCodeLaws.RunKeepsInv(st0, steps, st);
    if Login(email) in st.redis {
      assert EntryOk(st, Login(email), st.redis[Login(email)], st.origins[Login(email)]);
    }
  }

  /** Whoever gets in has given that user's password: in this very step, with two-factor
      login off, or in an earlier one that it was on for, with the code that was tried now
      and the same address. */
  lemma EveryLoginGavePassword(st0: State, steps: seq<Step>, st: State, step: Step, user: UserId)
    requires Initial(st0) && Run(st0, steps, st) && Next(st, step).1 == LoggedIn(user)
    ensures (step.LogInStep? && RightPassword(st, step.email, user, step.password) && !st.users[user].twoFactor)
            || (step.VerifyLoginStep? && step.email in st.emails && st.emails[step.email] == user
                && exists i: nat :: GaveAt(st0, steps, i, step.email, user, step.code))
  {
    hide Run, Initial;
    match step
    case LogInStep(email, password, code) => LogInIff(st, email, password, code, user);
    case VerifyLoginStep(email, code) =>
      AfterIsRun(st0, steps, st);
      LoginEntriesCount(st0, steps, st, email);
      NoEntryAtFirst(st0, email);
      CodesWereEarned(st0, steps, email);
      OneTimeCodeLaws.LoginCodeLogsInOwner(st0, steps, st, email, code);
    case _ =>
  }

  lemma NoEntryAtFirst(st0: State, email: Email)
    requires Initial(st0)
    ensures Login(email) !in st0.redis
  {
  }

  // ---------- Which password ----------

  // The password that a step gives a user: that of a new account, or the one a reset
  // token for the user was used with.
  function Given(st: State, step: Step, user: UserId): Option<string> {
    match step
    case CompleteStep(_, _, password, u) =>
      if u == user && Next(st, step).1 == Created(user) then Some(password) else None
    case ChangePasswordStep(token, password) =>
      var k := ResetToken(token);
      if Next(st, step).1 == Done && k in st.redis && st.redis[k].value == Names(user) then Some(password) else None
    case _ => None
  }

  // The password given last, or the one at the start.
  function LastGiven(st0: State, steps: seq<Step>, user: UserId): Option<string> {
    if steps == [] then (if user in st0.users then Some(st0.users[user].password) else None)
    else
      var front, last := steps[..|steps| - 1], steps[|steps| - 1];
      if Given(After(st0, front), last, user).Some? then Given(After(st0, front), last, user)
      else LastGiven(st0, front, user)
  }

  lemma StepGivesPassword(st: State, step: Step, user: UserId)
    ensures var st' := Next(st, step).0;
            && (Given(st, step, user).Some? ==>
                  user in st'.users && st'.users[user].password == Given(st, step, user).value)
            && (Given(st, step, user).None? ==>
                  && (user in st'.users <==> user in st.users)
                  && (user in st.users ==> st'.users[user].password == st.users[user].password))
  {
  }

  lemma {:induction false} PasswordIsLastGiven(st0: State, steps: seq<Step>, user: UserId)
    ensures var st := After(st0, steps);
            LastGiven(st0, steps, user) == if user in st.users then Some(st.users[user].password) else None
    decreases |steps|
  {
    hide Next, Given;
    if steps != [] {
      var front, last := steps[..|steps| - 1], steps[|steps| - 1];
      PasswordIsLastGiven(st0, front, user);
      StepGivesPassword(After(st0, front), last, user);
    }
  }

  /** Over any run a login with a user's address is refused unless it has the password that
      was given last: at registration, or with the user's reset token. With that one it is
      refused only if the user is deleted. */
  lemma LoginTakesLastPassword(st0: State, steps: seq<Step>, st: State, email: Email, password: string, code: int)
    requires Run(st0, steps, st) && email in st.emails && st.emails[email] in st.users
    ensures LogIn(st, email, password, code).1 != Refused <==>
            !st.users[st.emails[email]].deleted && LastGiven(st0, steps, st.emails[email]) == Some(password)
  {
    hide Run;
    AfterIsRun(st0, steps, st);
    PasswordIsLastGiven(st0, steps, st.emails[email]);
  }
}
