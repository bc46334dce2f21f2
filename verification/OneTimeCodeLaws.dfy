/** Every handler keeps the invariant of OneTimeCodeRuns, and what follows for whole
    runs that start with an empty Redis. */
module OneTimeCodeLaws {
  import opened Wrappers
  import opened OneTimeCodes
  import opened OneTimeCodeRuns

  // ---------- Steps ----------

  lemma TablesGrow(st: State, st': State)
    requires Inv(st) && Grows(st.emails, st'.emails) && OwnersExist(st')
    requires st' == st.(users := st'.users, emails := st'.emails, now := st'.now) && st.now <= st'.now
    ensures Inv(st')
  {
    hide Tally, LastTouch;
    forall i | 0 <= i < |st.journal|
      ensures EventOk(st.journal[..i], st.journal[i], st'.emails)
    {
      assert EventOk(st.journal[..i], st.journal[i], st.emails);
    }
    forall k | k in st.redis
      ensures EntryOk(st', k, st.redis[k], st.origins[k])
    {
      assert EntryOk(st, k, st.redis[k], st.origins[k]);
    }
    SameCounts(st, st');
  }

  lemma SameCounts(st: State, st': State)
    requires CountsOk(st) && st'.journal == st.journal && st'.redis == st.redis
    ensures CountsOk(st')
  {
  }

  lemma TryKeeps(st: State, k: Key, code: int)
    requires Inv(st) && Limit(k) > 0
    ensures Inv(TryCode(st, k, code).0)
    ensures TryCode(st, k, code).1 == Done ==>
      && TryCode(st, k, code).0 == st && Live(st, k)
      && st.redis[k].value.Payload? && st.redis[k].value.attempts < Limit(k)
  {
    hide Inv, Miss, Drop;
    if Live(st, k) && st.redis[k].value.Payload? {
      if st.redis[k].value.attempts >= Limit(k) {
        DropKeeps(st, k);
      } else if st.redis[k].value.code != code {
        MissKeeps(st, k);
      }
    }
  }

  lemma VerifyRegistrationKeeps(st: State, email: Email, code: int, token: Token)
    requires Inv(st)
    ensures Inv(VerifyRegistrationOtp(st, email, code, token).0)
  {
    hide Inv;
    var k := Registration(email);
    TryKeeps(st, k, code);
    if TryCode(st, k, code).1 == Done {
      hide TryCode;
      AcceptKeeps(st, k);
      TokenKeeps(Accept(st, k), VerifiedEmail(token), email, VERIFIED_TTL, |st.journal|);
    }
  }

  lemma VerifyLoginKeeps(st: State, email: Email, code: int)
    requires Inv(st)
    ensures Inv(VerifyLogin(st, email, code).0)
  {
    hide Inv;
    var k := Login(email);
    TryKeeps(st, k, code);
    if TryCode(st, k, code).1 == Done { AcceptKeeps(st, k); }
  }

  lemma VerifyToggleKeeps(st: State, user: UserId, code: int)
    requires Inv(st)
    ensures Inv(VerifyTwoFA(st, user, code).0)
  {
    hide Tally, LastTouch, JournalOk, Once, Links, EntriesOk, CountsOk;
    var k := Toggle(user);
    if user in st.users && BareMatches(st, k, code) {
      AcceptKeeps(st, k);
      TablesGrow(Accept(st, k), SwitchTwoFactor(Accept(st, k), user));
    }
  }

  lemma VerifyResetKeeps(st: State, email: Email, code: int, token: Token)
    requires Inv(st)
    ensures Inv(VerifyForgetPassCode(st, email, code, token).0)
  {
    var k := Reset(email);
    if email in st.emails && BareMatches(st, k, code) {
      AcceptKeeps(st, k);
      hide Inv, JournalOk;
      TokenKeeps(Accept(st, k), ResetToken(token), st.emails[email], CODE_TTL, |st.journal|);
    }
  }

  lemma CompleteKeeps(st: State, email: Email, token: Token, password: string, user: UserId)
    requires Inv(st) && user !in st.users
    ensures Inv(CompleteRegistration(st, email, token, password, user).0)
  {
    hide Tally, LastTouch, CountsOk, JournalOk;
    var k := VerifiedEmail(token);
    if Live(st, k) && st.redis[k].value == Names(email) && email !in st.emails {
      var st' := AddUser(st, user, email, password);
      TablesGrow(st, st');
      assert EntryOk(st, k, st.redis[k], st.origins[k]);
      var e := Registered(user, email, st.origins[k], st.now);
      NewAccount(st, e);
      SpendKeeps(st', k, e);
    }
  }

  // A new user's event clashes with no earlier one.
  lemma NewAccount(st: State, e: Event)
    requires Inv(st) && e.Registered? && e.user !in st.users && e.email !in st.emails
    requires exists k :: k in st.origins && st.origins[k] == e.proof
    ensures forall i :: 0 <= i < |st.journal| ==> !Clash(st.journal[i], e)
  {
  }

  lemma ChangePasswordKeeps(st: State, token: Token, password: string)
    requires Inv(st)
    ensures Inv(ChangePassword(st, token, password).0)
  {
    hide Tally, LastTouch, CountsOk, JournalOk;
    var k := ResetToken(token);
    if Live(st, k) && st.redis[k].value.Names? && st.redis[k].value.subject in st.users {
      var user := st.redis[k].value.subject;
      var st' := SetPassword(st, user, password);
      TablesGrow(st, st');
      assert EntryOk(st, k, st.redis[k], st.origins[k]);
      SpendKeeps(st', k, PasswordChanged(user, st.origins[k], st.now));
    }
  }

  lemma StepKeepsInv(st: State, step: Step)
    requires Inv(st) && CanHappen(st, step)
    ensures Inv(Next(st, step).0)
  {
    hide JournalOk, Once, EntriesOk, Links, CountsOk;
    match step
    case TickStep(to) => TablesGrow(st, st.(now := to));
    case SendRegistrationStep(email, code) =>
      IssueKeeps(st, Registration(email), Payload(code, 0, st.now, None));
    case VerifyRegistrationStep(email, code, token) => VerifyRegistrationKeeps(st, email, code, token);
    case CompleteStep(email, token, password, user) => CompleteKeeps(st, email, token, password, user);
    case LogInStep(email, password, code) =>
      if email in st.emails {
        IssueKeeps(st, Login(email), Payload(code, 0, st.now, Some(st.emails[email])));
      }
    case VerifyLoginStep(email, code) => VerifyLoginKeeps(st, email, code);
    case SendToggleStep(user, code) => IssueKeeps(st, Toggle(user), Bare(code));
    case VerifyToggleStep(user, code) => VerifyToggleKeeps(st, user, code);
    case SendResetStep(email, code) => IssueKeeps(st, Reset(email), Bare(code));
    case VerifyResetStep(email, code, token) => VerifyResetKeeps(st, email, code, token);
    case ChangePasswordStep(token, password) => ChangePasswordKeeps(st, token, password);
  }

  lemma {:induction false} RunKeepsInv(st: State, steps: seq<Step>, st': State)
    requires Inv(st) && Run(st, steps, st')
    ensures Inv(st')
    decreases |steps|
  {
    hide Inv, Next;
    if steps != [] {
      StepKeepsInv(st, steps[0]);
      RunKeepsInv(Next(st, steps[0]).0, steps[1..], st');
    }
  }

  lemma InitialInv(st: State)
    requires Initial(st)
    ensures Inv(st)
  {
  }

  // ---------- The life of a code ----------

  // The longest a code can last: every counted try but the last may renew it.
  function MaxLife(k: Key): int {
    match k
    case Registration(_) => 900 * SECOND
    case Login(_) => 1500 * SECOND
    case _ => 300 * SECOND
  }

  /** A code is accepted only after it was issued for the very same purpose, fewer than
      3 (registration) or 5 (login) times after a miss, and within five minutes for
      every miss it has had and five more: 15 or 25 minutes in all. */
  lemma AcceptedInTime(st0: State, steps: seq<Step>, st: State, i: nat)
    requires Initial(st0) && Run(st0, steps, st) && i < |st.journal| && st.journal[i].Accepted?
    ensures var e := st.journal[i]; var misses := Tally(st.journal[..i], OfMiss(e.issue));
      && e.issue < i && Bears(st.journal[e.issue], OfIssue(e.key))
      && (Limit(e.key) > 0 ==> misses < Limit(e.key))
      && Within(st.journal[e.issue].at, e.at, Lifetime(e.key, misses))
      && Within(st.journal[e.issue].at, e.at, MaxLife(e.key))
  {
    hide Tally, LastTouch;
    InitialInv(st0);
    RunKeepsInv(st0, steps, st);
    assert EventOk(st.journal[..i], st.journal[i], st.emails);
  }

  /** No code is accepted twice; no token lets two accounts or passwords through. */
  lemma UsedOnce(st0: State, steps: seq<Step>, st: State, i: nat, i': nat)
    requires Initial(st0) && Run(st0, steps, st) && i < i' < |st.journal|
    ensures Consumes(st.journal[i]).Some? ==> Consumes(st.journal[i]) != Consumes(st.journal[i'])
  {
    InitialInv(st0);
    RunKeepsInv(st0, steps, st);
    assert !Clash(st.journal[i], st.journal[i']);
  }

  /** Codes of one kind are never accepted more often than they are issued, and a code
      that can still be used is one that was not. */
  lemma AcceptedAtMostIssued(st0: State, steps: seq<Step>, st: State, k: Key)
    requires Initial(st0) && Run(st0, steps, st) && !k.VerifiedEmail? && !k.ResetToken?
    ensures Tally(st.journal, OfAcceptance(k)) + Present(st, k) <= Tally(st.journal, OfIssue(k))
  {
    InitialInv(st0);
    RunKeepsInv(st0, steps, st);
  }

  // ---------- Where accounts and passwords come from ----------

  // Events c, a and u: a code issued for k, its acceptance, what its token was used for.
  predicate Traced(j: seq<Event>, c: nat, a: nat, u: nat, k: Key) {
    && c < a < u < |j| && Bears(j[c], OfIssue(k)) && Bears(j[a], OfAcceptance(k))
    && Consumes(j[a]) == Some(c) && Consumes(j[u]) == Some(a)
  }

  /** Every account made by registration goes back to one accepted code issued to that
      address, at most 25 minutes earlier, and the address is still the account's. */
  lemma AccountsAreVerified(st0: State, steps: seq<Step>, st: State, u: nat) returns (c: nat, a: nat)
    requires Initial(st0) && Run(st0, steps, st) && u < |st.journal| && st.journal[u].Registered?
    ensures var e := st.journal[u];
      && Traced(st.journal, c, a, u, Registration(e.email))
      && Within(st.journal[c].at, e.at, MaxLife(Registration(e.email)) + VERIFIED_TTL)
      && e.email in st.emails && st.emails[e.email] == e.user && e.user in st.users
  {
    hide Tally, LastTouch;
    InitialInv(st0);
    RunKeepsInv(st0, steps, st);
    assert EventOk(st.journal[..u], st.journal[u], st.emails);
    a := st.journal[u].proof;
    AcceptedInTime(st0, steps, st, a);
    c := st.journal[a].issue;
  }

  /** Every new password goes back to one accepted code issued to that user's address,
      at most ten minutes earlier. */
  lemma PasswordsAreVerified(st0: State, steps: seq<Step>, st: State, u: nat) returns (c: nat, a: nat)
    requires Initial(st0) && Run(st0, steps, st) && u < |st.journal| && st.journal[u].PasswordChanged?
    ensures var e := st.journal[u]; a < |st.journal| && st.journal[a].Accepted? && var k := st.journal[a].key;
      && k.Reset? && Traced(st.journal, c, a, u, k)
      && k.email in st.emails && st.emails[k.email] == e.user && e.user in st.users
      && Within(st.journal[c].at, e.at, 2 * CODE_TTL)
  {
    hide Tally, LastTouch;
    InitialInv(st0);
    RunKeepsInv(st0, steps, st);
    assert EventOk(st.journal[..u], st.journal[u], st.emails);
    a := st.journal[u].proof;
    AcceptedInTime(st0, steps, st, a);
    c := st.journal[a].issue;
  }

  /** Two accounts, or two new passwords, never go back to the same code. */
  lemma TracesAreDistinct(st0: State, steps: seq<Step>, st: State,
                          c: nat, a: nat, u: nat, k: Key, c': nat, a': nat, u': nat, k': Key)
    requires Initial(st0) && Run(st0, steps, st)
    requires Traced(st.journal, c, a, u, k) && Traced(st.journal, c', a', u', k') && u != u'
    ensures a != a' && c != c'
    ensures st.journal[u].Registered? && st.journal[u'].Registered? ==>
      st.journal[u].user != st.journal[u'].user && st.journal[u].email != st.journal[u'].email
  {
    hide Run, Tally;
    InitialInv(st0);
    RunKeepsInv(st0, steps, st);
    var (x, y) := if u < u' then (u, u') else (u', u);
    assert !Clash(st.journal[x], st.journal[y]);
    var (v, w) := if a < a' then (a, a') else (a', a);
    assert v < w ==> !Clash(st.journal[v], st.journal[w]);
  }

  // The journal of st' goes on from that of st, and says so if u is new or has a new
  // password.
  ghost predicate Explained(st: State, st': State, u: UserId) {
    && st.journal <= st'.journal
    && (u in st.users ==> u in st'.users)
    && ((u in st.users ==> st.users[u].password != st'.users[u].password) && u in st'.users ==>
          exists i :: |st.journal| <= i < |st'.journal| && AboutAccount(st'.journal[i], u))
  }

  predicate AboutAccount(e: Event, u: UserId) {
    (e.Registered? || e.PasswordChanged?) && e.user == u
  }

  lemma StepExplains(st: State, step: Step, u: UserId)
    requires CanHappen(st, step)
    ensures Explained(st, Next(st, step).0, u)
  {
    StepLogs(st, step);
    AccountsChangeOpenly(st, step, u);
  }

  lemma AccountsChangeOpenly(st: State, step: Step, u: UserId)
    requires CanHappen(st, step)
    ensures var st' := Next(st, step).0;
      && (u in st.users ==> u in st'.users)
      && (u in st'.users && (u in st.users ==> st'.users[u].password != st.users[u].password) ==>
            |st'.journal| > |st.journal| && AboutAccount(st'.journal[|st.journal|], u))
  {
  }

  /** Within the modelled handlers every account that appears, and every password that
      is not what it was, has a registration or a reset in the journal. */
  lemma {:induction false} EveryChangeExplained(st: State, steps: seq<Step>, st': State, u: UserId)
    requires Run(st, steps, st')
    ensures Explained(st, st', u)
    decreases |steps|
  {
    hide Next;
    if steps != [] {
      var mid := Next(st, steps[0]).0;
      StepExplains(st, steps[0], u);
      EveryChangeExplained(mid, steps[1..], st', u);
      Chain(st, mid, st', u);
    }
  }

  lemma Chain(st: State, mid: State, st': State, u: UserId)
    requires Explained(st, mid, u) && Explained(mid, st', u)
    ensures Explained(st, st', u)
  {
  }

  // ---------- Two-factor login ----------

  function HasTwoFactor(st: State, u: UserId): bool {
    u in st.users && st.users[u].twoFactor
  }

  predicate LogsAtMostOne(j: seq<Event>, j': seq<Event>) {
    j' == j || (|j'| == |j| + 1 && j' == j + [j'[|j|]])
  }

  // What trying a code can log, and what it leaves alone.
  lemma TryLogs(st: State, k: Key, code: int)
    ensures var st' := TryCode(st, k, code).0;
      && st'.users == st.users && st'.emails == st.emails && st'.now == st.now
      && LogsAtMostOne(st.journal, st'.journal) && (|st'.journal| > |st.journal| ==> st'.journal[|st.journal|].Missed?)
  {
    hide Put, Drop;
    TryFrame(st, k, code);
  }

  lemma TryFrame(st: State, k: Key, code: int)
    ensures var st' := TryCode(st, k, code).0;
      && st'.users == st.users && st'.emails == st.emails && st'.now == st.now
      && (st'.journal == st.journal || exists e: Event :: e.Missed? && st'.journal == st.journal + [e])
  {
  }

  // A step logs one event or none.
  lemma StepLogs(st: State, step: Step)
    ensures LogsAtMostOne(st.journal, Next(st, step).0.journal)
  {
    hide TryCode;
    match step
    case VerifyRegistrationStep(email, code, token) => TryLogs(st, Registration(email), code);
    case VerifyLoginStep(email, code) => TryLogs(st, Login(email), code);
    case _ =>
  }

  // Only the verify handler of the switch flips it ...
  lemma OnlyVerifyFlips(st: State, step: Step, u: UserId)
    requires CanHappen(st, step) && !step.VerifyToggleStep?
    ensures HasTwoFactor(Next(st, step).0, u) == HasTwoFactor(st, u)
  {
    hide TryCode;
    match step
    case VerifyRegistrationStep(email, code, token) => TryLogs(st, Registration(email), code);
    case VerifyLoginStep(email, code) => TryLogs(st, Login(email), code);
    case _ =>
  }

  // ... and accepts its codes.
  lemma OnlyVerifyAccepts(st: State, step: Step, u: UserId)
    requires !step.VerifyToggleStep?
    ensures var j, j' := st.journal, Next(st, step).0.journal;
      |j'| > |j| ==> !Bears(j'[|j|], OfAcceptance(Toggle(u)))
  {
    hide TryCode;
    match step
    case VerifyRegistrationStep(email, code, token) => TryLogs(st, Registration(email), code);
    case VerifyLoginStep(email, code) => TryLogs(st, Login(email), code);
    case _ =>
  }

  lemma StepTogglesTwoFactor(st: State, step: Step, u: UserId)
    requires CanHappen(st, step)
    ensures var st' := Next(st, step).0;
            var m := OfAcceptance(Toggle(u));
            var n := Tally(st'.journal, m) - Tally(st.journal, m);
      0 <= n <= 1 && (HasTwoFactor(st', u) != HasTwoFactor(st, u) <==> n == 1)
  {
    hide Tally, Next, HasTwoFactor;
    var st' := Next(st, step).0;
    StepLogs(st, step);
    if |st'.journal| > |st.journal| {
      TallyLog(st.journal, st'.journal[|st.journal|], OfAcceptance(Toggle(u)));
    }
    if step.VerifyToggleStep? {
      VerifySwitches(st, step.user, step.code, u);
    } else {
      OnlyVerifyFlips(st, step, u);
      OnlyVerifyAccepts(st, step, u);
    }
  }

  lemma VerifySwitches(st: State, user: UserId, code: int, u: UserId)
    ensures var j, st' := st.journal, Next(st, VerifyToggleStep(user, code)).0;
      if |st'.journal| == |j| then st' == st
      else
        && |st'.journal| > |j|
        && (Bears(st'.journal[|j|], OfAcceptance(Toggle(u))) <==> u == user)
        && (HasTwoFactor(st', u) != HasTwoFactor(st, u) <==> u == user)
  {
  }

  /** Over any run, two-factor login is what it was at first, switched once for every
      accepted code; a user that did not exist counts as having it off. */
  lemma {:induction false} TwoFactorIsParity(st: State, steps: seq<Step>, st': State, u: UserId)
    requires Run(st, steps, st')
    ensures var n := Tally(st'.journal, OfAcceptance(Toggle(u))) - Tally(st.journal, OfAcceptance(Toggle(u)));
      0 <= n && (HasTwoFactor(st', u) != HasTwoFactor(st, u) <==> n % 2 == 1)
    decreases |steps|
  {
    hide Next, Tally, HasTwoFactor;
    if steps != [] {
      StepTogglesTwoFactor(st, steps[0], u);
      TwoFactorIsParity(Next(st, steps[0]).0, steps[1..], st', u);
    }
  }

  /** Whoever gets in with a login code is the owner of the address it was sent to, and
      that user does exist: the handler's own check for a missing user never fires. */
  lemma LoginCodeLogsInOwner(st0: State, steps: seq<Step>, st: State, email: Email, code: int)
    requires Initial(st0) && Run(st0, steps, st)
    requires TryCode(st, Login(email), code).1 == Done
    ensures email in st.emails && VerifyLogin(st, email, code).1 == LoggedIn(st.emails[email])
  {
    InitialInv(st0);
    RunKeepsInv(st0, steps, st);
    assert EntryOk(st, Login(email), st.redis[Login(email)], st.origins[Login(email)]);
  }

  /** A login code is issued only to whoever knows the password of a two-factor account,
      and never in place of one that can still be used. */
  lemma LoginCodeNeedsPassword(st: State, step: Step, email: Email)
    requires CanHappen(st, step)
    ensures var st' := Next(st, step).0;
      Tally(st'.journal, OfIssue(Login(email))) > Tally(st.journal, OfIssue(Login(email))) ==>
        && step.LogInStep? && step.email == email && email in st.emails && st.emails[email] in st.users
        && !Live(st, Login(email))
        && var user := st.users[st.emails[email]];
           user.twoFactor && !user.deleted && user.password == step.password
  {
    hide Tally;
    var st' := Next(st, step).0;
    StepLogs(st, step);
    if |st'.journal| > |st.journal| {
      TallyLog(st.journal, st'.journal[|st.journal|], OfIssue(Login(email)));
    }
  }

  // ---------- The mail's promise of five minutes ----------

  /** The mail says a code is valid for five minutes. A code in Redis lasts no longer than
      that after its issue if and only if it has not been missed since the moment it was
      issued. Whether a login mail, which may show an older code, keeps the promise is
      LoginMailPromiseIff in OneTimeCodeUse. */
  lemma PromiseKeptIff(st0: State, steps: seq<Step>, st: State, k: Key)
    requires Initial(st0) && Run(st0, steps, st)
    requires k in st.redis && !k.VerifiedEmail? && !k.ResetToken?
    ensures k in st.origins && st.origins[k] < |st.journal|
    ensures var o := st.origins[k]; var issued := st.journal[o].at;
      st.redis[k].expiresAt <= issued + 300 * SECOND <==>
      forall i :: o < i < |st.journal| && Bears(st.journal[i], OfMiss(o)) ==> st.journal[i].at == issued
  {
    hide Tally, LastTouch;
    InitialInv(st0);
    RunKeepsInv(st0, steps, st);
    assert EntryOk(st, k, st.redis[k], st.origins[k]);
    TouchedSinceIff(st.journal, st.origins[k]);
  }

  lemma {:induction false} TouchedSinceIff(j: seq<Event>, o: nat)
    requires o < |j| && forall i, i' :: 0 <= i < i' < |j| ==> j[i].at <= j[i'].at
    ensures LastTouch(j, o) >= j[o].at
    ensures LastTouch(j, o) == j[o].at <==> forall i :: o < i < |j| && Bears(j[i], OfMiss(o)) ==> j[i].at == j[o].at
  {
    var last := |j| - 1;
    if last != o && !Bears(j[last], OfMiss(o)) {
      TouchedSinceIff(j[..last], o);
      assert forall i :: o < i < last ==> j[..last][i] == j[i];
    }
  }

  /** So the bound of AcceptedInTime is the best one: a registration code missed after
      d1 and again after d2 is accepted d3 later, whatever the delays under five minutes. */
  lemma MissedCodeOutlivesPromise(st: State, email: Email, code: int, d1: nat, d2: nat, d3: nat)
    requires email !in st.emails && d1 < CODE_TTL && d2 < CODE_TTL && d3 < CODE_TTL
    ensures var st' := SendRegistrationOtp(st, email, code).0;
      var st1 := VerifyRegistrationOtp(st'.(now := st.now + d1), email, code + 1, "").0;
      var st2 := VerifyRegistrationOtp(st1.(now := st.now + d1 + d2), email, code + 1, "").0;
      VerifyRegistrationOtp(st2.(now := st.now + d1 + d2 + d3), email, code, "token").1 == Verified("token")
  {
  }
}
