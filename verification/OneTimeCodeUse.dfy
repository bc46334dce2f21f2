/** What a code or token that was just handed out is good for: exactly the one purpose,
    for exactly its time, whatever else happens to other keys meanwhile. */
module OneTimeCodeUse {
  import opened Wrappers
  import opened OneTimeCodes
  import Runs = OneTimeCodeRuns
  import Laws = OneTimeCodeLaws

  // The steps that read or write the entry of a key.
  predicate Uses(step: Step, k: Key) {
    match step
    case TickStep(_) => false
    case SendRegistrationStep(email, _) => k == Registration(email)
    case VerifyRegistrationStep(email, _, token) => k == Registration(email) || k == VerifiedEmail(token)
    case CompleteStep(_, token, _, _) => k == VerifiedEmail(token)
    case LogInStep(email, _, _) => k == Login(email)
    case VerifyLoginStep(email, _) => k == Login(email)
    case SendToggleStep(user, _) => k == Toggle(user)
    case VerifyToggleStep(user, _) => k == Toggle(user)
    case SendResetStep(email, _) => k == Reset(email)
    case VerifyResetStep(email, _, token) => k == Reset(email) || k == ResetToken(token)
    case ChangePasswordStep(token, _) => k == ResetToken(token)
  }

  // The entry of k is as it was, time went on, and no user or address got lost.
  ghost predicate Kept(st: State, st': State, k: Key) {
    && (k in st'.redis <==> k in st.redis) && (k in st.redis ==> st'.redis[k] == st.redis[k])
    && st.now <= st'.now
    && (forall e :: e in st.emails ==> e in st'.emails && st'.emails[e] == st.emails[e])
    && (forall u :: u in st.users ==> u in st'.users)
  }

  lemma Alike(st: State, st': State, k: Key)
    requires st'.redis == st.redis && st'.users == st.users && st'.emails == st.emails && st.now <= st'.now
    ensures Kept(st, st', k)
  {
  }

  lemma IssueLeavesOthers(st: State, k: Key, v: Value, other: Key)
    requires k != other && !v.Names?
    ensures Kept(st, Issue(st, k, v), other)
  {
  }

  lemma AcceptLeavesOthers(st: State, k: Key, other: Key)
    requires k != other
    ensures Kept(st, Accept(st, k), other)
  {
  }

  lemma ExchangeLeavesOthers(st: State, k: Key, token: Key, subject: string, ttl: int, other: Key)
    requires k != other && token != other
    ensures Kept(st, Exchange(st, k, token, subject, ttl), other)
  {
  }

  lemma TryLeavesOthers(st: State, k: Key, code: int, other: Key)
    requires k != other
    ensures Kept(st, TryCode(st, k, code).0, other)
  {
    hide Put;
    if Live(st, k) && st.redis[k].value.Payload? {
      MissLeavesOthers(st, k, other);
    }
  }

  lemma MissLeavesOthers(st: State, k: Key, other: Key)
    requires k != other && k in st.redis && st.redis[k].value.Payload?
    ensures Kept(st, Miss(st, k), other)
  {
  }

  lemma CompleteLeavesOthers(st: State, email: Email, token: Token, password: string, user: UserId, other: Key)
    requires VerifiedEmail(token) != other
    ensures Kept(st, CompleteRegistration(st, email, token, password, user).0, other)
  {
  }

  lemma VerifyTwoFALeavesOthers(st: State, user: UserId, code: int, other: Key)
    requires Toggle(user) != other
    ensures Kept(st, VerifyTwoFA(st, user, code).0, other)
  {
  }

  lemma ChangeLeavesOthers(st: State, token: Token, password: string, other: Key)
    requires ResetToken(token) != other
    ensures Kept(st, ChangePassword(st, token, password).0, other)
  {
  }

  lemma StepKeepsEntry(st: State, step: Step, k: Key)
    requires CanHappen(st, step) && !Uses(step, k)
    ensures Kept(st, Next(st, step).0, k)
  {
    hide Kept, Issue, Accept, Exchange, TryCode, CompleteRegistration, VerifyTwoFA, ChangePassword, BareMatches;
    Alike(st, st, k);
    match step
    case TickStep(to) => Alike(st, Next(st, step).0, k);
    case SendRegistrationStep(email, code) =>
      IssueLeavesOthers(st, Registration(email), Payload(code, 0, st.now, None), k);
    case VerifyRegistrationStep(email, code, token) =>
      TryLeavesOthers(st, Registration(email), code, k);
      ExchangeLeavesOthers(st, Registration(email), VerifiedEmail(token), email, VERIFIED_TTL, k);
    case CompleteStep(email, token, password, user) => CompleteLeavesOthers(st, email, token, password, user, k);
    case LogInStep(email, _, code) =>
      if email in st.emails {
        IssueLeavesOthers(st, Login(email), Payload(code, 0, st.now, Some(st.emails[email])), k);
      }
    case VerifyLoginStep(email, code) =>
      TryLeavesOthers(st, Login(email), code, k);
      AcceptLeavesOthers(st, Login(email), k);
    case SendToggleStep(user, code) => IssueLeavesOthers(st, Toggle(user), Bare(code), k);
    case VerifyToggleStep(user, code) => VerifyTwoFALeavesOthers(st, user, code, k);
    case SendResetStep(email, code) => IssueLeavesOthers(st, Reset(email), Bare(code), k);
    case VerifyResetStep(email, _, token) =>
      if email in st.emails {
        ExchangeLeavesOthers(st, Reset(email), ResetToken(token), st.emails[email], CODE_TTL, k);
      }
    case ChangePasswordStep(token, password) => ChangeLeavesOthers(st, token, password, k);
  }

  ghost predicate Unused(steps: seq<Step>, k: Key) {
    forall i :: 0 <= i < |steps| ==> !Uses(steps[i], k)
  }

  lemma {:induction false} RunKeepsEntry(st: State, steps: seq<Step>, st': State, k: Key)
    requires Run(st, steps, st') && Unused(steps, k)
    ensures Kept(st, st', k)
    decreases |steps|
  {
    hide CanHappen, Next, Uses;
    if steps != [] {
      StepKeepsEntry(st, steps[0], k);
      RunKeepsEntry(Next(st, steps[0]).0, steps[1..], st', k);
    }
  }

  /** A registration code that was sent lets exactly that number through, for exactly five
      minutes, as long as it is not tried or replaced. */
  lemma RegistrationCodeWorksIff(st: State, email: Email, code: int, steps: seq<Step>, st': State, tried: int,
                                 token: Token)
    requires SendRegistrationOtp(st, email, code).1 == CodeSent
    requires Run(SendRegistrationOtp(st, email, code).0, steps, st') && Unused(steps, Registration(email))
    ensures VerifyRegistrationOtp(st', email, tried, token).1 == Verified(token) <==>
            tried == code && st'.now < st.now + 300 * SECOND
  {
    hide Run;
    RunKeepsEntry(SendRegistrationOtp(st, email, code).0, steps, st', Registration(email));
  }

  // ---------- Login codes, which may be sent twice ----------

  // What the login left for the address: a new code, or one that was there already.
  lemma LoginEntry(st: State, email: Email, password: string, code: int)
    requires Runs.Inv(st) && LogIn(st, email, password, code).1 == CodeSent
    ensures var sent, k := LogIn(st, email, password, code).0, Login(email);
      && sent.emails == st.emails && sent.now == st.now
      && email in sent.emails && sent.emails[email] in sent.users && Live(sent, k)
      && sent.redis[k].value.Payload? && sent.redis[k].value.user == Some(st.emails[email])
      && (if Live(st, k) then sent == st
          else sent.redis[k] == Entry(Payload(code, 0, st.now, Some(st.emails[email])), st.now + CODE_TTL))
  {
    var k := Login(email);
    if Live(st, k) { assert Runs.EntryOk(st, k, st.redis[k], st.origins[k]); }
  }

  /** A login mails the code that is in Redis after it, which may be an earlier one. It
      logs in the owner of the address for exactly as long as that entry lasts, and not at
      all when its five tries are used up. */
  lemma LoginCodeWorksIff(st0: State, before: seq<Step>, st: State, email: Email, password: string, code: int,
                          steps: seq<Step>, st': State, tried: int)
    requires Initial(st0) && Run(st0, before, st) && LogIn(st, email, password, code).1 == CodeSent
    requires Run(LogIn(st, email, password, code).0, steps, st') && Unused(steps, Login(email))
    ensures email in st.emails
    ensures var sent := LogIn(st, email, password, code).0;
      && Login(email) in sent.redis && sent.redis[Login(email)].value.Payload?
      && var e := sent.redis[Login(email)];
         VerifyLogin(st', email, tried).1 == LoggedIn(st.emails[email]) <==>
         tried == e.value.code && st'.now < e.expiresAt && e.value.attempts < 5
  {
    hide Run, Runs.Inv, Initial, LogIn;
    Laws.InitialInv(st0);
    Laws.RunKeepsInv(st0, before, st);
    LoginEntry(st, email, password, code);
    RunKeepsEntry(LogIn(st, email, password, code).0, steps, st', Login(email));
  }

  // What the mail promises: the code it shows is valid for the next five minutes, as long
  // as nothing else is done with it.
  ghost predicate GoodForFiveMinutes(sent: State, email: Email)
    requires email in sent.emails && Login(email) in sent.redis && sent.redis[Login(email)].value.Payload?
  {
    forall steps, st' :: Run(sent, steps, st') && Unused(steps, Login(email)) ==>
      (VerifyLogin(st', email, sent.redis[Login(email)].value.code).1 == LoggedIn(sent.emails[email]) <==>
       st'.now < sent.now + 300 * SECOND)
  }

  /** A login mail keeps its promise if and only if the code is new, or was last missed at
      this very moment and has a try left. */
  lemma LoginMailPromiseIff(st0: State, before: seq<Step>, st: State, email: Email, password: string, code: int)
    requires Initial(st0) && Run(st0, before, st) && LogIn(st, email, password, code).1 == CodeSent
    ensures var sent, k := LogIn(st, email, password, code).0, Login(email);
      && email in sent.emails && k in sent.redis && sent.redis[k].value.Payload?
      && (GoodForFiveMinutes(sent, email) <==>
          !Live(st, k) || (st.redis[k].expiresAt == st.now + 300 * SECOND && st.redis[k].value.attempts < 5))
  {
    hide Run, Runs.Inv, Initial, LogIn, GoodForFiveMinutes;
    Laws.InitialInv(st0);
    Laws.RunKeepsInv(st0, before, st);
    LoginEntry(st, email, password, code);
    PromiseIff(LogIn(st, email, password, code).0, email);
  }

  lemma PromiseIff(sent: State, email: Email)
    requires email in sent.emails && sent.emails[email] in sent.users && Live(sent, Login(email))
    requires sent.redis[Login(email)].value.Payload?
    requires sent.redis[Login(email)].value.user == Some(sent.emails[email])
    ensures var e := sent.redis[Login(email)];
      GoodForFiveMinutes(sent, email) <==> e.expiresAt == sent.now + 300 * SECOND && e.value.attempts < 5
  {
    hide Run;
    var e := sent.redis[Login(email)];
    forall steps, st' | Run(sent, steps, st') && Unused(steps, Login(email))
      ensures VerifyLogin(st', email, e.value.code).1 == LoggedIn(sent.emails[email]) <==>
              st'.now < e.expiresAt && e.value.attempts < 5
    {
      RunKeepsEntry(sent, steps, st', Login(email));
    }
    if GoodForFiveMinutes(sent, email) {
      JustWait(sent, sent.now, email);
      JustWait(sent, e.expiresAt, email);
      JustWait(sent, sent.now + 300 * SECOND, email);
    }
  }

  lemma JustWait(st: State, t: int, email: Email)
    requires st.now <= t
    ensures Run(st, [TickStep(t)], st.(now := t)) && Unused([TickStep(t)], Login(email))
  {
    assert [TickStep(t)][1..] == [] && Run(st.(now := t), [], st.(now := t));
  }

  lemma {:induction false} RunAppend(st: State, steps: seq<Step>, mid: State, step: Step)
    requires Run(st, steps, mid) && CanHappen(mid, step)
    ensures Run(st, steps + [step], Next(mid, step).0)
    decreases |steps|
  {
    hide CanHappen, Next;
    if steps == [] {
      assert [] + [step] == [step] && [step][1..] == [];
      assert Run(Next(mid, step).0, [], Next(mid, step).0);
    } else {
      RunAppend(Next(st, steps[0]).0, steps[1..], mid, step);
      assert (steps + [step])[1..] == steps[1..] + [step];
    }
  }

  /** A code that is mailed again gets no new time: after d1 and d2 together make five
      minutes it is refused, though nobody tried it and the second mail is only d2 old. */
  lemma ResentCodeExpires(st: State, email: Email, password: string, c: int, c': int, d1: nat, d2: nat)
    returns (st': State)
    requires LogIn(st, email, password, c).1 == CodeSent && !Live(st, Login(email))
    requires d1 < CODE_TTL <= d1 + d2
    ensures Run(st, [LogInStep(email, password, c), TickStep(st.now + d1), LogInStep(email, password, c'),
                     TickStep(st.now + d1 + d2)], st')
    ensures var again := LogIn(st, email, password, c).0.(now := st.now + d1);
            LogIn(again, email, password, c') == (again, CodeSent)
    ensures VerifyLogin(st', email, c).1 == Refused
  {
    var login, wait := LogInStep(email, password, c), TickStep(st.now + d1);
    var again, rest := LogInStep(email, password, c'), TickStep(st.now + d1 + d2);
    var s1 := LogIn(st, email, password, c).0;
    var s2 := s1.(now := st.now + d1);
    SentAgain(st, email, password, c, c', d1);
    st' := s2.(now := st.now + d1 + d2);
    assert Run(st, [], st);
    hide Run, LogIn, VerifyLogin;
    RunAppend(st, [], st, login);
    RunAppend(st, [] + [login], s1, wait);
    RunAppend(st, [] + [login] + [wait], s2, again);
    RunAppend(st, [] + [login] + [wait] + [again], s2, rest);
    assert [] + [login] + [wait] + [again] + [rest] == [login, wait, again, rest];
    Overdue(st', email, c);
  }

  lemma SentAgain(st: State, email: Email, password: string, c: int, c': int, d: nat)
    requires LogIn(st, email, password, c).1 == CodeSent && !Live(st, Login(email)) && d < CODE_TTL
    ensures var s := LogIn(st, email, password, c).0;
      && s.now == st.now && Login(email) in s.redis && s.redis[Login(email)].expiresAt == st.now + CODE_TTL
      && LogIn(s.(now := st.now + d), email, password, c') == (s.(now := st.now + d), CodeSent)
  {
  }

  lemma Overdue(st: State, email: Email, c: int)
    requires !Live(st, Login(email))
    ensures VerifyLogin(st, email, c).1 == Refused
  {
  }

  /** A code whose five tries are used up is mailed again all the same, and refused. */
  lemma UsedUpCodeIsMailed(st: State, email: Email, password: string, c: int, c': int) returns (st': State)
    requires LogIn(st, email, password, c).1 == CodeSent && !Live(st, Login(email))
    ensures var miss := VerifyLoginStep(email, c + 1);
            Run(st, [LogInStep(email, password, c), miss, miss, miss, miss, miss], st')
    ensures LogIn(st', email, password, c') == (st', CodeSent) && st'.now == st.now
    ensures Login(email) in st'.redis && st'.redis[Login(email)].value == Payload(c, 5, st.now, Some(st.emails[email]))
    ensures VerifyLogin(st', email, c).1 == Refused
  {
    var login, miss := LogInStep(email, password, c), VerifyLoginStep(email, c + 1);
    var s0 := LogIn(st, email, password, c).0;
    assert Run(st, [], st);
    hide Run, VerifyLogin;
    RunAppend(st, [], st, login);
    var s1 := MissOnce(st, [] + [login], s0, email, c);
    hide Issue;
    var s2 := MissOnce(st, [] + [login] + [miss], s1, email, c);
    var s3 := MissOnce(st, [] + [login] + [miss] + [miss], s2, email, c);
    var s4 := MissOnce(st, [] + [login] + [miss] + [miss] + [miss], s3, email, c);
    st' := MissOnce(st, [] + [login] + [miss] + [miss] + [miss] + [miss], s4, email, c);
    assert [] + [login] + [miss] + [miss] + [miss] + [miss] + [miss] == [login, miss, miss, miss, miss, miss];
    NoTriesLeft(st', email, c);
  }

  lemma NoTriesLeft(st: State, email: Email, c: int)
    requires Live(st, Login(email)) && st.redis[Login(email)].value.Payload?
    requires st.redis[Login(email)].value.attempts == 5
    ensures VerifyLogin(st, email, c).1 == Refused
  {
  }

  lemma MissOnce(start: State, steps: seq<Step>, st: State, email: Email, c: int) returns (st': State)
    requires Run(start, steps, st)
    requires var k := Login(email);
      Live(st, k) && st.redis[k].value.Payload? && st.redis[k].value.code == c && st.redis[k].value.attempts < 5
    ensures Run(start, steps + [VerifyLoginStep(email, c + 1)], st')
    ensures var k := Login(email);
      && Live(st', k) && st'.redis[k].value == st.redis[k].value.(attempts := st.redis[k].value.attempts + 1)
      && st'.users == st.users && st'.emails == st.emails && st'.now == st.now
  {
    hide Run;
    st' := Next(st, VerifyLoginStep(email, c + 1)).0;
    RunAppend(start, steps, st, VerifyLoginStep(email, c + 1));
  }

  // ---------- Codes without a limit on tries ----------

  predicate WrongTry(step: Step, k: Key, code: int) {
    match step
    case VerifyToggleStep(user, tried) => k == Toggle(user) && tried != code
    case VerifyResetStep(email, tried, _) => k == Reset(email) && tried != code
    case _ => false
  }

  ghost predicate OnlyWrongTries(steps: seq<Step>, k: Key, code: int) {
    forall i :: 0 <= i < |steps| ==> !Uses(steps[i], k) || WrongTry(steps[i], k, code)
  }

  lemma WrongTryKeepsEntry(st: State, step: Step, k: Key, code: int)
    requires k in st.redis && st.redis[k].value == Bare(code) && WrongTry(step, k, code)
    ensures Next(st, step).0 == st
  {
  }

  lemma {:induction false} TriesKeepEntry(st: State, steps: seq<Step>, st': State, k: Key, code: int)
    requires k in st.redis && st.redis[k].value == Bare(code)
    requires Run(st, steps, st') && OnlyWrongTries(steps, k, code)
    ensures Kept(st, st', k)
    decreases |steps|
  {
    hide CanHappen, Next, Uses, WrongTry;
    if steps != [] {
      if Uses(steps[0], k) {
        WrongTryKeepsEntry(st, steps[0], k, code);
      } else {
        StepKeepsEntry(st, steps[0], k);
      }
      TriesKeepEntry(Next(st, steps[0]).0, steps[1..], st', k, code);
    }
  }

  /** A code to switch two-factor login works for exactly its five minutes, however often
      it is tried wrongly before. */
  lemma ToggleCodeWorksIff(st: State, user: UserId, code: int, steps: seq<Step>, st': State, tried: int)
    requires SendTwoFACode(st, user, code).1 == CodeSent
    requires Run(SendTwoFACode(st, user, code).0, steps, st') && OnlyWrongTries(steps, Toggle(user), code)
    ensures VerifyTwoFA(st', user, tried).1 == Done <==> tried == code && st'.now < st.now + 300 * SECOND
  {
    hide Run;
    TriesKeepEntry(SendTwoFACode(st, user, code).0, steps, st', Toggle(user), code);
  }

  /** So does a password-reset code. */
  lemma ResetCodeWorksIff(st: State, email: Email, code: int, steps: seq<Step>, st': State, tried: int, token: Token)
    requires SendForgetPassCode(st, email, code).1 == CodeSent
    requires Run(SendForgetPassCode(st, email, code).0, steps, st') && OnlyWrongTries(steps, Reset(email), code)
    ensures VerifyForgetPassCode(st', email, tried, token).1 == Verified(token) <==>
            tried == code && st'.now < st.now + 300 * SECOND
  {
    hide Run;
    TriesKeepEntry(SendForgetPassCode(st, email, code).0, steps, st', Reset(email), code);
  }

  // ---------- Tokens ----------

  /** The token for a verified address completes a registration of that address, for
      exactly ten minutes, unless the address got an account by then. */
  lemma VerifiedTokenWorksIff(st: State, email: Email, code: int, token: Token, steps: seq<Step>, st': State,
                              other: Email, password: string, user: UserId)
    requires VerifyRegistrationOtp(st, email, code, token).1 == Verified(token)
    requires Run(VerifyRegistrationOtp(st, email, code, token).0, steps, st') && Unused(steps, VerifiedEmail(token))
    ensures CompleteRegistration(st', other, token, password, user).1 == Created(user) <==>
            other == email && email !in st'.emails && st'.now < st.now + 600 * SECOND
  {
    hide Run;
    RunKeepsEntry(VerifyRegistrationOtp(st, email, code, token).0, steps, st', VerifiedEmail(token));
  }

  /** The token for a verified reset sets a password for exactly five minutes, and only
      that of the owner of the address. */
  lemma ResetTokenWorksIff(st: State, email: Email, code: int, token: Token, steps: seq<Step>, st': State,
                           password: string)
    requires VerifyForgetPassCode(st, email, code, token).1 == Verified(token) && st.emails[email] in st.users
    requires Run(VerifyForgetPassCode(st, email, code, token).0, steps, st') && Unused(steps, ResetToken(token))
    ensures ChangePassword(st', token, password).1 == Done <==> st'.now < st.now + 300 * SECOND
    ensures var users := ChangePassword(st', token, password).0.users;
            users.Keys == st'.users.Keys && forall u :: u in users && users[u] != st'.users[u] ==> u == st.emails[email]
  {
    hide Run;
    RunKeepsEntry(VerifyForgetPassCode(st, email, code, token).0, steps, st', ResetToken(token));
  }
}
