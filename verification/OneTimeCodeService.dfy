/** The handlers of the registration, login, two-factor and password-reset services,
    statement by statement. Each is proved to do what its function in OneTimeCodes says,
    to be a step of a run, and to keep the invariant of all runs. */
module OneTimeCodeService {
  import opened Wrappers
  import opened OneTimeCodes
  import OneTimeCodeRuns
  import OneTimeCodeLaws

  lemma StepRuns(st: State, step: Step)
    requires OneTimeCodeRuns.Inv(st) && CanHappen(st, step)
    ensures OneTimeCodeRuns.Inv(Next(st, step).0) && Run(st, [step], Next(st, step).0)
  {
    hide Next, OneTimeCodeRuns.Inv;
    OneTimeCodeLaws.StepKeepsInv(st, step);
    assert [step][1..] == [] && Run(Next(st, step).0, [], Next(st, step).0);
  }

  // The token may be stored before the code is deleted, and a code deleted before its
  // successor is stored.
  lemma TokenFirst(st: State, k: Key, token: Key, subject: string, ttl: int)
    requires k != token
    ensures Log(Drop(Put(st, token, Names(subject), ttl, |st.journal|), k), Accepted(k, Origin(st, k), st.now))
            == Exchange(st, k, token, subject, ttl)
  {
    var st' := Exchange(st, k, token, subject, ttl);
    var put := Drop(Put(st, token, Names(subject), ttl, |st.journal|), k);
    assert put.redis == st'.redis && put.origins == st'.origins;
  }

  lemma DropThenPut(st: State, k: Key, v: Value, ttl: int, origin: nat)
    ensures Put(Drop(st, k), k, v, ttl, origin) == Put(st, k, v, ttl, origin)
  {
    assert Put(Drop(st, k), k, v, ttl, origin).redis == Put(st, k, v, ttl, origin).redis;
    assert Put(Drop(st, k), k, v, ttl, origin).origins == Put(st, k, v, ttl, origin).origins;
  }

  class Backend {
    var clock: int
    var redis: map<Key, Entry>
    var users: map<UserId, User>
    var emails: map<Email, UserId>
    ghost var journal: seq<Event>
    ghost var origins: map<Key, nat>

    ghost predicate Valid()
      reads this
    {
      OneTimeCodeRuns.Inv(View())
    }

    ghost function View(): State
      reads this
    {
      State(clock, redis, users, emails, journal, origins)
    }

    constructor (now: int, users: map<UserId, User>, emails: map<Email, UserId>)
      requires forall e :: e in emails ==> emails[e] in users
      ensures Valid() && Initial(View()) && View().now == now && View().users == users && View().emails == emails
    {
      clock := now;
      redis := map[];
      this.users, this.emails := users, emails;
      journal, origins := [], map[];
    }

    // ---------- Redis ----------

    function Get(k: Key): Option<Value>
      reads this
    {
      if k in redis && clock < redis[k].expiresAt then Some(redis[k].value) else None
    }

    method Set(k: Key, v: Value, ttl: int, ghost origin: nat)
      modifies this`redis, this`origins
      ensures View() == Put(old(View()), k, v, ttl, origin)
    {
      redis := redis[k := Entry(v, clock + ttl)];
      origins := origins[k := origin];
    }

    method Del(k: Key)
      modifies this`redis, this`origins
      ensures View() == Drop(old(View()), k)
    {
      redis := redis - {k};
      origins := origins - {k};
    }

    ghost method Record(e: Event)
      modifies this`journal
      ensures View() == Log(old(View()), e)
    {
      journal := journal + [e];
    }

    // ---------- Registration ----------

    method SendRegistrationOtp(email: Email, code: int) returns (reply: Reply)
      requires Valid()
      modifies this`redis, this`journal, this`origins
      ensures Valid() && Run(old(View()), [SendRegistrationStep(email, code)], View())
      ensures (View(), reply) == OneTimeCodes.SendRegistrationOtp(old(View()), email, code)
    {
      hide OneTimeCodeRuns.Inv, Run;
      StepRuns(View(), SendRegistrationStep(email, code));
      if email in emails {
        return Refused;
      }
      var payload := Payload(code, 0, clock, None);
      Set(Registration(email), payload, CODE_TTL, |journal|);
      Record(Issued(Registration(email), code, clock));
      reply := CodeSent;
    }

    method VerifyRegistrationOtp(email: Email, code: int, token: Token) returns (reply: Reply)
      requires Valid()
      modifies this`redis, this`journal, this`origins
      ensures Valid() && Run(old(View()), [VerifyRegistrationStep(email, code, token)], View())
      ensures (View(), reply) == OneTimeCodes.VerifyRegistrationOtp(old(View()), email, code, token)
    {
      hide OneTimeCodeRuns.Inv, Run, Put, Drop, Log, Exchange;
      StepRuns(View(), VerifyRegistrationStep(email, code, token));
      var k := Registration(email);
      var stored := Get(k);
      if stored.None? || !stored.value.Payload? {
        return Refused;
      }
      var payload := stored.value;
      if payload.attempts >= 3 {
        Del(k);
        return Refused;
      }
      ghost var issue := Origin(View(), k);
      if payload.code != code {
        payload := payload.(attempts := payload.attempts + 1);
        Set(k, payload, CODE_TTL, issue);
        Record(Missed(k, issue, clock));
        return Refused;
      }
      Set(VerifiedEmail(token), Names(email), VERIFIED_TTL, |journal|);
      Del(k);
      Record(Accepted(k, issue, clock));
      TokenFirst(old(View()), k, VerifiedEmail(token), email, VERIFIED_TTL);
      reply := Verified(token);
    }

    method CompleteRegistration(email: Email, token: Token, password: string, user: UserId) returns (reply: Reply)
      requires Valid() && user !in users
      modifies this`redis, this`users, this`emails, this`journal, this`origins
      ensures Valid() && Run(old(View()), [CompleteStep(email, token, password, user)], View())
      ensures (View(), reply) == OneTimeCodes.CompleteRegistration(old(View()), email, token, password, user)
    {
      hide OneTimeCodeRuns.Inv, Run;
      StepRuns(View(), CompleteStep(email, token, password, user));
      var k := VerifiedEmail(token);
      var verified := Get(k);
      if verified.None? || verified.value != Names(email) {
        return Refused;
      }
      if email in emails {
        return Refused;
      }
      users := users[user := User(password, false, false)];
      emails := emails[email := user];
      ghost var proof := Origin(View(), k);
      Del(k);
      Record(Registered(user, email, proof, clock));
      reply := Created(user);
    }

    // ---------- Login ----------

    method LogIn(email: Email, password: string, code: int) returns (reply: Reply)
      requires Valid()
      modifies this`redis, this`journal, this`origins
      ensures Valid() && Run(old(View()), [LogInStep(email, password, code)], View())
      ensures (View(), reply) == OneTimeCodes.LogIn(old(View()), email, password, code)
    {
      hide OneTimeCodeRuns.Inv, Run;
      StepRuns(View(), LogInStep(email, password, code));
      if email !in emails || emails[email] !in users {
        return Refused;
      }
      var user := users[emails[email]];
      if user.deleted {
        return Refused;
      }
      if user.password != password {
        return Refused;
      }
      if user.twoFactor {
        var k := Login(email);
        var payload := Get(k);
        if payload.None? {
          Set(k, Payload(code, 0, clock, Some(emails[email])), CODE_TTL, |journal|);
          Record(Issued(k, code, clock));
        }
        return CodeSent;
      }
      reply := LoggedIn(emails[email]);
    }

    method VerifyLogin(email: Email, code: int) returns (reply: Reply)
      requires Valid()
      modifies this`redis, this`journal, this`origins
      ensures Valid() && Run(old(View()), [VerifyLoginStep(email, code)], View())
      ensures (View(), reply) == OneTimeCodes.VerifyLogin(old(View()), email, code)
    {
      hide OneTimeCodeRuns.Inv, Run;
      StepRuns(View(), VerifyLoginStep(email, code));
      var k := Login(email);
      var stored := Get(k);
      if stored.None? || !stored.value.Payload? {
        return Refused;
      }
      var payload := stored.value;
      if payload.attempts >= 5 {
        Del(k);
        return Refused;
      }
      ghost var issue := Origin(View(), k);
      if payload.code != code {
        payload := payload.(attempts := payload.attempts + 1);
        Set(k, payload, CODE_TTL, issue);
        Record(Missed(k, issue, clock));
        return Refused;
      }
      Del(k);
      Record(Accepted(k, issue, clock));
      var user := payload.user;
      if user.None? || user.value !in users || !(exists e :: e in emails && emails[e] == user.value) {
        return Refused;
      }
      reply := LoggedIn(user.value);
    }

    // ---------- Two-factor switch ----------

    method SendTwoFACode(user: UserId, code: int) returns (reply: Reply)
      requires Valid()
      modifies this`redis, this`journal, this`origins
      ensures Valid() && Run(old(View()), [SendToggleStep(user, code)], View())
      ensures (View(), reply) == OneTimeCodes.SendTwoFACode(old(View()), user, code)
    {
      hide OneTimeCodeRuns.Inv, Run;
      StepRuns(View(), SendToggleStep(user, code));
      if user !in users {
        return Refused;
      }
      Set(Toggle(user), Bare(code), CODE_TTL, |journal|);
      Record(Issued(Toggle(user), code, clock));
      reply := CodeSent;
    }

    method VerifyTwoFA(user: UserId, code: int) returns (reply: Reply)
      requires Valid()
      modifies this`redis, this`users, this`journal, this`origins
      ensures Valid() && Run(old(View()), [VerifyToggleStep(user, code)], View())
      ensures (View(), reply) == OneTimeCodes.VerifyTwoFA(old(View()), user, code)
    {
      hide OneTimeCodeRuns.Inv, Run;
      StepRuns(View(), VerifyToggleStep(user, code));
      if user !in users {
        return Refused;
      }
      var k := Toggle(user);
      var cached := Get(k);
      if cached.None? || !cached.value.Bare? || cached.value.code != code {
        return Refused;
      }
      ghost var issue := Origin(View(), k);
      Del(k);
      Record(Accepted(k, issue, clock));
      var isEnable := users[user].twoFactor;
      users := users[user := users[user].(twoFactor := !isEnable)];
      reply := Done;
    }

    // ---------- Password reset ----------

    method SendForgetPassCode(email: Email, code: int) returns (reply: Reply)
      requires Valid()
      modifies this`redis, this`journal, this`origins
      ensures Valid() && Run(old(View()), [SendResetStep(email, code)], View())
      ensures (View(), reply) == OneTimeCodes.SendForgetPassCode(old(View()), email, code)
    {
      hide OneTimeCodeRuns.Inv, Run, Put, Drop, Log;
      StepRuns(View(), SendResetStep(email, code));
      if email !in emails {
        return Refused;
      }
      var k := Reset(email);
      DropThenPut(View(), k, Bare(code), CODE_TTL, |journal|);
      Del(k);
      assert |journal| == |old(journal)|;
      Set(k, Bare(code), CODE_TTL, |journal|);
      Record(Issued(k, code, clock));
      reply := CodeSent;
    }

    method VerifyForgetPassCode(email: Email, code: int, token: Token) returns (reply: Reply)
      requires Valid()
      modifies this`redis, this`journal, this`origins
      ensures Valid() && Run(old(View()), [VerifyResetStep(email, code, token)], View())
      ensures (View(), reply) == OneTimeCodes.VerifyForgetPassCode(old(View()), email, code, token)
    {
      hide OneTimeCodeRuns.Inv, Run;
      StepRuns(View(), VerifyResetStep(email, code, token));
      var k := Reset(email);
      var redisCode := Get(k);
      if email !in emails {
        return Refused;
      }
      if redisCode.None? || !redisCode.value.Bare? || redisCode.value.code != code {
        return Refused;
      }
      ghost var issue := Origin(View(), k);
      Del(k);
      Record(Accepted(k, issue, clock));
      Set(ResetToken(token), Names(emails[email]), CODE_TTL, |journal| - 1);
      reply := Verified(token);
    }

    method ChangePassword(token: Token, password: string) returns (reply: Reply)
      requires Valid()
      modifies this`redis, this`users, this`journal, this`origins
      ensures Valid() && Run(old(View()), [ChangePasswordStep(token, password)], View())
      ensures (View(), reply) == OneTimeCodes.ChangePassword(old(View()), token, password)
    {
      hide OneTimeCodeRuns.Inv, Run;
      StepRuns(View(), ChangePasswordStep(token, password));
      var k := ResetToken(token);
      var stored := Get(k);
      if stored.None? || !stored.value.Names? {
        return Refused;
      }
      var user := stored.value.subject;
      if user !in users {
        return Refused;
      }
      users := users[user := users[user].(password := password)];
      ghost var proof := Origin(View(), k);
      Del(k);
      Record(PasswordChanged(user, proof, clock));
      reply := Done;
    }
  }
}
