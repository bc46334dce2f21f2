/** One-time codes for registration, login, switching two-factor login and password
    reset. Codes and tokens are Redis entries that expire; users and e-mail addresses are
    tables. A handler is one atomic step; random codes, tokens and ids are arguments. */
module OneTimeCodes {
  import opened Wrappers

  type Email = string
  type UserId = string
  type Token = string

  datatype Key =
    | Registration(email: Email)
    | Login(email: Email)
    | Toggle(user: UserId)
    | Reset(email: Email)
    | VerifiedEmail(token: Token)
    | ResetToken(token: Token)

  // A JSON payload that counts tries, a bare code, or what a token stands for.
  datatype Value =
    | Payload(code: int, attempts: nat, createdAt: int, user: Option<UserId>)
    | Bare(code: int)
    | Names(subject: string)
  datatype Entry = Entry(value: Value, expiresAt: int)

  datatype User = User(password: string, twoFactor: bool, deleted: bool)

  // What happened, in order. `issue` and `proof` are earlier positions in the journal:
  // the code that was tried, the acceptance that a token was handed out for.
  datatype Event =
    | Issued(key: Key, code: int, at: int)
    | Missed(key: Key, issue: nat, at: int)
    | Accepted(key: Key, issue: nat, at: int)
    | Registered(user: UserId, email: Email, proof: nat, at: int)
    | PasswordChanged(user: UserId, proof: nat, at: int)

  // The journal, and for each entry the position of the event that put it there, are
  // kept by no service; the theorems are stated on them.
  datatype State = State(
    now: int,
    redis: map<Key, Entry>,
    users: map<UserId, User>,
    emails: map<Email, UserId>,      // an address is unique
    journal: seq<Event>,
    origins: map<Key, nat>)

  datatype Reply = Refused | Done | CodeSent | Verified(token: Token) | Created(user: UserId) | LoggedIn(user: UserId)

  const SECOND := 1000
  const CODE_TTL := 300 * SECOND
  const VERIFIED_TTL := 600 * SECOND

  // ---------- Redis ----------

  function Prefix(k: Key): string {
    match k
    case Registration(_) => "otp:registration:"
    case Login(_) => "2fa:login:"
    case Toggle(_) => "otp:"
    case Reset(_) => "forPas_"
    case VerifiedEmail(_) => "otp:verified:"
    case ResetToken(_) => "cryp_"
  }

  function KeyName(k: Key): string {
    Prefix(k) + match k
      case Toggle(user) => user
      case VerifiedEmail(token) => token
      case ResetToken(token) => token
      case _ => k.email
  }

  predicate Live(st: State, k: Key) {
    k in st.redis && st.now < st.redis[k].expiresAt
  }

  function Origin(st: State, k: Key): nat {
    if k in st.origins then st.origins[k] else 0
  }

  function Put(st: State, k: Key, v: Value, ttl: int, origin: nat): State {
    st.(redis := st.redis[k := Entry(v, st.now + ttl)], origins := st.origins[k := origin])
  }

  function Drop(st: State, k: Key): State {
    st.(redis := st.redis - {k}, origins := st.origins - {k})
  }

  function Log(st: State, e: Event): State {
    st.(journal := st.journal + [e])
  }

  // ---------- What happens to a code or token ----------

  function Issue(st: State, k: Key, v: Value): State
    requires !v.Names?
  {
    Log(Put(st, k, v, CODE_TTL, |st.journal|), Issued(k, v.code, st.now))
  }

  // A wrong try: counted, and the entry lives five more minutes.
  function Miss(st: State, k: Key): State
    requires k in st.redis && st.redis[k].value.Payload?
  {
    var v := st.redis[k].value;
    Log(Put(st, k, v.(attempts := v.attempts + 1), CODE_TTL, Origin(st, k)), Missed(k, Origin(st, k), st.now))
  }

  function Accept(st: State, k: Key): State {
    Log(Drop(st, k), Accepted(k, Origin(st, k), st.now))
  }

  // An accepted code handed over for a token.
  function Exchange(st: State, k: Key, token: Key, subject: string, ttl: int): State {
    Put(Accept(st, k), token, Names(subject), ttl, |st.journal|)
  }

  function Limit(k: Key): nat {
    match k
    case Registration(_) => 3
    case Login(_) => 5
    case _ => 0
  }

  // Both verify handlers for counted codes begin this way; Done means the code is right.
  function TryCode(st: State, k: Key, code: int): (State, Reply) {
    if !Live(st, k) || !st.redis[k].value.Payload? then (st, Refused)
    else if st.redis[k].value.attempts >= Limit(k) then (Drop(st, k), Refused)
    else if st.redis[k].value.code != code then (Miss(st, k), Refused)
    else (st, Done)
  }

  predicate BareMatches(st: State, k: Key, code: int) {
    Live(st, k) && st.redis[k].value.Bare? && st.redis[k].value.code == code
  }

  // ---------- Registration ----------

  function SendRegistrationOtp(st: State, email: Email, code: int): (State, Reply) {
    if email in st.emails then (st, Refused)
    else (Issue(st, Registration(email), Payload(code, 0, st.now, None)), CodeSent)
  }

  function VerifyRegistrationOtp(st: State, email: Email, code: int, token: Token): (State, Reply) {
    var (tried, reply) := TryCode(st, Registration(email), code);
    if reply == Refused then (tried, Refused)
    else (Exchange(st, Registration(email), VerifiedEmail(token), email, VERIFIED_TTL), Verified(token))
  }

  function AddUser(st: State, user: UserId, email: Email, password: string): State {
    st.(users := st.users[user := User(password, false, false)], emails := st.emails[email := user])
  }

  function CompleteRegistration(st: State, email: Email, token: Token, password: string, user: UserId): (State, Reply) {
    var k := VerifiedEmail(token);
    if !Live(st, k) || st.redis[k].value != Names(email) || email in st.emails then (st, Refused)
    else (Log(Drop(AddUser(st, user, email, password), k), Registered(user, email, Origin(st, k), st.now)),
          Created(user))
  }

  // ---------- Login ----------

  function LogIn(st: State, email: Email, password: string, code: int): (State, Reply) {
    if email !in st.emails || st.emails[email] !in st.users then (st, Refused)
    else
      var user := st.emails[email];
      if st.users[user].deleted || st.users[user].password != password then (st, Refused)
      else if !st.users[user].twoFactor then (st, LoggedIn(user))
      else if Live(st, Login(email)) then (st, CodeSent)
      else (Issue(st, Login(email), Payload(code, 0, st.now, Some(user))), CodeSent)
  }

  function VerifyLogin(st: State, email: Email, code: int): (State, Reply) {
    var (tried, reply) := TryCode(st, Login(email), code);
    if reply == Refused then (tried, Refused)
    else
      var user := st.redis[Login(email)].value.user;
      (Accept(st, Login(email)),
       if user.Some? && user.value in st.users && (exists e :: e in st.emails && st.emails[e] == user.value)
       then LoggedIn(user.value) else Refused)
  }

  // ---------- Two-factor switch ----------

  function SendTwoFACode(st: State, user: UserId, code: int): (State, Reply) {
    if user !in st.users then (st, Refused) else (Issue(st, Toggle(user), Bare(code)), CodeSent)
  }

  function SwitchTwoFactor(st: State, user: UserId): State {
    if user !in st.users then st
    else st.(users := st.users[user := st.users[user].(twoFactor := !st.users[user].twoFactor)])
  }

  function VerifyTwoFA(st: State, user: UserId, code: int): (State, Reply) {
    if user !in st.users || !BareMatches(st, Toggle(user), code) then (st, Refused)
    else (SwitchTwoFactor(Accept(st, Toggle(user)), user), Done)
  }

  // ---------- Password reset ----------

  function SendForgetPassCode(st: State, email: Email, code: int): (State, Reply) {
    if email !in st.emails then (st, Refused) else (Issue(st, Reset(email), Bare(code)), CodeSent)
  }

  function VerifyForgetPassCode(st: State, email: Email, code: int, token: Token): (State, Reply) {
    if email !in st.emails || !BareMatches(st, Reset(email), code) then (st, Refused)
    else (Exchange(st, Reset(email), ResetToken(token), st.emails[email], CODE_TTL), Verified(token))
  }

  function SetPassword(st: State, user: UserId, password: string): State
    requires user in st.users
  {
    st.(users := st.users[user := st.users[user].(password := password)])
  }

  function ChangePassword(st: State, token: Token, password: string): (State, Reply) {
    var k := ResetToken(token);
    if !Live(st, k) || !st.redis[k].value.Names? || st.redis[k].value.subject !in st.users then (st, Refused)
    else
      var user := st.redis[k].value.subject;
      (Log(Drop(SetPassword(st, user, password), k), PasswordChanged(user, Origin(st, k), st.now)), Done)
  }

  // ---------- Runs ----------

  datatype Step =
    | TickStep(to: int)
    | SendRegistrationStep(email: Email, code: int)
    | VerifyRegistrationStep(email: Email, code: int, token: Token)
    | CompleteStep(email: Email, token: Token, password: string, user: UserId)
    | LogInStep(email: Email, password: string, code: int)
    | VerifyLoginStep(email: Email, code: int)
    | SendToggleStep(user: UserId, code: int)
    | VerifyToggleStep(user: UserId, code: int)
    | SendResetStep(email: Email, code: int)
    | VerifyResetStep(email: Email, code: int, token: Token)
    | ChangePasswordStep(token: Token, password: string)

  // Time moves forward and the id of a new user is new.
  predicate CanHappen(st: State, step: Step) {
    match step
    case TickStep(to) => st.now <= to
    case CompleteStep(_, _, _, user) => user !in st.users
    case _ => true
  }

  function Next(st: State, step: Step): (State, Reply) {
    match step
    case TickStep(to) => (st.(now := to), Done)
    case SendRegistrationStep(email, code) => SendRegistrationOtp(st, email, code)
    case VerifyRegistrationStep(email, code, token) => VerifyRegistrationOtp(st, email, code, token)
    case CompleteStep(email, token, password, user) => CompleteRegistration(st, email, token, password, user)
    case LogInStep(email, password, code) => LogIn(st, email, password, code)
    case VerifyLoginStep(email, code) => VerifyLogin(st, email, code)
    case SendToggleStep(user, code) => SendTwoFACode(st, user, code)
    case VerifyToggleStep(user, code) => VerifyTwoFA(st, user, code)
    case SendResetStep(email, code) => SendForgetPassCode(st, email, code)
    case VerifyResetStep(email, code, token) => VerifyForgetPassCode(st, email, code, token)
    case ChangePasswordStep(token, password) => ChangePassword(st, token, password)
  }

  ghost predicate Run(st: State, steps: seq<Step>, st': State)
    decreases |steps|
  {
    if steps == [] then st' == st
    else CanHappen(st, steps[0]) && Run(Next(st, steps[0]).0, steps[1..], st')
  }

  /** Nothing in Redis and nothing recorded; any users, whose addresses are theirs. */
  predicate Initial(st: State) {
    && st.redis == map[] && st.journal == [] && st.origins == map[]
    && (forall e :: e in st.emails ==> st.emails[e] in st.users)
  }

  /** No two entries share a Redis key, as long as user ids hold no colon (they are
      UUIDs): "otp:" is followed by a user id, or by "registration:" or "verified:". */
  lemma KeysToldApart(a: Key, b: Key)
    requires a.Toggle? ==> ':' !in a.user
    requires b.Toggle? ==> ':' !in b.user
    requires a != b
    ensures KeyName(a) != KeyName(b)
  {
    if Prefix(a) == Prefix(b) {
      var n := |Prefix(a)|;
      assert KeyName(a)[n..] != KeyName(b)[n..];
    } else if a.Toggle? || (a.Registration? && !b.Toggle?) {
      KindsToldApart(a, b);
    } else {
      KindsToldApart(b, a);
    }
  }

  lemma KindsToldApart(a: Key, b: Key)
    requires a.Toggle? ==> ':' !in a.user
    requires Prefix(a)[0] != Prefix(b)[0] || (a.Toggle? && !b.Toggle?) || (a.Registration? && b.VerifiedEmail?)
    ensures KeyName(a) != KeyName(b)
  {
    assert KeyName(a)[0] == Prefix(a)[0] && KeyName(b)[0] == Prefix(b)[0];
    if a.Toggle? && Prefix(b)[0] == 'o' {
      var colon := |Prefix(b)| - 1;
      assert KeyName(b)[colon] == ':';
      assert colon < |KeyName(a)| ==> KeyName(a)[colon] == a.user[colon - 4];
    } else if a.Registration? && b.VerifiedEmail? {
      assert KeyName(a)[4] == 'r' && KeyName(b)[4] == 'v';
    }
  }
}
