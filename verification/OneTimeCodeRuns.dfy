/** What holds of one-time codes over every run: how long a code can be used and how
    often, and which code every account and every new password goes back to. */
module OneTimeCodeRuns {
  import opened Wrappers
  import opened OneTimeCodes

  // ---------- Counting in the journal ----------

  datatype Mark = OfMiss(issue: nat) | OfIssue(key: Key) | OfAcceptance(key: Key)

  predicate Bears(e: Event, m: Mark) {
    match m
    case OfMiss(n) => e.Missed? && e.issue == n
    case OfIssue(k) => e.Issued? && e.key == k
    case OfAcceptance(k) => e.Accepted? && e.key == k
  }

  function Tally(j: seq<Event>, m: Mark): nat {
    if j == [] then 0 else Tally(j[..|j| - 1], m) + if Bears(j[|j| - 1], m) then 1 else 0
  }

  lemma TallyLog(j: seq<Event>, e: Event, m: Mark)
    ensures Tally(j + [e], m) == Tally(j, m) + if Bears(e, m) then 1 else 0
  {
  }

  // When the code issued at o was issued or last missed.
  function LastTouch(j: seq<Event>, o: nat): int
    requires o < |j|
  {
    var last := |j| - 1;
    if last == o || Bears(j[last], OfMiss(o)) then j[last].at else LastTouch(j[..last], o)
  }

  // ---------- The invariant ----------

  // The earlier event that an event uses up.
  function Consumes(e: Event): Option<nat> {
    match e
    case Accepted(_, n, _) => Some(n)
    case Registered(_, _, n, _) => Some(n)
    case PasswordChanged(_, n, _) => Some(n)
    case _ => None
  }

  predicate Clash(a: Event, b: Event) {
    || (Consumes(a).Some? && Consumes(a) == Consumes(b))
    || (a.Registered? && b.Registered? && (a.user == b.user || a.email == b.email))
  }

  // How long after its issue a code can be accepted, given its misses so far.
  function Lifetime(k: Key, misses: nat): int {
    if Limit(k) > 0 then CODE_TTL * (misses + 1) else CODE_TTL
  }

  predicate Within(start: int, at: int, duration: int) {
    start <= at < start + duration
  }

  predicate EventOk(past: seq<Event>, e: Event, emails: map<Email, UserId>) {
    match e
    case Issued(k, _, _) => !k.VerifiedEmail? && !k.ResetToken?
    case Missed(k, n, at) => n < |past| && Bears(past[n], OfIssue(k)) && Tally(past, OfMiss(n)) < Limit(k)
    case Accepted(k, n, at) =>
      && n < |past| && Bears(past[n], OfIssue(k))
      && (Limit(k) > 0 ==> Tally(past, OfMiss(n)) < Limit(k))
      && Within(past[n].at, at, Lifetime(k, Tally(past, OfMiss(n))))
    case Registered(u, email, n, at) =>
      && n < |past| && Bears(past[n], OfAcceptance(Registration(email)))
      && email in emails && emails[email] == u && Within(past[n].at, at, VERIFIED_TTL)
    case PasswordChanged(u, n, at) =>
      && n < |past| && past[n].Accepted? && past[n].key.Reset?
      && past[n].key.email in emails && emails[past[n].key.email] == u && Within(past[n].at, at, CODE_TTL)
  }

  ghost predicate JournalOk(j: seq<Event>, emails: map<Email, UserId>) {
    forall i :: 0 <= i < |j| ==> EventOk(j[..i], j[i], emails)
  }

  ghost predicate Once(j: seq<Event>) {
    forall a, b :: 0 <= a < b < |j| ==> !Clash(j[a], j[b])
  }

  predicate CodeOk(st: State, k: Key, entry: Entry, o: nat) {
    && o < |st.journal| && !entry.value.Names?
    && st.journal[o].Issued? && st.journal[o].key == k && st.journal[o].code == entry.value.code
    && st.journal[o].at <= st.now
    && entry.expiresAt <= st.journal[o].at + Lifetime(k, Tally(st.journal, OfMiss(o)))
    && entry.expiresAt == LastTouch(st.journal, o) + CODE_TTL
    && entry.value.Payload? == (Limit(k) > 0)
    && (entry.value.Payload? ==>
          && entry.value.createdAt == st.journal[o].at
          && entry.value.attempts == Tally(st.journal, OfMiss(o)) <= Limit(k))
  }

  predicate TokenOk(st: State, k: Key, entry: Entry, o: nat) {
    && o < |st.journal| && entry.value.Names? && st.journal[o].Accepted?
    && st.journal[o].at <= st.now
    && entry.expiresAt == st.journal[o].at + (if k.VerifiedEmail? then VERIFIED_TTL else CODE_TTL)
    && var code := st.journal[o].key;
       if k.VerifiedEmail? then code == Registration(entry.value.subject)
       else code.Reset? && code.email in st.emails && st.emails[code.email] == entry.value.subject
  }

  predicate EntryOk(st: State, k: Key, entry: Entry, o: nat) {
    if k.VerifiedEmail? || k.ResetToken? then TokenOk(st, k, entry, o)
    else CodeOk(st, k, entry, o) && (k.Login? ==>
      && entry.value.user.Some? && k.email in st.emails && st.emails[k.email] == entry.value.user.value)
  }

  ghost predicate EntriesOk(st: State) {
    && st.origins.Keys == st.redis.Keys
    && forall k :: k in st.redis ==> EntryOk(st, k, st.redis[k], st.origins[k])
  }

  // Entries come from different events, and none from one that is used up.
  ghost predicate Links(st: State) {
    && (forall k, l :: k in st.origins && l in st.origins && k != l ==> st.origins[k] != st.origins[l])
    && (forall k, i :: k in st.origins && 0 <= i < |st.journal| ==> Consumes(st.journal[i]) != Some(st.origins[k]))
  }

  function Present(st: State, k: Key): nat {
    if k in st.redis then 1 else 0
  }

  ghost predicate CountsOk(st: State) {
    forall k: Key :: !k.VerifiedEmail? && !k.ResetToken? ==>
      Tally(st.journal, OfAcceptance(k)) + Present(st, k) <= Tally(st.journal, OfIssue(k))
  }

  ghost predicate OwnersExist(st: State) {
    forall e :: e in st.emails ==> st.emails[e] in st.users
  }

  ghost predicate Ordered(st: State) {
    && (forall i :: 0 <= i < |st.journal| ==> st.journal[i].at <= st.now)
    && (forall i, i' :: 0 <= i < i' < |st.journal| ==> st.journal[i].at <= st.journal[i'].at)
  }

  ghost predicate Inv(st: State) {
    && Ordered(st) && JournalOk(st.journal, st.emails) && Once(st.journal)
    && EntriesOk(st) && Links(st) && CountsOk(st) && OwnersExist(st)
  }

  // ---------- The journal grows ----------

  ghost predicate Grows(emails: map<Email, UserId>, emails': map<Email, UserId>) {
    forall e :: e in emails ==> e in emails' && emails'[e] == emails[e]
  }

  lemma JournalGrows(j: seq<Event>, e: Event, emails: map<Email, UserId>, emails': map<Email, UserId>)
    requires JournalOk(j, emails) && Grows(emails, emails') && EventOk(j, e, emails')
    ensures JournalOk(j + [e], emails')
  {
    hide Tally, LastTouch;
    forall i | 0 <= i < |j + [e]|
      ensures EventOk((j + [e])[..i], (j + [e])[i], emails')
    {
      if i < |j| {
        assert (j + [e])[..i] == j[..i] && (j + [e])[i] == j[i];
        assert EventOk(j[..i], j[i], emails);
      } else {
        assert (j + [e])[..i] == j;
      }
    }
  }

  // Only events of the journal can have been missed.
  lemma {:induction false} NothingMissedYet(j: seq<Event>, emails: map<Email, UserId>, n: nat)
    requires JournalOk(j, emails) && n >= |j|
    ensures Tally(j, OfMiss(n)) == 0
  {
    if j != [] {
      var last := |j| - 1;
      forall i | 0 <= i < last
        ensures EventOk(j[..last][..i], j[..last][i], emails)
      {
        assert j[..last][..i] == j[..i];
      }
      NothingMissedYet(j[..last], emails, n);
      assert EventOk(j[..last], j[last], emails);
    }
  }

  lemma OrderGrows(st: State, st': State, e: Event)
    requires Ordered(st) && st'.journal == st.journal + [e] && st'.now == st.now && e.at == st.now
    ensures Ordered(st')
  {
  }

  lemma OnceGrows(j: seq<Event>, e: Event)
    requires Once(j)
    requires forall i :: 0 <= i < |j| ==> !Clash(j[i], e)
    ensures Once(j + [e])
  {
  }

  // ---------- What happens to a code keeps the invariant ----------

  // An entry of another key is untouched by what is logged about key k.
  lemma OtherEntry(st: State, st': State, e: Event, k: Key)
    requires k in st.redis && k in st.origins && EntryOk(st, k, st.redis[k], st.origins[k])
    requires st'.journal == st.journal + [e] && st'.now == st.now && Grows(st.emails, st'.emails)
    requires !Bears(e, OfMiss(st.origins[k]))
    ensures EntryOk(st', k, st.redis[k], st.origins[k])
  {
  }

  predicate Fits(st: State, k: Key, v: Value) {
    match k
    case Registration(_) => v.Payload? && v == Payload(v.code, 0, st.now, None)
    case Login(e) => v.Payload? && v.user.Some? && v == Payload(v.code, 0, st.now, v.user)
                     && e in st.emails && st.emails[e] == v.user.value
    case Toggle(_) => v.Bare?
    case Reset(_) => v.Bare?
    case _ => false
  }

  lemma IssueKeeps(st: State, k: Key, v: Value)
    requires Inv(st) && !v.Names? && Fits(st, k, v)
    ensures Inv(Issue(st, k, v))
  {
    hide Tally, LastTouch, EntryOk, Links, CountsOk, Once, JournalOk, Ordered;
    var e, st' := Issued(k, v.code, st.now), Issue(st, k, v);
    JournalGrows(st.journal, e, st.emails, st.emails);
    OnceGrows(st.journal, e);
    OrderGrows(st, st', e);
    IssuedEntries(st, k, v);
    IssuedLinks(st, k, v);
    CountsGrow(st, st', e);
  }

  lemma IssuedEntries(st: State, k: Key, v: Value)
    requires JournalOk(st.journal, st.emails) && EntriesOk(st) && !v.Names? && Fits(st, k, v)
    ensures EntriesOk(Issue(st, k, v))
  {
    hide Tally, LastTouch, EntryOk, JournalOk;
    var e, st' := Issued(k, v.code, st.now), Issue(st, k, v);
    forall l | l in st'.redis
      ensures EntryOk(st', l, st'.redis[l], st'.origins[l])
    {
      if l != k { OtherEntry(st, st', e, l); } else { NewEntry(st, k, v); }
    }
  }

  lemma NewEntry(st: State, k: Key, v: Value)
    requires JournalOk(st.journal, st.emails) && !v.Names? && Fits(st, k, v)
    ensures EntryOk(Issue(st, k, v), k, Entry(v, st.now + CODE_TTL), |st.journal|)
  {
    hide Tally;
    NothingMissedYet(st.journal, st.emails, |st.journal|);
    TallyLog(st.journal, Issued(k, v.code, st.now), OfMiss(|st.journal|));
    assert LastTouch(Issue(st, k, v).journal, |st.journal|) == st.now;
  }

  lemma IssuedLinks(st: State, k: Key, v: Value)
    requires JournalOk(st.journal, st.emails) && EntriesOk(st) && Links(st) && !v.Names?
    ensures Links(Issue(st, k, v))
  {
  }

  lemma CountsGrow(st: State, st': State, e: Event)
    requires CountsOk(st) && st'.journal == st.journal + [e]
    requires forall k: Key :: !k.VerifiedEmail? && !k.ResetToken? ==>
      (if Bears(e, OfAcceptance(k)) then 1 else 0) + Present(st', k)
      <= (if Bears(e, OfIssue(k)) then 1 else 0) + Present(st, k)
    ensures CountsOk(st')
  {
  }

  lemma MissKeeps(st: State, k: Key)
    requires Inv(st) && Live(st, k) && st.redis[k].value.Payload? && st.redis[k].value.attempts < Limit(k)
    ensures Inv(Miss(st, k))
  {
    hide Tally, LastTouch, Links, CountsOk, Once, JournalOk, Ordered;
    var e, st' := Missed(k, st.origins[k], st.now), Miss(st, k);
    assert EntryOk(st, k, st.redis[k], st.origins[k]);
    JournalGrows(st.journal, e, st.emails, st.emails);
    OnceGrows(st.journal, e);
    OrderGrows(st, st', e);
    MissedEntries(st, k);
    CountsGrow(st, st', e);
    MissedLinks(st, k);
  }

  lemma MissedEntries(st: State, k: Key)
    requires EntriesOk(st) && Links(st)
    requires Live(st, k) && st.redis[k].value.Payload? && st.redis[k].value.attempts < Limit(k)
    ensures EntriesOk(Miss(st, k))
  {
    hide Tally, LastTouch, EntryOk;
    var e, st' := Missed(k, st.origins[k], st.now), Miss(st, k);
    forall l | l in st'.redis
      ensures EntryOk(st', l, st'.redis[l], st'.origins[l])
    {
      if l != k { OtherEntry(st, st', e, l); } else { MissedEntry(st, k); }
    }
  }

  lemma MissedEntry(st: State, k: Key)
    requires Live(st, k) && st.redis[k].value.Payload? && st.redis[k].value.attempts < Limit(k)
    requires k in st.origins && EntryOk(st, k, st.redis[k], st.origins[k])
    ensures EntryOk(Miss(st, k), k, Miss(st, k).redis[k], st.origins[k])
  {
  }

  lemma MissedLinks(st: State, k: Key)
    requires Links(st) && k in st.origins && k in st.redis && st.redis[k].value.Payload?
    ensures Links(Miss(st, k))
  {
  }

  lemma DropKeeps(st: State, k: Key)
    requires Inv(st)
    ensures Inv(Drop(st, k))
  {
    hide Tally, LastTouch, JournalOk, Ordered, EntryOk;
    var st' := Drop(st, k);
    forall l | l in st'.redis
      ensures EntryOk(st', l, st'.redis[l], st'.origins[l])
    {
      SameJournal(st, st', l, st.redis[l], st.origins[l]);
    }
    assert Ordered(st') by { OrderedAlike(st, st'); }
  }

  lemma OrderedAlike(st: State, st': State)
    requires Ordered(st) && st'.journal == st.journal && st'.now == st.now
    ensures Ordered(st')
  {
  }

  lemma SameJournal(st: State, st': State, k: Key, entry: Entry, o: nat)
    requires EntryOk(st, k, entry, o)
    requires st'.journal == st.journal && st'.now == st.now && st'.emails == st.emails
    ensures EntryOk(st', k, entry, o)
  {
  }

  lemma AcceptKeeps(st: State, k: Key)
    requires Inv(st) && Live(st, k) && !k.VerifiedEmail? && !k.ResetToken?
    requires st.redis[k].value.Payload? ==> st.redis[k].value.attempts < Limit(k)
    ensures Inv(Accept(st, k)) && Accept(st, k).journal == st.journal + [Accepted(k, st.origins[k], st.now)]
    ensures forall l :: l in Accept(st, k).origins ==> Accept(st, k).origins[l] != |st.journal|
  {
    hide Tally, LastTouch, Ordered, JournalOk, Once, EntryOk;
    var e, st' := Accepted(k, st.origins[k], st.now), Accept(st, k);
    AcceptedEventOk(st, k);
    JournalGrows(st.journal, e, st.emails, st.emails);
    OnceGrows(st.journal, e);
    OrderGrows(st, st', e);
    OriginsArePast(st);
    DroppedEntries(st, st', k, e);
    CountsGrow(st, st', e);
  }

  lemma AcceptedEventOk(st: State, k: Key)
    requires Live(st, k) && k in st.origins && !k.VerifiedEmail? && !k.ResetToken?
    requires EntryOk(st, k, st.redis[k], st.origins[k])
    requires st.redis[k].value.Payload? ==> st.redis[k].value.attempts < Limit(k)
    ensures EventOk(st.journal, Accepted(k, st.origins[k], st.now), st.emails)
  {
  }

  // An entry is gone, and e is logged, which is no miss.
  lemma DroppedEntries(st: State, st': State, k: Key, e: Event)
    requires EntriesOk(st) && !e.Missed? && st' == Log(Drop(st, k), e)
    ensures EntriesOk(st')
  {
    hide Tally, LastTouch, EntryOk;
    forall l | l in st'.redis
      ensures EntryOk(st', l, st'.redis[l], st'.origins[l])
    {
      OtherEntry(st, st', e, l);
    }
  }

  lemma OriginsArePast(st: State)
    requires EntriesOk(st)
    ensures forall k :: k in st.origins ==> st.origins[k] < |st.journal|
  {
  }

  // A token put in place of the code accepted last.
  lemma TokenKeeps(st: State, k: Key, subject: string, ttl: int, n: nat)
    requires Inv(st) && (k.VerifiedEmail? || k.ResetToken?) && |st.journal| == n + 1
    requires forall l :: l in st.origins ==> st.origins[l] != n
    requires TokenOk(st, k, Entry(Names(subject), st.now + ttl), n)
    ensures Inv(Put(st, k, Names(subject), ttl, n))
  {
    hide Tally, JournalOk, Once, Ordered, EntryOk;
    var st' := Put(st, k, Names(subject), ttl, n);
    forall l | l in st'.redis
      ensures EntryOk(st', l, st'.redis[l], st'.origins[l])
    {
      if l != k {
        SameJournal(st, st', l, st.redis[l], st.origins[l]);
      } else {
        NewToken(st, st', k, subject, ttl, n);
      }
    }
    OrderedAlike(st, st');
    NothingUsesLast(st);
  }

  lemma NewToken(st: State, st': State, k: Key, subject: string, ttl: int, n: nat)
    requires (k.VerifiedEmail? || k.ResetToken?) && TokenOk(st, k, Entry(Names(subject), st.now + ttl), n)
    requires st' == Put(st, k, Names(subject), ttl, n)
    ensures EntryOk(st', k, st'.redis[k], st'.origins[k])
  {
  }

  lemma NothingUsesLast(st: State)
    requires Inv(st) && st.journal != []
    ensures forall i :: 0 <= i < |st.journal| ==> Consumes(st.journal[i]) != Some(|st.journal| - 1)
  {
  }

  // A token used for e, after the tables have changed.
  lemma SpendKeeps(st: State, k: Key, e: Event)
    requires Inv(st) && k in st.origins && (k.VerifiedEmail? || k.ResetToken?)
    requires Consumes(e) == Some(st.origins[k]) && !e.Accepted? && e.at == st.now
    requires EventOk(st.journal, e, st.emails)
    requires forall i :: 0 <= i < |st.journal| ==> !Clash(st.journal[i], e)
    ensures Inv(Log(Drop(st, k), e))
  {
    hide Tally, LastTouch, Ordered, JournalOk, Once, EntryOk, EventOk;
    var st' := Log(Drop(st, k), e);
    JournalGrows(st.journal, e, st.emails, st.emails);
    OnceGrows(st.journal, e);
    OrderGrows(st, st', e);
    DroppedEntries(st, st', k, e);
    CountsGrow(st, st', e);
  }
}
