/** A synchronisation as a whole: it imports what arrived since the last date and then
    moves that date. Which mail this loses, and for how long. */
module MailSync {
  import opened Wrappers
  import opened JsText
  import opened InvoiceImport
  import opened InvoiceImportLaws
  import Billing

  // The invoices so far, the date the next synchronisation reads from, and the date the
  // mailbox was configured.
  datatype Mail = Mail(table: seq<Invoice>, since: int, createdAt: int)

  function Start(mail: Mail): Progress {
    Progress(mail.table, [], 0, false)
  }

  function Synced(mail: Mail, searches: seq<Search>, now: int, gen: Generator): Mail {
    var r := Import(mail.table, searches, mail.since, gen);
    mail.(table := r.table, since := if r.created != [] then now else mail.since)
  }

  /** This is how the cron job moves the date of a user's mailbox, given how many invoices
      reading it created. */
  lemma SyncMovesSince(st: Billing.State, user: Billing.UserId, latest: Option<Billing.HistoryId>, thisMonth: int,
                       mail: Mail, searches: seq<Search>, gen: Generator)
    requires user in st.configs && Billing.EffectiveSince(st.configs[user]) == mail.since
    requires latest.Some? ==> latest.value in st.histories
    requires var read := Billing.Read(|Import(mail.table, searches, mail.since, gen).created|);
             Billing.MayRead(st, user, Billing.Reading(latest, thisMonth, read))
    ensures var read := Billing.Read(|Import(mail.table, searches, mail.since, gen).created|);
            var c := Billing.RunSyncJob(st, user, Billing.Reading(latest, thisMonth, read));
            user in c && Billing.EffectiveSince(c[user]) == Synced(mail, searches, st.now, gen).since
  {
    hide Import, Billing.MayRead;
  }

  // ---------- What happens to one message ----------

  // A message that this synchronisation is there for.
  predicate Due(m: Message, since: int, now: int) {
    m.date.Some? && since <= m.date.value < now
  }

  // The message is the j-th hit of the i-th search.
  predicate At(searches: seq<Search>, i: nat, j: nat, m: Message) {
    i < |searches| && searches[i].Hits? && j < |searches[i].raws| && searches[i].raws[j] == Parsed(m)
  }

  // How far the import is when it gets there.
  function Before(mail: Mail, searches: seq<Search>, i: nat, j: nat, gen: Generator): Progress
    requires i < |searches| && searches[i].Hits? && j <= |searches[i].raws|
  {
    HandleAll(SearchAll(Start(mail), searches[..i], mail.since, gen), searches[i].raws[..j], mail.since, gen)
  }

  // This hit made an invoice.
  predicate MadeAt(mail: Mail, searches: seq<Search>, i: nat, j: nat, m: Message, gen: Generator)
    requires At(searches, i, j, m)
  {
    var p := Before(mail, searches, i, j, gen);
    !p.aborted && |Handle(p, m, mail.since, gen).table| > |p.table|
  }

  // The message has an invoice, from before or from this import.
  ghost predicate Served(mail: Mail, searches: seq<Search>, m: Message, gen: Generator) {
    HasOwn(mail.table, m) || exists i: nat, j: nat :: At(searches, i, j, m) && MadeAt(mail, searches, i, j, m, gen)
  }

  // There is nothing in it to import: no invoice's subject, no PDF that can be inserted.
  ghost predicate NothingToImport(table: seq<Invoice>, m: Message) {
    !LooksLikeInvoice(m.subject) && forall e :: e in Pdfs(m.attachments) ==> Dead(table, e)
  }

  // Whenever the import gets to the message, the lookup finds its id in some row's note,
  // though none was made for it before.
  ghost predicate Overlooked(mail: Mail, searches: seq<Search>, m: Message, gen: Generator) {
    && !HasOwn(mail.table, m)
    && forall i: nat, j: nat :: At(searches, i, j, m) ==> Processed(Before(mail, searches, i, j, gen).table, m)
  }

  ghost predicate NoneOverlooked(mail: Mail, searches: seq<Search>, now: int, gen: Generator) {
    forall m :: m in Messages(searches) && Due(m, mail.since, now) && Overlooked(mail, searches, m, gen) ==>
      NothingToImport(Import(mail.table, searches, mail.since, gen).table, m)
  }

  // The message is looked at again, has its invoice, or holds none.
  ghost predicate Kept(mail: Mail, searches: seq<Search>, now: int, m: Message, gen: Generator) {
    var after := Synced(mail, searches, now, gen);
    !TooOld(m, after.since) || Served(mail, searches, m, gen) || NothingToImport(after.table, m)
  }

  // No due message gets lost, of any mailbox with which the import ends as it did: one
  // that was cut short has not seen the whole mailbox.
  ghost predicate LosesNothing(mail: Mail, searches: seq<Search>, now: int, gen: Generator) {
    var r := Import(mail.table, searches, mail.since, gen);
    forall more: seq<Search>, m ::
      && (r.aborted || more == [])
      && FreshNumbers(gen, mail.table, searches + more)
      && Import(mail.table, searches + more, mail.since, gen) == r
      && m in Messages(searches + more) && Due(m, mail.since, now)
      ==> Kept(mail, searches + more, now, m, gen)
  }

  // ---------- From one hit to the end of the import ----------

  lemma StepAt(mail: Mail, searches: seq<Search>, i: nat, j: nat, m: Message, gen: Generator)
    requires At(searches, i, j, m) && !Before(mail, searches, i, j, gen).aborted
    ensures var start, raws := SearchAll(Start(mail), searches[..i], mail.since, gen), searches[i].raws;
            && !start.aborted
            && HandleAll(start, raws[..j + 1], mail.since, gen)
               == Handle(Before(mail, searches, i, j, gen), m, mail.since, gen)
            && SearchAll(Start(mail), searches[..i + 1], mail.since, gen) == HandleAll(start, raws, mail.since, gen)
  {
    hide Handle;
    var start, raws := SearchAll(Start(mail), searches[..i], mail.since, gen), searches[i].raws;
    assert raws[..j + 1][..j] == raws[..j] && raws[..j + 1][j] == raws[j];
    assert searches[..i + 1][..i] == searches[..i] && searches[..i + 1][i] == searches[i];
    if start.aborted {
      AbortedMessageStays(start, raws[..j], mail.since, gen, 0);
    }
  }

  // What a hit adds to the table is there at the end.
  lemma HitStays(mail: Mail, searches: seq<Search>, i: nat, j: nat, m: Message, gen: Generator)
    requires At(searches, i, j, m) && !Before(mail, searches, i, j, gen).aborted
    ensures Extends(Handle(Before(mail, searches, i, j, gen), m, mail.since, gen).table,
                    Import(mail.table, searches, mail.since, gen).table)
  {
    hide Handle, HandleAll, SearchAll, Before;
    StepAt(mail, searches, i, j, m, gen);
    var start := SearchAll(Start(mail), searches[..i], mail.since, gen);
    HandleAllExtends(start, searches[i].raws, mail.since, gen, j + 1);
    SearchAllExtends(Start(mail), searches, mail.since, gen, i + 1);
  }

  // An import that ran to its end was never cut short.
  lemma NeverAborted(mail: Mail, searches: seq<Search>, i: nat, j: nat, m: Message, gen: Generator)
    requires At(searches, i, j, m) && !Import(mail.table, searches, mail.since, gen).aborted
    ensures var p := Before(mail, searches, i, j, gen);
            !p.aborted && !Handle(p, m, mail.since, gen).aborted
  {
    hide Handle;
    var start, raws := SearchAll(Start(mail), searches[..i], mail.since, gen), searches[i].raws;
    if start.aborted {
      AbortedSearchStays(Start(mail), searches, mail.since, gen, i);
    } else {
      assert searches[..i + 1][..i] == searches[..i] && searches[..i + 1][i] == searches[i];
      if HandleAll(start, raws, mail.since, gen).aborted {
        AbortedSearchStays(Start(mail), searches, mail.since, gen, i + 1);
      } else {
        if HandleAll(start, raws[..j], mail.since, gen).aborted {
          AbortedMessageStays(start, raws, mail.since, gen, j);
        } else {
          assert raws[..j + 1][..j] == raws[..j] && raws[..j + 1][j] == raws[j];
          if HandleAll(start, raws[..j + 1], mail.since, gen).aborted {
            AbortedMessageStays(start, raws, mail.since, gen, j + 1);
          }
        }
      }
    }
  }

  lemma NumberedBefore(mail: Mail, searches: seq<Search>, i: nat, j: nat, m: Message, gen: Generator)
    requires FreshNumbers(gen, mail.table, searches) && At(searches, i, j, m)
    requires !Before(mail, searches, i, j, gen).aborted
    ensures Numbered(gen, mail.table, Extractions(searches), Before(mail, searches, i, j, gen))
  {
    hide HandleAll, SearchAll, RawExtractions;
    StepAt(mail, searches, i, j, m, gen);
    var found, front, raws := Extractions(searches), searches[..i], searches[i].raws;
    assert Extractions(front) <= found;
    SearchAllSettles(gen, mail.table, found, Start(mail), front, mail.since);
    assert RawExtractions(raws) <= found;
    FewerExtractions(raws, j);
    HandleAllSettles(gen, mail.table, found, SearchAll(Start(mail), front, mail.since, gen), raws[..j], mail.since);
  }

  lemma FewerExtractions(raws: seq<Raw>, j: nat)
    requires j <= |raws|
    ensures RawExtractions(raws[..j]) <= RawExtractions(raws)
  {
  }

  // ---------- Which message gets its invoice ----------

  // Where the lookup finds nothing, the message gets its invoice or holds none.
  lemma FirstHitServes(mail: Mail, searches: seq<Search>, i: nat, j: nat, m: Message, gen: Generator)
    requires FreshNumbers(gen, mail.table, searches) && !Import(mail.table, searches, mail.since, gen).aborted
    requires At(searches, i, j, m) && !TooOld(m, mail.since) && !Processed(Before(mail, searches, i, j, gen).table, m)
    ensures MadeAt(mail, searches, i, j, m, gen)
            || NothingToImport(Import(mail.table, searches, mail.since, gen).table, m)
  {
    hide Import, Before, FreshNumbers, Processed, LooksLikeInvoice, Taken, Numbered, TryPdfs, Dead;
    NeverAborted(mail, searches, i, j, m, gen);
    NumberedBefore(mail, searches, i, j, m, gen);
    HitStays(mail, searches, i, j, m, gen);
    var p := Before(mail, searches, i, j, gen);
    FoundHere(searches, i, j, m);
    PdfsSettle(gen, mail.table, Extractions(searches), p, m, Pdfs(m.attachments));
    PdfsExtend(p, m, Pdfs(m.attachments), gen);
    if !TryPdfs(p, m, Pdfs(m.attachments), gen).1 && !LooksLikeInvoice(m.subject) {
      forall e | e in Pdfs(m.attachments)
        ensures Dead(Import(mail.table, searches, mail.since, gen).table, e)
      {
        StaysDead(p.table, Import(mail.table, searches, mail.since, gen).table, e);
      }
    }
  }

  lemma FoundHere(searches: seq<Search>, i: nat, j: nat, m: Message)
    requires At(searches, i, j, m)
    ensures m in Messages(searches) && forall e :: e in Pdfs(m.attachments) ==> e in Extractions(searches)
  {
    var raws := searches[i].raws;
    assert m in RawMessages(raws);
    assert forall e :: e in Pdfs(raws[j].message.attachments) ==> e in RawExtractions(raws);
  }

  lemma StaysDead(a: seq<Invoice>, b: seq<Invoice>, e: Extraction)
    requires Extends(a, b) && Dead(a, e)
    ensures Dead(b, e)
  {
  }

  /** When an import gets to a mail that it does not pass over, the number in one of the
      mail's PDFs gets into the table with that mail's row, and stays there, if and only if
      no row has the number yet and no PDF before it can be inserted. */
  lemma NumberAtHitIff(mail: Mail, searches: seq<Search>, i: nat, j: nat, m: Message, gen: Generator, k: nat, n: string)
    requires FreshNumbers(gen, mail.table, searches) && At(searches, i, j, m)
    requires var p := Before(mail, searches, i, j, gen);
             !p.aborted && !TooOld(m, mail.since) && !Processed(p.table, m)
    requires var pdfs := Pdfs(m.attachments);
             k < |pdfs| && pdfs[k] == Found(n) && n != "" && forall l :: 0 <= l < k ==> pdfs[l] != Found(n)
    ensures var p := Before(mail, searches, i, j, gen);
            var t := Handle(p, m, mail.since, gen).table;
            && (RowFor(m, n) in t <==>
                !Taken(p.table, n) && forall l :: 0 <= l < k ==> Dead(p.table, Pdfs(m.attachments)[l]))
            && (RowFor(m, n) in t ==> RowFor(m, n) in Import(mail.table, searches, mail.since, gen).table)
  {
    hide Handle, Before, FreshNumbers, Processed, Taken, Dead, Numbered, Pdfs, Import;
    NumberedBefore(mail, searches, i, j, m, gen);
    FoundHere(searches, i, j, m);
    var p := Before(mail, searches, i, j, gen);
    NumberFromOwnMailIff(gen, mail.table, Extractions(searches), p, m, mail.since, k, n);
    HitStays(mail, searches, i, j, m, gen);
  }

  /** A completed import leaves a message that is not too old and holds something to import
      with its invoice if and only if it does not overlook it. */
  lemma ServedIff(mail: Mail, searches: seq<Search>, m: Message, gen: Generator)
    requires FreshNumbers(gen, mail.table, searches) && !Import(mail.table, searches, mail.since, gen).aborted
    requires m in Messages(searches) && !TooOld(m, mail.since)
    requires !NothingToImport(Import(mail.table, searches, mail.since, gen).table, m)
    ensures Served(mail, searches, m, gen) <==> !Overlooked(mail, searches, m, gen)
  {
    hide Import, Before, FreshNumbers, Processed, NothingToImport, Messages, HasOwn;
    if !Overlooked(mail, searches, m, gen) && !HasOwn(mail.table, m) {
      var i: nat, j: nat :| At(searches, i, j, m) && !Processed(Before(mail, searches, i, j, gen).table, m);
      FirstHitServes(mail, searches, i, j, m, gen);
    }
  }

  /** A synchronisation loses no mail if and only if its import created nothing, or ran to
      its end and overlooked no message with anything to import. One that fails after its
      first invoice still moves the date to now; and one that completes passes over every
      message whose id it finds in the note of an invoice made for another. */
  lemma LosesNothingIff(mail: Mail, searches: seq<Search>, now: int, gen: Generator)
    requires FreshNumbers(gen, mail.table, searches) && mail.since < now
    ensures var r := Import(mail.table, searches, mail.since, gen);
            LosesNothing(mail, searches, now, gen) <==>
            r.created == [] || (!r.aborted && NoneOverlooked(mail, searches, now, gen))
  {
    hide Import, FreshNumbers, Messages, NothingToImport, Served, Overlooked;
    var r := Import(mail.table, searches, mail.since, gen);
    assert searches + [] == searches;
    if !r.aborted {
      forall m | m in Messages(searches) && Due(m, mail.since, now) && !NothingToImport(r.table, m)
        ensures Served(mail, searches, m, gen) <==> !Overlooked(mail, searches, m, gen)
      {
        ServedIff(mail, searches, m, gen);
      }
    } else if r.created != [] {
      var m := Unmentioned(r.table, mail.since);
      var more := [Hits([Parsed(m)])];
      BehindTheAbort(mail, searches, m, gen);
      NotServed(mail, searches + more, m, gen);
      HoldsInvoice(r.table, m);
      assert !Kept(mail, searches + more, now, m, gen);
      assert FreshNumbers(gen, mail.table, searches + more);
      assert Import(mail.table, searches + more, mail.since, gen) == r;
      assert m in Messages(searches + more);
      assert Due(m, mail.since, now);
      assert LosesNothing(mail, searches, now, gen) ==> Kept(mail, searches + more, now, m, gen);
    }
  }

  lemma HoldsInvoice(table: seq<Invoice>, m: Message)
    requires LooksLikeInvoice(m.subject)
    ensures !NothingToImport(table, m)
  {
  }

  // A message that no note mentions at the end has no invoice.
  lemma NotServed(mail: Mail, searches: seq<Search>, m: Message, gen: Generator)
    requires !Processed(Import(mail.table, searches, mail.since, gen).table, m)
    ensures !Served(mail, searches, m, gen)
  {
    hide Before, Processed, SearchAll, Handle;
    var r := Import(mail.table, searches, mail.since, gen);
    if HasOwn(mail.table, m) {
      SearchAllExtends(Start(mail), searches, mail.since, gen, 0);
      NoSearches(Start(mail), searches, mail.since, gen);
      OwnIsMention(mail.table, r.table, m);
    }
    forall i: nat, j: nat | At(searches, i, j, m)
      ensures !MadeAt(mail, searches, i, j, m, gen)
    {
      if MadeAt(mail, searches, i, j, m, gen) {
        HitStays(mail, searches, i, j, m, gen);
        HandleExtends(Before(mail, searches, i, j, gen), m, mail.since, gen);
        OwnIsMention(Handle(Before(mail, searches, i, j, gen), m, mail.since, gen).table, r.table, m);
      }
    }
  }

  lemma OwnIsMention(a: seq<Invoice>, b: seq<Invoice>, m: Message)
    requires Extends(a, b) && HasOwn(a, m)
    ensures Processed(b, m)
  {
    hide EmailId;
    ContainsSuffix("Email ID: ", EmailId(m));
    var i :| 0 <= i < |a| && a[i].note == Some(NoteFor(m));
    assert b[i] == a[i] && Mentions(b[i], EmailId(m));
  }

  // A mailbox that goes on with m: the import that was cut short does not notice.
  lemma BehindTheAbort(mail: Mail, searches: seq<Search>, m: Message, gen: Generator)
    requires FreshNumbers(gen, mail.table, searches) && Import(mail.table, searches, mail.since, gen).aborted
    requires m.attachments == []
    ensures var more := [Hits([Parsed(m)])];
            && FreshNumbers(gen, mail.table, searches + more)
            && Import(mail.table, searches + more, mail.since, gen) == Import(mail.table, searches, mail.since, gen)
            && m in Messages(searches + more)
  {
    hide SearchAll;
    var more := [Hits([Parsed(m)])];
    var all := searches + more;
    assert all[..|searches|] == searches;
    AbortedSearchStays(Start(mail), all, mail.since, gen, |searches|);
    assert At(all, |searches|, 0, m);
    FoundHere(all, |searches|, 0, m);
    SameExtractions(searches, m);
  }

  lemma SameExtractions(searches: seq<Search>, m: Message)
    requires m.attachments == []
    ensures Extractions(searches + [Hits([Parsed(m)])]) == Extractions(searches)
  {
    var all := searches + [Hits([Parsed(m)])];
    assert RawExtractions([Parsed(m)]) == {};
    forall e
      ensures e in Extractions(all) <==> e in Extractions(searches)
    {
      assert forall i :: 0 <= i < |searches| ==> all[i] == searches[i];
      assert all[|searches|] == Hits([Parsed(m)]);
    }
  }

  // ---------- A message that is in no note ----------

  lemma {:induction false} ContainsLength(s: string, p: string)
    requires Contains(s, p)
    ensures |p| <= |s|
  {
    if !StartsWith(s, p) { ContainsLength(s[1..], p); }
  }

  function LongestNote(table: seq<Invoice>): (n: nat)
    ensures forall i :: 0 <= i < |table| && table[i].note.Some? ==> |table[i].note.value| <= n
  {
    if table == [] then 0
    else
      var last := table[|table| - 1];
      var n := LongestNote(table[..|table| - 1]);
      if last.note.Some? && |last.note.value| > n then |last.note.value| else n
  }

  lemma Unmentioned(table: seq<Invoice>, date: int) returns (m: Message)
    ensures m.date == Some(date) && m.attachments == [] && LooksLikeInvoice(m.subject) && !Processed(table, m)
  {
    var from := seq(LongestNote(table) + 1, _ => 'x');
    m := Message("", 0, from, Some("invoice"), Some(date), "", []);
    forall i | 0 <= i < |table|
      ensures !Mentions(table[i], EmailId(m))
    {
      if Mentions(table[i], EmailId(m)) { ContainsLength(table[i].note.value, EmailId(m)); }
    }
    InvoiceLooksLikeInvoice();
  }

  lemma {:induction false} LowerOfLower(s: string)
    requires forall i :: 0 <= i < |s| ==> !('A' <= s[i] <= 'Z')
    ensures Lower(s) == s
  {
    if s != "" {
      LowerOfLower(s[1..]);
      assert s == [s[0]] + s[1..];
    }
  }

  lemma InvoiceLooksLikeInvoice()
    ensures LooksLikeInvoice(Some("invoice"))
  {
    hide Lower;
    LowerOfLower("invoice");
    assert StartsWith("invoice", "invoice");
  }

  // ---------- Inputs that lose mail ----------

  /** It takes no more than one invoice and then a failing search to abort too late. */
  lemma AbortAfterCreating(since: int, gen: Generator)
    ensures var m := Message("u", 1, "a@b.nl", Some("invoice"), Some(since), "", []);
            var r := Import([], [Hits([Parsed(m)]), SearchFailed], since, gen);
            r.aborted && |r.created| == 1
  {
    var m := Message("u", 1, "a@b.nl", Some("invoice"), Some(since), "", []);
    var p := Progress([], [], 0, false);
    var raws, searches := [Parsed(m)], [Hits([Parsed(m)]), SearchFailed];
    InvoiceLooksLikeInvoice();
    assert raws[..0] == [] && HandleAll(p, raws, since, gen) == Handle(p, m, since, gen);
    assert searches[..1] == [Hits(raws)] && searches[..1][..0] == [];
    assert SearchAll(p, [Hits(raws)], since, gen) == HandleAll(p, raws, since, gen);
  }

  // Two messages, the second of which has its id in the note of the first one's invoice.
  lemma SecondIsOverlooked(first: Message, second: Message, number: string, since: int, gen: Generator)
    requires Pdfs(first.attachments) == [Found(number)] && number != "" && !TooOld(first, since)
    requires Contains(NoteFor(first), EmailId(second))
    ensures var row := Invoice(number, Some(NoteFor(first)), true, Some(first));
            Import([], [Hits([Parsed(first), Parsed(second)])], since, gen) == Progress([row], [row], 0, false)
  {
    hide NoteFor, EmailId, Contains, LooksLikeInvoice, Pdfs;
    var p, row := Progress([], [], 0, false), Invoice(number, Some(NoteFor(first)), true, Some(first));
    var raws, searches := [Parsed(first), Parsed(second)], [Hits([Parsed(first), Parsed(second)])];
    var q := Progress([row], [row], 0, false);
    assert p.table + [row] == [row] && p.created + [row] == [row];
    assert !Taken(p.table, number) && TryPdf(p, first, Found(number), gen) == (q, true);
    assert [Found(number)][0] == Found(number) && TryPdfs(p, first, [Found(number)], gen) == (q, true);
    assert Handle(p, first, since, gen) == q;
    assert Mentions(q.table[0], EmailId(second)) && Handle(q, second, since, gen) == q;
    assert raws[..1] == [Parsed(first)] && raws[..1][..0] == [] && searches[..0] == [];
    assert HandleAll(p, raws[..1], since, gen) == q && raws[..|raws| - 1] == raws[..1];
    assert HandleAll(p, raws, since, gen) == Handle(q, second, since, gen);
    NoSearches(p, searches, since, gen);
    assert SearchAll(p, searches, since, gen) == HandleAll(p, raws, since, gen);
  }

  /** Two mails of one sender, subject and second with an invoice each: the second mail's
      invoice is not imported, and the mail is too old from then on. */
  lemma TwoMailsOneInvoice(subject: string, date: int, iso: string, now: int, gen: Generator)
    requires date < now
    ensures var first := Message("u", 1, "a@b.nl", Some(subject), Some(date), iso, [Attachment(true, Found("1"))]);
            var second := first.(uid := 2, attachments := [Attachment(true, Found("2"))]);
            var searches := [Hits([Parsed(first), Parsed(second)])];
            var r := Import([], searches, date, gen);
            && !r.aborted && |r.table| == 1 && r.table[0].number == "1"
            && TooOld(second, Synced(Mail([], date, date), searches, now, gen).since)
  {
    var first := Message("u", 1, "a@b.nl", Some(subject), Some(date), iso, [Attachment(true, Found("1"))]);
    var second := first.(uid := 2, attachments := [Attachment(true, Found("2"))]);
    OnlyPdf(first, Found("1"));
    hide EmailId;
    assert EmailId(first) == EmailId(second) by { SameId(first, second); }
    ContainsSuffix("Email ID: ", EmailId(second));
    SecondIsOverlooked(first, second, "1", date, gen);
  }

  lemma SameId(a: Message, b: Message)
    requires a.from == b.from && a.subject == b.subject && a.date == b.date && a.isoDate == b.isoDate
    ensures EmailId(a) == EmailId(b)
  {
  }

  lemma OnlyPdf(m: Message, e: Extraction)
    requires m.attachments == [Attachment(true, e)]
    ensures Pdfs(m.attachments) == [e]
  {
    assert m.attachments[1..] == [];
  }

  /** The same happens to a sender whose address is the end of another's. */
  lemma SuffixIsOverlooked(subject: string, date: int, iso: string, now: int, e: Extraction, gen: Generator)
    requires date < now
    ensures var first := Message("u", 1, "aa@b.nl", Some(subject), Some(date), iso, [Attachment(true, Found("1"))]);
            var second := Message("u", 2, "a@b.nl", Some(subject), Some(date), iso, [Attachment(true, e)]);
            var searches := [Hits([Parsed(first), Parsed(second)])];
            var r := Import([], searches, date, gen);
            && !r.aborted && |r.table| == 1 && r.table[0].number == "1"
            && TooOld(second, Synced(Mail([], date, date), searches, now, gen).since)
  {
    var first := Message("u", 1, "aa@b.nl", Some(subject), Some(date), iso, [Attachment(true, Found("1"))]);
    var second := Message("u", 2, "a@b.nl", Some(subject), Some(date), iso, [Attachment(true, e)]);
    OnlyPdf(first, Found("1"));
    assert "aa@b.nl" == "a" + "a@b.nl";
    assert EmailId(first) == "a" + EmailId(second);
    hide EmailId;
    assert NoteFor(first) == ("Email ID: " + "a") + EmailId(second);
    ContainsSuffix("Email ID: " + "a", EmailId(second));
    SecondIsOverlooked(first, second, "1", date, gen);
  }

  // A synchronisation that finds known mail, and after it one new mail with an invoice.
  lemma OneNewMail(mail: Mail, known: seq<Raw>, third: Message, number: string, now: int, gen: Generator)
    requires RawsSettled(mail.table, known, mail.since) && !TooOld(third, mail.since) && !Processed(mail.table, third)
    requires Pdfs(third.attachments) == [Found(number)] && number != "" && !Taken(mail.table, number)
    ensures var row := Invoice(number, Some(NoteFor(third)), true, Some(third));
            var searches := [Hits(known + [Parsed(third)])];
            && Import(mail.table, searches, mail.since, gen) == Progress(mail.table + [row], [row], 0, false)
            && Synced(mail, searches, now, gen) == mail.(table := mail.table + [row], since := now)
            && forall j :: 0 <= j < |known| ==> Before(mail, searches, 0, j, gen) == Start(mail)
  {
    hide NoteFor, EmailId, LooksLikeInvoice, Pdfs, RawsSettled, Processed, Taken;
    var p, raws := Start(mail), known + [Parsed(third)];
    var row, searches := Invoice(number, Some(NoteFor(third)), true, Some(third)), [Hits(known + [Parsed(third)])];
    var q := Progress(mail.table + [row], [row], 0, false);
    assert p.created + [row] == [row];
    assert [Found(number)][0] == Found(number) && TryPdf(p, third, Found(number), gen) == (q, true);
    assert TryPdfs(p, third, [Found(number)], gen) == (q, true);
    assert Handle(p, third, mail.since, gen) == q;
    HandleAllSettled(p, known, mail.since, gen);
    assert raws[..|raws| - 1] == known;
    assert HandleAll(p, raws, mail.since, gen) == q;
    NoSearches(p, searches, mail.since, gen);
    assert SearchAll(p, searches, mail.since, gen) == HandleAll(p, raws, mail.since, gen);
    forall j | 0 <= j < |known|
      ensures Before(mail, searches, 0, j, gen) == p
    {
      assert raws[..j] == known[..j];
      FewerSettled(mail.table, known, j, mail.since);
      HandleAllSettled(p, known[..j], mail.since, gen);
    }
  }

  lemma FewerSettled(table: seq<Invoice>, raws: seq<Raw>, j: nat, since: int)
    requires RawsSettled(table, raws, since) && j <= |raws|
    ensures RawsSettled(table, raws[..j], since)
  {
    hide Settled;
  }

  // Of such a synchronisation a known mail that another mail's row hides is lost.
  lemma HiddenIsLost(mail: Mail, known: seq<Raw>, k: nat, second: Message, number2: string, third: Message,
                     number3: string, now: int, gen: Generator)
    requires k < |known| && known[k] == Parsed(second) && Due(second, mail.since, now)
    requires RawsSettled(mail.table, known, mail.since) && Processed(mail.table, second) && !HasOwn(mail.table, second)
    requires !TooOld(third, mail.since) && !Processed(mail.table, third)
    requires Pdfs(third.attachments) == [Found(number3)] && number3 != "" && !Taken(mail.table, number3)
    requires Pdfs(second.attachments) == [Found(number2)] && !Taken(mail.table, number2) && number2 != number3
    requires third != second && FreshNumbers(gen, mail.table, [Hits(known + [Parsed(third)])])
    ensures var searches := [Hits(known + [Parsed(third)])];
            var after := Synced(mail, searches, now, gen);
            && !LosesNothing(mail, searches, now, gen)
            && TooOld(second, after.since) && !Taken(after.table, number2)
  {
    hide Import, Before, Processed, HasOwn, FreshNumbers, RawsSettled, Messages, Pdfs, LooksLikeInvoice, LosesNothing,
         NoteFor;
    var searches := [Hits(known + [Parsed(third)])];
    OneNewMail(mail, known, third, number3, now, gen);
    assert At(searches, 0, k, second);
    FoundHere(searches, 0, k, second);
    var t := mail.table + [Invoice(number3, Some(NoteFor(third)), true, Some(third))];
    assert !Taken(t, number2);
    assert Found(number2) in Pdfs(second.attachments) && !Dead(t, Found(number2));
    forall i: nat, j: nat | At(searches, i, j, second)
      ensures Processed(Before(mail, searches, i, j, gen).table, second)
    {
      assert i == 0 && j < |known|;
    }
    assert Overlooked(mail, searches, second, gen) && !NothingToImport(t, second);
    LosesNothingIff(mail, searches, now, gen);
  }

  function MailFrom(mailbox: string, uid: nat, from: string, subject: string, date: int, iso: string,
                    number: string): Message {
    Message(mailbox, uid, from, Some(subject), Some(date), iso, [Attachment(true, Found(number))])
  }

  // A row hides every mail with the header of its own, but not one from a longer address.
  lemma HeaderHides(first: Message, second: Message, third: Message, number: string)
    requires first.from == second.from && first.subject == second.subject == third.subject
    requires first.date == second.date == third.date && first.isoDate == second.isoDate == third.isoDate
    requires |third.from| > |first.from| + |"Email ID: "|
    ensures Processed([RowFor(first, number)], second) && !Processed([RowFor(first, number)], third)
    ensures HasOwn([RowFor(first, number)], second) <==> first == second
  {
    SameId(first, second);
    ContainsSuffix("Email ID: ", EmailId(second));
    assert Mentions([RowFor(first, number)][0], EmailId(second));
    if Mentions([RowFor(first, number)][0], EmailId(third)) { ContainsLength(NoteFor(first), EmailId(third)); }
    if first == second { assert [RowFor(first, number)][0].madeFor == Some(second); }
  }

  /** Two steps lose a mail whose twin came first: a reading on request imports the first
      and leaves the date alone; the next synchronisation imports a third mail, moves the
      date, and the second mail's invoice is in no row. */
  lemma RereadThenSyncLoses(subject: string, date: int, iso: string, now: int, gen: Generator)
    requires date < now
    requires var first := MailFrom("u", 1, "a@b.nl", subject, date, iso, "1");
             var second := MailFrom("u", 2, "a@b.nl", subject, date, iso, "2");
             var third := MailFrom("u", 3, "another.sender@c.nl", subject, date, iso, "3");
             FreshNumbers(gen, [RowFor(first, "1")], [Hits([Parsed(first), Parsed(second)] + [Parsed(third)])])
    ensures var first := MailFrom("u", 1, "a@b.nl", subject, date, iso, "1");
            var second := MailFrom("u", 2, "a@b.nl", subject, date, iso, "2");
            var third := MailFrom("u", 3, "another.sender@c.nl", subject, date, iso, "3");
            var read := Apply(Mail([], date, date), Reread([Hits([Parsed(first), Parsed(second)])], gen));
            var searches := [Hits([Parsed(first), Parsed(second)] + [Parsed(third)])];
            var after := Synced(read, searches, now, gen);
            && read == Mail([RowFor(first, "1")], date, date) && !LosesNothing(read, searches, now, gen)
            && TooOld(second, after.since) && !Taken(after.table, "2")
  {
    var first := MailFrom("u", 1, "a@b.nl", subject, date, iso, "1");
    var second := MailFrom("u", 2, "a@b.nl", subject, date, iso, "2");
    var third := MailFrom("u", 3, "another.sender@c.nl", subject, date, iso, "3");
    OnlyPdf(first, Found("1"));
    OnlyPdf(second, Found("2"));
    OnlyPdf(third, Found("3"));
    SameId(first, second);
    hide EmailId, Import;
    ContainsSuffix("Email ID: ", EmailId(second));
    SecondIsOverlooked(first, second, "1", date, gen);
    HeaderHides(first, second, third, "1");
    HeaderHides(first, first, third, "1");
    Different("1", "2");
    var known := [Parsed(first), Parsed(second)];
    HiddenIsLost(Mail([RowFor(first, "1")], date, date), known, 1, second, "2", third, "3", now, gen);
  }

  lemma Different(a: string, b: string)
    requires a != b
    ensures forall m :: !Taken([RowFor(m, a)], b)
  {
  }

  /** A mail to two users loses the second one theirs: the lookup finds the first one's
      invoice, and the synchronisation that imports any other mail moves past it. */
  lemma OtherUsersCopyHides(subject: string, date: int, iso: string, now: int, gen: Generator)
    requires date < now
    requires var first := MailFrom("u", 1, "a@b.nl", subject, date, iso, "1");
             var second := MailFrom("v", 1, "a@b.nl", subject, date, iso, "2");
             var third := MailFrom("v", 2, "another.sender@c.nl", subject, date, iso, "3");
             FreshNumbers(gen, [RowFor(first, "1")], [Hits([Parsed(second)] + [Parsed(third)])])
    ensures var first := MailFrom("u", 1, "a@b.nl", subject, date, iso, "1");
            var second := MailFrom("v", 1, "a@b.nl", subject, date, iso, "2");
            var third := MailFrom("v", 2, "another.sender@c.nl", subject, date, iso, "3");
            var mail, searches := Mail([RowFor(first, "1")], date, date), [Hits([Parsed(second)] + [Parsed(third)])];
            var after := Synced(mail, searches, now, gen);
            !LosesNothing(mail, searches, now, gen) && TooOld(second, after.since) && !Taken(after.table, "2")
  {
    var first := MailFrom("u", 1, "a@b.nl", subject, date, iso, "1");
    var second := MailFrom("v", 1, "a@b.nl", subject, date, iso, "2");
    var third := MailFrom("v", 2, "another.sender@c.nl", subject, date, iso, "3");
    OnlyPdf(second, Found("2"));
    OnlyPdf(third, Found("3"));
    HeaderHides(first, second, third, "1");
    Different("1", "2");
    Different("1", "3");
    assert "u"[0] != "v"[0];
    HiddenIsLost(Mail([RowFor(first, "1")], date, date), [Parsed(second)], 0, second, "2", third, "3", now, gen);
  }

  // ---------- Ever after ----------

  // What can happen later: a synchronisation, a reset of the date, a reading from the date
  // of the configuration that leaves the date alone, or an import from another mailbox
  // into the table that all users share.
  datatype Later =
    | Sync(searches: seq<Search>, at: int, gen: Generator)
    | Reset
    | Reread(searches: seq<Search>, gen: Generator)
    | Elsewhere(searches: seq<Search>, from: int, gen: Generator)

  predicate LooksBack(later: Later) {
    later.Reset? || later.Reread?
  }

  function Apply(mail: Mail, later: Later): Mail {
    match later
    case Sync(searches, at, gen) => Synced(mail, searches, at, gen)
    case Reset => mail.(since := mail.createdAt)
    case Reread(searches, gen) => mail.(table := Import(mail.table, searches, mail.createdAt, gen).table)
    case Elsewhere(searches, from, gen) => mail.(table := Import(mail.table, searches, from, gen).table)
  }

  /** A reset and a reading on request move a user's date as these do. */
  lemma ResetMovesSince(st: Billing.State, user: Billing.UserId, r: Billing.Reading, mail: Mail)
    requires user in st.configs && st.configs[user].createdAt == mail.createdAt
    requires Billing.EffectiveSince(st.configs[user]) == mail.since
    requires r.latest.Some? ==> r.latest.value in st.histories
    ensures var c := Billing.ResetLastSync(st.configs, user);
            user in c && Billing.EffectiveSince(c[user]) == Apply(mail, Reset).since
    ensures var c := Billing.ReadMail(st, user, r).0;
            user in c && Billing.EffectiveSince(c[user]) == mail.since
  {
    hide Billing.MayRead;
  }

  function After(mail: Mail, laters: seq<Later>): Mail {
    if laters == [] then mail else Apply(After(mail, laters[..|laters| - 1]), laters[|laters| - 1])
  }

  // The date that the k-th of them reads from; for the last k, a next synchronisation.
  function ReadsFrom(mail: Mail, laters: seq<Later>, k: nat): int
    requires k <= |laters|
  {
    if k < |laters| && laters[k].Reread? then mail.createdAt else After(mail, laters[..k]).since
  }

  // The later synchronisations are later.
  ghost predicate InOrder(since: int, laters: seq<Later>) {
    forall i :: 0 <= i < |laters| && laters[i].Sync? ==> since <= laters[i].at
  }

  lemma {:induction false} SinceAfter(mail: Mail, laters: seq<Later>)
    requires InOrder(mail.since, laters) && mail.createdAt <= mail.since
    ensures After(mail, laters).createdAt == mail.createdAt <= After(mail, laters).since
    ensures (forall k :: 0 <= k < |laters| ==> !LooksBack(laters[k])) ==> mail.since <= After(mail, laters).since
  {
    hide Import;
    if laters != [] { SinceAfter(mail, laters[..|laters| - 1]); }
  }

  /** A message that is too old is too old for everything that follows, if and only if the
      user neither resets the date nor has the mailbox read from its configuration on, or
      the message is older than that. */
  lemma LostForGoodIff(mail: Mail, m: Message, laters: seq<Later>)
    requires TooOld(m, mail.since) && InOrder(mail.since, laters) && mail.createdAt <= mail.since
    ensures (forall k :: 0 <= k <= |laters| ==> TooOld(m, ReadsFrom(mail, laters, k))) <==>
            (forall k :: 0 <= k < |laters| ==> !LooksBack(laters[k])) || m.date.value < mail.createdAt
  {
    hide Import;
    forall k | 0 <= k <= |laters|
      ensures mail.createdAt <= ReadsFrom(mail, laters, k)
      ensures (forall l :: 0 <= l < |laters| ==> !LooksBack(laters[l])) ==> mail.since <= ReadsFrom(mail, laters, k)
    {
      SinceAfter(mail, laters[..k]);
    }
    if k :| 0 <= k < |laters| && LooksBack(laters[k]) {
      SinceAfter(mail, laters[..k]);
      assert laters[..k + 1][..k] == laters[..k];
      assert laters[k].Reset? ==> ReadsFrom(mail, laters, k + 1) == mail.createdAt;
      assert laters[k].Reread? ==> ReadsFrom(mail, laters, k) == mail.createdAt;
    }
  }

  /** And an import that reads from a later date does nothing with it. */
  lemma TooOldIsPassedOver(p: Progress, m: Message, since: int, gen: Generator)
    requires TooOld(m, since)
    ensures Handle(p, m, since, gen) == p
  {
  }

  /** A mail hidden by another one's row never gets its invoice, whatever synchronisations,
      resets and readings follow, of any mailbox. */
  lemma {:induction false} HiddenForGood(mail: Mail, laters: seq<Later>, m: Message)
    requires Hidden(mail.table, m)
    ensures Hidden(After(mail, laters).table, m)
    decreases |laters|
  {
    hide Hidden, SearchAll;
    if laters != [] {
      var before, last := After(mail, laters[..|laters| - 1]), laters[|laters| - 1];
      HiddenForGood(mail, laters[..|laters| - 1], m);
      match last
      case Sync(searches, _, gen) => SearchAllKeepsHidden(Start(before), searches, before.since, gen, m);
      case Reset =>
      case Reread(searches, gen) => SearchAllKeepsHidden(Start(before), searches, before.createdAt, gen, m);
      case Elsewhere(searches, from, gen) => SearchAllKeepsHidden(Start(before), searches, from, gen, m);
    }
  }

  /** Every message that an import overlooks, it leaves hidden. */
  lemma OverlookedIsHidden(mail: Mail, searches: seq<Search>, i: nat, j: nat, m: Message, gen: Generator)
    requires At(searches, i, j, m) && Overlooked(mail, searches, m, gen)
    requires !Import(mail.table, searches, mail.since, gen).aborted
    ensures Hidden(Import(mail.table, searches, mail.since, gen).table, m)
  {
    hide Handle, HandleAll, SearchAll, Processed, HasOwn;
    NeverAborted(mail, searches, i, j, m, gen);
    var p, t := Before(mail, searches, i, j, gen), Import(mail.table, searches, mail.since, gen).table;
    StaysProcessed(p, m, mail.since, gen);
    HitStays(mail, searches, i, j, m, gen);
    ProcessedExtends(p.table, t, m);
    if HasOwn(t, m) {
      var k, l := OwnRowFromSearch(Start(mail), searches, mail.since, gen, m);
      assert At(searches, k, l, m);
      StaysProcessed(Before(mail, searches, k, l, gen), m, mail.since, gen);
    }
  }

  lemma StaysProcessed(p: Progress, m: Message, since: int, gen: Generator)
    requires Processed(p.table, m)
    ensures Handle(p, m, since, gen) == p
  {
  }

  lemma ProcessedExtends(a: seq<Invoice>, b: seq<Invoice>, m: Message)
    requires Extends(a, b) && Processed(a, m)
    ensures Processed(b, m)
  {
    hide EmailId;
    var i :| 0 <= i < |a| && Mentions(a[i], EmailId(m));
    assert b[i] == a[i];
  }
}
