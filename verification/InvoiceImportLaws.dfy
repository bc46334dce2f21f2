/** What every import keeps, however it ends, and that importing again finds nothing. */
module InvoiceImportLaws {
  import opened Wrappers
  import opened JsText
  import opened InvoiceImport

  // ---------- Growth: the table is the old one followed by what was created ----------

  ghost predicate Distinct(table: seq<Invoice>) {
    forall i, j :: 0 <= i < j < |table| ==> table[i].number != table[j].number
  }

  function RawMessages(raws: seq<Raw>): set<Message> {
    set i | 0 <= i < |raws| && raws[i].Parsed? :: raws[i].message
  }

  // The messages that the searches find.
  function Messages(searches: seq<Search>): set<Message> {
    set i, m | 0 <= i < |searches| && searches[i].Hits? && m in RawMessages(searches[i].raws) :: m
  }

  // The row at k was imported for an e-mail, one of the given ones, that no earlier row
  // mentions.
  ghost predicate FirstMention(table: seq<Invoice>, k: nat, mail: set<Message>)
    requires k < |table|
  {
    exists m :: m in mail && table[k].note == Some(NoteFor(m)) && table[k].madeFor == Some(m)
                && !Processed(table[..k], m)
  }

  ghost predicate Sound(start: seq<Invoice>, mail: set<Message>, p: Progress) {
    && p.table == start + p.created
    && (Distinct(start) ==> Distinct(p.table))
    && forall k :: |start| <= k < |p.table| ==> FirstMention(p.table, k, mail)
  }

  lemma AddKeepsSound(start: seq<Invoice>, mail: set<Message>, p: Progress, invoice: Invoice, m: Message)
    requires Sound(start, mail, p) && m in mail && !Taken(p.table, invoice.number)
    requires invoice.note == Some(NoteFor(m)) && invoice.madeFor == Some(m) && !Processed(p.table, m)
    ensures Sound(start, mail, Add(p, invoice))
  {
    hide Processed;
    var q := Add(p, invoice);
    assert q.table == start + q.created;
    forall k | |start| <= k < |q.table|
      ensures FirstMention(q.table, k, mail)
    {
      if k < |p.table| {
        assert FirstMention(p.table, k, mail);
        assert q.table[..k] == p.table[..k];
      } else {
        assert q.table[..k] == p.table;
      }
    }
  }

  lemma {:induction false} PdfsKeepSound(start: seq<Invoice>, mail: set<Message>, p: Progress, m: Message,
                                         pdfs: seq<Extraction>, gen: Generator)
    requires Sound(start, mail, p) && m in mail && !Processed(p.table, m)
    ensures var (q, made) := TryPdfs(p, m, pdfs, gen);
            && Sound(start, mail, q)
            && (!made ==> q.table == p.table && q.created == p.created)
    decreases |pdfs|
  {
    hide Sound, Taken, Processed;
    if pdfs != [] {
      match pdfs[0]
      case Unusable => PdfsKeepSound(start, mail, p, m, pdfs[1..], gen);
      case NoInvoice => PdfsKeepSound(start, mail, p, m, pdfs[1..], gen);
      case Found(found) =>
        var (number, p1) := NumberFor(p, found, gen);
        SoundRows(start, mail, p, p1);
        if Taken(p1.table, number) {
          PdfsKeepSound(start, mail, p1, m, pdfs[1..], gen);
        } else {
          AddKeepsSound(start, mail, p1, Invoice(number, Some(NoteFor(m)), true, Some(m)), m);
        }
    }
  }

  lemma SoundRows(start: seq<Invoice>, mail: set<Message>, p: Progress, q: Progress)
    requires Sound(start, mail, p) && q.table == p.table && q.created == p.created
    ensures Sound(start, mail, q)
  {
  }

  lemma HandleKeepsSound(start: seq<Invoice>, mail: set<Message>, p: Progress, m: Message, since: int, gen: Generator)
    requires Sound(start, mail, p) && m in mail
    ensures Sound(start, mail, Handle(p, m, since, gen))
  {
    hide Sound, Taken, Processed, LooksLikeInvoice;
    if !TooOld(m, since) && !Processed(p.table, m) {
      PdfsKeepSound(start, mail, p, m, Pdfs(m.attachments), gen);
      var (p1, made) := TryPdfs(p, m, Pdfs(m.attachments), gen);
      if !made && LooksLikeInvoice(m.subject) {
        var p2 := p1.(drawn := p1.drawn + 1);
        SoundRows(start, mail, p1, p2);
        SoundRows(start, mail, p1, p2.(aborted := true));
        if !Taken(p1.table, gen(p1.drawn)) {
          AddKeepsSound(start, mail, p2, Invoice(gen(p1.drawn), Some(NoteFor(m)), false, Some(m)), m);
        }
      }
    }
  }

  lemma {:induction false} HandleAllKeepsSound(start: seq<Invoice>, mail: set<Message>, p: Progress, raws: seq<Raw>,
                                               since: int, gen: Generator)
    requires Sound(start, mail, p) && RawMessages(raws) <= mail
    ensures Sound(start, mail, HandleAll(p, raws, since, gen))
    decreases |raws|
  {
    hide Sound, Handle;
    if raws != [] {
      assert RawMessages(raws[..|raws| - 1]) <= RawMessages(raws);
      var p1 := HandleAll(p, raws[..|raws| - 1], since, gen);
      HandleAllKeepsSound(start, mail, p, raws[..|raws| - 1], since, gen);
      SoundRows(start, mail, p1, p1.(aborted := true));
      if raws[|raws| - 1].Parsed? {
        assert raws[|raws| - 1].message in RawMessages(raws);
        HandleKeepsSound(start, mail, p1, raws[|raws| - 1].message, since, gen);
      }
    }
  }

  lemma {:induction false} SearchAllKeepsSound(start: seq<Invoice>, mail: set<Message>, p: Progress,
                                               searches: seq<Search>, since: int, gen: Generator)
    requires Sound(start, mail, p) && Messages(searches) <= mail
    ensures Sound(start, mail, SearchAll(p, searches, since, gen))
    decreases |searches|
  {
    hide Sound, HandleAll, RawMessages;
    if searches != [] {
      assert Messages(searches[..|searches| - 1]) <= Messages(searches);
      var p1 := SearchAll(p, searches[..|searches| - 1], since, gen);
      SearchAllKeepsSound(start, mail, p, searches[..|searches| - 1], since, gen);
      SoundRows(start, mail, p1, p1.(aborted := true));
      if searches[|searches| - 1].Hits? {
        assert RawMessages(searches[|searches| - 1].raws) <= Messages(searches);
        HandleAllKeepsSound(start, mail, p1, searches[|searches| - 1].raws, since, gen);
      }
    }
  }

  /** However an import ends, the table is the old table followed by exactly the returned
      invoices, and invoice numbers stay unique. */
  lemma ImportAppends(table: seq<Invoice>, searches: seq<Search>, since: int, gen: Generator)
    ensures var r := Import(table, searches, since, gen);
            r.table == table + r.created && (Distinct(table) ==> Distinct(r.table))
  {
    SearchAllKeepsSound(table, Messages(searches), Progress(table, [], 0, false), searches, since, gen);
  }

  lemma {:induction false} ContainsSuffix(p: string, s: string)
    ensures Contains(p + s, s)
    decreases |p|
  {
    if p == "" {
      assert p + s == s && s[..|s|] == s;
    } else {
      ContainsSuffix(p[1..], s);
      assert (p + s)[1..] == p[1..] + s;
    }
  }

  /** Every invoice is created for an e-mail of the mailbox that no row before it mentions,
      so no two invoices of one import, and none and an older row, are for the same e-mail. */
  lemma OneInvoicePerEmail(table: seq<Invoice>, searches: seq<Search>, since: int, gen: Generator, i: nat, j: nat)
    requires i < j < |Import(table, searches, since, gen).table| && |table| <= j
    ensures var rows := Import(table, searches, since, gen).table;
            exists m :: m in Messages(searches) && rows[j].note == Some(NoteFor(m)) && rows[j].madeFor == Some(m)
              && !Mentions(rows[i], EmailId(m)) && rows[i].note != rows[j].note
  {
    hide EmailId, SearchAll, Messages;
    SearchAllKeepsSound(table, Messages(searches), Progress(table, [], 0, false), searches, since, gen);
    var rows := Import(table, searches, since, gen).table;
    assert FirstMention(rows, j, Messages(searches));
    var m :| m in Messages(searches) && rows[j].note == Some(NoteFor(m)) && rows[j].madeFor == Some(m)
          && !Processed(rows[..j], m);
    assert rows[..j][i] == rows[i];
    ContainsSuffix("Email ID: ", EmailId(m));
  }

  // ---------- Importing again ----------

  // Numbers the generator will never collide on: not in the table, not in any PDF, and
  // never the same twice.
  ghost predicate FreshNumbers(gen: Generator, table: seq<Invoice>, searches: seq<Search>) {
    && (forall a, b :: 0 <= a < b ==> gen(a) != gen(b))
    && (forall a: nat :: !Taken(table, gen(a)) && gen(a) != "")
    && (forall a: nat, e :: e in Extractions(searches) && e.Found? ==> e.number != gen(a))
  }

  function RawExtractions(raws: seq<Raw>): set<Extraction> {
    set i, e | 0 <= i < |raws| && raws[i].Parsed? && e in Pdfs(raws[i].message.attachments) :: e
  }

  function Extractions(searches: seq<Search>): set<Extraction> {
    set i, e | 0 <= i < |searches| && searches[i].Hits? && e in RawExtractions(searches[i].raws) :: e
  }

  // Numbers that can be in the table once some have been drawn.
  ghost predicate Accounted(gen: Generator, p: Progress, table: seq<Invoice>, found: set<Extraction>) {
    forall i :: 0 <= i < |p.table| ==>
      || Taken(table, p.table[i].number) || Found(p.table[i].number) in found
      || exists a :: 0 <= a < p.drawn && p.table[i].number == gen(a)
  }

  // A PDF that cannot yield an invoice any more.
  ghost predicate Dead(table: seq<Invoice>, e: Extraction) {
    e.Found? ==> e.number != "" && Taken(table, e.number)
  }

  // A message an import has nothing left to do for.
  ghost predicate Settled(table: seq<Invoice>, m: Message, since: int) {
    || TooOld(m, since)
    || Processed(table, m)
    || (!LooksLikeInvoice(m.subject) && forall e :: e in Pdfs(m.attachments) ==> Dead(table, e))
  }

  ghost predicate Extends(a: seq<Invoice>, b: seq<Invoice>) {
    |a| <= |b| && b[..|a|] == a
  }

  lemma StaysSettled(a: seq<Invoice>, b: seq<Invoice>, m: Message, since: int)
    requires Extends(a, b) && Settled(a, m, since)
    ensures Settled(b, m, since)
  {
  }

  ghost predicate RawsSettled(table: seq<Invoice>, raws: seq<Raw>, since: int) {
    forall i :: 0 <= i < |raws| ==> raws[i].Parsed? && Settled(table, raws[i].message, since)
  }

  ghost predicate SearchesSettled(table: seq<Invoice>, searches: seq<Search>, since: int) {
    forall i :: 0 <= i < |searches| ==> searches[i].Hits? && RawsSettled(table, searches[i].raws, since)
  }

  // Nothing happens to a settled message.
  lemma {:induction false} DeadPdfs(p: Progress, m: Message, pdfs: seq<Extraction>, gen: Generator)
    requires forall e :: e in pdfs ==> Dead(p.table, e)
    ensures TryPdfs(p, m, pdfs, gen) == (p, false)
    decreases |pdfs|
  {
    hide Taken;
    if pdfs != [] {
      assert pdfs[0] in pdfs;
      DeadPdfs(p, m, pdfs[1..], gen);
    }
  }

  lemma HandleSettled(p: Progress, m: Message, since: int, gen: Generator)
    requires Settled(p.table, m, since)
    ensures Handle(p, m, since, gen) == p
  {
    hide Processed, LooksLikeInvoice;
    if !TooOld(m, since) && !Processed(p.table, m) {
      DeadPdfs(p, m, Pdfs(m.attachments), gen);
    }
  }

  lemma {:induction false} HandleAllSettled(p: Progress, raws: seq<Raw>, since: int, gen: Generator)
    requires RawsSettled(p.table, raws, since) && !p.aborted
    ensures HandleAll(p, raws, since, gen) == p
    decreases |raws|
  {
    hide Settled, Handle;
    if raws != [] {
      HandleAllSettled(p, raws[..|raws| - 1], since, gen);
      HandleSettled(p, raws[|raws| - 1].message, since, gen);
    }
  }

  lemma {:induction false} SearchAllSettled(p: Progress, searches: seq<Search>, since: int, gen: Generator)
    requires SearchesSettled(p.table, searches, since) && !p.aborted
    ensures SearchAll(p, searches, since, gen) == p
    decreases |searches|
  {
    hide RawsSettled, HandleAll;
    if searches != [] {
      SearchAllSettled(p, searches[..|searches| - 1], since, gen);
      HandleAllSettled(p, searches[|searches| - 1].raws, since, gen);
    }
  }

  // ---------- A completed import settles every message ----------

  // What the first run keeps true about numbers.
  ghost predicate Numbered(gen: Generator, start: seq<Invoice>, found: set<Extraction>, p: Progress) {
    && (forall a, b :: 0 <= a < b ==> gen(a) != gen(b))
    && (forall a: nat :: !Taken(start, gen(a)) && gen(a) != "")
    && (forall a: nat, e :: e in found && e.Found? ==> e.number != gen(a))
    && Accounted(gen, p, start, found)
  }

  lemma DrawnIsNew(gen: Generator, start: seq<Invoice>, found: set<Extraction>, p: Progress)
    requires Numbered(gen, start, found, p)
    ensures !Taken(p.table, gen(p.drawn))
  {
  }

  lemma DrawingKeepsNumbered(gen: Generator, start: seq<Invoice>, found: set<Extraction>, p: Progress)
    requires Numbered(gen, start, found, p)
    ensures Numbered(gen, start, found, p.(drawn := p.drawn + 1))
  {
  }

  lemma AddKeepsNumbered(gen: Generator, start: seq<Invoice>, found: set<Extraction>, p: Progress, invoice: Invoice)
    requires Numbered(gen, start, found, p)
    requires Found(invoice.number) in found || exists a :: 0 <= a < p.drawn && invoice.number == gen(a)
    ensures Numbered(gen, start, found, Add(p, invoice))
  {
  }

  lemma {:induction false} PdfsSettle(gen: Generator, start: seq<Invoice>, found: set<Extraction>,
                                      p: Progress, m: Message, pdfs: seq<Extraction>)
    requires Numbered(gen, start, found, p) && forall e :: e in pdfs ==> e in found
    ensures var (q, made) := TryPdfs(p, m, pdfs, gen);
            && Numbered(gen, start, found, q) && Extends(p.table, q.table) && q.aborted == p.aborted
            && (made ==> Processed(q.table, m))
            && (!made ==> q.table == p.table && forall e :: e in pdfs ==> Dead(p.table, e))
    decreases |pdfs|
  {
    hide Numbered, Taken;
    if pdfs != [] {
      var e, rest := pdfs[0], pdfs[1..];
      assert e in pdfs && pdfs == [e] + rest;
      match e
      case Unusable => PdfsSettle(gen, start, found, p, m, rest);
      case NoInvoice => PdfsSettle(gen, start, found, p, m, rest);
      case Found(number) =>
        if number == "" {
          DrawnIsNew(gen, start, found, p);
          DrawingKeepsNumbered(gen, start, found, p);
          var p1 := p.(drawn := p.drawn + 1);
          AddKeepsNumbered(gen, start, found, p1, Invoice(gen(p.drawn), Some(NoteFor(m)), true, Some(m)));
          AddedIsProcessed(p1, m, gen(p.drawn), true);
        } else if Taken(p.table, number) {
          PdfsSettle(gen, start, found, p, m, rest);
        } else {
          AddKeepsNumbered(gen, start, found, p, Invoice(number, Some(NoteFor(m)), true, Some(m)));
          AddedIsProcessed(p, m, number, true);
        }
    }
  }

  lemma AddedIsProcessed(p: Progress, m: Message, number: string, haveAttachment: bool)
    ensures var q := Add(p, Invoice(number, Some(NoteFor(m)), haveAttachment, Some(m)));
            Processed(q.table, m) && Extends(p.table, q.table)
  {
    hide EmailId;
    ContainsSuffix("Email ID: ", EmailId(m));
    var q := Add(p, Invoice(number, Some(NoteFor(m)), haveAttachment, Some(m)));
    assert Mentions(q.table[|p.table|], EmailId(m));
  }

  lemma HandleSettles(gen: Generator, start: seq<Invoice>, found: set<Extraction>, p: Progress, m: Message, since: int)
    requires Numbered(gen, start, found, p) && !p.aborted && forall e :: e in Pdfs(m.attachments) ==> e in found
    ensures var q := Handle(p, m, since, gen);
            !q.aborted && Numbered(gen, start, found, q) && Extends(p.table, q.table) && Settled(q.table, m, since)
  {
    hide Numbered, Taken, Processed, LooksLikeInvoice;
    if !TooOld(m, since) && !Processed(p.table, m) {
      PdfsSettle(gen, start, found, p, m, Pdfs(m.attachments));
      var (p1, made) := TryPdfs(p, m, Pdfs(m.attachments), gen);
      if !made && LooksLikeInvoice(m.subject) {
        DrawnIsNew(gen, start, found, p1);
        DrawingKeepsNumbered(gen, start, found, p1);
        var p2 := p1.(drawn := p1.drawn + 1);
        AddKeepsNumbered(gen, start, found, p2, Invoice(gen(p1.drawn), Some(NoteFor(m)), false, Some(m)));
        AddedIsProcessed(p2, m, gen(p1.drawn), false);
      }
    }
  }

  lemma {:induction false} HandleAllSettles(gen: Generator, start: seq<Invoice>, found: set<Extraction>,
                                            p: Progress, raws: seq<Raw>, since: int)
    requires Numbered(gen, start, found, p) && !p.aborted && RawExtractions(raws) <= found
    ensures var q := HandleAll(p, raws, since, gen);
            !q.aborted ==>
              Numbered(gen, start, found, q) && Extends(p.table, q.table) && RawsSettled(q.table, raws, since)
    decreases |raws|
  {
    hide Numbered, Handle, Settled;
    if raws != [] {
      var front, last := raws[..|raws| - 1], raws[|raws| - 1];
      assert RawExtractions(front) <= RawExtractions(raws);
      HandleAllSettles(gen, start, found, p, front, since);
      var p1 := HandleAll(p, front, since, gen);
      if !p1.aborted && last.Parsed? {
        assert forall e :: e in Pdfs(last.message.attachments) ==> e in RawExtractions(raws);
        HandleSettles(gen, start, found, p1, last.message, since);
        var q := Handle(p1, last.message, since, gen);
        forall i | 0 <= i < |front|
          ensures Settled(q.table, front[i].message, since)
        {
          StaysSettled(p1.table, q.table, front[i].message, since);
        }
      }
    }
  }

  lemma RawsStaySettled(a: seq<Invoice>, b: seq<Invoice>, raws: seq<Raw>, since: int)
    requires Extends(a, b) && RawsSettled(a, raws, since)
    ensures RawsSettled(b, raws, since)
  {
  }

  lemma {:induction false} SearchAllSettles(gen: Generator, start: seq<Invoice>, found: set<Extraction>,
                                            p: Progress, searches: seq<Search>, since: int)
    requires Numbered(gen, start, found, p) && !p.aborted && Extractions(searches) <= found
    ensures var q := SearchAll(p, searches, since, gen);
            !q.aborted ==>
              Numbered(gen, start, found, q) && SearchesSettled(q.table, searches, since)
    decreases |searches|
  {
    hide Numbered, HandleAll, RawsSettled, RawExtractions;
    if searches != [] {
      var front, last := searches[..|searches| - 1], searches[|searches| - 1];
      assert Extractions(front) <= Extractions(searches);
      SearchAllSettles(gen, start, found, p, front, since);
      var p1 := SearchAll(p, front, since, gen);
      if !p1.aborted && last.Hits? {
        assert RawExtractions(last.raws) <= Extractions(searches);
        HandleAllSettles(gen, start, found, p1, last.raws, since);
        var q := HandleAll(p1, last.raws, since, gen);
        if !q.aborted {
          forall i | 0 <= i < |front|
            ensures RawsSettled(q.table, front[i].raws, since)
          {
            RawsStaySettled(p1.table, q.table, front[i].raws, since);
          }
        }
      }
    }
  }

  /** An import that ran to its end has read every search and parsed every message, and
      left none it would do anything with: each is too old, or its id is in some row's
      note, or it has neither a PDF that can still be inserted nor an invoice's subject. */
  lemma CompletedImportSettlesAll(table: seq<Invoice>, searches: seq<Search>, since: int, gen: Generator)
    requires FreshNumbers(gen, table, searches) && !Import(table, searches, since, gen).aborted
    ensures var t := Import(table, searches, since, gen).table;
            SearchesSettled(t, searches, since) && forall m :: m in Messages(searches) ==> Settled(t, m, since)
  {
    hide SearchAll, Extractions, Settled;
    SearchAllSettles(gen, table, Extractions(searches), Progress(table, [], 0, false), searches, since);
  }

  // A row made for this very message.
  ghost predicate HasOwn(table: seq<Invoice>, m: Message) {
    exists i :: 0 <= i < |table| && table[i].note == Some(NoteFor(m)) && table[i].madeFor == Some(m)
  }

  // A row made for another message that contains this one's id all the same.
  ghost predicate MentionedElsewhere(table: seq<Invoice>, m: Message) {
    exists i :: 0 <= i < |table| && Mentions(table[i], EmailId(m))
      && !(table[i].note == Some(NoteFor(m)) && table[i].madeFor == Some(m))
  }

  /** After a completed import every message of the mailbox that is not too old and has an
      invoice's subject has its invoice, unless its id is part of the note of a row made for
      another message. */
  lemma CompletedImportInvoices(table: seq<Invoice>, searches: seq<Search>, since: int, gen: Generator, m: Message)
    requires FreshNumbers(gen, table, searches) && !Import(table, searches, since, gen).aborted
    requires m in Messages(searches) && !TooOld(m, since) && LooksLikeInvoice(m.subject)
    ensures var t := Import(table, searches, since, gen).table; HasOwn(t, m) || MentionedElsewhere(t, m)
  {
    hide Import, FreshNumbers, Messages, Mentions, LooksLikeInvoice;
    CompletedImportSettlesAll(table, searches, since, gen);
  }

  /** Importing again from the same mailbox after an import that ran to its end creates
      nothing, whatever numbers are generated the second time. */
  lemma ReimportCreatesNothing(table: seq<Invoice>, searches: seq<Search>, since: int, gen: Generator, gen2: Generator)
    requires FreshNumbers(gen, table, searches) && !Import(table, searches, since, gen).aborted
    ensures var t := Import(table, searches, since, gen).table;
            Import(t, searches, since, gen2) == Progress(t, [], 0, false)
  {
    hide SearchAll, Extractions, FreshNumbers, SearchesSettled;
    CompletedImportSettlesAll(table, searches, since, gen);
    var t := Import(table, searches, since, gen).table;
    SearchAllSettled(Progress(t, [], 0, false), searches, since, gen2);
  }

  // ---------- The table only grows ----------

  lemma AddedIsOwn(p: Progress, m: Message, number: string, haveAttachment: bool)
    ensures var q := Add(p, Invoice(number, Some(NoteFor(m)), haveAttachment, Some(m)));
            HasOwn(q.table, m) && Extends(p.table, q.table) && |q.table| > |p.table|
  {
    var q := Add(p, Invoice(number, Some(NoteFor(m)), haveAttachment, Some(m)));
    assert q.table[|p.table|].note == Some(NoteFor(m));
  }

  lemma {:induction false} PdfsExtend(p: Progress, m: Message, pdfs: seq<Extraction>, gen: Generator)
    ensures var (q, made) := TryPdfs(p, m, pdfs, gen);
            && Extends(p.table, q.table) && (made ==> HasOwn(q.table, m) && |q.table| > |p.table|)
            && (!made ==> q.table == p.table)
    decreases |pdfs|
  {
    hide Taken, NoteFor, HasOwn;
    if pdfs != [] {
      PdfsExtend(TryPdf(p, m, pdfs[0], gen).0, m, pdfs[1..], gen);
      if pdfs[0].Found? {
        var (number, p1) := NumberFor(p, pdfs[0].number, gen);
        AddedIsOwn(p1, m, number, true);
      }
    }
  }

  // Handling a message adds at most a row of its own.
  lemma HandleExtends(p: Progress, m: Message, since: int, gen: Generator)
    ensures var q := Handle(p, m, since, gen);
            Extends(p.table, q.table) && (q.table == p.table || (|q.table| > |p.table| && HasOwn(q.table, m)))
  {
    hide Taken, NoteFor, Processed, LooksLikeInvoice, TryPdfs, HasOwn;
    PdfsExtend(p, m, Pdfs(m.attachments), gen);
    var p1 := TryPdfs(p, m, Pdfs(m.attachments), gen).0;
    AddedIsOwn(p1.(drawn := p1.drawn + 1), m, gen(p1.drawn), false);
  }

  lemma {:induction false} HandleAllExtends(p: Progress, raws: seq<Raw>, since: int, gen: Generator, k: nat)
    requires k <= |raws|
    ensures Extends(HandleAll(p, raws[..k], since, gen).table, HandleAll(p, raws, since, gen).table)
    decreases |raws|
  {
    hide Handle;
    if k == |raws| {
      assert raws[..k] == raws;
    } else {
      var front, last := raws[..|raws| - 1], raws[|raws| - 1];
      assert front[..k] == raws[..k];
      HandleAllExtends(p, front, since, gen, k);
      if last.Parsed? { HandleExtends(HandleAll(p, front, since, gen), last.message, since, gen); }
    }
  }

  lemma {:induction false} SearchAllExtends(p: Progress, searches: seq<Search>, since: int, gen: Generator, k: nat)
    requires k <= |searches|
    ensures Extends(SearchAll(p, searches[..k], since, gen).table, SearchAll(p, searches, since, gen).table)
    decreases |searches|
  {
    hide HandleAll;
    if k == |searches| {
      assert searches[..k] == searches;
    } else {
      var front, last := searches[..|searches| - 1], searches[|searches| - 1];
      assert front[..k] == searches[..k];
      SearchAllExtends(p, front, since, gen, k);
      if last.Hits? {
        var p1 := SearchAll(p, front, since, gen);
        HandleAllExtends(p1, last.raws, since, gen, 0);
        NoRaws(p1, last.raws, since, gen);
      }
    }
  }

  lemma NoSearches(p: Progress, searches: seq<Search>, since: int, gen: Generator)
    ensures SearchAll(p, searches[..0], since, gen) == p
  {
  }

  lemma NoRaws(p: Progress, raws: seq<Raw>, since: int, gen: Generator)
    ensures HandleAll(p, raws[..0], since, gen) == p
  {
  }

  // ---------- Whose row a number gets into ----------

  function RowFor(m: Message, number: string): Invoice {
    Invoice(number, Some(NoteFor(m)), true, Some(m))
  }

  lemma {:induction false} TakenNumberNotAdded(p: Progress, m: Message, pdfs: seq<Extraction>, gen: Generator,
                                               n: string)
    requires Taken(p.table, n) && RowFor(m, n) !in p.table
    ensures RowFor(m, n) !in TryPdfs(p, m, pdfs, gen).0.table
    decreases |pdfs|
  {
    hide NoteFor;
    if pdfs != [] && !TryPdf(p, m, pdfs[0], gen).1 {
      TakenNumberNotAdded(TryPdf(p, m, pdfs[0], gen).0, m, pdfs[1..], gen, n);
    }
  }

  lemma {:induction false} FirstUsable(gen: Generator, start: seq<Invoice>, found: set<Extraction>, p: Progress,
                                       m: Message, pdfs: seq<Extraction>, k: nat, n: string)
    requires Numbered(gen, start, found, p) && (forall e :: e in pdfs ==> e in found)
    requires k < |pdfs| && pdfs[k] == Found(n) && n != "" && forall l :: 0 <= l < k ==> pdfs[l] != Found(n)
    requires RowFor(m, n) !in p.table
    ensures RowFor(m, n) in TryPdfs(p, m, pdfs, gen).0.table <==>
            !Taken(p.table, n) && forall l :: 0 <= l < k ==> Dead(p.table, pdfs[l])
    decreases |pdfs|
  {
    hide Taken, NoteFor;
    var e, rest := pdfs[0], pdfs[1..];
    assert pdfs == [e] + rest && e in pdfs && pdfs[k] in pdfs;
    if k == 0 {
      if Taken(p.table, n) { TakenNumberNotAdded(p, m, rest, gen, n); }
    } else if e.Found? && e.number == "" {
      DrawnIsNew(gen, start, found, p);
      assert !Dead(p.table, pdfs[0]);
    } else if e.Found? && !Taken(p.table, e.number) {
      assert !Dead(p.table, pdfs[0]);
    } else {
      FirstUsable(gen, start, found, p, m, rest, k - 1, n);
      assert forall l :: 0 <= l < k - 1 ==> rest[l] == pdfs[l + 1];
    }
  }

  /** When an import gets to a mail that it does not pass over, the number in one of the
      mail's PDFs gets into the table with that mail's row if and only if no row has the
      number yet and no PDF before it can be inserted. */
  lemma NumberFromOwnMailIff(gen: Generator, start: seq<Invoice>, found: set<Extraction>, p: Progress,
                             m: Message, since: int, k: nat, n: string)
    requires Numbered(gen, start, found, p) && (forall e :: e in Pdfs(m.attachments) ==> e in found)
    requires !TooOld(m, since) && !Processed(p.table, m)
    requires var pdfs := Pdfs(m.attachments);
             k < |pdfs| && pdfs[k] == Found(n) && n != "" && forall l :: 0 <= l < k ==> pdfs[l] != Found(n)
    ensures RowFor(m, n) in Handle(p, m, since, gen).table <==>
            !Taken(p.table, n) && forall l :: 0 <= l < k ==> Dead(p.table, Pdfs(m.attachments)[l])
  {
    hide Numbered, Taken, Dead, Pdfs, LooksLikeInvoice, TryPdfs, Processed;
    NotThereYet(p.table, m, n);
    FirstUsable(gen, start, found, p, m, Pdfs(m.attachments), k, n);
  }

  lemma NotThereYet(table: seq<Invoice>, m: Message, n: string)
    requires !Processed(table, m)
    ensures RowFor(m, n) !in table
  {
    hide EmailId;
    ContainsSuffix("Email ID: ", EmailId(m));
    assert Mentions(RowFor(m, n), EmailId(m));
    assert forall i :: 0 <= i < |table| ==> !Mentions(table[i], EmailId(m));
  }

  /** So a second sender's invoice with a number that is in use is dropped, or replaced by
      an empty invoice when the subject looks like one. */
  lemma TakenNumberIsDropped(p: Progress, m: Message, since: int, gen: Generator, n: string)
    requires !TooOld(m, since) && !Processed(p.table, m)
    requires Pdfs(m.attachments) == [Found(n)] && n != "" && Taken(p.table, n)
    ensures Handle(p, m, since, gen) == if LooksLikeInvoice(m.subject) then Fallback(p, m, gen) else p
  {
    hide Processed, Taken, LooksLikeInvoice, NoteFor;
    assert TryPdf(p, m, Found(n), gen) == (p, false);
    assert [Found(n)][1..] == [] && TryPdfs(p, m, [Found(n)], gen) == (p, false);
  }

  // ---------- A mail hidden by another one's row ----------

  // Its id is in some row's note, but no row was made for it.
  ghost predicate Hidden(table: seq<Invoice>, m: Message) {
    Processed(table, m) && !HasOwn(table, m)
  }

  lemma {:induction false} PdfsAddOwnRow(p: Progress, m: Message, pdfs: seq<Extraction>, gen: Generator)
    ensures var q := TryPdfs(p, m, pdfs, gen).0;
            q.table == p.table || exists row :: q.table == p.table + [row] && row.madeFor == Some(m)
    decreases |pdfs|
  {
    hide Taken, NoteFor;
    if pdfs != [] {
      PdfsAddOwnRow(TryPdf(p, m, pdfs[0], gen).0, m, pdfs[1..], gen);
    }
  }

  lemma HandleAddsOwnRow(p: Progress, m: Message, since: int, gen: Generator)
    ensures var q := Handle(p, m, since, gen);
            q.table == p.table || exists row :: q.table == p.table + [row] && row.madeFor == Some(m)
  {
    hide Taken, NoteFor, Processed, LooksLikeInvoice, TryPdfs;
    PdfsAddOwnRow(p, m, Pdfs(m.attachments), gen);
    PdfsExtend(p, m, Pdfs(m.attachments), gen);
  }

  lemma HandleKeepsHidden(p: Progress, other: Message, since: int, gen: Generator, m: Message)
    requires Hidden(p.table, m)
    ensures Hidden(Handle(p, other, since, gen).table, m)
  {
    hide Mentions, TryPdfs, LooksLikeInvoice;
    HandleAddsOwnRow(p, other, since, gen);
    var q := Handle(p, other, since, gen);
    assert q.table != p.table ==> other != m;
    var i :| 0 <= i < |p.table| && Mentions(p.table[i], EmailId(m));
    assert q.table[i] == p.table[i];
  }

  lemma {:induction false} HandleAllKeepsHidden(p: Progress, raws: seq<Raw>, since: int, gen: Generator, m: Message)
    requires Hidden(p.table, m)
    ensures Hidden(HandleAll(p, raws, since, gen).table, m)
    decreases |raws|
  {
    hide Handle, Hidden;
    if raws != [] {
      var front, last := raws[..|raws| - 1], raws[|raws| - 1];
      HandleAllKeepsHidden(p, front, since, gen, m);
      if last.Parsed? { HandleKeepsHidden(HandleAll(p, front, since, gen), last.message, since, gen, m); }
    }
  }

  // A row of its own that a message has after some messages, but not before, was made
  // when one of them was it.
  lemma {:induction false} OwnRowFrom(p: Progress, raws: seq<Raw>, since: int, gen: Generator, m: Message)
    returns (j: nat)
    requires !HasOwn(p.table, m) && HasOwn(HandleAll(p, raws, since, gen).table, m)
    ensures j < |raws| && raws[j] == Parsed(m)
    ensures var q := HandleAll(p, raws[..j], since, gen); !q.aborted && |Handle(q, m, since, gen).table| > |q.table|
    decreases |raws|
  {
    hide Handle, HasOwn;
    var front, last := raws[..|raws| - 1], raws[|raws| - 1];
    var q := HandleAll(p, front, since, gen);
    if HasOwn(q.table, m) {
      j := OwnRowFrom(p, front, since, gen, m);
      assert front[..j] == raws[..j];
    } else {
      j := |raws| - 1;
      OwnRowNow(q, last.message, since, gen, m);
    }
  }

  lemma OwnRowNow(p: Progress, other: Message, since: int, gen: Generator, m: Message)
    requires !HasOwn(p.table, m) && HasOwn(Handle(p, other, since, gen).table, m)
    ensures other == m && |Handle(p, other, since, gen).table| > |p.table|
  {
    hide Handle, NoteFor;
    HandleAddsOwnRow(p, other, since, gen);
    var t := Handle(p, other, since, gen).table;
    var i :| 0 <= i < |t| && t[i].note == Some(NoteFor(m)) && t[i].madeFor == Some(m);
  }

  lemma {:induction false} OwnRowFromSearch(p: Progress, searches: seq<Search>, since: int, gen: Generator, m: Message)
    returns (i: nat, j: nat)
    requires !HasOwn(p.table, m) && HasOwn(SearchAll(p, searches, since, gen).table, m)
    ensures i < |searches| && searches[i].Hits? && j < |searches[i].raws| && searches[i].raws[j] == Parsed(m)
    ensures var q := HandleAll(SearchAll(p, searches[..i], since, gen), searches[i].raws[..j], since, gen);
            !q.aborted && |Handle(q, m, since, gen).table| > |q.table|
    decreases |searches|
  {
    hide Handle, HandleAll, HasOwn;
    var front, last := searches[..|searches| - 1], searches[|searches| - 1];
    var q := SearchAll(p, front, since, gen);
    if HasOwn(q.table, m) {
      i, j := OwnRowFromSearch(p, front, since, gen, m);
      assert front[..i] == searches[..i];
    } else {
      i := |searches| - 1;
      j := OwnRowFrom(q, last.raws, since, gen, m);
    }
  }

  /** No import ever makes an invoice for a hidden mail. */
  lemma {:induction false} SearchAllKeepsHidden(p: Progress, searches: seq<Search>, since: int, gen: Generator,
                                                m: Message)
    requires Hidden(p.table, m)
    ensures Hidden(SearchAll(p, searches, since, gen).table, m)
    decreases |searches|
  {
    hide HandleAll, Hidden;
    if searches != [] {
      var front, last := searches[..|searches| - 1], searches[|searches| - 1];
      SearchAllKeepsHidden(p, front, since, gen, m);
      if last.Hits? { HandleAllKeepsHidden(SearchAll(p, front, since, gen), last.raws, since, gen, m); }
    }
  }
}
