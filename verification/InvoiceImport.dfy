/** Importing invoices from a mailbox: every keyword's search results, every message,
    every PDF, against an invoice table that grows meanwhile. The mailbox, the PDF
    extraction service and the generated invoice numbers are fixed inputs. */
module InvoiceImport {
  import opened Wrappers
  import opened JsText

  // What the extraction service makes of a PDF, a rejected insert of its data included.
  datatype Extraction = Unusable | NoInvoice | Found(number: string)

  datatype Attachment = Attachment(isPdf: bool, extraction: Extraction)

  // Mailbox and uid say which mail it is; the code looks at neither.
  datatype Message = Message(mailbox: string, uid: nat, from: string, subject: Option<string>, date: Option<int>,
                             isoDate: string, attachments: seq<Attachment>)

  // One raw message may fail to parse, one search may fail as a whole.
  datatype Raw = Unparsable | Parsed(message: Message)
  datatype Search = SearchFailed | Hits(raws: seq<Raw>)

  // The mail a row was made for is no column; it is recorded to state theorems.
  datatype Invoice = Invoice(number: string, note: Option<string>, haveAttachment: bool, madeFor: Option<Message>)

  // The invoice table, the invoices created so far, how many numbers were generated, and
  // whether an error ended the loop.
  datatype Progress = Progress(table: seq<Invoice>, created: seq<Invoice>, drawn: nat, aborted: bool)

  // Date.now() and Math.random() in the n-th generated number.
  type Generator = nat -> string

  function EmailId(m: Message): string {
    m.from + "-" + m.subject.GetOr("undefined") + "-" + (if m.date.Some? then m.isoDate else "undefined")
  }

  function NoteFor(m: Message): string {
    "Email ID: " + EmailId(m)
  }

  function Lower(s: string): string {
    if s == "" then ""
    else [if 'A' <= s[0] <= 'Z' then 'a' + (s[0] - 'A') else s[0]] + Lower(s[1..])
  }

  predicate LooksLikeInvoice(subject: Option<string>) {
    && subject.Some?
    && var s := Lower(subject.value);
       Contains(s, "invoice") || Contains(s, "factuur") || Contains(s, "rechnung")
       || Contains(s, "receipt") || Contains(s, "billing")
  }

  predicate TooOld(m: Message, since: int) {
    m.date.Some? && m.date.value < since
  }

  predicate Mentions(row: Invoice, id: string) {
    row.note.Some? && Contains(row.note.value, id)
  }

  predicate Processed(table: seq<Invoice>, m: Message) {
    exists i :: 0 <= i < |table| && Mentions(table[i], EmailId(m))
  }

  predicate Taken(table: seq<Invoice>, number: string) {
    exists i :: 0 <= i < |table| && table[i].number == number
  }

  function Pdfs(attachments: seq<Attachment>): seq<Extraction> {
    if attachments == [] then []
    else (if attachments[0].isPdf then [attachments[0].extraction] else []) + Pdfs(attachments[1..])
  }

  function Add(p: Progress, invoice: Invoice): Progress {
    p.(table := p.table + [invoice], created := p.created + [invoice])
  }

  // The number an extracted invoice gets, and the generator afterwards.
  function NumberFor(p: Progress, found: string, gen: Generator): (string, Progress) {
    if found == "" then (gen(p.drawn), p.(drawn := p.drawn + 1)) else (found, p)
  }

  // One PDF, and whether it yields an invoice.
  function TryPdf(p: Progress, m: Message, pdf: Extraction, gen: Generator): (Progress, bool) {
    match pdf
    case Unusable => (p, false)
    case NoInvoice => (p, false)
    case Found(found) =>
      var (number, p1) := NumberFor(p, found, gen);
      if Taken(p1.table, number) then (p1, false) else (Add(p1, Invoice(number, Some(NoteFor(m)), true, Some(m))), true)
  }

  // The PDFs of a message in order, up to the first one that yields an invoice.
  function TryPdfs(p: Progress, m: Message, pdfs: seq<Extraction>, gen: Generator): (Progress, bool)
    decreases |pdfs|
  {
    if pdfs == [] then (p, false)
    else
      var (p1, made) := TryPdf(p, m, pdfs[0], gen);
      if made then (p1, true) else TryPdfs(p1, m, pdfs[1..], gen)
  }

  // The invoice made from a message without a usable PDF; a conflict is not caught here.
  function Fallback(p: Progress, m: Message, gen: Generator): Progress {
    var p1 := p.(drawn := p.drawn + 1);
    if Taken(p.table, gen(p.drawn)) then p1.(aborted := true)
    else Add(p1, Invoice(gen(p.drawn), Some(NoteFor(m)), false, Some(m)))
  }

  function Handle(p: Progress, m: Message, since: int, gen: Generator): Progress {
    if TooOld(m, since) || Processed(p.table, m) then p
    else
      var (p1, made) := TryPdfs(p, m, Pdfs(m.attachments), gen);
      if !made && LooksLikeInvoice(m.subject) then Fallback(p1, m, gen) else p1
  }

  function HandleAll(p: Progress, raws: seq<Raw>, since: int, gen: Generator): Progress {
    if raws == [] then p
    else
      var p1 := HandleAll(p, raws[..|raws| - 1], since, gen);
      if p1.aborted then p1
      else match raws[|raws| - 1]
           case Unparsable => p1.(aborted := true)
           case Parsed(m) => Handle(p1, m, since, gen)
  }

  function SearchAll(p: Progress, searches: seq<Search>, since: int, gen: Generator): Progress {
    if searches == [] then p
    else
      var p1 := SearchAll(p, searches[..|searches| - 1], since, gen);
      if p1.aborted then p1
      else match searches[|searches| - 1]
           case SearchFailed => p1.(aborted := true)
           case Hits(raws) => HandleAll(p1, raws, since, gen)
  }

  // One import over an existing table; searches holds one entry for each keyword.
  function Import(table: seq<Invoice>, searches: seq<Search>, since: int, gen: Generator): Progress {
    SearchAll(Progress(table, [], 0, false), searches, since, gen)
  }

  // ---------- The import service ----------

  lemma {:induction false} AbortedSearchStays(p: Progress, searches: seq<Search>, since: int, gen: Generator, i: nat)
    requires i <= |searches| && SearchAll(p, searches[..i], since, gen).aborted
    ensures SearchAll(p, searches, since, gen) == SearchAll(p, searches[..i], since, gen)
    decreases |searches| - i
  {
    hide HandleAll;
    if i == |searches| {
      assert searches[..i] == searches;
    } else {
      assert searches[..i + 1][..i] == searches[..i];
      AbortedSearchStays(p, searches, since, gen, i + 1);
    }
  }

  lemma {:induction false} AbortedMessageStays(p: Progress, raws: seq<Raw>, since: int, gen: Generator, i: nat)
    requires i <= |raws| && HandleAll(p, raws[..i], since, gen).aborted
    ensures HandleAll(p, raws, since, gen) == HandleAll(p, raws[..i], since, gen)
    decreases |raws| - i
  {
    hide Handle;
    if i == |raws| {
      assert raws[..i] == raws;
    } else {
      assert raws[..i + 1][..i] == raws[..i];
      AbortedMessageStays(p, raws, since, gen, i + 1);
    }
  }

  class Importer {
    var table: seq<Invoice>
    var createdInvoices: seq<Invoice>
    var drawn: nat
    const gen: Generator

    constructor (table: seq<Invoice>, gen: Generator)
      ensures this.table == table && this.gen == gen
    {
      this.table, createdInvoices, drawn, this.gen := table, [], 0, gen;
    }

    function View(aborted: bool): Progress
      reads this
    {
      Progress(table, createdInvoices, drawn, aborted)
    }

    method CreateInvoice(number: string, m: Message, haveAttachment: bool) returns (ok: bool)
      modifies this`table, this`createdInvoices
      ensures ok == !Taken(old(table), number)
      ensures View(false) ==
              if ok then Add(old(View(false)), Invoice(number, Some(NoteFor(m)), haveAttachment, Some(m)))
              else old(View(false))
    {
      ok := forall i :: 0 <= i < |table| ==> table[i].number != number;
      if ok {
        var created := Invoice(number, Some(NoteFor(m)), haveAttachment, Some(m));
        table := table + [created];
        createdInvoices := createdInvoices + [created];
      }
    }

    method TryPdfAttachments(m: Message) returns (invoiceCreated: bool)
      modifies this`table, this`createdInvoices, this`drawn
      ensures (View(false), invoiceCreated) == TryPdfs(old(View(false)), m, Pdfs(m.attachments), gen)
    {
      hide TryPdfs, TryPdf;
      var pdfs := Pdfs(m.attachments);
      invoiceCreated := false;
      var i := 0;
      while i < |pdfs|
        invariant i <= |pdfs| && !invoiceCreated
        invariant TryPdfs(old(View(false)), m, pdfs, gen) == TryPdfs(View(false), m, pdfs[i..], gen)
      {
        TryPdfsFrom(View(false), m, pdfs, i, gen);
        invoiceCreated := TryAttachment(m, pdfs[i]);
        if invoiceCreated {
          break;
        }
        i := i + 1;
      }
      if !invoiceCreated { NoPdfsLeft(View(false), m, pdfs, gen); }
    }

    // One turn of the loop; whatever fails in it is only logged.
    method TryAttachment(m: Message, pdf: Extraction) returns (ok: bool)
      modifies this`table, this`createdInvoices, this`drawn
      ensures (View(false), ok) == TryPdf(old(View(false)), m, pdf, gen)
    {
      hide Taken, NoteFor;
      if !pdf.Found? {
        return false;
      }
      var number := pdf.number;
      if number == "" {
        number := gen(drawn);
        drawn := drawn + 1;
      }
      ok := CreateInvoice(number, m, true);
    }

    method HandleMessage(m: Message, since: int) returns (aborted: bool)
      modifies this`table, this`createdInvoices, this`drawn
      ensures View(aborted) == Handle(old(View(false)), m, since, gen)
    {
      hide TryPdfs, LooksLikeInvoice;
      aborted := false;
      if m.date.Some? && m.date.value < since {
        return;
      }
      var exists_ := exists i :: 0 <= i < |table| && Mentions(table[i], EmailId(m));
      if exists_ {
        return;
      }
      PdfsKeepAborted(View(false), m, Pdfs(m.attachments), gen);
      var invoiceCreated := TryPdfAttachments(m);
      if !invoiceCreated && LooksLikeInvoice(m.subject) {
        var number := gen(drawn);
        drawn := drawn + 1;
        var ok := CreateInvoice(number, m, false);
        aborted := !ok;
      }
    }

    method ReadEmails(searches: seq<Search>, since: int) returns (created: seq<Invoice>, aborted: bool)
      modifies this
      ensures var r := Import(old(table), searches, since, gen);
              table == r.table && created == r.created && aborted == r.aborted
    {
      hide Handle;
      createdInvoices, drawn := [], 0;
      label start:
      assert searches[..0] == [];
      for s := 0 to |searches|
        invariant View(false) == SearchAll(old@start(View(false)), searches[..s], since, gen)
      {
        assert searches[..s + 1][..s] == searches[..s] && searches[..s + 1][s] == searches[s];
        if searches[s].SearchFailed? {
          AbortedSearchStays(old@start(View(false)), searches, since, gen, s + 1);
          return createdInvoices, true;
        }
        var raws := searches[s].raws;
        label keyword:
        assert raws[..0] == [];
        for i := 0 to |raws|
          invariant View(false) == HandleAll(old@keyword(View(false)), raws[..i], since, gen)
        {
          assert raws[..i + 1][..i] == raws[..i] && raws[..i + 1][i] == raws[i];
          var failed := true;
          if raws[i].Parsed? {
            failed := HandleMessage(raws[i].message, since);
          }
          if failed {
            AbortedMessageStays(old@keyword(View(false)), raws, since, gen, i + 1);
            AbortedSearchStays(old@start(View(false)), searches, since, gen, s + 1);
            return createdInvoices, true;
          }
        }
        assert raws[..|raws|] == raws;
      }
      assert searches[..|searches|] == searches;
      return createdInvoices, false;
    }
  }

  lemma TryPdfsFrom(p: Progress, m: Message, pdfs: seq<Extraction>, i: nat, gen: Generator)
    requires i < |pdfs|
    ensures var (p1, made) := TryPdf(p, m, pdfs[i], gen);
            TryPdfs(p, m, pdfs[i..], gen) == if made then (p1, true) else TryPdfs(p1, m, pdfs[i + 1..], gen)
  {
    hide TryPdf;
    assert pdfs[i..][1..] == pdfs[i + 1..];
  }

  lemma NoPdfsLeft(p: Progress, m: Message, pdfs: seq<Extraction>, gen: Generator)
    ensures TryPdfs(p, m, pdfs[|pdfs|..], gen) == (p, false)
  {
  }

  lemma {:induction false} PdfsKeepAborted(p: Progress, m: Message, pdfs: seq<Extraction>, gen: Generator)
    ensures TryPdfs(p, m, pdfs, gen).0.aborted == p.aborted
    decreases |pdfs|
  {
    if pdfs != [] {
      PdfsKeepAborted(TryPdf(p, m, pdfs[0], gen).0, m, pdfs[1..], gen);
    }
  }
}
