/** Which mail is taken for an invoice, and what one mail adds to the table. */
module InvoiceMail {
  import opened Wrappers
  import opened JsText
  import opened InvoiceImport
  import opened InvoiceImportLaws

  // ---------- Subjects ----------

  const WORDS := ["invoice", "factuur", "rechnung", "receipt", "billing"]

  // The same letter of the English alphabet in either case, or the same character.
  predicate SameLetter(a: char, b: char) {
    || a == b
    || ('A' <= a <= 'Z' && b as int == a as int + 32)
    || ('A' <= b <= 'Z' && a as int == b as int + 32)
  }

  // The word stands at position k, in any mixture of cases.
  predicate StandsAt(s: string, word: string, k: nat) {
    k + |word| <= |s| && forall i :: 0 <= i < |word| ==> SameLetter(s[k + i], word[i])
  }

  predicate SmallLetters(s: string) {
    forall i :: 0 <= i < |s| ==> 'a' <= s[i] <= 'z'
  }

  lemma {:induction false} LowerAt(s: string)
    ensures |Lower(s)| == |s|
    ensures forall i :: 0 <= i < |s| ==> SameLetter(s[i], Lower(s)[i]) && !('A' <= Lower(s)[i] <= 'Z')
  {
    if s != "" { LowerAt(s[1..]); }
  }

  predicate IsAt(s: string, p: string, k: nat) {
    k + |p| <= |s| && s[k..k + |p|] == p
  }

  lemma ShiftIsAt(s: string, p: string, k: nat)
    requires s != ""
    ensures IsAt(s, p, k + 1) <==> IsAt(s[1..], p, k)
  {
    if k + 1 + |p| <= |s| {
      var here, there := s[k + 1..k + 1 + |p|], s[1..][k..k + |p|];
      forall i | 0 <= i < |p|
        ensures here[i] == there[i]
      {
        assert here[i] == s[k + 1 + i];
      }
      assert here == there;
    }
  }

  lemma NothingStarts(s: string)
    ensures forall p: string :: |p| == 0 ==> StartsWith(s, p)
  {
  }

  lemma {:induction false} ContainsIff(s: string, p: string)
    ensures Contains(s, p) <==> exists k: nat :: IsAt(s, p, k)
  {
    NothingStarts(s);
    if StartsWith(s, p) {
      assert IsAt(s, p, 0);
    } else if s == "" {
      assert forall k: nat :: !IsAt(s, p, k);
    } else {
      ContainsIff(s[1..], p);
      forall k: nat
        ensures IsAt(s, p, k + 1) <==> IsAt(s[1..], p, k)
      {
        ShiftIsAt(s, p, k);
      }
      if k: nat :| IsAt(s, p, k) {
        assert k > 0;
        assert IsAt(s[1..], p, k - 1);
      }
    }
  }

  lemma WordInLower(s: string, word: string)
    requires SmallLetters(word)
    ensures Contains(Lower(s), word) <==> exists k: nat :: StandsAt(s, word, k)
  {
    hide Lower, Contains;
    LowerAt(s);
    ContainsIff(Lower(s), word);
    forall k: nat
      ensures IsAt(Lower(s), word, k) <==> StandsAt(s, word, k)
    {
      SmallIsAt(s, Lower(s), word, k);
    }
  }

  lemma SmallIsAt(s: string, small: string, word: string, k: nat)
    requires SmallLetters(word) && |small| == |s|
    requires forall i :: 0 <= i < |s| ==> SameLetter(s[i], small[i]) && !('A' <= small[i] <= 'Z')
    ensures IsAt(small, word, k) <==> StandsAt(s, word, k)
  {
    if k + |word| <= |s| {
      var t := small[k..k + |word|];
      if StandsAt(s, word, k) {
        forall i | 0 <= i < |word|
          ensures t[i] == word[i]
        {
          assert SameLetter(s[k + i], word[i]) && SameLetter(s[k + i], small[k + i]);
        }
        assert t == word;
      }
      if t == word {
        forall i | 0 <= i < |word|
          ensures SameLetter(s[k + i], word[i])
        {
          assert t[i] == small[k + i];
        }
      }
    }
  }

  /** A subject looks like an invoice's if and only if one of the five words stands
      somewhere in it, in any mixture of capital and small letters. */
  lemma LooksLikeInvoiceIff(subject: Option<string>)
    ensures LooksLikeInvoice(subject) <==>
            subject.Some? && exists w, k: nat :: 0 <= w < |WORDS| && StandsAt(subject.value, WORDS[w], k)
  {
    hide Lower, Contains, StandsAt;
    if subject.Some? {
      var s := subject.value;
      forall w | 0 <= w < |WORDS|
        ensures Contains(Lower(s), WORDS[w]) <==> exists k: nat :: StandsAt(s, WORDS[w], k)
      {
        WordInLower(s, WORDS[w]);
      }
      assert WORDS[0] == "invoice" && WORDS[1] == "factuur" && WORDS[2] == "rechnung";
      assert WORDS[3] == "receipt" && WORDS[4] == "billing";
    }
  }

  /** So the case of its letters does not matter. */
  lemma CaseDoesNotMatter(a: string, b: string)
    requires |a| == |b| && forall i :: 0 <= i < |a| ==> SameLetter(a[i], b[i])
    ensures LooksLikeInvoice(Some(a)) <==> LooksLikeInvoice(Some(b))
  {
    hide LooksLikeInvoice;
    LooksLikeInvoiceIff(Some(a));
    LooksLikeInvoiceIff(Some(b));
    forall w, k: nat | 0 <= w < |WORDS|
      ensures StandsAt(a, WORDS[w], k) <==> StandsAt(b, WORDS[w], k)
    {
      assert SmallLetters(WORDS[w]);
      SameStands(a, b, WORDS[w], k);
    }
  }

  lemma SameStands(a: string, b: string, word: string, k: nat)
    requires |a| == |b| && forall i :: 0 <= i < |a| ==> SameLetter(a[i], b[i])
    requires SmallLetters(word)
    ensures StandsAt(a, word, k) <==> StandsAt(b, word, k)
  {
    if k + |word| <= |a| {
      forall i | 0 <= i < |word|
        ensures SameLetter(a[k + i], word[i]) <==> SameLetter(b[k + i], word[i])
      {
        assert SameLetter(a[k + i], b[k + i]);
      }
    }
  }

  // ---------- Ids ----------

  /** Mails from the same place on the same date are told apart by their subjects, and so
      on for each of the three parts of the id. */
  lemma IdsToldApart(a: Message, b: Message)
    requires a.subject.Some? && b.subject.Some? && a.date.Some? && b.date.Some?
    requires EmailId(a) == EmailId(b)
    ensures a.from == b.from && a.subject == b.subject ==> a.isoDate == b.isoDate
    ensures a.from == b.from && a.isoDate == b.isoDate ==> a.subject == b.subject
    ensures a.subject == b.subject && a.isoDate == b.isoDate ==> a.from == b.from
  {
    var (f, s, d) := (a.from, a.subject.value, a.isoDate);
    var (f', s', d') := (b.from, b.subject.value, b.isoDate);
    IdParts(a);
    IdParts(b);
    if f == f' && s == s' { SameTail(f + "-" + s + "-", d, d'); }
    if f == f' && d == d' {
      SameTail(f + "-", s + ("-" + d), s' + ("-" + d));
      SameHead(s, s', "-" + d);
    }
    if s == s' && d == d' { SameHead(f, f', "-" + s + "-" + d); }
  }

  lemma IdParts(m: Message)
    requires m.subject.Some? && m.date.Some?
    ensures var (f, s, d) := (m.from, m.subject.value, m.isoDate);
            && EmailId(m) == f + ("-" + s + "-" + d)
            && EmailId(m) == (f + "-" + s + "-") + d
            && EmailId(m) == (f + "-") + (s + ("-" + d))
  {
  }

  /** A part that is missing reads undefined, as if the mail said so. */
  lemma MissingPartsReadUndefined(m: Message)
    requires m.subject.None? && m.date.None?
    ensures EmailId(m) == EmailId(m.(subject := Some("undefined"))) == m.from + "-undefined-undefined"
  {
    assert "-" + "undefined" + "-" + "undefined" == "-undefined-undefined";
    assert EmailId(m) == m.from + ("-" + "undefined" + "-" + "undefined");
  }

  lemma SameTail(p: string, s: string, t: string)
    requires p + s == p + t
    ensures s == t
  {
    assert (p + s)[|p|..] == s && (p + t)[|p|..] == t;
  }

  lemma SameHead(s: string, t: string, q: string)
    requires s + q == t + q
    ensures s == t
  {
    assert |s| == |t| && (s + q)[..|s|] == s && (t + q)[..|t|] == t;
  }

  // ---------- One mail ----------

  // A PDF whose number can be inserted: one is generated if it has none.
  ghost predicate Insertable(table: seq<Invoice>, e: Extraction) {
    e.Found? && (e.number == "" || forall i :: 0 <= i < |table| ==> table[i].number != e.number)
  }

  ghost predicate HasPdf(table: seq<Invoice>, m: Message) {
    exists i :: 0 <= i < |m.attachments| && m.attachments[i].isPdf && Insertable(table, m.attachments[i].extraction)
  }

  // Its id is part of some row's note.
  ghost predicate IdInNote(table: seq<Invoice>, id: string) {
    exists i, k: nat :: 0 <= i < |table| && table[i].note.Some? && IsAt(table[i].note.value, id, k)
  }

  lemma {:induction false} PdfsAre(attachments: seq<Attachment>, e: Extraction)
    ensures e in Pdfs(attachments) <==>
            exists i :: 0 <= i < |attachments| && attachments[i].isPdf && attachments[i].extraction == e
  {
    if attachments != [] {
      var rest := attachments[1..];
      PdfsAre(rest, e);
      if i :| 0 <= i < |attachments| && attachments[i].isPdf && attachments[i].extraction == e {
        assert i > 0 ==> rest[i - 1] == attachments[i];
      }
      assert forall i :: 0 <= i < |rest| ==> rest[i] == attachments[i + 1];
    }
  }

  lemma HasPdfIff(table: seq<Invoice>, m: Message)
    ensures HasPdf(table, m) <==> exists e :: e in Pdfs(m.attachments) && !Dead(table, e) && e.Found?
  {
    hide Pdfs;
    assert forall e: Extraction :: e.Found? ==> (Dead(table, e) <==> !Insertable(table, e));
    if HasPdf(table, m) {
      var i :| 0 <= i < |m.attachments| && m.attachments[i].isPdf && Insertable(table, m.attachments[i].extraction);
      PdfsAre(m.attachments, m.attachments[i].extraction);
    }
    if e :| e in Pdfs(m.attachments) && !Dead(table, e) && e.Found? { PdfsAre(m.attachments, e); }
  }

  lemma ProcessedIff(table: seq<Invoice>, m: Message)
    ensures Processed(table, m) <==> IdInNote(table, EmailId(m))
  {
    hide EmailId, Contains, IsAt;
    forall i | 0 <= i < |table| && table[i].note.Some?
      ensures Contains(table[i].note.value, EmailId(m)) <==>
              exists k: nat :: IsAt(table[i].note.value, EmailId(m), k)
    {
      ContainsIff(table[i].note.value, EmailId(m));
    }
  }

  // The PDFs of a mail add one row if one of them can be inserted, and none otherwise.
  lemma {:induction false} PdfsAddRow(gen: Generator, start: seq<Invoice>, found: set<Extraction>, p: Progress,
                                      m: Message, pdfs: seq<Extraction>)
    requires Numbered(gen, start, found, p)
    ensures var (q, made) := TryPdfs(p, m, pdfs, gen);
            && q.aborted == p.aborted
            && (made <==> exists e :: e in pdfs && e.Found? && !Dead(p.table, e))
            && (!made ==> q == p)
            && (made ==> |q.table| == |p.table| + 1 && q.table[..|p.table|] == p.table
                         && Marks(q.table[|p.table|], m, true))
    decreases |pdfs|
  {
    hide Numbered, Taken, EmailId;
    if pdfs != [] {
      var e, rest := pdfs[0], pdfs[1..];
      assert pdfs == [e] + rest;
      if e.Found? && e.number == "" { DrawnIsNew(gen, start, found, p); }
      if !e.Found? || (e.number != "" && Taken(p.table, e.number)) { PdfsAddRow(gen, start, found, p, m, rest); }
    }
  }

  // The row says which mail it is for, and whether that had a PDF.
  ghost predicate Marks(row: Invoice, m: Message, pdf: bool) {
    row.note == Some("Email ID: " + EmailId(m)) && row.madeFor == Some(m) && row.haveAttachment == pdf
  }

  /** A mail adds a row if and only if it is not older than the date read from, its id is
      in no note, and it has a PDF that can be inserted or an invoice's subject; and then
      one, which names the mail, and whose attachment flag says which of the two it was. */
  lemma MailAddsRowIff(gen: Generator, start: seq<Invoice>, found: set<Extraction>, p: Progress, m: Message, since: int)
    requires Numbered(gen, start, found, p) && !p.aborted
    ensures var q := Handle(p, m, since, gen);
            var pdf := HasPdf(p.table, m);
            var adds := (m.date.Some? ==> since <= m.date.value) && !IdInNote(p.table, EmailId(m))
                        && (pdf || LooksLikeInvoice(m.subject));
            && !q.aborted
            && (!adds ==> q == p)
            && (adds ==> |q.table| == |p.table| + 1 && q.table[..|p.table|] == p.table
                         && Marks(q.table[|p.table|], m, pdf))
  {
    hide Numbered, EmailId, LooksLikeInvoice, TryPdfs, Dead, Processed, IdInNote, HasPdf, Pdfs;
    HasPdfIff(p.table, m);
    ProcessedIff(p.table, m);
    PdfsAddRow(gen, start, found, p, m, Pdfs(m.attachments));
    DrawnIsNew(gen, start, found, p);
  }

  /** In particular a mail with the word invoice in its subject, in whatever case, that is
      new and brings no PDF gets its row. */
  lemma SubjectAloneAddsRow(gen: Generator, table: seq<Invoice>, m: Message, since: int, k: nat)
    requires FreshNumbers(gen, table, [Hits([Parsed(m)])])
    requires m.subject.Some? && StandsAt(m.subject.value, "invoice", k) && m.attachments == []
    requires (m.date.Some? ==> since <= m.date.value) && !IdInNote(table, EmailId(m))
    ensures var q := Import(table, [Hits([Parsed(m)])], since, gen);
            && !q.aborted && |q.table| == |table| + 1 && q.table[..|table|] == table && q.created == q.table[|table|..]
            && Marks(q.table[|table|], m, false)
  {
    hide EmailId, LooksLikeInvoice, Handle, IdInNote, Marks, StandsAt;
    var p, raws := Progress(table, [], 0, false), [Parsed(m)];
    var searches := [Hits(raws)];
    assert WORDS[0] == "invoice";
    LooksLikeInvoiceIff(m.subject);
    MailAddsRowIff(gen, table, Extractions(searches), p, m, since);
    assert raws[..0] == [] && HandleAll(p, raws, since, gen) == Handle(p, m, since, gen);
    assert searches[..0] == [] && SearchAll(p, searches, since, gen) == HandleAll(p, raws, since, gen);
    ImportAppends(table, searches, since, gen);
  }
}
