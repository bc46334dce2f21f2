/** What the MT940 parser promises about whole files: which lines end up in which
    transaction, which line gives a metadata field, and how files may be glued together
    or formatted. */
module Mt940Laws {
  import opened Wrappers
  import opened JsText
  import opened Mt940

  // ---------- Tags ----------

  // The line begins with these characters.
  predicate Begins(line: string, tag: string) {
    |tag| <= |line| && forall i :: 0 <= i < |tag| ==> line[i] == tag[i]
  }

  /** The kind of a line is that of the tag in front; both balances have two tags, for a
      first or last page and for one in between. */
  lemma KindByTag(line: string)
    ensures KindOf(line) == ReferenceLine <==> Begins(line, ":20:")
    ensures KindOf(line) == AccountLine <==> Begins(line, ":25:")
    ensures KindOf(line) == NumberLine <==> Begins(line, ":28C:")
    ensures KindOf(line) == OpeningLine <==> Begins(line, ":60F:") || Begins(line, ":60M:")
    ensures KindOf(line) == ClosingLine <==> Begins(line, ":62F:") || Begins(line, ":62M:")
    ensures KindOf(line) == EntryLine <==> Begins(line, ":61:")
    ensures KindOf(line) == DetailsLine <==> Begins(line, ":86:")
  {
    hide StartsWith, Begins;
    TagIs(line, ":20:", '2', '0', ':');
    TagIs(line, ":25:", '2', '5', ':');
    TagIs(line, ":28C:", '2', '8', 'C');
    TagIs(line, ":60F:", '6', '0', 'F');
    TagIs(line, ":60M:", '6', '0', 'M');
    TagIs(line, ":62F:", '6', '2', 'F');
    TagIs(line, ":62M:", '6', '2', 'M');
    TagIs(line, ":61:", '6', '1', ':');
    TagIs(line, ":86:", '8', '6', ':');
  }

  lemma TagIs(line: string, tag: string, a: char, b: char, c: char)
    requires |tag| >= 4 && tag[1] == a && tag[2] == b && tag[3] == c
    ensures StartsWith(line, tag) <==> Begins(line, tag)
    ensures Begins(line, tag) ==> |line| >= 4 && line[1] == a && line[2] == b && line[3] == c
  {
  }

  // ---------- Which line goes where ----------

  function Entries(lines: seq<string>): nat {
    if lines == [] then 0
    else Entries(lines[..|lines| - 1]) + (if KindOf(lines[|lines| - 1]) == EntryLine then 1 else 0)
  }

  // p is a :61: line and q the next one, or the end of the file.
  ghost predicate Segment(lines: seq<string>, p: nat, q: nat) {
    && p < q <= |lines| && KindOf(lines[p]) == EntryLine
    && (forall r :: p < r < q ==> KindOf(lines[r]) != EntryLine)
    && (q < |lines| ==> KindOf(lines[q]) == EntryLine)
  }

  // The text of the last :86: line strictly between p and q.
  function DetailsBetween(lines: seq<string>, p: nat, q: nat): Option<string>
    requires q <= |lines|
  {
    if q <= p + 1 then None
    else if KindOf(lines[q - 1]) == DetailsLine then Some(From(lines[q - 1], 4))
    else DetailsBetween(lines, p, q - 1)
  }

  lemma {:induction false} DetailsBetweenIsLast(lines: seq<string>, p: nat, q: nat)
    requires q <= |lines|
    ensures DetailsBetween(lines, p, q).None? <==> forall r :: p < r < q ==> KindOf(lines[r]) != DetailsLine
    ensures forall r :: p < r && IsLastDetails(lines, r, q) ==> DetailsBetween(lines, p, q) == Some(From(lines[r], 4))
    decreases q
  {
    hide KindOf, From;
    if q > p + 1 && KindOf(lines[q - 1]) != DetailsLine {
      DetailsBetweenIsLast(lines, p, q - 1);
      forall r | p < r && IsLastDetails(lines, r, q)
        ensures IsLastDetails(lines, r, q - 1)
      {
      }
    } else if q > p + 1 {
      forall r | p < r && IsLastDetails(lines, r, q)
        ensures r == q - 1
      {
      }
    }
  }

  // The line at r is the last :86: line before q.
  ghost predicate IsLastDetails(lines: seq<string>, r: nat, q: nat) {
    && r < q <= |lines| && KindOf(lines[r]) == DetailsLine
    && forall k :: r < k < q ==> KindOf(lines[k]) != DetailsLine
  }

  lemma {:induction false} DetailsOfPrefix(lines: seq<string>, n: nat, p: nat, q: nat)
    requires q <= n <= |lines|
    ensures DetailsBetween(lines[..n], p, q) == DetailsBetween(lines, p, q)
    decreases q
  {
    hide KindOf;
    if q > p + 1 {
      DetailsOfPrefix(lines, n, p, q - 1);
    }
  }

  lemma {:induction false} OneTransactionPerEntry(lines: seq<string>)
    ensures |Transactions(lines)| == Entries(lines)
    decreases |lines|
  {
    hide KindOf;
    if lines != [] {
      OneTransactionPerEntry(lines[..|lines| - 1]);
    }
  }

  lemma {:induction false} EntriesGrow(lines: seq<string>, p: nat)
    requires p < |lines| && KindOf(lines[p]) == EntryLine
    ensures Entries(lines[..p]) < Entries(lines)
    decreases |lines|
  {
    hide KindOf;
    var n := |lines| - 1;
    if p < n {
      assert lines[..n][..p] == lines[..p];
      EntriesGrow(lines[..n], p);
    }
  }

  // The transaction at place k keeps coming from the same segment when one more line is
  // read after it.
  lemma SegmentGrows(lines: seq<string>, p: nat, q: nat, k: nat)
    requires |lines| > 0 && Segment(lines, p, q) && p < |lines| - 1
    requires var before := Transactions(lines[..|lines| - 1]);
             var q' := if q < |lines| then q else |lines| - 1;
             && k < |before| && before[k].details == DetailsBetween(lines, p, q')
             && (q < |lines| - 1 ==> k < |before| - 1) && (q == |lines| ==> k == |before| - 1)
    ensures var before, after := Transactions(lines[..|lines| - 1]), Transactions(lines);
            k < |after| && after[k] == before[k].(details := DetailsBetween(lines, p, q))
  {
    hide KindOf, ParseTransactionLine;
  }

  /** The k-th transaction comes from the k-th :61: line, and its details from the last
      :86: line before the next :61:. */
  lemma {:induction false} Segmentation(lines: seq<string>, p: nat, q: nat)
    requires Segment(lines, p, q)
    ensures |Transactions(lines)| == Entries(lines) > Entries(lines[..p])
    ensures Transactions(lines)[Entries(lines[..p])] ==
            ParseTransactionLine(From(lines[p], 4)).(details := DetailsBetween(lines, p, q))
    decreases |lines|
  {
    hide KindOf, ParseTransactionLine;
    OneTransactionPerEntry(lines);
    EntriesGrow(lines, p);
    var n, k := |lines| - 1, Entries(lines[..p]);
    OneTransactionPerEntry(lines[..n]);
    if p == n {
      NoDetailsYet(From(lines[p], 4));
    } else {
      var q' := if q <= n then q else n;
      assert lines[..n][..p] == lines[..p];
      Segmentation(lines[..n], p, q');
      DetailsOfPrefix(lines, n, p, q');
      if q < n {
        assert lines[..n][..q] == lines[..q] && lines[..q][..p] == lines[..p];
        EntriesGrow(lines[..n], q);
        EntriesOrder(lines, p, q);
      } else if q > n {
        LastSegment(lines[..n], p);
      }
      SegmentGrows(lines, p, q, k);
    }
  }

  lemma NoDetailsYet(line: string)
    ensures ParseTransactionLine(line).details == None
  {
  }

  lemma {:induction false} EntriesOrder(lines: seq<string>, p: nat, q: nat)
    requires p < q <= |lines| && KindOf(lines[p]) == EntryLine
    ensures Entries(lines[..p]) < Entries(lines[..q])
  {
    assert lines[..q][..p] == lines[..p];
    EntriesGrow(lines[..q], p);
  }

  lemma {:induction false} LastSegment(lines: seq<string>, p: nat)
    requires Segment(lines, p, |lines|)
    ensures Entries(lines) == Entries(lines[..p]) + 1
    decreases |lines|
  {
    hide KindOf;
    var n := |lines| - 1;
    if p < n {
      assert lines[..n][..p] == lines[..p];
      LastSegment(lines[..n], p);
    }
  }

  lemma {:induction false} LastOfKindWins(lines: seq<string>, r: nat)
    requires r < |lines| && forall k :: r < k < |lines| ==> KindOf(lines[k]) != KindOf(lines[r])
    ensures var m := MetadataOf(lines);
            match KindOf(lines[r])
            case ReferenceLine => m.transactionReference == Some(From(lines[r], 4))
            case AccountLine => m.accountIdentification == Some(From(lines[r], 4))
            case NumberLine => m.statementNumber == Some(From(lines[r], 5))
            case OpeningLine => m.openingBalance == Some(ParseBalance(From(lines[r], 5)))
            case ClosingLine => m.closingBalance == Some(ParseBalance(From(lines[r], 5)))
            case _ => true
    decreases |lines|
  {
    hide KindOf, ParseBalance;
    if r < |lines| - 1 {
      LastOfKindWins(lines[..|lines| - 1], r);
    }
  }

  predicate NoLine(lines: seq<string>, kind: LineKind, from: nat) {
    forall i :: from <= i < |lines| ==> KindOf(lines[i]) != kind
  }

  lemma NoLineSnoc(lines: seq<string>, kind: LineKind)
    requires lines != []
    ensures NoLine(lines, kind, 0) <==> NoLine(lines[..|lines| - 1], kind, 0) && KindOf(lines[|lines| - 1]) != kind
  {
    hide KindOf;
  }

  lemma {:induction false} NoKindNoField(lines: seq<string>)
    ensures var m := MetadataOf(lines);
            && (m.transactionReference.None? <==> NoLine(lines, ReferenceLine, 0))
            && (m.accountIdentification.None? <==> NoLine(lines, AccountLine, 0))
            && (m.statementNumber.None? <==> NoLine(lines, NumberLine, 0))
            && (m.openingBalance.None? <==> NoLine(lines, OpeningLine, 0))
            && (m.closingBalance.None? <==> NoLine(lines, ClosingLine, 0))
    decreases |lines|
  {
    hide KindOf, ParseBalance;
    if lines != [] {
      NoKindNoField(lines[..|lines| - 1]);
      hide NoLine;
      NoLineSnoc(lines, ReferenceLine);
      NoLineSnoc(lines, AccountLine);
      NoLineSnoc(lines, NumberLine);
      NoLineSnoc(lines, OpeningLine);
      NoLineSnoc(lines, ClosingLine);
    }
  }

  predicate OneBegins(lines: seq<string>, tag: string, from: nat) {
    exists i :: from <= i < |lines| && Begins(lines[i], tag)
  }

  lemma NoLineIff(lines: seq<string>, from: nat)
    ensures NoLine(lines, ReferenceLine, from) <==> !OneBegins(lines, ":20:", from)
    ensures NoLine(lines, AccountLine, from) <==> !OneBegins(lines, ":25:", from)
    ensures NoLine(lines, NumberLine, from) <==> !OneBegins(lines, ":28C:", from)
    ensures NoLine(lines, OpeningLine, from) <==> !OneBegins(lines, ":60F:", from) && !OneBegins(lines, ":60M:", from)
    ensures NoLine(lines, ClosingLine, from) <==> !OneBegins(lines, ":62F:", from) && !OneBegins(lines, ":62M:", from)
  {
    hide KindOf, Begins;
    forall i | from <= i < |lines|
      ensures KindOf(lines[i]) == ReferenceLine <==> Begins(lines[i], ":20:")
      ensures KindOf(lines[i]) == AccountLine <==> Begins(lines[i], ":25:")
      ensures KindOf(lines[i]) == NumberLine <==> Begins(lines[i], ":28C:")
      ensures KindOf(lines[i]) == OpeningLine <==> Begins(lines[i], ":60F:") || Begins(lines[i], ":60M:")
      ensures KindOf(lines[i]) == ClosingLine <==> Begins(lines[i], ":62F:") || Begins(lines[i], ":62M:")
    {
      KindByTag(lines[i]);
    }
  }

  /** A metadata field is absent if and only if no line begins with its tag, or with either
      of a balance's two. */
  lemma FieldAbsentIff(lines: seq<string>)
    ensures var m := MetadataOf(lines);
            && (m.transactionReference.None? <==> !OneBegins(lines, ":20:", 0))
            && (m.accountIdentification.None? <==> !OneBegins(lines, ":25:", 0))
            && (m.statementNumber.None? <==> !OneBegins(lines, ":28C:", 0))
            && (m.openingBalance.None? <==> !OneBegins(lines, ":60F:", 0) && !OneBegins(lines, ":60M:", 0))
            && (m.closingBalance.None? <==> !OneBegins(lines, ":62F:", 0) && !OneBegins(lines, ":62M:", 0))
  {
    hide OneBegins, MetadataOf, NoLine;
    NoKindNoField(lines);
    NoLineIff(lines, 0);
  }

  /** Every field is what stands behind the tag of its last line. */
  lemma LastLineWins(lines: seq<string>, r: nat)
    requires r < |lines|
    ensures var m, text, line := MetadataOf(lines), lines[r], r + 1;
            && (Begins(text, ":20:") && !OneBegins(lines, ":20:", line) ==>
                  m.transactionReference == Some(text[4..]))
            && (Begins(text, ":25:") && !OneBegins(lines, ":25:", line) ==>
                  m.accountIdentification == Some(text[4..]))
            && (Begins(text, ":28C:") && !OneBegins(lines, ":28C:", line) ==>
                  m.statementNumber == Some(text[5..]))
            && ((Begins(text, ":60F:") || Begins(text, ":60M:"))
                && !OneBegins(lines, ":60F:", line) && !OneBegins(lines, ":60M:", line) ==>
                  m.openingBalance == Some(ParseBalance(text[5..])))
            && ((Begins(text, ":62F:") || Begins(text, ":62M:"))
                && !OneBegins(lines, ":62F:", line) && !OneBegins(lines, ":62M:", line) ==>
                  m.closingBalance == Some(ParseBalance(text[5..])))
  {
    hide KindOf, MetadataOf, ParseBalance, Begins, OneBegins;
    KindByTag(lines[r]);
    NoLineIff(lines, r + 1);
    LongTags(lines[r]);
    if NoLine(lines, KindOf(lines[r]), r + 1) { LastOfKindWins(lines, r); }
  }

  lemma LongTags(line: string)
    ensures forall tag :: Begins(line, tag) ==> |tag| <= |line| && From(line, |tag|) == line[|tag|..]
  {
  }

  // ---------- Gluing files together ----------

  // The last :86: line before the first :61:, which belongs to no transaction of its own file.
  function Stray(lines: seq<string>): Option<string> {
    if lines == [] then None
    else
      var line := lines[|lines| - 1];
      if KindOf(line) == DetailsLine && Entries(lines[..|lines| - 1]) == 0 then Some(From(line, 4))
      else Stray(lines[..|lines| - 1])
  }

  function Patched(ts: seq<Transaction>, stray: Option<string>): seq<Transaction> {
    if ts == [] || stray.None? then ts else WithDetails(ts, stray.value)
  }

  lemma AddLineBehind(p: seq<Transaction>, ts: seq<Transaction>, line: string)
    requires KindOf(line) == DetailsLine ==> ts != []
    ensures AddLine(p + ts, line) == p + AddLine(ts, line)
  {
    hide KindOf, ParseTransactionLine;
  }

  lemma AddStrayDetails(ts: seq<Transaction>, stray: Option<string>, line: string)
    requires KindOf(line) == DetailsLine
    ensures AddLine(Patched(ts, stray), line) == Patched(ts, Some(From(line, 4)))
  {
  }

  /** Reading two files in a row gives the transactions of both, except that a stray
      :86: of the second sets the details of the first one's last transaction. */
  lemma {:induction false} AppendedLines(a: seq<string>, b: seq<string>)
    ensures Transactions(a + b) == Patched(Transactions(a), Stray(b)) + Transactions(b)
    decreases |b|
  {
    hide KindOf, AddLine, Patched;
    if b == [] {
      assert a + b == a && Patched(Transactions(a), None) == Transactions(a) by {
        PatchedByNothing(Transactions(a));
      }
    } else {
      var front, line := b[..|b| - 1], b[|b| - 1];
      AppendedLines(a, front);
      OneTransactionPerEntry(front);
      assert (a + b)[..|a + b| - 1] == a + front;
      StrayOnlyFirst(b);
      if KindOf(line) == DetailsLine && Transactions(front) == [] {
        AddStrayDetails(Transactions(a), Stray(front), line);
        StillNothing(front, line);
        var p, q := Patched(Transactions(a), Stray(front)), Patched(Transactions(a), Stray(b));
        assert p + [] == p && q + [] == q;
      } else {
        AddLineBehind(Patched(Transactions(a), Stray(front)), Transactions(front), line);
      }
    }
  }

  lemma PatchedByNothing(ts: seq<Transaction>)
    ensures Patched(ts, None) == ts
  {
  }

  lemma StillNothing(front: seq<string>, line: string)
    requires Transactions(front) == [] && KindOf(line) == DetailsLine
    ensures AddLine(Transactions(front), line) == []
  {
  }

  lemma {:induction false} StrayOnlyFirst(lines: seq<string>)
    ensures lines != [] && Entries(lines[..|lines| - 1]) > 0 ==> Stray(lines) == Stray(lines[..|lines| - 1])
  {
  }

  /** Appending files appends their transactions exactly when the second has no stray
      :86: line, the first no transaction, or the stray line repeats the details that are
      there already. */
  lemma AppendedFiles(a: string, b: string)
    ensures var ta, stray := Parse(a).transactions, Stray(Lines(b));
            Parse(a + "\n" + b).transactions == ta + Parse(b).transactions <==>
            (stray.None? || ta == [] || ta[|ta| - 1].details == stray)
  {
    hide Patched, AddLine, Lines, Stray, MetadataOf;
    LinesConcat(a, b);
    AppendedLines(Lines(a), Lines(b));
    PatchIsNoOpIff(Transactions(Lines(a)), Stray(Lines(b)));
    SamePrefixIff(Patched(Transactions(Lines(a)), Stray(Lines(b))), Transactions(Lines(a)), Transactions(Lines(b)));
  }

  lemma PatchIsNoOpIff(ts: seq<Transaction>, stray: Option<string>)
    ensures |Patched(ts, stray)| == |ts|
    ensures Patched(ts, stray) == ts <==> (stray.None? || ts == [] || ts[|ts| - 1].details == stray)
  {
  }

  lemma SamePrefixIff(p: seq<Transaction>, q: seq<Transaction>, t: seq<Transaction>)
    requires |p| == |q|
    ensures p + t == q + t <==> p == q
  {
    assert (p + t)[..|p|] == p && (q + t)[..|q|] == q;
  }

  // ---------- Line ends and blank lines ----------

  lemma {:induction false} KeptConcat(p: seq<string>, q: seq<string>)
    ensures Kept(p + q) == Kept(p) + Kept(q)
  {
    hide Trim;
    if p == [] {
      assert p + q == q;
    } else {
      KeptConcat(p[1..], q);
      assert (p + q)[1..] == p[1..] + q;
      var head := if Trim(p[0]) == "" then [] else [Trim(p[0])];
      assert head + (Kept(p[1..]) + Kept(q)) == (head + Kept(p[1..])) + Kept(q);
    }
  }

  lemma LinesConcat(a: string, b: string)
    ensures Lines(a + "\n" + b) == Lines(a) + Lines(b)
  {
    SplitConcat(a, b);
    KeptConcat(Split(a), Split(b));
  }

  lemma {:induction false} KeptCrlf(p: seq<string>, q: seq<string>)
    requires CrlfLines(p, q)
    ensures Kept(q) == Kept(p)
    decreases |p|
  {
    hide Trim;
    if |p| > 1 {
      assert q[0] == p[0] + "\r";
      TrimIgnoresTrailing(p[0], '\r');
      KeptCrlf(p[1..], q[1..]);
    } else {
      assert q == p;
    }
  }

  /** CRLF line ends make no difference. */
  lemma CrlfDoesNotMatter(content: string)
    ensures Parse(ToCrlf(content)) == Parse(content)
  {
    SplitCrlf(content);
    KeptCrlf(Split(content), Split(ToCrlf(content)));
  }

  lemma {:induction false} KeptNothing(p: seq<string>)
    requires forall i :: 0 <= i < |p| ==> AllSpace(p[i])
    ensures Kept(p) == []
  {
    if p != [] {
      TrimStartSpace(p[0]);
      KeptNothing(p[1..]);
    }
  }

  /** Blank lines, with or without spaces on them, make no difference. */
  lemma BlankLinesDoNotMatter(a: string, blank: string, b: string)
    requires AllSpace(blank)
    ensures Parse(a + "\n" + blank + "\n" + b) == Parse(a + "\n" + b)
  {
    SplitPiecesAreSpace(blank);
    KeptNothing(Split(blank));
    LinesConcat(a + "\n" + blank, b);
    LinesConcat(a, blank);
    LinesConcat(a, b);
    assert Lines(a) + [] == Lines(a);
  }
}
