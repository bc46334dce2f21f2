/** The SWIFT MT940 statement parser: one pass over the lines of a file, with field
    parsers that work by character position. */
module Mt940 {
  import opened Wrappers
  import opened JsText

  datatype Kind = Credit | Debit
  datatype Balance = Balance(kind: Kind, date: string, currency: string, amount: Number)
  datatype Transaction = Transaction(valueDate: string, entryDate: Option<string>, kind: Kind, amount: Number,
                                     transactionType: string, reference: string, details: Option<string>)
  datatype Metadata = Metadata(transactionReference: Option<string>, accountIdentification: Option<string>,
                               statementNumber: Option<string>,
                               openingBalance: Option<Balance>, closingBalance: Option<Balance>)
  datatype Statement = Statement(transactions: seq<Transaction>, metadata: Metadata)

  // ---------- Field parsers ----------

  function ParseDate(d: string): string {
    if |d| == 6 then "20" + d[..2] + "-" + d[2..4] + "-" + d[4..6]
    else if |d| == 8 then d[..4] + "-" + d[4..6] + "-" + d[6..8]
    else d
  }

  function ParseBalance(line: string): Balance {
    Balance(if Between(line, 0, 1) == "C" then Credit else Debit,
            ParseDate(Between(line, 1, 7)), Between(line, 7, 10),
            ParseFloat(ReplaceFirst(From(line, 10), ',', '.')))
  }

  predicate AmountChar(c: char) {
    IsDigit(c) || c == ','
  }

  // How far the amount reaches: up to the first character that is no digit or comma.
  function AmountRun(s: string): (n: nat)
    ensures n <= |s|
    ensures forall i :: 0 <= i < n ==> AmountChar(s[i])
    ensures n < |s| ==> !AmountChar(s[n])
  {
    if s != "" && AmountChar(s[0]) then 1 + AmountRun(s[1..]) else 0
  }

  predicate HasEntryDate(line: string) {
    |line| > 10 && AllDigits(line[6..10])
  }

  // The transaction the parser builds from the pieces of a line.
  function Built(valueDate: string, entryDate: Option<string>, mark: string, amount: string,
                 remaining: string): Transaction {
    Transaction(
      ParseDate(valueDate),
      if entryDate.Some? then Some(ParseDate("20" + entryDate.value)) else None,
      if 'D' in mark then Debit else Credit,
      ParseFloat(ReplaceFirst(amount, ',', '.')),
      if Between(remaining, 0, 4) == "" then "UNKNOWN" else Between(remaining, 0, 4),
      From(remaining, 4),
      None)
  }

  function ParseTransactionLine(line: string): Transaction {
    var pos := if HasEntryDate(line) then 10 else 6;
    var tail := From(line, pos + 2);
    var n := AmountRun(tail);
    Built(Between(line, 0, 6), if HasEntryDate(line) then Some(line[6..10]) else None,
          Between(line, pos, pos + 2), tail[..n], tail[n..])
  }

  lemma {:induction false} AmountRunIs(s: string, k: nat)
    requires k <= |s| && (forall i :: 0 <= i < k ==> AmountChar(s[i])) && (k < |s| ==> !AmountChar(s[k]))
    ensures AmountRun(s) == k
  {
  }

  method ReadAmount(line: string, start: nat) returns (amount: string, pos: nat)
    requires start <= |line|
    ensures var tail := line[start..];
            amount == tail[..AmountRun(tail)] && pos == start + |amount|
  {
    pos := start;
    amount := "";
    while pos < |line| && AmountChar(line[pos])
      invariant start <= pos <= |line| && amount == line[start..pos]
      invariant forall i :: start <= i < pos ==> AmountChar(line[i])
    {
      amount := amount + [line[pos]];
      pos := pos + 1;
    }
    var tail := line[start..];
    AmountRunIs(tail, pos - start);
  }

  // The same by moving a position along the line, as the parser does it.
  method ReadTransactionLine(line: string) returns (t: Transaction)
    ensures t == ParseTransactionLine(line)
  {
    hide Built, AmountRun, AllDigits;
    var valueDate := Between(line, 0, 6);
    var pos := 6;
    var entryDate: Option<string> := None;
    if |line| > pos + 4 && AllDigits(Between(line, pos, pos + 4)) {
      entryDate := Some(Between(line, pos, pos + 4));
      pos := pos + 4;
    }
    var debitCredit := Between(line, pos, pos + 2);
    pos := pos + 2;
    var amount := "";
    assert From(line, pos) == if pos <= |line| then line[pos..] else "";
    if pos <= |line| {
      amount, pos := ReadAmount(line, pos);
    } else {
      AmountRunIs("", 0);
    }
    var remaining := From(line, pos);
    t := Built(valueDate, entryDate, debitCredit, amount, remaining);
  }

  // ---------- Lines ----------

  datatype LineKind = ReferenceLine | AccountLine | NumberLine | OpeningLine | ClosingLine
                    | EntryLine | DetailsLine | OtherLine

  function KindOf(line: string): LineKind {
    if StartsWith(line, ":20:") then ReferenceLine
    else if StartsWith(line, ":25:") then AccountLine
    else if StartsWith(line, ":28C:") then NumberLine
    else if StartsWith(line, ":60F:") || StartsWith(line, ":60M:") then OpeningLine
    else if StartsWith(line, ":62F:") || StartsWith(line, ":62M:") then ClosingLine
    else if StartsWith(line, ":61:") then EntryLine
    else if StartsWith(line, ":86:") then DetailsLine
    else OtherLine
  }

  // content.split('\n').map(trim).filter(nonempty)
  function Kept(pieces: seq<string>): seq<string> {
    if pieces == [] then []
    else (if Trim(pieces[0]) == "" then [] else [Trim(pieces[0])]) + Kept(pieces[1..])
  }

  function Lines(content: string): seq<string> {
    Kept(Split(content))
  }

  // ---------- The pass over the lines ----------

  function WithDetails(ts: seq<Transaction>, details: string): seq<Transaction>
    requires ts != []
  {
    ts[|ts| - 1 := ts[|ts| - 1].(details := Some(details))]
  }

  function AddLine(before: seq<Transaction>, line: string): seq<Transaction> {
    match KindOf(line)
    case EntryLine => before + [ParseTransactionLine(From(line, 4))]
    case DetailsLine => if before == [] then before else WithDetails(before, From(line, 4))
    case _ => before
  }

  // What the lines amount to: a new transaction for every :61:, and every :86: after
  // one sets the details of the newest.
  function Transactions(lines: seq<string>): seq<Transaction> {
    if lines == [] then [] else AddLine(Transactions(lines[..|lines| - 1]), lines[|lines| - 1])
  }

  const NO_METADATA := Metadata(None, None, None, None, None)

  function AddField(m: Metadata, line: string): Metadata {
    match KindOf(line)
    case ReferenceLine => m.(transactionReference := Some(From(line, 4)))
    case AccountLine => m.(accountIdentification := Some(From(line, 4)))
    case NumberLine => m.(statementNumber := Some(From(line, 5)))
    case OpeningLine => m.(openingBalance := Some(ParseBalance(From(line, 5))))
    case ClosingLine => m.(closingBalance := Some(ParseBalance(From(line, 5))))
    case _ => m
  }

  function MetadataOf(lines: seq<string>): Metadata {
    if lines == [] then NO_METADATA else AddField(MetadataOf(lines[..|lines| - 1]), lines[|lines| - 1])
  }

  function Parse(content: string): Statement {
    Statement(Transactions(Lines(content)), MetadataOf(Lines(content)))
  }

  lemma WithDetailsOfLast(ts: seq<Transaction>, t: Transaction, details: string)
    ensures WithDetails(ts + [t], details) == ts + [t.(details := Some(details))]
  {
  }

  // The finished transactions followed by the one still open.
  function Emitted(finished: seq<Transaction>, current: Option<Transaction>): seq<Transaction> {
    if current.Some? then finished + [current.value] else finished
  }

  lemma AddLineToEmitted(finished: seq<Transaction>, current: Option<Transaction>, line: string)
    requires current.None? ==> finished == []
    ensures AddLine(Emitted(finished, current), line) ==
            match KindOf(line)
            case EntryLine => Emitted(Emitted(finished, current), Some(ParseTransactionLine(From(line, 4))))
            case DetailsLine =>
              if current.None? then []
              else Emitted(finished, Some(current.value.(details := Some(From(line, 4)))))
            case _ => Emitted(finished, current)
  {
  }

  lemma NoLinesYet(lines: seq<string>)
    ensures Transactions(lines[..0]) == [] && MetadataOf(lines[..0]) == NO_METADATA
  {
  }

  lemma OneMoreLine(lines: seq<string>, i: nat)
    requires i < |lines|
    ensures Transactions(lines[..i + 1]) == AddLine(Transactions(lines[..i]), lines[i])
    ensures MetadataOf(lines[..i + 1]) == AddField(MetadataOf(lines[..i]), lines[i])
  {
    hide AddLine, AddField;
    assert lines[..i + 1][..i] == lines[..i] && lines[..i + 1][i] == lines[i];
  }

  // The body of the loop: what one line does to the finished transactions, the open one
  // and the metadata.
  method ReadLine(line: string, finished: seq<Transaction>, current: Option<Transaction>, before: Metadata)
    returns (transactions: seq<Transaction>, currentTransaction: Option<Transaction>, metadata: Metadata)
    requires current.None? ==> finished == []
    ensures currentTransaction.None? ==> transactions == []
    ensures Emitted(transactions, currentTransaction) == AddLine(Emitted(finished, current), line)
    ensures metadata == AddField(before, line)
  {
    hide ParseBalance, ParseTransactionLine, StartsWith, From, AddLine;
    AddLineToEmitted(finished, current, line);
    transactions, currentTransaction, metadata := finished, current, before;
    if StartsWith(line, ":20:") {
      metadata := metadata.(transactionReference := Some(From(line, 4)));
    } else if StartsWith(line, ":25:") {
      metadata := metadata.(accountIdentification := Some(From(line, 4)));
    } else if StartsWith(line, ":28C:") {
      metadata := metadata.(statementNumber := Some(From(line, 5)));
    } else if StartsWith(line, ":60F:") || StartsWith(line, ":60M:") {
      metadata := metadata.(openingBalance := Some(ParseBalance(From(line, 5))));
    } else if StartsWith(line, ":62F:") || StartsWith(line, ":62M:") {
      metadata := metadata.(closingBalance := Some(ParseBalance(From(line, 5))));
    } else if StartsWith(line, ":61:") {
      if currentTransaction.Some? {
        transactions := transactions + [currentTransaction.value];
      }
      var t := ReadTransactionLine(From(line, 4));
      currentTransaction := Some(t);
    } else if StartsWith(line, ":86:") && currentTransaction.Some? {
      currentTransaction := Some(currentTransaction.value.(details := Some(From(line, 4))));
    }
  }

  method ParseMT940(content: string) returns (result: Statement)
    ensures result == Parse(content)
  {
    hide AddLine, AddField, Transactions, MetadataOf;
    var lines := Lines(content);
    var transactions: seq<Transaction> := [];
    var metadata := NO_METADATA;
    var currentTransaction: Option<Transaction> := None;
    NoLinesYet(lines);
    for i := 0 to |lines|
      invariant currentTransaction.None? ==> transactions == []
      invariant Transactions(lines[..i]) == Emitted(transactions, currentTransaction)
      invariant metadata == MetadataOf(lines[..i])
    {
      OneMoreLine(lines, i);
      transactions, currentTransaction, metadata := ReadLine(lines[i], transactions, currentTransaction, metadata);
    }
    assert lines[..|lines|] == lines;
    if currentTransaction.Some? {
      transactions := transactions + [currentTransaction.value];
    }
    result := Statement(transactions, metadata);
  }
}
