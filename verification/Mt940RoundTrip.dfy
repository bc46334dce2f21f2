/** Printing MT940 fields and files, and reading them back. */
module Mt940RoundTrip {
  import opened Wrappers
  import opened JsText
  import opened Mt940
  import L = Mt940Laws

  // ---------- Dates ----------

  /** parseDate leaves what it produces alone, and tells dates of the same length apart. */
  lemma ParseDateIdempotent(d: string)
    ensures ParseDate(ParseDate(d)) == ParseDate(d)
  {
  }

  lemma ParseDateInjective(d: string, e: string)
    requires |d| == |e| && ParseDate(d) == ParseDate(e)
    ensures d == e
  {
    if |d| == 6 {
      DateParts6(d);
      DateParts6(e);
    } else if |d| == 8 {
      DateParts8(d);
      DateParts8(e);
    }
  }

  lemma DateParts6(d: string)
    requires |d| == 6
    ensures var p := ParseDate(d); |p| == 10 && p[4] == p[7] == '-' && d == p[2..4] + p[5..7] + p[8..10]
  {
    var p := ParseDate(d);
    assert p[2..4] == d[..2] && p[5..7] == d[2..4] && p[8..10] == d[4..6];
  }

  lemma DateParts8(d: string)
    requires |d| == 8
    ensures var p := ParseDate(d); |p| == 10 && p[4] == p[7] == '-' && d == p[..4] + p[5..7] + p[8..10]
  {
    var p := ParseDate(d);
    assert p[..4] == d[..4] && p[5..7] == d[4..6] && p[8..10] == d[6..8];
  }

  // ---------- Field 61, the statement line ----------

  // The debit/credit mark and funds code of field 61: C or D, RC or RD for the reversal
  // of a credit or debit, then perhaps one letter of the currency code.
  datatype Mark = Mark(reversal: bool, side: Kind, funds: Option<char>)

  function Letters(m: Mark): (s: string)
    ensures |s| == (if m.reversal then 2 else 1) + (if m.funds.Some? then 1 else 0)
  {
    (if m.reversal then "R" else "") + (if m.side.Credit? then "C" else "D")
    + (if m.funds.Some? then [m.funds.value] else "")
  }

  // What the entry does to the account: reversing a credit debits it.
  function Effect(m: Mark): Kind {
    if m.reversal then (if m.side.Credit? then Debit else Credit) else m.side
  }

  // Value date YYMMDD, entry date MMDD, mark, amount, type code, reference.
  datatype Entry = Entry(date: string, entryDate: Option<string>, mark: Mark,
                         whole: string, fraction: string, code: string, reference: string)

  // Fields of the right shape: an upper-case funds code letter, an amount with a digit,
  // and a four-character type code that starts with a letter.
  predicate WellFormed(e: Entry) {
    && |e.date| == 6 && AllDigits(e.date)
    && (e.entryDate.Some? ==> |e.entryDate.value| == 4 && AllDigits(e.entryDate.value))
    && (e.mark.funds.Some? ==> 'A' <= e.mark.funds.value <= 'Z')
    && AllDigits(e.whole) && AllDigits(e.fraction) && e.whole != ""
    && |e.code| == 4 && 'A' <= e.code[0] <= 'Z'
  }

  // The parser always takes two characters for the mark.
  predicate TwoLetters(e: Entry) {
    |Letters(e.mark)| == 2
  }

  function Print(e: Entry): string {
    e.date + e.entryDate.GetOr("") + Letters(e.mark) + e.whole + "," + e.fraction + e.code + e.reference
  }

  function Tail(digits: string, e: Entry): string {
    digits + "," + e.fraction + e.code + e.reference
  }

  // Reading the part of the line behind the two characters taken for the mark.
  lemma ReadTail(digits: string, e: Entry)
    requires WellFormed(e) && AllDigits(digits)
    ensures var tail, n := Tail(digits, e), |digits| + 1 + |e.fraction|;
            && AmountRun(tail) == n && tail[n..] == e.code + e.reference
            && ReplaceFirst(tail[..n], ',', '.') == digits + "." + e.fraction
  {
    var amount, tail := digits + "," + e.fraction, Tail(digits, e);
    var n := |amount|;
    assert tail == amount + (e.code + e.reference);
    assert tail[..n] == amount && tail[n..] == e.code + e.reference;
    assert forall i :: 0 <= i < n ==> tail[i] == amount[i] && AmountChar(amount[i]);
    assert tail[n] == e.code[0];
    AmountRunIs(tail, n);
    ReplaceFirstAt(digits, e.fraction, ',', '.');
  }

  lemma CodeAndReference(e: Entry)
    requires WellFormed(e)
    ensures var remaining := e.code + e.reference;
            remaining != "" && Between(remaining, 0, 4) == e.code && From(remaining, 4) == e.reference
  {
  }

  lemma PrintedPieces(e: Entry, mark: string, digits: string)
    requires mark + digits == Letters(e.mark) + e.whole
    ensures Print(e) == (e.date + e.entryDate.GetOr("")) + (mark + Tail(digits, e))
  {
    hide Letters;
    var rest := "," + e.fraction + e.code + e.reference;
    assert Print(e) == (e.date + e.entryDate.GetOr("")) + ((Letters(e.mark) + e.whole) + rest);
    assert mark + Tail(digits, e) == (mark + digits) + rest;
  }

  // The line up to the amount, split where the parser splits it.
  lemma ReadHead(e: Entry, mark: string, digits: string)
    requires WellFormed(e) && |mark| == 2 && mark + digits == Letters(e.mark) + e.whole
    ensures var line, pos := Print(e), if e.entryDate.Some? then 10 else 6;
            && HasEntryDate(line) == e.entryDate.Some?
            && (e.entryDate.Some? ==> line[6..10] == e.entryDate.value)
            && Between(line, 0, 6) == e.date
            && Between(line, pos, pos + 2) == mark && From(line, pos + 2) == Tail(digits, e)
  {
    PrintedPieces(e, mark, digits);
    FirstLetter(e, mark, digits);
    hide Print, Tail, Letters;
    var line, head, tail := Print(e), e.date + e.entryDate.GetOr(""), Tail(digits, e);
    assert line[|head|] == mark[0] && !IsDigit(mark[0]);
    assert line[..6] == e.date;
    if e.entryDate.Some? {
      assert line[6..10] == e.entryDate.value;
    } else {
      assert |line| > 10 ==> line[6..10][0] == mark[0];
    }
    assert line[|head|..|head| + 2] == mark && line[|head| + 2..] == tail;
  }

  lemma FirstLetter(e: Entry, mark: string, digits: string)
    requires |mark| == 2 && mark + digits == Letters(e.mark) + e.whole
    ensures mark[0] in {'R', 'C', 'D'}
  {
    assert mark[0] == (mark + digits)[0] == Letters(e.mark)[0];
  }

  // The parser's line, from the pieces it takes for the mark and the amount.
  lemma ReadPieces(e: Entry, mark: string, digits: string)
    requires WellFormed(e) && |mark| == 2 && mark + digits == Letters(e.mark) + e.whole
    ensures var tail, n := Tail(digits, e), AmountRun(Tail(digits, e));
            ParseTransactionLine(Print(e)) == Built(e.date, e.entryDate, mark, tail[..n], tail[n..])
  {
    hide Print, WellFormed, AmountRun, HasEntryDate, Built, Between, AllDigits, Letters, Tail;
    ReadHead(e, mark, digits);
  }

  lemma ReadEntry(e: Entry, mark: string, digits: string)
    requires WellFormed(e) && |mark| == 2 && mark + digits == Letters(e.mark) + e.whole && AllDigits(digits)
    ensures ParseTransactionLine(Print(e)) ==
            Transaction(ParseDate(e.date),
                        if e.entryDate.Some? then Some(ParseDate("20" + e.entryDate.value)) else None,
                        if 'D' in mark then Debit else Credit, ParseFloat(digits + "." + e.fraction),
                        e.code, e.reference, None)
  {
    hide ParseDate, ParseFloat, ParseTransactionLine, Print, WellFormed, AmountRun, ReplaceFirst, Between, AllDigits,
         Letters, Tail;
    ReadPieces(e, mark, digits);
    ReadTail(digits, e);
    CodeAndReference(e);
  }

  // The side the parser reports: that of the letter C or D, but a credit with funds code
  // letter D reads as a debit, unless it is a reversal.
  function SideRead(m: Mark): Kind {
    if m.side.Credit? && !m.reversal && m.funds == Some('D') then Debit else m.side
  }

  // What a printed line is read as, apart from its amount. The entry date gets the
  // parser's fixed year 2020.
  function ReadBack(e: Entry): Transaction
    requires WellFormed(e)
  {
    Transaction(ParseDate(e.date),
                if e.entryDate.None? then None
                else Some("2020-" + e.entryDate.value[..2] + "-" + e.entryDate.value[2..]),
                SideRead(e.mark), Finite(Amount(e.whole, e.fraction)), e.code, e.reference, None)
  }

  // A D among the two characters taken for the mark.
  lemma SideOfLetters(e: Entry, mark: string, digits: string)
    requires WellFormed(e) && |mark| == 2 && mark + digits == Letters(e.mark) + e.whole
    ensures (if 'D' in mark then Debit else Credit) == SideRead(e.mark)
  {
    var s := Letters(e.mark) + e.whole;
    assert mark[0] == s[0] && mark[1] == s[1];
    assert !e.mark.reversal && e.mark.funds.None? ==> s[1] == e.whole[0] && IsDigit(s[1]);
    assert !e.mark.reversal && e.mark.funds.Some? ==> s[1] == e.mark.funds.value;
    assert e.mark.reversal ==> s[0] == 'R' && s[1] == if e.mark.side.Credit? then 'C' else 'D';
  }

  /** Field 61 with a two-letter mark, that is a reversal or a funds code but not both, is
      read back exactly; but for a credit with funds code letter D the side is wrong. */
  lemma EntryRoundTrip(e: Entry)
    requires WellFormed(e) && TwoLetters(e)
    ensures ParseTransactionLine(Print(e)) == ReadBack(e)
    ensures ReadBack(e).kind == e.mark.side <==> e.mark != Mark(false, Credit, Some('D'))
  {
    hide ParseTransactionLine, Amount, ParseFloat, Print, Letters;
    ReadEntry(e, Letters(e.mark), e.whole);
    SideOfLetters(e, Letters(e.mark), e.whole);
    ParseDecimal(e.whole, e.fraction);
    if e.entryDate.Some? { FixedYear(e.entryDate.value); }
  }

  lemma FixedYear(d: string)
    requires |d| == 4
    ensures ParseDate("20" + d) == "2020-" + d[..2] + "-" + d[2..]
  {
    var s := "20" + d;
    assert s[..2] == "20" && s[2..4] == d[..2] && s[4..6] == d[2..];
    assert "20" + s[..2] == "2020";
    assert "2020" + "-" == "2020-";
  }

  lemma MonthAndDay(d: string)
    requires |d| == 4
    ensures var p := "2020-" + d[..2] + "-" + d[2..]; |p| == 10 && d == p[5..7] + p[8..10]
  {
  }

  /** So nothing that was printed can be confused: lines that read alike agree on the
      value date, on presence, month and day of the entry date, on the side read, amount,
      type code and reference. */
  lemma EntriesToldApart(e: Entry, f: Entry)
    requires WellFormed(e) && WellFormed(f) && TwoLetters(e) && TwoLetters(f)
    requires ParseTransactionLine(Print(e)) == ParseTransactionLine(Print(f))
    ensures e.date == f.date && e.entryDate == f.entryDate && SideRead(e.mark) == SideRead(f.mark)
    ensures Amount(e.whole, e.fraction) == Amount(f.whole, f.fraction)
    ensures e.code == f.code && e.reference == f.reference
  {
    hide ParseTransactionLine, Amount, ParseDate, Print, TwoLetters;
    EntryRoundTrip(e);
    EntryRoundTrip(f);
    ParseDateInjective(e.date, f.date);
    assert ReadBack(e).entryDate.Some? == ReadBack(f).entryDate.Some?;
    if e.entryDate.Some? {
      MonthAndDay(e.entryDate.value);
      MonthAndDay(f.entryDate.value);
    }
  }

  // ---------- Every mark of the standard ----------

  lemma {:induction false} LeadingDigit(s: string)
    requires AllDigits(s) && s != ""
    ensures Value(s[1..]) <= Value(s)
    ensures Value(s) == Value(s[1..]) <==> s[0] == '0'
  {
    var n := |s| - 1;
    if n == 0 {
      assert Value(s) == 10 * Value(s[..0]) + DigitValue(s[0]) && Value(s[..0]) == 0;
    } else {
      LeadingDigit(s[..n]);
      assert s[1..][..n - 1] == s[..n][1..] && s[1..][n - 1] == s[n];
    }
  }

  // C or D alone: the first digit of the amount is taken for part of the mark.
  lemma OneLetterAmount(e: Entry)
    requires WellFormed(e) && |Letters(e.mark)| == 1
    ensures ParseTransactionLine(Print(e)).amount == Finite(Amount(e.whole, e.fraction)) <==>
            (e.whole[0] == '0' && (|e.whole| > 1 || e.fraction != ""))
  {
    hide ParseTransactionLine, ParseFloat, Print, Letters;
    var mark, digits := Letters(e.mark) + e.whole[..1], e.whole[1..];
    assert mark + digits == Letters(e.mark) + e.whole;
    ReadEntry(e, mark, digits);
    ParseDecimal(digits, e.fraction);
    LeadingDigit(e.whole);
    assert Amount(e.whole, e.fraction) - Amount(digits, e.fraction) == (Value(e.whole) - Value(digits)) as real;
  }

  // A reversal with a funds code: the amount is looked for at the funds code letter.
  lemma ThreeLetterAmount(e: Entry)
    requires WellFormed(e) && |Letters(e.mark)| == 3
    ensures ParseTransactionLine(Print(e)).amount == NaN
    ensures ParseTransactionLine(Print(e)).kind == SideRead(e.mark)
  {
    hide ParseTransactionLine, Print, Letters, ParseDate;
    var m := Letters(e.mark);
    var mark, digits := m[..2], m[2..] + e.whole;
    assert mark + digits == m + e.whole;
    ReadPieces(e, mark, digits);
    SideOfLetters(e, mark, digits);
    ThirdLetter(e);
    assert Tail(digits, e)[0] == m[2] && !AmountChar(m[2]);
    assert ReplaceFirst("", ',', '.') == "" && ParseFloat("") == NaN;
  }

  lemma ThirdLetter(e: Entry)
    requires WellFormed(e) && |Letters(e.mark)| == 3
    ensures 'A' <= Letters(e.mark)[2] <= 'Z'
  {
  }

  /** For every mark: the amount comes out right if and only if the mark has two letters,
      or has one and the amount starts with a zero that is not its only digit. With three
      letters it is not a number. */
  lemma AmountReadIff(e: Entry)
    requires WellFormed(e)
    ensures ParseTransactionLine(Print(e)).amount == Finite(Amount(e.whole, e.fraction)) <==>
            match |Letters(e.mark)|
            case 1 => e.whole[0] == '0' && (|e.whole| > 1 || e.fraction != "")
            case 2 => true
            case _ => false
  {
    hide ParseTransactionLine, Print, Amount;
    if |Letters(e.mark)| == 1 {
      OneLetterAmount(e);
    } else if |Letters(e.mark)| == 2 {
      EntryRoundTrip(e);
    } else {
      ThreeLetterAmount(e);
    }
  }

  /** For every mark: the direction is the letter's unless it is a credit with funds code
      letter D, as for US dollars; and it is what the entry does to the account if and
      only if moreover the entry is no reversal. */
  lemma DirectionReadIff(e: Entry)
    requires WellFormed(e)
    ensures var kind := ParseTransactionLine(Print(e)).kind;
            && (kind == e.mark.side <==> e.mark != Mark(false, Credit, Some('D')))
            && (kind == Effect(e.mark) <==> !e.mark.reversal && e.mark != Mark(false, Credit, Some('D')))
  {
    hide ParseTransactionLine, Print, Letters, ParseFloat;
    if |Letters(e.mark)| == 1 {
      var mark, digits := Letters(e.mark) + e.whole[..1], e.whole[1..];
      assert mark + digits == Letters(e.mark) + e.whole;
      ReadEntry(e, mark, digits);
      SideOfLetters(e, mark, digits);
    } else if |Letters(e.mark)| == 2 {
      EntryRoundTrip(e);
    } else {
      ThreeLetterAmount(e);
    }
  }

  /** A five-euro credit without funds code is read as nothing. */
  lemma FiveReadAsZero()
    ensures var e := Entry("230930", None, Mark(false, Credit, None), "5", "00", "NTRF", "NONREF");
            Print(e) == "230930C5,00NTRFNONREF" && ParseTransactionLine(Print(e)).amount == Finite(0.0) != Finite(5.0)
  {
    hide ParseTransactionLine, ParseFloat;
    var e := Entry("230930", None, Mark(false, Credit, None), "5", "00", "NTRF", "NONREF");
    ReadEntry(e, "C5", "");
    ParseDecimal("", "00");
    assert Value("") == 0 && "00"[..1] == "0" && "0"[..0] == "" && Value("0") == 0 && Value("00") == 0;
  }

  /** A line has an entry date if and only if four digits stand behind the value date and
      the line goes on behind them. */
  lemma EntryDateIff(line: string)
    ensures ParseTransactionLine(line).entryDate.Some? <==>
            |line| >= 11 && forall i :: 6 <= i < 10 ==> '0' <= line[i] <= '9'
  {
    hide ParseFloat, ReplaceFirst, AmountRun, ParseDate;
    if |line| >= 11 {
      var four := line[6..10];
      assert four[0] == line[6] && four[1] == line[7] && four[2] == line[8] && four[3] == line[9];
    }
  }

  // ---------- Fields 60a and 62a, the balances ----------

  // The balance of a first or last page, or of one in between.
  datatype PrintedBalance = PrintedBalance(intermediate: bool, kind: Kind, date: string, currency: string,
                                           whole: string, fraction: string)

  predicate WellFormedBalance(b: PrintedBalance) {
    |b.date| == 6 && |b.currency| == 3 && AllDigits(b.whole) && AllDigits(b.fraction) && b.whole != ""
  }

  function PrintBalance(b: PrintedBalance): string {
    (if b.kind.Credit? then "C" else "D") + b.date + b.currency + b.whole + "," + b.fraction
  }

  function BalanceBack(b: PrintedBalance): Balance
    requires WellFormedBalance(b)
  {
    Balance(b.kind, ParseDate(b.date), b.currency, Finite(Amount(b.whole, b.fraction)))
  }

  lemma BalanceRoundTrip(b: PrintedBalance)
    requires WellFormedBalance(b)
    ensures ParseBalance(PrintBalance(b)) == BalanceBack(b)
  {
    hide ParseFloat, ReplaceFirst, Amount, ParseDate;
    var line := PrintBalance(b);
    var amount := b.whole + "," + b.fraction;
    assert line[..1] == if b.kind.Credit? then "C" else "D";
    assert line[1..7] == b.date && line[7..10] == b.currency && line[10..] == amount;
    ReplaceFirstAt(b.whole, b.fraction, ',', '.');
    ParseDecimal(b.whole, b.fraction);
  }

  // ---------- Whole files ----------

  // An entry with the lines of its details, field 86.
  datatype Item = Item(entry: Entry, details: Option<seq<string>>)

  datatype File = File(reference: string, account: string, number: string, opening: PrintedBalance,
                       entries: seq<Item>, closing: PrintedBalance)

  function EntryLines(es: seq<Item>): seq<string>
    requires forall i :: 0 <= i < |es| ==> ProperItem(es[i])
  {
    if es == [] then []
    else EntryLines(es[..|es| - 1]) + Block(es[|es| - 1])
  }

  // Details have at least one line, and no continuation line looks like another field.
  predicate ProperItem(item: Item) {
    && WellFormed(item.entry) && TwoLetters(item.entry)
    && (item.details.Some? ==>
          && item.details.value != []
          && forall k :: 1 <= k < |item.details.value| ==> KindOf(item.details.value[k]) == OtherLine)
  }

  function Block(item: Item): seq<string>
    requires ProperItem(item)
  {
    [":61:" + Print(item.entry)]
    + if item.details.Some? then [":86:" + item.details.value[0]] + item.details.value[1..] else []
  }

  function OpeningTag(b: PrintedBalance): string {
    if b.intermediate then ":60M:" else ":60F:"
  }

  function ClosingTag(b: PrintedBalance): string {
    if b.intermediate then ":62M:" else ":62F:"
  }

  function HeaderLines(f: File): seq<string> {
    [":20:" + f.reference] + [":25:" + f.account] + [":28C:" + f.number]
    + [OpeningTag(f.opening) + PrintBalance(f.opening)]
  }

  function FileLines(f: File): seq<string>
    requires forall i :: 0 <= i < |f.entries| ==> ProperItem(f.entries[i])
  {
    HeaderLines(f) + EntryLines(f.entries) + [ClosingTag(f.closing) + PrintBalance(f.closing)]
  }

  function Join(lines: seq<string>): string
    requires lines != []
  {
    if |lines| == 1 then lines[0] else lines[0] + "\n" + Join(lines[1..])
  }

  // A line that survives splitting and trimming.
  predicate Printable(line: string) {
    line != "" && Clean(line) && '\n' !in line
  }

  predicate PrintableFile(f: File) {
    && WellFormedBalance(f.opening) && WellFormedBalance(f.closing)
    && (forall i :: 0 <= i < |f.entries| ==> ProperItem(f.entries[i]))
    && (forall i :: 0 <= i < |FileLines(f)| ==> Printable(FileLines(f)[i]))
  }

  // What is read of an entry with its details: their first line only.
  function ItemBack(item: Item): Transaction
    requires ProperItem(item)
  {
    ReadBack(item.entry).(details := if item.details.Some? then Some(item.details.value[0]) else None)
  }

  function EntriesBack(es: seq<Item>): seq<Transaction>
    requires forall i :: 0 <= i < |es| ==> ProperItem(es[i])
  {
    seq(|es|, i requires 0 <= i < |es| => ItemBack(es[i]))
  }

  // What the entry says: all lines of its details.
  function ItemMeant(item: Item): Transaction
    requires ProperItem(item)
  {
    ReadBack(item.entry).(details := if item.details.Some? then Some(Join(item.details.value)) else None)
  }

  function EntriesMeant(es: seq<Item>): seq<Transaction>
    requires forall i :: 0 <= i < |es| ==> ProperItem(es[i])
  {
    seq(|es|, i requires 0 <= i < |es| => ItemMeant(es[i]))
  }

  lemma {:induction false} LinesOfJoin(lines: seq<string>)
    requires lines != [] && forall i :: 0 <= i < |lines| ==> Printable(lines[i])
    ensures Lines(Join(lines)) == lines
  {
    SplitOneLine(lines[0]);
    assert Trim(lines[0]) == lines[0];
    assert Kept([]) == [] && [lines[0]][1..] == [];
    assert Lines(lines[0]) == [lines[0]];
    if |lines| > 1 {
      LinesOfJoin(lines[1..]);
      L.LinesConcat(lines[0], Join(lines[1..]));
      assert [lines[0]] + lines[1..] == lines;
    } else {
      assert lines == [lines[0]];
    }
  }

  // The tag in front of a line decides its kind.
  lemma Tagged(tag: string, text: string)
    ensures |tag| == 4 ==> From(tag + text, 4) == text
    ensures |tag| == 5 ==> From(tag + text, 5) == text
    ensures tag == ":20:" ==> KindOf(tag + text) == ReferenceLine
    ensures tag == ":25:" ==> KindOf(tag + text) == AccountLine
    ensures tag == ":28C:" ==> KindOf(tag + text) == NumberLine
    ensures tag == ":60F:" || tag == ":60M:" ==> KindOf(tag + text) == OpeningLine
    ensures tag == ":62F:" || tag == ":62M:" ==> KindOf(tag + text) == ClosingLine
    ensures tag == ":61:" ==> KindOf(tag + text) == EntryLine
    ensures tag == ":86:" ==> KindOf(tag + text) == DetailsLine
  {
    hide KindOf;
    var line := tag + text;
    assert L.Begins(line, tag);
    L.KindByTag(line);
  }

  lemma AddOne(lines: seq<string>, line: string)
    ensures Transactions(lines + [line]) == AddLine(Transactions(lines), line)
    ensures MetadataOf(lines + [line]) == AddField(MetadataOf(lines), line)
  {
  }

  // Lines that start no field change nothing.
  lemma {:induction false} ContinuationIgnored(lines: seq<string>, more: seq<string>)
    requires forall k :: 0 <= k < |more| ==> KindOf(more[k]) == OtherLine
    ensures Transactions(lines + more) == Transactions(lines) && MetadataOf(lines + more) == MetadataOf(lines)
    decreases |more|
  {
    hide KindOf, Transactions, MetadataOf;
    if more == [] {
      assert lines + [] == lines;
    } else {
      var front, last := more[..|more| - 1], more[|more| - 1];
      ContinuationIgnored(lines, front);
      AddOne(lines + front, last);
      assert lines + more == (lines + front) + [last];
    }
  }

  lemma EntryReadBack(lines: seq<string>, e: Entry)
    requires WellFormed(e) && TwoLetters(e)
    ensures Transactions(lines + [":61:" + Print(e)]) == Transactions(lines) + [ReadBack(e)]
    ensures MetadataOf(lines + [":61:" + Print(e)]) == MetadataOf(lines)
  {
    hide KindOf, ParseTransactionLine, Print, ReadBack, WellFormed, TwoLetters, Transactions, MetadataOf;
    Tagged(":61:", Print(e));
    AddOne(lines, ":61:" + Print(e));
    EntryRoundTrip(e);
  }

  lemma DetailsReadBack(lines: seq<string>, before: seq<Transaction>, t: Transaction, first: string, more: seq<string>)
    requires Transactions(lines) == before + [t]
    requires forall k :: 0 <= k < |more| ==> KindOf(more[k]) == OtherLine
    ensures Transactions(lines + ([":86:" + first] + more)) == before + [t.(details := Some(first))]
    ensures MetadataOf(lines + ([":86:" + first] + more)) == MetadataOf(lines)
  {
    hide KindOf, Transactions, MetadataOf, WithDetails;
    Tagged(":86:", first);
    AddOne(lines, ":86:" + first);
    WithDetailsOfLast(before, t, first);
    ContinuationIgnored(lines + [":86:" + first], more);
    assert lines + [":86:" + first] + more == lines + ([":86:" + first] + more);
  }

  lemma BlockReadBack(lines: seq<string>, item: Item)
    requires ProperItem(item)
    ensures Transactions(lines + Block(item)) == Transactions(lines) + [ItemBack(item)]
    ensures MetadataOf(lines + Block(item)) == MetadataOf(lines)
  {
    hide KindOf, Print, ReadBack, WellFormed, TwoLetters, Transactions, MetadataOf;
    var entry, d := [":61:" + Print(item.entry)], item.details;
    EntryReadBack(lines, item.entry);
    NoDetails(item.entry);
    if d.Some? {
      DetailsReadBack(lines + entry, Transactions(lines), ReadBack(item.entry), d.value[0], d.value[1..]);
      assert (lines + entry) + ([":86:" + d.value[0]] + d.value[1..]) == lines + Block(item);
    } else {
      assert entry + [] == entry;
    }
  }

  lemma {:induction false} BodyReadBack(head: seq<string>, es: seq<Item>)
    requires Transactions(head) == []
    requires forall i :: 0 <= i < |es| ==> ProperItem(es[i])
    ensures Transactions(head + EntryLines(es)) == EntriesBack(es)
    ensures MetadataOf(head + EntryLines(es)) == MetadataOf(head)
    decreases |es|
  {
    hide Transactions, MetadataOf, Block, ItemBack, ProperItem;
    if es == [] {
      assert head + [] == head;
    } else {
      var front, last := es[..|es| - 1], es[|es| - 1];
      BodyReadBack(head, front);
      BlockReadBack(head + EntryLines(front), last);
      assert (head + EntryLines(front)) + Block(last) == head + (EntryLines(front) + Block(last));
      assert EntriesBack(es) == EntriesBack(front) + [ItemBack(last)];
    }
  }

  lemma NoDetails(e: Entry)
    requires WellFormed(e)
    ensures ReadBack(e).(details := None) == ReadBack(e)
  {
  }

  lemma HeaderReadBack(f: File)
    requires WellFormedBalance(f.opening)
    ensures Transactions(HeaderLines(f)) == []
    ensures MetadataOf(HeaderLines(f)) ==
            Metadata(Some(f.reference), Some(f.account), Some(f.number), Some(BalanceBack(f.opening)), None)
  {
    hide KindOf, ParseBalance, PrintBalance, BalanceBack;
    var a, b, c := ":20:" + f.reference, ":25:" + f.account, ":28C:" + f.number;
    var d := OpeningTag(f.opening) + PrintBalance(f.opening);
    Tagged(":20:", f.reference);
    Tagged(":25:", f.account);
    Tagged(":28C:", f.number);
    Tagged(OpeningTag(f.opening), PrintBalance(f.opening));
    BalanceRoundTrip(f.opening);
    assert [] + [a] == [a];
    AddOne([], a);
    AddOne([a], b);
    AddOne([a] + [b], c);
    AddOne([a] + [b] + [c], d);
  }

  /** A whole printed file is read back: every field of the header, both balances, and
      every entry with the first line of its own details, in order. By CrlfDoesNotMatter and
      BlankLinesDoNotMatter the same holds with CRLF line ends and blank lines. */
  lemma FileRoundTrip(f: File)
    requires PrintableFile(f)
    ensures Parse(Join(FileLines(f))) ==
            Statement(EntriesBack(f.entries),
                      Metadata(Some(f.reference), Some(f.account), Some(f.number),
                               Some(BalanceBack(f.opening)), Some(BalanceBack(f.closing))))
  {
    hide KindOf, ParseBalance, PrintBalance, BalanceBack, Printable, HeaderLines, EntryLines, Transactions, MetadataOf,
         ProperItem, Join, Lines;
    LinesOfJoin(FileLines(f));
    HeaderReadBack(f);
    BodyReadBack(HeaderLines(f), f.entries);
    Tagged(ClosingTag(f.closing), PrintBalance(f.closing));
    AddOne(HeaderLines(f) + EntryLines(f.entries), ClosingTag(f.closing) + PrintBalance(f.closing));
    BalanceRoundTrip(f.closing);
  }

  lemma JoinOfMore(lines: seq<string>)
    requires lines != []
    ensures Join(lines) == lines[0] <==> |lines| == 1
  {
  }

  /** The entries are read back as they were meant if and only if all their details have
      one line: of a longer field 86 every line but the first is dropped. */
  lemma DetailsReadIff(f: File)
    requires PrintableFile(f)
    ensures Parse(Join(FileLines(f))).transactions == EntriesMeant(f.entries) <==>
            forall i :: 0 <= i < |f.entries| && f.entries[i].details.Some? ==> |f.entries[i].details.value| == 1
  {
    hide Parse, FileLines, ReadBack, Join, WellFormed, TwoLetters;
    FileRoundTrip(f);
    var back, meant := EntriesBack(f.entries), EntriesMeant(f.entries);
    forall i | 0 <= i < |f.entries| && f.entries[i].details.Some?
      ensures back[i] == meant[i] <==> |f.entries[i].details.value| == 1
    {
      JoinOfMore(f.entries[i].details.value);
    }
    assert forall i :: 0 <= i < |f.entries| && f.entries[i].details.None? ==> back[i] == meant[i];
  }
}
