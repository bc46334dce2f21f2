/** The string and number primitives the code relies on, as JavaScript defines them. */
module JsText {
  // White space and line terminators, which trim removes.
  predicate IsSpace(c: char) {
    c in {'\t', '\n', '\U{000B}', '\U{000C}', '\r', ' ', '\U{00A0}', '\U{1680}', '\U{202F}', '\U{205F}',
          '\U{3000}', '\U{2028}', '\U{2029}', '\U{FEFF}'}
    || '\U{2000}' <= c <= '\U{200A}'
  }

  predicate IsDigit(c: char) {
    '0' <= c <= '9'
  }

  predicate AllDigits(s: string) {
    forall i :: 0 <= i < |s| ==> IsDigit(s[i])
  }

  predicate AllSpace(s: string) {
    forall i :: 0 <= i < |s| ==> IsSpace(s[i])
  }

  // s.substring(from) and s.substring(from, to), which stop at the end of the string
  function From(s: string, from: nat): string {
    if from <= |s| then s[from..] else ""
  }

  function Between(s: string, from: nat, to: nat): string
    requires from <= to
  {
    From(if to <= |s| then s[..to] else s, from)
  }

  predicate StartsWith(s: string, p: string) {
    |p| <= |s| && s[..|p|] == p
  }

  predicate Contains(s: string, p: string) {
    StartsWith(s, p) || (s != "" && Contains(s[1..], p))
  }

  // s.replace(a, b) for single characters: only the first occurrence
  function ReplaceFirst(s: string, a: char, b: char): string {
    if s == "" then "" else if s[0] == a then [b] + s[1..] else [s[0]] + ReplaceFirst(s[1..], a, b)
  }

  lemma {:induction false} ReplaceFirstAt(s: string, t: string, a: char, b: char)
    requires a !in s
    ensures ReplaceFirst(s + [a] + t, a, b) == s + [b] + t
  {
    if s == "" {
      assert s + [a] + t == [a] + t && s + [b] + t == [b] + t;
    } else {
      ReplaceFirstAt(s[1..], t, a, b);
      assert (s + [a] + t)[1..] == s[1..] + [a] + t;
      assert s + [b] + t == [s[0]] + (s[1..] + [b] + t);
    }
  }

  // ---------- trim ----------

  function TrimStart(s: string): string {
    if s != "" && IsSpace(s[0]) then TrimStart(s[1..]) else s
  }

  function TrimEnd(s: string): string {
    if s != "" && IsSpace(s[|s| - 1]) then TrimEnd(s[..|s| - 1]) else s
  }

  function Trim(s: string): string {
    TrimEnd(TrimStart(s))
  }

  // Text that trim leaves alone.
  predicate Clean(s: string) {
    s != "" ==> !IsSpace(s[0]) && !IsSpace(s[|s| - 1])
  }

  lemma {:induction false} TrimStartSpace(s: string)
    requires AllSpace(s)
    ensures TrimStart(s) == ""
  {
    if s != "" {
      TrimStartSpace(s[1..]);
    }
  }

  lemma {:induction false} TrimStartSuffix(s: string, c: char)
    requires IsSpace(c)
    ensures TrimStart(s + [c]) == if AllSpace(s) then "" else TrimStart(s) + [c]
  {
    if s == "" {
      assert s + [c] == [c] && [c][1..] == "";
      assert TrimStart([c]) == TrimStart("");
    } else {
      assert (s + [c])[1..] == s[1..] + [c];
      TrimStartSuffix(s[1..], c);
      if IsSpace(s[0]) {
        assert AllSpace(s) <==> AllSpace(s[1..]);
      }
    }
  }

  /** A trailing white-space character, such as the carriage return of a CRLF line end,
      does not show after trim. */
  lemma TrimIgnoresTrailing(s: string, c: char)
    requires IsSpace(c)
    ensures Trim(s + [c]) == Trim(s)
  {
    TrimStartSuffix(s, c);
    if AllSpace(s) {
      TrimStartSpace(s);
    } else {
      var t := TrimStart(s);
      assert (t + [c])[..|t|] == t;
    }
  }

  // ---------- split ----------

  // s.split('\n')
  function Split(s: string): (r: seq<string>)
    ensures r != []
  {
    if s == "" then [""]
    else
      var r := Split(s[1..]);
      if s[0] == '\n' then [""] + r else [[s[0]] + r[0]] + r[1..]
  }

  // Putting a character in front of the first piece commutes with adding pieces behind.
  lemma PrependConcat(c: char, r: seq<string>, t: seq<string>)
    requires r != []
    ensures [[c] + (r + t)[0]] + (r + t)[1..] == ([[c] + r[0]] + r[1..]) + t
  {
  }

  lemma {:induction false} SplitConcat(a: string, b: string)
    ensures Split(a + "\n" + b) == Split(a) + Split(b)
  {
    if a == "" {
      assert a + "\n" + b == "\n" + b && ("\n" + b)[1..] == b;
    } else {
      assert (a + "\n" + b)[1..] == a[1..] + "\n" + b;
      SplitConcat(a[1..], b);
      PrependConcat(a[0], Split(a[1..]), Split(b));
    }
  }

  lemma {:induction false} SplitOneLine(s: string)
    requires '\n' !in s
    ensures Split(s) == [s]
  {
    if s != "" {
      SplitOneLine(s[1..]);
      assert s == [s[0]] + s[1..];
    }
  }

  lemma {:induction false} SplitPiecesAreSpace(s: string)
    requires AllSpace(s)
    ensures forall i :: 0 <= i < |Split(s)| ==> AllSpace(Split(s)[i])
  {
    if s != "" {
      SplitPiecesAreSpace(s[1..]);
    }
  }

  // Every line feed turned into carriage return and line feed.
  function ToCrlf(s: string): string {
    if s == "" then "" else (if s[0] == '\n' then "\r\n" else [s[0]]) + ToCrlf(s[1..])
  }

  // q has the lines of p, each but the last with a carriage return at its end.
  ghost predicate CrlfLines(p: seq<string>, q: seq<string>) {
    && |q| == |p| > 0 && q[|p| - 1] == p[|p| - 1]
    && forall i :: 0 <= i < |p| - 1 ==> q[i] == p[i] + "\r"
  }

  lemma CrlfPrepend(c: char, p: seq<string>, q: seq<string>)
    requires CrlfLines(p, q)
    ensures CrlfLines([[c] + p[0]] + p[1..], [[c] + q[0]] + q[1..])
  {
  }

  lemma CrlfNothing()
    ensures CrlfLines([""], [""])
  {
  }

  lemma CrlfBreak(p: seq<string>, q: seq<string>)
    requires CrlfLines(p, q)
    ensures CrlfLines([""] + p, ["\r"] + q)
  {
  }

  lemma {:induction false} SplitCrlf(s: string)
    ensures CrlfLines(Split(s), Split(ToCrlf(s)))
  {
    hide CrlfLines;
    if s == "" {
      CrlfNothing();
    } else {
      SplitCrlf(s[1..]);
      var rest := ToCrlf(s[1..]);
      if s[0] == '\n' {
        assert ToCrlf(s) == "\r" + "\n" + rest;
        SplitConcat("\r", rest);
        SplitOneLine("\r");
        CrlfBreak(Split(s[1..]), Split(rest));
      } else {
        assert ToCrlf(s) == [s[0]] + rest && ([s[0]] + rest)[1..] == rest;
        CrlfPrepend(s[0], Split(s[1..]), Split(rest));
      }
    }
  }

  // ---------- decimal digits ----------

  function DigitValue(c: char): nat
    requires IsDigit(c)
  {
    c as int - '0' as int
  }

  function Value(s: string): nat
    requires AllDigits(s)
  {
    if s == "" then 0 else 10 * Value(s[..|s| - 1]) + DigitValue(s[|s| - 1])
  }

  // String(n)
  function Decimal(n: nat): (s: string)
    ensures AllDigits(s) && s != ""
  {
    if n < 10 then [DigitChar(n)] else Decimal(n / 10) + [DigitChar(n % 10)]
  }

  function DigitChar(d: nat): (c: char)
    requires d < 10
    ensures IsDigit(c) && DigitValue(c) == d
  {
    '0' + d as char
  }

  /** Printing a number in decimal loses nothing. */
  lemma {:induction false} ValueOfDecimal(n: nat)
    ensures Value(Decimal(n)) == n
  {
    if n >= 10 {
      ValueOfDecimal(n / 10);
      var front := Decimal(n / 10);
      assert (front + [DigitChar(n % 10)])[..|front|] == front;
    } else {
      assert Value("") == 0 && [DigitChar(n)][..0] == "";
    }
  }

  // ---------- parseFloat ----------

  datatype Number = NaN | Infinite(negative: bool) | Finite(value: real)

  function Pow10(n: nat): (r: real)
    ensures r > 0.0
  {
    if n == 0 then 1.0 else 10.0 * Pow10(n - 1)
  }

  function DigitRun(s: string): (n: nat)
    ensures n <= |s| && AllDigits(s[..n])
    ensures n < |s| ==> !IsDigit(s[n])
  {
    if s != "" && IsDigit(s[0]) then
      var n := DigitRun(s[1..]);
      assert s[..n + 1] == [s[0]] + s[1..][..n];
      n + 1
    else 0
  }

  // The amount a digit string with a fraction stands for.
  function Amount(whole: string, fraction: string): real
    requires AllDigits(whole) && AllDigits(fraction)
  {
    Value(whole) as real + Value(fraction) as real / Pow10(|fraction|)
  }

  // A digit in front of n others counts for that many powers of ten.
  lemma {:induction false} ValueCons(c: char, s: string)
    requires IsDigit(c) && AllDigits(s)
    ensures Value([c] + s) as real == DigitValue(c) as real * Pow10(|s|) + Value(s) as real
  {
    hide Pow10, Value, DigitValue;
    if s == "" {
      OneDigit(c, s);
    } else {
      var n := |s| - 1;
      ValueCons(c, s[..n]);
      NextPower(n);
      LastDigit(c, s);
      OneMoreDigit(DigitValue(c) as real, Pow10(n), Pow10(n + 1), Value(s[..n]) as real, Value([c] + s[..n]) as real,
                   DigitValue(s[n]) as real);
    }
  }

  lemma OneDigit(c: char, s: string)
    requires IsDigit(c) && s == ""
    ensures Value([c] + s) == DigitValue(c) && Value(s) == 0 && Pow10(|s|) == 1.0
  {
    assert [c] + s == [c] && [c][..0] == "";
  }

  lemma LastDigit(c: char, s: string)
    requires IsDigit(c) && AllDigits(s) && s != ""
    ensures var n := |s| - 1;
            && Value(s) == 10 * Value(s[..n]) + DigitValue(s[n])
            && Value([c] + s) == 10 * Value([c] + s[..n]) + DigitValue(s[n])
  {
    hide DigitValue, Value;
    var t, n := [c] + s, |s| - 1;
    ValueSnoc(s);
    ValueSnoc(t);
    assert t[..|t| - 1] == [c] + s[..n] && t[|t| - 1] == s[n];
  }

  lemma ValueSnoc(s: string)
    requires AllDigits(s) && s != ""
    ensures Value(s) == 10 * Value(s[..|s| - 1]) + DigitValue(s[|s| - 1])
  {
  }

  lemma NextPower(n: nat)
    ensures Pow10(n + 1) == 10.0 * Pow10(n)
  {
  }

  lemma OneMoreDigit(a: real, p: real, p10: real, v: real, value: real, d: real)
    requires value == a * p + v && p10 == 10.0 * p
    ensures 10.0 * value + d == a * p10 + (10.0 * v + d)
  {
  }

  lemma FractionCons(c: char, s: string)
    requires IsDigit(c) && AllDigits(s)
    ensures 10.0 * (Value([c] + s) as real / Pow10(|[c] + s|)) == DigitValue(c) as real + Value(s) as real / Pow10(|s|)
  {
    hide Pow10, Value;
    NextPower(|s|);
    ValueCons(c, s);
    Tenfold(DigitValue(c) as real, Value(s) as real, Pow10(|s|), Value([c] + s) as real, Pow10(|s| + 1));
  }

  lemma Tenfold(d: real, v: real, p: real, value: real, p10: real)
    requires p > 0.0 && p10 == 10.0 * p && value == d * p + v
    ensures 10.0 * (value / p10) == d + v / p
  {
    var x, y := value / p10, v / p;
    assert x * p10 == value && y * p == v;
    SameFactor(10.0 * x, d + y, p);
  }

  lemma SameFactor(x: real, y: real, p: real)
    requires p > 0.0 && x * p == y * p
    ensures x == y
  {
  }

  /** Without a fraction an amount is its number, and moving the decimal point behind one
      more digit multiplies it by ten. */
  lemma AmountShifts(whole: string, c: char, fraction: string)
    requires AllDigits(whole) && IsDigit(c) && AllDigits(fraction)
    ensures Amount(whole, "") == Value(whole) as real
    ensures Amount(whole + [c], fraction) == 10.0 * Amount(whole, [c] + fraction)
  {
    hide Pow10, Value, DigitValue;
    NoFraction(whole);
    FractionCons(c, fraction);
    ValueSnoc(whole + [c]);
    assert (whole + [c])[..|whole|] == whole && (whole + [c])[|whole|] == c;
    var x, y := Value(fraction) as real / Pow10(|fraction|), Value([c] + fraction) as real / Pow10(|[c] + fraction|);
    assert 10.0 * y == DigitValue(c) as real + x;
  }

  lemma NoFraction(whole: string)
    requires AllDigits(whole)
    ensures Amount(whole, "") == Value(whole) as real
  {
  }

  // m scaled by the exponent at the start of s, if there is one.
  function Scaled(m: real, s: string): real {
    if s == "" || (s[0] != 'e' && s[0] != 'E') then m
    else
      var signed := |s| > 1 && (s[1] == '+' || s[1] == '-');
      var digits := if signed then s[2..] else s[1..];
      var n := DigitRun(digits);
      if n == 0 then m
      else if signed && s[1] == '-' then m / Pow10(Value(digits[..n]))
      else m * Pow10(Value(digits[..n]))
  }

  // StrUnsignedDecimalLiteral, longest prefix (section 9.3.1 of ECMA-262 5.1)
  function ParseUnsigned(s: string): Number {
    if StartsWith(s, "Infinity") then Infinite(false)
    else
      var n := DigitRun(s);
      var rest := s[n..];
      var point := rest != "" && rest[0] == '.';
      var m := if point then DigitRun(rest[1..]) else 0;
      if n == 0 && m == 0 then NaN
      else if point then Finite(Scaled(Amount(s[..n], rest[1..][..m]), rest[1 + m..]))
      else Finite(Scaled(Amount(s[..n], ""), rest))
  }

  // parseFloat(s), before rounding to a double
  function ParseFloat(s: string): Number {
    var t := TrimStart(s);
    if t != "" && (t[0] == '-' || t[0] == '+') then
      match ParseUnsigned(t[1..])
      case NaN => NaN
      case Infinite(_) => Infinite(t[0] == '-')
      case Finite(v) => Finite(if t[0] == '-' then -v else v)
    else ParseUnsigned(t)
  }

  lemma {:induction false} DigitRunOf(s: string, t: string)
    requires AllDigits(s) && (t != "" ==> !IsDigit(t[0]))
    ensures DigitRun(s + t) == |s|
  {
    if s == "" {
      assert s + t == t;
    } else {
      DigitRunOf(s[1..], t);
      assert (s + t)[1..] == s[1..] + t;
    }
  }

  lemma NotInfinity(s: string)
    requires s != "" && s[0] != 'I'
    ensures !StartsWith(s, "Infinity")
  {
  }

  lemma ParseUnsignedDecimal(whole: string, fraction: string)
    requires AllDigits(whole) && AllDigits(fraction)
    ensures ParseUnsigned(whole + "." + fraction) ==
            if whole == "" && fraction == "" then NaN else Finite(Amount(whole, fraction))
  {
    hide Amount, StartsWith;
    var s, rest := whole + "." + fraction, "." + fraction;
    assert s[0] == (if whole == "" then '.' else whole[0]);
    NotInfinity(s);
    assert s == whole + rest;
    DigitRunOf(whole, rest);
    Cut(whole, rest);
    FractionRun(fraction);
  }

  lemma Cut(a: string, b: string)
    ensures (a + b)[..|a|] == a && (a + b)[|a|..] == b
  {
  }

  lemma FractionRun(fraction: string)
    requires AllDigits(fraction)
    ensures var rest := "." + fraction;
            && rest[1..] == fraction && DigitRun(rest[1..]) == |fraction|
            && rest[1..][..|fraction|] == fraction && rest[1 + |fraction|..] == ""
  {
  }

  /** parseFloat reads digits.digits exactly; it is not a number when there is no digit
      at all. */
  lemma ParseDecimal(whole: string, fraction: string)
    requires AllDigits(whole) && AllDigits(fraction)
    ensures ParseFloat(whole + "." + fraction) ==
            if whole == "" && fraction == "" then NaN else Finite(Amount(whole, fraction))
  {
    hide ParseUnsigned, Amount;
    var s := whole + "." + fraction;
    assert s[0] == (if whole == "" then '.' else whole[0]);
    assert TrimStart(s) == s;
    ParseUnsignedDecimal(whole, fraction);
  }
}
