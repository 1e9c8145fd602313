/** The fragment of SQL the row filters are printed in, and a reader for it that follows
    section 5.3 <literal> and section 8.4 <in predicate> of ISO/IEC 9075-2. */
module SqlText {
  import opened Sequences
  import opened Wrappers

  datatype Literal = Text(text: string) | Numeral(digits: string)

  datatype Predicate = In(column: string, values: seq<Literal>) | False

  const QUOTE: char := '\''
  const DOUBLE_QUOTE: char := '\"'

  // --- Printing ---

  /** Every occurrence of q doubled. */
  function Doubled(q: char, s: string): string {
    if s == "" then "" else (if s[0] == q then [q, q] else [s[0]]) + Doubled(q, s[1..])
  }

  function PrintLiteral(l: Literal): string {
    match l
    case Text(s) => [QUOTE] + Doubled(QUOTE, s) + [QUOTE]
    case Numeral(d) => d
  }

  function PrintLiterals(values: seq<Literal>): (texts: seq<string>)
    ensures |texts| == |values|
    ensures forall i | 0 <= i < |values| :: texts[i] == PrintLiteral(values[i])
  {
    seq(|values|, i requires 0 <= i < |values| => PrintLiteral(values[i]))
  }

  /** The column is quoted but its own quotes are not doubled. */
  function PrintIn(column: string, texts: seq<string>): string {
    [DOUBLE_QUOTE] + column + [DOUBLE_QUOTE] + " IN (" + JoinComma(texts) + ")"
  }

  // --- Numerals: -?[0-9]+(\.[0-9]+)? ---

  predicate Digit(c: char) {
    '0' <= c <= '9'
  }

  predicate Digits(s: string) {
    s != "" && forall i | 0 <= i < |s| :: Digit(s[i])
  }

  function Unsigned(v: string): string {
    if v != "" && v[0] == '-' then v[1..] else v
  }

  predicate PointAt(b: string, i: nat) {
    i < |b| && b[i] == '.' && Digits(b[..i]) && Digits(b[i + 1..])
  }

  predicate IsNumeral(v: string) {
    var b := Unsigned(v);
    Digits(b) || exists i: nat :: i < |b| && PointAt(b, i)
  }

  predicate NumeralChar(c: char) {
    Digit(c) || c == '-' || c == '.'
  }

  lemma NumeralChars(v: string)
    requires IsNumeral(v)
    ensures v != "" && forall i | 0 <= i < |v| :: NumeralChar(v[i])
  {
    var b := Unsigned(v);
    if !Digits(b) {
      var p: nat :| p < |b| && PointAt(b, p);
      forall i | 0 <= i < |b|
        ensures NumeralChar(b[i])
      {
        if i < p {
          assert b[i] == b[..p][i];
        } else if i > p {
          assert b[i] == b[p + 1..][i - p - 1];
        }
      }
    }
    assert forall i | 0 <= i < |b| :: NumeralChar(b[i]);
    if v != b {
      assert forall i | 1 <= i < |v| :: v[i] == b[i - 1];
    }
  }

  // --- Reading ---

  /** Reads up to the closing quote q; a doubled quote stands for one. */
  function ReadQuoted(q: char, t: string): (r: Option<(string, string)>)
    ensures r.Some? ==> |r.value.1| < |t|
  {
    if t == "" then None
    else if t[0] != q then
      match ReadQuoted(q, t[1..])
      case None => None
      case Some((s, rest)) => Some(([t[0]] + s, rest))
    else if |t| > 1 && t[1] == q then
      match ReadQuoted(q, t[2..])
      case None => None
      case Some((s, rest)) => Some(([q] + s, rest))
    else Some(("", t[1..]))
  }

  function Span(t: string): (n: nat)
    ensures n <= |t|
    ensures forall i | 0 <= i < n :: NumeralChar(t[i])
    ensures n < |t| ==> !NumeralChar(t[n])
  {
    if t == "" || !NumeralChar(t[0]) then 0 else 1 + Span(t[1..])
  }

  function ReadLiteral(t: string): (r: Option<(Literal, string)>)
    ensures r.Some? ==> |r.value.1| < |t|
  {
    if t == "" then None
    else if t[0] == QUOTE then
      match ReadQuoted(QUOTE, t[1..])
      case None => None
      case Some((s, rest)) => Some((Text(s), rest))
    else
      var n := Span(t);
      if n > 0 && IsNumeral(t[..n]) then Some((Numeral(t[..n]), t[n..])) else None
  }

  function ReadList(t: string): Option<seq<Literal>>
    decreases |t|
  {
    match ReadLiteral(t)
    case None => None
    case Some((l, rest)) =>
      if rest == ")" then Some([l])
      else if ", " <= rest then
        match ReadList(rest[2..])
        case None => None
        case Some(ls) => Some([l] + ls)
      else None
  }

  function ReadPredicate(t: string): Option<Predicate> {
    if t == "false" then Some(False)
    else if t == "" || t[0] != DOUBLE_QUOTE then None
    else
      match ReadQuoted(DOUBLE_QUOTE, t[1..])
      case None => None
      case Some((column, rest)) =>
        if !(" IN (" <= rest) then None
        else
          match ReadList(rest[5..])
          case None => None
          case Some(values) => Some(In(column, values))
  }

  // --- Reading inverts printing ---

  lemma {:induction false} ReadQuotedPrinted(q: char, s: string, rest: string)
    requires rest == "" || rest[0] != q
    ensures ReadQuoted(q, Doubled(q, s) + [q] + rest) == Some((s, rest))
  {
    var t := Doubled(q, s) + [q] + rest;
    if s == "" {
      assert t == [q] + rest;
    } else {
      var t' := Doubled(q, s[1..]) + [q] + rest;
      ReadQuotedPrinted(q, s[1..], rest);
      assert s == [s[0]] + s[1..];
      if s[0] == q {
        assert t == [q, q] + t';
      } else {
        assert t == [s[0]] + t';
      }
    }
  }

  ghost predicate WellFormed(l: Literal) {
    l.Numeral? ==> IsNumeral(l.digits)
  }

  lemma SpanExact(v: string, rest: string)
    requires forall i | 0 <= i < |v| :: NumeralChar(v[i])
    requires rest == "" || !NumeralChar(rest[0])
    ensures Span(v + rest) == |v|
  {
    var t := v + rest;
    assert forall i | 0 <= i < |v| :: t[i] == v[i];
    assert rest != "" ==> t[|v|] == rest[0];
  }

  lemma ReadTextPrinted(s: string, rest: string)
    requires rest != "" && rest[0] != QUOTE
    ensures ReadLiteral(PrintLiteral(Text(s)) + rest) == Some((Text(s), rest))
  {
    var t := PrintLiteral(Text(s)) + rest;
    assert t[1..] == Doubled(QUOTE, s) + [QUOTE] + rest;
    ReadQuotedPrinted(QUOTE, s, rest);
  }

  lemma ReadNumeralPrinted(d: string, rest: string)
    requires IsNumeral(d) && rest != "" && !NumeralChar(rest[0])
    ensures ReadLiteral(d + rest) == Some((Numeral(d), rest))
  {
    NumeralChars(d);
    SpanExact(d, rest);
    var t := d + rest;
    assert t[0] == d[0] && t[..|d|] == d && t[|d|..] == rest;
  }

  lemma ReadLiteralPrinted(l: Literal, rest: string)
    requires WellFormed(l) && rest != "" && (rest[0] == ',' || rest[0] == ')')
    ensures ReadLiteral(PrintLiteral(l) + rest) == Some((l, rest))
  {
    match l
    case Text(s) => ReadTextPrinted(s, rest);
    case Numeral(d) => ReadNumeralPrinted(d, rest);
  }

  /** The values separated by commas, with the closing parenthesis. */
  function ListText(values: seq<Literal>): string
    requires values != []
  {
    PrintLiteral(values[0]) + (if |values| == 1 then ")" else ", " + ListText(values[1..]))
  }

  lemma ListTextCons(l: Literal, ls: seq<Literal>)
    ensures ListText([l]) == PrintLiteral(l) + ")"
    ensures ls != [] ==> ListText([l] + ls) == PrintLiteral(l) + (", " + ListText(ls))
  {
    assert ([l] + ls)[1..] == ls;
  }

  lemma {:induction false} ListTextJoins(values: seq<Literal>)
    requires values != []
    ensures JoinComma(PrintLiterals(values)) + ")" == ListText(values)
  {
    var texts := PrintLiterals(values);
    if |values| > 1 {
      ListTextJoins(values[1..]);
      assert texts[1..] == PrintLiterals(values[1..]);
      assert JoinComma(texts) + ")" == texts[0] + (", " + (JoinComma(texts[1..]) + ")"));
    }
  }

  lemma {:induction false} ReadListPrinted(values: seq<Literal>)
    requires values != [] && forall i | 0 <= i < |values| :: WellFormed(values[i])
    ensures ReadList(ListText(values)) == Some(values)
  {
    var l, ls := values[0], values[1..];
    assert values == [l] + ls;
    ListTextCons(l, ls);
    if ls == [] {
      assert values == [l];
      ReadLiteralPrinted(l, ")");
    } else {
      var rest := ", " + ListText(ls);
      ReadListPrinted(ls);
      ReadLiteralPrinted(l, rest);
      assert rest[2..] == ListText(ls) && rest != ")";
    }
  }

  // --- The reader accepts nothing but printed text ---

  lemma {:induction false} ReadQuotedSound(q: char, t: string)
    requires ReadQuoted(q, t).Some?
    ensures var (s, rest) := ReadQuoted(q, t).value; t == Doubled(q, s) + [q] + rest
  {
    if t[0] != q {
      ReadQuotedSound(q, t[1..]);
      var (s, rest) := ReadQuoted(q, t[1..]).value;
      assert ([t[0]] + s)[1..] == s;
      assert t == [t[0]] + t[1..];
    } else if |t| > 1 && t[1] == q {
      ReadQuotedSound(q, t[2..]);
      var (s, rest) := ReadQuoted(q, t[2..]).value;
      assert ([q] + s)[1..] == s;
      assert t == [q, q] + t[2..];
    } else {
      assert t == [q] + t[1..];
    }
  }

  lemma ReadLiteralSound(t: string)
    requires ReadLiteral(t).Some?
    ensures var (l, rest) := ReadLiteral(t).value; t == PrintLiteral(l) + rest
  {
    if t[0] == QUOTE {
      ReadQuotedSound(QUOTE, t[1..]);
      assert t == [QUOTE] + t[1..];
    }
  }

  lemma {:induction false} ReadListSound(t: string)
    requires ReadList(t).Some?
    ensures ReadList(t).value != [] && t == ListText(ReadList(t).value)
    decreases |t|
  {
    ReadLiteralSound(t);
    var (l, rest) := ReadLiteral(t).value;
    if rest == ")" {
      ListTextCons(l, []);
    } else {
      var tail := rest[2..];
      ReadListSound(tail);
      var ls := ReadList(tail).value;
      ListTextCons(l, ls);
      assert rest == ", " + tail;
      assert ReadList(t).value == [l] + ls;
    }
  }

  lemma {:induction false} DoubledLength(q: char, s: string)
    ensures |Doubled(q, s)| >= |s|
    ensures q !in s ==> Doubled(q, s) == s
    ensures q in s ==> |Doubled(q, s)| > |s|
  {
    if s != "" {
      DoubledLength(q, s[1..]);
      assert s == [s[0]] + s[1..];
    }
  }

  lemma ReadPredicateSound(t: string)
    requires ReadPredicate(t).Some? && ReadPredicate(t).value.In?
    ensures var In(column, values) := ReadPredicate(t).value;
            values != [] && |t| == |Doubled(DOUBLE_QUOTE, column)| + 7 + |ListText(values)|
  {
    ReadQuotedSound(DOUBLE_QUOTE, t[1..]);
    var (_, rest) := ReadQuoted(DOUBLE_QUOTE, t[1..]).value;
    ReadListSound(rest[5..]);
  }

  lemma InPrinted(column: string, values: seq<Literal>)
    requires values != []
    ensures PrintIn(column, PrintLiterals(values))
            == [DOUBLE_QUOTE] + (column + [DOUBLE_QUOTE] + (" IN (" + ListText(values)))
  {
    ListTextJoins(values);
  }

  /** Print/read round trip of an IN predicate. It succeeds for every list of values,
      quotes, commas and parentheses included, and exactly for the columns without a
      double quote. */
  lemma InRoundTrip(column: string, values: seq<Literal>)
    requires values != [] && forall i | 0 <= i < |values| :: WellFormed(values[i])
    ensures ReadPredicate(PrintIn(column, PrintLiterals(values))) == Some(In(column, values))
            <==> DOUBLE_QUOTE !in column
  {
    var t := PrintIn(column, PrintLiterals(values));
    InPrinted(column, values);
    DoubledLength(DOUBLE_QUOTE, column);
    if DOUBLE_QUOTE !in column {
      InReads(column, values, t);
    } else if ReadPredicate(t) == Some(In(column, values)) {
      ReadPredicateSound(t);
    }
  }

  lemma InReads(column: string, values: seq<Literal>, t: string)
    requires DOUBLE_QUOTE !in column
    requires values != [] && forall i | 0 <= i < |values| :: WellFormed(values[i])
    requires t == [DOUBLE_QUOTE] + (column + [DOUBLE_QUOTE] + (" IN (" + ListText(values)))
    ensures ReadPredicate(t) == Some(In(column, values))
  {
    var rest := " IN (" + ListText(values);
    var body := column + [DOUBLE_QUOTE] + rest;
    DoubledLength(DOUBLE_QUOTE, column);
    ReadQuotedPrinted(DOUBLE_QUOTE, column, rest);
    AfterFirst(DOUBLE_QUOTE, body);
    AfterIn(ListText(values));
    ReadListPrinted(values);
    NotFalse(t);
  }

  lemma AfterFirst(q: char, s: string)
    ensures ([q] + s)[0] == q && ([q] + s)[1..] == s
  {
  }

  lemma AfterIn(s: string)
    ensures " IN (" <= " IN (" + s && (" IN (" + s)[5..] == s
  {
  }

  lemma NotFalse(t: string)
    requires t != "" && t[0] == DOUBLE_QUOTE
    ensures t != "false"
  {
  }

  // --- Meaning: SQL three-valued logic ---

  datatype Truth = True3 | False3 | Unknown3

  datatype Value = Null | Str(s: string) | Num(n: real)

  type Row = string -> Value

  function DigitsValue(s: string): nat
    requires forall i | 0 <= i < |s| :: Digit(s[i])
  {
    if s == "" then 0
    else
      assert Digit(s[|s| - 1]);
      DigitsValue(s[..|s| - 1]) * 10 + (s[|s| - 1] as int - '0' as int)
  }

  /** A tenth of x, n times over. */
  function Tenths(x: real, n: nat): real
    decreases n
  {
    if n == 0 then x else Tenths(x / 10.0, n - 1)
  }

  lemma PointUnique(b: string, i: nat, j: nat)
    requires PointAt(b, i) && PointAt(b, j)
    ensures i == j
  {
    assert forall k | 0 <= k < j :: b[..j][k] == b[k];
    assert forall k | 0 <= k < i :: b[..i][k] == b[k];
  }

  function DecimalValue(v: string): real
    requires IsNumeral(v)
  {
    var b := Unsigned(v);
    var magnitude :=
      if Digits(b) then DigitsValue(b) as real
      else
        assert forall i: nat, j: nat | PointAt(b, i) && PointAt(b, j) :: i == j by {
          forall i: nat, j: nat | PointAt(b, i) && PointAt(b, j) ensures i == j {
            PointUnique(b, i, j);
          }
        }
        var p: nat :| p < |b| && PointAt(b, p);
        DigitsValue(b[..p]) as real + Tenths(DigitsValue(b[p + 1..]) as real, |b| - p - 1);
    if v[0] == '-' then -magnitude else magnitude
  }

  // --- What a numeral denotes ---

  /** Decimal notation of a number. */
  function Decimal(n: nat): string {
    (if n < 10 then "" else Decimal(n / 10)) + [("0123456789")[n % 10]]
  }

  lemma DigitsStep(s: string, c: char)
    requires (forall i | 0 <= i < |s| :: Digit(s[i])) && Digit(c)
    ensures forall i | 0 <= i < |s + [c]| :: Digit((s + [c])[i])
    ensures DigitsValue(s + [c]) == DigitsValue(s) * 10 + (c as int - '0' as int)
  {
    assert (s + [c])[..|s|] == s;
  }

  /** Digits denote the number they are the decimal notation of. */
  lemma {:induction false} DecimalDenotes(n: nat)
    ensures Digits(Decimal(n)) && DigitsValue(Decimal(n)) == n
  {
    var c := ("0123456789")[n % 10];
    assert Digit(c) && c as int - '0' as int == n % 10;
    if n < 10 {
      assert Decimal(n) == "" + [c];
      DigitsStep("", c);
    } else {
      DecimalDenotes(n / 10);
      DigitsStep(Decimal(n / 10), c);
    }
  }

  predicate AllDigits(s: string) {
    forall i | 0 <= i < |s| :: Digit(s[i])
  }

  lemma AllDigitsJoin(a: string, b: string)
    requires AllDigits(a) && AllDigits(b)
    ensures AllDigits(a + b)
  {
  }

  /** Ten times x, n times over. */
  function Tens(x: real, n: nat): real {
    if n == 0 then x else 10.0 * Tens(x, n - 1)
  }

  lemma {:induction false} TensLinear(x: real, y: real, n: nat)
    ensures Tens(x + y, n) == Tens(x, n) + Tens(y, n) && Tens(-x, n) == -Tens(x, n)
  {
    if n > 0 {
      TensLinear(x, y, n - 1);
    }
  }

  lemma {:induction false} TensTenths(x: real, n: nat)
    ensures Tens(Tenths(x, n), n) == x
    decreases n
  {
    if n > 0 {
      TensTenths(x / 10.0, n - 1);
    }
  }

  /** Each digit on the right multiplies by ten what is on its left. */
  lemma {:induction false} DigitsJoin(a: string, b: string)
    requires AllDigits(a) && AllDigits(b) && AllDigits(a + b)
    ensures DigitsValue(a + b) as real == Tens(DigitsValue(a) as real, |b|) + DigitsValue(b) as real
  {
    if b == "" {
      assert a + b == a;
    } else {
      var n := |b| - 1;
      var init, c := b[..n], b[n];
      AllDigitsJoin(a, init);
      DigitsJoin(a, init);
      assert b == init + [c] && a + b == (a + init) + [c];
      DigitsStep(init, c);
      DigitsStep(a + init, c);
    }
  }

  /** A numeral is a whole number or a decimal fraction, with or without a minus sign. */
  lemma NumeralShape(v: string)
    ensures IsNumeral(v) <==>
            exists sign, whole, fraction :: Shaped(v, sign, whole, fraction)
  {
    var b := Unsigned(v);
    var minus := if v != "" && v[0] == '-' then "-" else "";
    assert v == minus + b;
    if Digits(b) {
      assert Shaped(v, minus, b, "");
    } else if p: nat :| p < |b| && PointAt(b, p) {
      assert b == b[..p] + "." + b[p + 1..];
      assert Shaped(v, minus, b[..p], b[p + 1..]);
    }
    if sign, whole, fraction :| Shaped(v, sign, whole, fraction) {
      ShapedIsNumeral(v, sign, whole, fraction);
    }
  }

  ghost predicate Shaped(v: string, sign: string, whole: string, fraction: string) {
    && (sign == "" || sign == "-") && Digits(whole)
    && if fraction == "" then v == sign + whole else Digits(fraction) && v == sign + whole + "." + fraction
  }

  lemma ShapedIsNumeral(v: string, sign: string, whole: string, fraction: string)
    requires Shaped(v, sign, whole, fraction)
    ensures IsNumeral(v) && Unsigned(v) == if fraction == "" then whole else whole + "." + fraction
    ensures fraction != "" ==> PointAt(Unsigned(v), |whole|)
    ensures v[0] == '-' <==> sign == "-"
  {
    var b := if fraction == "" then whole else whole + "." + fraction;
    assert v == sign + b && b[0] == whole[0] && Digit(whole[0]);
    assert Unsigned(v) == b;
    if fraction != "" {
      assert b[..|whole|] == whole && b[|whole| + 1..] == fraction && b[|whole|] == '.';
      assert PointAt(b, |whole|);
    }
  }

  /** The value of a numeral: its digits, the point left out, divided by ten for each digit
      behind the point, and negated by a sign. */
  lemma DecimalExact(v: string, sign: string, whole: string, fraction: string)
    requires Shaped(v, sign, whole, fraction)
    ensures IsNumeral(v) && AllDigits(whole + fraction)
    ensures var n := DigitsValue(whole + fraction) as real;
            Tens(DecimalValue(v), |fraction|) == if sign == "-" then -n else n
  {
    ShapedIsNumeral(v, sign, whole, fraction);
    AllDigitsJoin(whole, fraction);
    if fraction == "" {
      WholeExact(v, sign, whole, fraction);
    } else {
      FractionExact(v, sign, whole, fraction);
    }
  }

  lemma WholeExact(v: string, sign: string, whole: string, fraction: string)
    requires IsNumeral(v) && Unsigned(v) == whole && Digits(whole) && (v[0] == '-' <==> sign == "-")
    requires fraction == "" && AllDigits(whole + fraction)
    ensures var n := DigitsValue(whole + fraction) as real;
            Tens(DecimalValue(v), |fraction|) == if sign == "-" then -n else n
  {
    assert whole + fraction == whole;
    WholeValue(v, whole);
  }

  lemma FractionExact(v: string, sign: string, whole: string, fraction: string)
    requires IsNumeral(v) && Unsigned(v) == whole + "." + fraction && (v[0] == '-' <==> sign == "-")
    requires Digits(whole) && Digits(fraction) && PointAt(Unsigned(v), |whole|) && AllDigits(whole + fraction)
    ensures var n := DigitsValue(whole + fraction) as real;
            Tens(DecimalValue(v), |fraction|) == if sign == "-" then -n else n
  {
    DigitsJoin(whole, fraction);
    FractionValue(v, whole, fraction);
    Combine(DecimalValue(v), sign == "-", DigitsValue(whole), DigitsValue(fraction), DigitsValue(whole + fraction),
            |fraction|);
  }

  lemma Combine(value: real, minus: bool, whole: nat, fraction: nat, joined: nat, n: nat)
    requires var magnitude := whole as real + Tenths(fraction as real, n);
             value == if minus then -magnitude else magnitude
    requires joined as real == Tens(whole as real, n) + fraction as real
    ensures Tens(value, n) == if minus then -(joined as real) else joined as real
  {
    ScaledBack(whole, fraction, n);
  }

  lemma WholeValue(v: string, whole: string)
    requires IsNumeral(v) && Unsigned(v) == whole && Digits(whole)
    ensures var n := DigitsValue(whole) as real; Tens(DecimalValue(v), 0) == if v[0] == '-' then -n else n
  {
  }

  lemma ScaledBack(whole: nat, fraction: nat, n: nat)
    ensures var magnitude := whole as real + Tenths(fraction as real, n);
            && Tens(magnitude, n) == Tens(whole as real, n) + fraction as real
            && Tens(-magnitude, n) == -Tens(magnitude, n)
  {
    var w, f := whole as real, Tenths(fraction as real, n);
    TensLinear(w, f, n);
    TensLinear(w + f, 0.0, n);
    TensTenths(fraction as real, n);
  }

  lemma FractionValue(v: string, whole: string, fraction: string)
    requires IsNumeral(v) && Unsigned(v) == whole + "." + fraction && Digits(whole) && Digits(fraction)
    requires PointAt(Unsigned(v), |whole|)
    ensures var magnitude := DigitsValue(whole) as real + Tenths(DigitsValue(fraction) as real, |fraction|);
            DecimalValue(v) == if v[0] == '-' then -magnitude else magnitude
  {
    var b := Unsigned(v);
    assert !Digits(b) by {
      assert b[|whole|] == '.';
    }
    forall q: nat | q < |b| && PointAt(b, q)
      ensures q == |whole|
    {
      PointUnique(b, q, |whole|);
    }
    assert b[..|whole|] == whole && b[|whole| + 1..] == fraction;
  }

  /** Comparing a column with a literal of another type is a Trino error: no row passes. */
  function Equal3(v: Value, l: Literal): Truth
    requires WellFormed(l)
  {
    match (v, l)
    case (Str(s), Text(t)) => if s == t then True3 else False3
    case (Num(n), Numeral(d)) => if n == DecimalValue(d) then True3 else False3
    case _ => Unknown3
  }

  function Or3(a: Truth, b: Truth): Truth {
    if a.True3? || b.True3? then True3 else if a.Unknown3? || b.Unknown3? then Unknown3 else False3
  }

  function AnyEqual(v: Value, ls: seq<Literal>): Truth
    requires forall i | 0 <= i < |ls| :: WellFormed(ls[i])
  {
    if ls == [] then False3 else Or3(Equal3(v, ls[0]), AnyEqual(v, ls[1..]))
  }

  ghost function Eval(p: Predicate, row: Row): Truth {
    match p
    case False => False3
    case In(column, values) =>
      if forall i | 0 <= i < |values| :: WellFormed(values[i]) then AnyEqual(row(column), values) else Unknown3
  }
}
