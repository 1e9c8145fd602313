/** The lines of the sample-data file, for any catalog and schema name. */
module SampleDataLines {
  import opened Sequences
  import opened Seed
  import opened SampleData

  // --- The lines are plain ---

  predicate Ascii(s: string) {
    forall i | 0 <= i < |s| :: ' ' <= s[i] <= '~'
  }

  lemma AsciiOneLine(s: string)
    requires Ascii(s)
    ensures OneLine(s)
  {
  }

  lemma OneLineAppend(a: string, b: string)
    requires OneLine(a) && OneLine(b)
    ensures OneLine(a + b)
  {
  }

  predicate AllAscii(parts: seq<string>) {
    forall i | 0 <= i < |parts| :: Ascii(parts[i])
  }

  lemma {:induction false} JoinAscii(parts: seq<string>)
    requires AllAscii(parts)
    ensures Ascii(JoinComma(parts))
  {
    if |parts| > 1 {
      JoinAscii(parts[1..]);
    }
  }

  predicate Item(s: string) {
    Ascii(s) && Begins(s) && Ends(s)
  }

  lemma IndentedPlain(s: string)
    requires Item(s)
    ensures Plain("  " + s) && Plain("  " + s + ",") && Ends("  " + s) && Ends("  " + s + ",")
  {
    forall tail | tail == "" || tail == ","
      ensures Plain("  " + s + tail) && Ends("  " + s + tail)
    {
      var line := "  " + s + tail;
      AsciiOneLine(line);
      assert line[1..][1..] == s + tail;
      assert Lstrip(line) == Lstrip(line[1..]) == Lstrip(s + tail);
      assert (s + tail)[0] == s[0];
      StripHead(s + tail);
    }
    assert "  " + s + "" == "  " + s;
  }

  lemma ListPlain(items: seq<string>)
    requires forall k | 0 <= k < |items| :: Item(items[k])
    ensures AllPlain(ListLines(items))
  {
    forall k | 0 <= k < |items|
      ensures Plain(ListLines(items)[k])
    {
      IndentedPlain(items[k]);
      assert "  " + items[k] + "" == "  " + items[k];
    }
  }

  predicate TableAscii(t: Table) {
    && Ascii(t.name)
    && (forall k | 0 <= k < |t.columns| :: Item(t.columns[k].name) && Item(t.columns[k].type_))
    && (forall k | 0 <= k < |t.rows| :: PlainRow(t.rows[k]))
  }

  lemma DecimalAscii(d: string)
    requires Ascii(d)
    ensures Ascii("CAST(" + d + " AS decimal(12,2))")
  {
    assert Ascii("CAST(") && Ascii(" AS decimal(12,2))");
  }

  lemma RowItem(r: Row)
    requires PlainRow(r)
    ensures Item(PrintRow(r))
  {
    forall k | 0 <= k < |r|
      ensures Ascii(PrintValue(r[k]))
    {
      ValuePrinted(r[k]);
    }
    JoinAscii(PrintValues(r));
    InBrackets(JoinComma(PrintValues(r)));
  }

  lemma ValuePrinted(v: Value)
    requires PlainValue(v)
    ensures Ascii(PrintValue(v))
  {
    if v.Decimal? {
      DecimalAscii(v.d);
    }
  }

  lemma InBrackets(s: string)
    requires Ascii(s)
    ensures Item("(" + s + ")")
  {
    var item := "(" + s + ")";
    assert item[0] == '(' && item[|item| - 1] == ')';
  }

  lemma ItemsPlain(t: Table)
    requires TableAscii(t)
    ensures AllPlain(ListLines(ColumnItems(t))) && AllPlain(ListLines(RowItems(t)))
    ensures Ascii(JoinComma(ColumnNames(t)))
  {
    forall k | 0 <= k < |t.rows|
      ensures Item(PrintRow(t.rows[k]))
    {
      RowItem(t.rows[k]);
    }
    ListPlain(RowItems(t));
    ListPlain(ColumnItems(t));
    JoinAscii(ColumnNames(t));
  }

  lemma NamedPlain(before: string, fq: string, after: string)
    requires Ascii(before) && Begins(before) && OneLine(fq) && Ascii(after) && Ends(after)
    ensures Plain(before + fq + after) && Begins(before + fq + after) && Ends(before + fq + after)
  {
    AsciiOneLine(before);
    AsciiOneLine(after);
    OneLineAppend(before, fq);
    OneLineAppend(before + fq, after);
    var line := before + fq + after;
    assert line[0] == before[0] && line[|line| - 1] == after[|after| - 1];
    PlainLine(line);
  }

  /** The first line of a name, behind the beginning of a statement. */
  lemma FirstPlain(before: string, p: string)
    requires Words(before) && OneLine(p) && !Closes(p)
    ensures Plain(before + p) && Begins(before + p)
  {
    var line := before + p;
    AsciiOneLine(before);
    OneLineAppend(before, p);
    ClosesAtEnd(before);
    ClosesAtEnd(p);
    ClosesAtEnd(line);
    RstripAppend(before, p);
    StripHead(line);
  }

  /** The last line of a name, before the rest of the statement's line. */
  lemma LastPlain(p: string, after: string)
    requires OneLine(p) && !Skipped(p) && Ascii(after) && Ends(after) && after[0] != '-' && after[0] != ' '
    ensures Plain(p + after) && Ends(p + after)
  {
    var line := p + after;
    AsciiOneLine(after);
    OneLineAppend(p, after);
    assert Rstrip(after) == after;
    ClosesAtEnd(line);
    RstripAppend(p, after);
    assert line[|line| - 1] == after[|after| - 1];
    LstripAppend(p, after);
    var u := Lstrip(p);
    RstripEnd(u);
    RstripAppend(u, after);
    assert Strip(line) == u + after;
    if "--" <= Strip(line) {
      DashDash(u, after);
    }
  }

  lemma {:induction false} LstripAppend(p: string, after: string)
    requires Strip(p) != ""
    ensures Lstrip(p + after) == Lstrip(p) + after && Lstrip(p) != ""
  {
    assert Strip("") == "";
    if Space(p[0]) {
      assert (p + after)[1..] == p[1..] + after;
      assert Strip(p) == Strip(p[1..]);
      LstripAppend(p[1..], after);
    } else {
      assert (p + after)[0] == p[0];
    }
  }

  /** Two dashes at the front of the line come from the name's own line. */
  lemma DashDash(u: string, after: string)
    requires u != "" && after != "" && after[0] != '-' && "--" <= u + after
    ensures "--" <= Rstrip(u)
  {
    assert (u + after)[0] == '-' && (u + after)[1] == '-';
    assert (u + after)[|u|] == after[0];
    assert u == u[..2] + u[2..];
    RstripAppend(u[..2], u[2..]);
    assert Rstrip(u[..2]) == u[..2];
  }

  lemma FirstOneLine(fq: string)
    requires NewlinesOnly(fq)
    ensures AllOneLine(Pieces(fq))
    ensures |Pieces(fq)| == 1 ==> Pieces(fq) == [fq]
  {
    PiecesOneLine(fq);
    LastPiece(fq);
  }

  predicate AllOneLine(lines: seq<string>) {
    forall i | 0 <= i < |lines| :: OneLine(lines[i])
  }

  predicate AllPlain(lines: seq<string>) {
    forall i | 0 <= i < |lines| :: Plain(lines[i])
  }

  /** Lines of a statement, or of a part of it, from a good beginning to a good end. */
  predicate Sound(lines: seq<string>) {
    lines != [] && AllPlain(lines) && Begins(lines[0]) && Ends(lines[|lines| - 1])
  }

  lemma NamedPieces(before: string, fq: string, after: string)
    requires Words(before) && Fits(fq)
    requires Ascii(after) && Ends(after) && after[0] != '-' && after[0] != ' '
    ensures Sound(Pieces(before + fq + after))
  {
    var ps := Pieces(fq);
    FirstOneLine(fq);
    AsciiOneLine(before);
    AsciiOneLine(after);
    PiecesBefore(before, fq);
    PiecesAfter(before + fq, after);
    if |ps| == 1 {
      NamedPlain(before, fq, after);
      PiecesOne(before + fq + after);
    } else {
      LastOf(before, ps, after);
      SeveralPieces(before, ps, after);
    }
  }

  lemma LastOf(before: string, ps: seq<string>, after: string)
    requires |ps| > 1
    ensures var n := |ps| - 1;
            LastExtended([before + ps[0]] + ps[1..], after) == [before + ps[0]] + ps[1..n] + [ps[n] + after]
  {
  }

  lemma SeveralPieces(before: string, ps: seq<string>, after: string)
    requires Words(before) && |ps| > 1 && AllOneLine(ps) && !Closes(ps[0]) && AllKept(ps[1..])
    requires Ascii(after) && Ends(after) && after[0] != '-' && after[0] != ' '
    ensures var n := |ps| - 1; Sound([before + ps[0]] + ps[1..n] + [ps[n] + after])
  {
    var n := |ps| - 1;
    assert forall k | 1 <= k <= n :: ps[k] == ps[1..][k - 1];
    FirstPlain(before, ps[0]);
    LastPlain(ps[n], after);
  }

  /** Words before a name, which end in one blank behind a letter. */
  predicate Words(s: string) {
    Ascii(s) && Begins(s) && !Closes(s)
  }

  lemma OpenWords(a: string, b: string)
    requires Ascii(a) && Begins(a) && Ascii(b)
    requires |b| >= 2 && b[|b| - 1] == ' ' && !Space(b[|b| - 2]) && b[|b| - 2] != ';'
    ensures Words(a + b)
  {
    var s := a + b;
    var t := s[..|s| - 1];
    ClosesAtEnd(s);
    assert s[0] == a[0] && s[|s| - 1] == ' ' && t[|t| - 1] == b[|b| - 2];
    assert Rstrip(s) == Rstrip(t) == t;
  }

  lemma SchemaWords()
    ensures Words(SCHEMA)
  {
    assert Ascii("CREATE SCHEMA ");
    OpenWords("CREATE SCHEMA ", IF_NOT_EXISTS);
  }

  lemma CreateWords()
    ensures Words(CREATE)
  {
    assert Ascii("CREATE TABLE ");
    OpenWords("CREATE TABLE ", IF_NOT_EXISTS);
  }

  lemma InsertWords()
    ensures Words(INSERT)
  {
    OpenWords("INSERT ", "INTO ");
    assert "INSERT " + "INTO " == INSERT;
  }

  lemma WhereWords()
    ensures Words(WHERE)
  {
    assert Ascii("WHERE NOT EXISTS ");
    OpenWords("WHERE NOT EXISTS ", "(SELECT 1 FROM ");
  }

  /** A line that ends with the name: its pieces, and whether the first closes. */
  lemma NameLast(before: string, fq: string)
    requires Words(before) && NewlinesOnly(fq) && fq != ""
    ensures var ps, qs := Pieces(before + fq), Pieces(fq);
            && AllOneLine(ps) && Headed(ps) && ps == [before + qs[0]] + qs[1..]
            && JoinLines(ps) == before + fq
            && (Closes(ps[0]) <==> Closes(qs[0]))
  {
    var qs := Pieces(fq);
    FirstOneLine(fq);
    AsciiOneLine(before);
    PiecesBefore(before, fq);
    OneLineAppend(before, qs[0]);
    JoinPieces(before + fq);
    ClosesAppend(before, qs[0]);
    assert (before + qs[0])[0] == before[0];
  }

  lemma ClosesAppend(before: string, p: string)
    requires Words(before)
    ensures Closes(before + p) <==> Closes(p)
  {
    ClosesAtEnd(before);
    ClosesAtEnd(p);
    ClosesAtEnd(before + p);
    RstripAppend(before, p);
  }

  lemma SchemaSound(fq: string)
    requires Fits(fq)
    ensures Sound(Pieces(SchemaLine(fq)))
  {
    SchemaWords();
    NameLast(SCHEMA, fq);
    FirstOneLine(fq);
    EndOfPieces(fq);
    SoundHead(SCHEMA, Pieces(fq));
  }

  lemma SoundHead(before: string, qs: seq<string>)
    requires Words(before) && qs != [] && AllOneLine(qs) && !Closes(qs[0]) && AllKept(qs[1..])
    requires Ends(if |qs| == 1 then before + qs[0] else qs[|qs| - 1])
    ensures Sound([before + qs[0]] + qs[1..])
  {
    FirstPlain(before, qs[0]);
    assert forall k | 1 <= k < |qs| :: qs[k] == qs[1..][k - 1];
  }

  /** A name that ends well ends in a last line that does. */
  lemma EndOfPieces(fq: string)
    requires Fits(fq)
    ensures var qs := Pieces(fq); Ends(if |qs| == 1 then SCHEMA + qs[0] else qs[|qs| - 1])
  {
    LastPiece(fq);
    EndOfLast(SCHEMA, fq, Pieces(fq), Front(fq));
  }

  lemma EndOfLast(before: string, fq: string, qs: seq<string>, front: string)
    requires qs != [] && fq == front + qs[|qs| - 1] && Ends(fq) && (|qs| == 1 ==> qs == [fq]) && AllKept(qs[1..])
    ensures Ends(if |qs| == 1 then before + qs[0] else qs[|qs| - 1])
  {
    if |qs| == 1 {
      assert (before + fq)[|before + fq| - 1] == fq[|fq| - 1];
    } else {
      var last := qs[|qs| - 1];
      assert last == qs[1..][|qs| - 2];
      assert last != "" by {
        assert !Skipped(last);
      }
      assert fq[|fq| - 1] == last[|last| - 1];
    }
  }

  lemma CreateHeadSound(t: Table, fq: string)
    requires TableAscii(t) && Fits(fq)
    ensures Sound(Pieces(CreateHead(t, fq)))
  {
    var after := "." + t.name + " (";
    assert CREATE + fq + after == CreateHead(t, fq);
    CreateWords();
    NamedPieces(CREATE, fq, after);
  }

  lemma InsertHeadSound(t: Table, fq: string)
    requires TableAscii(t) && Fits(fq)
    ensures Sound(Pieces(InsertHead(t, fq)))
  {
    ItemsPlain(t);
    var after := "." + t.name + " (" + JoinComma(ColumnNames(t)) + ")";
    assert INSERT + fq + after == InsertHead(t, fq);
    InsertWords();
    NamedPieces(INSERT, fq, after);
  }

  lemma InsertTailSound(t: Table, fq: string)
    requires TableAscii(t) && Fits(fq)
    ensures Sound(Pieces(InsertTail(t, fq)))
  {
    var after := "." + t.name + " LIMIT 1)";
    assert WHERE + fq + after == InsertTail(t, fq);
    WhereWords();
    NamedPieces(WHERE, fq, after);
  }

  lemma InsertAliasPlain(t: Table)
    requires TableAscii(t)
    ensures Plain(InsertAlias(t))
  {
    ItemsPlain(t);
    NamedPlain(") AS t(", "", JoinComma(ColumnNames(t)) + ")");
    assert ") AS t(" + "" + (JoinComma(ColumnNames(t)) + ")") == InsertAlias(t);
  }

  lemma FixedPlain()
    ensures Plain(VALUES) && Plain(")") && Begins(")") && Ends(")")
  {
    assert Ascii(VALUES);
    AsciiOneLine(VALUES);
    PlainLine(VALUES);
    PlainLine(")");
  }

  /** Between two parts, plain lines are their own pieces. */
  lemma SoundBlock(first: string, lines: seq<string>, last: string)
    requires Sound(Pieces(first)) && AllPlain(lines) && Sound(Pieces(last))
    ensures Sound(Expand([first] + lines + [last]))
  {
    ExpandAppend([first] + lines, [last]);
    ExpandAppend([first], lines);
    ExpandOne(first);
    ExpandOne(last);
    ExpandPlain(lines);
    var a, c := Pieces(first), Pieces(last);
    assert Expand([first] + lines + [last]) == a + lines + c;
    assert AllPlain(a + lines + c);
  }

  lemma {:induction false} ExpandAppend(a: seq<string>, b: seq<string>)
    ensures Expand(a + b) == Expand(a) + Expand(b)
  {
    if a == [] {
      assert a + b == b;
    } else {
      assert (a + b)[1..] == a[1..] + b;
      ExpandAppend(a[1..], b);
    }
  }

  lemma ExpandOne(line: string)
    ensures Expand([line]) == Pieces(line)
  {
    assert [line][1..] == [];
  }

  lemma {:induction false} ExpandPlain(lines: seq<string>)
    requires AllPlain(lines)
    ensures Expand(lines) == lines
  {
    if lines != [] {
      PiecesOne(lines[0]);
      ExpandPlain(lines[1..]);
      assert lines == [lines[0]] + lines[1..];
    }
  }

  lemma CreateSound(t: Table, fq: string)
    requires TableAscii(t) && Fits(fq)
    ensures Sound(Expand(StatementLines(CreateTable(t), fq)))
  {
    CreateHeadSound(t, fq);
    ItemsPlain(t);
    FixedPlain();
    PiecesOne(")");
    SoundBlock(CreateHead(t, fq), ListLines(ColumnItems(t)), ")");
  }

  lemma MiddlePlain(a: string, lines: seq<string>, b: string)
    requires Plain(a) && AllPlain(lines) && Plain(b)
    ensures AllPlain([a] + lines + [b])
  {
  }

  lemma Regroup(a: string, b: string, lines: seq<string>, c: string, d: string)
    ensures [a] + ([b] + lines + [c]) + [d] == [a, b] + lines + [c, d]
  {
  }

  lemma InsertSound(t: Table, fq: string)
    requires TableAscii(t) && Fits(fq)
    ensures Sound(Expand(StatementLines(Insert(t), fq)))
  {
    InsertHeadSound(t, fq);
    InsertAliasPlain(t);
    InsertTailSound(t, fq);
    FixedPlain();
    ItemsPlain(t);
    var lines := ListLines(RowItems(t));
    MiddlePlain(VALUES, lines, InsertAlias(t));
    SoundBlock(InsertHead(t, fq), [VALUES] + lines + [InsertAlias(t)], InsertTail(t, fq));
    Regroup(InsertHead(t, fq), VALUES, lines, InsertAlias(t), InsertTail(t, fq));
  }

  lemma RowOfSeven(r: Row)
    requires |r| == 7 && PlainValue(r[0]) && PlainValue(r[1]) && PlainValue(r[2]) && PlainValue(r[3])
    requires PlainValue(r[4]) && PlainValue(r[5]) && PlainValue(r[6])
    ensures PlainRow(r)
  {
  }

  lemma RowOfFive(r: Row)
    requires |r| == 5 && PlainValue(r[0]) && PlainValue(r[1]) && PlainValue(r[2])
    requires PlainValue(r[3]) && PlainValue(r[4])
    ensures PlainRow(r)
  {
  }

  lemma Order1Plain()
    ensures PlainRow(ORDER_1)
  {
    assert PlainNumber("1");
    assert PlainText("Acme Corp");
    assert PlainText("emea");
    assert PlainNumber("100");
    assert PlainNumber("120.50");
    assert PlainText("111-22-3333");
    assert PlainText("buyer@acme.example");
    RowOfSeven(ORDER_1);
  }

  lemma Order2Plain()
    ensures PlainRow(ORDER_2)
  {
    assert PlainNumber("2");
    assert PlainText("Globex");
    assert PlainText("us-east");
    assert PlainNumber("200");
    assert PlainNumber("89.00");
    assert PlainText("222-33-4444");
    assert PlainText("ops@globex.example");
    RowOfSeven(ORDER_2);
  }

  lemma Order3Plain()
    ensures PlainRow(ORDER_3)
  {
    assert PlainNumber("3");
    assert PlainText("Initech");
    assert PlainText("emea");
    assert PlainNumber("100");
    assert PlainNumber("450.25");
    assert PlainText("333-44-5555");
    assert PlainText("ap@initech.example");
    RowOfSeven(ORDER_3);
  }

  lemma LongEmailPlain()
    ensures PlainText("purchasing@umbrella.example")
  {
  }

  lemma Order4Plain()
    ensures PlainRow(ORDER_4)
  {
    assert PlainNumber("4");
    assert PlainText("Umbrella");
    assert PlainText("us-west");
    assert PlainNumber("300");
    assert PlainNumber("15.99");
    assert PlainText("444-55-6666");
    LongEmailPlain();
    RowOfSeven(ORDER_4);
  }

  lemma Invoice1Plain()
    ensures PlainRow(INVOICE_1)
  {
    assert PlainNumber("1001");
    assert PlainNumber("1");
    assert PlainText("emea");
    assert PlainText("buyer@acme.example");
    assert PlainNumber("120.50");
    RowOfFive(INVOICE_1);
  }

  lemma Invoice2Plain()
    ensures PlainRow(INVOICE_2)
  {
    assert PlainNumber("1002");
    assert PlainNumber("2");
    assert PlainText("us-east");
    assert PlainText("ops@globex.example");
    assert PlainNumber("89.00");
    RowOfFive(INVOICE_2);
  }

  lemma Invoice3Plain()
    ensures PlainRow(INVOICE_3)
  {
    assert PlainNumber("1003");
    assert PlainNumber("3");
    assert PlainText("emea");
    assert PlainText("ap@initech.example");
    assert PlainNumber("450.25");
    RowOfFive(INVOICE_3);
  }

  lemma Invoice4Plain()
    ensures PlainRow(INVOICE_4)
  {
    assert PlainNumber("1004");
    assert PlainNumber("4");
    assert PlainText("us-west");
    LongEmailPlain();
    assert PlainNumber("15.99");
    RowOfFive(INVOICE_4);
  }

  predicate ColumnItem(c: Column) {
    Item(c.name) && Item(c.type_)
  }

  lemma TypeItems()
    ensures Item(BIGINT) && Item(VARCHAR) && Item(DECIMAL)
  {
  }

  lemma SharedColumnItems()
    ensures Item("order_id") && Item("region") && Item("email")
  {
  }

  lemma OrderColumnItems()
    ensures Item("customer") && Item("tenant_id") && Item("amount") && Item("ssn")
  {
  }

  lemma InvoiceColumnItems()
    ensures Item("invoice_id") && Item("total")
  {
  }

  lemma TableOf(t: Table)
    requires Ascii(t.name)
    requires forall k | 0 <= k < |t.columns| :: ColumnItem(t.columns[k])
    requires |t.rows| == 4 && PlainRow(t.rows[0]) && PlainRow(t.rows[1]) && PlainRow(t.rows[2]) && PlainRow(t.rows[3])
    ensures TableAscii(t)
  {
  }

  lemma OrdersAscii()
    ensures TableAscii(ORDERS)
  {
    assert Ascii("orders");
    TypeItems();
    SharedColumnItems();
    OrderColumnItems();
    Order1Plain();
    Order2Plain();
    Order3Plain();
    Order4Plain();
    TableOf(ORDERS);
  }

  lemma InvoicesAscii()
    ensures TableAscii(INVOICES)
  {
    assert Ascii("invoices");
    TypeItems();
    SharedColumnItems();
    InvoiceColumnItems();
    Invoice1Plain();
    Invoice2Plain();
    Invoice3Plain();
    Invoice4Plain();
    TableOf(INVOICES);
  }
}
