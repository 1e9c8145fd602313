/** What the texts of the sample-data file mean: a reader for the statements in them, and a
    database that runs what was read. */
module SampleDataReader {
  import opened Wrappers
  import opened Sequences
  import opened Seed
  import opened SampleData

  // --- Statements and what they do ---

  /** What a text says: to create a schema or a table, or to fill a table, unless another table
      has rows. */
  datatype Sql =
    | MakeSchema(ifNotExists: bool, schema: string)
    | MakeTable(ifNotExists: bool, schema: string, name: string, columns: seq<Column>)
    | Fill(schema: string, name: string, into: seq<string>, rows: seq<Row>, alias: seq<string>,
           unless: Option<(string, string)>)

  // --- The reader ---

  function Expect(t: string, word: string): Option<string> {
    if word <= t then Some(t[|word|..]) else None
  }

  /** How far the characters of t satisfy p. */
  function Span(p: char -> bool, t: string): (n: nat)
    ensures n <= |t| && (forall k | 0 <= k < n :: p(t[k])) && (n < |t| ==> !p(t[n]))
  {
    if t == "" || !p(t[0]) then 0 else 1 + Span(p, t[1..])
  }

  predicate InText(c: char) {
    c != '\''
  }

  predicate InLine(c: char) {
    c != '\n'
  }

  /** What satisfies p, if there is any. */
  function ReadSpan(p: char -> bool, t: string): Option<(string, string)> {
    var n := Span(p, t);
    if n == 0 then None else Some((t[..n], t[n..]))
  }

  /** A type: up to the end of the line, or the comma before it. */
  function ReadType(t: string): (string, string) {
    var line := Span(InLine, t);
    var n := if line > 0 && t[line - 1] == ',' then line - 1 else line;
    (t[..n], t[n..])
  }

  function ReadColumn(t: string): Option<(Column, string)> {
    match ReadSpan(InName, t)
    case None => None
    case Some((name, rest)) =>
      match Expect(rest, " ")
      case None => None
      case Some(more) => var (type_, end) := ReadType(more); Some((Column(name, type_), end))
  }

  /** A text up to its closing quote. */
  function ReadQuoted(t: string): Option<(Value, string)> {
    var n := Span(InText, t);
    if n == |t| then None else Some((Text(t[..n]), t[n + 1..]))
  }

  function ReadValue(t: string): Option<(Value, string)> {
    match Expect(t, "'")
    case Some(quoted) => ReadQuoted(quoted)
    case None =>
      match Expect(t, "CAST(")
      case Some(decimal) => ReadDecimal(decimal)
      case None =>
        match ReadSpan(InNumber, t)
        case None => None
        case Some((n, rest)) => Some((Number(n), rest))
  }

  function ReadDecimal(t: string): Option<(Value, string)> {
    match ReadSpan(InNumber, t)
    case None => None
    case Some((d, rest)) =>
      match Expect(rest, " AS decimal(12,2))")
      case None => None
      case Some(more) => Some((Decimal(d), more))
  }

  /** One or more items with sep between them. */
  function ReadList<T>(item: string -> Option<(T, string)>, sep: string, t: string): Option<(seq<T>, string)>
    decreases |t|
  {
    match item(t)
    case None => None
    case Some((x, rest)) =>
      if sep == "" || !(sep <= rest) || |rest| > |t| then Some(([x], rest))
      else
        match ReadList(item, sep, rest[|sep|..])
        case None => None
        case Some((xs, more)) => Some(([x] + xs, more))
  }

  function ReadNames(t: string): Option<(seq<string>, string)> {
    ReadList(u => ReadSpan(InName, u), ", ", t)
  }

  function ReadRow(t: string): Option<(Row, string)> {
    match Expect(t, "(")
    case None => None
    case Some(values) =>
      match ReadList(ReadValue, ", ", values)
      case None => None
      case Some((row, rest)) =>
        match Expect(rest, ")")
        case None => None
        case Some(more) => Some((row, more))
  }

  function ReadGuard(t: string): (bool, string) {
    match Expect(t, "IF NOT EXISTS ")
    case None => (false, t)
    case Some(rest) => (true, rest)
  }

  /** A table of the schema fq. */
  function ReadTable(t: string, fq: string): Option<(string, string)> {
    match Expect(t, fq + ".")
    case None => None
    case Some(rest) => ReadSpan(InName, rest)
  }

  function ReadCreate(t: string, fq: string): Option<Sql> {
    var (guarded, rest) := ReadGuard(t);
    match ReadTable(rest, fq)
    case None => None
    case Some((name, body)) =>
      match Expect(body, " (\n  ")
      case None => None
      case Some(list) =>
        match ReadList(ReadColumn, ",\n  ", list)
        case None => None
        case Some((columns, end)) => if end == "\n)" then Some(MakeTable(guarded, fq, name, columns)) else None
  }

  /** The condition an insertion ends with, if it has one. */
  function ReadUnless(t: string, fq: string): Option<Option<(string, string)>> {
    if t == "" then Some(None)
    else
      match Expect(t, "\nWHERE NOT EXISTS (SELECT 1 FROM ")
      case None => None
      case Some(rest) =>
        match ReadTable(rest, fq)
        case None => None
        case Some((name, end)) => if end == " LIMIT 1)" then Some(Some((fq, name))) else None
  }

  /** After the names of the columns. */
  function ReadRows(t: string, fq: string, name: string, columns: seq<string>): Option<Sql> {
    match Expect(t, ")\nSELECT * FROM (VALUES\n  ")
    case None => None
    case Some(list) =>
      match ReadList(ReadRow, ",\n  ", list)
      case None => None
      case Some((rows, rest)) =>
        match Expect(rest, "\n) AS t(")
        case None => None
        case Some(names) => ReadAlias(names, fq, name, columns, rows)
  }

  function ReadAlias(t: string, fq: string, name: string, columns: seq<string>, rows: seq<Row>): Option<Sql> {
    match ReadNames(t)
    case None => None
    case Some((alias, rest)) =>
      match Expect(rest, ")")
      case None => None
      case Some(end) =>
        match ReadUnless(end, fq)
        case None => None
        case Some(unless) => Some(Fill(fq, name, columns, rows, alias, unless))
  }

  function ReadInsert(t: string, fq: string): Option<Sql> {
    match ReadTable(t, fq)
    case None => None
    case Some((name, rest)) =>
      match Expect(rest, " (")
      case None => None
      case Some(names) =>
        match ReadNames(names)
        case None => None
        case Some((columns, more)) => ReadRows(more, fq, name, columns)
  }

  function ReadSchema(t: string, fq: string): Option<Sql> {
    var (guarded, rest) := ReadGuard(t);
    if rest == fq then Some(MakeSchema(guarded, fq)) else None
  }

  /** What a text says about the schema fq. */
  function ReadSql(t: string, fq: string): Option<Sql> {
    match Expect(t, "CREATE SCHEMA ")
    case Some(rest) => ReadSchema(rest, fq)
    case None =>
      match Expect(t, "CREATE TABLE ")
      case Some(rest) => ReadCreate(rest, fq)
      case None =>
        match Expect(t, "INSERT INTO ")
        case Some(rest) => ReadInsert(rest, fq)
        case None => None
  }

  // --- Reading what was printed ---

  lemma ExpectAt(word: string, rest: string)
    ensures Expect(word + rest, word) == Some(rest)
  {
    assert (word + rest)[|word|..] == rest;
  }

  /** A text that begins with another word. */
  lemma Unexpected(word: string, other: string, rest: string, k: nat)
    requires k < |word| && k < |other| && word[k] != other[k]
    ensures Expect(other + rest, word) == None
  {
    assert (other + rest)[k] == other[k];
  }

  lemma FirstOf(sep: string, tail: string)
    requires sep != "" && sep <= tail
    ensures tail != "" && tail[0] == sep[0]
  {
  }

  lemma Three(a: string, b: string, c: string)
    ensures a + b + c == a + (b + c)
  {
  }

  lemma {:induction false} SpanAt(p: char -> bool, s: string, rest: string)
    requires (forall k | 0 <= k < |s| :: p(s[k])) && (rest != "" ==> !p(rest[0]))
    ensures Span(p, s + rest) == |s|
  {
    if s == "" {
      assert s + rest == rest;
    } else {
      assert (s + rest)[1..] == s[1..] + rest;
      SpanAt(p, s[1..], rest);
    }
  }

  lemma SpanRead(p: char -> bool, s: string, rest: string)
    requires s != "" && (forall k | 0 <= k < |s| :: p(s[k])) && (rest != "" ==> !p(rest[0]))
    ensures ReadSpan(p, s + rest) == Some((s, rest))
  {
    SpanAt(p, s, rest);
    assert (s + rest)[..|s|] == s && (s + rest)[|s|..] == rest;
  }

  /** Items with sep between them. */
  function Separated(texts: seq<string>, sep: string): string {
    if texts == [] then ""
    else if |texts| == 1 then texts[0]
    else texts[0] + sep + Separated(texts[1..], sep)
  }

  lemma {:induction false} CommaSeparates(texts: seq<string>)
    ensures JoinComma(texts) == Separated(texts, ", ")
  {
    if |texts| > 1 {
      CommaSeparates(texts[1..]);
    }
  }

  /** Every text reads as its item wherever it can stand in the list. */
  ghost predicate ItemsRead<T>(item: string -> Option<(T, string)>, sep: string, xs: seq<T>, texts: seq<string>,
                                     rest: string)
  {
    && |xs| == |texts|
    && forall k, tail | 0 <= k < |xs| && (sep <= tail || tail == rest) ::
         item(texts[k] + tail) == Some((xs[k], tail))
  }

  lemma {:induction false} ListRead<T>(item: string -> Option<(T, string)>, sep: string, xs: seq<T>,
                                       texts: seq<string>, rest: string)
    requires xs != [] && sep != "" && !(sep <= rest) && ItemsRead(item, sep, xs, texts, rest)
    ensures ReadList(item, sep, Separated(texts, sep) + rest) == Some((xs, rest))
  {
    var t := Separated(texts, sep) + rest;
    if |xs| == 1 {
      assert item(texts[0] + rest) == Some((xs[0], rest));
      assert [xs[0]] == xs;
    } else {
      var tail := sep + (Separated(texts[1..], sep) + rest);
      assert t == texts[0] + tail;
      assert item(texts[0] + tail) == Some((xs[0], tail));
      assert tail[|sep|..] == Separated(texts[1..], sep) + rest;
      TailReads(item, sep, xs, texts, rest);
      ListRead(item, sep, xs[1..], texts[1..], rest);
      assert [xs[0]] + xs[1..] == xs;
    }
  }

  lemma TailReads<T>(item: string -> Option<(T, string)>, sep: string, xs: seq<T>, texts: seq<string>, rest: string)
    requires |xs| > 1 && ItemsRead(item, sep, xs, texts, rest)
    ensures ItemsRead(item, sep, xs[1..], texts[1..], rest)
  {
    forall k, tail | 0 <= k < |xs[1..]| && (sep <= tail || tail == rest)
      ensures item(texts[1..][k] + tail) == Some((xs[1..][k], tail))
    {
      assert item(texts[k + 1] + tail) == Some((xs[k + 1], tail));
    }
  }

  /** A type with a comma or nothing between it and the end of the line. */
  lemma TypeRead(type_: string, comma: string, end: string)
    requires type_ != "" && type_[|type_| - 1] != ',' && '\n' !in type_
    requires comma == "," || comma == ""
    requires end != "" && end[0] == '\n'
    ensures ReadType(type_ + (comma + end)) == (type_, comma + end)
  {
    var line := type_ + comma;
    Three(type_, comma, end);
    SpanAt(InLine, line, end);
    assert (type_ + (comma + end))[..|type_|] == type_ && (type_ + (comma + end))[|type_|..] == comma + end;
  }

  lemma ColumnRead(c: Column, comma: string, end: string)
    requires PlainColumn(c) && (comma == "," || comma == "") && end != "" && end[0] == '\n'
    ensures ReadColumn(c.name + " " + c.type_ + (comma + end)) == Some((c, comma + end))
  {
    var more := c.type_ + (comma + end);
    Three(c.name, " ", c.type_);
    Three(c.name, " " + c.type_, comma + end);
    Three(" ", c.type_, comma + end);
    SpanRead(InName, c.name, " " + more);
    ExpectAt(" ", more);
    TypeRead(c.type_, comma, end);
  }

  lemma NumberRead(n: string, tail: string)
    requires PlainNumber(n) && tail != "" && !InNumber(tail[0])
    ensures ReadValue(n + tail) == Some((Number(n), tail))
  {
    assert n[0] != '\'' && n[0] != 'C';
    Unexpected("'", n, tail, 0);
    Unexpected("CAST(", n, tail, 0);
    SpanRead(InNumber, n, tail);
  }

  lemma TextRead(s: string, tail: string)
    requires PlainText(s)
    ensures ReadValue("'" + s + "'" + tail) == Some((Text(s), tail))
  {
    var rest := s + ("'" + tail);
    Three("'" + s, "'", tail);
    Three("'", s, "'" + tail);
    ExpectAt("'", rest);
    SpanAt(InText, s, "'" + tail);
    assert rest[..|s|] == s && rest[|s| + 1..] == tail;
  }

  lemma DecimalRead(d: string, tail: string)
    requires PlainNumber(d)
    ensures ReadValue("CAST(" + d + " AS decimal(12,2))" + tail) == Some((Decimal(d), tail))
  {
    var word := " AS decimal(12,2))";
    var rest := d + (word + tail);
    Three("CAST(" + d, word, tail);
    Three("CAST(", d, word + tail);
    Unexpected("'", "CAST(", rest, 0);
    ExpectAt("CAST(", rest);
    SpanRead(InNumber, d, word + tail);
    ExpectAt(word, tail);
  }

  lemma ValueRead(v: Value, tail: string)
    requires PlainValue(v) && tail != "" && !InNumber(tail[0])
    ensures ReadValue(PrintValue(v) + tail) == Some((v, tail))
  {
    match v
    case Number(n) => NumberRead(n, tail);
    case Text(s) => TextRead(s, tail);
    case Decimal(d) => DecimalRead(d, tail);
  }

  lemma ValuesRead(r: Row, tail: string)
    requires PlainRow(r) && tail != "" && tail[0] == ')'
    ensures ReadList(ReadValue, ", ", Separated(PrintValues(r), ", ") + tail) == Some((r, tail))
  {
    forall k, more | 0 <= k < |r| && (", " <= more || more == tail)
      ensures ReadValue(PrintValues(r)[k] + more) == Some((r[k], more))
    {
      ValueRead(r[k], more);
    }
    ListRead(ReadValue, ", ", r, PrintValues(r), tail);
  }

  lemma RowRead(r: Row, tail: string)
    requires PlainRow(r)
    ensures ReadRow(PrintRow(r) + tail) == Some((r, tail))
  {
    var values := JoinComma(PrintValues(r));
    CommaSeparates(PrintValues(r));
    Three("(" + values, ")", tail);
    Three("(", values, ")" + tail);
    ExpectAt("(", values + (")" + tail));
    ValuesRead(r, ")" + tail);
    ExpectAt(")", tail);
  }

  lemma NamesRead(names: seq<string>, rest: string)
    requires names != [] && (forall k | 0 <= k < |names| :: PlainName(names[k])) && rest != "" && rest[0] == ')'
    ensures ReadNames(JoinComma(names) + rest) == Some((names, rest))
  {
    CommaSeparates(names);
    var item := u => ReadSpan(InName, u);
    forall k, more | 0 <= k < |names| && (", " <= more || more == rest)
      ensures item(names[k] + more) == Some((names[k], more))
    {
      SpanRead(InName, names[k], more);
    }
    ListRead(item, ", ", names, names, rest);
  }

  lemma TableRead(name: string, fq: string, rest: string)
    requires PlainName(name) && rest != "" && !InName(rest[0])
    ensures ReadTable(fq + "." + name + rest, fq) == Some((name, rest))
  {
    ExpectAt(fq + ".", name + rest);
    assert fq + "." + name + rest == (fq + ".") + (name + rest);
    SpanRead(InName, name, rest);
  }

  // --- The statements ---

  /** The lines of a list are its items, indented. */
  lemma {:induction false} ListText(items: seq<string>)
    requires items != []
    ensures Unlines(ListLines(items)) == "  " + Separated(items, ",\n  ") + "\n"
  {
    var lines := ListLines(items);
    if |items| == 1 {
      assert lines[1..] == [];
    } else {
      ListText(items[1..]);
      assert lines[1..] == ListLines(items[1..]);
      assert lines[0] == "  " + items[0] + ",";
    }
  }

  /** A line, the lines of a list, and another line. */
  lemma ListBetween(head: string, items: seq<string>, last: string)
    requires items != []
    ensures JoinLines([head] + ListLines(items) + [last])
            == head + ("\n  " + (Separated(items, ",\n  ") + ("\n" + last)))
  {
    var body, list := [head] + ListLines(items), Separated(items, ",\n  ");
    JoinAppend(body, last);
    JoinIsUnlines(body);
    assert body[1..] == ListLines(items);
    ListText(items);
    assert JoinLines(body) + "\n" == head + "\n" + ("  " + list + "\n");
    ListNested(head, list, last);
  }

  lemma ListNested(head: string, list: string, last: string)
    ensures head + "\n" + ("  " + list + "\n") + last == head + ("\n  " + (list + ("\n" + last)))
  {
  }

  lemma {:induction false} JoinHead(first: string, second: string, rest: seq<string>)
    ensures JoinLines([first, second] + rest) == JoinLines([first + "\n" + second] + rest)
  {
    if rest == [] {
      assert [first, second] == [first] + [second];
      JoinAppend([first], second);
      assert [first, second] + rest == [first, second] && [first + "\n" + second] + rest == [first + "\n" + second];
    } else {
      var n := |rest| - 1;
      JoinHead(first, second, rest[..n]);
      JoinAppend([first, second] + rest[..n], rest[n]);
      JoinAppend([first + "\n" + second] + rest[..n], rest[n]);
      assert [first, second] + rest == ([first, second] + rest[..n]) + [rest[n]];
      assert [first + "\n" + second] + rest == ([first + "\n" + second] + rest[..n]) + [rest[n]];
    }
  }

  /** The head of a statement about a table, word by word. */
  lemma HeadNested(word: string, guard: string, fq: string, name: string, open: string, rest: string)
    ensures (word + guard) + fq + "." + name + open + rest == word + (guard + (fq + "." + name + (open + rest)))
  {
    Three(fq + "." + name, open, rest);
    var table := fq + "." + name;
    assert (word + guard) + fq + "." + name == (word + guard) + table;
    Three((word + guard) + table, open, rest);
    Three(word + guard, table, open + rest);
    Three(word, guard, table + (open + rest));
  }

  lemma SchemaRead(fq: string)
    ensures ReadSql(TextOf(CreateSchema, fq), fq) == Some(MakeSchema(true, fq))
  {
    Three("CREATE SCHEMA ", IF_NOT_EXISTS, fq);
    ExpectAt("CREATE SCHEMA ", IF_NOT_EXISTS + fq);
    ExpectAt("IF NOT EXISTS ", fq);
  }

  lemma ColumnsRead(t: Table)
    requires PlainTable(t)
    ensures ReadList(ReadColumn, ",\n  ", Separated(ColumnItems(t), ",\n  ") + "\n)") == Some((t.columns, "\n)"))
  {
    var items := ColumnItems(t);
    forall k, tail | 0 <= k < |items| && (",\n  " <= tail || tail == "\n)")
      ensures ReadColumn(items[k] + tail) == Some((t.columns[k], tail))
    {
      if tail == "\n)" {
        ColumnRead(t.columns[k], "", tail);
        assert "" + tail == tail;
      } else {
        ColumnRead(t.columns[k], ",", tail[1..]);
        assert "," + tail[1..] == tail;
      }
    }
    ListRead(ReadColumn, ",\n  ", t.columns, items, "\n)");
  }

  /** After the name of the table. */
  lemma CreateBody(t: Table, fq: string, guarded: bool, rest: string)
    requires PlainTable(t) && ReadGuard(rest) == (guarded, fq + "." + t.name + (" (\n  " + ColumnsText(t)))
    ensures ReadCreate(rest, fq) == Some(MakeTable(guarded, fq, t.name, t.columns))
  {
    TableRead(t.name, fq, " (\n  " + ColumnsText(t));
    ExpectAt(" (\n  ", ColumnsText(t));
    ColumnsRead(t);
  }

  function ColumnsText(t: Table): string {
    Separated(ColumnItems(t), ",\n  ") + "\n)"
  }

  lemma CreateText(t: Table, fq: string)
    requires t.columns != []
    ensures TextOf(CreateTable(t), fq)
            == "CREATE TABLE " + ("IF NOT EXISTS " + (fq + "." + t.name + (" (\n  " + ColumnsText(t))))
  {
    ListBetween(CreateHead(t, fq), ColumnItems(t), ")");
    assert "\n" + ")" == "\n)";
    HeadNested("CREATE TABLE ", IF_NOT_EXISTS, fq, t.name, " (", "\n  " + ColumnsText(t));
    Three(" (", "\n  ", ColumnsText(t));
    assert " (" + "\n  " == " (\n  ";
  }

  lemma CreateRead(t: Table, fq: string)
    requires PlainTable(t)
    ensures ReadSql(TextOf(CreateTable(t), fq), fq) == Some(MakeTable(true, fq, t.name, t.columns))
  {
    var table := fq + "." + t.name + (" (\n  " + ColumnsText(t));
    CreateText(t, fq);
    Unexpected("CREATE SCHEMA ", "CREATE TABLE ", "IF NOT EXISTS " + table, 7);
    ExpectAt("CREATE TABLE ", "IF NOT EXISTS " + table);
    ExpectAt("IF NOT EXISTS ", table);
    CreateBody(t, fq, true, "IF NOT EXISTS " + table);
  }

  lemma UnlessRead(name: string, fq: string)
    requires PlainName(name)
    ensures ReadUnless("\nWHERE NOT EXISTS (SELECT 1 FROM " + (fq + "." + name + " LIMIT 1)"), fq)
            == Some(Some((fq, name)))
  {
    ExpectAt("\nWHERE NOT EXISTS (SELECT 1 FROM ", fq + "." + name + " LIMIT 1)");
    TableRead(name, fq, " LIMIT 1)");
  }

  /** What an insertion ends with. */
  function EndText(t: Table, fq: string): string {
    "\nWHERE NOT EXISTS (SELECT 1 FROM " + (fq + "." + t.name + " LIMIT 1)")
  }

  lemma EndNested(t: Table, fq: string)
    ensures "\n" + InsertTail(t, fq) == EndText(t, fq)
  {
    assert "WHERE NOT EXISTS " + "(SELECT 1 FROM " == "WHERE NOT EXISTS (SELECT 1 FROM ";
    Three("\n", WHERE, fq + "." + t.name + " LIMIT 1)");
    assert "\n" + WHERE == "\nWHERE NOT EXISTS (SELECT 1 FROM ";
    Three(WHERE, fq, "." + t.name + " LIMIT 1)");
    assert InsertTail(t, fq) == WHERE + (fq + "." + t.name + " LIMIT 1)");
  }

  lemma NamesPlain(t: Table)
    requires PlainTable(t)
    ensures ColumnNames(t) != [] && forall k | 0 <= k < |ColumnNames(t)| :: PlainName(ColumnNames(t)[k])
  {
    forall k | 0 <= k < |ColumnNames(t)|
      ensures PlainName(ColumnNames(t)[k])
    {
      assert PlainColumn(t.columns[k]);
    }
  }

  /** After the rows. */
  lemma AliasRead(t: Table, fq: string)
    requires PlainTable(t)
    ensures ReadAlias(JoinComma(ColumnNames(t)) + (")" + EndText(t, fq)), fq, t.name, ColumnNames(t), t.rows)
            == Some(Fill(fq, t.name, ColumnNames(t), t.rows, ColumnNames(t), Some((fq, t.name))))
  {
    NamesPlain(t);
    NamesRead(ColumnNames(t), ")" + EndText(t, fq));
    ExpectAt(")", EndText(t, fq));
    UnlessRead(t.name, fq);
  }

  lemma AllRowsRead(t: Table, rest: string)
    requires PlainTable(t) && rest != "" && rest[0] == '\n'
    ensures ReadList(ReadRow, ",\n  ", Separated(RowItems(t), ",\n  ") + rest) == Some((t.rows, rest))
  {
    forall k, tail | 0 <= k < |t.rows| && (",\n  " <= tail || tail == rest)
      ensures ReadRow(RowItems(t)[k] + tail) == Some((t.rows[k], tail))
    {
      RowRead(t.rows[k], tail);
    }
    ListRead(ReadRow, ",\n  ", t.rows, RowItems(t), rest);
  }

  /** From the alias on. */
  function AliasText(t: Table, fq: string): string {
    JoinComma(ColumnNames(t)) + (")" + EndText(t, fq))
  }

  /** After the name of the table and a bracket. */
  function RowsText(t: Table, fq: string): string {
    ")\nSELECT * FROM (VALUES\n  " + (Separated(RowItems(t), ",\n  ") + ("\n) AS t(" + AliasText(t, fq)))
  }

  lemma RowsRead(t: Table, fq: string)
    requires PlainTable(t)
    ensures ReadRows(RowsText(t, fq), fq, t.name, ColumnNames(t))
            == Some(Fill(fq, t.name, ColumnNames(t), t.rows, ColumnNames(t), Some((fq, t.name))))
  {
    var rest := "\n) AS t(" + AliasText(t, fq);
    ExpectAt(")\nSELECT * FROM (VALUES\n  ", Separated(RowItems(t), ",\n  ") + rest);
    AllRowsRead(t, rest);
    ExpectAt("\n) AS t(", AliasText(t, fq));
    AliasRead(t, fq);
  }

  /** Two lines, the lines of a list, and two more lines. */
  lemma ListWithin(a: string, b: string, items: seq<string>, c: string, d: string)
    requires items != []
    ensures JoinLines([a, b] + ListLines(items) + [c, d])
            == (a + "\n" + b) + ("\n  " + (Separated(items, ",\n  ") + ("\n" + (c + ("\n" + d)))))
  {
    var head, list, last := a + "\n" + b, ListLines(items), c + "\n" + d;
    assert [a, b] + list + [c, d] == [a, b] + (list + [c, d]);
    JoinHead(a, b, list + [c, d]);
    assert [head] + (list + [c, d]) == ([head] + list + [c]) + [d];
    JoinAppend([head] + list + [c], d);
    JoinAppend([head] + list, c);
    JoinAppend([head] + list, last);
    Three(JoinLines([head] + list) + "\n", c, "\n" + d);
    Three(c, "\n", d);
    Three(JoinLines([head] + list) + "\n" + c, "\n", d);
    ListBetween(head, items, last);
  }

  lemma InsertLines(t: Table, fq: string)
    requires t.rows != []
    ensures TextOf(Insert(t), fq)
            == (InsertHead(t, fq) + "\n" + VALUES)
               + ("\n  " + (Separated(RowItems(t), ",\n  ") + ("\n" + (InsertAlias(t) + EndText(t, fq)))))
  {
    ListWithin(InsertHead(t, fq), VALUES, RowItems(t), InsertAlias(t), InsertTail(t, fq));
    EndNested(t, fq);
  }

  /** The head of an insertion, word by word. */
  lemma InsertNested(word: string, table: string, open: string, names: string, close: string, values: string,
                     rest: string)
    ensures (word + table + open + names + close) + "\n" + values + rest
            == word + (table + (open + (names + ((close + "\n" + values) + rest))))
  {
    var tail := (close + "\n" + values) + rest;
    Three(word + table + open + names, close, "\n");
    Three(word + table + open + names, close + "\n", values);
    Three(word + table + open + names, close + "\n" + values, rest);
    Three(word + table + open, names, tail);
    Three(word + table, open, names + tail);
    Three(word, table, open + (names + tail));
  }

  lemma InsertHeadIs(t: Table, fq: string)
    ensures InsertHead(t, fq) == "INSERT INTO " + (fq + "." + t.name) + " (" + JoinComma(ColumnNames(t)) + ")"
  {
    Three(INSERT, fq, ".");
    Three(INSERT, fq + ".", t.name);
  }

  lemma InsertText(t: Table, fq: string)
    requires t.rows != []
    ensures TextOf(Insert(t), fq)
            == "INSERT INTO " + (fq + "." + t.name + (" (" + (JoinComma(ColumnNames(t)) + RowsText(t, fq))))
  {
    var rows := Separated(RowItems(t), ",\n  ");
    InsertLines(t, fq);
    AliasNested(t, fq);
    InsertHeadIs(t, fq);
    ValuesNested(")", rows + ("\n) AS t(" + AliasText(t, fq)));
    InsertNested("INSERT INTO ", fq + "." + t.name, " (", JoinComma(ColumnNames(t)), ")", VALUES,
                 "\n  " + (rows + ("\n) AS t(" + AliasText(t, fq))));
  }

  lemma AliasNested(t: Table, fq: string)
    ensures "\n" + (InsertAlias(t) + EndText(t, fq)) == "\n) AS t(" + AliasText(t, fq)
  {
    var names, end := JoinComma(ColumnNames(t)), EndText(t, fq);
    assert InsertAlias(t) == ") AS t(" + names + ")";
    Three(") AS t(" + names, ")", end);
    Three(") AS t(", names, ")" + end);
    Three("\n", ") AS t(", names + (")" + end));
    assert "\n" + ") AS t(" == "\n) AS t(";
  }

  lemma ValuesNested(close: string, after: string)
    requires close == ")"
    ensures (close + "\n" + VALUES) + ("\n  " + after) == ")\nSELECT * FROM (VALUES\n  " + after
  {
    Three(close + "\n" + VALUES, "\n  ", after);
    assert close + "\n" + VALUES + "\n  " == ")\nSELECT * FROM (VALUES\n  ";
  }

  lemma InsertRead(t: Table, fq: string)
    requires PlainTable(t)
    ensures ReadSql(TextOf(Insert(t), fq), fq)
            == Some(Fill(fq, t.name, ColumnNames(t), t.rows, ColumnNames(t), Some((fq, t.name))))
  {
    var names := JoinComma(ColumnNames(t)) + RowsText(t, fq);
    var table := fq + "." + t.name + (" (" + names);
    InsertText(t, fq);
    Unexpected("CREATE SCHEMA ", "INSERT INTO ", table, 0);
    Unexpected("CREATE TABLE ", "INSERT INTO ", table, 0);
    ExpectAt("INSERT INTO ", table);
    InsertBody(t, fq);
  }

  lemma InsertBody(t: Table, fq: string)
    requires PlainTable(t)
    ensures ReadInsert(fq + "." + t.name + (" (" + (JoinComma(ColumnNames(t)) + RowsText(t, fq))), fq)
            == Some(Fill(fq, t.name, ColumnNames(t), t.rows, ColumnNames(t), Some((fq, t.name))))
  {
    var names := JoinComma(ColumnNames(t)) + RowsText(t, fq);
    TableRead(t.name, fq, " (" + names);
    ExpectAt(" (", names);
    NamesPlain(t);
    NamesRead(ColumnNames(t), RowsText(t, fq));
    RowsRead(t, fq);
  }
}
