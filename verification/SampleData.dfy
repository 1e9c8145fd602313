/** The sample data: two tables and the SQL file the operator writes for them. */
module SampleData {
  import opened Sequences
  import opened Seed

  // --- The tables ---

  datatype Column = Column(name: string, type_: string)

  datatype Value = Number(n: string) | Text(t: string) | Decimal(d: string)

  type Row = seq<Value>

  datatype Table = Table(name: string, columns: seq<Column>, rows: seq<Row>)

  const BIGINT := "bigint"
  const VARCHAR := "varchar"
  const DECIMAL := "decimal(12,2)"

  const ORDERS := Table(
    "orders",
    [Column("order_id", BIGINT), Column("customer", VARCHAR), Column("region", VARCHAR), Column("tenant_id", BIGINT),
     Column("amount", DECIMAL), Column("ssn", VARCHAR), Column("email", VARCHAR)],
    [ORDER_1, ORDER_2, ORDER_3, ORDER_4])

  const ORDER_1: Row := [Number("1"), Text("Acme Corp"), Text("emea"), Number("100"), Decimal("120.50"),
                         Text("111-22-3333"), Text("buyer@acme.example")]
  const ORDER_2: Row := [Number("2"), Text("Globex"), Text("us-east"), Number("200"), Decimal("89.00"),
                         Text("222-33-4444"), Text("ops@globex.example")]
  const ORDER_3: Row := [Number("3"), Text("Initech"), Text("emea"), Number("100"), Decimal("450.25"),
                         Text("333-44-5555"), Text("ap@initech.example")]
  const ORDER_4: Row := [Number("4"), Text("Umbrella"), Text("us-west"), Number("300"), Decimal("15.99"),
                         Text("444-55-6666"), Text("purchasing@umbrella.example")]

  const INVOICES := Table(
    "invoices",
    [Column("invoice_id", BIGINT), Column("order_id", BIGINT), Column("region", VARCHAR), Column("email", VARCHAR),
     Column("total", DECIMAL)],
    [INVOICE_1, INVOICE_2, INVOICE_3, INVOICE_4])

  const INVOICE_1: Row := [Number("1001"), Number("1"), Text("emea"), Text("buyer@acme.example"), Decimal("120.50")]
  const INVOICE_2: Row := [Number("1002"), Number("2"), Text("us-east"), Text("ops@globex.example"), Decimal("89.00")]
  const INVOICE_3: Row := [Number("1003"), Number("3"), Text("emea"), Text("ap@initech.example"), Decimal("450.25")]
  const INVOICE_4: Row := [Number("1004"), Number("4"), Text("us-west"), Text("purchasing@umbrella.example"),
                           Decimal("15.99")]

  // --- Tables whose texts can be read back ---

  predicate InName(c: char) {
    'a' <= c <= 'z' || 'A' <= c <= 'Z' || '0' <= c <= '9' || c == '_'
  }

  predicate InNumber(c: char) {
    '0' <= c <= '9' || c == '.'
  }

  predicate PlainName(s: string) {
    s != "" && forall k | 0 <= k < |s| :: InName(s[k])
  }

  predicate PlainColumn(c: Column) {
    PlainName(c.name) && c.type_ != "" && c.type_[|c.type_| - 1] != ',' && '\n' !in c.type_
  }

  predicate PlainNumber(s: string) {
    s != "" && forall k | 0 <= k < |s| :: InNumber(s[k])
  }

  /** Printable, with no quote in it. */
  predicate PlainText(s: string) {
    forall k | 0 <= k < |s| :: ' ' <= s[k] <= '~' && s[k] != '\''
  }

  predicate PlainValue(v: Value) {
    match v
    case Number(n) => PlainNumber(n)
    case Text(t) => PlainText(t)
    case Decimal(d) => PlainNumber(d)
  }

  predicate PlainRow(r: Row) {
    r != [] && forall k | 0 <= k < |r| :: PlainValue(r[k])
  }

  predicate PlainTable(t: Table) {
    && PlainName(t.name) && t.columns != [] && t.rows != []
    && (forall k | 0 <= k < |t.columns| :: PlainColumn(t.columns[k]))
    && (forall k | 0 <= k < |t.rows| :: PlainRow(t.rows[k]))
  }

  // --- The program ---

  datatype Statement = CreateSchema | CreateTable(table: Table) | Insert(table: Table)

  const PROGRAM: seq<Statement> := [
    CreateSchema, CreateTable(ORDERS), CreateTable(INVOICES), Insert(ORDERS), Insert(INVOICES)]

  // --- Their SQL text, with the qualified schema name fq ---

  function PrintValue(v: Value): string {
    match v
    case Number(n) => n
    case Text(t) => "'" + t + "'"
    case Decimal(d) => "CAST(" + d + " AS decimal(12,2))"
  }

  function PrintValues(r: Row): seq<string> {
    seq(|r|, k requires 0 <= k < |r| => PrintValue(r[k]))
  }

  function PrintRow(r: Row): string {
    "(" + JoinComma(PrintValues(r)) + ")"
  }

  function ColumnNames(t: Table): seq<string> {
    seq(|t.columns|, k requires 0 <= k < |t.columns| => t.columns[k].name)
  }

  function ColumnItems(t: Table): seq<string> {
    seq(|t.columns|, k requires 0 <= k < |t.columns| => t.columns[k].name + " " + t.columns[k].type_)
  }

  function RowItems(t: Table): seq<string> {
    seq(|t.rows|, k requires 0 <= k < |t.rows| => PrintRow(t.rows[k]))
  }

  /** One item a line, indented, with a comma after all but the last. */
  function ListLines(items: seq<string>): seq<string> {
    seq(|items|, k requires 0 <= k < |items| => "  " + items[k] + (if k < |items| - 1 then "," else ""))
  }

  function StatementLines(s: Statement, fq: string): seq<string> {
    match s
    case CreateSchema => [SchemaLine(fq)]
    case CreateTable(t) => [CreateHead(t, fq)] + ListLines(ColumnItems(t)) + [")"]
    case Insert(t) => [InsertHead(t, fq), VALUES] + ListLines(RowItems(t)) + [InsertAlias(t), InsertTail(t, fq)]
  }

  const IF_NOT_EXISTS := "IF NOT EXISTS "
  const SCHEMA := "CREATE SCHEMA " + IF_NOT_EXISTS
  const CREATE := "CREATE TABLE " + IF_NOT_EXISTS
  const INSERT := "INSERT INTO "
  const WHERE := "WHERE NOT EXISTS " + "(SELECT 1 FROM "

  function SchemaLine(fq: string): string {
    SCHEMA + fq
  }

  const VALUES := "SELECT * FROM (VALUES"

  function CreateHead(t: Table, fq: string): string {
    CREATE + fq + "." + t.name + " ("
  }

  function InsertHead(t: Table, fq: string): string {
    INSERT + fq + "." + t.name + " (" + JoinComma(ColumnNames(t)) + ")"
  }

  function InsertAlias(t: Table): string {
    ") AS t(" + JoinComma(ColumnNames(t)) + ")"
  }

  function InsertTail(t: Table, fq: string): string {
    WHERE + fq + "." + t.name + " LIMIT 1)"
  }

  function TextOf(s: Statement, fq: string): string {
    JoinLines(StatementLines(s, fq))
  }

  function Blocks(program: seq<Statement>, fq: string): seq<seq<string>> {
    if program == [] then [] else [StatementLines(program[0], fq)] + Blocks(program[1..], fq)
  }

  function TextsOf(program: seq<Statement>, fq: string): seq<string> {
    if program == [] then [] else [TextOf(program[0], fq)] + TextsOf(program[1..], fq)
  }

  const ORIGIN := "-- Generated by data-platform-operator."
  const PURPOSE := "Demo Iceberg tables for local testing."
  const COMMENT := ORIGIN + " " + PURPOSE

  function Qualified(catalog: string, schema: string): string {
    catalog + "." + schema
  }

  /** `sampleDataSQL`. */
  function SampleDataSQL(catalog: string, schema: string): string {
    SeedFile(COMMENT, Blocks(PROGRAM, Qualified(catalog, schema)))
  }

  /** What the seed script makes of the file. */
  function Recovered(catalog: string, schema: string): seq<string> {
    Statements(SplitLines(SampleDataSQL(catalog, schema)), [])
  }

  /** A qualified name that the splitter leaves whole: it breaks lines with line feeds only, no
      line of it closes a statement or, after the first, is skipped, and it ends in neither
      white space nor a semicolon. */
  predicate Fits(fq: string) {
    var ps := Pieces(fq);
    && NewlinesOnly(fq) && Ends(fq) && !Closes(ps[0]) && AllKept(ps[1..])
  }
}
