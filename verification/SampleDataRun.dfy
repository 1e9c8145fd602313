/** Running the sample-data file: a seed Job executes the statements one after the other, and is
    restarted from the beginning when it crashes. */
module SampleDataRun {
  import opened Wrappers
  import opened SampleData
  import opened SampleDataLines
  import opened SampleDataReader
  import opened SampleDataSplit

  // --- Running the statements, with crashes ---

  /** A row by column names. */
  type Record = map<string, Value>

  /** The rows of each table of the schema; a table that does not exist is absent. */
  datatype Db = Db(schema: bool, tables: map<string, seq<Record>>)

  function RecordOf(columns: seq<Column>, row: Row): Record {
    if columns == [] || row == [] then map[]
    else RecordOf(columns[1..], row[1..])[columns[0].name := row[0]]
  }

  function Records(t: Table): seq<Record> {
    seq(|t.rows|, k requires 0 <= k < |t.rows| => RecordOf(t.columns, t.rows[k]))
  }

  /** None when the statement fails, which ends the run. CREATE leaves what exists alone, and
      INSERT ... SELECT ... WHERE NOT EXISTS adds rows only to an empty table. */
  function Exec(db: Db, s: Statement): Option<Db> {
    match s
    case CreateSchema => Some(db.(schema := true))
    case CreateTable(t) =>
      if !db.schema then None
      else if t.name in db.tables then Some(db)
      else Some(db.(tables := db.tables[t.name := []]))
    case Insert(t) =>
      if t.name !in db.tables then None
      else if db.tables[t.name] != [] then Some(db)
      else Some(db.(tables := db.tables[t.name := Records(t)]))
  }

  /** The database after the statements of a program, or up to the failing one. */
  function RunStatements(db: Db, program: seq<Statement>): Db
    decreases |program|
  {
    if program == [] then db
    else
      match Exec(db, program[0])
      case None => db
      case Some(next) => RunStatements(next, program[1..])
  }

  /** Runs cut after the given numbers of statements. */
  function Crashes(db: Db, cuts: seq<nat>): Db
    decreases |cuts|
  {
    if cuts == [] then db
    else Crashes(RunStatements(db, if cuts[0] < |PROGRAM| then PROGRAM[..cuts[0]] else PROGRAM), cuts[1..])
  }

  ghost function Rows(db: Db, name: string): Option<seq<Record>> {
    if name in db.tables then Some(db.tables[name]) else None
  }

  /** Where a table can be on its way: as it was, created, or seeded if it had no rows. */
  ghost predicate Between(t0: Option<seq<Record>>, t: Option<seq<Record>>, rows: seq<Record>) {
    if t0.Some? && t0.value != [] then t == t0
    else t == t0 || t == Some([]) || t == Some(rows)
  }

  ghost predicate OnTheWay(db0: Db, db: Db) {
    && Between(Rows(db0, ORDERS.name), Rows(db, ORDERS.name), Records(ORDERS))
    && Between(Rows(db0, INVOICES.name), Rows(db, INVOICES.name), Records(INVOICES))
    && forall name | name != ORDERS.name && name != INVOICES.name :: Rows(db, name) == Rows(db0, name)
  }

  ghost predicate OfProgram(program: seq<Statement>) {
    forall k | 0 <= k < |program| :: program[k].CreateSchema? || program[k].table in {ORDERS, INVOICES}
  }

  lemma ExecOnTheWay(db0: Db, db: Db, s: Statement)
    requires OnTheWay(db0, db) && Exec(db, s).Some?
    requires s.CreateSchema? || s.table == ORDERS || s.table == INVOICES
    ensures OnTheWay(db0, Exec(db, s).value)
  {
  }

  lemma {:induction false} RunOnTheWay(db0: Db, db: Db, program: seq<Statement>)
    requires OnTheWay(db0, db) && OfProgram(program)
    ensures OnTheWay(db0, RunStatements(db, program))
    decreases |program|
  {
    if program != [] && Exec(db, program[0]).Some? {
      ExecOnTheWay(db0, db, program[0]);
      RunOnTheWay(db0, Exec(db, program[0]).value, program[1..]);
    }
  }

  lemma {:induction false} CrashesOnTheWay(db0: Db, db: Db, cuts: seq<nat>)
    requires OnTheWay(db0, db)
    ensures OnTheWay(db0, Crashes(db, cuts))
    decreases |cuts|
  {
    if cuts != [] {
      var program := if cuts[0] < |PROGRAM| then PROGRAM[..cuts[0]] else PROGRAM;
      RunOnTheWay(db0, db, program);
      CrashesOnTheWay(db0, RunStatements(db, program), cuts[1..]);
    }
  }

  /** The rows a table has in the end. */
  ghost function Seeded(db: Db, t: Table): seq<Record> {
    if t.name in db.tables && db.tables[t.name] != [] then db.tables[t.name] else Records(t)
  }

  ghost function SeededDb(db: Db): Db {
    Db(true, db.tables[ORDERS.name := Seeded(db, ORDERS)][INVOICES.name := Seeded(db, INVOICES)])
  }

  lemma {:induction false} RunCons(db: Db, s: Statement, rest: seq<Statement>, next: Db)
    requires Exec(db, s) == Some(next)
    ensures RunStatements(db, [s] + rest) == RunStatements(next, rest)
  {
    assert ([s] + rest)[1..] == rest;
  }

  /** The rows of a table after the insertion. */
  function Filled(db: Db, t: Table): seq<Record>
    requires t.name in db.tables
  {
    if db.tables[t.name] == [] then Records(t) else db.tables[t.name]
  }

  function Created(db: Db, t: Table): Db {
    if t.name in db.tables then db else db.(tables := db.tables[t.name := []])
  }

  lemma {:induction false} CreatesRun(db: Db, a: Db, rest: seq<Statement>)
    requires a == db.(schema := true)
    ensures RunStatements(db, [CreateSchema, CreateTable(ORDERS), CreateTable(INVOICES)] + rest)
            == RunStatements(Created(Created(a, ORDERS), INVOICES), rest)
  {
    var b := Created(a, ORDERS);
    var tail := [CreateTable(INVOICES)] + rest;
    RunCons(b, CreateTable(INVOICES), rest, Created(b, INVOICES));
    RunCons(a, CreateTable(ORDERS), tail, b);
    RunCons(db, CreateSchema, [CreateTable(ORDERS)] + tail, a);
    assert [CreateSchema, CreateTable(ORDERS), CreateTable(INVOICES)] + rest
        == [CreateSchema] + ([CreateTable(ORDERS)] + tail);
  }

  lemma {:induction false} InsertsRun(c: Db, orders: seq<Record>, invoices: seq<Record>)
    requires ORDERS.name in c.tables && INVOICES.name in c.tables && ORDERS.name != INVOICES.name
    requires orders == Filled(c, ORDERS) && invoices == Filled(c, INVOICES)
    ensures RunStatements(c, [Insert(ORDERS), Insert(INVOICES)])
            == c.(tables := c.tables[ORDERS.name := orders][INVOICES.name := invoices])
  {
    var d := c.(tables := c.tables[ORDERS.name := orders]);
    var e := d.(tables := d.tables[INVOICES.name := invoices]);
    InsertExact(c, ORDERS, orders);
    InsertExact(d, INVOICES, invoices);
    RunCons(d, Insert(INVOICES), [], e);
    RunCons(c, Insert(ORDERS), [Insert(INVOICES)], d);
    assert [Insert(ORDERS)] + [Insert(INVOICES)] == [Insert(ORDERS), Insert(INVOICES)];
  }

  /** One full run, statement by statement. */
  lemma FullRun(db: Db)
    ensures RunStatements(db, PROGRAM) == SeededDb(db)
  {
    var a := db.(schema := true);
    var c := Created(Created(a, ORDERS), INVOICES);
    assert ORDERS.name[0] != INVOICES.name[0];
    CreatesRun(db, a, [Insert(ORDERS), Insert(INVOICES)]);
    InsertsRun(c, Seeded(db, ORDERS), Seeded(db, INVOICES));
    assert PROGRAM == [CreateSchema, CreateTable(ORDERS), CreateTable(INVOICES)] + [Insert(ORDERS), Insert(INVOICES)];
    assert c.tables[ORDERS.name := Seeded(db, ORDERS)][INVOICES.name := Seeded(db, INVOICES)] == SeededDb(db).tables;
  }

  lemma {:induction false} InsertExact(db: Db, t: Table, rows: seq<Record>)
    requires t.name in db.tables && rows == Filled(db, t)
    ensures Exec(db, Insert(t)) == Some(db.(tables := db.tables[t.name := rows]))
  {
    if db.tables[t.name] != [] {
      assert db.tables[t.name := rows] == db.tables;
    }
  }

  /** Seeding survives crashes: any number of runs, each cut after any statement, followed by
      one full run leaves exactly the four seed rows in a table that had no rows, and leaves
      the rows of a table that had some, and every other table, as they were. */
  lemma SeedingSurvivesCrashes(db: Db, cuts: seq<nat>)
    ensures RunStatements(Crashes(db, cuts), PROGRAM) == SeededDb(db)
  {
    var crashed := Crashes(db, cuts);
    CrashesOnTheWay(db, db, cuts);
    FullRun(crashed);
    SeededBetween(db, crashed, ORDERS);
    SeededBetween(db, crashed, INVOICES);
    forall name
      ensures Rows(SeededDb(crashed), name) == Rows(SeededDb(db), name)
    {
      assert name != ORDERS.name && name != INVOICES.name ==> Rows(crashed, name) == Rows(db, name);
    }
    SameTables(SeededDb(crashed), SeededDb(db));
  }

  lemma SeededBetween(db: Db, db': Db, t: Table)
    requires Between(Rows(db, t.name), Rows(db', t.name), Records(t))
    ensures Seeded(db', t) == Seeded(db, t)
  {
  }

  lemma SameTables(a: Db, b: Db)
    requires a.schema == b.schema && forall name :: Rows(a, name) == Rows(b, name)
    ensures a == b
  {
    forall name
      ensures name in a.tables <==> name in b.tables
      ensures name in a.tables ==> a.tables[name] == b.tables[name]
    {
      assert Rows(a, name) == Rows(b, name);
    }
    assert a.tables.Keys == b.tables.Keys;
    assert a.tables == b.tables;
  }

  // --- Running the file: what the texts say ---

  function Named(names: seq<string>, row: Row): Record {
    if names == [] || row == [] then map[] else Named(names[1..], row[1..])[names[0] := row[0]]
  }

  function NamedRows(names: seq<string>, rows: seq<Row>): seq<Record> {
    seq(|rows|, k requires 0 <= k < |rows| => Named(names, rows[k]))
  }

  /** What a database does with a statement it has read: what exists already is an error unless
      the statement says otherwise, and an insertion needs its tables and as many values as
      columns. */
  function ExecSql(db: Db, q: Sql): Option<Db> {
    match q
    case MakeSchema(ifNotExists, _) => if db.schema && !ifNotExists then None else Some(db.(schema := true))
    case MakeTable(ifNotExists, _, name, _) =>
      if !db.schema then None
      else if name !in db.tables then Some(db.(tables := db.tables[name := []]))
      else if ifNotExists then Some(db)
      else None
    case Fill(_, name, into, rows, alias, unless) =>
      if name !in db.tables || (unless.Some? && unless.value.1 !in db.tables) then None
      else if |alias| != |into| || exists row | row in rows :: |row| != |alias| then None
      else if unless.Some? && db.tables[unless.value.1] != [] then Some(db)
      else Some(db.(tables := db.tables[name := db.tables[name] + NamedRows(into, rows)]))
  }

  lemma {:induction false} NamedByColumns(names: seq<string>, columns: seq<Column>, row: Row)
    requires |names| == |columns| && forall k | 0 <= k < |columns| :: names[k] == columns[k].name
    ensures Named(names, row) == RecordOf(columns, row)
  {
    if columns != [] && row != [] {
      NamedByColumns(names[1..], columns[1..], row[1..]);
    }
  }

  lemma RecordsNamed(t: Table)
    ensures NamedRows(ColumnNames(t), t.rows) == Records(t)
  {
    forall k | 0 <= k < |t.rows|
      ensures Named(ColumnNames(t), t.rows[k]) == RecordOf(t.columns, t.rows[k])
    {
      NamedByColumns(ColumnNames(t), t.columns, t.rows[k]);
    }
  }

  /** The tables can be read back, and their rows are as wide as they are. */
  ghost predicate Regular(t: Table) {
    PlainTable(t) && forall row | row in t.rows :: |row| == |t.columns|
  }

  lemma OrdersRegular()
    ensures Regular(ORDERS)
  {
    Order1Plain();
    Order2Plain();
    Order3Plain();
    Order4Plain();
    ColumnsPlain(ORDERS);
  }

  lemma InvoicesRegular()
    ensures Regular(INVOICES)
  {
    Invoice1Plain();
    Invoice2Plain();
    Invoice3Plain();
    Invoice4Plain();
    ColumnsPlain(INVOICES);
  }

  lemma ColumnsPlain(t: Table)
    requires t == ORDERS || t == INVOICES
    ensures PlainName(t.name) && forall k | 0 <= k < |t.columns| :: PlainColumn(t.columns[k])
  {
    forall k | 0 <= k < |t.columns|
      ensures PlainColumn(t.columns[k])
    {
      TypePlain(t.columns[k]);
    }
  }

  lemma TypePlain(c: Column)
    requires c in ORDERS.columns || c in INVOICES.columns
    ensures PlainColumn(c)
  {
    TypesPlain();
    if c in ORDERS.columns {
      OrderNames(c);
    } else {
      InvoiceNames(c);
    }
  }

  lemma TypesPlain()
    ensures forall t | t in {BIGINT, VARCHAR, DECIMAL} :: t != "" && t[|t| - 1] != ',' && '\n' !in t
  {
  }

  lemma OrderNames(c: Column)
    requires c in ORDERS.columns
    ensures PlainName(c.name) && c.type_ in {BIGINT, VARCHAR, DECIMAL}
  {
  }

  lemma InvoiceNames(c: Column)
    requires c in INVOICES.columns
    ensures PlainName(c.name) && c.type_ in {BIGINT, VARCHAR, DECIMAL}
  {
  }

  /** A text means its statement: reading it and doing what it says has the effect of the
      statement, on every database. */
  lemma TextMeans(db: Db, s: Statement, fq: string)
    requires s in PROGRAM
    ensures ReadSql(TextOf(s, fq), fq).Some? && ExecSql(db, ReadSql(TextOf(s, fq), fq).value) == Exec(db, s)
  {
    ProgramRegular(s);
    StatementMeans(db, s, fq);
  }

  lemma ProgramRegular(s: Statement)
    requires s in PROGRAM
    ensures s.CreateSchema? || Regular(s.table)
  {
    OrdersRegular();
    InvoicesRegular();
    ProgramTables(s);
  }

  lemma ProgramTables(s: Statement)
    requires s in PROGRAM
    ensures s.CreateSchema? || s.table == ORDERS || s.table == INVOICES
  {
  }

  lemma StatementMeans(db: Db, s: Statement, fq: string)
    requires s.CreateSchema? || Regular(s.table)
    ensures ReadSql(TextOf(s, fq), fq).Some? && ExecSql(db, ReadSql(TextOf(s, fq), fq).value) == Exec(db, s)
  {
    match s
    case CreateSchema => SchemaRead(fq);
    case CreateTable(t) => CreateRead(t, fq);
    case Insert(t) =>
      InsertRead(t, fq);
      InsertMeans(db, t, fq);
  }

  lemma InsertMeans(db: Db, t: Table, fq: string)
    requires forall row | row in t.rows :: |row| == |t.columns|
    ensures ExecSql(db, Fill(fq, t.name, ColumnNames(t), t.rows, ColumnNames(t), Some((fq, t.name))))
            == Exec(db, Insert(t))
  {
    RecordsNamed(t);
    if t.name in db.tables && db.tables[t.name] == [] {
      assert db.tables[t.name] + Records(t) == Records(t);
    }
  }

  /** What a run of the script does with the statements it found: one that cannot be read, or
      fails, ends it. */
  function RunTexts(db: Db, texts: seq<string>, fq: string): Db
    decreases |texts|
  {
    if texts == [] then db
    else
      match ReadSql(texts[0], fq)
      case None => db
      case Some(q) =>
        match ExecSql(db, q)
        case None => db
        case Some(next) => RunTexts(next, texts[1..], fq)
  }

  lemma {:induction false} TextsRun(db: Db, program: seq<Statement>, fq: string)
    requires forall k | 0 <= k < |program| :: program[k] in PROGRAM
    ensures RunTexts(db, TextsOf(program, fq), fq) == RunStatements(db, program)
    decreases |program|
  {
    if program != [] {
      var s := program[0];
      assert s in PROGRAM;
      TextMeans(db, s, fq);
      if Exec(db, s).Some? {
        TextsRun(Exec(db, s).value, program[1..], fq);
      }
    }
  }

  /** From file to rows: running what the script recovers from the operator's file, read as SQL,
      seeds both tables, after any number of runs that were cut short. */
  lemma FileSeeds(db: Db, cuts: seq<nat>, catalog: string, schema: string)
    requires Fits(Qualified(catalog, schema))
    ensures RunTexts(Crashes(db, cuts), Recovered(catalog, schema), Qualified(catalog, schema)) == SeededDb(db)
  {
    SampleDataSplits(catalog, schema);
    TextsRun(Crashes(db, cuts), PROGRAM, Qualified(catalog, schema));
    SeedingSurvivesCrashes(db, cuts);
  }
}
