/** What the seed script recovers from the sample-data file, for any catalog and schema name. */
module SampleDataSplit {
  import opened Sequences
  import opened Seed
  import opened SampleData
  import opened SampleDataLines

  lemma OriginAscii()
    ensures Ascii(ORIGIN) && ORIGIN[0] == '-' && ORIGIN[1] == '-'
  {
  }

  lemma PurposeAscii()
    ensures Ascii(PURPOSE) && PURPOSE != "" && PURPOSE[|PURPOSE| - 1] == '.'
  {
  }

  lemma CommentSkipped()
    ensures OneLine(COMMENT) && Skipped(COMMENT)
  {
    OriginAscii();
    PurposeAscii();
    CommentLine(ORIGIN, PURPOSE);
  }

  lemma CommentLine(a: string, b: string)
    requires Ascii(a) && |a| > 1 && a[0] == '-' && a[1] == '-' && Ascii(b) && b != "" && b[|b| - 1] == '.'
    ensures OneLine(a + " " + b) && Skipped(a + " " + b)
  {
    var line := a + " " + b;
    AsciiOneLine(line);
    assert line[0] == '-' && line[1] == '-' && line[|line| - 1] == '.';
    StripHead(line);
    assert "--" <= line;
  }

  predicate StatementAscii(s: Statement) {
    s.CreateSchema? || TableAscii(s.table)
  }

  predicate ProgramAscii(program: seq<Statement>) {
    forall k | 0 <= k < |program| :: StatementAscii(program[k])
  }

  lemma SeedAscii()
    ensures ProgramAscii(PROGRAM)
  {
    OrdersAscii();
    InvoicesAscii();
  }

  // --- The file with every line cut at its line feeds ---

  function ExpandAll(blocks: seq<seq<string>>): seq<seq<string>> {
    if blocks == [] then [] else [Expand(blocks[0])] + ExpandAll(blocks[1..])
  }

  lemma {:induction false} LayoutExpand(blocks: seq<seq<string>>)
    ensures Unlines(Layout(ExpandAll(blocks))) == Unlines(Layout(blocks))
  {
    if blocks != [] {
      var rest := Layout(ExpandAll(blocks[1..]));
      LayoutExpand(blocks[1..]);
      UnlinesAppend(Expand(blocks[0]) + [";"], rest);
      UnlinesAppend(Expand(blocks[0]), [";"]);
      UnlinesAppend(blocks[0] + [";"], Layout(blocks[1..]));
      UnlinesAppend(blocks[0], [";"]);
      UnlinesExpand(blocks[0]);
      assert ExpandAll(blocks)[1..] == ExpandAll(blocks[1..]);
    }
  }

  lemma SameFile(comment: string, blocks: seq<seq<string>>)
    ensures SeedFile(comment, ExpandAll(blocks)) == SeedFile(comment, blocks)
  {
    LayoutExpand(blocks);
    UnlinesAppend([comment], Layout(blocks));
    UnlinesAppend([comment], Layout(ExpandAll(blocks)));
  }

  lemma {:induction false} JoinedExpand(program: seq<Statement>, fq: string)
    ensures Joined(ExpandAll(Blocks(program, fq))) == TextsOf(program, fq)
  {
    if program != [] {
      assert Blocks(program, fq)[1..] == Blocks(program[1..], fq);
      assert ExpandAll(Blocks(program, fq))[1..] == ExpandAll(Blocks(program[1..], fq));
      JoinExpand(StatementLines(program[0], fq));
      JoinedExpand(program[1..], fq);
    }
  }

  // --- Names that fit ---

  lemma SoundIsBlock(lines: seq<string>)
    requires Sound(lines)
    ensures Block(lines)
  {
  }

  lemma StatementBlock(s: Statement, fq: string)
    requires StatementAscii(s) && Fits(fq)
    ensures Block(Expand(StatementLines(s, fq)))
  {
    match s
    case CreateSchema => SchemaSound(fq); ExpandOne(SchemaLine(fq));
    case CreateTable(t) => CreateSound(t, fq);
    case Insert(t) => InsertSound(t, fq);
    SoundIsBlock(Expand(StatementLines(s, fq)));
  }

  lemma {:induction false} BlocksPlain(program: seq<Statement>, fq: string)
    requires ProgramAscii(program) && Fits(fq)
    ensures AllBlocks(ExpandAll(Blocks(program, fq)))
  {
    if program != [] {
      StatementBlock(program[0], fq);
      BlocksPlain(program[1..], fq);
      assert Blocks(program, fq)[1..] == Blocks(program[1..], fq);
      MoreBlocks(Expand(StatementLines(program[0], fq)), ExpandAll(Blocks(program[1..], fq)));
    }
  }

  predicate AllBlocks(blocks: seq<seq<string>>) {
    forall k | 0 <= k < |blocks| :: Block(blocks[k])
  }

  lemma MoreBlocks(block: seq<string>, blocks: seq<seq<string>>)
    requires Block(block) && AllBlocks(blocks)
    ensures AllBlocks([block] + blocks)
  {
  }

  lemma {:induction false} FileRecovered(fq: string, program: seq<Statement>, comment: string)
    requires ProgramAscii(program) && Fits(fq) && OneLine(comment) && Skipped(comment)
    ensures Statements(SplitLines(SeedFile(comment, Blocks(program, fq))), []) == TextsOf(program, fq)
  {
    var blocks := ExpandAll(Blocks(program, fq));
    BlocksPlain(program, fq);
    SameFile(comment, Blocks(program, fq));
    SplitterRoundTrip(comment, blocks);
    JoinedExpand(program, fq);
  }

  // --- Names that do not ---

  predicate AllClean(lines: seq<string>) {
    forall i | 0 <= i < |lines| :: NewlinesOnly(lines[i])
  }

  lemma {:induction false} ExpandOneLine(lines: seq<string>)
    requires AllClean(lines)
    ensures AllOneLine(Expand(lines))
  {
    if lines != [] {
      PiecesOneLine(lines[0]);
      ExpandOneLine(lines[1..]);
    }
  }

  lemma OneLineClean(s: string)
    requires OneLine(s)
    ensures NewlinesOnly(s)
  {
  }

  lemma CleanAppend(a: string, b: string)
    requires NewlinesOnly(a) && NewlinesOnly(b)
    ensures NewlinesOnly(a + b)
  {
  }

  lemma NamedClean(before: string, fq: string, after: string)
    requires Ascii(before) && NewlinesOnly(fq) && Ascii(after)
    ensures NewlinesOnly(before + fq + after)
  {
    AsciiOneLine(before);
    AsciiOneLine(after);
    CleanAppend(before, fq);
    CleanAppend(before + fq, after);
  }

  lemma CreateClean(t: Table, fq: string)
    requires TableAscii(t) && NewlinesOnly(fq)
    ensures AllClean(StatementLines(CreateTable(t), fq))
  {
    CreateWords();
    var after := "." + t.name + " (";
    NamedClean(CREATE, fq, after);
    assert CREATE + fq + after == CreateHead(t, fq);
    ItemsPlain(t);
    FixedPlain();
  }

  lemma InsertHeadClean(t: Table, fq: string)
    requires TableAscii(t) && NewlinesOnly(fq)
    ensures NewlinesOnly(InsertHead(t, fq)) && NewlinesOnly(InsertTail(t, fq))
  {
    InsertWords();
    WhereWords();
    ItemsPlain(t);
    var after, after' := "." + t.name + " (" + JoinComma(ColumnNames(t)) + ")", "." + t.name + " LIMIT 1)";
    NamedClean(INSERT, fq, after);
    NamedClean(WHERE, fq, after');
    assert INSERT + fq + after == InsertHead(t, fq) && WHERE + fq + after' == InsertTail(t, fq);
  }

  lemma InsertClean(t: Table, fq: string)
    requires TableAscii(t) && NewlinesOnly(fq)
    ensures AllClean(StatementLines(Insert(t), fq))
  {
    InsertHeadClean(t, fq);
    InsertAliasPlain(t);
    ItemsPlain(t);
    FixedPlain();
    FiveClean(InsertHead(t, fq), VALUES, ListLines(RowItems(t)), InsertAlias(t), InsertTail(t, fq));
  }

  lemma FiveClean(a: string, b: string, lines: seq<string>, c: string, d: string)
    requires NewlinesOnly(a) && Plain(b) && AllPlain(lines) && Plain(c) && NewlinesOnly(d)
    ensures AllClean([a, b] + lines + [c, d])
  {
  }

  lemma StatementClean(s: Statement, fq: string)
    requires StatementAscii(s) && NewlinesOnly(fq)
    ensures AllClean(StatementLines(s, fq))
  {
    match s
    case CreateSchema =>
      SchemaWords();
      AsciiOneLine(SCHEMA);
      CleanAppend(SCHEMA, fq);
    case CreateTable(t) => CreateClean(t, fq);
    case Insert(t) => InsertClean(t, fq);
  }

  lemma {:induction false} LayoutClean(program: seq<Statement>, fq: string)
    requires ProgramAscii(program) && NewlinesOnly(fq)
    ensures AllOneLine(Layout(ExpandAll(Blocks(program, fq))))
  {
    if program != [] {
      StatementClean(program[0], fq);
      ExpandOneLine(StatementLines(program[0], fq));
      LayoutClean(program[1..], fq);
      SemicolonCloses();
      assert Blocks(program, fq)[1..] == Blocks(program[1..], fq);
      assert ExpandAll(Blocks(program, fq))[1..] == ExpandAll(Blocks(program[1..], fq));
    }
  }

  /** The lines the script sees: those of the schema statement, its semicolon, and the rest. */
  lemma {:induction false} FileLines(fq: string, program: seq<Statement>, comment: string)
    requires OneLine(comment) && Skipped(comment) && NewlinesOnly(fq)
    requires program != [] && program[0] == CreateSchema && ProgramAscii(program)
    ensures var rest := Layout(ExpandAll(Blocks(program[1..], fq)));
            Statements(SplitLines(SeedFile(comment, Blocks(program, fq))), [])
            == Statements(Pieces(SchemaLine(fq)) + ([";"] + rest), [])
  {
    var blocks := ExpandAll(Blocks(program, fq));
    SameFile(comment, Blocks(program, fq));
    LayoutClean(program, fq);
    FileSplits(comment, Layout(blocks));
    Seed.CommentSkipped(comment, Layout(blocks));
    ExpandOne(SchemaLine(fq));
    assert Blocks(program, fq)[1..] == Blocks(program[1..], fq);
    assert blocks[1..] == ExpandAll(Blocks(program[1..], fq));
    LayoutFirst(blocks);
  }

  lemma LayoutFirst(blocks: seq<seq<string>>)
    requires blocks != []
    ensures Layout(blocks) == blocks[0] + ([";"] + Layout(blocks[1..]))
  {
  }

  /** A name without other line breaks fits exactly when its lines in the schema statement are
      kept and its text ends open. */
  lemma FitsExact(fq: string)
    requires NewlinesOnly(fq) && fq != ""
    ensures var ps := Pieces(SchemaLine(fq));
            Fits(fq) <==> !Closes(ps[0]) && AllKept(ps[1..]) && EndsOpen(SchemaLine(fq))
  {
    SchemaWords();
    NameLast(SCHEMA, fq);
    LastPiece(fq);
    FitsPieces(fq, Pieces(fq), Front(fq), Pieces(SchemaLine(fq)));
  }

  lemma FitsPieces(fq: string, qs: seq<string>, front: string, ps: seq<string>)
    requires fq != "" && qs != [] && ps == [SCHEMA + qs[0]] + qs[1..] && (Closes(ps[0]) <==> Closes(qs[0]))
    requires fq == front + qs[|qs| - 1] && (|qs| == 1 ==> qs == [fq])
    ensures Ends(fq) && !Closes(qs[0]) && AllKept(qs[1..])
            <==> !Closes(ps[0]) && AllKept(ps[1..]) && EndsOpen(SchemaLine(fq))
  {
    assert ps[1..] == qs[1..];
    EndSame(SCHEMA, fq);
    if fq[|fq| - 1] == ';' {
      EndCloses(qs, front, fq);
    }
  }

  lemma EndSame(before: string, fq: string)
    requires fq != ""
    ensures (before + fq)[|before + fq| - 1] == fq[|fq| - 1]
  {
  }

  /** A semicolon at the end of the name is at the end of its last line, and closes it. */
  lemma EndCloses(qs: seq<string>, front: string, fq: string)
    requires qs != [] && fq != "" && fq[|fq| - 1] == ';' && (|qs| == 1 ==> qs == [fq])
    requires fq == front + qs[|qs| - 1]
    ensures Closes(qs[0]) || !AllKept(qs[1..])
  {
    LastEnds(qs[|qs| - 1], front, fq);
    LastClosed(qs);
  }

  lemma LastEnds(last: string, front: string, fq: string)
    requires fq != "" && fq[|fq| - 1] == ';' && fq == front + last
    ensures if last == "" then Skipped(last) else Closes(last)
  {
    ClosedEnd(last);
    assert last != "" ==> last[|last| - 1] == fq[|fq| - 1];
  }

  lemma LastClosed(qs: seq<string>)
    requires qs != [] && (Closes(qs[|qs| - 1]) || (|qs| > 1 && Skipped(qs[|qs| - 1])))
    ensures Closes(qs[0]) || !AllKept(qs[1..])
  {
    assert |qs| > 1 ==> qs[1..][|qs| - 2] == qs[|qs| - 1];
  }

  lemma ClosedEnd(last: string)
    ensures last == "" ==> Skipped(last)
    ensures last != "" && last[|last| - 1] == ';' ==> Closes(last)
  {
    ClosesAtEnd(last);
  }

  lemma {:induction false} FirstText(fq: string, program: seq<Statement>)
    requires program != [] && program[0] == CreateSchema
    ensures TextsOf(program, fq) != [] && TextsOf(program, fq)[0] == SchemaLine(fq)
  {
  }

  /** A name that does not fit is not recovered: the first statement is another one. */
  lemma {:induction false} FileLost(fq: string, program: seq<Statement>, comment: string)
    requires OneLine(comment) && Skipped(comment) && fq != "" && !Fits(fq)
    requires program != [] && program[0] == CreateSchema && ProgramAscii(program)
    ensures var st := Statements(SplitLines(SeedFile(comment, Blocks(program, fq))), []);
            st == [] || st[0] != TextsOf(program, fq)[0]
  {
    FirstText(fq, program);
    if NewlinesOnly(fq) {
      var rest := Layout(ExpandAll(Blocks(program[1..], fq)));
      FileLines(fq, program, comment);
      SchemaWords();
      NameLast(SCHEMA, fq);
      FitsExact(fq);
      BlockFirst(Pieces(SchemaLine(fq)), rest);
    } else {
      var file := SeedFile(comment, Blocks(program, fq));
      SplitOneLine(file);
      StatementsClean(SplitLines(file), []);
      DirtyName(fq);
    }
  }

  lemma DirtyName(fq: string)
    requires !NewlinesOnly(fq)
    ensures !NewlinesOnly(SchemaLine(fq))
  {
    var i :| 0 <= i < |fq| && LineBreak(fq[i]) && fq[i] != '\n';
    assert SchemaLine(fq)[|SCHEMA| + i] == fq[i];
  }

  /** The seed script recovers exactly the five statements of the file if and only if the
      qualified schema name fits, for all catalog and schema names. */
  lemma SampleDataSplits(catalog: string, schema: string)
    ensures Recovered(catalog, schema) == TextsOf(PROGRAM, Qualified(catalog, schema))
            <==> Fits(Qualified(catalog, schema))
  {
    var fq := Qualified(catalog, schema);
    SeedAscii();
    CommentSkipped();
    if Fits(fq) {
      FileRecovered(fq, PROGRAM, COMMENT);
    } else {
      FileLost(fq, PROGRAM, COMMENT);
    }
  }

  /** Otherwise the schema statement itself is another one. */
  lemma SchemaLost(catalog: string, schema: string)
    requires !Fits(Qualified(catalog, schema))
    ensures var texts := TextsOf(PROGRAM, Qualified(catalog, schema));
            texts != [] && (Recovered(catalog, schema) == [] || Recovered(catalog, schema)[0] != texts[0])
  {
    SeedAscii();
    CommentSkipped();
    FirstText(Qualified(catalog, schema), PROGRAM);
    FileLost(Qualified(catalog, schema), PROGRAM, COMMENT);
  }

  /** For names of one line, only the end of the schema name matters. */
  lemma OneLineFits(catalog: string, schema: string)
    requires OneLine(catalog) && OneLine(schema)
    ensures Fits(Qualified(catalog, schema)) <==> schema == "" || Ends(schema)
  {
    var fq := Qualified(catalog, schema);
    OneLineAppend(catalog, ".");
    OneLineAppend(catalog + ".", schema);
    PiecesOne(fq);
    assert fq[|fq| - 1] == if schema == "" then '.' else schema[|schema| - 1];
    ClosesAtEnd(fq);
    assert Ends(fq) ==> Rstrip(fq) == fq;
  }

  /** A semicolon at the end of the schema name is lost: the script creates another schema
      than the one the later statements write to. */
  lemma SemicolonLost(catalog: string, schema: string)
    requires OneLine(catalog) && OneLine(schema) && Ends(schema)
    ensures Recovered(catalog, schema + ";") != []
    ensures Recovered(catalog, schema + ";")[0] == TextOf(CreateSchema, Qualified(catalog, schema))
  {
    var fq := Qualified(catalog, schema);
    assert Qualified(catalog, schema + ";") == fq + ";";
    OneLineAppend(catalog, ".");
    OneLineAppend(catalog + ".", schema);
    OneLineAppend(fq, ";");
    assert fq[|fq| - 1] == schema[|schema| - 1];
    SeedAscii();
    CommentSkipped();
    FileEaten(fq, PROGRAM, COMMENT);
  }

  lemma {:induction false} FileEaten(fq: string, program: seq<Statement>, comment: string)
    requires OneLine(comment) && Skipped(comment) && OneLine(fq) && OneLine(fq + ";") && Ends(fq)
    requires program != [] && program[0] == CreateSchema && ProgramAscii(program)
    ensures var st := Statements(SplitLines(SeedFile(comment, Blocks(program, fq + ";"))), []);
            st != [] && st[0] == TextOf(CreateSchema, fq)
  {
    OneLineClean(fq + ";");
    FileLines(fq + ";", program, comment);
    SchemaEaten(fq, Layout(ExpandAll(Blocks(program[1..], fq + ";"))));
  }

  lemma SchemaEaten(fq: string, rest: seq<string>)
    requires OneLine(fq) && OneLine(fq + ";") && Ends(fq)
    ensures var st := Statements(Pieces(SchemaLine(fq + ";")) + ([";"] + rest), []);
            st != [] && st[0] == TextOf(CreateSchema, fq)
  {
    SchemaWords();
    AsciiOneLine(SCHEMA);
    OneLineAppend(SCHEMA, fq + ";");
    PiecesOne(SchemaLine(fq + ";"));
    assert SchemaLine(fq + ";") == SchemaLine(fq) + ";";
    assert SchemaLine(fq)[0] == SCHEMA[0] && SchemaLine(fq)[|SchemaLine(fq)| - 1] == fq[|fq| - 1];
    assert [SchemaLine(fq) + ";"] + ([";"] + rest) == [SchemaLine(fq) + ";", ";"] + rest;
    SemicolonEaten(SchemaLine(fq), rest);
  }
}
