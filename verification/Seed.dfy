/** The statement splitter of the seed script: it cuts a SQL file into statements by lines. */
module Seed {

  // --- Python's line and white-space rules ---

  predicate LineBreak(c: char) {
    c as int in {0x0a, 0x0b, 0x0c, 0x0d, 0x1c, 0x1d, 0x1e, 0x85, 0x2028, 0x2029}
  }

  predicate Space(c: char) {
    || LineBreak(c)
    || c as int in {0x09, 0x1f, 0x20, 0xa0, 0x1680, 0x202f, 0x205f, 0x3000}
    || 0x2000 <= c as int <= 0x200a
  }

  function FirstBreak(t: string): (n: nat)
    ensures n <= |t|
    ensures forall i | 0 <= i < n :: !LineBreak(t[i])
    ensures n < |t| ==> LineBreak(t[n])
  {
    if t == "" || LineBreak(t[0]) then 0 else 1 + FirstBreak(t[1..])
  }

  /** `splitlines`: a carriage return and line feed count as one break. */
  function SplitLines(t: string): seq<string>
    decreases |t|
  {
    if t == "" then []
    else
      var n := FirstBreak(t);
      if n == |t| then [t]
      else if t[n] == '\r' && n + 1 < |t| && t[n + 1] == '\n' then [t[..n]] + SplitLines(t[n + 2..])
      else [t[..n]] + SplitLines(t[n + 1..])
  }

  function Lstrip(s: string): string {
    if s != "" && Space(s[0]) then Lstrip(s[1..]) else s
  }

  function Rstrip(s: string): string {
    if s != "" && Space(s[|s| - 1]) then Rstrip(s[..|s| - 1]) else s
  }

  function Strip(s: string): string {
    Rstrip(Lstrip(s))
  }

  function RstripSemicolons(s: string): string {
    if s != "" && s[|s| - 1] == ';' then RstripSemicolons(s[..|s| - 1]) else s
  }

  function JoinLines(lines: seq<string>): string {
    if lines == [] then ""
    else if |lines| == 1 then lines[0]
    else JoinLines(lines[..|lines| - 1]) + "\n" + lines[|lines| - 1]
  }

  // --- The splitter ---

  predicate Skipped(line: string) {
    Strip(line) == "" || "--" <= Strip(line)
  }

  predicate Closes(line: string) {
    var s := Strip(line);
    s != "" && s[|s| - 1] == ';'
  }

  function Close(buf: seq<string>): string {
    Strip(RstripSemicolons(Rstrip(JoinLines(buf))))
  }

  function NonEmpty(statement: string): seq<string> {
    if statement == "" then [] else [statement]
  }

  function Statements(lines: seq<string>, buf: seq<string>): seq<string> {
    if lines == [] then
      if buf == [] then [] else NonEmpty(Strip(JoinLines(buf)))
    else
      var line, rest := lines[0], lines[1..];
      if Skipped(line) then Statements(rest, buf)
      else if Closes(line) then NonEmpty(Close(buf + [line])) + Statements(rest, [])
      else Statements(rest, buf + [line])
  }

  method SplitStatements(raw: string) returns (statements: seq<string>)
    ensures statements == Statements(SplitLines(raw), [])
  {
    var lines := SplitLines(raw);
    statements := [];
    var buf: seq<string> := [];
    for i := 0 to |lines|
      invariant statements + Statements(lines[i..], buf) == Statements(lines, [])
    {
      var line := lines[i];
      assert lines[i..][0] == line && lines[i..][1..] == lines[i + 1..];
      if !Skipped(line) {
        buf := buf + [line];
        if Closes(line) {
          statements := statements + NonEmpty(Close(buf));
          buf := [];
        }
      }
    }
    assert lines[|lines|..] == [];
    if buf != [] {
      statements := statements + NonEmpty(Strip(JoinLines(buf)));
    }
  }

  // --- The file the operator writes: a comment, then each statement and a lone ";" ---

  function Unlines(lines: seq<string>): string {
    if lines == [] then "" else lines[0] + "\n" + Unlines(lines[1..])
  }

  function Layout(blocks: seq<seq<string>>): seq<string> {
    if blocks == [] then [] else blocks[0] + [";"] + Layout(blocks[1..])
  }

  function SeedFile(comment: string, blocks: seq<seq<string>>): string {
    Unlines([comment] + Layout(blocks))
  }

  predicate OneLine(line: string) {
    forall i | 0 <= i < |line| :: !LineBreak(line[i])
  }

  /** A line of a statement: not blank, no comment, and no semicolon at its end. */
  predicate Plain(line: string) {
    OneLine(line) && !Skipped(line) && !Closes(line)
  }

  predicate Block(lines: seq<string>) {
    && lines != [] && (forall i | 0 <= i < |lines| :: Plain(lines[i]))
    && lines[0] != "" && !Space(lines[0][0])
    && var last := lines[|lines| - 1]; last != "" && !Space(last[|last| - 1])
  }

  lemma {:induction false} SplitUnlines(lines: seq<string>)
    requires forall i | 0 <= i < |lines| :: OneLine(lines[i])
    ensures SplitLines(Unlines(lines)) == lines
  {
    if lines != [] {
      SplitUnlines(lines[1..]);
      FirstLine(lines[0], Unlines(lines[1..]));
    }
  }

  lemma FirstLine(line: string, rest: string)
    requires OneLine(line)
    ensures SplitLines(line + "\n" + rest) == [line] + SplitLines(rest)
  {
    var t := line + "\n" + rest;
    assert forall i | 0 <= i < |line| :: t[i] == line[i];
    assert t[|line|] == '\n' && LineBreak('\n');
    assert FirstBreak(t) == |line|;
    assert t[..|line|] == line && t[|line| + 1..] == rest;
  }

  lemma {:induction false} Buffered(block: seq<string>, rest: seq<string>, buf: seq<string>)
    requires forall i | 0 <= i < |block| :: Plain(block[i])
    ensures Statements(block + rest, buf) == Statements(rest, buf + block)
  {
    if block == [] {
      assert block + rest == rest && buf + block == buf;
    } else {
      assert (block + rest)[1..] == block[1..] + rest;
      assert buf + [block[0]] + block[1..] == buf + block;
      Buffered(block[1..], rest, buf + [block[0]]);
    }
  }

  lemma {:induction false} JoinEnds(lines: seq<string>)
    requires lines != [] && lines[0] != "" && lines[|lines| - 1] != ""
    ensures var j := JoinLines(lines);
            var last := lines[|lines| - 1];
            j != "" && j[0] == lines[0][0] && j[|j| - 1] == last[|last| - 1]
    decreases |lines|
  {
    if |lines| > 1 {
      JoinStarts(lines[..|lines| - 1]);
    }
  }

  lemma {:induction false} JoinStarts(lines: seq<string>)
    requires lines != [] && lines[0] != ""
    ensures JoinLines(lines) != "" && JoinLines(lines)[0] == lines[0][0]
  {
    if |lines| > 1 {
      JoinStarts(lines[..|lines| - 1]);
    }
  }

  lemma CloseBlock(block: seq<string>)
    requires Block(block)
    ensures Close(block + [";"]) == JoinLines(block) != ""
  {
    var j := JoinLines(block);
    JoinEnds(block);
    assert (block + [";"])[..|block|] == block;
    var full := JoinLines(block + [";"]);
    assert full == j + "\n" + ";";
    assert Rstrip(full) == full;
    var open := j + "\n";
    assert full[..|full| - 1] == open && open[|open| - 1] == '\n';
    assert RstripSemicolons(full) == open;
    assert Lstrip(open) == open;
    assert open[..|open| - 1] == j;
    assert Rstrip(open) == Rstrip(j) == j;
  }

  lemma SemicolonCloses()
    ensures !Skipped(";") && Closes(";") && OneLine(";")
  {
    assert Lstrip(";") == ";" && Rstrip(";") == ";";
  }

  function Joined(blocks: seq<seq<string>>): seq<string> {
    if blocks == [] then [] else [JoinLines(blocks[0])] + Joined(blocks[1..])
  }

  lemma {:induction false} LayoutSplits(blocks: seq<seq<string>>)
    requires forall i | 0 <= i < |blocks| :: Block(blocks[i])
    ensures Statements(Layout(blocks), []) == Joined(blocks)
  {
    if blocks != [] {
      var block, rest := blocks[0], Layout(blocks[1..]);
      assert Layout(blocks) == block + ([";"] + rest);
      Buffered(block, [";"] + rest, []);
      assert [] + block == block;
      assert ([";"] + rest)[1..] == rest;
      SemicolonCloses();
      CloseBlock(block);
      LayoutSplits(blocks[1..]);
    }
  }

  lemma {:induction false} LayoutOneLine(blocks: seq<seq<string>>)
    requires forall i | 0 <= i < |blocks| :: Block(blocks[i])
    ensures forall i | 0 <= i < |Layout(blocks)| :: OneLine(Layout(blocks)[i])
  {
    if blocks != [] {
      LayoutOneLine(blocks[1..]);
      SemicolonCloses();
      assert forall i | 0 <= i < |blocks[0]| :: Plain(blocks[0][i]);
    }
  }

  lemma FileSplits(comment: string, lines: seq<string>)
    requires OneLine(comment) && forall i | 0 <= i < |lines| :: OneLine(lines[i])
    ensures SplitLines(Unlines([comment] + lines)) == [comment] + lines
  {
    var all := [comment] + lines;
    forall i | 0 <= i < |all|
      ensures OneLine(all[i])
    {
      assert i > 0 ==> all[i] == lines[i - 1];
    }
    SplitUnlines(all);
  }

  lemma CommentSkipped(comment: string, lines: seq<string>)
    requires Skipped(comment)
    ensures Statements([comment] + lines, []) == Statements(lines, [])
  {
    assert ([comment] + lines)[1..] == lines;
  }

  /** The splitter recovers exactly the statements the operator laid out, for every list of
      statements over several lines and every comment line before them. */
  lemma SplitterRoundTrip(comment: string, blocks: seq<seq<string>>)
    requires OneLine(comment) && Skipped(comment)
    requires forall i | 0 <= i < |blocks| :: Block(blocks[i])
    ensures Statements(SplitLines(SeedFile(comment, blocks)), []) == Joined(blocks)
  {
    var lines := Layout(blocks);
    LayoutOneLine(blocks);
    FileSplits(comment, lines);
    CommentSkipped(comment, lines);
    LayoutSplits(blocks);
  }

  // --- How lines begin and end ---

  predicate Begins(s: string) {
    s != "" && !Space(s[0]) && s[0] != '-' && s[0] != ';'
  }

  predicate Ends(s: string) {
    s != "" && !Space(s[|s| - 1]) && s[|s| - 1] != ';'
  }

  lemma {:induction false} RstripHead(s: string)
    requires s != "" && !Space(s[0])
    ensures Rstrip(s) != "" && Rstrip(s) <= s
    ensures Space(s[|s| - 1]) ==> |Rstrip(s)| < |s|
    ensures !Space(s[|s| - 1]) ==> Rstrip(s) == s
  {
    if Space(s[|s| - 1]) {
      RstripHead(s[..|s| - 1]);
    }
  }

  lemma {:induction false} SemicolonsHead(s: string)
    requires s != "" && s[0] != ';'
    ensures RstripSemicolons(s) != "" && RstripSemicolons(s) <= s
    ensures s[|s| - 1] == ';' ==> |RstripSemicolons(s)| < |s|
  {
    if s[|s| - 1] == ';' {
      SemicolonsHead(s[..|s| - 1]);
    }
  }

  lemma StripHead(s: string)
    requires s != "" && !Space(s[0])
    ensures Strip(s) == Rstrip(s) && Strip(s) != "" && Strip(s) <= s
    ensures Space(s[|s| - 1]) ==> |Strip(s)| < |s|
    ensures !Space(s[|s| - 1]) ==> Strip(s) == s
  {
    assert Lstrip(s) == s;
    RstripHead(s);
  }

  lemma PlainLine(line: string)
    requires OneLine(line) && Begins(line) && Ends(line)
    ensures Plain(line)
  {
    StripHead(line);
  }

  /** A semicolon at the end of a one-line statement is eaten with the one that closes it. */
  lemma SemicolonEaten(line: string, rest: seq<string>)
    requires Begins(line) && Ends(line)
    ensures var statements := Statements([line + ";", ";"] + rest, []);
            statements != [] && statements[0] == line
  {
    var closed := line + ";";
    var lines := [closed, ";"] + rest;
    assert [] + [closed] == [closed];
    StripHead(closed);
    assert closed[..|line|] == line;
    assert RstripSemicolons(closed) == line;
    StripHead(line);
    assert Close([closed]) == line;
  }

  // --- Lines that contain line feeds themselves ---

  /** No line break other than the line feed. */
  predicate NewlinesOnly(s: string) {
    forall i | 0 <= i < |s| :: LineBreak(s[i]) ==> s[i] == '\n'
  }

  /** Cut at every line feed; never empty. */
  function Pieces(s: string): (ps: seq<string>)
    ensures ps != []
  {
    if s == "" then [""]
    else
      var rest := Pieces(s[1..]);
      if s[0] == '\n' then [""] + rest else [[s[0]] + rest[0]] + rest[1..]
  }

  /** Every line replaced by its pieces. */
  function Expand(lines: seq<string>): seq<string> {
    if lines == [] then [] else Pieces(lines[0]) + Expand(lines[1..])
  }

  lemma {:induction false} UnlinesAppend(a: seq<string>, b: seq<string>)
    ensures Unlines(a + b) == Unlines(a) + Unlines(b)
  {
    if a == [] {
      assert a + b == b;
    } else {
      assert (a + b)[1..] == a[1..] + b;
      UnlinesAppend(a[1..], b);
    }
  }

  lemma {:induction false} UnlinesPieces(s: string)
    ensures Unlines(Pieces(s)) == s + "\n"
  {
    if s == "" {
      assert [""][1..] == [];
    } else {
      UnlinesPieces(s[1..]);
      UnlinesStep(s[0], s[1..], Pieces(s[1..]));
    }
  }

  lemma UnlinesStep(c: char, s: string, rest: seq<string>)
    requires rest != [] && Unlines(rest) == s + "\n"
    ensures Unlines([""] + rest) == "\n" + (s + "\n")
    ensures Unlines([[c] + rest[0]] + rest[1..]) == [c] + s + "\n"
  {
    UnlinesHead([c], rest[0], rest[1..]);
    assert [rest[0]] + rest[1..] == rest;
    assert [c] + (s + "\n") == [c] + s + "\n";
    EmptyFirst(rest);
  }

  lemma EmptyFirst(rest: seq<string>)
    ensures Unlines([""] + rest) == "\n" + Unlines(rest)
  {
    assert ([""] + rest)[1..] == rest;
  }

  lemma UnlinesHead(head: string, first: string, tail: seq<string>)
    ensures Unlines([head + first] + tail) == head + Unlines([first] + tail)
  {
    assert ([head + first] + tail)[1..] == tail && ([first] + tail)[1..] == tail;
  }

  lemma {:induction false} UnlinesExpand(lines: seq<string>)
    ensures Unlines(Expand(lines)) == Unlines(lines)
  {
    if lines != [] {
      UnlinesAppend(Pieces(lines[0]), Expand(lines[1..]));
      UnlinesPieces(lines[0]);
      UnlinesExpand(lines[1..]);
    }
  }

  lemma {:induction false} JoinIsUnlines(lines: seq<string>)
    requires lines != []
    ensures Unlines(lines) == JoinLines(lines) + "\n"
  {
    var n := |lines| - 1;
    var init, last := lines[..n], lines[n];
    assert lines == init + [last];
    UnlinesAppend(init, [last]);
    assert [last][1..] == [];
    if n > 0 {
      JoinIsUnlines(init);
    }
  }

  /** Cutting lines at their line feeds does not change the text they join to. */
  lemma JoinExpand(lines: seq<string>)
    requires lines != []
    ensures Expand(lines) != [] && JoinLines(Expand(lines)) == JoinLines(lines)
  {
    UnlinesExpand(lines);
    JoinIsUnlines(lines);
    JoinIsUnlines(Expand(lines));
    var a, b := JoinLines(Expand(lines)), JoinLines(lines);
    assert a == (a + "\n")[..|a|] && b == (b + "\n")[..|b|];
  }

  lemma {:induction false} PiecesOneLine(s: string)
    requires NewlinesOnly(s)
    ensures forall k | 0 <= k < |Pieces(s)| :: OneLine(Pieces(s)[k])
  {
    if s != "" {
      PiecesOneLine(s[1..]);
      var rest := Pieces(s[1..]);
      assert OneLine(rest[0]);
      assert s[0] != '\n' ==> !LineBreak(s[0]);
    }
  }

  /** Text without a line feed in front stays with the first piece, and behind with the last. */
  lemma {:induction false} PiecesBefore(before: string, s: string)
    requires OneLine(before)
    ensures Pieces(before + s) == [before + Pieces(s)[0]] + Pieces(s)[1..]
  {
    if before == "" {
      assert before + s == s && before + Pieces(s)[0] == Pieces(s)[0];
    } else {
      PiecesBefore(before[1..], s);
      assert (before + s)[1..] == before[1..] + s && (before + s)[0] == before[0] != '\n';
      assert [before[0]] + (before[1..] + Pieces(s)[0]) == before + Pieces(s)[0];
    }
  }

  lemma {:induction false} PiecesAfter(s: string, after: string)
    requires OneLine(after)
    ensures Pieces(s + after) == LastExtended(Pieces(s), after)
  {
    if s == "" {
      PiecesOne(after);
      assert s + after == after;
    } else {
      PiecesAfter(s[1..], after);
      assert (s + after)[1..] == s[1..] + after;
      HeadedExtended(s[0], Pieces(s[1..]), after);
    }
  }

  /** The text put behind the last piece. */
  function LastExtended(ps: seq<string>, after: string): seq<string>
    requires ps != []
  {
    ps[..|ps| - 1] + [ps[|ps| - 1] + after]
  }

  lemma HeadedExtended(c: char, rest: seq<string>, after: string)
    requires rest != []
    ensures var more := LastExtended(rest, after);
            && [""] + more == LastExtended([""] + rest, after)
            && [[c] + more[0]] + more[1..] == LastExtended([[c] + rest[0]] + rest[1..], after)
  {
    if |rest| == 1 {
      assert [c] + (rest[0] + after) == [c] + rest[0] + after;
    }
  }

  lemma {:induction false} PiecesOne(s: string)
    requires OneLine(s)
    ensures Pieces(s) == [s]
  {
    if s != "" {
      assert s[0] != '\n';
      PiecesOne(s[1..]);
      assert [s[0]] + s[1..] == s;
    }
  }

  // --- What becomes of a statement whose lines are not plain ---

  lemma {:induction false} RstripAppend(a: string, b: string)
    ensures Rstrip(a + b) == if Rstrip(b) == "" then Rstrip(a) else a + Rstrip(b)
  {
    if b == "" {
      assert a + b == a;
    } else {
      assert (a + b)[|a + b| - 1] == b[|b| - 1];
      if Space(b[|b| - 1]) {
        assert (a + b)[..|a + b| - 1] == a + b[..|b| - 1];
        RstripAppend(a, b[..|b| - 1]);
      }
    }
  }

  lemma {:induction false} RstripEnd(s: string)
    ensures Rstrip(s) <= s
    ensures Rstrip(s) != "" ==> !Space(Rstrip(s)[|Rstrip(s)| - 1])
  {
    if s != "" && Space(s[|s| - 1]) {
      RstripEnd(s[..|s| - 1]);
    }
  }

  /** The white space in front. */
  function Lead(s: string): string {
    if s != "" && Space(s[0]) then [s[0]] + Lead(s[1..]) else ""
  }

  lemma {:induction false} LeadSplits(s: string)
    ensures s == Lead(s) + Lstrip(s)
  {
    if s != "" && Space(s[0]) {
      LeadSplits(s[1..]);
      assert s == [s[0]] + s[1..];
      assert [s[0]] + (Lead(s[1..]) + Lstrip(s[1..])) == [s[0]] + Lead(s[1..]) + Lstrip(s[1..]);
    }
  }

  lemma {:induction false} LeadBlank(s: string)
    ensures Rstrip(Lead(s)) == ""
  {
    if s != "" && Space(s[0]) {
      LeadBlank(s[1..]);
      RstripAppend([s[0]], Lead(s[1..]));
      OneSpace(s[0]);
    }
  }

  lemma OneSpace(c: char)
    requires Space(c)
    ensures Rstrip([c]) == ""
  {
    assert [c][..0] == "";
  }

  /** Whether a line closes a statement shows at its end alone. */
  lemma ClosesAtEnd(s: string)
    ensures Closes(s) <==> Rstrip(s) != "" && Rstrip(s)[|Rstrip(s)| - 1] == ';'
    ensures Skipped(s) ==> !Closes(s) || "--" <= Strip(s)
    ensures Strip(s) == "" <==> Rstrip(s) == ""
  {
    LeadSplits(s);
    LeadBlank(s);
    RstripSplit(Lead(s), Lstrip(s), s);
  }

  lemma RstripSplit(blank: string, t: string, s: string)
    requires Rstrip(blank) == "" && s == blank + t
    ensures Rstrip(s) == "" <==> Rstrip(t) == ""
    ensures Rstrip(t) != "" ==> Rstrip(s) != "" && Rstrip(s)[|Rstrip(s)| - 1] == Rstrip(t)[|Rstrip(t)| - 1]
  {
    RstripAppend(blank, t);
  }

  lemma JoinAppend(a: seq<string>, p: string)
    requires a != []
    ensures JoinLines(a + [p]) == JoinLines(a) + "\n" + p
  {
    assert (a + [p])[..|a|] == a;
  }

  lemma JoinLength(a: seq<string>, b: seq<string>)
    requires a != []
    ensures |JoinLines(a + b)| == |JoinLines(a)| + |Unlines(b)|
  {
    JoinIsUnlines(a);
    JoinIsUnlines(a + b);
    UnlinesAppend(a, b);
  }

  /** A line of the buffer that is left out, or comes after, makes the text longer. */
  lemma JoinLonger(a: seq<string>, p: string, b: seq<string>)
    requires a != []
    ensures |JoinLines(a + b)| < |JoinLines(a + ([p] + b))|
    ensures |JoinLines(a + [p])| <= |JoinLines(a + ([p] + b))|
  {
    JoinLength(a, b);
    JoinLength(a, [p] + b);
    JoinLength(a, [p]);
    UnlinesAppend([p], b);
    assert [p][1..] == [];
  }

  predicate Headed(buf: seq<string>) {
    buf != [] && Begins(buf[0])
  }

  lemma HeadedJoin(buf: seq<string>)
    requires Headed(buf)
    ensures Begins(JoinLines(buf))
  {
    JoinStarts(buf);
  }

  lemma CloseAtSemicolon(buf: seq<string>)
    requires Headed(buf)
    ensures Close(buf + [";"]) == Rstrip(JoinLines(buf)) && Close(buf + [";"]) != ""
  {
    HeadedJoin(buf);
    JoinAppend(buf, ";");
    StripSemicolon(JoinLines(buf));
  }

  lemma StripSemicolon(text: string)
    requires Begins(text)
    ensures Strip(RstripSemicolons(Rstrip(text + "\n" + ";"))) == Rstrip(text) != ""
  {
    var open := text + "\n";
    OneSemicolon(open);
    StripHead(open);
    assert open[..|open| - 1] == text && Rstrip(open) == Rstrip(text);
    RstripHead(text);
  }

  lemma OneSemicolon(open: string)
    requires open != "" && open[|open| - 1] == '\n'
    ensures Rstrip(open + ";") == open + ";" && RstripSemicolons(open + ";") == open
  {
    assert (open + ";")[..|open|] == open;
  }

  lemma CloseAtLine(buf: seq<string>, p: string)
    requires Headed(buf + [p]) && Closes(p)
    ensures Close(buf + [p]) != "" && |Close(buf + [p])| < |JoinLines(buf + [p])|
  {
    var text := JoinLines(buf + [p]);
    HeadedJoin(buf + [p]);
    ClosesAtEnd(p);
    if buf == [] {
      assert buf + [p] == [p];
    } else {
      JoinAppend(buf, p);
      RstripAppend(JoinLines(buf) + "\n", p);
    }
    RstripHead(text);
    var kept := Rstrip(text);
    assert kept[|kept| - 1] == ';';
    SemicolonsHead(kept);
    StripHead(RstripSemicolons(kept));
  }

  /** Whether the lines of a statement, after the buffered ones, are all kept to the end. */
  predicate AllKept(ps: seq<string>) {
    forall k | 0 <= k < |ps| :: !Skipped(ps[k]) && !Closes(ps[k])
  }

  predicate EndsOpen(s: string) {
    s != "" && !Space(s[|s| - 1])
  }

  /** The first statement is the whole text if and only if no line is skipped or closes the
      statement early and the text does not end in white space; otherwise it is shorter. */
  ghost predicate FirstIs(statements: seq<string>, ps: seq<string>, text: string) {
    && statements != []
    && if AllKept(ps) && EndsOpen(text) then statements[0] == text else |statements[0]| < |text|
  }

  lemma {:induction false} FirstStatement(buf: seq<string>, ps: seq<string>, rest: seq<string>)
    requires Headed(buf)
    ensures FirstIs(Statements(ps + ([";"] + rest), buf), ps, JoinLines(buf + ps))
    decreases |ps|
  {
    var tail := [";"] + rest;
    if ps == [] {
      assert ps + tail == tail && buf + ps == buf;
      FirstAtEnd(buf, rest);
    } else {
      var p, more := ps[0], ps[1..];
      assert ps == [p] + more && ps + tail == [p] + (more + tail);
      StatementsClose(p, more + tail, buf);
      if Skipped(p) {
        FirstStatement(buf, more, rest);
        FirstSkips(buf, p, more, Statements(more + tail, buf));
      } else if Closes(p) {
        FirstCloses(buf, p, more, Statements(more + tail, []));
      } else {
        FirstStatement(buf + [p], more, rest);
        FirstKept(buf, p, more, Statements(more + tail, buf + [p]));
      }
    }
  }

  lemma FirstKept(buf: seq<string>, p: string, more: seq<string>, statements: seq<string>)
    requires !Skipped(p) && !Closes(p) && FirstIs(statements, more, JoinLines((buf + [p]) + more))
    ensures FirstIs(statements, [p] + more, JoinLines(buf + ([p] + more)))
  {
    assert (buf + [p]) + more == buf + ([p] + more);
    KeptMore(p, more);
  }

  lemma FirstAtEnd(buf: seq<string>, rest: seq<string>)
    requires Headed(buf)
    ensures FirstIs(Statements([";"] + rest, buf), [], JoinLines(buf))
  {
    SemicolonCloses();
    StatementsClose(";", rest, buf);
    CloseAtSemicolon(buf);
    HeadedJoin(buf);
    RstripHead(JoinLines(buf));
  }

  lemma FirstSkips(buf: seq<string>, p: string, more: seq<string>, statements: seq<string>)
    requires Headed(buf) && Skipped(p) && FirstIs(statements, more, JoinLines(buf + more))
    ensures FirstIs(statements, [p] + more, JoinLines(buf + ([p] + more)))
  {
    JoinLonger(buf, p, more);
    assert ([p] + more)[0] == p;
  }

  lemma FirstCloses(buf: seq<string>, p: string, more: seq<string>, later: seq<string>)
    requires Headed(buf) && Closes(p)
    ensures FirstIs(NonEmpty(Close(buf + [p])) + later, [p] + more, JoinLines(buf + ([p] + more)))
  {
    JoinLonger(buf, p, more);
    CloseAtLine(buf, p);
    assert ([p] + more)[0] == p;
  }

  /** One step of the splitter. */
  lemma StatementsClose(p: string, rest: seq<string>, buf: seq<string>)
    ensures Skipped(p) ==> Statements([p] + rest, buf) == Statements(rest, buf)
    ensures !Skipped(p) && Closes(p) ==>
              Statements([p] + rest, buf) == NonEmpty(Close(buf + [p])) + Statements(rest, [])
    ensures !Skipped(p) && !Closes(p) ==> Statements([p] + rest, buf) == Statements(rest, buf + [p])
  {
    assert ([p] + rest)[0] == p && ([p] + rest)[1..] == rest;
  }

  lemma KeptMore(p: string, more: seq<string>)
    requires !Skipped(p) && !Closes(p)
    ensures AllKept([p] + more) <==> AllKept(more)
  {
    assert forall k | 0 <= k < |more| :: ([p] + more)[k + 1] == more[k];
  }

  lemma {:induction false} BlockFirst(ps: seq<string>, rest: seq<string>)
    requires Headed(ps)
    ensures var st, text := Statements(ps + ([";"] + rest), []), JoinLines(ps);
            && st != []
            && if !Closes(ps[0]) && AllKept(ps[1..]) && EndsOpen(text) then st[0] == text else |st[0]| < |text|
  {
    var p, more := ps[0], ps[1..];
    assert ps == [p] + more;
    assert (ps + ([";"] + rest))[1..] == more + ([";"] + rest) && [] + [p] == [p];
    StripHead(p);
    assert !Skipped(p);
    if Closes(p) {
      CloseAtLine([], p);
      JoinLength([p], more);
    } else {
      FirstStatement([p], more, rest);
    }
  }

  // --- A recovered statement has no line break but the line feed ---

  lemma {:induction false} SplitOneLine(t: string)
    ensures forall k | 0 <= k < |SplitLines(t)| :: OneLine(SplitLines(t)[k])
    decreases |t|
  {
    if t != "" {
      var n := FirstBreak(t);
      if n < |t| {
        SplitOneLine(t[n + 1..]);
        if t[n] == '\r' && n + 1 < |t| && t[n + 1] == '\n' {
          SplitOneLine(t[n + 2..]);
        }
      }
    }
  }

  lemma {:induction false} JoinClean(lines: seq<string>)
    requires forall k | 0 <= k < |lines| :: OneLine(lines[k])
    ensures NewlinesOnly(JoinLines(lines))
  {
    if |lines| > 1 {
      JoinClean(lines[..|lines| - 1]);
    }
  }

  lemma {:induction false} SemicolonsPrefix(s: string)
    ensures RstripSemicolons(s) <= s
  {
    if s != "" && s[|s| - 1] == ';' {
      SemicolonsPrefix(s[..|s| - 1]);
    }
  }

  lemma StripClean(s: string)
    requires NewlinesOnly(s)
    ensures NewlinesOnly(Strip(s)) && NewlinesOnly(RstripSemicolons(s)) && NewlinesOnly(Rstrip(s))
  {
    LeadSplits(s);
    TailClean(Lead(s), Lstrip(s));
    RstripEnd(Lstrip(s));
    HeadClean(Rstrip(Lstrip(s)), Lstrip(s));
    RstripEnd(s);
    HeadClean(Rstrip(s), s);
    SemicolonsPrefix(s);
    HeadClean(RstripSemicolons(s), s);
  }

  lemma TailClean(a: string, b: string)
    requires NewlinesOnly(a + b)
    ensures NewlinesOnly(b)
  {
    assert forall i | 0 <= i < |b| :: (a + b)[|a| + i] == b[i];
  }

  lemma HeadClean(a: string, s: string)
    requires a <= s && NewlinesOnly(s)
    ensures NewlinesOnly(a)
  {
    assert forall i | 0 <= i < |a| :: s[i] == a[i];
  }

  lemma {:induction false} StatementsClean(lines: seq<string>, buf: seq<string>)
    requires forall k | 0 <= k < |lines| :: OneLine(lines[k])
    requires forall k | 0 <= k < |buf| :: OneLine(buf[k])
    ensures forall k | 0 <= k < |Statements(lines, buf)| :: NewlinesOnly(Statements(lines, buf)[k])
    decreases |lines|
  {
    if lines == [] {
      JoinClean(buf);
      StripClean(JoinLines(buf));
    } else {
      var longer := buf + [lines[0]];
      JoinClean(longer);
      StripClean(JoinLines(longer));
      StripClean(Rstrip(JoinLines(longer)));
      StripClean(RstripSemicolons(Rstrip(JoinLines(longer))));
      StatementsClean(lines[1..], buf);
      StatementsClean(lines[1..], []);
      StatementsClean(lines[1..], longer);
    }
  }

  lemma JoinPieces(s: string)
    ensures JoinLines(Pieces(s)) == s
  {
    UnlinesPieces(s);
    JoinIsUnlines(Pieces(s));
    var j := JoinLines(Pieces(s));
    assert j == (j + "\n")[..|j|] && s == (s + "\n")[..|s|];
  }

  /** What comes before the last piece. */
  function Front(s: string): string {
    var n := |Pieces(s)| - 1;
    if n == 0 then "" else JoinLines(Pieces(s)[..n]) + "\n"
  }

  lemma LastPiece(s: string)
    ensures var ps := Pieces(s); s == Front(s) + ps[|ps| - 1]
    ensures |Pieces(s)| == 1 ==> Pieces(s) == [s]
  {
    JoinPieces(s);
  }
}
