/** The CSV printer and an independent reader of section 2 of RFC 4180 (items 2 and 4 to 7, lines ended by LF). */
module Csv {
  import opened Prelude

  // ─── The printer ───────────────────────────────────────

  /** A cell value: absent, text, a number or boolean by its printed form, or any other value by its JSON text. */
  datatype Cell = Null | Text(text: string) | Plain(printed: string) | Json(json: string)

  predicate Trigger(c: char) {
    c == '=' || c == '+' || c == '-' || c == '@' || c == '\t' || c == '\r'
  }

  predicate NeedsQuotes(c: char) {
    c == '"' || c == ',' || c == '\r' || c == '\n'
  }

  /** The text a cell stands for, after the formula-prefix step. */
  function CellText(cell: Cell): string {
    match cell
    case Null => ""
    case Plain(s) => s
    case Json(s) => s
    case Text(s) => if s != "" && Trigger(s[0]) then "'" + s else s
  }

  function Doubled(s: string): string {
    if s == "" then "" else DoubledChar(s[0]) + Doubled(s[1..])
  }

  predicate Quoted(s: string) {
    exists i :: 0 <= i < |s| && NeedsQuotes(s[i])
  }

  function PrintText(s: string): string {
    if Quoted(s) then "\"" + Doubled(s) + "\"" else s
  }

  function CsvEscape(cell: Cell): string {
    PrintText(CellText(cell))
  }

  function Join(parts: seq<string>, separator: char): string {
    if parts == [] then ""
    else if |parts| == 1 then parts[0]
    else Join(parts[..|parts| - 1], separator) + [separator] + parts[|parts| - 1]
  }

  function PrintLine(texts: seq<string>): string {
    Join(seq(|texts|, i requires 0 <= i < |texts| => PrintText(texts[i])), ',')
  }

  function PrintGrid(grid: seq<seq<string>>): string {
    Join(seq(|grid|, i requires 0 <= i < |grid| => PrintLine(grid[i])), '\n')
  }

  // ─── The reader ────────────────────────────────────────

  /** Where the reader is inside a record: before a field, in a plain field, in quotes, after a closing quote. */
  datatype Mode = Start | InPlain | InQuotes | AfterQuote

  datatype Reader = Reader(records: seq<seq<string>>, fields: seq<string>, field: string, mode: Mode) | Malformed

  function Feed(r: Reader, c: char): Reader {
    if r.Malformed? then Malformed
    else
      match r.mode
      case Start =>
        if c == '"' then r.(mode := InQuotes) else Separate(r, c)
      case InPlain => Separate(r, c)
      case InQuotes => if c == '"' then r.(mode := AfterQuote) else r.(field := r.field + [c])
      case AfterQuote =>
        if c == '"' then r.(field := r.field + [c], mode := InQuotes)
        else if c == ',' || c == '\n' then Separate(r, c)
        else Malformed
  }

  /** Outside quotes: a comma ends the field, a line feed ends the record, quotes and CR are not allowed. */
  function Separate(r: Reader, c: char): Reader
    requires r.Reader?
  {
    if c == ',' then Reader(r.records, r.fields + [r.field], "", Start)
    else if c == '\n' then Reader(r.records + [r.fields + [r.field]], [], "", Start)
    else if NeedsQuotes(c) then Malformed
    else r.(field := r.field + [c], mode := InPlain)
  }

  function Read(r: Reader, s: string): Reader {
    if s == "" then r else Feed(Read(r, s[..|s| - 1]), s[|s| - 1])
  }

  /** At the end of the file the last record need not have had its line break (item 2). */
  function Finish(r: Reader): Option<seq<seq<string>>> {
    if r.Malformed? || r.mode == InQuotes then None
    else if r.mode == Start && r.fields == [] then Some(r.records)
    else Some(r.records + [r.fields + [r.field]])
  }

  const Fresh: Reader := Reader([], [], "", Start)

  function ReadCsv(file: string): Option<seq<seq<string>>> {
    Finish(Read(Fresh, file))
  }

  // ─── Reading back what was printed ─────────────────────

  lemma {:induction false} ReadSplit(r: Reader, a: string, b: string)
    ensures Read(r, a + b) == Read(Read(r, a), b)
  {
    if b == "" {
      assert a + b == a;
    } else {
      assert (a + b)[..|a + b| - 1] == a + b[..|b| - 1];
      ReadSplit(r, a, b[..|b| - 1]);
    }
  }

  lemma ReadChar(r: Reader, c: char)
    ensures Read(r, [c]) == Feed(r, c)
  {
    assert [c][..0] == "";
    assert Read(r, "") == r;
  }

  function DoubledChar(c: char): string {
    if c == '"' then "\"\"" else [c]
  }

  lemma ReadDoubledChar(r: Reader, c: char)
    requires r.Reader? && r.mode == InQuotes
    ensures Read(r, DoubledChar(c)) == r.(field := r.field + [c])
  {
    if c == '"' {
      assert DoubledChar(c) == [c] + [c];
      ReadSplit(r, [c], [c]);
      ReadChar(r, c);
      ReadChar(Read(r, [c]), c);
    } else {
      ReadChar(r, c);
    }
  }

  /** Inside quotes, the doubled text adds exactly the text. */
  lemma {:induction false} ReadDoubled(r: Reader, s: string)
    requires r.Reader? && r.mode == InQuotes
    ensures Read(r, Doubled(s)) == r.(field := r.field + s)
    decreases |s|
  {
    if s == "" {
      assert r.field + s == r.field;
    } else {
      ReadSplit(r, DoubledChar(s[0]), Doubled(s[1..]));
      ReadDoubledChar(r, s[0]);
      ReadDoubled(r.(field := r.field + [s[0]]), s[1..]);
      assert r.field + [s[0]] + s[1..] == r.field + s;
    }
  }

  lemma {:induction false} ReadPlain(r: Reader, s: string)
    requires r.Reader? && r.mode == Start && r.field == "" && s != "" && !Quoted(s)
    ensures Read(r, s) == r.(field := s, mode := InPlain)
  {
    var last := s[|s| - 1];
    assert !NeedsQuotes(last);
    if |s| == 1 {
      assert s == [last];
      ReadChar(r, last);
    } else {
      assert forall i | 0 <= i < |s| - 1 :: s[..|s| - 1][i] == s[i];
      ReadPlain(r, s[..|s| - 1]);
      assert s[..|s| - 1] + [last] == s;
    }
  }

  /** After a printed field the reader holds its text and waits for a separator. */
  ghost predicate HoldsField(r: Reader, before: Reader, text: string) {
    && before.Reader? && r.Reader? && r.records == before.records && r.fields == before.fields && r.field == text
    && (r.mode == AfterQuote || r.mode == InPlain || (r.mode == Start && text == ""))
  }

  lemma ReadField(r: Reader, text: string)
    requires r.Reader? && r.mode == Start && r.field == ""
    ensures HoldsField(Read(r, PrintText(text)), r, text)
  {
    if Quoted(text) {
      var open := ['"'];
      assert PrintText(text) == (open + Doubled(text)) + open;
      ReadSplit(r, open + Doubled(text), open);
      ReadSplit(r, open, Doubled(text));
      ReadChar(r, '"');
      ReadDoubled(Read(r, open), text);
      ReadChar(Read(r, open + Doubled(text)), '"');
      assert "" + text == text;
    } else if text != "" {
      ReadPlain(r, text);
    }
  }

  lemma PrintLineSnoc(texts: seq<string>)
    requires |texts| > 1
    ensures PrintLine(texts) == PrintLine(texts[..|texts| - 1]) + [','] + PrintText(texts[|texts| - 1])
  {
    var front := texts[..|texts| - 1];
    var parts := seq(|texts|, i requires 0 <= i < |texts| => PrintText(texts[i]));
    assert parts[..|parts| - 1] == seq(|front|, i requires 0 <= i < |front| => PrintText(front[i]));
  }

  lemma PrintGridSnoc(grid: seq<seq<string>>)
    requires |grid| > 1 && forall i | 0 <= i < |grid| :: grid[i] != []
    ensures PrintGrid(grid) == PrintGrid(grid[..|grid| - 1]) + ['\n'] + PrintLine(grid[|grid| - 1])
  {
    var front := grid[..|grid| - 1];
    var lines := seq(|grid|, i requires 0 <= i < |grid| => PrintLine(grid[i]));
    assert lines[..|lines| - 1] == seq(|front|, i requires 0 <= i < |front| => PrintLine(front[i]));
  }

  lemma {:induction false} ReadLine(r: Reader, texts: seq<string>)
    requires r.Reader? && r.mode == Start && r.field == "" && r.fields == [] && texts != []
    ensures HoldsField(Read(r, PrintLine(texts)), r.(fields := texts[..|texts| - 1]), texts[|texts| - 1])
  {
    var front, last := texts[..|texts| - 1], texts[|texts| - 1];
    if front == [] {
      assert PrintLine(texts) == PrintText(last);
      ReadField(r, last);
    } else {
      hide PrintLine, PrintText, Read;
      PrintLineSnoc(texts);
      ReadSplit(r, PrintLine(front) + [','], PrintText(last));
      ReadSplit(r, PrintLine(front), [',']);
      ReadLine(r, front);
      ReadChar(Read(r, PrintLine(front)), ',');
      assert front[..|front| - 1] + [front[|front| - 1]] == front;
      ReadField(r.(fields := front), last);
    }
  }

  /** The reader has read the lines of `grid` and holds the last field of the last of them. */
  ghost predicate HoldsGrid(r: Reader, grid: seq<seq<string>>)
    requires grid != [] && grid[|grid| - 1] != []
  {
    var last := grid[|grid| - 1];
    HoldsField(r, Reader(grid[..|grid| - 1], last[..|last| - 1], "", Start), last[|last| - 1])
  }

  lemma EndLine(r: Reader, grid: seq<seq<string>>)
    requires grid != [] && grid[|grid| - 1] != []
    requires HoldsGrid(r, grid)
    ensures Read(r, ['\n']) == Reader(grid, [], "", Start)
  {
    ReadChar(r, '\n');
    var last := grid[|grid| - 1];
    assert last[..|last| - 1] + [last[|last| - 1]] == last;
    assert grid[..|grid| - 1] + [last] == grid;
  }

  lemma ReadNextLine(front: seq<seq<string>>, last: seq<string>, printed: string)
    requires front != [] && front[|front| - 1] != [] && last != [] && HoldsGrid(Read(Fresh, printed), front)
    ensures HoldsGrid(Read(Fresh, printed + ['\n'] + PrintLine(last)), front + [last])
  {
    hide PrintLine, Read, HoldsField;
    ReadSplit(Fresh, printed + ['\n'], PrintLine(last));
    ReadSplit(Fresh, printed, ['\n']);
    EndLine(Read(Fresh, printed), front);
    ReadLine(Reader(front, [], "", Start), last);
    assert (front + [last])[..|front|] == front;
  }

  lemma ReadOneLine(line: seq<string>)
    requires line != []
    ensures HoldsGrid(Read(Fresh, PrintGrid([line])), [line])
  {
    hide Read, PrintLine;
    assert PrintGrid([line]) == PrintLine(line);
    ReadLine(Fresh, line);
  }

  lemma {:induction false} ReadGrid(grid: seq<seq<string>>)
    requires grid != [] && forall i | 0 <= i < |grid| :: grid[i] != []
    ensures HoldsGrid(Read(Fresh, PrintGrid(grid)), grid)
  {
    var front, last := grid[..|grid| - 1], grid[|grid| - 1];
    hide PrintGrid, PrintLine, Read, HoldsGrid;
    if front == [] {
      assert grid == [last];
      ReadOneLine(last);
    } else {
      PrintGridSnoc(grid);
      ReadGrid(front);
      ReadNextLine(front, last, PrintGrid(front));
      assert grid == front + [last];
    }
  }

  lemma FinishGrid(r: Reader, grid: seq<seq<string>>)
    requires grid != [] && grid[|grid| - 1] != []
    requires HoldsGrid(r, grid)
    requires grid[|grid| - 1] == [""] ==> r.mode == Start && r.fields == []
    ensures Finish(r) == Some(grid) <==> grid[|grid| - 1] != [""]
  {
    var last := grid[|grid| - 1];
    assert last[..|last| - 1] + [last[|last| - 1]] == last;
    assert grid[..|grid| - 1] + [last] == grid;
    if r.mode == Start && r.fields == [] {
      assert last == [""];
      assert |r.records| < |grid|;
    }
  }

  /** Any grid of texts, with at least one line and one cell a line, is read back cell for cell; the one
      exception is a grid whose last line is a single empty cell, which prints as nothing. */
  lemma RoundTrip(grid: seq<seq<string>>)
    requires grid != [] && forall i | 0 <= i < |grid| :: grid[i] != []
    ensures ReadCsv(PrintGrid(grid)) == Some(grid) <==> grid[|grid| - 1] != [""]
  {
    hide Read, PrintGrid, Finish, HoldsGrid;
    ReadGrid(grid);
    if grid[|grid| - 1] == [""] {
      LastLineEmpty(grid);
    }
    FinishGrid(Read(Fresh, PrintGrid(grid)), grid);
  }

  lemma LastLineEmpty(grid: seq<seq<string>>)
    requires grid != [] && (forall i | 0 <= i < |grid| :: grid[i] != []) && grid[|grid| - 1] == [""]
    ensures var r := Read(Fresh, PrintGrid(grid)); r.Reader? && r.mode == Start && r.fields == []
  {
    var front := grid[..|grid| - 1];
    assert PrintLine([""]) == "";
    if front == [] {
      assert PrintGrid(grid) == "";
    } else {
      hide PrintGrid, PrintLine, Read, HoldsGrid;
      PrintGridSnoc(grid);
      assert PrintGrid(grid) == PrintGrid(front) + ['\n'];
      ReadSplit(Fresh, PrintGrid(front), ['\n']);
      ReadGrid(front);
      EndLine(Read(Fresh, PrintGrid(front)), front);
    }
  }

  // ─── The formula guard ─────────────────────────────────

  /** No text cell comes out starting with a formula trigger, and the guard adds one apostrophe or nothing. */
  lemma GuardIsSafe(s: string)
    ensures var t := CellText(Text(s)); (t == "" || !Trigger(t[0])) && (t == s || t == "'" + s)
  {
  }

  /** A text is put in quotes, its own quotes doubled, exactly if it has a quote, a comma or a line break in it. */
  lemma QuotedIff(s: string)
    ensures if '"' in s || ',' in s || '\r' in s || '\n' in s then PrintText(s) == "\"" + Doubled(s) + "\""
            else PrintText(s) == s
  {
    if i :| 0 <= i < |s| && NeedsQuotes(s[i]) { assert s[i] in s; }
    forall c | c in s && NeedsQuotes(c) ensures Quoted(s) {
      var i :| 0 <= i < |s| && s[i] == c;
    }
  }

  /** What each kind of cell prints: only text is guarded, and only before one of the six formula characters. */
  lemma CellTexts(s: string)
    ensures CellText(Null) == "" && CellText(Plain(s)) == s && CellText(Json(s)) == s
    ensures CellText(Text(s)) == Guarded(s)
  {
  }

  function Guarded(s: string): string {
    if s != "" && s[0] in "=+-@\t\r" then "'" + s else s
  }

  /** The guard merges two different texts exactly when one is a formula and the other is that formula already
      written with the apostrophe. */
  lemma GuardMerges(a: string, b: string)
    ensures a != b && CellText(Text(a)) == CellText(Text(b)) <==>
            (a != "" && Trigger(a[0]) && b == "'" + a) || (b != "" && Trigger(b[0]) && a == "'" + b)
  {
    var ta, tb := CellText(Text(a)), CellText(Text(b));
    if ta == tb && a != b {
      assert ("'" + a)[1..] == a && ("'" + b)[1..] == b;
    }
  }
}
