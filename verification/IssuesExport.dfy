/** The issue export: one header line, one line per issue, read back cell for cell. */
module IssuesExport {
  import opened Prelude
  import opened Csv

  /** The columns of an export row, with the printed forms of numbers and dates. */
  datatype Person = Person(name: Option<string>, email: string)

  datatype Issue = Issue(
    key: string,
    summary: string,
    kind: string,
    priority: string,
    column: Option<string>,
    assignee: Option<Person>,
    reporter: Option<Person>,
    sprint: Option<string>,
    storyPoints: Option<string>,
    dueDate: Option<string>,
    createdAt: string)

  const HEADERS: seq<string> :=
    ["Key", "Summary", "Type", "Priority", "Status", "Assignee", "Reporter", "Sprint", "StoryPoints", "DueDate",
     "CreatedAt"]

  function OrEmpty(s: Option<string>): string {
    match s
    case Some(x) => x
    case None => ""
  }

  function DisplayName(p: Option<Person>): string {
    match p
    case None => ""
    case Some(Person(Some(name), _)) => name
    case Some(Person(None, email)) => email
  }

  function Cells(r: Issue): (cells: seq<Cell>)
    ensures |cells| == |HEADERS|
  {
    [Text(r.key), Text(r.summary), Text(r.kind), Text(r.priority), Text(OrEmpty(r.column)),
     Text(DisplayName(r.assignee)),
     Text(DisplayName(r.reporter)), Text(OrEmpty(r.sprint)),
     match r.storyPoints { case Some(n) => Plain(n) case None => Text("") },
     Text(OrEmpty(r.dueDate)), Text(r.createdAt)]
  }

  function Line(cells: seq<Cell>): string {
    Join(seq(|cells|, i requires 0 <= i < |cells| => CsvEscape(cells[i])), ',')
  }

  /** A header line as it stands, then one escaped line per row: the shape of every CSV export. */
  function Export(headers: seq<string>, rows: seq<seq<Cell>>): string {
    Join([Join(headers, ',')] + seq(|rows|, i requires 0 <= i < |rows| => Line(rows[i])), '\n')
  }

  function ExportCsv(issues: seq<Issue>): string {
    Export(HEADERS, seq(|issues|, i requires 0 <= i < |issues| => Cells(issues[i])))
  }

  function Texts(cells: seq<Cell>): seq<string> {
    seq(|cells|, i requires 0 <= i < |cells| => CellText(cells[i]))
  }

  function Grid(headers: seq<string>, rows: seq<seq<Cell>>): seq<seq<string>> {
    [headers] + seq(|rows|, i requires 0 <= i < |rows| => Texts(rows[i]))
  }

  lemma LineOfTexts(row: seq<Cell>)
    ensures Line(row) == PrintLine(Texts(row))
  {
    var texts := Texts(row);
    assert seq(|row|, j requires 0 <= j < |row| => CsvEscape(row[j])) == seq(|texts|, j requires 0 <= j < |texts| =>
        PrintText(texts[j]));
  }

  lemma PlainLine(texts: seq<string>)
    requires forall i | 0 <= i < |texts| :: !Quoted(texts[i])
    ensures Join(texts, ',') == PrintLine(texts)
  {
    assert texts == seq(|texts|, i requires 0 <= i < |texts| => PrintText(texts[i]));
  }

  /** An export with two columns or more and plain headers reads back as its headers and the cell texts. */
  lemma ExportReadsBack(headers: seq<string>, rows: seq<seq<Cell>>)
    requires |headers| >= 2 && forall i | 0 <= i < |headers| :: !Quoted(headers[i])
    requires forall i | 0 <= i < |rows| :: |rows[i]| == |headers|
    ensures ReadCsv(Export(headers, rows)) == Some(Grid(headers, rows))
  {
    hide ReadCsv;
    var grid := Grid(headers, rows);
    PlainLine(headers);
    forall i | 0 <= i < |rows| ensures Line(rows[i]) == PrintLine(grid[i + 1]) {
      LineOfTexts(rows[i]);
    }
    hide Line, Texts, PrintLine, Join, Quoted;
    assert [Join(headers, ',')] + seq(|rows|, i requires 0 <= i < |rows| => Line(rows[i])) ==
      seq(|grid|, i requires 0 <= i < |grid| => PrintLine(grid[i]));
    RoundTrip(grid);
  }

  lemma HeadersArePlain()
    ensures forall i | 0 <= i < |HEADERS| :: !Quoted(HEADERS[i])
  {
  }

  ghost function PersonText(p: Option<Person>): string {
    match p
    case None => ""
    case Some(person) => Csv.Guarded(if person.name.Some? then person.name.value else person.email)
  }

  ghost function TextOrNone(s: Option<string>): string {
    if s.None? then "" else Csv.Guarded(s.value)
  }

  /** The line of an issue, column by column. Numbers are not guarded. */
  ghost predicate Shows(line: seq<string>, r: Issue) {
    && |line| == 11
    && line[0] == Csv.Guarded(r.key) && line[1] == Csv.Guarded(r.summary) && line[2] == Csv.Guarded(r.kind)
    && line[3] == Csv.Guarded(r.priority) && line[4] == TextOrNone(r.column)
    && line[5] == PersonText(r.assignee) && line[6] == PersonText(r.reporter) && line[7] == TextOrNone(r.sprint)
    && line[8] == (if r.storyPoints.Some? then r.storyPoints.value else "")
    && line[9] == TextOrNone(r.dueDate) && line[10] == Csv.Guarded(r.createdAt)
  }

  lemma CellsShow(r: Issue)
    ensures Shows(Texts(Cells(r)), r)
  {
    PeopleShow(r.assignee);
    PeopleShow(r.reporter);
    OptionsShow(r.column);
    OptionsShow(r.sprint);
    OptionsShow(r.dueDate);
    hide CellText, Guarded, DisplayName, PersonText, OrEmpty, TextOrNone;
    CellTexts(r.key);
    CellTexts(r.summary);
    CellTexts(r.kind);
    CellTexts(r.priority);
    CellTexts(r.createdAt);
    CellTexts(if r.storyPoints.Some? then r.storyPoints.value else "");
    GuardedEmpty();
  }

  lemma GuardedEmpty()
    ensures CellText(Text("")) == ""
  {
  }

  lemma PeopleShow(p: Option<Person>)
    ensures CellText(Text(DisplayName(p))) == PersonText(p)
  {
  }

  lemma OptionsShow(s: Option<string>)
    ensures CellText(Text(OrEmpty(s))) == TextOrNone(s)
  {
  }

  /** The whole issue export, for any issues and any text in them: as many records as issues plus one, and under each of
      the eleven headers that field of the issue. */
  lemma IssueExportReadsBack(issues: seq<Issue>)
    ensures var read := ReadCsv(ExportCsv(issues));
            && read.Some? && |read.value| == |issues| + 1
            && read.value[0] == ["Key", "Summary", "Type", "Priority", "Status", "Assignee", "Reporter", "Sprint",
                                 "StoryPoints", "DueDate", "CreatedAt"]
            && (forall i | 0 <= i < |issues| :: Shows(read.value[i + 1], issues[i]))
            && forall i | 0 <= i < |issues| ::
                 && |read.value[i + 1]| == 11
                 && forall j | 0 <= j < 11 :: read.value[i + 1][j] == CellText(Cells(issues[i])[j])
  {
    HeadersArePlain();
    hide Shows, ReadCsv, Csv.CellText, Csv.Guarded, PrintText;
    var rows := seq(|issues|, i requires 0 <= i < |issues| => Cells(issues[i]));
    ExportReadsBack(HEADERS, rows);
    forall i | 0 <= i < |issues|
      ensures Grid(HEADERS, rows)[i + 1] == Texts(Cells(issues[i])) && Shows(Grid(HEADERS, rows)[i + 1], issues[i])
    {
      CellsShow(issues[i]);
    }
  }

  /** Two issue lists that export to the same file have the same cell texts throughout. */
  lemma ExportIsInjective(a: seq<Issue>, b: seq<Issue>)
    requires ExportCsv(a) == ExportCsv(b)
    ensures |a| == |b| && forall i | 0 <= i < |a| :: Texts(Cells(a[i])) == Texts(Cells(b[i]))
  {
    hide Shows, ReadCsv, Csv.CellText;
    IssueExportReadsBack(a);
    IssueExportReadsBack(b);
    forall i | 0 <= i < |a| ensures Texts(Cells(a[i])) == Texts(Cells(b[i])) {
      var read := ReadCsv(ExportCsv(a)).value;
      assert read[i + 1] == Texts(Cells(a[i]));
    }
  }
}
