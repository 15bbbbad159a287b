/** Where issues may point: their parent, epic, sprint and board column. Every call first reads what it needs to check
    and writes later, so what it checked can be gone by then; any number of calls may interleave. */
module IssueScope {
  import opened Prelude
  import opened Sequences

  type ProjectId = nat
  type BoardId = nat
  type ColumnId = nat
  type SprintId = nat
  type IssueId = nat
  type OpId = nat
  type UserId = nat
  type WorkspaceId = nat

  /** The columns that refer to nothing, such as the summary or the priority, by name. */
  type Plain = map<string, Option<string>>

  datatype Issue = Issue(project: ProjectId, parent: Option<IssueId>, epic: Option<IssueId>, sprint: Option<SprintId>,
                         column: Option<ColumnId>, assignee: Option<UserId>, reporter: UserId, plain: Plain)

  datatype Column = Column(board: BoardId, position: int)

  datatype Role = LEAD | ADMIN | DEVELOPER | VIEWER

  /** Who there is: the accounts, the members of each project, and the members of each workspace. */
  datatype People = People(users: set<UserId>, team: map<(ProjectId, UserId), Role>, staff: set<(WorkspaceId, UserId)>)

  datatype Tables = Tables(projects: map<ProjectId, WorkspaceId>, boards: map<BoardId, ProjectId>,
                           columns: map<ColumnId, Column>,
                           sprints: map<SprintId, BoardId>, issues: map<IssueId, Issue>, people: People)

  /** `Rejected` is the database's own error, when a reference leads nowhere or the row to change is gone. */
  datatype Error = ProjectNotFound | IssueNotFound | ColumnNotFound | SprintNotFound | ParentNotInProject
    | EpicNotInProject | SprintNotInProject | ColumnNotInBoard | EmptyBatch | MixedProjects | ColumnHasIssues
    | MayNotChangeReporter | ReporterNotInProject | AssigneeNotInWorkspaces | InvalidDate | Rejected

  /** An optional column of an update: absent, null or a value. */
  datatype Change<T> = Keep | Clear | Set(value: T)

  // ─── Writes ────────────────────────────────────────────

  /** What an update names: references that it sets or clears, and values of plain columns. */
  datatype Edit = Edit(epic: Change<IssueId>, sprint: Change<SprintId>, column: Change<ColumnId>,
                       assignee: Change<UserId>, reporter: Option<UserId>, plain: Plain)

  const NO_EDIT: Edit := Edit(Keep, Keep, Keep, Keep, None, map[])

  datatype Write =
    | Insert(id: IssueId, row: Issue)
    | Patch(ids: set<IssueId>, edit: Edit, one: bool)
    | DropIssues(ids: set<IssueId>, one: bool)
    | Unassign(s: SprintId)
    | DropSprint(s: SprintId)
    | DropColumn(c: ColumnId)

  function Changed<T>(c: Change<T>, was: Option<T>): Option<T> {
    match c
    case Keep => was
    case Clear => None
    case Set(v) => Some(v)
  }

  function Edited(row: Issue, e: Edit): Issue {
    row.(epic := Changed(e.epic, row.epic), sprint := Changed(e.sprint, row.sprint),
         column := Changed(e.column, row.column), assignee := Changed(e.assignee, row.assignee),
         reporter := if e.reporter.Some? then e.reporter.value else row.reporter,
         plain := row.plain + e.plain)
  }

  /** Foreign keys: a reference must lead to a row. */
  predicate Leads<T(==)>(ref: Option<T>, keys: set<T>) {
    ref.Some? ==> ref.value in keys
  }

  predicate SetLeads<T(==)>(c: Change<T>, keys: set<T>) {
    c.Set? ==> c.value in keys
  }

  predicate RowLeads(t: Tables, row: Issue) {
    && Leads(row.parent, t.issues.Keys) && Leads(row.epic, t.issues.Keys)
    && Leads(row.sprint, t.sprints.Keys) && Leads(row.column, t.columns.Keys)
    && Leads(row.assignee, t.people.users) && row.reporter in t.people.users && row.project in t.projects
  }

  predicate EditLeads(t: Tables, e: Edit) {
    && SetLeads(e.epic, t.issues.Keys) && SetLeads(e.sprint, t.sprints.Keys) && SetLeads(e.column, t.columns.Keys)
    && SetLeads(e.assignee, t.people.users) && Leads(e.reporter, t.people.users)
  }

  function Without(ref: Option<nat>, gone: set<nat>): Option<nat> {
    if ref.Some? && ref.value in gone then None else ref
  }

  function PatchedRows(issues: map<IssueId, Issue>, w: Write): map<IssueId, Issue>
    requires w.Patch?
  {
    map i | i in issues :: if i in w.ids then Edited(issues[i], w.edit) else issues[i]
  }

  function RowsWithout(issues: map<IssueId, Issue>, ids: set<IssueId>): map<IssueId, Issue> {
    map i | i in issues && i !in ids ::
        issues[i].(parent := Without(issues[i].parent, ids), epic := Without(issues[i].epic, ids))
  }

  function SprintCleared(issues: map<IssueId, Issue>, s: SprintId): map<IssueId, Issue> {
    map i | i in issues :: issues[i].(sprint := Without(issues[i].sprint, {s}))
  }

  function ColumnCleared(issues: map<IssueId, Issue>, c: ColumnId): map<IssueId, Issue> {
    map i | i in issues :: issues[i].(column := Without(issues[i].column, {c}))
  }

  /** What the database does with a write: it is refused whole when a single row to be changed is gone or a reference
      would lead nowhere, and references to a deleted row become null. */
  function Apply(t: Tables, w: Write): Option<Tables> {
    match w
    case Insert(id, row) =>
      if !RowLeads(t, row) then None
      else Some(t.(issues := t.issues[id := row]))
    case Patch(ids, edit, one) =>
      if (one && !(ids <= t.issues.Keys)) || !EditLeads(t, edit) then None
      else Some(t.(issues := PatchedRows(t.issues, w)))
    case DropIssues(ids, one) =>
      if one && !(ids <= t.issues.Keys) then None
      else Some(t.(issues := RowsWithout(t.issues, ids)))
    case Unassign(s) => Some(t.(issues := SprintCleared(t.issues, s)))
    case DropSprint(s) =>
      if s !in t.sprints then None
      else Some(t.(sprints := t.sprints - {s}, issues := SprintCleared(t.issues, s)))
    case DropColumn(c) =>
      if c !in t.columns then None
      else Some(t.(columns := t.columns - {c}, issues := ColumnCleared(t.issues, c)))
  }

  // ─── Checks ────────────────────────────────────────────

  predicate SprintIn(t: Tables, s: SprintId, project: ProjectId) {
    s in t.sprints && t.sprints[s] in t.boards && t.boards[t.sprints[s]] == project
  }

  predicate ColumnIn(t: Tables, c: ColumnId, project: ProjectId) {
    c in t.columns && t.columns[c].board in t.boards && t.boards[t.columns[c].board] == project
  }

  function FkScopeError(t: Tables, parent: Option<IssueId>, epic: Option<IssueId>, sprint: Option<SprintId>,
                        project: ProjectId): Option<Error> {
    if parent.Some? && (parent.value !in t.issues || t.issues[parent.value].project != project) then
         Some(ParentNotInProject)
    else if epic.Some? && (epic.value !in t.issues || t.issues[epic.value].project != project) then
         Some(EpicNotInProject)
    else if sprint.Some? && !SprintIn(t, sprint.value, project) then Some(SprintNotInProject)
    else None
  }

  /** The column of the project's board with the least position; ties are the database's choice. */
  ghost predicate IsFirst(t: Tables, project: ProjectId, first: Option<ColumnId>) {
    match first
    case None => forall c | c in t.columns :: !ColumnIn(t, c, project)
    case Some(f) => ColumnIn(t, f, project) && forall c | c in t.columns && ColumnIn(t, c, project) ::
        t.columns[f].position <= t.columns[c].position
  }

  datatype Request =
    | CreateIssue(id: IssueId, row: Issue)
    | Spawn(id: IssueId, row: Issue)
    | UpdateIssue(id: IssueId, actor: UserId, edit: Edit, datesParse: bool)
    | MoveIssue(id: IssueId, column: ColumnId)
    | DeleteIssue(id: IssueId)
    | BulkUpdate(ids: seq<IssueId>, sprintTo: Change<SprintId>, assigneeTo: Change<UserId>, priority: Option<string>)
    | BulkDelete(ids: seq<IssueId>)
    | DeleteSprint(s: SprintId)
    | DeleteColumn(board: BoardId, column: ColumnId)

  function OptionOf<T>(c: Change<T>): Option<T> {
    if c.Set? then Some(c.value) else None
  }

  function ProjectsOf(t: Tables, ids: set<IssueId>): set<ProjectId> {
    set i | i in ids && i in t.issues :: t.issues[i].project
  }

  function BatchError(t: Tables, ids: seq<IssueId>): Option<Error> {
    if ids == [] then Some(EmptyBatch) else if !(Elements(ids) <= t.issues.Keys) then Some(IssueNotFound) else None
  }

  function WorkspacesOf(t: Tables, projects: set<ProjectId>): set<WorkspaceId> {
    set p | p in projects && p in t.projects :: t.projects[p]
  }

  function Memberships(t: Tables, user: UserId, workspaces: set<WorkspaceId>): set<WorkspaceId> {
    set w | w in workspaces && (w, user) in t.people.staff
  }

  /** The sprint must be of one of the projects of the batch, and then every issue must be of that project. The assignee
      must have as many memberships in the workspaces of the batch as there are such workspaces. */
  function BulkError(t: Tables, ids: seq<IssueId>, sprint: Change<SprintId>, assignee: Change<UserId>): Option<Error> {
    var batch, projects := BatchError(t, ids), ProjectsOf(t, Elements(ids));
    if batch.Some? then batch
    else if sprint.Set? && (sprint.value !in t.sprints || t.sprints[sprint.value] !in t.boards ||
                            t.boards[t.sprints[sprint.value]] !in projects) then Some(SprintNotInProject)
    else if sprint.Set? && exists i | i in ids :: i in t.issues &&
                                                  t.issues[i].project != t.boards[t.sprints[sprint.value]] then
      Some(MixedProjects)
    else if assignee.Set? &&
            |Memberships(t, assignee.value, WorkspacesOf(t, projects))| != |WorkspacesOf(t, projects)| then
      Some(AssigneeNotInWorkspaces)
    else None
  }

  function BulkEdit(sprint: Change<SprintId>, assignee: Change<UserId>, priority: Option<string>): Edit {
    NO_EDIT.(sprint := sprint, assignee := assignee, plain := if priority.Some? then map["priority" := priority]
             else map[])
  }

  /** Only a lead or an admin of the project may change the reporter, and only to one of its members. */
  function ReporterError(t: Tables, row: Issue, actor: UserId, reporter: Option<UserId>): Option<Error> {
    if reporter.None? || reporter.value == row.reporter then None
    else if (row.project, actor) !in t.people.team ||
         t.people.team[(row.project, actor)] !in {LEAD, ADMIN} then Some(MayNotChangeReporter)
    else if (row.project, reporter.value) !in t.people.team then Some(ReporterNotInProject)
    else None
  }

  function UpdateError(t: Tables, id: IssueId, actor: UserId, edit: Edit, datesParse: bool): Option<Error> {
    if id !in t.issues then Some(IssueNotFound)
    else
      var scope := FkScopeError(t, None, OptionOf(edit.epic), OptionOf(edit.sprint), t.issues[id].project);
      var reporter := ReporterError(t, t.issues[id], actor, edit.reporter);
      if scope.Some? then scope else if reporter.Some? then reporter else if !datesParse then Some(InvalidDate)
           else None
  }

  predicate HasIssues(t: Tables, c: ColumnId) {
    exists i | i in t.issues :: t.issues[i].column == Some(c)
  }

  function Fail(e: Option<Error>, writes: seq<Write>): Result<seq<Write>, Error> {
    if e.Some? then Err(e.value) else Ok(writes)
  }

  /** What a call reads and decides, and the writes it will then make, each on its own. */
  function Check(t: Tables, r: Request): Result<seq<Write>, Error> {
    match r
    case CreateIssue(id, row) =>
      if row.project !in t.projects then Err(ProjectNotFound)
      else Fail(FkScopeError(t, row.parent, row.epic, row.sprint, row.project), [Insert(id, row)])
    case Spawn(id, row) =>
      if row.project !in t.projects then Ok([])
           else Ok([Insert(id, row.(parent := None, epic := None, sprint := None))])
    case UpdateIssue(id, actor, edit, datesParse) =>
      Fail(UpdateError(t, id, actor, edit, datesParse), [Patch({id}, edit.(column := Keep), true)])
    case MoveIssue(id, column) =>
      if id !in t.issues then Err(IssueNotFound)
      else if column !in t.columns then Err(ColumnNotFound)
      else if !ColumnIn(t, column, t.issues[id].project) then Err(ColumnNotInBoard)
      else Ok([Patch({id}, NO_EDIT.(column := Set(column)), true)])
    case DeleteIssue(id) => if id !in t.issues then Err(IssueNotFound) else Ok([DropIssues({id}, true)])
    case BulkUpdate(ids, sprint, assignee, priority) =>
      Fail(BulkError(t, ids, sprint, assignee), [Patch(Elements(ids), BulkEdit(sprint, assignee, priority), false)])
    case BulkDelete(ids) => Fail(BatchError(t, ids), [DropIssues(Elements(ids), false)])
    case DeleteSprint(s) => if s !in t.sprints then Err(SprintNotFound) else Ok([Unassign(s), DropSprint(s)])
    case DeleteColumn(board, column) =>
      if column !in t.columns || t.columns[column].board != board then Err(ColumnNotFound)
      else if HasIssues(t, column) then Err(ColumnHasIssues)
      else Ok([DropColumn(column)])
  }

  // ─── The machine ───────────────────────────────────────

  datatype Entity = AnIssue(id: IssueId) | ASprint(s: SprintId) | AColumn(c: ColumnId)

  datatype Pc = Writing(writes: seq<Write>) | Refused

  /** `home` is history: the project of every issue, sprint and column there ever was. Ids are not used twice. */
  datatype State = State(t: Tables, home: map<Entity, ProjectId>, ops: map<OpId, Pc>)

  datatype Event =
    | AddProject(p: ProjectId, w: WorkspaceId)
    | AddUser(u: UserId)
    | SetRole(p: ProjectId, u: UserId, role: Option<Role>)
    | SetStaff(w: WorkspaceId, u: UserId, member: bool)
    | AddBoard(b: BoardId, p: ProjectId)
    | AddColumn(c: ColumnId, b: BoardId)
    | AddSprint(s: SprintId, b: BoardId)
    | Reorder(b: BoardId, columnIds: seq<ColumnId>)
    | Begin(op: OpId, r: Request)
    | Continue(op: OpId)

  const Empty: State := State(Tables(map[], map[], map[], map[], map[], People({}, map[], {})), map[], map[])

  /** A new issue goes into the first column of its project's board. */
  ghost predicate Plausible(t: Tables, r: Request) {
    (r.CreateIssue? || r.Spawn?) ==> IsFirst(t, r.row.project, r.row.column)
  }

  function HomeAfter(home: map<Entity, ProjectId>, w: Write): map<Entity, ProjectId> {
    if w.Insert? then home[AnIssue(w.id) := w.row.project] else home
  }

  /** The next write of a call: done, or refused by the database, which ends the call. */
  function Advance(s: State, op: OpId): State
    requires op in s.ops && s.ops[op].Writing? && s.ops[op].writes != []
  {
    var w := s.ops[op].writes[0];
    var t := Apply(s.t, w);
    if t.None? || (w.Insert? && AnIssue(w.id) in s.home) then s.(ops := s.ops[op := Refused])
    else State(t.value, HomeAfter(s.home, w), s.ops[op := Writing(s.ops[op].writes[1..])])
  }

  ghost function Step(s: State, e: Event): State {
    match e
    case AddProject(p, w) => if p in s.t.projects then s else s.(t := s.t.(projects := s.t.projects[p := w]))
    case AddUser(u) => s.(t := s.t.(people := s.t.people.(users := s.t.people.users + {u})))
    case SetRole(p, u, role) =>
      if u !in s.t.people.users || p !in s.t.projects then s
           else s.(t := s.t.(people := WithRole(s.t.people, p, u, role)))
    case SetStaff(w, u, member) => if u !in s.t.people.users then s
        else s.(t := s.t.(people := WithStaff(s.t.people, w, u, member)))
    case AddBoard(b, p) => if b in s.t.boards then s else s.(t := s.t.(boards := s.t.boards[b := p]))
    case AddColumn(c, b) =>
      if AColumn(c) in s.home || b !in s.t.boards then s
      else s.(t := AddedColumn(s.t, c, b), home := s.home[AColumn(c) := s.t.boards[b]])
    case AddSprint(x, b) =>
      if ASprint(x) in s.home || b !in s.t.boards then s
      else s.(t := s.t.(sprints := s.t.sprints[x := b]), home := s.home[ASprint(x) := s.t.boards[b]])
    case Reorder(b, columnIds) => if ReorderError(s.t, b, columnIds) then s else s.(t := Reordered(s.t, columnIds))
    case Begin(op, r) =>
      if op in s.ops || !Plausible(s.t, r) then s
      else s.(ops := s.ops[op := match Check(s.t, r) { case Ok(ws) => Writing(ws) case Err(_) => Refused }])
    case Continue(op) => if op in s.ops && s.ops[op].Writing? && s.ops[op].writes != [] then Advance(s, op) else s
  }

  ghost function Run(s: State, events: seq<Event>): State {
    if events == [] then s else Step(Run(s, events[..|events| - 1]), events[|events| - 1])
  }

  function WithRole(people: People, p: ProjectId, u: UserId, role: Option<Role>): People {
    people.(team := if role.Some? then people.team[(p, u) := role.value] else people.team - {(p, u)})
  }

  function WithStaff(people: People, w: WorkspaceId, u: UserId, member: bool): People {
    people.(staff := if member then people.staff + {(w, u)} else people.staff - {(w, u)})
  }

  // ─── Columns ───────────────────────────────────────────

  function ColumnsOf(t: Tables, b: BoardId): set<ColumnId> {
    set c | c in t.columns && t.columns[c].board == b
  }

  /** The highest position of some columns, or -1. */
  ghost function MaxPosition(columns: map<ColumnId, Column>, ids: set<ColumnId>): (m: int)
    requires ids <= columns.Keys
    ensures forall c | c in ids :: columns[c].position <= m
    ensures ids == {} ==> m == -1
    ensures ids != {} ==> exists c :: c in ids && columns[c].position == m
    decreases |ids|
  {
    if c :| c in ids then
      var rest := MaxPosition(columns, ids - {c});
      if ids - {c} == {} || columns[c].position > rest then columns[c].position else rest
    else -1
  }

  ghost function AddedColumn(t: Tables, c: ColumnId, b: BoardId): Tables {
    t.(columns := t.columns[c := Column(b, MaxPosition(t.columns, ColumnsOf(t, b)) + 1)])
  }

  predicate ReorderError(t: Tables, b: BoardId, columnIds: seq<ColumnId>) {
    var incoming := Elements(columnIds);
    |incoming| != |columnIds| || |incoming| != |ColumnsOf(t, b)| || exists c | c in columnIds :: c !in ColumnsOf(t, b)
  }

  function IndexOf(ids: seq<nat>, id: nat): (i: nat)
    requires id in ids
    ensures i < |ids| && ids[i] == id
  {
    if ids[0] == id then 0 else 1 + IndexOf(ids[1..], id)
  }

  function Reordered(t: Tables, columnIds: seq<ColumnId>): Tables {
    t.(columns := map c | c in t.columns :: if c in columnIds then t.columns[c].(position := IndexOf(columnIds, c))
       else t.columns[c])
  }

  function ReorderedUpTo(columns: map<ColumnId, Column>, columnIds: seq<ColumnId>, n: nat): map<ColumnId, Column>
    requires n <= |columnIds|
  {
    map c | c in columns :: if c in columnIds[..n] then columns[c].(position := IndexOf(columnIds[..n], c))
        else columns[c]
  }

  lemma ReorderedSnoc(columns: map<ColumnId, Column>, columnIds: seq<ColumnId>, n: nat, ids: set<ColumnId>)
    requires n < |columnIds| && Distinct(columnIds) && Elements(columnIds) == ids && ids <= columns.Keys
    ensures columnIds[n] in columns
    ensures var c := columnIds[n];
            var was := ReorderedUpTo(columns, columnIds, n);
            c in was && ReorderedUpTo(columns, columnIds, n + 1) == was[c := was[c].(position := n)]
  {
    var c := columnIds[n];
    assert c in Elements(columnIds);
    assert columnIds[..n + 1] == columnIds[..n] + [c];
    forall x | x in columnIds[..n] ensures x != c && IndexOf(columnIds[..n + 1], x) == IndexOf(columnIds[..n], x) {
      IndexOfPrefix(columnIds[..n], x, [c]);
    }
    IndexOfLast(columnIds[..n], c);
  }

  lemma ReorderedNone(columns: map<ColumnId, Column>, columnIds: seq<ColumnId>)
    ensures ReorderedUpTo(columns, columnIds, 0) == columns
  {
  }

  lemma ReorderedAll(t: Tables, columnIds: seq<ColumnId>)
    ensures Reordered(t, columnIds) == t.(columns := ReorderedUpTo(t.columns, columnIds, |columnIds|))
  {
    assert columnIds[..|columnIds|] == columnIds;
  }

  lemma {:induction false} IndexOfPrefix(ids: seq<nat>, id: nat, more: seq<nat>)
    requires id in ids
    ensures IndexOf(ids + more, id) == IndexOf(ids, id)
  {
    if ids[0] != id {
      assert (ids + more)[1..] == ids[1..] + more;
      IndexOfPrefix(ids[1..], id, more);
    }
  }

  lemma {:induction false} IndexOfLast(ids: seq<nat>, id: nat)
    requires id !in ids
    ensures IndexOf(ids + [id], id) == |ids|
  {
    if ids != [] {
      assert (ids + [id])[1..] == ids[1..] + [id];
      IndexOfLast(ids[1..], id);
    }
  }

  /** The size comparisons accept exactly the orderings of the board's columns: every column once, and no other. */
  lemma ReorderAcceptsIff(t: Tables, b: BoardId, columnIds: seq<ColumnId>)
    ensures !ReorderError(t, b, columnIds) <==> Distinct(columnIds) && Elements(columnIds) == ColumnsOf(t, b)
  {
    DistinctIff(columnIds);
    var incoming, existing := Elements(columnIds), ColumnsOf(t, b);
    if !ReorderError(t, b, columnIds) {
      assert incoming <= existing;
      assert existing == incoming + (existing - incoming);
      assert existing - incoming == {};
    }
  }

  /** After it the columns of the board lie in the order given, at positions 0, 1, 2, ...; other boards are
      untouched. */
  lemma ReorderedPositions(t: Tables, b: BoardId, columnIds: seq<ColumnId>)
    requires !ReorderError(t, b, columnIds)
    ensures var after := Reordered(t, columnIds);
            && ColumnsOf(after, b) == ColumnsOf(t, b)
            && (forall i | 0 <= i < |columnIds| :: columnIds[i] in after.columns &&
                                                   after.columns[columnIds[i]] == Column(b, i))
            && (forall c | c in t.columns && t.columns[c].board != b :: after.columns[c] == t.columns[c])
  {
    ReorderAcceptsIff(t, b, columnIds);
    var after := Reordered(t, columnIds);
    forall i | 0 <= i < |columnIds|
      ensures columnIds[i] in after.columns && after.columns[columnIds[i]] == Column(b, i)
    {
      assert columnIds[i] in Elements(columnIds);
      var k := IndexOf(columnIds, columnIds[i]);
      assert k == i;
    }
    forall c | c in t.columns && t.columns[c].board != b ensures after.columns[c] == t.columns[c] {
      assert c !in Elements(columnIds);
    }
  }

  // ─── The invariant ─────────────────────────────────────

  ghost predicate HomeIs(home: map<Entity, ProjectId>, e: Entity, project: ProjectId) {
    e in home && home[e] == project
  }

  /** What is in the tables has its project on record. */
  ghost predicate Homed(t: Tables, home: map<Entity, ProjectId>) {
    && (forall i | i in t.issues :: HomeIs(home, AnIssue(i), t.issues[i].project))
    && (forall s | s in t.sprints :: t.sprints[s] in t.boards && HomeIs(home, ASprint(s), t.boards[t.sprints[s]]))
    && (forall c | c in t.columns :: t.columns[c].board in t.boards &&
                                     HomeIs(home, AColumn(c), t.boards[t.columns[c].board]))
  }

  /** A row's references, whether or not they still lead anywhere, are of its own project. */
  ghost predicate RowScoped(home: map<Entity, ProjectId>, row: Issue) {
    && (row.parent.Some? ==> HomeIs(home, AnIssue(row.parent.value), row.project))
    && (row.epic.Some? ==> HomeIs(home, AnIssue(row.epic.value), row.project))
    && (row.sprint.Some? ==> HomeIs(home, ASprint(row.sprint.value), row.project))
    && (row.column.Some? ==> HomeIs(home, AColumn(row.column.value), row.project))
  }

  /** Members are accounts. */
  ghost predicate Known(people: People) {
    (forall m | m in people.team :: m.1 in people.users) && (forall m | m in people.staff :: m.1 in people.users)
  }

  ghost predicate TablesOk(t: Tables, home: map<Entity, ProjectId>) {
    Homed(t, home) && Known(t.people) && forall i | i in t.issues :: RowScoped(home, t.issues[i]) &&
                                                                     RowLeads(t, t.issues[i])
  }

  /** A write that a call has decided on keeps its sense as long as it waits, because nothing changes its project. */
  ghost predicate WriteOk(home: map<Entity, ProjectId>, w: Write) {
    && (w.Insert? ==> RowScoped(home, w.row))
    && (w.Patch? ==> forall i | i in w.ids ::
          && AnIssue(i) in home
          && (w.edit.epic.Set? ==> HomeIs(home, AnIssue(w.edit.epic.value), home[AnIssue(i)]))
          && (w.edit.sprint.Set? ==> HomeIs(home, ASprint(w.edit.sprint.value), home[AnIssue(i)]))
          && (w.edit.column.Set? ==> HomeIs(home, AColumn(w.edit.column.value), home[AnIssue(i)])))
  }

  ghost predicate PcOk(home: map<Entity, ProjectId>, pc: Pc) {
    pc.Writing? ==> forall k | 0 <= k < |pc.writes| :: WriteOk(home, pc.writes[k])
  }

  ghost predicate Inv(s: State) {
    TablesOk(s.t, s.home) && forall op | op in s.ops :: PcOk(s.home, s.ops[op])
  }

  ghost predicate Grows(home: map<Entity, ProjectId>, more: map<Entity, ProjectId>) {
    forall e | e in home :: e in more && more[e] == home[e]
  }

  lemma PcStaysOk(home: map<Entity, ProjectId>, more: map<Entity, ProjectId>, pc: Pc)
    requires PcOk(home, pc) && Grows(home, more)
    ensures PcOk(more, pc)
  {
    if pc.Writing? {
      forall k | 0 <= k < |pc.writes| ensures WriteOk(more, pc.writes[k]) { assert WriteOk(home, pc.writes[k]); }
    }
  }

  lemma InsertKeepsOk(t: Tables, home: map<Entity, ProjectId>, w: Write)
    requires TablesOk(t, home) && WriteOk(home, w) && w.Insert? && AnIssue(w.id) !in home && Apply(t, w).Some?
    ensures TablesOk(Apply(t, w).value, HomeAfter(home, w))
  {
    var after, more := Apply(t, w).value, HomeAfter(home, w);
    forall i | i in after.issues ensures RowScoped(more, after.issues[i]) && RowLeads(after, after.issues[i]) {
      if i != w.id { assert RowScoped(home, t.issues[i]) && RowLeads(t, t.issues[i]); }
    }
  }

  lemma PatchKeepsOk(t: Tables, home: map<Entity, ProjectId>, w: Write)
    requires TablesOk(t, home) && WriteOk(home, w) && w.Patch? && Apply(t, w).Some?
    ensures TablesOk(Apply(t, w).value, home)
  {
    var after := Apply(t, w).value;
    assert after.issues.Keys == t.issues.Keys;
    forall i | i in after.issues ensures RowScoped(home, after.issues[i]) && RowLeads(after, after.issues[i]) {
      assert RowScoped(home, t.issues[i]) && RowLeads(t, t.issues[i]) && HomeIs(home, AnIssue(i), t.issues[i].project);
    }
  }

  lemma DropKeepsOk(t: Tables, home: map<Entity, ProjectId>, w: Write)
    requires TablesOk(t, home) && !w.Insert? && !w.Patch? && Apply(t, w).Some?
    ensures TablesOk(Apply(t, w).value, home)
  {
    var after := Apply(t, w).value;
    forall i | i in after.issues ensures RowScoped(home, after.issues[i]) && RowLeads(after, after.issues[i]) {
      assert RowScoped(home, t.issues[i]) && RowLeads(t, t.issues[i]);
    }
  }

  /** Whatever has happened since the check, the write itself cannot leave the project. */
  lemma ApplyKeepsOk(t: Tables, home: map<Entity, ProjectId>, w: Write)
    requires TablesOk(t, home) && WriteOk(home, w) && Apply(t, w).Some? && (w.Insert? ==> AnIssue(w.id) !in home)
    ensures TablesOk(Apply(t, w).value, HomeAfter(home, w))
  {
    if w.Insert? { InsertKeepsOk(t, home, w); } else if w.Patch? { PatchKeepsOk(t, home, w); }
         else { DropKeepsOk(t, home, w); }
  }

  /** The scope checks of the call give the write its sense. */
  lemma CheckedIsOk(t: Tables, home: map<Entity, ProjectId>, r: Request)
    requires TablesOk(t, home) && Plausible(t, r) && Check(t, r).Ok?
    ensures PcOk(home, Writing(Check(t, r).value))
  {
    if r.BulkUpdate? {
      BulkCheckIff(t, r.ids, r.sprintTo, r.assigneeTo);
    }
  }

  /** The bulk update's tests, which compare projects and count memberships, say exactly that every issue of the batch
      exists and is of the sprint's project, and that the assignee is a member of the workspace of each. */
  lemma BulkCheckIff(t: Tables, ids: seq<IssueId>, sprint: Change<SprintId>, assignee: Change<UserId>)
    ensures BulkError(t, ids, sprint, assignee).None? <==>
            ids != [] && (forall i | i in ids :: i in t.issues) &&
            (sprint.Set? ==> sprint.value in t.sprints && t.sprints[sprint.value] in t.boards &&
                             forall i | i in ids :: t.issues[i].project == t.boards[t.sprints[sprint.value]]) &&
            (assignee.Set? ==>
               forall i | i in ids && t.issues[i].project in t.projects ::
                 (t.projects[t.issues[i].project], assignee.value) in t.people.staff)
  {
    assert Elements(ids) <= t.issues.Keys <==> forall i | i in ids :: i in t.issues;
    if ids != [] && Elements(ids) <= t.issues.Keys {
      assert ids[0] in ids && ids[0] in Elements(ids);
      assert t.issues[ids[0]].project in ProjectsOf(t, Elements(ids));
      if assignee.Set? { MembershipsIff(t, Elements(ids), assignee.value); }
    }
  }

  /** A batch is first looked at as a list of issues: an empty one and one with an unknown issue are told apart. */
  lemma BatchErrorsAre(t: Tables, ids: seq<IssueId>, sprint: Change<SprintId>, assignee: Change<UserId>)
    ensures var update, delete := BulkError(t, ids, sprint, assignee), Check(t, BulkDelete(ids));
            && (update == Some(EmptyBatch) <==> ids == []) && (delete == Err(EmptyBatch) <==> ids == [])
            && (update == Some(IssueNotFound) <==> exists i :: i in ids && i !in t.issues)
            && (delete == Err(IssueNotFound) <==> exists i :: i in ids && i !in t.issues)
            && (delete.Ok? <==> ids != [] && forall i | i in ids :: i in t.issues)
  {
    assert Elements(ids) <= t.issues.Keys <==> forall i | i in ids :: i in t.issues;
  }

  predicate StaffOf(t: Tables, user: UserId, project: ProjectId) {
    project in t.projects ==> (t.projects[project], user) in t.people.staff
  }

  /** As many memberships as workspaces means a membership in each. */
  lemma MembershipsIff(t: Tables, ids: set<IssueId>, user: UserId)
    requires ids <= t.issues.Keys
    ensures var ws := WorkspacesOf(t, ProjectsOf(t, ids));
            |Memberships(t, user, ws)| == |ws| <==> forall i | i in ids :: StaffOf(t, user, t.issues[i].project)
  {
    var projects := ProjectsOf(t, ids);
    var ws := WorkspacesOf(t, projects);
    var mine := Memberships(t, user, ws);
    assert ws == mine + (ws - mine);
    if |mine| == |ws| {
      assert ws - mine == {};
      forall i | i in ids ensures StaffOf(t, user, t.issues[i].project) {
        var p := t.issues[i].project;
        assert p in projects;
        assert p in t.projects ==> t.projects[p] in ws && t.projects[p] in mine;
      }
    } else {
      var w :| w in ws && w !in mine;
      var p :| p in projects && p in t.projects && t.projects[p] == w;
      var i :| i in ids && t.issues[i].project == p;
      assert !StaffOf(t, user, t.issues[i].project);
    }
  }

  /** An update is accepted exactly when its issue exists, the epic and sprint it sets are of the issue's project, a new
      reporter is a member of the project named by one of its leads or admins, and its dates can be read. Whom it
      assigns is not looked at. */
  lemma UpdateCheckIff(t: Tables, id: IssueId, actor: UserId, edit: Edit, datesParse: bool)
    ensures Check(t, UpdateIssue(id, actor, edit, datesParse)).Ok? <==>
            && id in t.issues && datesParse
            && (edit.epic.Set? ==> edit.epic.value in t.issues &&
                                   t.issues[edit.epic.value].project == t.issues[id].project)
            && (edit.sprint.Set? ==> edit.sprint.value in t.sprints && t.sprints[edit.sprint.value] in t.boards &&
                                     t.boards[t.sprints[edit.sprint.value]] == t.issues[id].project)
            && (edit.reporter.Some? && edit.reporter.value != t.issues[id].reporter ==>
                  && (t.issues[id].project, actor) in t.people.team
                  && t.people.team[(t.issues[id].project, actor)] != DEVELOPER
                  && t.people.team[(t.issues[id].project, actor)] != VIEWER
                  && (t.issues[id].project, edit.reporter.value) in t.people.team)
  {
  }

  predicate RunsProject(t: Tables, project: ProjectId, user: UserId) {
    (project, user) in t.people.team &&
        (t.people.team[(project, user)] == LEAD || t.people.team[(project, user)] == ADMIN)
  }

  ghost predicate KeysStay(t: Tables, later: Tables) {
    && t.sprints.Keys <= later.sprints.Keys && t.columns.Keys <= later.columns.Keys
    && t.projects.Keys <= later.projects.Keys && t.people.users <= later.people.users
  }

  lemma RowStaysOk(t: Tables, later: Tables, home: map<Entity, ProjectId>, more: map<Entity, ProjectId>, row: Issue)
    requires RowScoped(home, row) && RowLeads(t, row) && Grows(home, more)
    requires later.issues == t.issues && KeysStay(t, later)
    ensures RowScoped(more, row) && RowLeads(later, row)
  {
  }

  lemma ReorderedHomed(t: Tables, home: map<Entity, ProjectId>, columnIds: seq<ColumnId>)
    requires Homed(t, home)
    ensures Homed(Reordered(t, columnIds), home) && Reordered(t, columnIds).columns.Keys == t.columns.Keys
  {
    hide HomeIs;
  }

  lemma AddedColumnHomed(t: Tables, home: map<Entity, ProjectId>, c: ColumnId, b: BoardId)
    requires Homed(t, home) && AColumn(c) !in home && b in t.boards
    ensures Homed(AddedColumn(t, c, b), home[AColumn(c) := t.boards[b]])
  {
    hide MaxPosition;
  }

  lemma PeopleStay(s: State, e: Event)
    requires Homed(s.t, s.home) && Known(s.t.people) && (e.AddUser? || e.SetRole? || e.SetStaff?)
    ensures HomesStayed(s, e)
  {
    var people := Step(s, e).t.people;
    assert Step(s, e) == s.(t := s.t.(people := people));
    HomedFrame(s.t, s.home, people);
    if e.SetRole? && e.u in s.t.people.users { KnownStays(s.t.people, e.p, e.u, e.role); }
    hide Homed;
  }

  lemma HomedFrame(t: Tables, home: map<Entity, ProjectId>, people: People)
    ensures Homed(t, home) ==> Homed(t.(people := people), home)
  {
    hide HomeIs;
  }

  lemma KnownStays(people: People, p: ProjectId, u: UserId, role: Option<Role>)
    requires Known(people) && u in people.users
    ensures Known(WithRole(people, p, u, role))
  {
  }

  ghost predicate HomesStayed(s: State, e: Event) {
    var n := Step(s, e);
    Homed(n.t, n.home) && Known(n.t.people) && Grows(s.home, n.home) && n.t.issues == s.t.issues && KeysStay(s.t, n.t)
  }

  lemma ColumnsStay(s: State, e: Event)
    requires Homed(s.t, s.home) && Known(s.t.people) && (e.AddColumn? || e.Reorder?)
    ensures HomesStayed(s, e)
  {
    if e.Reorder? {
      ReorderedHomed(s.t, s.home, e.columnIds);
      hide Reordered, ReorderError, Homed, Known;
      assert Step(s, e).home == s.home;
    } else {
      if AColumn(e.c) !in s.home && e.b in s.t.boards { AddedColumnHomed(s.t, s.home, e.c, e.b); }
      hide MaxPosition, Homed, Known;
    }
  }

  lemma HomesStay(s: State, e: Event)
    requires Homed(s.t, s.home) && Known(s.t.people) && !e.Begin? && !e.Continue?
    ensures HomesStayed(s, e)
  {
    hide HomesStayed, Homed, Known;
    if e.AddUser? || e.SetRole? || e.SetStaff? {
      PeopleStay(s, e);
    } else if e.AddColumn? || e.Reorder? {
      ColumnsStay(s, e);
    } else {
      AddedStay(s, e);
    }
  }

  lemma AddedStay(s: State, e: Event)
    requires Homed(s.t, s.home) && Known(s.t.people) && (e.AddProject? || e.AddBoard? || e.AddSprint?)
    ensures HomesStayed(s, e)
  {
    if e.AddBoard? && e.b !in s.t.boards {
      AddedBoardHomed(s.t, s.home, e.b, e.p);
    } else if e.AddSprint? && ASprint(e.s) !in s.home && e.b in s.t.boards {
      AddedSprintHomed(s.t, s.home, e.s, e.b);
    } else if e.AddProject? && e.p !in s.t.projects {
      AddedProjectHomed(s.t, s.home, e.p, e.w);
    }
    hide Homed, Known;
  }

  lemma AddedProjectHomed(t: Tables, home: map<Entity, ProjectId>, p: ProjectId, w: WorkspaceId)
    ensures Homed(t, home) ==> Homed(t.(projects := t.projects[p := w]), home)
  {
    hide HomeIs;
  }

  lemma AddedBoardHomed(t: Tables, home: map<Entity, ProjectId>, b: BoardId, p: ProjectId)
    requires Homed(t, home) && b !in t.boards
    ensures Homed(t.(boards := t.boards[b := p]), home)
  {
    hide HomeIs;
  }

  lemma AddedSprintHomed(t: Tables, home: map<Entity, ProjectId>, x: SprintId, b: BoardId)
    requires Homed(t, home) && ASprint(x) !in home && b in t.boards
    ensures Homed(t.(sprints := t.sprints[x := b]), home[ASprint(x) := t.boards[b]])
  {
  }

  lemma TablesStayOk(s: State, e: Event)
    requires TablesOk(s.t, s.home) && !e.Begin? && !e.Continue?
    ensures TablesOk(Step(s, e).t, Step(s, e).home) && Grows(s.home, Step(s, e).home)
  {
    var n := Step(s, e);
    HomesStay(s, e);
    hide Homed, Known, RowScoped, RowLeads, Grows, Step;
    forall i | i in n.t.issues ensures RowScoped(n.home, n.t.issues[i]) && RowLeads(n.t, n.t.issues[i]) {
      RowStaysOk(s.t, n.t, s.home, n.home, s.t.issues[i]);
    }
  }

  lemma AddedColumnOk(t: Tables, home: map<Entity, ProjectId>, c: ColumnId, b: BoardId)
    requires TablesOk(t, home) && AColumn(c) !in home && b in t.boards
    ensures TablesOk(AddedColumn(t, c, b), home[AColumn(c) := t.boards[b]])
  {
    TablesStayOk(State(t, home, map[]), AddColumn(c, b));
    hide TablesOk, AddedColumn;
  }

  lemma ReorderedOk(t: Tables, home: map<Entity, ProjectId>, b: BoardId, columnIds: seq<ColumnId>)
    requires TablesOk(t, home) && !ReorderError(t, b, columnIds)
    ensures TablesOk(Reordered(t, columnIds), home)
  {
    TablesStayOk(State(t, home, map[]), Reorder(b, columnIds));
    hide TablesOk, Reordered, ReorderError;
  }

  lemma AddedSprintOk(t: Tables, home: map<Entity, ProjectId>, x: SprintId, b: BoardId)
    requires TablesOk(t, home) && ASprint(x) !in home && b in t.boards
    ensures TablesOk(t.(sprints := t.sprints[x := b]), home[ASprint(x) := t.boards[b]])
  {
    TablesStayOk(State(t, home, map[]), AddSprint(x, b));
    hide TablesOk;
  }

  lemma AdvanceKeepsInv(s: State, op: OpId)
    requires Inv(s) && op in s.ops && s.ops[op].Writing? && s.ops[op].writes != []
    ensures Inv(Advance(s, op))
  {
    var n, w := Advance(s, op), s.ops[op].writes[0];
    assert PcOk(s.home, s.ops[op]) && WriteOk(s.home, w);
    if n.ops[op].Writing? {
      ApplyKeepsOk(s.t, s.home, w);
    }
    forall o | o in n.ops ensures PcOk(n.home, n.ops[o]) {
      PcStaysOk(s.home, n.home, s.ops[o]);
    }
  }

  lemma StepKeepsInv(s: State, e: Event)
    requires Inv(s)
    ensures Inv(Step(s, e))
  {
    var n := Step(s, e);
    if e.Continue? {
      if n != s { AdvanceKeepsInv(s, e.op); }
    } else if e.Begin? {
      if n != s && Check(s.t, e.r).Ok? { CheckedIsOk(s.t, s.home, e.r); }
    } else {
      TablesStayOk(s, e);
      hide TablesOk, PcOk;
      forall o | o in n.ops ensures PcOk(n.home, n.ops[o]) { PcStaysOk(s.home, n.home, s.ops[o]); }
    }
  }

  lemma {:induction false} RunKeepsInv(events: seq<Event>)
    ensures Inv(Run(Empty, events))
  {
    if events != [] {
      RunKeepsInv(events[..|events| - 1]);
      StepKeepsInv(Run(Empty, events[..|events| - 1]), events[|events| - 1]);
    }
  }

  // ─── Main results ──────────────────────────────────────

  ghost predicate RefsInScope(t: Tables, project: ProjectId, parent: Option<IssueId>, epic: Option<IssueId>,
                              sprint: Option<SprintId>) {
    && (parent.Some? ==> parent.value in t.issues && t.issues[parent.value].project == project)
    && (epic.Some? ==> epic.value in t.issues && t.issues[epic.value].project == project)
    && (sprint.Some? ==> sprint.value in t.sprints && t.sprints[sprint.value] in t.boards &&
                         t.boards[t.sprints[sprint.value]] == project)
  }

  /** An issue's references lead to rows of its own project. */
  ghost predicate InScope(t: Tables, row: Issue) {
    && RefsInScope(t, row.project, row.parent, row.epic, row.sprint)
    && (row.column.Some? ==> row.column.value in t.columns && t.columns[row.column.value].board in t.boards &&
                             t.boards[t.columns[row.column.value].board] == row.project)
  }

  lemma OkIsInScope(t: Tables, home: map<Entity, ProjectId>, i: IssueId)
    requires TablesOk(t, home) && i in t.issues
    ensures InScope(t, t.issues[i])
  {
    assert RowScoped(home, t.issues[i]) && RowLeads(t, t.issues[i]);
  }

  /** However creates, updates, moves, bulk edits, deletions, spawns and changes to columns and sprints interleave,
      every parent, epic, sprint and column of an issue exists and belongs to the issue's project; its assignee and
      reporter have accounts. */
  lemma ReferencesStayInScope(events: seq<Event>, i: IssueId)
    requires i in Run(Empty, events).t.issues
    ensures InScope(Run(Empty, events).t, Run(Empty, events).t.issues[i])
    ensures var row := Run(Empty, events).t.issues[i];
            Leads(row.assignee, Run(Empty, events).t.people.users) && row.reporter in Run(Empty, events).t.people.users
  {
    RunKeepsInv(events);
    OkIsInScope(Run(Empty, events).t, Run(Empty, events).home, i);
  }

  /** The people whose existence a call does not check. */
  predicate Exist(t: Tables, r: Request) {
    match r
    case CreateIssue(_, row) => Leads(row.assignee, t.people.users) && row.reporter in t.people.users
    case Spawn(_, row) => Leads(row.assignee, t.people.users) && row.reporter in t.people.users
    case UpdateIssue(id, _, edit, _) =>
      SetLeads(edit.assignee, t.people.users)
    case _ => true
  }

  /** With nothing between check and write, the database objects exactly when a person is named who does not exist and
      whom the call did not look up: never to a bulk update, because it does look the assignee up. */
  lemma CheckedApplies(t: Tables, home: map<Entity, ProjectId>, r: Request)
    requires TablesOk(t, home) && Plausible(t, r) && Check(t, r).Ok? && Check(t, r).value != []
    ensures Apply(t, Check(t, r).value[0]).Some? <==> Exist(t, r)
    ensures r.DeleteSprint? ==> Apply(Apply(t, Check(t, r).value[0]).value, Check(t, r).value[1]).Some?
  {
    if r.BulkUpdate? {
      BulkCheckIff(t, r.ids, r.sprintTo, r.assigneeTo);
      assert r.ids[0] in r.ids;
      assert RowLeads(t, t.issues[r.ids[0]]);
    }
    if r.UpdateIssue? {
      assert RowLeads(t, t.issues[r.id]);
    }
  }

  /** Deleting a column touches no issue when nothing comes in between; an issue that was moved into the column after
      the check loses its column, and no other does. */
  lemma DeletedColumnOrphansIff(t: Tables, board: BoardId, c: ColumnId, later: Tables, i: IssueId)
    requires Check(t, DeleteColumn(board, c)).Ok? && c in later.columns && i in later.issues
    ensures var after := Apply(later, DropColumn(c)).value;
            && after.issues.Keys == later.issues.Keys
            && (after.issues[i] != later.issues[i] <==> later.issues[i].column == Some(c))
            && (later == t ==> after.issues == t.issues)
  {
  }

  // ─── The services ──────────────────────────────────────

  /** One call with nothing in between: its check, and its writes one after the other. */
  function Alone(t: Tables, r: Request): (Tables, Option<Error>) {
    match Check(t, r)
    case Err(e) => (t, Some(e))
    case Ok(ws) => (ApplyAll(t, ws), if ws != [] && Apply(t, ws[0]).None? then Some(Rejected) else None)
  }

  function ApplyAll(t: Tables, ws: seq<Write>): Tables
    decreases |ws|
  {
    if ws == [] then t
    else
      var next := Apply(t, ws[0]);
      if next.None? then t else ApplyAll(next.value, ws[1..])
  }

  lemma OneWrite(t: Tables, w: Write)
    ensures ApplyAll(t, [w]) == if Apply(t, w).None? then t else Apply(t, w).value
  {
    assert [w][1..] == [];
  }

  /** A spawned issue has no parent, epic or sprint; a project that is gone gets none. */
  lemma SpawnIs(t: Tables, id: IssueId, row: Issue)
    ensures var (after, error) := Alone(t, Spawn(id, row));
            && after == t.(issues := after.issues) && (error.None? || error == Some(Rejected))
            && (error.Some? <==>
                row.project in t.projects &&
                !(row.reporter in t.people.users && (row.column.Some? ==> row.column.value in t.columns) &&
                  (row.assignee.Some? ==> row.assignee.value in t.people.users)))
            && after.issues == if row.project in t.projects && error.None?
               then t.issues[id := row.(parent := None, epic := None, sprint := None)] else t.issues
  {
    OneWrite(t, Insert(id, row.(parent := None, epic := None, sprint := None)));
  }

  /** When the database refuses a write, whatever was read before. */
  lemma RefusedIff(t: Tables, w: Write)
    ensures Apply(t, w).None? <==>
            match w
            case Insert(_, row) =>
              !(&& (row.parent.Some? ==> row.parent.value in t.issues)
                && (row.epic.Some? ==> row.epic.value in t.issues)
                && (row.sprint.Some? ==> row.sprint.value in t.sprints)
                && (row.column.Some? ==> row.column.value in t.columns)
                && (row.assignee.Some? ==> row.assignee.value in t.people.users)
                && row.reporter in t.people.users && row.project in t.projects)
            case Patch(ids, edit, one) =>
              (one && exists i :: i in ids && i !in t.issues) ||
              !(&& (edit.epic.Set? ==> edit.epic.value in t.issues)
                && (edit.sprint.Set? ==> edit.sprint.value in t.sprints)
                && (edit.column.Set? ==> edit.column.value in t.columns)
                && (edit.assignee.Set? ==> edit.assignee.value in t.people.users)
                && (edit.reporter.Some? ==> edit.reporter.value in t.people.users))
            case DropIssues(ids, one) => one && exists i :: i in ids && i !in t.issues
            case Unassign(_) => false
            case DropSprint(s) => s !in t.sprints
            case DropColumn(c) => c !in t.columns
  {
  }

  /** A call first checks, and then makes its writes one at a time; the first that the database refuses ends it. */
  lemma StepsAre(s: State, op: OpId, r: Request)
    ensures op !in s.ops && Plausible(s.t, r) ==> Step(s, Begin(op, r)) == s.(ops := s.ops[op :=
              if Check(s.t, r).Ok? then Writing(Check(s.t, r).value) else Refused])
    ensures op in s.ops && s.ops[op].Writing? && s.ops[op].writes != [] ==>
              var w, t := s.ops[op].writes[0], Step(s, Continue(op));
              if Apply(s.t, w).Some? && (w.Insert? ==> AnIssue(w.id) !in s.home)
              then t.t == Apply(s.t, w).value && t.ops == s.ops[op := Writing(s.ops[op].writes[1..])] &&
                   t.home == if w.Insert? then s.home[AnIssue(w.id) := w.row.project] else s.home
              else t == s.(ops := s.ops[op := Refused])
  {
    hide Check, Apply;
  }

  /** Members come and go meanwhile; only accounts are members. */
  lemma MembersChange(s: State, p: ProjectId, w: WorkspaceId, u: UserId, role: Option<Role>, member: bool)
    ensures var (t, known) := (s.t, u in s.t.people.users);
            && Step(s, SetRole(p, u, role)) == (if !known || p !in t.projects then s
                 else s.(t := t.(people := t.people.(team :=
                           if role.None? then t.people.team - {(p, u)} else t.people.team[(p, u) := role.value]))))
            && Step(s, SetStaff(w, u, member)) == if !known then s
                 else s.(t := t.(people := t.people.(staff :=
                           if member then t.people.staff + {(w, u)} else t.people.staff - {(w, u)})))
  {
  }

  ghost predicate SetTo<T(!new)>(c: Change<T>, was: Option<T>, now: Option<T>) {
    now == if c.Keep? then was else OptionOf(c)
  }

  /** An accepted update changes nothing but its issue, and there only what it names: absent keeps, null clears, a value
      sets; the issue stays in its project, under its parent and in its column. */
  lemma UpdateChangesOnly(t: Tables, id: IssueId, actor: UserId, edit: Edit, datesParse: bool, i: IssueId)
    requires Check(t, UpdateIssue(id, actor, edit, datesParse)).Ok? && i in t.issues
    ensures var (after, error) := Alone(t, UpdateIssue(id, actor, edit, datesParse));
            && after == t.(issues := after.issues) && after.issues.Keys == t.issues.Keys
            && (i != id || error.Some? ==> after.issues[i] == t.issues[i])
            && (error.None? ==> var was, row := t.issues[id], after.issues[id];
                  && row.project == was.project && row.parent == was.parent && row.column == was.column
                  && SetTo(edit.epic, was.epic, row.epic) && SetTo(edit.sprint, was.sprint, row.sprint)
                  && SetTo(edit.assignee, was.assignee, row.assignee)
                  && (row.reporter != was.reporter ==> RunsProject(t, was.project, actor) &&
                                                       (was.project, row.reporter) in t.people.team)
                  && (edit.reporter.Some? ==> row.reporter == edit.reporter.value)
                  && PlainAfter(edit.plain, was.plain, row.plain))
  {
    OneWrite(t, Patch({id}, edit.(column := Keep), true));
  }

  ghost predicate PlainAfter(named: Plain, was: Plain, now: Plain) {
    && now.Keys == was.Keys + named.Keys
    && forall k | k in now :: now[k] == if k in named then named[k] else was[k]
  }

  /** An accepted move changes nothing but the column of its issue. */
  lemma MoveChangesOnly(t: Tables, id: IssueId, column: ColumnId, i: IssueId)
    requires Check(t, MoveIssue(id, column)).Ok? && i in t.issues
    ensures var after := Alone(t, MoveIssue(id, column)).0;
            && after == t.(issues := after.issues) && after.issues.Keys == t.issues.Keys
            && after.issues[i] == if i == id then t.issues[i].(column := Some(column)) else t.issues[i]
  {
    OneWrite(t, Patch({id}, NO_EDIT.(column := Set(column)), true));
    assert t.issues[id].plain + map[] == t.issues[id].plain;
  }

  /** An accepted bulk update changes nothing but the sprint, the assignee and the priority of the issues listed, and of
      those only what it names. */
  lemma BulkChangesOnly(t: Tables, home: map<Entity, ProjectId>, ids: seq<IssueId>, sprint: Change<SprintId>,
                        assignee: Change<UserId>, priority: Option<string>, i: IssueId)
    requires TablesOk(t, home) && Check(t, BulkUpdate(ids, sprint, assignee, priority)).Ok? && i in t.issues
    ensures var (after, error) := Alone(t, BulkUpdate(ids, sprint, assignee, priority));
            && error.None? && after == t.(issues := after.issues) && after.issues.Keys == t.issues.Keys
            && (i !in ids ==> after.issues[i] == t.issues[i])
            && (i in ids ==> var was, row := t.issues[i], after.issues[i];
                  && row.(sprint := None, assignee := None, plain := map[]) ==
                     was.(sprint := None, assignee := None, plain := map[])
                  && SetTo(sprint, was.sprint, row.sprint) && SetTo(assignee, was.assignee, row.assignee)
                  && PlainAfter(if priority.Some? then map["priority" := priority] else map[], was.plain, row.plain))
  {
    CheckedApplies(t, home, BulkUpdate(ids, sprint, assignee, priority));
    OneWrite(t, Patch(Elements(ids), BulkEdit(sprint, assignee, priority), false));
  }

  /** A deletion removes exactly its issues; what pointed at one of them as parent or epic points nowhere, and nothing
      else changes. */
  lemma DeleteChangesOnly(t: Tables, ids: seq<IssueId>, i: IssueId)
    requires Check(t, BulkDelete(ids)).Ok? && i in t.issues
    ensures var after := Alone(t, BulkDelete(ids)).0;
            && after == t.(issues := after.issues) && (i in after.issues <==> i !in ids)
            && (i !in ids ==> var row := after.issues[i];
                  && row.(parent := None, epic := None) == t.issues[i].(parent := None, epic := None)
                  && (row.parent != t.issues[i].parent <==> t.issues[i].parent.Some? && t.issues[i].parent.value in ids)
                  && (row.epic != t.issues[i].epic <==> t.issues[i].epic.Some? && t.issues[i].epic.value in ids)
                  && (row.parent != t.issues[i].parent ==> row.parent == None) &&
                     (row.epic != t.issues[i].epic ==> row.epic == None))
    ensures |ids| == 1 ==> Alone(t, BulkDelete(ids)).0 == Alone(t, DeleteIssue(ids[0])).0
  {
    OneWrite(t, DropIssues(Elements(ids), false));
    if |ids| == 1 {
      assert ids == [ids[0]] && Elements(ids) == {ids[0]};
      OneWrite(t, DropIssues({ids[0]}, true));
    }
  }

  /** The two writes one after the other: the second finds no issue left in the sprint. */
  lemma DeletedSprint(t: Tables, home: map<Entity, ProjectId>, s: SprintId)
    requires TablesOk(t, home) && s in t.sprints
    ensures var after := t.(sprints := t.sprints - {s}, issues := SprintCleared(t.issues, s));
            TablesOk(after, home) && Alone(t, DeleteSprint(s)) == (after, None)
  {
    hide TablesOk;
    var mid := t.(issues := SprintCleared(t.issues, s));
    DropKeepsOk(t, home, Unassign(s));
    DropKeepsOk(mid, home, DropSprint(s));
    assert SprintCleared(mid.issues, s) == mid.issues;
    assert ApplyAll(t, [Unassign(s), DropSprint(s)]) == ApplyAll(mid, [DropSprint(s)]) by {
      assert [Unassign(s), DropSprint(s)][1..] == [DropSprint(s)];
    }
    OneWrite(mid, DropSprint(s));
  }

  class IssueServices {
    var projects: map<ProjectId, WorkspaceId>
    var boards: map<BoardId, ProjectId>
    var columns: map<ColumnId, Column>
    var sprints: map<SprintId, BoardId>
    var issues: map<IssueId, Issue>
    var people: People
    ghost var home: map<Entity, ProjectId>

    function Snapshot(): Tables
      reads this
    {
      Tables(projects, boards, columns, sprints, issues, people)
    }

    ghost predicate Valid()
      reads this
    {
      TablesOk(Snapshot(), home)
    }

    constructor (projects: map<ProjectId, WorkspaceId>, boards: map<BoardId, ProjectId>, people: People)
      requires Known(people)
      ensures Valid() && Snapshot() == Tables(projects, boards, map[], map[], map[], people)
    {
      this.projects, this.boards, this.people := projects, boards, people;
      columns, sprints, issues, home := map[], map[], map[], map[];
    }

    /** Nothing is wrong exactly if an issue of the project with these references would be in scope; an error names the
        first reference that would not be. */
    method AssertIssueFkScope(parent: Option<IssueId>, epic: Option<IssueId>, sprint: Option<SprintId>,
                              project: ProjectId)
      returns (r: Option<Error>)
      ensures r.None? <==> RefsInScope(Snapshot(), project, parent, epic, sprint)
      ensures r == Some(ParentNotInProject) <==> !RefsInScope(Snapshot(), project, parent, None, None)
      ensures r == Some(EpicNotInProject) ==> !RefsInScope(Snapshot(), project, None, epic, None)
      ensures r == Some(SprintNotInProject) ==> !RefsInScope(Snapshot(), project, None, None, sprint)
      ensures r == FkScopeError(Snapshot(), parent, epic, sprint, project)
    {
      if parent.Some? && (parent.value !in issues || issues[parent.value].project != project) {
        return Some(ParentNotInProject);
      }
      if epic.Some? && (epic.value !in issues || issues[epic.value].project != project) {
        return Some(EpicNotInProject);
      }
      if sprint.Some? && (sprint.value !in sprints || sprints[sprint.value] !in boards ||
                          boards[sprints[sprint.value]] != project) {
        return Some(SprintNotInProject);
      }
      return None;
    }

    ghost method Settle(was: Tables, r: Request, w: Write)
      requires TablesOk(was, home) && Plausible(was, r) && Check(was, r) == Ok([w]) &&
               (w.Insert? ==> AnIssue(w.id) !in home)
      requires Apply(was, w) == Some(Snapshot())
      modifies `home
      ensures Valid() && Snapshot() == Alone(was, r).0
    {
      CheckedIsOk(was, home, r);
      assert WriteOk(home, [w][0]);
      ApplyKeepsOk(was, home, w);
      assert ApplyAll(was, [w]) == Snapshot() by { assert [w][1..] == []; }
      home := HomeAfter(home, w);
    }

    /** The acting user is the reporter; the assignee is whoever the request names. */
    method Create(id: IssueId, row: Issue) returns (r: Option<Error>)
      requires Valid() && AnIssue(id) !in home && IsFirst(Snapshot(), row.project, row.column)
      modifies this
      ensures Valid() && (Snapshot(), r) == Alone(old(Snapshot()), CreateIssue(id, row))
      ensures r == Some(ProjectNotFound) <==> row.project !in projects
      ensures r == None <==>
              && row.project in projects && RefsInScope(old(Snapshot()), row.project, row.parent, row.epic, row.sprint)
              && row.reporter in people.users && (row.assignee.Some? ==> row.assignee.value in people.users)
      ensures Snapshot() == old(Snapshot()).(issues := issues)
      ensures issues == if r.None? then old(issues)[id := row] else old(issues)
    {
      if row.project !in projects {
        return Some(ProjectNotFound);
      }
      var error := AssertIssueFkScope(row.parent, row.epic, row.sprint, row.project);
      if error.Some? {
        return error;
      }
      ghost var was, request := Snapshot(), CreateIssue(id, row);
      CheckedApplies(was, home, request);
      OneWrite(was, Insert(id, row));
      if row.reporter !in people.users || (row.assignee.Some? && row.assignee.value !in people.users) {
        return Some(Rejected);
      }
      issues := issues[id := row];
      Settle(was, request, Insert(id, row));
      return None;
    }

    method AssertMayChangeReporter(row: Issue, actor: UserId, reporter: Option<UserId>) returns (r: Option<Error>)
      ensures r.None? <==> reporter.None? || reporter.value == row.reporter ||
                           (RunsProject(Snapshot(), row.project, actor) && (row.project, reporter.value) in people.team)
      ensures r == Some(MayNotChangeReporter) ==> !RunsProject(Snapshot(), row.project, actor)
      ensures r == ReporterError(Snapshot(), row, actor, reporter)
    {
      if reporter.None? || reporter.value == row.reporter {
        return None;
      }
      if (row.project, actor) !in people.team || people.team[(row.project, actor)] !in {LEAD, ADMIN} {
        return Some(MayNotChangeReporter);
      }
      if (row.project, reporter.value) !in people.team {
        return Some(ReporterNotInProject);
      }
      return None;
    }

    method Update(id: IssueId, actor: UserId, edit: Edit, datesParse: bool) returns (r: Option<Error>)
      requires Valid() && edit.column.Keep?
      modifies this
      ensures Valid() && (Snapshot(), r) == Alone(old(Snapshot()), UpdateIssue(id, actor, edit, datesParse))
    {
      if id !in issues {
        return Some(IssueNotFound);
      }
      if !edit.epic.Keep? || !edit.sprint.Keep? {
        var error := AssertIssueFkScope(None, OptionOf(edit.epic), OptionOf(edit.sprint), issues[id].project);
        if error.Some? {
          return error;
        }
      }
      var error := AssertMayChangeReporter(issues[id], actor, edit.reporter);
      if error.Some? {
        return error;
      }
      if !datesParse {
        return Some(InvalidDate);
      }
      ghost var was, request, w := Snapshot(), UpdateIssue(id, actor, edit, datesParse),
          Patch({id}, edit.(column := Keep), true);
      CheckedApplies(was, home, request);
      OneWrite(was, w);
      if edit.assignee.Set? && edit.assignee.value !in people.users {
        return Some(Rejected);
      }
      issues := issues[id := Edited(issues[id], edit)];
      assert issues == PatchedRows(was.issues, w);
      Settle(was, request, w);
      return None;
    }

    method Move(id: IssueId, column: ColumnId) returns (r: Option<Error>)
      requires Valid()
      modifies this
      ensures Valid() && (Snapshot(), r) == Alone(old(Snapshot()), MoveIssue(id, column))
      ensures r == if id !in old(issues) then Some(IssueNotFound)
                   else if column !in columns then Some(ColumnNotFound)
                   else if columns[column].board in boards && boards[columns[column].board] == old(issues)[id].project
                   then None
                   else Some(ColumnNotInBoard)
      ensures issues == if r.None? then old(issues)[id := old(issues)[id].(column := Some(column))] else old(issues)
    {
      if id !in issues {
        return Some(IssueNotFound);
      }
      if column !in columns {
        return Some(ColumnNotFound);
      }
      if columns[column].board !in boards || boards[columns[column].board] != issues[id].project {
        return Some(ColumnNotInBoard);
      }
      ghost var was, request, w := Snapshot(), MoveIssue(id, column),
          Patch({id}, NO_EDIT.(column := Set(column)), true);
      assert issues[id].plain + map[] == issues[id].plain;
      issues := issues[id := issues[id].(column := Some(column))];
      assert issues == PatchedRows(was.issues, w);
      Settle(was, request, w);
      return None;
    }

    method BulkUpdate(ids: seq<IssueId>, sprint: Change<SprintId>, assignee: Change<UserId>, priority: Option<string>)
      returns (r: Option<Error>)
      requires Valid()
      modifies this
      ensures Valid() && (Snapshot(), r) == Alone(old(Snapshot()), Request.BulkUpdate(ids, sprint, assignee, priority))
      ensures r.Some? ==> issues == old(issues)
    {
      if ids == [] {
        return Some(EmptyBatch);
      }
      if !(Elements(ids) <= issues.Keys) {
        return Some(IssueNotFound);
      }
      var projectIds := set i | i in Elements(ids) && i in issues :: issues[i].project;
      assert projectIds == ProjectsOf(Snapshot(), Elements(ids));
      if sprint.Set? {
        if sprint.value !in sprints || sprints[sprint.value] !in boards ||
             boards[sprints[sprint.value]] !in projectIds {
          return Some(SprintNotInProject);
        }
        var sprintProject := boards[sprints[sprint.value]];
        if exists i | i in ids :: i in issues && issues[i].project != sprintProject {
          return Some(MixedProjects);
        }
      }
      if assignee.Set? {
        var workspaceIds := set p | p in projectIds && p in projects :: projects[p];
        assert workspaceIds == WorkspacesOf(Snapshot(), projectIds);
        var memberships := set w | w in workspaceIds && (w, assignee.value) in people.staff;
        assert memberships == Memberships(Snapshot(), assignee.value, workspaceIds);
        if |memberships| != |workspaceIds| {
          return Some(AssigneeNotInWorkspaces);
        }
      }
      var edit := BulkEdit(sprint, assignee, priority);
      ghost var was, request, w := Snapshot(), Request.BulkUpdate(ids, sprint, assignee, priority),
          Patch(Elements(ids), edit, false);
      CheckedApplies(was, home, request);
      issues := map i | i in issues :: if i in Elements(ids) then Edited(issues[i], edit) else issues[i];
      assert issues == PatchedRows(was.issues, w);
      Settle(was, request, w);
      return None;
    }

    method Delete(id: IssueId) returns (r: Option<Error>)
      requires Valid()
      modifies this
      ensures Valid() && (Snapshot(), r) == Alone(old(Snapshot()), DeleteIssue(id))
      ensures r == if id in old(issues) then None else Some(IssueNotFound)
      ensures issues.Keys == old(issues.Keys) - {id}
      ensures forall i | i in issues :: var was := old(issues)[i];
                issues[i] == was.(parent := if was.parent == Some(id) then None else was.parent,
                                  epic := if was.epic == Some(id) then None else was.epic)
    {
      if id !in issues {
        return Some(IssueNotFound);
      }
      ghost var was := Snapshot();
      DropRows({id});
      Settle(was, DeleteIssue(id), DropIssues({id}, true));
      return None;
    }

    method BulkDelete(ids: seq<IssueId>) returns (r: Option<Error>)
      requires Valid()
      modifies this
      ensures Valid() && (Snapshot(), r) == Alone(old(Snapshot()), Request.BulkDelete(ids))
      ensures r.None? <==> ids != [] && forall i | i in ids :: i in old(issues)
      ensures r == Some(EmptyBatch) <==> ids == []
      ensures r.None? || r == Some(EmptyBatch) || r == Some(IssueNotFound)
      ensures if r.Some? then issues == old(issues) else forall i :: i in issues <==> i in old(issues) && i !in ids
    {
      if ids == [] {
        return Some(EmptyBatch);
      }
      if !(Elements(ids) <= issues.Keys) {
        return Some(IssueNotFound);
      }
      ghost var was := Snapshot();
      DropRows(Elements(ids));
      Settle(was, Request.BulkDelete(ids), DropIssues(Elements(ids), false));
      return None;
    }

    /** The delete statement and the database's SET NULL. */
    method DropRows(ids: set<IssueId>)
      modifies `issues
      ensures Some(Snapshot()) == Apply(old(Snapshot()), DropIssues(ids, false))
    {
      issues := RowsWithout(issues, ids);
    }

    /** Two writes: first the issues are taken out of the sprint, then the sprint goes. */
    method DeleteSprint(s: SprintId) returns (r: Option<Error>)
      requires Valid()
      modifies this
      ensures Valid() && (Snapshot(), r) == Alone(old(Snapshot()), Request.DeleteSprint(s))
      ensures r == if s in old(sprints) then None else Some(SprintNotFound)
      ensures sprints == old(sprints) - {s} && issues.Keys == old(issues.Keys)
      ensures forall i | i in issues :: var was := old(issues)[i];
                issues[i] == was.(sprint := if was.sprint == Some(s) then None else was.sprint)
    {
      if s !in sprints {
        return Some(SprintNotFound);
      }
      DeletedSprint(Snapshot(), home, s);
      hide TablesOk, Alone;
      issues := SprintCleared(issues, s);
      sprints := sprints - {s};
      return None;
    }

    method DeleteColumn(board: BoardId, column: ColumnId) returns (r: Option<Error>)
      requires Valid()
      modifies this
      ensures Valid() && (Snapshot(), r) == Alone(old(Snapshot()), Request.DeleteColumn(board, column))
      ensures issues == old(issues)
      ensures r == Some(ColumnNotFound) <==> column !in old(columns) || old(columns)[column].board != board
      ensures r == Some(ColumnHasIssues) <==>
              r != Some(ColumnNotFound) && exists i :: i in issues && issues[i].column == Some(column)
      ensures columns == if r.None? then old(columns) - {column} else old(columns)
    {
      if column !in columns || columns[column].board != board {
        return Some(ColumnNotFound);
      }
      if HasIssues(Snapshot(), column) {
        return Some(ColumnHasIssues);
      }
      ghost var was := Snapshot();
      columns := columns - {column};
      assert issues == ColumnCleared(issues, column);
      Settle(was, Request.DeleteColumn(board, column), DropColumn(column));
      return None;
    }

    method AddColumn(c: ColumnId, b: BoardId, last: int) returns (r: Option<Error>)
      requires Valid() && AColumn(c) !in home &&
               (b in boards ==> last == MaxPosition(columns, ColumnsOf(Snapshot(), b)))
      modifies this
      ensures Valid() && (r.None? <==> b in old(boards))
      ensures Snapshot() == if r.None? then AddedColumn(old(Snapshot()), c, b) else old(Snapshot())
      ensures columns == if r.None? then old(columns)[c := Column(b, last + 1)] else old(columns)
    {
      if b !in boards {
        return Some(ColumnNotFound);
      }
      AddedColumnOk(Snapshot(), home, c, b);
      hide TablesOk, MaxPosition, ColumnsOf;
      columns := columns[c := Column(b, last + 1)];
      home := home[AColumn(c) := boards[b]];
      return None;
    }

    method AddSprint(s: SprintId, b: BoardId)
      requires Valid() && ASprint(s) !in home && b in boards
      modifies this
      ensures Valid() && Snapshot() == old(Snapshot()).(sprints := old(sprints)[s := b])
    {
      AddedSprintOk(Snapshot(), home, s, b);
      hide TablesOk;
      sprints := sprints[s := b];
      home := home[ASprint(s) := boards[b]];
    }

    /** One update per column, in the order given. */
    method PlaceColumns(columnIds: seq<ColumnId>)
      requires Distinct(columnIds) && Elements(columnIds) <= columns.Keys
      modifies `columns
      ensures columns == ReorderedUpTo(old(columns), columnIds, |columnIds|)
    {
      ghost var was := columns;
      ReorderedNone(was, columnIds);
      var index := 0;
      while index < |columnIds|
        invariant 0 <= index <= |columnIds|
        invariant columns == ReorderedUpTo(was, columnIds, index)
      {
        ReorderedSnoc(was, columnIds, index, Elements(columnIds));
        columns := columns[columnIds[index] := columns[columnIds[index]].(position := index)];
        index := index + 1;
      }
    }

    method ReorderColumns(b: BoardId, columnIds: seq<ColumnId>) returns (ok: bool)
      requires Valid()
      modifies this
      ensures Valid() && ok == !ReorderError(old(Snapshot()), b, columnIds)
      ensures Snapshot() == if ok then Reordered(old(Snapshot()), columnIds) else old(Snapshot())
    {
      if ReorderError(Snapshot(), b, columnIds) {
        return false;
      }
      ReorderAcceptsIff(Snapshot(), b, columnIds);
      ReorderedOk(Snapshot(), home, b, columnIds);
      ReorderedAll(Snapshot(), columnIds);
      hide TablesOk, ReorderError, Reordered, ReorderedUpTo, Distinct;
      PlaceColumns(columnIds);
      return true;
    }
  }
}
