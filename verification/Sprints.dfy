/** The life of a sprint. Starting, completing and deleting read the sprint first and write later; any number of them,
    and of edits to the issues, may interleave. */
module Sprints {
  import opened Prelude

  type SprintId = nat
  type BoardId = nat
  type IssueId = nat
  type ColumnId = nat
  type OpId = nat

  datatype Status = PLANNING | ACTIVE | COMPLETED

  datatype Category = TODO | IN_PROGRESS | DONE

  datatype Sprint = Sprint(board: BoardId, status: Status)

  datatype Issue = Issue(sprint: Option<SprintId>, column: Option<ColumnId>)

  datatype Error = NotFound | AlreadyActive | NotActive

  datatype Pc =
    | Starting(id: SprintId, read: Sprint)
    | Completing(id: SprintId)
    | Unassigning(id: SprintId)
    | Deleting(id: SprintId)
    | Done
    | Refused(error: Error)

  /** `born` is history: every sprint id ever used. */
  datatype State = State(sprints: map<SprintId, Sprint>, born: set<SprintId>, issues: map<IssueId, Issue>,
                         columns: map<ColumnId, Category>, ops: map<OpId, Pc>)

  datatype Kind = Start | Complete | Delete

  datatype Event =
    | Create(id: SprintId, board: BoardId)
    | Begin(op: OpId, kind: Kind, id: SprintId)
    | Continue(op: OpId)
    | PutIssue(issue: IssueId, row: Issue)
    | DropIssue(issue: IssueId)
    | SetColumn(column: ColumnId, category: Category)

  const Empty: State := State(map[], {}, map[], map[], map[])

  // ─── Steps ─────────────────────────────────────────────

  predicate HasActive(sprints: map<SprintId, Sprint>, board: BoardId) {
    exists id | id in sprints :: sprints[id].board == board && sprints[id].status == ACTIVE
  }

  predicate IsDone(columns: map<ColumnId, Category>, column: Option<ColumnId>) {
    column.Some? && column.value in columns && columns[column.value] == Category.DONE
  }

  /** The filter on the related column does not match an issue that has none. */
  predicate Unfinished(columns: map<ColumnId, Category>, issue: Issue, id: SprintId) {
    issue.sprint == Some(id) && issue.column.Some? && issue.column.value in columns && !IsDone(columns, issue.column)
  }

  function ToBacklog(issues: map<IssueId, Issue>, columns: map<ColumnId, Category>, id: SprintId): map<IssueId, Issue> {
    map i | i in issues :: if Unfinished(columns, issues[i], id) then issues[i].(sprint := None) else issues[i]
  }

  function Unassigned(issues: map<IssueId, Issue>, id: SprintId): map<IssueId, Issue> {
    map i | i in issues :: if issues[i].sprint == Some(id) then issues[i].(sprint := None) else issues[i]
  }

  /** The transaction of `start`. */
  function StartTx(s: State, id: SprintId, board: BoardId): (State, Pc) {
    if HasActive(s.sprints, board) then (s, Refused(AlreadyActive))
    else if id !in s.sprints || s.sprints[id].status != PLANNING then (s, Refused(AlreadyActive))
    else (s.(sprints := s.sprints[id := s.sprints[id].(status := ACTIVE)]), Pc.Done)
  }

  /** The transaction of `complete`: it does not look at the status again. */
  function CompleteTx(s: State, id: SprintId): (State, Pc) {
    if id !in s.sprints then (s, Refused(NotFound))
    else (s.(issues := ToBacklog(s.issues, s.columns, id),
             sprints := s.sprints[id := s.sprints[id].(status := COMPLETED)]), Pc.Done)
  }

  /** The second write of `delete`; the database clears what still refers to the sprint. */
  function DeleteRow(s: State, id: SprintId): (State, Pc) {
    if id !in s.sprints then (s, Refused(NotFound))
    else (s.(sprints := s.sprints - {id}, issues := Unassigned(s.issues, id)), Pc.Done)
  }

  function ReadPc(s: State, kind: Kind, id: SprintId): Pc {
    if id !in s.sprints then Refused(NotFound)
    else match kind
      case Start => Starting(id, s.sprints[id])
      case Complete => if s.sprints[id].status == ACTIVE then Completing(id) else Refused(NotActive)
      case Delete => Unassigning(id)
  }

  function Advance(s: State, pc: Pc): (State, Pc) {
    match pc
    case Starting(id, read) => StartTx(s, id, read.board)
    case Completing(id) => CompleteTx(s, id)
    case Unassigning(id) => (s.(issues := Unassigned(s.issues, id)), Deleting(id))
    case Deleting(id) => DeleteRow(s, id)
    case Done => (s, pc)
    case Refused(_) => (s, pc)
  }

  function SetPc(s: State, op: OpId, pc: Pc): State {
    s.(ops := s.ops[op := pc])
  }

  function Step(s: State, e: Event): State {
    match e
    case Create(id, board) =>
      if id in s.born then s else s.(sprints := s.sprints[id := Sprint(board, PLANNING)], born := s.born + {id})
    case Begin(op, kind, id) => if op in s.ops then s else SetPc(s, op, ReadPc(s, kind, id))
    case Continue(op) =>
      if op !in s.ops then s else var (t, pc) := Advance(s, s.ops[op]); SetPc(t, op, pc)
    case PutIssue(issue, row) =>
      if row.sprint.Some? && row.sprint.value !in s.sprints then s else s.(issues := s.issues[issue := row])
    case DropIssue(issue) => s.(issues := s.issues - {issue})
    case SetColumn(column, category) => s.(columns := s.columns[column := category])
  }

  function Run(s: State, events: seq<Event>): State {
    if events == [] then s else Step(Run(s, events[..|events| - 1]), events[|events| - 1])
  }

  // ─── The invariant ─────────────────────────────────────

  ghost predicate OneActive(sprints: map<SprintId, Sprint>) {
    forall a, b | a in sprints && b in sprints && sprints[a].board == sprints[b].board &&
                  sprints[a].status == ACTIVE && sprints[b].status == ACTIVE :: a == b
  }

  /** A pending start knows its sprint's board; a pending completion's sprint is past PLANNING, if it still exists. */
  ghost predicate PcOk(s: State, pc: Pc) {
    && (pc.Starting? ==> pc.id in s.born && (pc.id in s.sprints ==> s.sprints[pc.id].board == pc.read.board))
    && (pc.Completing? ==> pc.id in s.born && (pc.id in s.sprints ==> s.sprints[pc.id].status != PLANNING))
  }

  ghost predicate Inv(s: State) {
    && OneActive(s.sprints)
    && s.sprints.Keys <= s.born
    && (forall i | i in s.issues && s.issues[i].sprint.Some? :: s.issues[i].sprint.value in s.sprints)
    && (forall op | op in s.ops :: PcOk(s, s.ops[op]))
  }

  /** Status changes go one step forward, and boards never change. */
  ghost predicate Forward(s: State, t: State) {
    && s.born <= t.born
    && (forall id | id in t.sprints :: id in s.sprints || id !in s.born)
    && forall id | id in s.sprints && id in t.sprints ::
         && t.sprints[id].board == s.sprints[id].board
         && (t.sprints[id].status == s.sprints[id].status ||
             (s.sprints[id].status == PLANNING && t.sprints[id].status == ACTIVE) ||
             (s.sprints[id].status == ACTIVE && t.sprints[id].status == COMPLETED))
  }

  lemma AdvanceKeepsInv(s: State, pc: Pc)
    requires Inv(s) && PcOk(s, pc)
    ensures var (t, next) := Advance(s, pc);
            Forward(s, t) && OneActive(t.sprints) && t.sprints.Keys <= t.born && t.born == s.born && t.ops == s.ops &&
                PcOk(t, next) &&
            forall i | i in t.issues && t.issues[i].sprint.Some? :: t.issues[i].sprint.value in t.sprints
  {
  }

  lemma PcStaysOk(s: State, t: State, pc: Pc)
    requires PcOk(s, pc) && Forward(s, t)
    ensures PcOk(t, pc)
  {
  }

  lemma StepKeepsInv(s: State, e: Event)
    requires Inv(s)
    ensures Inv(Step(s, e)) && Forward(s, Step(s, e))
  {
    var t := Step(s, e);
    if e.Continue? && e.op in s.ops {
      AdvanceKeepsInv(s, s.ops[e.op]);
      PcStaysOk(Advance(s, s.ops[e.op]).0, t, Advance(s, s.ops[e.op]).1);
    }
    assert e.Begin? ==> PcOk(t, ReadPc(s, e.kind, e.id));
    hide PcOk;
    forall op | op in t.ops ensures PcOk(t, t.ops[op]) {
      if op in s.ops && t.ops[op] == s.ops[op] { PcStaysOk(s, t, s.ops[op]); }
    }
  }

  lemma {:induction false} RunKeepsInv(events: seq<Event>)
    ensures Inv(Run(Empty, events))
  {
    if events != [] {
      RunKeepsInv(events[..|events| - 1]);
      StepKeepsInv(Run(Empty, events[..|events| - 1]), events[|events| - 1]);
    }
  }

  // ─── Main results ──────────────────────────────────────

  /** However starts, completions and deletions interleave, a board never has two ACTIVE sprints. */
  lemma AtMostOneActive(events: seq<Event>, a: SprintId, b: SprintId)
    requires var s := Run(Empty, events);
             a in s.sprints && b in s.sprints && s.sprints[a].board == s.sprints[b].board &&
             s.sprints[a].status == ACTIVE && s.sprints[b].status == ACTIVE
    ensures a == b
  {
    RunKeepsInv(events);
  }

  /** No step takes a status backwards or skips one, not even a completion that acts on a stale read. */
  lemma OnlyForward(events: seq<Event>, e: Event, id: SprintId)
    requires id in Run(Empty, events).sprints && id in Step(Run(Empty, events), e).sprints
    ensures var was, now := Run(Empty, events).sprints[id].status, Step(Run(Empty, events), e).sprints[id].status;
            now == was || (was == PLANNING && now == ACTIVE) || (was == ACTIVE && now == COMPLETED)
  {
    RunKeepsInv(events);
    StepKeepsInv(Run(Empty, events), e);
  }

  /** Over any longer stretch: COMPLETED is final, and a sprint that left PLANNING does not return to it. */
  lemma {:induction false} NeverBack(before: seq<Event>, after: seq<Event>, id: SprintId)
    requires id in Run(Empty, before).sprints && id in Run(Empty, before + after).sprints
    ensures var was, now := Run(Empty, before).sprints[id].status, Run(Empty, before + after).sprints[id].status;
            (was == COMPLETED ==> now == COMPLETED) && (was != PLANNING ==> now != PLANNING)
    decreases |after|
  {
    if after == [] {
      assert before + after == before;
    } else {
      var front := before + after[..|after| - 1];
      assert (before + after)[..|before + after| - 1] == front;
      RunKeepsInv(front);
      StepKeepsInv(Run(Empty, front), after[|after| - 1]);
      BornStays(before, after[..|after| - 1], id);
      NeverBack(before, after[..|after| - 1], id);
    }
  }

  lemma {:induction false} BornStays(before: seq<Event>, after: seq<Event>, id: SprintId)
    requires id in Run(Empty, before).sprints
    ensures id in Run(Empty, before + after).born
    decreases |after|
  {
    if after == [] {
      assert before + after == before;
      RunKeepsInv(before);
    } else {
      assert (before + after)[..|before + after| - 1] == before + after[..|after| - 1];
      BornStays(before, after[..|after| - 1], id);
      RunKeepsInv(before + after[..|after| - 1]);
      StepKeepsInv(Run(Empty, before + after[..|after| - 1]), after[|after| - 1]);
    }
  }

  /** What a call decides on at its read, which changes nothing else. */
  lemma ReadsAre(s: State, op: OpId, kind: Kind, id: SprintId)
    requires op !in s.ops
    ensures Step(s, Begin(op, kind, id)) == s.(ops := s.ops[op :=
              if id !in s.sprints then Refused(NotFound)
              else match kind
                case Start => Starting(id, s.sprints[id])
                case Complete => if s.sprints[id].status == ACTIVE then Completing(id) else Refused(NotActive)
                case Delete => Unassigning(id)])
  {
  }

  /** What the writes of a completion and of a deletion do then: if the sprint is gone, nothing. */
  lemma WritesAre(s: State, op: OpId)
    requires op in s.ops && (s.ops[op].Completing? || s.ops[op].Unassigning? || s.ops[op].Deleting?)
    ensures var id := s.ops[op].id;
            var t := Step(s, Continue(op));
            && (s.ops[op].Unassigning? ==> t.ops == s.ops[op := Deleting(id)] && t.sprints == s.sprints)
            && (!s.ops[op].Unassigning? ==>
                  && t.ops == s.ops[op := if id in s.sprints then Pc.Done else Refused(NotFound)]
                  && (id !in s.sprints ==> t.sprints == s.sprints && t.issues == s.issues))
            && (s.ops[op].Completing? && id in s.sprints ==>
                  t.sprints == s.sprints[id := s.sprints[id].(status := COMPLETED)])
            && (s.ops[op].Deleting? ==> t.sprints == s.sprints - {id})
            && (s.ops[op].Unassigning? || (s.ops[op].Deleting? && id in s.sprints) ==>
                  && t.issues.Keys == s.issues.Keys
                  && forall i | i in s.issues ::
                       var was := s.issues[i];
                       t.issues[i] == if was.sprint == Some(id) then was.(sprint := None) else was)
  {
  }

  /** An issue can be given any sprint that exists at that time. */
  lemma IssueIsPut(s: State, issue: IssueId, row: Issue)
    ensures var t := Step(s, PutIssue(issue, row));
            t == if row.sprint.None? || row.sprint.value in s.sprints then s.(issues := s.issues[issue := row]) else s
  {
  }

  /** A start succeeds exactly when, at its commit, the sprint is still in PLANNING and its board has no active
      sprint. */
  lemma StartsIff(events: seq<Event>, op: OpId)
    requires op in Run(Empty, events).ops && Run(Empty, events).ops[op].Starting?
    ensures var s := Run(Empty, events);
            var id := s.ops[op].id;
            var t := Step(s, Continue(op));
            && (t.ops[op] == Pc.Done <==>
                  && id in s.sprints && s.sprints[id].status == PLANNING
                  && forall a | a in s.sprints && s.sprints[a].board == s.sprints[id].board ::
                     s.sprints[a].status != ACTIVE)
            && (t.ops[op] == Pc.Done ==> t.sprints == s.sprints[id := s.sprints[id].(status := ACTIVE)])
            && (t.ops[op] != Pc.Done ==> t == SetPc(s, op, Refused(AlreadyActive)))
  {
    RunKeepsInv(events);
    var s := Run(Empty, events);
    assert PcOk(s, s.ops[op]);
  }

  /** Of two starts past their read for one board, the second to commit is refused. */
  lemma SecondStartIsRefused(s: State, first: OpId, second: OpId)
    requires first != second && first in s.ops && second in s.ops && s.ops[first].Starting? && s.ops[second].Starting?
    requires var a, b := s.ops[first], s.ops[second];
             a.read.board == b.read.board && a.id in s.sprints && s.sprints[a.id] == Sprint(a.read.board, PLANNING) &&
                 !HasActive(s.sprints, a.read.board)
    ensures var t := Step(Step(s, Continue(first)), Continue(second));
            t.ops[first] == Pc.Done && t.ops[second] == Refused(AlreadyActive) &&
                t.sprints == s.sprints[s.ops[first].id := Sprint(s.ops[first].read.board, ACTIVE)]
  {
    var mid := Step(s, Continue(first));
    assert mid.sprints[s.ops[first].id].status == ACTIVE;
  }

  /** Completing loses no issue and moves none to another column: exactly those with a column that is not DONE leave for
      the backlog; finished ones, and those on no column, stay in the sprint. */
  lemma CompleteKeepsIssues(s: State, id: SprintId, i: IssueId)
    requires Inv(s) && id in s.sprints
    ensures var t := CompleteTx(s, id).0;
            && t.sprints[id].status == COMPLETED && t.issues.Keys == s.issues.Keys && t.columns == s.columns
            && (i in s.issues ==>
                  && t.issues[i].column == s.issues[i].column
                  && (s.issues[i].sprint != Some(id) ==> t.issues[i] == s.issues[i])
                  && (t.issues[i].sprint == Some(id) <==>
                      s.issues[i].sprint == Some(id) &&
                      (s.issues[i].column.None? || s.issues[i].column.value !in s.columns ||
                       s.columns[s.issues[i].column.value] == Category.DONE)))
  {
  }

  /** Deleting a sprint leaves no issue pointing at it, whatever was assigned to it between the two writes. */
  lemma DeleteLeavesNoReference(events: seq<Event>, i: IssueId)
    requires i in Run(Empty, events).issues && Run(Empty, events).issues[i].sprint.Some?
    ensures Run(Empty, events).issues[i].sprint.value in Run(Empty, events).sprints
  {
    RunKeepsInv(events);
  }

  /** Deleting a sprint, with nothing in between, takes its issues out of it and changes nothing else about any
      issue. */
  lemma DeleteKeepsIssues(s: State, id: SprintId, i: IssueId)
    requires id in s.sprints
    ensures var (t, pc) := Alone(s, Delete, id);
            && pc == Pc.Done && t.sprints == s.sprints - {id} && t.issues.Keys == s.issues.Keys
            && (i in s.issues ==> t.issues[i] == if s.issues[i].sprint == Some(id) then s.issues[i].(sprint := None)
                else s.issues[i])
  {
  }

  // ─── The service ───────────────────────────────────────

  class SprintsService {
    var sprints: map<SprintId, Sprint>
    var issues: map<IssueId, Issue>
    var columns: map<ColumnId, Category>
    ghost var born: set<SprintId>

    ghost function Snapshot(): State
      reads this
    {
      State(sprints, born, issues, columns, map[])
    }

    ghost predicate Valid()
      reads this
    {
      Inv(Snapshot())
    }

    constructor (columns: map<ColumnId, Category>)
      ensures Valid() && sprints == map[] && issues == map[] && this.columns == columns
    {
      this.columns := columns;
      sprints, issues, born := map[], map[], {};
    }

    method Create(id: SprintId, board: BoardId)
      requires Valid() && id !in born
      modifies this
      ensures Valid() && Snapshot() == Step(old(Snapshot()), Event.Create(id, board))
      ensures sprints == old(sprints)[id := Sprint(board, PLANNING)] && issues == old(issues) && columns == old(columns)
    {
      StepKeepsInv(Snapshot(), Event.Create(id, board));
      sprints, born := sprints[id := Sprint(board, PLANNING)], born + {id};
    }

    /** Each of the three calls, with nothing in between, is its read followed by its writes. */
    method Start(id: SprintId) returns (r: Pc)
      requires Valid()
      modifies this
      ensures Valid() && (Snapshot(), r) == Alone(old(Snapshot()), Kind.Start, id)
      ensures r == Pc.Done <==>
                && id in old(sprints) && old(sprints)[id].status == PLANNING
                && forall a | a in old(sprints) && old(sprints)[a].board == old(sprints)[id].board ::
                     old(sprints)[a].status != ACTIVE
      ensures sprints == if r == Pc.Done then old(sprints)[id := old(sprints)[id].(status := ACTIVE)] else old(sprints)
      ensures r == Pc.Done || r == Refused(if id in old(sprints) then AlreadyActive else NotFound)
      ensures issues == old(issues) && columns == old(columns)
    {
      if id !in sprints {
        return Refused(NotFound);
      }
      AdvanceKeepsInv(Snapshot(), Starting(id, sprints[id]));
      var sprint := sprints[id];
      if exists a | a in sprints :: sprints[a].board == sprint.board && sprints[a].status == ACTIVE {
        return Refused(AlreadyActive);
      }
      if sprints[id].status != PLANNING {
        return Refused(AlreadyActive);
      }
      sprints := sprints[id := sprints[id].(status := ACTIVE)];
      return Pc.Done;
    }

    method Complete(id: SprintId) returns (r: Pc)
      requires Valid()
      modifies this
      ensures Valid() && (Snapshot(), r) == Alone(old(Snapshot()), Kind.Complete, id)
      ensures r == Pc.Done <==> id in old(sprints) && old(sprints)[id].status == ACTIVE
      ensures r == Pc.Done || r == Refused(if id in old(sprints) then NotActive else NotFound)
      ensures sprints == if r == Pc.Done then old(sprints)[id := old(sprints)[id].(status := COMPLETED)]
              else old(sprints)
      ensures columns == old(columns) && issues.Keys == old(issues.Keys)
      ensures forall i | i in old(issues) :: var was := old(issues)[i];
                issues[i] == if r == Pc.Done && was.sprint == Some(id) && was.column.Some? &&
                                was.column.value in columns &&
                                columns[was.column.value] in {Category.TODO, Category.IN_PROGRESS}
                             then was.(sprint := None) else was
    {
      if id !in sprints {
        return Refused(NotFound);
      }
      if sprints[id].status != ACTIVE {
        return Refused(NotActive);
      }
      AdvanceKeepsInv(Snapshot(), Completing(id));
      issues := map i | i in issues :: if Unfinished(columns, issues[i], id) then issues[i].(sprint := None)
          else issues[i];
      sprints := sprints[id := sprints[id].(status := COMPLETED)];
      return Pc.Done;
    }

    method Delete(id: SprintId) returns (r: Pc)
      requires Valid()
      modifies this
      ensures Valid() && (Snapshot(), r) == Alone(old(Snapshot()), Kind.Delete, id)
      ensures r == if id in old(sprints) then Pc.Done else Refused(NotFound)
      ensures sprints == old(sprints) - {id} && columns == old(columns) && issues.Keys == old(issues.Keys)
      ensures forall i | i in old(issues) ::
                var was := old(issues)[i];
                issues[i] == if id in old(sprints) && was.sprint == Some(id) then was.(sprint := None) else was
    {
      if id !in sprints {
        return Refused(NotFound);
      }
      AdvanceKeepsInv(Snapshot(), Deleting(id));
      issues := map i | i in issues :: if issues[i].sprint == Some(id) then issues[i].(sprint := None) else issues[i];
      sprints := sprints - {id};
      assert Unassigned(Unassigned(old(issues), id), id) == issues;
      return Pc.Done;
    }
  }

  /** One call with nothing in between. */
  function Alone(s: State, kind: Kind, id: SprintId): (State, Pc) {
    var (t, pc) := Advance(s, ReadPc(s, kind, id));
    if pc.Deleting? then Advance(t, pc) else (t, pc)
  }
}
