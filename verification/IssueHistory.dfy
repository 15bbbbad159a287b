/** The activity rows of an issue's updates. An update reads the issue, and later writes the fields it names together
    with one activity row for each of them, in one transaction: the value it had read and the value it was asked to
    set. */
module IssueHistory {
  import opened Prelude

  type Field = string
  type Value = Option<string>
  type Row = map<Field, Value>
  type OpId = nat

  /** What is stored when a value is asked for: a description is sanitised, a date is parsed, an empty date is none. */
  type Storing = (Field, Value) -> Value

  /** The activity rows of one update. */
  datatype Entry = Entry(before: Row, asked: Row)

  datatype Pc = Updating(seen: Row, asked: Row) | Finished

  /** `silent` is history: the fields that were set without an activity row since they were logged, by a bulk update or
      by the deletion of what they referred to. */
  datatype State = State(row: Row, log: seq<Entry>, silent: set<Field>, ops: map<OpId, Pc>)

  datatype Fault = Fine | FailBefore | FailAfter

  datatype Event = Read(op: OpId, asked: Row) | Commit(op: OpId, fault: Fault) | Bulk(asked: Row)

  function At(row: Row, f: Field): Value {
    if f in row then row[f] else None
  }

  function WithAsked(row: Row, asked: Row, storing: Storing): Row {
    row + map f | f in asked :: storing(f, asked[f])
  }

  function EntryOf(seen: Row, asked: Row): Entry {
    Entry(map f | f in asked :: At(seen, f), asked)
  }

  function Committed(s: State, op: OpId, storing: Storing): State
    requires op in s.ops && s.ops[op].Updating?
  {
    var pc := s.ops[op];
    State(WithAsked(s.row, pc.asked, storing), s.log + [EntryOf(pc.seen, pc.asked)], s.silent - pc.asked.Keys,
          s.ops[op := Finished])
  }

  function Step(s: State, e: Event, storing: Storing): State {
    match e
    case Read(op, asked) => if op in s.ops then s else s.(ops := s.ops[op := Updating(s.row, asked)])
    case Commit(op, fault) =>
      if op !in s.ops || !s.ops[op].Updating? then s
      else if fault == FailBefore then s.(ops := s.ops[op := Finished])
      else Committed(s, op, storing)
    case Bulk(asked) => s.(row := WithAsked(s.row, asked, storing), silent := s.silent + asked.Keys)
  }

  function Run(s: State, events: seq<Event>, storing: Storing): State {
    if events == [] then s else Step(Run(s, events[..|events| - 1], storing), events[|events| - 1], storing)
  }

  function Fresh(row: Row): State {
    State(row, [], {}, map[])
  }

  /** The row that the log tells of. */
  function Replayed(row: Row, log: seq<Entry>, storing: Storing): Row {
    if log == [] then row else WithAsked(Replayed(row, log[..|log| - 1], storing), log[|log| - 1].asked, storing)
  }

  /** The log and the row agree on every field that no bulk update has set since it was logged. */
  ghost predicate Agree(row: Row, s: State, storing: Storing) {
    forall f | f !in s.silent :: At(s.row, f) == At(Replayed(row, s.log, storing), f)
  }

  lemma StepKeepsAgree(row: Row, s: State, e: Event, storing: Storing)
    requires Agree(row, s, storing)
    ensures Agree(row, Step(s, e, storing), storing)
  {
    if e.Commit? && e.op in s.ops && s.ops[e.op].Updating? && e.fault != FailBefore {
      var log := Step(s, e, storing).log;
      assert log[..|log| - 1] == s.log;
    }
  }

  /** What one step does: a read keeps the whole row; a commit, acknowledged or not, sets the fields named and no other
      and logs what was read of them; a bulk update sets fields and logs nothing. */
  lemma StepsAre(s: State, op: OpId, asked: Row, fault: Fault, storing: Storing, f: Field)
    ensures op !in s.ops ==> Step(s, Read(op, asked), storing) == s.(ops := s.ops[op := Updating(s.row, asked)])
    ensures op in s.ops && s.ops[op].Updating? ==>
              var pc, t := s.ops[op], Step(s, Commit(op, fault), storing);
              && t.ops == s.ops[op := Finished] && t.row.Keys == s.row.Keys + (if fault == FailBefore then {}
                  else pc.asked.Keys)
              && if fault == FailBefore then t.row == s.row && t.log == s.log && t.silent == s.silent
                 else
                   && (f in t.row ==> t.row[f] == if f in pc.asked then storing(f, pc.asked[f]) else s.row[f])
                   && t.log == s.log + [Entry(t.log[|s.log|].before, pc.asked)] && t.silent == s.silent - pc.asked.Keys
                   && t.log[|s.log|].before.Keys == pc.asked.Keys
                   && (f in pc.asked ==> t.log[|s.log|].before[f] == if f in pc.seen then pc.seen[f] else None)
    ensures var t := Step(s, Bulk(asked), storing);
            && t.log == s.log && t.ops == s.ops && t.silent == s.silent + asked.Keys
            && t.row.Keys == s.row.Keys + asked.Keys
            && (f in t.row ==> t.row[f] == if f in asked then storing(f, asked[f]) else s.row[f])
  {
  }

  // ─── Main results ──────────────────────────────────────

  /** However updates overlap and fail, the log and the row tell the same values, except for fields that a bulk update
      has set since. */
  lemma {:induction false} LogTellsTheRow(row: Row, events: seq<Event>, storing: Storing, f: Field)
    ensures var s := Run(Fresh(row), events, storing);
            && Agree(row, s, storing)
            && (f in s.silent ==> exists e :: e in events && e.Bulk? && f in e.asked)
  {
    if events != [] {
      var front, e := events[..|events| - 1], events[|events| - 1];
      LogTellsTheRow(row, front, storing, f);
      StepKeepsAgree(row, Run(Fresh(row), front, storing), e, storing);
      assert e in events && forall x | x in front :: x in events;
    }
  }

  /** The last activity rows name, as the former values, those that the update replaced. */
  ghost predicate LastIsTrue(row: Row, log: seq<Entry>, storing: Storing)
    requires log != []
  {
    var last := log[|log| - 1];
    last.before == map f | f in last.asked :: At(Replayed(row, log[..|log| - 1], storing), f)
  }

  /** An update logs the values that it replaces exactly if the fields it names, none of them set silently before, are
      as it had read them. */
  lemma CommitIsTrueIff(row: Row, events: seq<Event>, op: OpId, storing: Storing)
    requires op in Run(Fresh(row), events, storing).ops && Run(Fresh(row), events, storing).ops[op].Updating?
    requires Run(Fresh(row), events, storing).silent !! Run(Fresh(row), events, storing).ops[op].asked.Keys
    ensures var s := Run(Fresh(row), events, storing);
            var pc, s' := s.ops[op], Step(s, Commit(op, Fine), storing);
            && s'.log != [] && (forall f | f in pc.asked :: At(s'.row, f) == storing(f, pc.asked[f]))
            && (LastIsTrue(row, s'.log, storing) <==> forall f | f in pc.asked :: At(pc.seen, f) == At(s.row, f))
  {
    LogTellsTheRow(row, events, storing, "");
    var s := Run(Fresh(row), events, storing);
    var pc, log := s.ops[op], Step(s, Commit(op, Fine), storing).log;
    assert log[..|log| - 1] == s.log && log[|log| - 1] == EntryOf(pc.seen, pc.asked);
    if LastIsTrue(row, log, storing) {
      forall f | f in pc.asked ensures At(pc.seen, f) == At(s.row, f) {
        assert EntryOf(pc.seen, pc.asked).before[f] == At(Replayed(row, s.log, storing), f);
      }
    }
    hide Run, Replayed;
  }

  /** Two updates of a field that overlap: the second logs the value before the first, not the one it replaces. */
  lemma OverlapLogsStaleValue(f: Field, was: Value, first: Value, second: Value, storing: Storing)
    requires storing(f, first) != was
    ensures var events := [Read(0, map[f := first]), Read(1, map[f := second])] + [Commit(0, Fine)];
            var s := Run(Fresh(map[f := was]), events, storing);
            var log := Step(s, Commit(1, Fine), storing).log;
            s.silent == {} && log != [] && !LastIsTrue(map[f := was], log, storing)
  {
    var row := map[f := was];
    var begun := [Read(0, map[f := first]), Read(1, map[f := second])];
    var events := begun + [Commit(0, Fine)];
    var pc, qc := Updating(row, map[f := first]), Updating(row, map[f := second]);
    assert begun[..1] == [begun[0]] && [begun[0]][..0] == [] && events[..2] == begun;
    assert Run(Fresh(row), [begun[0]], storing) == State(row, [], {}, map[0 := pc]);
    assert Run(Fresh(row), begun, storing) == State(row, [], {}, map[0 := pc, 1 := qc]);
    var s := Run(Fresh(row), events, storing);
    assert s == Step(Run(Fresh(row), begun, storing), Commit(0, Fine), storing);
    assert At(s.row, f) == storing(f, first) && s.ops[1] == qc && s.silent == {};
    assert f in qc.asked;
    CommitIsTrueIff(row, events, 1, storing);
  }

  function OneByOne(updates: seq<Row>): seq<Event> {
    if updates == [] then []
    else
      var n := |updates| - 1;
      OneByOne(updates[..n]) + [Read(n, updates[n]), Commit(n, Fine)]
  }

  lemma RunTwo(s: State, events: seq<Event>, first: Event, second: Event, storing: Storing)
    ensures Run(s, events + [first, second], storing) ==
            Step(Step(Run(s, events, storing), first, storing), second, storing)
  {
    var all := events + [first, second];
    assert all[..|all| - 1] == events + [first];
    assert (events + [first])[..|events|] == events;
  }

  ghost predicate AllTrue(row: Row, log: seq<Entry>, updates: seq<Row>, storing: Storing) {
    && |log| == |updates|
    && forall k | 0 <= k < |updates| :: log[k].asked == updates[k] && LastIsTrue(row, log[..k + 1], storing)
  }

  lemma AllTrueSnoc(row: Row, log: seq<Entry>, last: Entry, updates: seq<Row>, storing: Storing)
    requires updates != [] && AllTrue(row, log, updates[..|updates| - 1], storing)
    requires last.asked == updates[|updates| - 1] && LastIsTrue(row, log + [last], storing)
    ensures AllTrue(row, log + [last], updates, storing)
  {
    var more := log + [last];
    assert more[..|more|] == more;
    forall k | 0 <= k < |log| ensures more[k].asked == updates[k] && LastIsTrue(row, more[..k + 1], storing) {
      assert more[..k + 1] == log[..k + 1] && more[k] == log[k];
    }
    hide LastIsTrue;
  }

  /** One more update after a run that has no call of this id. */
  lemma OneMore(row: Row, events: seq<Event>, n: OpId, asked: Row, storing: Storing)
    requires var s := Run(Fresh(row), events, storing); s.silent == {} && forall op | op in s.ops :: op < n
    ensures var s := Run(Fresh(row), events, storing);
            var t := Run(Fresh(row), events + [Read(n, asked), Commit(n, Fine)], storing);
            && t.silent == {} && t.log == s.log + [EntryOf(s.row, asked)] && LastIsTrue(row, t.log, storing)
            && forall op | op in t.ops :: op < n + 1
  {
    var s := Run(Fresh(row), events, storing);
    RunTwo(Fresh(row), events, Read(n, asked), Commit(n, Fine), storing);
    assert (events + [Read(n, asked)])[..|events|] == events;
    assert Run(Fresh(row), events + [Read(n, asked)], storing) == Step(s, Read(n, asked), storing);
    hide Run, Replayed, LastIsTrue;
    CommitIsTrueIff(row, events + [Read(n, asked)], n, storing);
  }

  /** Update after update, with nothing in between: every one of them logs the values it replaces. */
  lemma {:induction false} OneByOneIsTrue(row: Row, updates: seq<Row>, storing: Storing)
    ensures var s := Run(Fresh(row), OneByOne(updates), storing);
            s.silent == {} && (forall op | op in s.ops :: op < |updates|) && AllTrue(row, s.log, updates, storing)
  {
    if updates != [] {
      var n := |updates| - 1;
      OneByOneIsTrue(row, updates[..n], storing);
      OneMore(row, OneByOne(updates[..n]), n, updates[n], storing);
      hide Run, AllTrue, LastIsTrue;
      var s := Run(Fresh(row), OneByOne(updates[..n]), storing);
      AllTrueSnoc(row, s.log, EntryOf(s.row, updates[n]), updates, storing);
    }
  }
}
