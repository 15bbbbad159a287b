/** Workspace calls that overlap. A call reads the caller's role, then what it is about to change, and writes last; what
    it read can be out of date by then. Updates and removals name a member by the id of its row. */
module WorkspaceRaces {
  import opened Prelude
  import opened Workspaces

  type RowId = nat
  type CallId = nat

  datatype Write =
    | DropWorkspace(w: WorkspaceId)
    | Swap(w: WorkspaceId, from: UserId, to: UserId)
    | Insert(member: MemberId, role: Role)
    | SetRole(member: MemberId, row: RowId, role: Role)
    | DropMember(member: MemberId, row: RowId)

  datatype Pc = Checked(call: Op) | Writing(write: Write) | Refused(error: Error) | Thrown | Done

  /** The tables, the id of each member's row, the next fresh id, and the calls in flight. */
  datatype State = State(t: Tables, rows: map<MemberId, RowId>, next: RowId, calls: map<CallId, Pc>)

  datatype Event = Begin(id: CallId, call: Op) | Continue(id: CallId)

  const Start: State := State(Tables(map[], map[]), map[], 0, map[])

  // ─── Steps ─────────────────────────────────────────────

  function SetPc(s: State, id: CallId, pc: Pc): State {
    s.(calls := s.calls[id := pc])
  }

  function WithMember(s: State, m: MemberId, role: Role): State {
    s.(t := s.t.(members := s.t.members[m := role]), rows := s.rows[m := s.next], next := s.next + 1)
  }

  function AllowedRoles(call: Op): set<Role> {
    if call.Delete? || call.Transfer? then {OWNER} else MANAGE_ROLES
  }

  /** What the call reads after the role check, and the write it then decides on. */
  function Look(s: State, call: Op): Pc
    requires !call.Create? && !call.Join? && s.t.members.Keys == s.rows.Keys
  {
    match call
    case Delete(w, _) => Writing(DropWorkspace(w))
    case Transfer(w, actor, to) =>
      if to == actor then Refused(TransferToSelf)
      else if (w, to) !in s.t.members then Refused(NewOwnerNotMember)
      else Writing(Swap(w, actor, to))
    case Add(w, _, user, role, quota) =>
      if user.None? then Refused(UserNotFound)
      else if (w, user.value) in s.t.members then Refused(AlreadyMember)
      else if quota > 0 && |MembersOf(s.t, w)| >= quota then Refused(QuotaReached)
      else Writing(Insert((w, user.value), role))
    case Update(w, _, member, role) =>
      var error := TargetError(s.t, w, member);
      if error.Some? then Refused(error.value) else Writing(SetRole(member, s.rows[member], role))
    case Remove(w, _, member) =>
      var error := TargetError(s.t, w, member);
      if error.Some? then Refused(error.value) else Writing(DropMember(member, s.rows[member]))
  }

  function TargetError(t: Tables, w: WorkspaceId, member: MemberId): (e: Option<Error>)
    ensures e.None? ==> member in t.members && t.members[member] != OWNER
  {
    if member !in t.members || member.0 != w then Some(NotMember)
    else if t.members[member] == OWNER then Some(CannotRemoveOwner)
    else None
  }

  /** The row a write is about is gone, or the unique row it would add is there already. */
  predicate Objects(s: State, w: Write) {
    match w
    case DropWorkspace(w) => w !in s.t.owners
    case Swap(w, from, to) => w !in s.t.owners || (w, from) !in s.t.members || (w, to) !in s.t.members
    case Insert(m, _) => m.0 !in s.t.owners || m in s.t.members
    case SetRole(m, row, _) => !IsRow(s, m, row)
    case DropMember(m, row) => !IsRow(s, m, row)
  }

  predicate IsRow(s: State, m: MemberId, row: RowId) {
    m in s.t.members && m in s.rows && s.rows[m] == row
  }

  function Written(s: State, w: Write): State
    requires !Objects(s, w)
  {
    match w
    case DropWorkspace(w) =>
      s.(t := Tables(s.t.owners - {w}, map m | m in s.t.members && m.0 != w :: s.t.members[m]),
         rows := map m | m in s.rows && m.0 != w :: s.rows[m])
    case Swap(w, from, to) => s.(t := Tables(s.t.owners[w := to], s.t.members[(w, from) := ADMIN][(w, to) := OWNER]))
    case Insert(m, role) => WithMember(s, m, role)
    case SetRole(m, _, role) => s.(t := s.t.(members := s.t.members[m := role]))
    case DropMember(m, _) => s.(t := s.t.(members := s.t.members - {m}), rows := s.rows - {m})
  }

  /** Creating a workspace and joining through a link are one write each. */
  function Begun(s: State, id: CallId, call: Op): State {
    match call
    case Create(w, actor) =>
      if w in s.t.owners then SetPc(s, id, Thrown)
      else SetPc(WithMember(s.(t := s.t.(owners := s.t.owners[w := actor])), (w, actor), OWNER), id, Done)
    case Join(w, actor, role) =>
      if role == OWNER || w !in s.t.owners || (w, actor) in s.t.members then SetPc(s, id, Done)
      else SetPc(WithMember(s, (w, actor), role), id, Done)
    case _ =>
      var denied := RoleError(s.t, call.w, call.actor, AllowedRoles(call));
      SetPc(s, id, if denied.Some? then Refused(denied.value) else Checked(call))
  }

  ghost function Step(s: State, e: Event): State {
    match e
    case Begin(id, call) => if id in s.calls then s else Begun(s, id, call)
    case Continue(id) =>
      if id !in s.calls then s
      else match s.calls[id]
        case Checked(call) => if Looks(call) && s.t.members.Keys == s.rows.Keys then SetPc(s, id, Look(s, call)) else s
        case Writing(w) => if Objects(s, w) then SetPc(s, id, Thrown) else SetPc(Written(s, w), id, Done)
        case _ => s
  }

  predicate Looks(call: Op) {
    !call.Create? && !call.Join?
  }

  /** What a call must be to get past its role check: an OWNER's or ADMIN's to manage members, an OWNER's to delete or
      transfer. */
  lemma PassesCheckIff(s: State, id: CallId, call: Op)
    requires id !in s.calls && !call.Create? && !call.Join?
    ensures var t := Step(s, Begin(id, call));
            t == s.(calls := s.calls[id :=
              if (call.w, call.actor) !in s.t.members then Refused(AccessDenied)
              else match s.t.members[(call.w, call.actor)]
                case OWNER => Checked(call)
                case ADMIN => if call.Delete? || call.Transfer? then Refused(Insufficient) else Checked(call)
                case MEMBER => Refused(Insufficient)
                case VIEWER => Refused(Insufficient)])
  {
  }

  /** What a write does when it comes: nothing if the row it is about is gone, even if another row has taken its place,
      or if the row it would add is there. */
  lemma WritesAre(s: State, id: CallId)
    requires id in s.calls && s.calls[id].Writing?
    ensures var (t, members, after) := (s.t, s.t.members, Step(s, Continue(id)));
            match s.calls[id].write
            case DropWorkspace(w) =>
              && after.calls == s.calls[id := if w in t.owners then Done else Thrown]
              && after.t.owners == t.owners - {w}
              && (w in t.owners ==> after.t.members == (map m | m in members && m.0 != w :: members[m]))
              && (w !in t.owners ==> after.t == t && after.rows == s.rows)
            case Swap(w, from, to) =>
              after == if w in t.owners && (w, from) in members && (w, to) in members
                       then s.(t := Tables(t.owners[w := to], members[(w, from) := ADMIN][(w, to) := OWNER]),
                               calls := s.calls[id := Done])
                       else s.(calls := s.calls[id := Thrown])
            case Insert(m, role) =>
              after == if m.0 in t.owners && m !in members
                       then s.(t := t.(members := members[m := role]), rows := s.rows[m := s.next], next := s.next + 1,
                               calls := s.calls[id := Done])
                       else s.(calls := s.calls[id := Thrown])
            case SetRole(m, row, role) =>
              after == if m in members && m in s.rows && s.rows[m] == row
                       then s.(t := t.(members := members[m := role]), calls := s.calls[id := Done])
                       else s.(calls := s.calls[id := Thrown])
            case DropMember(m, row) =>
              after == if m in members && m in s.rows && s.rows[m] == row
                       then s.(t := t.(members := members - {m}), rows := s.rows - {m}, calls := s.calls[id := Done])
                       else s.(calls := s.calls[id := Thrown])
  {
  }

  ghost function Run(s: State, events: seq<Event>): State {
    if events == [] then s else Step(Run(s, events[..|events| - 1]), events[|events| - 1])
  }

  // ─── Invariants ────────────────────────────────────────

  ghost predicate PcOk(pc: Pc, next: RowId) {
    && (pc.Checked? ==> Looks(pc.call))
    && (pc.Writing? && pc.write.SetRole? ==> pc.write.row < next)
    && (pc.Writing? && pc.write.DropMember? ==> pc.write.row < next)
    && (pc.Writing? && pc.write.Swap? ==> pc.write.from != pc.write.to)
  }

  /** Every member has a row with an id of its own time, members belong to workspaces, and so does every owner. */
  ghost predicate Rowed(s: State) {
    && s.t.members.Keys == s.rows.Keys
    && (forall m | m in s.rows :: s.rows[m] < s.next)
    && (forall m | m in s.t.members :: m.0 in s.t.owners)
    && forall id | id in s.calls :: PcOk(s.calls[id], s.next)
  }

  lemma BegunKeepsRowed(s: State, id: CallId, call: Op)
    requires Rowed(s)
    ensures Rowed(Begun(s, id, call)) && s.next <= Begun(s, id, call).next
  {
  }

  lemma WrittenKeepsRowed(s: State, w: Write)
    requires Rowed(s) && !Objects(s, w)
    ensures Rowed(Written(s, w)) && s.next <= Written(s, w).next && Written(s, w).calls == s.calls
  {
  }

  lemma PcKeepsRowed(s: State, id: CallId, pc: Pc)
    requires Rowed(s) && PcOk(pc, s.next)
    ensures Rowed(SetPc(s, id, pc))
  {
  }

  lemma StepKeepsRowed(s: State, e: Event)
    requires Rowed(s)
    ensures Rowed(Step(s, e)) && s.next <= Step(s, e).next
  {
    if e.Begin? {
      BegunKeepsRowed(s, e.id, e.call);
      hide Rowed, Begun;
    } else if e.id in s.calls {
      var pc := s.calls[e.id];
      assert PcOk(pc, s.next);
      if pc.Checked? && Looks(pc.call) {
        assert PcOk(Look(s, pc.call), s.next);
        PcKeepsRowed(s, e.id, Look(s, pc.call));
      }
      hide Rowed, Look, Written;
      if pc.Writing? && !Objects(s, pc.write) {
        WrittenKeepsRowed(s, pc.write);
        PcKeepsRowed(Written(s, pc.write), e.id, Done);
      } else if pc.Writing? {
        PcKeepsRowed(s, e.id, Thrown);
      }
    }
  }

  lemma {:induction false} RunKeepsRowed(s: State, events: seq<Event>)
    requires Rowed(s)
    ensures Rowed(Run(s, events))
  {
    if events != [] {
      RunKeepsRowed(s, events[..|events| - 1]);
      StepKeepsRowed(Run(s, events[..|events| - 1]), events[|events| - 1]);
    }
  }

  lemma LookAlone(s: State, call: Op)
    requires Rowed(s) && Owned(s.t) && Looks(call) && RoleError(s.t, call.w, call.actor, AllowedRoles(call)).None?
    ensures var pc := Look(s, call);
            Workspaces.Step(s.t, call) == if pc.Writing? && !Objects(s, pc.write) then Written(s, pc.write).t else s.t
    ensures Look(s, call).Writing? || Look(s, call).Refused?
  {
  }

  lemma LookAnswers(s: State, call: Op)
    requires Rowed(s) && Looks(call) && RoleError(s.t, call.w, call.actor, AllowedRoles(call)).None?
    ensures AnswerOf(s.t, call) == if Look(s, call).Writing? then Done else Look(s, call)
  {
  }

  /** What the call of module Workspaces answers, or that it was done. */
  function AnswerOf(t: Tables, call: Op): Pc {
    match call
    case Create(w, _) => if w in t.owners then Thrown else Done
    case Delete(w, actor) => Ended(Deleted(t, w, actor).1)
    case Transfer(w, actor, to) => Ended(Transferred(t, w, actor, to).1)
    case Add(w, actor, user, role, quota) => Ended(Added(t, w, actor, user, role, quota).1)
    case Update(w, actor, member, role) => Ended(Updated(t, w, actor, member, role).1)
    case Remove(w, actor, member) => Ended(Removed(t, w, actor, member).1)
    case Join(_, _, _) => Done
  }

  function Ended(r: Result<(), Error>): Pc {
    if r.Ok? then Done else Refused(r.error)
  }

  /** The steps of a call with nothing in between are the call of module Workspaces. */
  lemma CallAlone(s: State, id: CallId, call: Op)
    requires Rowed(s) && Owned(s.t) && id !in s.calls
    ensures var after := Step(Step(Step(s, Begin(id, call)), Continue(id)), Continue(id));
            after.t == Workspaces.Step(s.t, call) && after.calls == s.calls[id := AnswerOf(s.t, call)]
  {
    hide Step, Rowed, AnswerOf, Workspaces.Step;
    if Looks(call) && RoleError(s.t, call.w, call.actor, AllowedRoles(call)).None? {
      PassedAlone(s, id, call);
    } else {
      StoppedAlone(s, id, call);
    }
  }

  lemma StoppedAlone(s: State, id: CallId, call: Op)
    requires Rowed(s) && id !in s.calls
    requires !Looks(call) || RoleError(s.t, call.w, call.actor, AllowedRoles(call)).Some?
    ensures var begun := Step(s, Begin(id, call));
            && Step(begun, Continue(id)) == begun
            && begun.t == Workspaces.Step(s.t, call) && begun.calls == s.calls[id := AnswerOf(s.t, call)]
  {
  }

  lemma PassedAlone(s: State, id: CallId, call: Op)
    requires Rowed(s) && Owned(s.t) && id !in s.calls && Looks(call)
    requires RoleError(s.t, call.w, call.actor, AllowedRoles(call)).None?
    ensures var after := Step(Step(Step(s, Begin(id, call)), Continue(id)), Continue(id));
            after.t == Workspaces.Step(s.t, call) && after.calls == s.calls[id := AnswerOf(s.t, call)]
  {
    LookAlone(s, call);
    LookAnswers(s, call);
    var one := SetPc(s, id, Checked(call));
    var two := SetPc(one, id, Look(s, call));
    assert Step(s, Begin(id, call)) == one;
    assert Look(one, call) == Look(s, call);
    assert Step(one, Continue(id)) == two;
    hide Look, Workspaces.Step, Rowed, Owned, AnswerOf, Objects, Written, RoleError, AllowedRoles;
    if Look(s, call).Writing? { WriteFrame(s, two.calls, Look(s, call).write); }
  }

  /** A write does not depend on the calls in flight. */
  lemma WriteFrame(s: State, calls: map<CallId, Pc>, w: Write)
    ensures Objects(s.(calls := calls), w) == Objects(s, w)
    ensures !Objects(s, w) ==> Written(s.(calls := calls), w) == Written(s, w).(calls := calls)
  {
  }

  // ─── When the owner is lost ────────────────────────────

  /** The write takes this member's row, or the role OWNER from it. */
  predicate Unseats(s: State, w: Write, m: MemberId) {
    (w.DropMember? || (w.SetRole? && w.role != OWNER)) && w.member == m && IsRow(s, m, w.row)
  }

  predicate UnseatsOwner(s: State, w: Write) {
    (w.DropMember? || w.SetRole?) && w.member.0 in s.t.owners && w.member.1 == s.t.owners[w.member.0] &&
        Unseats(s, w, w.member)
  }

  /** A step loses an owner exactly when it is the write of an update or a removal that meets the owner. */
  lemma SeatedIff(s: State, e: Event)
    requires Rowed(s) && Seated(s.t)
    ensures Seated(Step(s, e).t) <==>
            !(e.Continue? && e.id in s.calls && s.calls[e.id].Writing? && UnseatsOwner(s, s.calls[e.id].write))
  {
    if e.Continue? && e.id in s.calls && s.calls[e.id].Writing? {
      var w := s.calls[e.id].write;
      assert PcOk(s.calls[e.id], s.next);
      if !Objects(s, w) && UnseatsOwner(s, w) {
        var t := Step(s, e).t;
        assert w.member.0 in t.owners && (w.member.0, t.owners[w.member.0]) == w.member;
      }
    }
  }

  /** No call in flight is about to. */
  ghost predicate Safe(s: State) {
    Seated(s.t) && forall id | id in s.calls && s.calls[id].Writing? :: !UnseatsOwner(s, s.calls[id].write)
  }

  /** The step commits a transfer to a member while another call is about to remove or demote that very row. */
  ghost predicate Overtakes(s: State, e: Event) {
    && e.Continue? && e.id in s.calls && s.calls[e.id].Writing? && s.calls[e.id].write.Swap? &&
       !Objects(s, s.calls[e.id].write)
    && exists id :: id in s.calls && id != e.id && s.calls[id].Writing? &&
                    Unseats(s, s.calls[id].write, (s.calls[e.id].write.w, s.calls[e.id].write.to))
  }

  lemma OvertakenIsUnsafe(s: State, e: Event)
    requires Rowed(s) && Overtakes(s, e)
    ensures !Safe(Step(s, e))
  {
    var swap, s' := s.calls[e.id].write, Step(s, e);
    var id :| id in s.calls && id != e.id && s.calls[id].Writing? && Unseats(s, s.calls[id].write, (swap.w, swap.to));
    assert id in s'.calls && s'.calls[id] == s.calls[id];
    assert UnseatsOwner(s', s'.calls[id].write);
  }

  lemma SwapStaysSafe(s: State, id: CallId)
    requires Rowed(s) && Safe(s) && id in s.calls && s.calls[id].Writing? && s.calls[id].write.Swap?
    requires !Objects(s, s.calls[id].write) && !Overtakes(s, Continue(id))
    ensures Safe(Step(s, Continue(id)))
  {
    var swap, s' := s.calls[id].write, Step(s, Continue(id));
    SeatedIff(s, Continue(id));
    forall x | x in s'.calls && s'.calls[x].Writing? ensures !UnseatsOwner(s', s'.calls[x].write) {
      assert x in s.calls && s.calls[x] == s'.calls[x] && x != id;
      assert !Unseats(s, s.calls[x].write, (swap.w, swap.to));
      assert !UnseatsOwner(s, s.calls[x].write);
    }
  }

  lemma OtherWriteStaysSafe(s: State, id: CallId)
    requires Rowed(s) && Safe(s) && id in s.calls && s.calls[id].Writing? && !s.calls[id].write.Swap?
    ensures Safe(Step(s, Continue(id)))
  {
    var s' := Step(s, Continue(id));
    SeatedIff(s, Continue(id));
    forall x | x in s'.calls && s'.calls[x].Writing? ensures !UnseatsOwner(s', s'.calls[x].write) {
      assert x in s.calls && s.calls[x] == s'.calls[x] && !UnseatsOwner(s, s.calls[x].write) &&
          PcOk(s.calls[x], s.next);
    }
  }

  /** What is read now does not concern the owner of a row that keeps its role; what is created now has a new row. */
  lemma ReadStaysSafe(s: State, e: Event)
    requires Rowed(s) && Safe(s) && (e.Begin? || (e.id in s.calls && !s.calls[e.id].Writing?))
    ensures Safe(Step(s, e))
  {
    var s' := Step(s, e);
    SeatedIff(s, e);
    forall x | x in s'.calls && s'.calls[x].Writing? ensures !UnseatsOwner(s', s'.calls[x].write) {
      if x in s.calls && s.calls[x] == s'.calls[x] {
        assert !UnseatsOwner(s, s.calls[x].write) && PcOk(s.calls[x], s.next);
      }
    }
  }

  // ─── Main results ──────────────────────────────────────

  /** A state is safe exactly when no single step of a call in flight can lose an owner. */
  lemma SafeIff(s: State)
    requires Rowed(s)
    ensures Safe(s) <==> Seated(s.t) && forall e :: Seated(Step(s, e).t)
  {
    if Seated(s.t) {
      forall e ensures Seated(Step(s, e).t) <==>
        !(e.Continue? && e.id in s.calls && s.calls[e.id].Writing? && UnseatsOwner(s, s.calls[e.id].write))
      {
        SeatedIff(s, e);
      }
      forall id | id in s.calls && s.calls[id].Writing?
        ensures Seated(Step(s, Continue(id)).t) <==> !UnseatsOwner(s, s.calls[id].write)
      {
        assert Continue(id).id == id;
      }
    }
  }

  /** Of all steps, only a transfer that overtakes an update or a removal of the new owner makes a safe state unsafe. */
  lemma StaysSafeIff(s: State, e: Event)
    requires Rowed(s) && Safe(s)
    ensures Safe(Step(s, e)) <==> !Overtakes(s, e)
  {
    if Overtakes(s, e) {
      OvertakenIsUnsafe(s, e);
    } else if e.Continue? && e.id in s.calls && s.calls[e.id].Writing? {
      if s.calls[e.id].write.Swap? && !Objects(s, s.calls[e.id].write) {
        SwapStaysSafe(s, e.id);
      } else if s.calls[e.id].write.Swap? {
        hide Overtakes;
      } else {
        OtherWriteStaysSafe(s, e.id);
      }
    } else if e.Begin? || e.id in s.calls {
      ReadStaysSafe(s, e);
    }
  }

  ghost predicate NoneOvertakes(events: seq<Event>) {
    events == [] ||
    var front, e := events[..|events| - 1], events[|events| - 1];
    NoneOvertakes(front) && !Overtakes(Run(Start, front), e)
  }

  /** In every run, however the calls overlap: as long as no transfer overtakes an update or a removal of the member it
      promotes, every workspace has its owner as a member with the role OWNER. */
  lemma {:induction false} OwnersStaySeated(events: seq<Event>)
    requires NoneOvertakes(events)
    ensures Safe(Run(Start, events)) && Seated(Run(Start, events).t)
  {
    if events != [] {
      var front := events[..|events| - 1];
      OwnersStaySeated(front);
      RunKeepsRowed(Start, front);
      StaysSafeIff(Run(Start, front), events[|events| - 1]);
    }
  }

  lemma RunSnoc(events: seq<Event>, e: Event)
    ensures Run(Start, events + [e]) == Step(Run(Start, events), e)
  {
    assert (events + [e])[..|events|] == events;
  }

  /** A workspace of user 1, which user 2 joins; a removal of user 2 gets past its checks; a transfer to user 2
      commits. */
  const Adding: seq<Event> := [Begin(0, Create(0, 1))] + [Begin(1, Join(0, 2, MEMBER))]
  const Removing: seq<Event> := Adding + [Begin(2, Remove(0, 1, (0, 2)))] + [Continue(2)]
  const Transferring: seq<Event> := Removing + [Begin(3, Transfer(0, 1, 2))] + [Continue(3)] + [Continue(3)]

  lemma AddingRun()
    ensures Run(Start, Adding) ==
            State(Tables(map[0 := 1], map[(0, 1) := OWNER, (0, 2) := MEMBER]), map[(0, 1) := 0, (0, 2) := 1], 2,
                  map[0 := Done, 1 := Done])
  {
    RunSnoc([], Begin(0, Create(0, 1)));
    assert [] + [Begin(0, Create(0, 1))] == [Begin(0, Create(0, 1))];
    RunSnoc([Begin(0, Create(0, 1))], Begin(1, Join(0, 2, MEMBER)));
  }

  lemma RemovingRun()
    ensures Run(Start, Removing) == SetPc(Run(Start, Adding), 2, Writing(DropMember((0, 2), 1)))
  {
    hide Run, Adding;
    AddingRun();
    var s, call := Run(Start, Adding), Remove(0, 1, (0, 2));
    RunSnoc(Adding, Begin(2, call));
    RunSnoc(Adding + [Begin(2, call)], Continue(2));
    var one := SetPc(s, 2, Checked(call));
    assert Step(s, Begin(2, call)) == one;
    assert one.t.members.Keys == one.rows.Keys;
    assert Step(one, Continue(2)) == SetPc(one, 2, Writing(DropMember((0, 2), 1)));
  }

  lemma LookedRun()
    ensures Run(Start, Removing + [Begin(3, Transfer(0, 1, 2))] + [Continue(3)]) ==
            SetPc(Run(Start, Removing), 3, Writing(Swap(0, 1, 2)))
  {
    hide Run, Adding, Removing;
    AddingRun();
    RemovingRun();
    var s, call := Run(Start, Removing), Transfer(0, 1, 2);
    RunSnoc(Removing, Begin(3, call));
    RunSnoc(Removing + [Begin(3, call)], Continue(3));
    var one := SetPc(s, 3, Checked(call));
    assert Step(s, Begin(3, call)) == one;
    assert one.t.members.Keys == one.rows.Keys;
  }

  lemma TransferringRun()
    ensures var s := Run(Start, Transferring);
            && s.t == Tables(map[0 := 2], map[(0, 1) := ADMIN, (0, 2) := OWNER]) &&
               s.rows == map[(0, 1) := 0, (0, 2) := 1]
            && 2 in s.calls && s.calls[2] == Writing(DropMember((0, 2), 1))
  {
    hide Run, Adding, Removing, Step, Objects, Written;
    AddingRun();
    RemovingRun();
    LookedRun();
    WritesAre(SetPc(Run(Start, Removing), 3, Writing(Swap(0, 1, 2))), 3);
    RunSnoc(Removing + [Begin(3, Transfer(0, 1, 2))] + [Continue(3)], Continue(3));
  }

  /** A run in which one does: the new owner is removed by a call that had read the old role, and nobody is OWNER. */
  lemma NewOwnerIsRemoved()
    ensures var t := Run(Start, Transferring + [Continue(2)]).t;
            t.owners == map[0 := 2] && t.members == map[(0, 1) := ADMIN]
  {
    TransferringRun();
    RunSnoc(Transferring, Continue(2));
    hide Run;
  }
}
