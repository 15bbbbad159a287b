/** Workspace membership: who owns a workspace, and which role each member has. */
module Workspaces {
  import opened Prelude

  type WorkspaceId = nat
  type UserId = nat

  datatype Role = OWNER | ADMIN | MEMBER | VIEWER

  datatype Error = AccessDenied | Insufficient | TransferToSelf | NewOwnerNotMember | UserNotFound | AlreadyMember
    | QuotaReached | NotMember | CannotRemoveOwner

  /** A member row is named by its workspace and user, which are unique together. */
  type MemberId = (WorkspaceId, UserId)

  datatype Tables = Tables(owners: map<WorkspaceId, UserId>, members: map<MemberId, Role>)

  const MANAGE_ROLES: set<Role> := {OWNER, ADMIN}

  // ─── What each operation does ──────────────────────────

  function RoleError(t: Tables, w: WorkspaceId, user: UserId, roles: set<Role>): Option<Error> {
    if (w, user) !in t.members then Some(AccessDenied)
    else if t.members[(w, user)] !in roles then Some(Insufficient)
    else None
  }

  function Created(t: Tables, w: WorkspaceId, user: UserId): Tables {
    Tables(t.owners[w := user], t.members[(w, user) := OWNER])
  }

  function Deleted(t: Tables, w: WorkspaceId, actor: UserId): (Tables, Result<(), Error>) {
    var denied := RoleError(t, w, actor, {OWNER});
    if denied.Some? then (t, Err(denied.value))
    else (Tables(t.owners - {w}, map m | m in t.members && m.0 != w :: t.members[m]), Ok(()))
  }

  function Transferred(t: Tables, w: WorkspaceId, actor: UserId, to: UserId): (Tables, Result<(), Error>) {
    var denied := RoleError(t, w, actor, {OWNER});
    if denied.Some? then (t, Err(denied.value))
    else if to == actor then (t, Err(TransferToSelf))
    else if (w, to) !in t.members then (t, Err(NewOwnerNotMember))
    else (Tables(t.owners[w := to], t.members[(w, actor) := ADMIN][(w, to) := OWNER]), Ok(()))
  }

  function MembersOf(t: Tables, w: WorkspaceId): set<MemberId> {
    set m | m in t.members && m.0 == w
  }

  /** `quota` zero means no limit. */
  function Added(t: Tables, w: WorkspaceId, actor: UserId, user: Option<UserId>, role: Role, quota: nat): (Tables,
      Result<(), Error>) {
    var denied := RoleError(t, w, actor, MANAGE_ROLES);
    if denied.Some? then (t, Err(denied.value))
    else if user.None? then (t, Err(UserNotFound))
    else if (w, user.value) in t.members then (t, Err(AlreadyMember))
    else if quota > 0 && |MembersOf(t, w)| >= quota then (t, Err(QuotaReached))
    else (t.(members := t.members[(w, user.value) := role]), Ok(()))
  }

  function MemberError(t: Tables, w: WorkspaceId, actor: UserId, member: MemberId): Option<Error> {
    var denied := RoleError(t, w, actor, MANAGE_ROLES);
    if denied.Some? then denied
    else if member !in t.members || member.0 != w then Some(NotMember)
    else if t.members[member] == OWNER then Some(CannotRemoveOwner)
    else None
  }

  function Updated(t: Tables, w: WorkspaceId, actor: UserId, member: MemberId, role: Role): (Tables,
      Result<(), Error>) {
    var error := MemberError(t, w, actor, member);
    if error.Some? then (t, Err(error.value)) else (t.(members := t.members[member := role]), Ok(()))
  }

  function Removed(t: Tables, w: WorkspaceId, actor: UserId, member: MemberId): (Tables, Result<(), Error>) {
    var error := MemberError(t, w, actor, member);
    if error.Some? then (t, Err(error.value)) else (t.(members := t.members - {member}), Ok(()))
  }

  /** Joining through an invite link of this role; see module InviteLinks. */
  function Joined(t: Tables, w: WorkspaceId, user: UserId, role: Role): Tables {
    if w !in t.owners || (w, user) in t.members then t else t.(members := t.members[(w, user) := role])
  }

  // ─── Who may do what ───────────────────────────────────

  /** Members are added, changed and removed by an OWNER or ADMIN of the workspace and by nobody else: a MEMBER or
      VIEWER is told so, and whoever is no member has no access. */
  lemma OnlyManagersManage(t: Tables, w: WorkspaceId, actor: UserId, user: Option<UserId>, member: MemberId, role: Role,
                           quota: nat)
    ensures var mine := if (w, actor) in t.members then Some(t.members[(w, actor)]) else None;
            var add, update, remove := Added(t, w, actor, user, role, quota).1, Updated(t, w, actor, member, role).1,
                Removed(t, w, actor, member).1;
            if mine.None? then add == update == remove == Err(AccessDenied)
            else if mine == Some(MEMBER) || mine == Some(VIEWER) then add == update == remove == Err(Insufficient)
            else
              && add.Ok? == (user.Some? && (w, user.value) !in t.members &&
                             (quota == 0 || |set m | m in t.members && m.0 == w| < quota))
              && update.Ok? == remove.Ok? == (member in t.members && member.0 == w && t.members[member] != OWNER)
  {
    assert MembersOf(t, w) == set m | m in t.members && m.0 == w;
    if (w, actor) in t.members {
      match t.members[(w, actor)] {
        case OWNER =>
        case ADMIN =>
        case MEMBER =>
        case VIEWER =>
      }
    }
  }

  /** What they change is that one member; a call that is refused changes nothing. */
  lemma OneMemberChanges(t: Tables, w: WorkspaceId, actor: UserId, user: Option<UserId>, member: MemberId, role: Role,
                         quota: nat)
    ensures var (after, r) := Added(t, w, actor, user, role, quota);
            after == if r.Ok? then Tables(t.owners, t.members[(w, user.value) := role]) else t
    ensures var (after, r) := Updated(t, w, actor, member, role);
            after == if r.Ok? then Tables(t.owners, t.members[member := role]) else t
    ensures var (after, r) := Removed(t, w, actor, member);
            after == if r.Ok? then Tables(t.owners, t.members - {member}) else t
  {
  }

  /** A workspace is deleted and transferred by an OWNER and by nobody else, not by an ADMIN either. */
  lemma OnlyOwnersOwn(t: Tables, w: WorkspaceId, actor: UserId, to: UserId)
    ensures var ((gone, deleted), (moved, transferred)) := (Deleted(t, w, actor), Transferred(t, w, actor, to));
            if (w, actor) !in t.members then deleted == transferred == Err(AccessDenied) && gone == moved == t
            else if t.members[(w, actor)] != OWNER then
              deleted == transferred == Err(Insufficient) && gone == moved == t
            else
              && deleted.Ok? && gone.owners == t.owners - {w}
              && (forall m :: m in gone.members <==> m in t.members && m.0 != w)
              && (forall m | m in gone.members :: gone.members[m] == t.members[m])
              && transferred.Ok? == ((w, to) in t.members && to != actor)
              && moved == if transferred.Err? then t
                          else Tables(t.owners[w := to], t.members[(w, actor) := ADMIN][(w, to) := OWNER])
  {
  }

  // ─── Runs ──────────────────────────────────────────────

  datatype Op =
    | Create(w: WorkspaceId, actor: UserId)
    | Delete(w: WorkspaceId, actor: UserId)
    | Transfer(w: WorkspaceId, actor: UserId, to: UserId)
    | Add(w: WorkspaceId, actor: UserId, user: Option<UserId>, role: Role, quota: nat)
    | Update(w: WorkspaceId, actor: UserId, member: MemberId, role: Role)
    | Remove(w: WorkspaceId, actor: UserId, member: MemberId)
    | Join(w: WorkspaceId, actor: UserId, role: Role)

  function Step(t: Tables, op: Op): Tables {
    match op
    case Create(w, actor) => if w in t.owners then t else Created(t, w, actor)
    case Delete(w, actor) => Deleted(t, w, actor).0
    case Transfer(w, actor, to) => Transferred(t, w, actor, to).0
    case Add(w, actor, user, role, quota) => Added(t, w, actor, user, role, quota).0
    case Update(w, actor, member, role) => Updated(t, w, actor, member, role).0
    case Remove(w, actor, member) => Removed(t, w, actor, member).0
    case Join(w, actor, role) => if role == OWNER then t else Joined(t, w, actor, role)
  }

  function Run(t: Tables, ops: seq<Op>): Tables {
    if ops == [] then t else Step(Run(t, ops[..|ops| - 1]), ops[|ops| - 1])
  }

  const Empty: Tables := Tables(map[], map[])

  /** The owner column names a member whose role is OWNER. */
  ghost predicate Seated(t: Tables) {
    forall w | w in t.owners :: (w, t.owners[w]) in t.members && t.members[(w, t.owners[w])] == OWNER
  }

  /** And members belong to workspaces that exist. */
  ghost predicate Owned(t: Tables) {
    Seated(t) && forall m | m in t.members :: m.0 in t.owners
  }

  /** Nobody else has the role. */
  ghost predicate SoleOwned(t: Tables) {
    forall m | m in t.members && t.members[m] == OWNER :: m.0 in t.owners && m.1 == t.owners[m.0]
  }

  predicate AsksForOwner(op: Op) {
    (op.Add? || op.Update?) && op.role == OWNER
  }

  lemma StepKeepsOwned(t: Tables, op: Op)
    requires Owned(t)
    ensures Owned(Step(t, op))
  {
  }

  lemma StepKeepsSoleOwned(t: Tables, op: Op)
    requires Owned(t) && SoleOwned(t) && !AsksForOwner(op)
    ensures SoleOwned(Step(t, op))
  {
    var after := Step(t, op);
    forall m | m in after.members && after.members[m] == OWNER ensures m.0 in after.owners && m.1 == after.owners[m.0] {
      if m in t.members && t.members[m] == OWNER {
        OnlyTransferUnseats(t, op, m);
      }
    }
  }

  lemma {:induction false} RunKeepsOwned(ops: seq<Op>)
    ensures Owned(Run(Empty, ops))
    ensures (forall op | op in ops :: !AsksForOwner(op)) ==> SoleOwned(Run(Empty, ops))
  {
    if ops != [] {
      RunKeepsOwned(ops[..|ops| - 1]);
      StepKeepsOwned(Run(Empty, ops[..|ops| - 1]), ops[|ops| - 1]);
      if forall op | op in ops :: !AsksForOwner(op) {
        StepKeepsSoleOwned(Run(Empty, ops[..|ops| - 1]), ops[|ops| - 1]);
      }
    }
  }

  // ─── Main results ──────────────────────────────────────

  /** In every run the owner of a workspace is a member of it with the role OWNER. */
  lemma OwnerIsMember(ops: seq<Op>, w: WorkspaceId)
    requires w in Run(Empty, ops).owners
    ensures var t := Run(Empty, ops); (w, t.owners[w]) in t.members && t.members[(w, t.owners[w])] == OWNER
  {
    RunKeepsOwned(ops);
  }

  /** When no member is ever added or updated to OWNER, the owner is the only one. */
  lemma OnlyOwner(ops: seq<Op>, w: WorkspaceId, user: UserId)
    requires forall op | op in ops :: (op.Add? || op.Update?) ==> op.role != OWNER
    requires (w, user) in Run(Empty, ops).members && Run(Empty, ops).members[(w, user)] == OWNER
    ensures var t := Run(Empty, ops); w in t.owners && user == t.owners[w]
  {
    RunKeepsOwned(ops);
  }

  /** Whoever is OWNER stays OWNER until transferring it away or until the workspace is gone. */
  lemma OnlyTransferUnseats(t: Tables, op: Op, m: MemberId)
    requires Owned(t) && m in t.members && t.members[m] == OWNER
    ensures var after := Step(t, op);
            (m in after.members && after.members[m] == OWNER) <==>
            !(op.Transfer? && op.w == m.0 && op.actor == m.1 && op.to != op.actor && (op.w, op.to) in t.members) &&
            !(op.Delete? && op.w == m.0 && RoleError(t, op.w, op.actor, {OWNER}).None?)
  {
  }

  function OwnersOf(t: Tables, w: WorkspaceId): set<UserId> {
    set m | m in t.members && m.0 == w && t.members[m] == OWNER :: m.1
  }

  /** A transfer demotes the caller to ADMIN and touches nobody but the two. It is meant to leave exactly one OWNER, and
      does exactly when nobody but the two of them had the role. */
  lemma OneOwnerAfterTransfer(t: Tables, w: WorkspaceId, actor: UserId, to: UserId)
    requires Transferred(t, w, actor, to).1.Ok?
    ensures var after := Transferred(t, w, actor, to).0;
            && after.owners == t.owners[w := to] && to in OwnersOf(after, w)
            && after.members.Keys == t.members.Keys && after.members[(w, actor)] == ADMIN
            && (forall m | m in t.members && m != (w, actor) && m != (w, to) :: after.members[m] == t.members[m])
            && (OwnersOf(after, w) == {to} <==> OwnersOf(t, w) <= {actor, to})
  {
    var after := Transferred(t, w, actor, to).0;
    assert after.members[(w, to)] == OWNER;
    forall u ensures u in OwnersOf(after, w) <==> u == to || (u in OwnersOf(t, w) && u != actor) {
      assert u in OwnersOf(t, w) <==> (w, u) in t.members && t.members[(w, u)] == OWNER by {
        if u in OwnersOf(t, w) {
          var m :| m in t.members && m.0 == w && t.members[m] == OWNER && m.1 == u; assert m == (w, u);
        }
        if (w, u) in t.members && t.members[(w, u)] == OWNER { var m := (w, u); assert m.0 == w && m.1 == u; }
      }
      assert u in OwnersOf(after, w) <==> (w, u) in after.members && after.members[(w, u)] == OWNER by {
        if u in OwnersOf(after, w) {
          var m :| m in after.members && m.0 == w && after.members[m] == OWNER && m.1 == u; assert m == (w, u);
        }
        if (w, u) in after.members && after.members[(w, u)] == OWNER { var m := (w, u); assert m.0 == w && m.1 == u; }
      }
    }
    assert actor !in OwnersOf(after, w);
  }

  /** Two members stay OWNER after a transfer by a third who was added as OWNER. */
  lemma TransferLeavesTwoOwners()
    ensures var ops := [Create(0, 1), Add(0, 1, Some(2), MEMBER, 0), Add(0, 1, Some(3), OWNER, 0), Transfer(0, 3, 2)];
            var t := Run(Empty, ops);
            (0, 1) in t.members && t.members[(0, 1)] == OWNER && (0, 2) in t.members && t.members[(0, 2)] == OWNER
  {
    var create, add2, add3, transfer := Create(0, 1), Add(0, 1, Some(2), MEMBER, 0), Add(0, 1, Some(3), OWNER, 0),
        Transfer(0, 3, 2);
    var ops := [create, add2, add3, transfer];
    assert ops[..3] == [create, add2, add3];
    var one := Tables(map[0 := 1], map[(0, 1) := OWNER]);
    assert Run(Empty, [create]) == one by { assert [create][..0] == []; }
    var two := one.(members := one.members[(0, 2) := MEMBER]);
    assert Run(Empty, [create, add2]) == two by { assert [create, add2][..1] == [create]; }
    var three := two.(members := two.members[(0, 3) := OWNER]);
    assert Run(Empty, [create, add2, add3]) == three by { assert [create, add2, add3][..2] == [create, add2]; }
    assert Run(Empty, ops) == Step(three, transfer);
  }

  /** A full workspace takes nobody in through `addMember`. */
  lemma QuotaHolds(t: Tables, w: WorkspaceId, actor: UserId, user: Option<UserId>, role: Role, quota: nat)
    requires quota > 0 && |MembersOf(t, w)| <= quota
    ensures |MembersOf(Added(t, w, actor, user, role, quota).0, w)| <= quota
  {
    var after := Added(t, w, actor, user, role, quota).0;
    if after != t {
      assert MembersOf(after, w) == MembersOf(t, w) + {(w, user.value)};
    }
  }

  // ─── The service ───────────────────────────────────────

  class WorkspacesService {
    var owners: map<WorkspaceId, UserId>
    var members: map<MemberId, Role>

    function Snapshot(): Tables
      reads this
    {
      Tables(owners, members)
    }

    ghost predicate Valid()
      reads this
    {
      Owned(Snapshot())
    }

    constructor ()
      ensures Valid() && Snapshot() == Empty
    {
      owners, members := map[], map[];
    }

    /** A member passes exactly with one of the roles; nobody passes for a workspace that is gone, and the owner passes
        whatever an OWNER may do. */
    method AssertRole(w: WorkspaceId, user: UserId, roles: set<Role>) returns (r: Result<Role, Error>)
      requires Valid()
      ensures r.Ok? ==> (w, user) in members && r.value == members[(w, user)] && r.value in roles
      ensures r == Err(AccessDenied) <==> (w, user) !in members
      ensures r == Err(Insufficient) <==> (w, user) in members && members[(w, user)] !in roles
      ensures w !in owners ==> r == Err(AccessDenied)
      ensures w in owners && user == owners[w] ==> (r == Ok(OWNER) <==> OWNER in roles) && (r.Ok? <==> OWNER in roles)
      ensures r == match RoleError(Snapshot(), w, user, roles) { case Some(e) => Err(e) case None =>
              Ok(members[(w, user)]) }
    {
      if (w, user) !in members {
        return Err(AccessDenied);
      }
      if members[(w, user)] !in roles {
        return Err(Insufficient);
      }
      return Ok(members[(w, user)]);
    }

    /** The row and its OWNER member are one nested write; the slug loop is in module Slugs. */
    method Create(w: WorkspaceId, user: UserId)
      requires Valid() && w !in owners
      modifies this
      ensures Valid() && Snapshot() == Created(old(Snapshot()), w, user)
      ensures owners == old(owners)[w := user] && members == old(members)[(w, user) := OWNER]
    {
      owners, members := owners[w := user], members[(w, user) := OWNER];
    }

    method Delete(w: WorkspaceId, actor: UserId) returns (r: Result<(), Error>)
      requires Valid()
      modifies this
      ensures Valid() && (Snapshot(), r) == Deleted(old(Snapshot()), w, actor)
    {
      var role := AssertRole(w, actor, {OWNER});
      if role.Err? {
        return Err(role.error);
      }
      owners, members := owners - {w}, map m | m in members && m.0 != w :: members[m];
      return Ok(());
    }

    method TransferOwnership(w: WorkspaceId, actor: UserId, to: UserId) returns (r: Result<(), Error>)
      requires Valid()
      modifies this
      ensures Valid() && (Snapshot(), r) == Transferred(old(Snapshot()), w, actor, to)
    {
      var role := AssertRole(w, actor, {OWNER});
      if role.Err? {
        return Err(role.error);
      }
      if to == actor {
        return Err(TransferToSelf);
      }
      if (w, to) !in members {
        return Err(NewOwnerNotMember);
      }
      members := members[(w, actor) := ADMIN];
      members := members[(w, to) := OWNER];
      owners := owners[w := to];
      return Ok(());
    }

    method AddMember(w: WorkspaceId, actor: UserId, user: Option<UserId>, role: Role, quota: nat)
      returns (r: Result<(), Error>)
      requires Valid()
      modifies this
      ensures Valid() && (Snapshot(), r) == Added(old(Snapshot()), w, actor, user, role, quota)
    {
      var caller := AssertRole(w, actor, MANAGE_ROLES);
      if caller.Err? {
        return Err(caller.error);
      }
      if user.None? {
        return Err(UserNotFound);
      }
      if (w, user.value) in members {
        return Err(AlreadyMember);
      }
      if quota > 0 && |MembersOf(Snapshot(), w)| >= quota {
        return Err(QuotaReached);
      }
      members := members[(w, user.value) := role];
      return Ok(());
    }

    method UpdateMember(w: WorkspaceId, member: MemberId, actor: UserId, role: Role) returns (r: Result<(), Error>)
      requires Valid()
      modifies this
      ensures Valid() && (Snapshot(), r) == Updated(old(Snapshot()), w, actor, member, role)
    {
      var caller := AssertRole(w, actor, MANAGE_ROLES);
      if caller.Err? {
        return Err(caller.error);
      }
      if member !in members || member.0 != w {
        return Err(NotMember);
      }
      if members[member] == OWNER {
        return Err(CannotRemoveOwner);
      }
      members := members[member := role];
      return Ok(());
    }

    method RemoveMember(w: WorkspaceId, member: MemberId, actor: UserId) returns (r: Result<(), Error>)
      requires Valid()
      modifies this
      ensures Valid() && (Snapshot(), r) == Removed(old(Snapshot()), w, actor, member)
    {
      var caller := AssertRole(w, actor, MANAGE_ROLES);
      if caller.Err? {
        return Err(caller.error);
      }
      if member !in members || member.0 != w {
        return Err(NotMember);
      }
      if members[member] == OWNER {
        return Err(CannotRemoveOwner);
      }
      members := members - {member};
      return Ok(());
    }
  }
}
