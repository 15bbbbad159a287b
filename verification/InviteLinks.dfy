/** Shareable invite links with a cap on their uses. Joining reads the link, and then decides again inside a
    transaction; any number of joins, revocations and membership changes may interleave between the two. */
module InviteLinks {
  import opened Prelude
  import Workspaces

  type WorkspaceId = Workspaces.WorkspaceId
  type UserId = Workspaces.UserId
  type Role = Workspaces.Role
  type LinkId = nat
  type OpId = nat

  datatype Link = Link(workspace: WorkspaceId, role: Role, maxUses: Option<nat>, usedCount: nat, expiresAt: Option<int>)

  datatype Error = Insufficient | NotFound | Expired | Exhausted | Internal

  datatype Pc =
    | Joining(id: LinkId, link: Link, user: UserId)
    | Joined(id: LinkId)
    | AlreadyMember
    | Refused(error: Error)

  /** One committed membership that a link created. */
  datatype Grant = Grant(id: LinkId, user: UserId, role: Role)

  /** `revoked` and `grants` are history: the deleted rows as they were, and every membership that came from a link. */
  datatype State = State(
    links: map<LinkId, Link>, members: map<(WorkspaceId, UserId), Role>,
    revoked: map<LinkId, Link>, grants: seq<Grant>, ops: map<OpId, Pc>)

  datatype Fault = Fine | FailBefore | FailAfter

  datatype Event =
    | Create(id: LinkId, link: Link)
    | Revoke(id: LinkId, workspace: WorkspaceId)
    | BeginJoin(op: OpId, id: LinkId, user: UserId, now: int)
    | Commit(op: OpId, fault: Fault)
    | SetMember(workspace: WorkspaceId, user: UserId, role: Role)
    | DropMember(workspace: WorkspaceId, user: UserId)

  const Empty: State := State(map[], map[], map[], [], map[])

  // ─── Steps ─────────────────────────────────────────────

  /** findValidLink */
  function LinkError(links: map<LinkId, Link>, id: LinkId, now: int): Option<Error> {
    if id !in links then Some(NotFound)
    else if links[id].expiresAt.Some? && links[id].expiresAt.value < now then Some(Expired)
    else if links[id].maxUses.Some? && links[id].usedCount >= links[id].maxUses.value then Some(Exhausted)
    else None
  }

  function ReadPc(s: State, id: LinkId, user: UserId, now: int): Pc {
    var error := LinkError(s.links, id, now);
    if error.Some? then Refused(error.value) else Joining(id, s.links[id], user)
  }

  function SetPc(s: State, op: OpId, pc: Pc): State {
    s.(ops := s.ops[op := pc])
  }

  function Bumped(link: Link): Link {
    link.(usedCount := link.usedCount + 1)
  }

  predicate OverCap(link: Link) {
    link.maxUses.Some? && link.usedCount > link.maxUses.value
  }

  /** The transaction of `join`, on the link row as it was read and the tables as they are now. */
  function JoinTx(s: State, pc: Pc): (State, Pc)
    requires pc.Joining?
  {
    var key := (pc.link.workspace, pc.user);
    if key in s.members then (s, AlreadyMember)
    else if pc.id !in s.links then (s, Refused(Internal))
    else if OverCap(Bumped(s.links[pc.id])) then (s, Refused(Exhausted))
    else (s.(members := s.members[key := pc.link.role],
             links := s.links[pc.id := Bumped(s.links[pc.id])],
             grants := s.grants + [Grant(pc.id, pc.user, pc.link.role)]),
          Joined(pc.id))
  }

  function Step(s: State, e: Event): State {
    match e
    case Create(id, link) =>
      if id in s.links || id in s.revoked || link.role == Workspaces.OWNER || link.usedCount != 0 then s
      else s.(links := s.links[id := link])
    case Revoke(id, workspace) =>
      if id !in s.links || s.links[id].workspace != workspace then s
      else s.(links := s.links - {id}, revoked := s.revoked[id := s.links[id]])
    case BeginJoin(op, id, user, now) => if op in s.ops then s else SetPc(s, op, ReadPc(s, id, user, now))
    case Commit(op, fault) =>
      if op !in s.ops || !s.ops[op].Joining? then s
      else if fault == FailBefore then SetPc(s, op, Refused(Internal))
      else
        var (t, pc) := JoinTx(s, s.ops[op]);
        SetPc(t, op, if fault == Fine then pc else Refused(Internal))
    case SetMember(workspace, user, role) => s.(members := s.members[(workspace, user) := role])
    case DropMember(workspace, user) => s.(members := s.members - {(workspace, user)})
  }

  function Run(s: State, events: seq<Event>): State {
    if events == [] then s else Step(Run(s, events[..|events| - 1]), events[|events| - 1])
  }

  // ─── The invariant ─────────────────────────────────────

  function Uses(grants: seq<Grant>, id: LinkId): nat {
    if grants == [] then 0
    else Uses(grants[..|grants| - 1], id) + (if grants[|grants| - 1].id == id then 1 else 0)
  }

  lemma UsesSnoc(grants: seq<Grant>, g: Grant, id: LinkId)
    ensures Uses(grants + [g], id) == Uses(grants, id) + (if g.id == id then 1 else 0)
  {
    assert (grants + [g])[..|grants|] == grants;
  }

  ghost predicate LinkOk(grants: seq<Grant>, id: LinkId, link: Link) {
    link.usedCount == Uses(grants, id) && !OverCap(link) && link.role != Workspaces.OWNER
  }

  ghost predicate Inv(s: State) {
    && s.links.Keys !! s.revoked.Keys
    && (forall id | id in s.links :: LinkOk(s.grants, id, s.links[id]))
    && (forall id | id in s.revoked :: LinkOk(s.grants, id, s.revoked[id]))
    && (forall i | 0 <= i < |s.grants| :: s.grants[i].id in s.links.Keys + s.revoked.Keys &&
                                          s.grants[i].role != Workspaces.OWNER)
    && (forall op | op in s.ops && s.ops[op].Joining? ::
          s.ops[op].link.role != Workspaces.OWNER && s.ops[op].id in s.links.Keys + s.revoked.Keys)
  }

  lemma {:induction false} UnusedLink(grants: seq<Grant>, id: LinkId)
    requires forall i | 0 <= i < |grants| :: grants[i].id != id
    ensures Uses(grants, id) == 0
  {
    if grants != [] {
      UnusedLink(grants[..|grants| - 1], id);
    }
  }

  lemma JoinKeepsInv(s: State, pc: Pc)
    requires Inv(s) && pc.Joining? && pc.link.role != Workspaces.OWNER && pc.id in s.links.Keys + s.revoked.Keys
    ensures Inv(JoinTx(s, pc).0)
  {
    var t := JoinTx(s, pc).0;
    var g := Grant(pc.id, pc.user, pc.link.role);
    forall id | id in t.links && t != s ensures LinkOk(t.grants, id, t.links[id]) {
      UsesSnoc(s.grants, g, id);
      assert LinkOk(s.grants, id, s.links[id]);
    }
    forall id | id in t.revoked && t != s ensures LinkOk(t.grants, id, t.revoked[id]) {
      UsesSnoc(s.grants, g, id);
      assert LinkOk(s.grants, id, s.revoked[id]);
    }
  }

  lemma PcKeepsInv(s: State, op: OpId, pc: Pc)
    requires Inv(s)
    requires pc.Joining? ==> pc.link.role != Workspaces.OWNER && pc.id in s.links.Keys + s.revoked.Keys
    ensures Inv(SetPc(s, op, pc))
  {
  }

  lemma CommitKeepsInv(s: State, op: OpId, fault: Fault)
    requires Inv(s)
    ensures Inv(Step(s, Commit(op, fault)))
  {
    if op in s.ops && s.ops[op].Joining? {
      JoinKeepsInv(s, s.ops[op]);
      hide Inv;
      PcKeepsInv(if fault == FailBefore then s else JoinTx(s, s.ops[op]).0, op, Step(s, Commit(op, fault)).ops[op]);
    }
  }

  lemma StepKeepsInv(s: State, e: Event)
    requires Inv(s)
    ensures Inv(Step(s, e))
  {
    if e.Create? && e.id !in s.links && e.id !in s.revoked {
      UnusedLink(s.grants, e.id);
    } else if e.Commit? {
      CommitKeepsInv(s, e.op, e.fault);
    } else if e.BeginJoin? {
      assert e.id in s.links ==> LinkOk(s.grants, e.id, s.links[e.id]);
      PcKeepsInv(s, e.op, ReadPc(s, e.id, e.user, e.now));
    }
  }

  lemma {:induction false} RunKeepsInv(events: seq<Event>)
    ensures Inv(Run(Empty, events))
  {
    if events != [] {
      RunKeepsInv(events[..|events| - 1]);
      StepKeepsInv(Run(Empty, events[..|events| - 1]), events[|events| - 1]);
    }
  }

  // ─── Main results ──────────────────────────────────────

  /** However joins and revocations interleave and fail, a link's counter is the number of memberships that came from
      it, also in the row that a revocation deleted, and the cap is never exceeded. */
  lemma CountedAndCapped(events: seq<Event>, id: LinkId, link: Link)
    requires var s := Run(Empty, events); (id in s.links && s.links[id] == link) ||
                                          (id in s.revoked && s.revoked[id] == link)
    ensures link.usedCount == Uses(Run(Empty, events).grants, id)
    ensures link.maxUses.Some? ==> Uses(Run(Empty, events).grants, id) <= link.maxUses.value
  {
    RunKeepsInv(events);
    var s := Run(Empty, events);
    assert LinkOk(s.grants, id, link);
  }

  /** No membership that came from a link has the role OWNER. */
  lemma NeverOwner(events: seq<Event>, i: nat)
    requires i < |Run(Empty, events).grants|
    ensures Run(Empty, events).grants[i].role != Workspaces.OWNER
  {
    RunKeepsInv(events);
  }

  /** What a join reads: the link as it is then, or why it is not valid. */
  lemma BeginJoinReads(s: State, op: OpId, id: LinkId, user: UserId, now: int)
    requires op !in s.ops
    ensures Step(s, BeginJoin(op, id, user, now)) == s.(ops := s.ops[op :=
              if id !in s.links then Refused(NotFound)
              else
                var link := s.links[id];
                if link.expiresAt.Some? && link.expiresAt.value < now then Refused(Expired)
                else if link.maxUses.Some? && link.maxUses.value <= link.usedCount then Refused(Exhausted)
                else Joining(id, link, user)])
  {
  }

  /** What happens to links and members meanwhile: a link is revoked only as one of its own workspace, and its id is not
      used again. */
  lemma MeanwhileIs(s: State, id: LinkId, link: Link, workspace: WorkspaceId, user: UserId, role: Role)
    ensures Step(s, Event.Create(id, link)) ==
            if id in s.links || id in s.revoked || link.role == Workspaces.OWNER || link.usedCount > 0 then s
            else s.(links := s.links[id := link])
    ensures Step(s, Revoke(id, workspace)) ==
            if id in s.links && s.links[id].workspace == workspace
            then s.(links := s.links - {id}, revoked := s.revoked[id := s.links[id]]) else s
    ensures Step(s, SetMember(workspace, user, role)) == s.(members := s.members[(workspace, user) := role])
    ensures Step(s, DropMember(workspace, user)) == s.(members := s.members - {(workspace, user)})
  {
  }

  /** The commit takes a member in exactly when the user is not one yet, the link still exists and a use is left; it
      does not look at the expiry again. It then adds one membership and one use, and otherwise leaves no trace. */
  lemma CommitAllOrNothing(s: State, op: OpId, fault: Fault)
    requires Inv(s) && op in s.ops && s.ops[op].Joining?
    ensures var pc := s.ops[op];
            var key := (pc.link.workspace, pc.user);
            var t := Step(s, Commit(op, fault));
            if fault != FailBefore && key !in s.members && pc.id in s.links &&
               (s.links[pc.id].maxUses.None? || s.links[pc.id].usedCount < s.links[pc.id].maxUses.value)
            then
              && t.members == s.members[key := pc.link.role] &&
                 t.grants == s.grants + [Grant(pc.id, pc.user, pc.link.role)]
              && Uses(t.grants, pc.id) == Uses(s.grants, pc.id) + 1 &&
                 t.links == s.links[pc.id := Bumped(s.links[pc.id])]
              && t.ops[op] == if fault == Fine then Joined(pc.id) else Refused(Internal)
            else
              && t == s.(ops := s.ops[op := t.ops[op]]) && !t.ops[op].Joined?
              && t.ops[op] == if fault == Fine && key in s.members then AlreadyMember
                              else Refused(if fault == Fine && pc.id in s.links then Exhausted else Internal)
  {
    var pc := s.ops[op];
    UsesSnoc(s.grants, Grant(pc.id, pc.user, pc.link.role), pc.id);
  }

  /** Whoever is a member already can join again, at any time and with any link still valid, and changes nothing. */
  lemma RepeatJoinChangesNothing(s: State, op: OpId, id: LinkId, user: UserId, now: int)
    requires op !in s.ops && id in s.links && (s.links[id].workspace, user) in s.members
    ensures var t := Step(Step(s, BeginJoin(op, id, user, now)), Commit(op, Fine));
            t == SetPc(s, op, match LinkError(s.links, id, now) { case Some(e) => Refused(e) case None =>
                AlreadyMember })
  {
    var pc := ReadPc(s, id, user, now);
    var r := Step(s, BeginJoin(op, id, user, now));
    if pc.Joining? {
      assert s.ops[op := pc][op := AlreadyMember] == s.ops[op := AlreadyMember];
    }
  }

  /** With one use left and two joins past their read, one gets in and the other is told the link is exhausted. */
  lemma LastSlot(s: State, first: OpId, second: OpId)
    requires Inv(s) && first in s.ops && second in s.ops && first != second
    requires var a, b := s.ops[first], s.ops[second];
             && a.Joining? && b.Joining? && a.id == b.id && a.link.workspace == b.link.workspace && a.user != b.user
             && (a.link.workspace, a.user) !in s.members && (b.link.workspace, b.user) !in s.members
             && a.id in s.links && s.links[a.id].maxUses == Some(s.links[a.id].usedCount + 1)
    ensures var t := Step(Step(s, Commit(first, Fine)), Commit(second, Fine));
            && t.ops[first] == Joined(s.ops[first].id) && t.ops[second] == Refused(Exhausted)
            && t.grants == s.grants + [Grant(s.ops[first].id, s.ops[first].user, s.ops[first].link.role)]
            && (s.ops[second].link.workspace, s.ops[second].user) !in t.members
  {
  }

  /** What a join with nothing in between does, and answers. */
  function JoinAlone(s: State, id: LinkId, user: UserId, now: int): (State, Pc) {
    var pc := ReadPc(s, id, user, now);
    if pc.Joining? then JoinTx(s, pc) else (s, pc)
  }

  /** It is the read and the commit, back to back. */
  lemma JoinAloneIsARun(s: State, op: OpId, id: LinkId, user: UserId, now: int)
    requires op !in s.ops
    ensures var (t, pc) := JoinAlone(s, id, user, now);
            Step(Step(s, BeginJoin(op, id, user, now)), Commit(op, Fine)) == SetPc(t, op, pc)
  {
    var (t, pc) := JoinAlone(s, id, user, now);
    var read := ReadPc(s, id, user, now);
    assert s.ops[op := read][op := pc] == s.ops[op := pc];
  }

  /** It takes the user in exactly when the link exists, has not expired, has a use left, and the user is not a member
      yet; the new member has the link's role. */
  lemma JoinTakesInIff(s: State, id: LinkId, user: UserId, now: int)
    requires Inv(s)
    ensures var (t, pc) := JoinAlone(s, id, user, now);
            && (pc == Joined(id) <==>
                id in s.links && (s.links[id].expiresAt.None? || s.links[id].expiresAt.value >= now) &&
                (s.links[id].maxUses.None? || s.links[id].usedCount < s.links[id].maxUses.value) &&
                (s.links[id].workspace, user) !in s.members)
            && (pc == Joined(id) ==> t.members == s.members[(s.links[id].workspace, user) := s.links[id].role] &&
                                     t.links == s.links[id := s.links[id].(usedCount := s.links[id].usedCount + 1)])
            && (pc != Joined(id) ==> t == s)
  {
  }

  // ─── The service ───────────────────────────────────────

  class InviteLinksService {
    var links: map<LinkId, Link>
    var members: map<(WorkspaceId, UserId), Role>
    ghost var revoked: map<LinkId, Link>
    ghost var grants: seq<Grant>

    ghost function Snapshot(): State
      reads this
    {
      State(links, members, revoked, grants, map[])
    }

    ghost predicate Valid()
      reads this
    {
      Inv(Snapshot())
    }

    constructor (members: map<(WorkspaceId, UserId), Role>)
      ensures Valid() && links == map[] && this.members == members
    {
      this.members := members;
      links, revoked, grants := map[], map[], [];
    }

    predicate MayManage(workspace: WorkspaceId, user: UserId)
      reads this
    {
      (workspace, user) in members && members[(workspace, user)] in Workspaces.MANAGE_ROLES
    }

    /** `id` stands for the row id and the share token, both new. */
    method Create(workspace: WorkspaceId, user: UserId, id: LinkId, role: Option<Role>, maxUses: Option<nat>,
                  expiresInMs: int, now: int) returns (r: Result<(), Error>)
      requires Valid() && id !in links && id !in revoked
      modifies this
      ensures Valid()
      ensures r.Ok? <==> (workspace, user) in members && role != Some(Workspaces.OWNER) &&
                         (members[(workspace, user)] == Workspaces.OWNER ||
                          members[(workspace, user)] == Workspaces.ADMIN)
      ensures members == old(members) && revoked == old(revoked) && grants == old(grants)
      ensures r.Err? ==> r == Err(Insufficient) && links == old(links)
      ensures r.Ok? ==> links == old(links)[id := Link(workspace, if role.Some? then role.value else Workspaces.MEMBER,
                maxUses, 0, if expiresInMs > 0 then Some(now + expiresInMs) else None)]
      ensures Snapshot() == if r.Err? then old(Snapshot()) else Step(old(Snapshot()), Event.Create(id,
                Link(workspace, if role.Some? then role.value else Workspaces.MEMBER, maxUses, 0,
                     if expiresInMs > 0 then Some(now + expiresInMs) else None)))
    {
      if !MayManage(workspace, user) {
        return Err(Insufficient);
      }
      var granted := if role.Some? then role.value else Workspaces.MEMBER;
      if granted == Workspaces.OWNER {
        return Err(Insufficient);
      }
      var expiresAt := if expiresInMs > 0 then Some(now + expiresInMs) else None;
      var link := Link(workspace, granted, maxUses, 0, expiresAt);
      StepKeepsInv(Snapshot(), Event.Create(id, link));
      links := links[id := link];
      return Ok(());
    }

    method Revoke(workspace: WorkspaceId, id: LinkId, user: UserId) returns (r: Result<(), Error>)
      requires Valid()
      modifies this
      ensures Valid()
      ensures r.Err? && r.error == Insufficient <==>
              (workspace, user) !in members || (members[(workspace, user)] != Workspaces.OWNER &&
                                                members[(workspace, user)] != Workspaces.ADMIN)
      ensures r.Ok? <==> r != Err(Insufficient) && id in old(links) && old(links)[id].workspace == workspace
      ensures members == old(members) && grants == old(grants)
      ensures r.Err? ==> (r == Err(NotFound) || r == Err(Insufficient)) && links == old(links) &&
                         revoked == old(revoked)
      ensures r.Ok? ==> links == old(links) - {id} && revoked == old(revoked)[id := old(links)[id]]
      ensures Snapshot() == if r.Err? then old(Snapshot()) else Step(old(Snapshot()), Event.Revoke(id, workspace))
    {
      if !MayManage(workspace, user) {
        return Err(Insufficient);
      }
      if id !in links || links[id].workspace != workspace {
        return Err(NotFound);
      }
      StepKeepsInv(Snapshot(), Event.Revoke(id, workspace));
      revoked := revoked[id := links[id]];
      links := links - {id};
      return Ok(());
    }

    /** The link is good exactly if joining through it now would take in a user who is no member yet. */
    method FindValidLink(id: LinkId, now: int) returns (r: Result<Link, Error>)
      requires Valid()
      ensures r.Ok? ==> id in links && r.value == links[id]
      ensures forall user: UserId | id in links && (links[id].workspace, user) !in members ::
                r.Ok? <==> JoinAlone(Snapshot(), id, user, now).1 == Joined(id)
      ensures r == Err(NotFound) <==> id !in links
      ensures r == Err(Expired) <==> id in links && links[id].expiresAt.Some? && links[id].expiresAt.value < now
      ensures r.Ok? <==> id in links && (links[id].expiresAt.Some? ==> now <= links[id].expiresAt.value) &&
                         (links[id].maxUses.Some? ==> links[id].usedCount < links[id].maxUses.value)
      ensures r.Err? ==> r.error == NotFound || r.error == Expired || r.error == Exhausted
      ensures r == match LinkError(links, id, now) { case Some(e) => Err(e) case None => Ok(links[id]) }
    {
      if id !in links {
        return Err(NotFound);
      }
      var link := links[id];
      if link.expiresAt.Some? && link.expiresAt.value < now {
        return Err(Expired);
      }
      if link.maxUses.Some? && link.usedCount >= link.maxUses.value {
        return Err(Exhausted);
      }
      return Ok(link);
    }

    /** The transaction, for a link row that may be stale. The member row is written first; a throw, because the link is
        gone or the counter passed the cap, rolls everything back. */
    method CommitJoin(id: LinkId, link: Link, user: UserId) returns (r: Pc)
      requires Valid() && link.role != Workspaces.OWNER && id in links.Keys + revoked.Keys
      modifies this
      ensures Valid() && (Snapshot(), r) == JoinTx(old(Snapshot()), Joining(id, link, user))
    {
      var key := (link.workspace, user);
      if key in members {
        return AlreadyMember;
      }
      JoinKeepsInv(Snapshot(), Joining(id, link, user));
      var linksBefore, membersBefore := links, members;
      members := members[key := link.role];
      if id !in links {
        members := membersBefore;
        return Refused(Internal);
      }
      links := links[id := Bumped(links[id])];
      if OverCap(links[id]) {
        links, members := linksBefore, membersBefore;
        return Refused(Exhausted);
      }
      grants := grants + [Grant(id, user, link.role)];
      return Joined(id);
    }

    method Join(id: LinkId, user: UserId, now: int) returns (r: Pc)
      requires Valid()
      modifies this
      ensures Valid() && (Snapshot(), r) == JoinAlone(old(Snapshot()), id, user, now)
      ensures r == Joined(id) <==>
              && id in old(links) && (old(links)[id].workspace, user) !in old(members)
              && (old(links)[id].expiresAt.Some? ==> now <= old(links)[id].expiresAt.value)
              && (old(links)[id].maxUses.Some? ==> old(links)[id].usedCount < old(links)[id].maxUses.value)
      ensures r != Joined(id) ==> links == old(links) && members == old(members) && grants == old(grants)
      ensures r == Joined(id) ==>
                var link := old(links)[id];
                && links == old(links)[id := link.(usedCount := link.usedCount + 1)]
                && members == old(members)[(link.workspace, user) := link.role]
                && grants == old(grants) + [Grant(id, user, link.role)]
    {
      JoinTakesInIff(Snapshot(), id, user, now);
      var found := FindValidLink(id, now);
      if found.Err? {
        return Refused(found.error);
      }
      assert LinkOk(grants, id, found.value);
      r := CommitJoin(id, found.value, user);
    }
  }
}
