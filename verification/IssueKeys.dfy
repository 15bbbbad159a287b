/** Issue keys: a project's key, a hyphen, and the number that the project's counter reached. Creating reads the project
    first and then counts and inserts in one transaction; creates, spawns and deletions interleave freely. */
module IssueKeys {
  import opened Decimals
  import opened Slugs

  type WorkspaceId = nat
  type ProjectId = nat
  type IssueId = nat
  type OpId = nat

  function IssueKey(projectKey: string, n: nat): string {
    projectKey + "-" + Numeral(n)
  }

  predicate HyphenFree(s: string) {
    forall c | c in s :: c != '-'
  }

  lemma StartsWithHyphenIff(a: string, x: string)
    requires HyphenFree(a)
    ensures (a + ['-'] + x)[0] == '-' <==> a == ""
  {
    if a != "" { assert a[0] in a && (a + ['-'] + x)[0] == a[0]; }
  }

  /** The first hyphen of a text after a hyphen-free one is where that text ends. */
  lemma {:induction false} SplitAtHyphen(a: string, b: string, x: string, y: string)
    requires HyphenFree(a) && HyphenFree(b) && a + ['-'] + x == b + ['-'] + y
    ensures a == b && x == y
  {
    var s := a + ['-'] + x;
    if a == "" || b == "" {
      StartsWithHyphenIff(a, x);
      StartsWithHyphenIff(b, y);
      assert s[1..] == x && s[1..] == y;
    } else {
      assert s[0] == a[0] == b[0];
      assert s[1..] == a[1..] + ['-'] + x == b[1..] + ['-'] + y;
      assert forall c | c in a[1..] :: c in a;
      assert forall c | c in b[1..] :: c in b;
      SplitAtHyphen(a[1..], b[1..], x, y);
      assert a == [a[0]] + a[1..] && b == [b[0]] + b[1..];
    }
  }

  lemma KeyIsHyphenFree(key: string)
    requires WellFormedKey(key)
    ensures HyphenFree(key)
  {
  }

  /** Two keys are equal only for equal project keys and equal numbers. */
  lemma KeysEqualIff(a: string, b: string, m: nat, n: nat)
    requires WellFormedKey(a) && WellFormedKey(b)
    ensures IssueKey(a, m) == IssueKey(b, n) <==> a == b && m == n
  {
    KeyIsHyphenFree(a);
    KeyIsHyphenFree(b);
    if IssueKey(a, m) == IssueKey(b, n) {
      SplitAtHyphen(a, b, Numeral(m), Numeral(n));
      if m != n { NumeralsDiffer(m, n); }
    }
  }

  // ─── The machine ───────────────────────────────────────

  datatype Project = Project(workspace: WorkspaceId, key: string, counter: nat)

  datatype Issue = Issue(project: ProjectId, key: string)

  datatype Issued = Issued(project: ProjectId, number: nat, key: string)

  datatype Pc = Creating(project: ProjectId, key: string) | Created(key: string) | Failed

  /** Deleted projects stay in the table, marked `gone`; `ledger` lists every key ever issued. */
  datatype State = State(projects: map<ProjectId, Project>, gone: set<ProjectId>, issues: map<IssueId, Issue>,
                         ledger: seq<Issued>, ops: map<OpId, Pc>)

  datatype Event =
    | CreateProject(p: ProjectId, workspace: WorkspaceId, key: string)
    | DeleteProject(p: ProjectId)
    | BeginCreate(op: OpId, p: ProjectId)
    | Commit(op: OpId, id: IssueId)
    | DeleteIssue(id: IssueId)

  const Empty: State := State(map[], {}, map[], [], map[])

  predicate LiveProject(s: State, p: ProjectId) {
    p in s.projects && p !in s.gone
  }

  function NextKey(s: State, p: ProjectId, key: string): string
    requires p in s.projects
  {
    IssueKey(key, s.projects[p].counter + 1)
  }

  /** Issue.key is unique in the whole database. */
  predicate KeyTaken(s: State, key: string) {
    exists id | id in s.issues :: s.issues[id].key == key
  }

  /** The transaction: count up and insert; a taken key rolls the counter back. */
  function IssueTx(s: State, p: ProjectId, key: string, id: IssueId): (State, Pc) {
    if !LiveProject(s, p) || id in s.issues then (s, Failed)
    else
      var k := NextKey(s, p, key);
      if KeyTaken(s, k) then (s, Failed)
      else
        var project := s.projects[p];
        (s.(projects := s.projects[p := project.(counter := project.counter + 1)],
            issues := s.issues[id := Issue(p, k)],
            ledger := s.ledger + [Issued(p, project.counter + 1, k)]),
         Created(k))
  }

  function SetPc(s: State, op: OpId, pc: Pc): State {
    s.(ops := s.ops[op := pc])
  }

  /** Project keys are unique in a workspace. */
  predicate KeyUsed(s: State, workspace: WorkspaceId, key: string) {
    exists q | q in s.projects :: q !in s.gone && s.projects[q].workspace == workspace && s.projects[q].key == key
  }

  function Step(s: State, e: Event): State {
    match e
    case CreateProject(p, workspace, key) =>
      if p in s.projects || !WellFormedKey(key) || KeyUsed(s, workspace, key)
      then s
      else s.(projects := s.projects[p := Project(workspace, key, 0)])
    case DeleteProject(p) =>
      s.(gone := s.gone + {p}, issues := map id | id in s.issues && s.issues[id].project != p :: s.issues[id])
    case BeginCreate(op, p) =>
      if op in s.ops then s else SetPc(s, op, if LiveProject(s, p) then Creating(p, s.projects[p].key) else Failed)
    case Commit(op, id) =>
      if op !in s.ops || !s.ops[op].Creating? then s
      else var (t, pc) := IssueTx(s, s.ops[op].project, s.ops[op].key, id); SetPc(t, op, pc)
    case DeleteIssue(id) => s.(issues := s.issues - {id})
  }

  function Run(s: State, events: seq<Event>): State {
    if events == [] then s else Step(Run(s, events[..|events| - 1]), events[|events| - 1])
  }

  /** The numbers issued in a project, in order. */
  function Numbers(ledger: seq<Issued>, p: ProjectId): seq<nat> {
    if ledger == [] then []
    else
      var last := ledger[|ledger| - 1];
      Numbers(ledger[..|ledger| - 1], p) + if last.project == p then [last.number] else []
  }

  lemma NumbersSnoc(ledger: seq<Issued>, e: Issued, p: ProjectId)
    ensures Numbers(ledger + [e], p) == Numbers(ledger, p) + if e.project == p then [e.number] else []
  {
    assert (ledger + [e])[..|ledger|] == ledger;
  }

  function OneTo(n: nat): (s: seq<nat>)
    ensures |s| == n && forall i | 0 <= i < n :: s[i] == i + 1
  {
    seq(n, i => i + 1)
  }

  ghost predicate ProjectOk(ledger: seq<Issued>, p: ProjectId, project: Project) {
    WellFormedKey(project.key) && Numbers(ledger, p) == OneTo(project.counter)
  }

  ghost predicate EntryOk(projects: map<ProjectId, Project>, e: Issued) {
    e.project in projects && e.number <= projects[e.project].counter &&
        e.key == IssueKey(projects[e.project].key, e.number)
  }

  ghost predicate IssueOk(ledger: seq<Issued>, issue: Issue) {
    exists i | 0 <= i < |ledger| :: ledger[i].project == issue.project && ledger[i].key == issue.key
  }

  ghost predicate PcOk(projects: map<ProjectId, Project>, pc: Pc) {
    pc.Creating? ==> pc.project in projects && pc.key == projects[pc.project].key
  }

  ghost predicate Inv(s: State) {
    && (forall p {:trigger ProjectOk(s.ledger, p, s.projects[p])} | p in s.projects ::
        ProjectOk(s.ledger, p, s.projects[p]))
    && (forall i {:trigger EntryOk(s.projects, s.ledger[i])} | 0 <= i < |s.ledger| :: EntryOk(s.projects, s.ledger[i]))
    && (forall id {:trigger IssueOk(s.ledger, s.issues[id])} | id in s.issues ::
        IssueOk(s.ledger, s.issues[id]) && s.issues[id].project !in s.gone)
    && (forall op {:trigger PcOk(s.projects, s.ops[op])} | op in s.ops :: PcOk(s.projects, s.ops[op]))
  }

  lemma {:induction false} NoneOfProject(ledger: seq<Issued>, p: ProjectId)
    requires forall i | 0 <= i < |ledger| :: ledger[i].project != p
    ensures Numbers(ledger, p) == []
  {
    if ledger != [] { NoneOfProject(ledger[..|ledger| - 1], p); }
  }

  lemma CountedUp(ledger: seq<Issued>, p: ProjectId, project: Project, e: Issued, q: ProjectId, other: Project)
    requires ProjectOk(ledger, p, project) && ProjectOk(ledger, q, other)
    requires e.project == p && e.number == project.counter + 1
    ensures ProjectOk(ledger + [e], p, project.(counter := project.counter + 1))
    ensures q != p ==> ProjectOk(ledger + [e], q, other)
  {
    NumbersSnoc(ledger, e, p);
    NumbersSnoc(ledger, e, q);
    assert OneTo(project.counter + 1) == OneTo(project.counter) + [project.counter + 1];
  }

  lemma StillIssued(ledger: seq<Issued>, e: Issued, issue: Issue)
    requires IssueOk(ledger, issue) || (e.project == issue.project && e.key == issue.key)
    ensures IssueOk(ledger + [e], issue)
  {
    if IssueOk(ledger, issue) {
      var i :| 0 <= i < |ledger| && ledger[i].project == issue.project && ledger[i].key == issue.key;
      assert (ledger + [e])[i] == ledger[i];
    } else {
      assert (ledger + [e])[|ledger|] == e;
    }
  }

  lemma TxKeepsInv(s: State, p: ProjectId, id: IssueId)
    requires Inv(s) && p in s.projects
    ensures Inv(IssueTx(s, p, s.projects[p].key, id).0)
  {
    var (t, pc) := IssueTx(s, p, s.projects[p].key, id);
    if pc.Created? {
      var n := s.projects[p].counter + 1;
      var e := Issued(p, n, IssueKey(s.projects[p].key, n));
      assert ProjectOk(s.ledger, p, s.projects[p]) && EntryOk(t.projects, e);
      forall i | 0 <= i < |t.ledger| ensures EntryOk(t.projects, t.ledger[i]) {
        if i < |s.ledger| { assert EntryOk(s.projects, s.ledger[i]); }
      }
      forall op | op in t.ops ensures PcOk(t.projects, t.ops[op]) { assert PcOk(s.projects, s.ops[op]); }
      hide ProjectOk, EntryOk, IssueOk, PcOk, IssueKey, KeyTaken;
      forall q | q in t.projects ensures ProjectOk(t.ledger, q, t.projects[q]) {
        assert ProjectOk(s.ledger, q, s.projects[q]);
        CountedUp(s.ledger, p, s.projects[p], e, q, s.projects[q]);
      }
      forall x | x in t.issues ensures IssueOk(t.ledger, t.issues[x]) && t.issues[x].project !in t.gone {
        if x != id { assert IssueOk(s.ledger, s.issues[x]); }
        StillIssued(s.ledger, e, t.issues[x]);
      }
    }
  }

  lemma NewProjectKeepsInv(s: State, p: ProjectId, project: Project)
    requires Inv(s) && p !in s.projects && WellFormedKey(project.key) && project.counter == 0
    ensures Inv(s.(projects := s.projects[p := project]))
  {
    var t := s.(projects := s.projects[p := project]);
    forall i | 0 <= i < |s.ledger| ensures EntryOk(t.projects, s.ledger[i]) && s.ledger[i].project != p {
      assert EntryOk(s.projects, s.ledger[i]);
    }
    NoneOfProject(s.ledger, p);
    assert OneTo(0) == [];
    forall q | q in t.projects ensures ProjectOk(t.ledger, q, t.projects[q]) {
      if q != p { assert ProjectOk(s.ledger, q, s.projects[q]); }
    }
    forall op | op in t.ops ensures PcOk(t.projects, t.ops[op]) { assert PcOk(s.projects, s.ops[op]); }
    forall x | x in t.issues ensures IssueOk(t.ledger, t.issues[x]) && t.issues[x].project !in t.gone {
      assert IssueOk(s.ledger, s.issues[x]);
    }
  }

  lemma FewerIssuesKeepInv(s: State, gone: set<ProjectId>, issues: map<IssueId, Issue>)
    requires Inv(s) && forall x | x in issues :: x in s.issues && issues[x] == s.issues[x] && issues[x].project !in gone
    ensures Inv(s.(gone := gone, issues := issues))
  {
    var t := s.(gone := gone, issues := issues);
    hide ProjectOk, EntryOk, IssueOk, PcOk;
    forall q | q in t.projects
      ensures ProjectOk(t.ledger, q, t.projects[q])
    {
      assert ProjectOk(s.ledger, q, s.projects[q]);
    }
    forall i | 0 <= i < |t.ledger| ensures EntryOk(t.projects, t.ledger[i]) { assert EntryOk(s.projects, s.ledger[i]); }
    forall op | op in t.ops ensures PcOk(t.projects, t.ops[op]) { assert PcOk(s.projects, s.ops[op]); }
    forall x | x in t.issues ensures IssueOk(t.ledger, t.issues[x]) && t.issues[x].project !in t.gone {
      assert IssueOk(s.ledger, s.issues[x]);
    }
  }

  lemma PcKeepsInv(s: State, op: OpId, pc: Pc)
    requires Inv(s) && PcOk(s.projects, pc)
    ensures Inv(SetPc(s, op, pc))
  {
    hide ProjectOk, EntryOk, IssueOk, PcOk;
    var t := SetPc(s, op, pc);
    forall q | q in t.projects
      ensures ProjectOk(t.ledger, q, t.projects[q])
    {
      assert ProjectOk(s.ledger, q, s.projects[q]);
    }
    forall i | 0 <= i < |t.ledger| ensures EntryOk(t.projects, t.ledger[i]) { assert EntryOk(s.projects, s.ledger[i]); }
    forall o | o in t.ops ensures PcOk(t.projects, t.ops[o]) { if o != op { assert PcOk(s.projects, s.ops[o]); } }
    forall x | x in t.issues ensures IssueOk(t.ledger, t.issues[x]) && t.issues[x].project !in t.gone {
      assert IssueOk(s.ledger, s.issues[x]);
    }
  }

  lemma StepKeepsInv(s: State, e: Event)
    requires Inv(s)
    ensures Inv(Step(s, e))
  {
    if e.Commit? {
      if e.op in s.ops && s.ops[e.op].Creating? {
        assert PcOk(s.projects, s.ops[e.op]);
        hide Inv;
        TxKeepsInv(s, s.ops[e.op].project, e.id);
        var (t, pc) := IssueTx(s, s.ops[e.op].project, s.ops[e.op].key, e.id);
        PcKeepsInv(t, e.op, pc);
      }
    } else if e.CreateProject? {
      if Step(s, e) != s { NewProjectKeepsInv(s, e.p, Project(e.workspace, e.key, 0)); }
    } else if e.BeginCreate? {
      PcKeepsInv(s, e.op, if LiveProject(s, e.p) then Creating(e.p, s.projects[e.p].key) else Failed);
    } else if e.DeleteIssue? {
      assert forall x | x in s.issues :: IssueOk(s.ledger, s.issues[x]);
      FewerIssuesKeepInv(s, s.gone, s.issues - {e.id});
      assert s.(gone := s.gone) == s;
    } else {
      assert forall x | x in s.issues :: IssueOk(s.ledger, s.issues[x]);
      FewerIssuesKeepInv(s, s.gone + {e.p}, map x | x in s.issues && s.issues[x].project != e.p :: s.issues[x]);
    }
  }

  lemma {:induction false} RunKeepsInv(events: seq<Event>)
    ensures Inv(Run(Empty, events))
  {
    if events != [] {
      RunKeepsInv(events[..|events| - 1]);
      StepKeepsInv(Run(Empty, events[..|events| - 1]), events[|events| - 1]);
    }
  }

  // ─── Main results ──────────────────────────────────────

  /** Whatever interleaves and whatever is deleted, a project issues the numbers 1, 2, 3, ... up to its counter, in this
      order, each once. */
  lemma NumbersAreConsecutive(events: seq<Event>, p: ProjectId)
    requires p in Run(Empty, events).projects
    ensures var s := Run(Empty, events); Numbers(s.ledger, p) == OneTo(s.projects[p].counter)
  {
    RunKeepsInv(events);
    var s := Run(Empty, events);
    assert ProjectOk(s.ledger, p, s.projects[p]);
  }

  /** Two entries of the ledger with the same number and project are one entry. */
  lemma {:induction false} OneEntryPerNumber(ledger: seq<Issued>, n: nat, i: nat, j: nat)
    requires i < j < |ledger| && ledger[i].project == ledger[j].project &&
             Numbers(ledger, ledger[i].project) == OneTo(n)
    ensures ledger[i].number < ledger[j].number
  {
    var p, front, last := ledger[i].project, ledger[..|ledger| - 1], ledger[|ledger| - 1];
    assert ledger == front + [last];
    if last.project == p {
      assert OneTo(n)[..n - 1] == OneTo(n - 1);
      assert Numbers(front, p) == OneTo(n)[..n - 1];
      if j == |ledger| - 1 {
        assert last.number == OneTo(n)[n - 1];
        NumberBelow(front, p, n - 1, i);
      } else {
        OneEntryPerNumber(front, n - 1, i, j);
      }
    } else {
      OneEntryPerNumber(front, n, i, j);
    }
  }

  lemma {:induction false} NumberBelow(ledger: seq<Issued>, p: ProjectId, n: nat, i: nat)
    requires i < |ledger| && ledger[i].project == p && Numbers(ledger, p) == OneTo(n)
    ensures 1 <= ledger[i].number <= n
  {
    var front, last := ledger[..|ledger| - 1], ledger[|ledger| - 1];
    if last.project == p {
      assert OneTo(n)[..n - 1] == OneTo(n - 1);
      assert Numbers(front, p) == OneTo(n)[..n - 1];
      assert last.number == OneTo(n)[n - 1];
      if i < |ledger| - 1 { NumberBelow(front, p, n - 1, i); }
    } else {
      NumberBelow(front, p, n, i);
    }
  }

  /** No key is issued twice in a project, also not after deletions; and two projects can issue the same key exactly
      when they have the same project key and reach the same number. */
  lemma NeverIssuedTwice(events: seq<Event>, i: nat, j: nat)
    requires i < j < |Run(Empty, events).ledger|
    ensures var s := Run(Empty, events);
            var a, b := s.ledger[i], s.ledger[j];
            && a.project in s.projects && b.project in s.projects
            && (a.project == b.project ==> a.key != b.key)
            && (a.key == b.key <==> s.projects[a.project].key == s.projects[b.project].key && a.number == b.number)
  {
    RunKeepsInv(events);
    var s := Run(Empty, events);
    var a, b := s.ledger[i], s.ledger[j];
    assert EntryOk(s.projects, a) && EntryOk(s.projects, b);
    assert ProjectOk(s.ledger, a.project, s.projects[a.project]) &&
        ProjectOk(s.ledger, b.project, s.projects[b.project]);
    KeysEqualIff(s.projects[a.project].key, s.projects[b.project].key, a.number, b.number);
    if a.project == b.project {
      OneEntryPerNumber(s.ledger, s.projects[a.project].counter, i, j);
    }
  }

  /** Projects that are alive and share a workspace have different keys. */
  ghost predicate KeysDiffer(s: State) {
    forall p, q | p in s.projects && q in s.projects && p !in s.gone && q !in s.gone &&
                  s.projects[p].workspace == s.projects[q].workspace && s.projects[p].key == s.projects[q].key :: p == q
  }

  lemma StepKeepsKeysDiffer(s: State, e: Event)
    requires KeysDiffer(s)
    ensures KeysDiffer(Step(s, e))
  {
    hide WellFormedKey, NextKey;
    var t := Step(s, e);
    assert forall p | p in s.projects :: p in t.projects && t.projects[p].workspace == s.projects[p].workspace &&
                                         t.projects[p].key == s.projects[p].key;
  }

  lemma {:induction false} RunKeepsKeysDiffer(events: seq<Event>)
    ensures KeysDiffer(Run(Empty, events))
  {
    if events != [] {
      RunKeepsKeysDiffer(events[..|events| - 1]);
      StepKeepsKeysDiffer(Run(Empty, events[..|events| - 1]), events[|events| - 1]);
    }
  }

  /** What a call reads first, and what creates a project. */
  lemma BeginningsAre(s: State, op: OpId, p: ProjectId, workspace: WorkspaceId, key: string)
    ensures op !in s.ops ==> Step(s, BeginCreate(op, p)) == s.(ops := s.ops[op :=
              if p in s.projects && p !in s.gone then Creating(p, s.projects[p].key) else Failed])
    ensures Step(s, CreateProject(p, workspace, key)) ==
            if p !in s.projects && WellFormedKey(key) &&
               forall q | q in s.projects && q !in s.gone && s.projects[q].workspace == workspace ::
                   s.projects[q].key != key
            then s.(projects := s.projects[p := Project(workspace, key, 0)])
            else s
  {
    hide WellFormedKey;
  }

  /** A create fails exactly when a project of another workspace with the same project key has an issue with the next
      number; it leaves the counter where it was, so the project stays stuck. */
  lemma StuckIff(events: seq<Event>, op: OpId, id: IssueId)
    requires var s := Run(Empty, events); op in s.ops && s.ops[op].Creating? && LiveProject(s, s.ops[op].project) &&
                                          id !in s.issues
    ensures var s := Run(Empty, events);
            var p := s.ops[op].project;
            var project := s.projects[p];
            var next := project.key + "-" + Numeral(project.counter + 1);
            var t := Step(s, Commit(op, id));
            && (t.ops[op] == Failed <==>
                exists x | x in s.issues ::
                  && s.issues[x].key == next && s.issues[x].project in s.projects
                  && s.projects[s.issues[x].project].key == project.key
                  && s.projects[s.issues[x].project].workspace != project.workspace)
            && (t.ops[op] == Failed ==> t == s.(ops := s.ops[op := Failed]))
            && (t.ops[op] != Failed ==>
                  && t.ops[op] == Created(next) && t.issues == s.issues[id := Issue(p, next)]
                  && t.projects == s.projects[p := project.(counter := project.counter + 1)]
                  && t.ledger == s.ledger + [Issued(p, project.counter + 1, next)])
  {
    RunKeepsInv(events);
    RunKeepsKeysDiffer(events);
    var s := Run(Empty, events);
    var p := s.ops[op].project;
    var next := NextKey(s, p, s.projects[p].key);
    assert PcOk(s.projects, s.ops[op]) && ProjectOk(s.ledger, p, s.projects[p]);
    forall x | x in s.issues && s.issues[x].key == next
      ensures s.issues[x].project in s.projects
      ensures var other := s.projects[s.issues[x].project];
              other.key == s.projects[p].key && other.workspace != s.projects[p].workspace
    {
      assert IssueOk(s.ledger, s.issues[x]);
      var i :| 0 <= i < |s.ledger| && s.ledger[i].project == s.issues[x].project && s.ledger[i].key == next;
      assert EntryOk(s.projects, s.ledger[i]);
      assert ProjectOk(s.ledger, s.ledger[i].project, s.projects[s.ledger[i].project]);
      KeysEqualIff(s.projects[s.ledger[i].project].key, s.projects[p].key, s.ledger[i].number,
                   s.projects[p].counter + 1);
    }
  }

  /** The project of `p` waits for the key that issue `x` of another project has. */
  ghost predicate Stuck(s: State, p: ProjectId, x: IssueId) {
    p in s.projects && x in s.issues && s.issues[x].project != p && s.issues[x].key == NextKey(s, p, s.projects[p].key)
  }

  lemma StuckStep(s: State, e: Event, p: ProjectId, x: IssueId)
    requires Inv(s) && Stuck(s, p, x) && e != DeleteIssue(x) && e != DeleteProject(s.issues[x].project)
    ensures Stuck(Step(s, e), p, x) && Step(s, e).projects[p] == s.projects[p] && Step(s, e).issues[x] == s.issues[x]
  {
    if e.Commit? && e.op in s.ops && s.ops[e.op].Creating? {
      assert PcOk(s.projects, s.ops[e.op]);
      assert s.ops[e.op].project == p ==> KeyTaken(s, NextKey(s, p, s.ops[e.op].key));
    }
    hide IssueKey, WellFormedKey, Inv;
  }

  /** Until that issue or its project is deleted, the counter stands still and every attempt to create an issue
      fails. */
  lemma {:induction false} StaysStuck(s: State, events: seq<Event>, p: ProjectId, x: IssueId, op: OpId, id: IssueId)
    requires Inv(s) && Stuck(s, p, x)
    requires forall e | e in events :: e != DeleteIssue(x) && e != DeleteProject(s.issues[x].project)
    ensures var t := Run(s, events);
            && Inv(t) && Stuck(t, p, x) && t.projects[p] == s.projects[p] && t.issues[x] == s.issues[x]
            && (op in t.ops && t.ops[op].Creating? && t.ops[op].project == p ==>
                Step(t, Commit(op, id)) == SetPc(t, op, Failed))
    decreases |events|
  {
    var t := Run(s, events);
    if events != [] {
      var front, e := events[..|events| - 1], events[|events| - 1];
      assert forall e | e in front :: e in events;
      StaysStuck(s, front, p, x, op, id);
      assert e in events;
      StepKeepsInv(Run(s, front), e);
      StuckStep(Run(s, front), e, p, x);
    }
    hide Inv, Run;
    StuckCommit(t, p, x, op, id);
  }

  lemma StuckCommit(t: State, p: ProjectId, x: IssueId, op: OpId, id: IssueId)
    requires Inv(t) && Stuck(t, p, x)
    ensures op in t.ops && t.ops[op].Creating? && t.ops[op].project == p ==>
            Step(t, Commit(op, id)) == SetPc(t, op, Failed)
  {
    if op in t.ops && t.ops[op].Creating? && t.ops[op].project == p {
      assert PcOk(t.projects, t.ops[op]);
      assert KeyTaken(t, NextKey(t, p, t.ops[op].key));
    }
  }

  lemma RunSnoc(events: seq<Event>, e: Event)
    ensures Run(Empty, events + [e]) == Step(Run(Empty, events), e)
  {
    assert (events + [e])[..|events|] == events;
  }

  /** Two workspaces have a project PROJ each, and the first creates an issue. */
  const Twins: seq<Event> := [CreateProject(0, 0, "PROJ")] + [CreateProject(1, 1, "PROJ")] + [BeginCreate(0, 0)] +
      [Commit(0, 0)]

  function TwinState(issues: map<IssueId, Issue>, ledger: seq<Issued>, counter: nat, ops: map<OpId, Pc>): State {
    State(map[0 := Project(0, "PROJ", counter), 1 := Project(1, "PROJ", 0)], {}, issues, ledger, ops)
  }

  lemma TwinsRun()
    ensures var key := IssueKey("PROJ", 1);
            Run(Empty, Twins) == TwinState(map[0 := Issue(0, key)], [Issued(0, 1, key)], 1, map[0 := Created(key)])
  {
    var first := [CreateProject(0, 0, "PROJ")];
    var both := first + [CreateProject(1, 1, "PROJ")];
    var begun := both + [BeginCreate(0, 0)];
    assert WellFormedKey("PROJ");
    hide WellFormedKey, IssueKey;
    var one := State(map[0 := Project(0, "PROJ", 0)], {}, map[], [], map[]);
    assert Run(Empty, first) == one by { assert first[..0] == []; }
    RunSnoc(first, CreateProject(1, 1, "PROJ"));
    RunSnoc(both, BeginCreate(0, 0));
    RunSnoc(begun, Commit(0, 0));
    assert Step(one, CreateProject(1, 1, "PROJ")) == TwinState(map[], [], 0, map[]);
    var reading := TwinState(map[], [], 0, map[0 := Creating(0, "PROJ")]);
    assert Step(TwinState(map[], [], 0, map[]), BeginCreate(0, 0)) == reading;
    var key := IssueKey("PROJ", 1);
    assert [] + [Issued(0, 1, key)] == [Issued(0, 1, key)];
    assert reading.projects[0 := Project(0, "PROJ", 1)] == TwinState(map[], [], 1, map[]).projects;
    assert Step(reading, Commit(0, 0)) ==
        TwinState(map[0 := Issue(0, key)], [Issued(0, 1, key)], 1, map[0 := Created(key)]);
  }

  /** From then on, whatever happens, the second cannot create any issue while the first one's PROJ-1 exists. */
  lemma TwinProjectsGetStuck(events: seq<Event>, op: OpId, id: IssueId)
    requires forall e | e in events :: e != DeleteIssue(0) && e != DeleteProject(0)
    ensures Stuck(Run(Empty, Twins), 1, 0)
    ensures var t := Run(Run(Empty, Twins), events);
            op in t.ops && t.ops[op].Creating? && t.ops[op].project == 1 ==>
                Step(t, Commit(op, id)) == SetPc(t, op, Failed)
  {
    TwinsRun();
    RunKeepsInv(Twins);
    StaysStuck(Run(Empty, Twins), events, 1, 0, op, id);
  }

  // ─── The service ───────────────────────────────────────

  class IssueNumbers {
    var projects: map<ProjectId, Project>
    var issues: map<IssueId, Issue>
    ghost var gone: set<ProjectId>
    ghost var history: map<ProjectId, Project>
    ghost var ledger: seq<Issued>

    ghost function Snapshot(): State
      reads this
    {
      State(history + projects, gone, issues, ledger, map[])
    }

    ghost predicate Valid()
      reads this
    {
      Inv(Snapshot()) && projects.Keys !! gone && history.Keys == gone
    }

    constructor ()
      ensures Valid() && projects == map[] && issues == map[]
    {
      projects, issues, gone, history, ledger := map[], map[], {}, map[], [];
    }

    predicate Taken(key: string)
      reads this
    {
      exists id | id in issues :: issues[id].key == key
    }

    /** `key` comes out of the retry loop of module Slugs, which is refused a key that is in use. */
    method CreateProject(p: ProjectId, workspace: WorkspaceId, key: string)
      requires Valid() && p !in projects && p !in gone && WellFormedKey(key)
      requires forall q | q in projects :: projects[q].workspace != workspace || projects[q].key != key
      modifies this
      ensures Valid() && Snapshot() == Step(old(Snapshot()), Event.CreateProject(p, workspace, key))
      ensures projects == old(projects)[p := Project(workspace, key, 0)]
    {
      NewProjectKeepsInv(Snapshot(), p, Project(workspace, key, 0));
      hide Inv, WellFormedKey;
      assert !KeyUsed(Snapshot(), workspace, key);
      ghost var all := history + projects;
      projects := projects[p := Project(workspace, key, 0)];
      assert history + projects == all[p := Project(workspace, key, 0)];
    }

    /** Deleting a project takes its issues along. */
    method DeleteProject(p: ProjectId)
      requires Valid() && p in projects
      modifies this
      ensures Valid() && Snapshot() == Step(old(Snapshot()), Event.DeleteProject(p))
      ensures projects == old(projects) - {p}
      ensures forall id :: id in issues <==> id in old(issues) && old(issues)[id].project != p
      ensures forall id | id in issues :: issues[id] == old(issues)[id]
    {
      StepKeepsInv(Snapshot(), Event.DeleteProject(p));
      hide Inv;
      ghost var all := history + projects;
      history, gone := history[p := projects[p]], gone + {p};
      projects := projects - {p};
      issues := map id | id in issues && issues[id].project != p :: issues[id];
      assert history + projects == all;
    }

    /** The transaction that issue creation and the recurring spawn share. `key` was read before it began. */
    method IssueTransaction(p: ProjectId, key: string, id: IssueId) returns (r: Pc)
      requires Valid() && id !in issues && (p in projects ==> key == projects[p].key)
      modifies this
      ensures Valid() && (Snapshot(), r) == IssueTx(old(Snapshot()), p, key, id)
      ensures r.Created? <==> p in old(projects) && forall x | x in old(issues) ::
                old(issues)[x].key != key + "-" + Numeral(old(projects)[p].counter + 1)
      ensures !r.Created? ==> r == Failed && projects == old(projects) && issues == old(issues)
      ensures r.Created? ==>
                var n := old(projects)[p].counter + 1;
                && r.key == key + "-" + Numeral(n) && issues == old(issues)[id := Issue(p, r.key)]
                && projects == old(projects)[p := old(projects)[p].(counter := n)]
    {
      if p !in projects {
        return Failed;
      }
      TxKeepsInv(Snapshot(), p, id);
      hide Inv, IssueKey;
      var before := projects;
      projects := projects[p := projects[p].(counter := projects[p].counter + 1)];
      var issueKey := IssueKey(key, projects[p].counter);
      if Taken(issueKey) {
        projects := before;
        return Failed;
      }
      issues := issues[id := Issue(p, issueKey)];
      ledger := ledger + [Issued(p, projects[p].counter, issueKey)];
      assert history + projects == (history + before)[p := projects[p]];
      return Created(issueKey);
    }

    method DeleteIssue(id: IssueId)
      requires Valid()
      modifies this
      ensures Valid() && Snapshot() == Step(old(Snapshot()), Event.DeleteIssue(id))
      ensures issues == old(issues) - {id} && projects == old(projects)
    {
      StepKeepsInv(Snapshot(), Event.DeleteIssue(id));
      hide Inv;
      issues := issues - {id};
    }
  }
}
