/** One cron tick over the due rules, and how a run of ticks drains them. */
module RecurringTicks {
  import opened Prelude
  import opened Sequences
  import opened RecurringRules

  type RuleId = nat

  const BATCH: nat := 200

  datatype Rule = Rule(enabled: bool, nextRunAt: int, lastRunAt: Option<int>, frequency: Frequency, hour: nat)

  /** Spawning writes an issue, or skips (malformed template, project gone), or throws: rolled back, or after its
      commit. */
  datatype Spawn = Spawned | Skipped | Threw | ThrewAfterCommit

  /** How a write ends: acknowledged, without effect, or with its effect and a throw. */
  datatype Fault = Fine | FailBefore | FailAfter

  /** What the world does to one rule of the batch: the spawn, the two writes that may advance it, and what the
      clock reads before each write. */
  datatype Attempt = Attempt(spawn: Spawn, first: Fault, second: Fault, firstClock: int, secondClock: int)

  predicate WritesIssue(a: Attempt) {
    a.spawn == Spawned || a.spawn == ThrewAfterCommit
  }

  /** The first write was tried and took effect. */
  predicate Records(a: Attempt) {
    (a.spawn == Spawned || a.spawn == Skipped) && a.first != FailBefore
  }

  predicate Clean(a: Attempt) {
    Records(a) && a.first == Fine
  }

  predicate Advances(a: Attempt) {
    Records(a) || a.second != FailBefore
  }

  /** A rule after its turn. */
  function After(rule: Rule, now: int, a: Attempt): (r: Rule) {
    var recorded := if Records(a) then rule.(lastRunAt := Some(now), nextRunAt := Advanced(a.firstClock, rule))
        else rule;
    if Clean(a) || a.second == FailBefore then recorded else recorded.(nextRunAt := Advanced(a.secondClock, rule))
  }

  function Advanced(clock: int, rule: Rule): int {
    NextRun(clock, rule.frequency, rule.hour, true)
  }

  type Rules = map<RuleId, Rule>

  predicate ValidRules(rules: Rules) {
    forall id :: id in rules ==> rules[id].hour < 24
  }

  function DueAt(rules: Rules, now: int): set<RuleId> {
    set id | id in rules && rules[id].enabled && rules[id].nextRunAt <= now
  }

  function Min(a: nat, b: nat): nat {
    if a <= b then a else b
  }

  /** What the query may return: due rules, none twice, as many as the batch holds; in no particular order. */
  predicate Selected(due: seq<RuleId>, rules: Rules, now: int) {
    Distinct(due) && (forall id :: id in due ==> id in DueAt(rules, now)) &&
    |due| == Min(BATCH, |DueAt(rules, now)|)
  }

  predicate Plausible(due: seq<RuleId>, now: int, attempts: seq<Attempt>) {
    |attempts| == |due| && forall a :: a in attempts ==> now <= a.firstClock && now <= a.secondClock
  }

  /** The rules for which an issue was written, in order. */
  function Fired(due: seq<RuleId>, attempts: seq<Attempt>): (ids: seq<RuleId>)
    requires |attempts| == |due|
    ensures forall id :: id in ids ==> id in due
  {
    if due == [] then []
    else (if WritesIssue(attempts[0]) then [due[0]] else []) + Fired(due[1..], attempts[1..])
  }

  function CleanCount(attempts: seq<Attempt>): nat {
    if attempts == [] then 0 else (if Clean(attempts[0]) then 1 else 0) + CleanCount(attempts[1..])
  }

  /** The rule table after a tick: each rule of the batch had exactly its own turn, the others did not change. */
  ghost predicate Ticked(before: Rules, rules: Rules, due: seq<RuleId>, now: int, attempts: seq<Attempt>)
    requires |attempts| == |due|
  {
    rules.Keys == before.Keys &&
    (forall i :: 0 <= i < |due| ==> due[i] in before && rules[due[i]] == After(before[due[i]], now, attempts[i])) &&
    forall id :: id in before && id !in due ==> rules[id] == before[id]
  }

  lemma {:induction false} FiredAppend(due: seq<RuleId>, attempts: seq<Attempt>, n: nat)
    requires |attempts| == |due| && n < |due|
    ensures Fired(due[..n + 1], attempts[..n + 1]) ==
            Fired(due[..n], attempts[..n]) + (if WritesIssue(attempts[n]) then [due[n]] else [])
  {
    if n > 0 {
      FiredAppend(due[1..], attempts[1..], n - 1);
      assert due[..n + 1][1..] == due[1..][..n] && attempts[..n + 1][1..] == attempts[1..][..n];
      assert due[..n][1..] == due[1..][..n - 1] && attempts[..n][1..] == attempts[1..][..n - 1];
    }
  }

  lemma {:induction false} CleanCountAppend(attempts: seq<Attempt>, n: nat)
    requires n < |attempts|
    ensures CleanCount(attempts[..n + 1]) == CleanCount(attempts[..n]) + (if Clean(attempts[n]) then 1 else 0)
  {
    if n > 0 {
      CleanCountAppend(attempts[1..], n - 1);
      assert attempts[..n + 1][1..] == attempts[1..][..n];
      assert attempts[..n][1..] == attempts[1..][..n - 1];
    }
  }

  /** Only due rules are taken; while fewer than 200 are, all of them. */
  lemma BatchIs(due: seq<RuleId>, rules: Rules, now: int)
    requires Selected(due, rules, now)
    ensures |due| <= 200
    ensures forall id | id in due :: id in rules && rules[id].enabled && rules[id].nextRunAt <= now
    ensures |due| < 200 ==>
              forall id | id in rules && rules[id].enabled && rules[id].nextRunAt <= now :: id in due
  {
    var rest := DueAt(rules, now) - Elements(due);
    DistinctIff(due);
    assert DueAt(rules, now) == Elements(due) + rest;
    forall id | |due| < 200 && id in DueAt(rules, now) ensures id in due {
      assert id in due || id in rest;
    }
  }

  /** The turns whose spawn did not throw and whose first write was acknowledged. */
  function CleanTurns(attempts: seq<Attempt>): set<nat> {
    set i | 0 <= i < |attempts| && attempts[i].spawn != Threw && attempts[i].spawn != ThrewAfterCommit &&
            attempts[i].first == Fine
  }

  lemma CleanTurnsSnoc(attempts: seq<Attempt>)
    requires attempts != []
    ensures var n := |attempts| - 1;
            && |CleanTurns(attempts)| == |CleanTurns(attempts[..n])| + (if Clean(attempts[n]) then 1 else 0)
  {
    var n := |attempts| - 1;
    assert CleanTurns(attempts) == CleanTurns(attempts[..n]) + (if Clean(attempts[n]) then {n} else {});
  }

  /** They are the ones counted. */
  lemma {:induction false} CleanCountIs(attempts: seq<Attempt>)
    ensures CleanCount(attempts) == |CleanTurns(attempts)|
  {
    if attempts != [] {
      var n := |attempts| - 1;
      CleanCountAppend(attempts, n);
      assert attempts[..n + 1] == attempts;
      CleanCountIs(attempts[..n]);
      CleanTurnsSnoc(attempts);
      hide CleanTurns, CleanCount, Clean;
    }
  }

  class Scheduler {
    var rules: Rules
    var spawned: seq<RuleId>

    constructor (table: Rules)
      ensures rules == table && spawned == []
    {
      rules := table;
      spawned := [];
    }

    /** One rule's turn in the loop, with the catch block that pushes it on after a failure. */
    method TakeTurn(id: RuleId, now: int, a: Attempt) returns (clean: bool)
      requires id in rules && rules[id].hour < 24
      modifies this
      ensures rules == old(rules)[id := After(old(rules)[id], now, a)]
      ensures spawned == old(spawned) + (if WritesIssue(a) then [id] else [])
      ensures spawned == old(spawned) + (if a.spawn == Spawned || a.spawn == ThrewAfterCommit then [id] else [])
      ensures clean == Clean(a) == ((a.spawn == Spawned || a.spawn == Skipped) && a.first == Fine)
      ensures var was := old(rules)[id];
              var recorded := (a.spawn == Spawned || a.spawn == Skipped) && a.first != FailBefore;
              && rules[id] == was.(nextRunAt := rules[id].nextRunAt, lastRunAt := rules[id].lastRunAt)
              && rules[id].lastRunAt == (if recorded then Some(now) else was.lastRunAt)
              && if !clean && a.second != FailBefore
                 then IsNextRun(a.secondClock, was.frequency, was.hour, true, rules[id].nextRunAt)
                 else if recorded then IsNextRun(a.firstClock, was.frequency, was.hour, true, rules[id].nextRunAt)
                 else rules[id].nextRunAt == was.nextRunAt
    {
      hide IsNextRun, NextRun;
      var rule := rules[id];
      if WritesIssue(a) {
        spawned := spawned + [id];
      }
      if a.spawn == Spawned || a.spawn == Skipped {
        var next := ComputeNextRun(a.firstClock, rule.frequency, rule.hour, true);
        if a.first != FailBefore {
          rules := rules[id := rule.(lastRunAt := Some(now), nextRunAt := next)];
        }
        if a.first == Fine {
          return true;
        }
      }
      var next := ComputeNextRun(a.secondClock, rule.frequency, rule.hour, true);
      if a.second != FailBefore {
        rules := rules[id := rules[id].(nextRunAt := next)];
      }
      return false;
    }

    /** Each rule of the batch writes at most one issue and is moved on, even when its spawn threw; a rule stays where
        it was only when neither write took effect. */
    method RunDueRules(due: seq<RuleId>, now: int, attempts: seq<Attempt>) returns (created: nat)
      requires (forall id | id in rules :: rules[id].hour < 24) && Selected(due, rules, now)
      requires |attempts| == |due| && forall a | a in attempts :: now <= a.firstClock && now <= a.secondClock
      modifies this
      ensures Ticked(old(rules), rules, due, now, attempts)
      ensures spawned == old(spawned) + Fired(due, attempts)
      ensures created == CleanCount(attempts)
      ensures |due| <= 200 && forall id | id in due ::
                id in old(rules) && old(rules)[id].enabled && old(rules)[id].nextRunAt <= now
      ensures |due| < 200 ==>
                forall id | id in old(rules) && old(rules)[id].enabled && old(rules)[id].nextRunAt <= now :: id in due
    {
      hide After, IsNextRun, DueAt, Selected, Fired, CleanCount, Ticked, Clean, WritesIssue, Distinct;
      BatchIs(due, rules, now);
      NoTurns(rules, due, now, attempts);
      created := 0;
      ghost var before, earlier := rules, spawned;
      var i := 0;
      while i < |due|
        invariant 0 <= i <= |due|
        invariant Ticked(before, rules, due[..i], now, attempts[..i])
        invariant spawned == earlier + Fired(due[..i], attempts[..i])
        invariant created == CleanCount(attempts[..i])
      {
        TurnAppends(before, rules, due, now, attempts, i);
        var clean := TakeTurn(due[i], now, attempts[i]);
        if clean { created := created + 1; }
        i := i + 1;
      }
      assert due[..i] == due && attempts[..i] == attempts;
    }
  }

  lemma NoTurns(rules: Rules, due: seq<RuleId>, now: int, attempts: seq<Attempt>)
    requires |attempts| == |due|
    ensures Ticked(rules, rules, due[..0], now, attempts[..0]) && Fired(due[..0], attempts[..0]) == []
    ensures CleanCount(attempts[..0]) == 0
  {
  }

  lemma TurnAppends(before: Rules, rules: Rules, due: seq<RuleId>, now: int, attempts: seq<Attempt>, n: nat)
    requires |attempts| == |due| && n < |due| && ValidRules(before) && Selected(due, before, now)
    requires Ticked(before, rules, due[..n], now, attempts[..n])
    ensures due[n] in before && due[n] in rules && rules[due[n]] == before[due[n]] && rules[due[n]].hour < 24
    ensures Ticked(before, rules[due[n] := After(before[due[n]], now, attempts[n])], due[..n + 1], now,
                   attempts[..n + 1])
    ensures Fired(due[..n + 1], attempts[..n + 1]) ==
            Fired(due[..n], attempts[..n]) + (if WritesIssue(attempts[n]) then [due[n]] else [])
    ensures CleanCount(attempts[..n + 1]) == CleanCount(attempts[..n]) + (if Clean(attempts[n]) then 1 else 0)
  {
    assert due[n] in due && due[n] in DueAt(before, now);
    FiredAppend(due, attempts, n);
    CleanCountAppend(attempts, n);
    TickedAppend(before, rules, due, now, attempts, n);
  }

  lemma TickedAppend(before: Rules, rules: Rules, due: seq<RuleId>, now: int, attempts: seq<Attempt>, n: nat)
    requires |attempts| == |due| && n < |due| && Distinct(due) && due[n] in before
    requires Ticked(before, rules, due[..n], now, attempts[..n])
    ensures rules[due[n]] == before[due[n]]
    ensures Ticked(before, rules[due[n] := After(before[due[n]], now, attempts[n])], due[..n + 1], now,
                   attempts[..n + 1])
  {
    assert due[n] !in due[..n];
    assert due[..n + 1] == due[..n] + [due[n]];
  }

  /** One tick writes at most one issue for a rule. */
  lemma {:induction false} OneIssuePerRule(due: seq<RuleId>, attempts: seq<Attempt>)
    requires |attempts| == |due| && Distinct(due)
    ensures Distinct(Fired(due, attempts)) && |Fired(due, attempts)| <= |due|
    ensures forall i | 0 <= i < |due| ::
              due[i] in Fired(due, attempts) <==>
              attempts[i].spawn == Spawned || attempts[i].spawn == ThrewAfterCommit
  {
    if due != [] {
      OneIssuePerRule(due[1..], attempts[1..]);
      assert forall i | 0 < i < |due| :: due[i] == due[1..][i - 1] && attempts[i] == attempts[1..][i - 1];
      forall id | id in Fired(due[1..], attempts[1..]) ensures id != due[0] {
        var j :| 0 <= j < |due[1..]| && due[1..][j] == id;
        assert due[j + 1] == id;
      }
      if WritesIssue(attempts[0]) {
        DistinctCons(due[0], Fired(due[1..], attempts[1..]));
      }
    }
  }

  lemma AfterIsLater(rule: Rule, now: int, a: Attempt)
    requires rule.hour < 24 && now <= a.firstClock && now <= a.secondClock
    ensures Advances(a) ==> After(rule, now, a).nextRunAt > now
    ensures !Advances(a) ==> After(rule, now, a) == rule
    ensures After(rule, now, a).lastRunAt == if Records(a) then Some(now) else rule.lastRunAt
    ensures After(rule, now, a).(nextRunAt := rule.nextRunAt, lastRunAt := rule.lastRunAt) == rule
  {
    NextRunIsLater(a.firstClock, rule.frequency, rule.hour, true);
    NextRunIsLater(a.secondClock, rule.frequency, rule.hour, true);
  }

  /** A due rule is still due after the tick exactly when the batch missed it or neither of its writes took effect. */
  lemma StillDue(before: Rules, rules: Rules, due: seq<RuleId>, now: int, attempts: seq<Attempt>, id: RuleId)
    requires ValidRules(before) && Selected(due, before, now) && Plausible(due, now, attempts)
    requires Ticked(before, rules, due, now, attempts)
    ensures id in DueAt(rules, now) <==>
            id in DueAt(before, now) && forall i :: 0 <= i < |due| && due[i] == id ==> !Advances(attempts[i])
    ensures id in DueAt(before, now) <==> id in before && before[id].enabled && before[id].nextRunAt <= now
    ensures forall i | 0 <= i < |due| ::
              Advances(attempts[i]) <==>
              attempts[i].second != FailBefore ||
              ((attempts[i].spawn == Spawned || attempts[i].spawn == Skipped) && attempts[i].first != FailBefore)
  {
    if i :| 0 <= i < |due| && due[i] == id {
      assert attempts[i] in attempts;
      AfterIsLater(before[id], now, attempts[i]);
    }
  }

  /** A rule neither of whose writes takes effect after its issue was written stays due, and the next tick writes the
      issue again. */
  lemma StuckRuleFiresTwice(id: RuleId, rule: Rule, now: int, a: Attempt, later: int, b: Attempt)
    requires rule.enabled && rule.nextRunAt <= now <= later
    requires a.spawn == ThrewAfterCommit || (a.spawn == Spawned && a.first == FailBefore)
    requires a.second == FailBefore && (b.spawn == Spawned || b.spawn == ThrewAfterCommit)
    ensures var rules := map[id := rule];
            && Selected([id], rules, now) && Ticked(rules, rules, [id], now, [a]) && Fired([id], [a]) == [id]
            && Selected([id], rules, later) && Fired([id], [b]) == [id]
            && Ticked(rules, rules[id := After(rule, later, b)], [id], later, [b])
  {
    var rules := map[id := rule];
    assert DueAt(rules, now) == {id} && DueAt(rules, later) == {id};
    forall c: Attempt ensures WritesIssue(c) ==> Fired([id], [c]) == [id] {
      assert Fired([id], [c]) == (if WritesIssue(c) then [id] else []) + Fired([], []);
    }
  }

  /** A tick all of whose advances succeed takes one full batch off the due set. */
  lemma TickDrains(before: Rules, rules: Rules, due: seq<RuleId>, now: int, attempts: seq<Attempt>)
    requires ValidRules(before) && Selected(due, before, now) && Plausible(due, now, attempts)
    requires Ticked(before, rules, due, now, attempts)
    requires forall a :: a in attempts ==> Advances(a)
    ensures DueAt(rules, now) == DueAt(before, now) - Elements(due)
    ensures var backlog := |DueAt(before, now)|; |DueAt(rules, now)| == if backlog <= 200 then 0 else backlog - 200
  {
    forall id ensures id in DueAt(rules, now) <==> id in DueAt(before, now) - Elements(due) {
      StillDue(before, rules, due, now, attempts, id);
      if i :| 0 <= i < |due| && due[i] == id {
        assert attempts[i] in attempts;
      }
    }
    DistinctIff(due);
    assert Elements(due) <= DueAt(before, now);
  }

  datatype Tick = Tick(due: seq<RuleId>, now: int, attempts: seq<Attempt>)

  ghost predicate CleanTick(before: Rules, rules: Rules, t: Tick) {
    ValidRules(before) && Selected(t.due, before, t.now) && Plausible(t.due, t.now, t.attempts) &&
    Ticked(before, rules, t.due, t.now, t.attempts) && forall a :: a in t.attempts ==> Advances(a)
  }

  /** A run of ticks whose advances succeed, with no rule falling due or being edited in between. */
  ghost predicate Draining(tables: seq<Rules>, ticks: seq<Tick>) {
    |tables| == |ticks| + 1 &&
    (forall k :: 0 <= k < |ticks| ==> CleanTick(tables[k], tables[k + 1], ticks[k])) &&
    (forall k :: 0 < k < |ticks| ==> DueAt(tables[k], ticks[k].now) == DueAt(tables[k], ticks[k - 1].now))
  }

  lemma DrainingTail(tables: seq<Rules>, ticks: seq<Tick>)
    requires |ticks| > 1 && Draining(tables, ticks)
    ensures Draining(tables[1..], ticks[1..])
    ensures DueAt(tables[1], ticks[1].now) == DueAt(tables[1], ticks[0].now)
  {
    forall k | 0 <= k < |ticks| - 1 ensures CleanTick(tables[1..][k], tables[1..][k + 1], ticks[1..][k]) {
      assert CleanTick(tables[k + 1], tables[k + 2], ticks[k + 1]);
    }
    forall k | 0 < k < |ticks| - 1
      ensures DueAt(tables[1..][k], ticks[1..][k].now) == DueAt(tables[1..][k], ticks[1..][k - 1].now)
    {
      assert DueAt(tables[k + 1], ticks[k + 1].now) == DueAt(tables[k + 1], ticks[k].now);
    }
  }

  lemma CleanTickDrains(before: Rules, rules: Rules, t: Tick)
    requires CleanTick(before, rules, t)
    ensures |DueAt(rules, t.now)| == |DueAt(before, t.now)| - Min(BATCH, |DueAt(before, t.now)|)
  {
    TickDrains(before, rules, t.due, t.now, t.attempts);
  }

  /** Ticks drain a backlog 200 rules at a time, and n ticks empty any backlog of at most 200n. */
  lemma {:induction false} TicksDrain(tables: seq<Rules>, ticks: seq<Tick>)
    requires ticks != [] && Draining(tables, ticks)
    ensures var backlog := |DueAt(tables[0], ticks[0].now)|;
            |DueAt(tables[|ticks|], ticks[|ticks| - 1].now)| ==
            if backlog <= 200 * |ticks| then 0 else backlog - 200 * |ticks|
    decreases |ticks|
  {
    assert CleanTick(tables[0], tables[1], ticks[0]);
    CleanTickDrains(tables[0], tables[1], ticks[0]);
    if |ticks| > 1 {
      DrainingTail(tables, ticks);
      TicksDrain(tables[1..], ticks[1..]);
    }
  }
}
