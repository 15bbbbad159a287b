/** Logins and refresh-token rotation with calls interleaving freely.

    A login checks the password first and creates its token later.

    `refresh` reads the row first and decides again inside its transaction, which creates the new row before it
    deletes the old one. Deleting a row that is gone throws, and the throw undoes the creation. */
module RefreshTokens {
  import opened Prelude

  type TokenId = nat
  type UserId = nat
  type OpId = nat

  datatype Row = Row(user: UserId, expiresAt: int)

  /** How a token came to be: its user, the token it was rotated from, and the login it descends from: its token, its
      call, and how often the password had been set when that call checked it. */
  datatype Birth = Birth(user: UserId, parent: Option<TokenId>, login: TokenId, call: OpId, era: nat)

  datatype Pc =
    | LoggingIn(user: UserId, era: nat)
    | LoggedIn(newToken: TokenId)
    | Expired(token: TokenId)
    | Rotating(token: TokenId, user: UserId)
    | Revoking(token: TokenId)
    | Issued(newToken: TokenId)
    | Rejected
    | Done

  /** The token table, how often each user's password was set, the history of births and successful exchanges, and the
      calls in flight. */
  datatype State = State(live: map<TokenId, Row>, eras: map<UserId, nat>, born: map<TokenId, Birth>,
                         exchanged: seq<TokenId>, ops: map<OpId, Pc>)

  datatype Fault = Fine | FailBefore | FailAfter

  datatype Event =
    | LoginCheck(op: OpId, user: UserId)
    | RefreshRead(op: OpId, token: TokenId, now: int)
    | RevokeRead(op: OpId, user: UserId, token: TokenId)
    | Continue(op: OpId, fault: Fault, newToken: TokenId, expiresAt: int)
    | Logout(token: TokenId)
    | RevokeOthers(user: UserId, current: Option<TokenId>)
    | RevokeAll(user: UserId)
    | ChangePassword(user: UserId)
    | ResetPassword(user: UserId)

  const Empty: State := State(map[], map[], map[], [], map[])

  function EraOf(s: State, user: UserId): nat {
    if user in s.eras then s.eras[user] else 0
  }

  function WithNewPassword(s: State, user: UserId): State {
    s.(eras := s.eras[user := EraOf(s, user) + 1])
  }

  function OfUser(live: map<TokenId, Row>, user: UserId): set<TokenId> {
    set t | t in live && live[t].user == user
  }

  /** The deletes with a `where` on the user; the current token, if given, stays. */
  function WithoutUser(live: map<TokenId, Row>, user: UserId, current: Option<TokenId>): map<TokenId, Row> {
    map t | t in live && (live[t].user != user || current == Some(t)) :: live[t]
  }

  /** The rotation transaction, when the parent row is still there. */
  function Rotated(live: map<TokenId, Row>, token: TokenId, user: UserId, newToken: TokenId,
                   expiresAt: int): map<TokenId, Row> {
    live[newToken := Row(user, expiresAt)] - {token}
  }

  function SetPc(s: State, op: OpId, pc: Pc): State {
    s.(ops := s.ops[op := pc])
  }

  function ReadPc(s: State, token: TokenId, now: int): Pc {
    if token !in s.live then Rejected
    else if s.live[token].expiresAt < now then Expired(token)
    else Rotating(token, s.live[token].user)
  }

  /** The tables after a rotation that found its parent row. */
  function Exchanged(s: State, token: TokenId, user: UserId, newToken: TokenId, expiresAt: int): State
    requires token in s.born
  {
    s.(live := Rotated(s.live, token, user, newToken, expiresAt),
       born := s.born[newToken := s.born[token].(parent := Some(token), user := user)],
       exchanged := s.exchanged + [token])
  }

  function Rotate(s: State, op: OpId, fault: Fault, newToken: TokenId, expiresAt: int): State
    requires op in s.ops && s.ops[op].Rotating?
  {
    var pc := s.ops[op];
    if newToken in s.born then s
    else if fault == FailBefore || pc.token !in s.live || pc.token !in s.born then SetPc(s, op, Rejected)
    else
      SetPc(Exchanged(s, pc.token, pc.user, newToken, expiresAt), op, if fault == Fine then Issued(newToken)
            else Rejected)
  }

  /** The tables after a login call has created its token. */
  function Entered(s: State, op: OpId, user: UserId, era: nat, newToken: TokenId, expiresAt: int): State {
    s.(live := s.live[newToken := Row(user, expiresAt)],
       born := s.born[newToken := Birth(user, None, newToken, op, era)])
  }

  function Enter(s: State, op: OpId, fault: Fault, newToken: TokenId, expiresAt: int): State
    requires op in s.ops && s.ops[op].LoggingIn?
  {
    var pc := s.ops[op];
    if newToken in s.born then s
    else if fault == FailBefore then SetPc(s, op, Rejected)
    else SetPc(Entered(s, op, pc.user, pc.era, newToken, expiresAt), op, if fault == Fine then LoggedIn(newToken)
               else Rejected)
  }

  function Step(s: State, e: Event): State {
    match e
    case LoginCheck(op, user) => if op in s.ops then s else SetPc(s, op, LoggingIn(user, EraOf(s, user)))
    case RefreshRead(op, token, now) => if op in s.ops then s else SetPc(s, op, ReadPc(s, token, now))
    case RevokeRead(op, user, token) =>
      if op in s.ops then s else SetPc(s, op, if token in s.live && s.live[token].user == user then Revoking(token)
                                       else Rejected)
    case Continue(op, fault, newToken, expiresAt) =>
      if op !in s.ops then s
      else if s.ops[op].LoggingIn? then Enter(s, op, fault, newToken, expiresAt)
      else if s.ops[op].Rotating? then Rotate(s, op, fault, newToken, expiresAt)
      else if s.ops[op].Expired? || s.ops[op].Revoking? then
        SetPc(if fault == FailBefore then s else s.(live := s.live - {s.ops[op].token}), op,
              if s.ops[op].Revoking? && fault == Fine && s.ops[op].token in s.live then Done else Rejected)
      else s
    case Logout(token) => s.(live := s.live - {token})
    case RevokeOthers(user, current) => s.(live := WithoutUser(s.live, user, current))
    case RevokeAll(user) => s.(live := WithoutUser(s.live, user, None))
    case ChangePassword(user) => WithNewPassword(s, user).(live := WithoutUser(s.live, user, None))
    case ResetPassword(user) => WithNewPassword(s, user)
  }

  function Run(s: State, events: seq<Event>): State {
    if events == [] then s else Step(Run(s, events[..|events| - 1]), events[|events| - 1])
  }

  lemma {:induction false} RunSplit(s: State, first: seq<Event>, second: seq<Event>)
    ensures Run(s, first + second) == Run(Run(s, first), second)
  {
    hide Step;
    var both := first + second;
    if second == [] {
      assert both == first;
    } else {
      assert both[..|both| - 1] == first + second[..|second| - 1];
      RunSplit(s, first, second[..|second| - 1]);
    }
  }

  // ─── The invariant ─────────────────────────────────────

  predicate BirthOk(s: State, t: TokenId)
    requires t in s.born
  {
    var birth := s.born[t];
    && birth.login in s.born && s.born[birth.login] == birth.(parent := None) && birth.era <= EraOf(s, birth.user)
    && match birth.parent
       case None => birth.login == t
       case Some(p) => p in s.born && s.born[p].login == birth.login && p in s.exchanged
  }

  ghost predicate LiveOk(s: State) {
    forall t | t in s.live :: t in s.born && s.born[t].user == s.live[t].user && t !in s.exchanged
  }

  ghost predicate LoginsOk(s: State) {
    forall t, u | t in s.live && u in s.live && t in s.born && u in s.born && s.born[t].login == s.born[u].login ::
        t == u
  }

  ghost predicate SpentOk(s: State) {
    && (forall i | 0 <= i < |s.exchanged| :: s.exchanged[i] in s.born)
    && (forall i, j | 0 <= i < j < |s.exchanged| :: s.exchanged[i] != s.exchanged[j])
  }

  ghost predicate CallsOk(s: State) {
    && (forall op | op in s.ops && s.ops[op].Rotating? :: s.ops[op].token in s.born &&
                                                          s.born[s.ops[op].token].user == s.ops[op].user)
    && (forall op | op in s.ops && s.ops[op].Issued? ::
          s.ops[op].newToken in s.born && s.born[s.ops[op].newToken].parent.Some?)
    && (forall op | op in s.ops && s.ops[op].LoggingIn? :: s.ops[op].era <= EraOf(s, s.ops[op].user))
  }

  ghost predicate Inv(s: State) {
    && LiveOk(s)
    && (forall t {:trigger BirthOk(s, t)} | t in s.born :: BirthOk(s, t))
    && LoginsOk(s) && SpentOk(s) && CallsOk(s)
  }

  lemma BirthStaysOk(s: State, t: State, x: TokenId)
    requires x in s.born && BirthOk(s, x)
    requires forall y | y in s.born :: y in t.born && t.born[y] == s.born[y]
    requires forall y | y in s.exchanged :: y in t.exchanged
    requires forall user :: EraOf(s, user) <= EraOf(t, user)
    ensures x in t.born && BirthOk(t, x)
  {
  }

  lemma FewerLiveKeepsInv(s: State, live: map<TokenId, Row>)
    requires Inv(s) && forall t | t in live :: t in s.live && live[t] == s.live[t]
    ensures Inv(s.(live := live))
  {
    forall t | t in s.born ensures BirthOk(s.(live := live), t) { assert BirthOk(s, t); }
  }

  lemma PcKeepsInv(s: State, op: OpId, pc: Pc)
    requires Inv(s)
    requires pc.Rotating? ==> pc.token in s.born && s.born[pc.token].user == pc.user
    requires pc.Issued? ==> pc.newToken in s.born && s.born[pc.newToken].parent.Some?
    requires pc.LoggingIn? ==> pc.era <= EraOf(s, pc.user)
    ensures Inv(SetPc(s, op, pc))
  {
    forall t | t in s.born ensures BirthOk(SetPc(s, op, pc), t) { assert BirthOk(s, t); }
  }

  lemma NewPasswordKeepsInv(s: State, user: UserId)
    requires Inv(s)
    ensures Inv(WithNewPassword(s, user))
  {
    var s' := WithNewPassword(s, user);
    forall t | t in s.born ensures BirthOk(s', t) { BirthStaysOk(s, s', t); }
  }

  lemma EnteredKeepsLines(s: State, op: OpId, user: UserId, era: nat, t: TokenId, expiresAt: int)
    requires Inv(s) && t !in s.born
    ensures LiveOk(Entered(s, op, user, era, t, expiresAt)) && LoginsOk(Entered(s, op, user, era, t, expiresAt))
  {
    var s' := Entered(s, op, user, era, t, expiresAt);
    forall x | x in s.live ensures s.born[x].login != t { assert BirthOk(s, x); }
    hide BirthOk, CallsOk;
    assert t !in s.exchanged;
    forall x, y | x in s'.live && y in s'.live && s'.born[x].login == s'.born[y].login ensures x == y {
      assert x != t ==> x in s.live;
      assert y != t ==> y in s.live;
    }
  }

  lemma EnteredKeepsInv(s: State, op: OpId, user: UserId, era: nat, t: TokenId, expiresAt: int)
    requires Inv(s) && t !in s.born && era <= EraOf(s, user)
    ensures Inv(Entered(s, op, user, era, t, expiresAt))
  {
    var s' := Entered(s, op, user, era, t, expiresAt);
    EnteredKeepsLines(s, op, user, era, t, expiresAt);
    assert forall u :: EraOf(s', u) == EraOf(s, u);
    assert BirthOk(s', t) && SpentOk(s') && CallsOk(s');
    hide LiveOk, LoginsOk, SpentOk, CallsOk, EraOf;
    forall x | x in s'.born ensures BirthOk(s', x) { if x != t { BirthStaysOk(s, s', x); } }
  }

  lemma EnterKeepsInv(s: State, op: OpId, fault: Fault, newToken: TokenId, expiresAt: int)
    requires Inv(s) && op in s.ops && s.ops[op].LoggingIn?
    ensures Inv(Enter(s, op, fault, newToken, expiresAt))
  {
    var pc := s.ops[op];
    assert pc.era <= EraOf(s, pc.user);
    hide Inv;
    if newToken !in s.born && fault == FailBefore {
      PcKeepsInv(s, op, Rejected);
    } else if newToken !in s.born {
      EnteredKeepsInv(s, op, pc.user, pc.era, newToken, expiresAt);
      PcKeepsInv(Entered(s, op, pc.user, pc.era, newToken, expiresAt), op, if fault == Fine then LoggedIn(newToken)
                 else Rejected);
    }
  }

  lemma ExchangeKeepsLines(s: State, token: TokenId, newToken: TokenId, expiresAt: int)
    requires LiveOk(s) && LoginsOk(s) && token in s.live && token in s.born && newToken !in s.born &&
             newToken !in s.exchanged
    ensures var t := Exchanged(s, token, s.born[token].user, newToken, expiresAt); LiveOk(t) && LoginsOk(t)
  {
    var s' := Exchanged(s, token, s.born[token].user, newToken, expiresAt);
    forall x | x in s'.live ensures x in s'.born && s'.born[x].user == s'.live[x].user && x !in s'.exchanged {
      assert x != newToken ==> x in s.live && x != token;
      assert x == newToken ==> x !in s.live;
    }
    forall x, y | x in s'.live && y in s'.live && s'.born[x].login == s'.born[y].login ensures x == y {
      assert x != newToken ==> x in s.live && x != token;
      assert y != newToken ==> y in s.live && y != token;
    }
  }

  lemma ExchangeKeepsInv(s: State, token: TokenId, newToken: TokenId, expiresAt: int)
    requires Inv(s) && token in s.live && token in s.born && newToken !in s.born
    requires newToken !in s.exchanged
    ensures Inv(Exchanged(s, token, s.born[token].user, newToken, expiresAt))
  {
    var s' := Exchanged(s, token, s.born[token].user, newToken, expiresAt);
    ExchangeKeepsLines(s, token, newToken, expiresAt);
    assert token !in s.exchanged;
    assert SpentOk(s') && CallsOk(s');
    assert BirthOk(s, token);
    assert forall u :: EraOf(s', u) == EraOf(s, u);
    hide LiveOk, LoginsOk, SpentOk, CallsOk, EraOf;
    forall x | x in s'.born ensures BirthOk(s', x) { if x != newToken { BirthStaysOk(s, s', x); } }
  }

  lemma RotateKeepsInv(s: State, op: OpId, fault: Fault, newToken: TokenId, expiresAt: int)
    requires Inv(s) && op in s.ops && s.ops[op].Rotating?
    ensures Inv(Rotate(s, op, fault, newToken, expiresAt))
  {
    var token, user := s.ops[op].token, s.ops[op].user;
    assert token in s.born && s.born[token].user == user;
    assert newToken !in s.born ==> newToken !in s.exchanged;
    hide Inv;
    if newToken !in s.born && (fault == FailBefore || token !in s.live) {
      PcKeepsInv(s, op, Rejected);
    } else if newToken !in s.born {
      ExchangeKeepsInv(s, token, newToken, expiresAt);
      PcKeepsInv(Exchanged(s, token, user, newToken, expiresAt), op, if fault == Fine then Issued(newToken)
                 else Rejected);
    }
  }

  lemma StepKeepsInv(s: State, e: Event)
    requires Inv(s)
    ensures Inv(Step(s, e))
  {
    match e
    case LoginCheck(op, user) => PcKeepsInv(s, op, LoggingIn(user, EraOf(s, user)));
    case RefreshRead(op, token, now) => PcKeepsInv(s, op, ReadPc(s, token, now));
    case RevokeRead(op, user, token) =>
      PcKeepsInv(s, op, if token in s.live && s.live[token].user == user then Revoking(token) else Rejected);
    case Continue(op, fault, newToken, expiresAt) =>
      if op in s.ops {
        var pc := s.ops[op];
        if pc.LoggingIn? {
          EnterKeepsInv(s, op, fault, newToken, expiresAt);
        } else if pc.Rotating? {
          RotateKeepsInv(s, op, fault, newToken, expiresAt);
        } else if pc.Expired? || pc.Revoking? {
          FewerLiveKeepsInv(s, s.live - {pc.token});
          PcKeepsInv(if fault == FailBefore then s else s.(live := s.live - {pc.token}), op, Step(s, e).ops[op]);
        }
      }
    case Logout(token) => FewerLiveKeepsInv(s, s.live - {token});
    case RevokeOthers(user, current) => FewerLiveKeepsInv(s, WithoutUser(s.live, user, current));
    case RevokeAll(user) => FewerLiveKeepsInv(s, WithoutUser(s.live, user, None));
    case ChangePassword(user) =>
      NewPasswordKeepsInv(s, user);
      FewerLiveKeepsInv(WithNewPassword(s, user), WithoutUser(s.live, user, None));
    case ResetPassword(user) => NewPasswordKeepsInv(s, user);
  }

  lemma {:induction false} RunKeepsInv(s: State, events: seq<Event>)
    requires Inv(s)
    ensures Inv(Run(s, events))
  {
    if events != [] {
      RunKeepsInv(s, events[..|events| - 1]);
      StepKeepsInv(Run(s, events[..|events| - 1]), events[|events| - 1]);
    }
  }

  // ─── Main results ──────────────────────────────────────

  /** No interleaving, retry or lost acknowledgement exchanges a token twice, and an exchanged token is never
      accepted again. */
  lemma ExchangedAtMostOnce(events: seq<Event>, i: nat, j: nat)
    requires i < j < |Run(Empty, events).exchanged|
    ensures var s := Run(Empty, events); s.exchanged[i] != s.exchanged[j] && s.exchanged[i] !in s.live
  {
    RunKeepsInv(Empty, events);
  }

  /** Rotation never forks a session: of all the tokens that descend from one login, one at most is live. */
  lemma OneLiveTokenPerLogin(events: seq<Event>, t: TokenId, u: TokenId)
    requires var s := Run(Empty, events);
             t in s.live && u in s.live && t in s.born && u in s.born && s.born[t].login == s.born[u].login
    ensures t == u
  {
    RunKeepsInv(Empty, events);
  }

  /** A refresh that hands out a token replaced a live one of the same login, and every user keeps the number of
      live tokens. */
  lemma RotationReplaces(events: seq<Event>, op: OpId, newToken: TokenId, expiresAt: int, user: UserId)
    requires op in Run(Empty, events).ops && Run(Empty, events).ops[op].Rotating? &&
             newToken !in Run(Empty, events).born
    ensures var s := Run(Empty, events);
            var s' := Step(s, Continue(op, Fine, newToken, expiresAt));
            var parent := s.ops[op].token;
            if parent in s.live then
              && s'.ops[op] == Issued(newToken) && newToken in s'.live && parent !in s'.live
              && s'.born[newToken].login == s.born[parent].login
              && s'.live[newToken].user == s.live[parent].user
              && |OfUser(s'.live, user)| == |OfUser(s.live, user)|
            else s'.ops[op] == Rejected && s'.live == s.live && s'.born == s.born
  {
    RunKeepsInv(Empty, events);
    var s := Run(Empty, events);
    var pc := s.ops[op];
    if pc.token in s.live {
      RotatedCount(s.live, pc.token, newToken, expiresAt, user);
    }
  }

  lemma RotatedCount(live: map<TokenId, Row>, token: TokenId, newToken: TokenId, expiresAt: int, user: UserId)
    requires token in live && newToken !in live
    ensures |OfUser(Rotated(live, token, live[token].user, newToken, expiresAt), user)| == |OfUser(live, user)|
  {
    var rotated := Rotated(live, token, live[token].user, newToken, expiresAt);
    var was, others := OfUser(live, user), OfUser(live, user) - {token};
    forall t ensures t in OfUser(rotated, user) <==> t in others || (t == newToken && live[token].user == user) {
      assert t != newToken ==> (t in rotated <==> t in live && t != token);
    }
    if live[token].user == user {
      assert OfUser(rotated, user) == others + {newToken};
      assert |others| == |was| - 1;
    } else {
      assert OfUser(rotated, user) == others == was;
    }
  }

  /** What a refresh and the revocation of one session read. */
  lemma ReadsAre(s: State, op: OpId, user: UserId, token: TokenId, now: int)
    requires op !in s.ops
    ensures Step(s, RefreshRead(op, token, now)) == s.(ops := s.ops[op :=
              if token !in s.live then Rejected
              else if s.live[token].expiresAt < now then Expired(token) else Rotating(token, s.live[token].user)])
    ensures Step(s, RevokeRead(op, user, token)) == s.(ops := s.ops[op :=
              if token in s.live && s.live[token].user == user then Revoking(token) else Rejected])
  {
  }

  /** What they write: a rotation whose parent is gone, or whose transaction fails, nothing; a new token is handed out
      only if the commit is acknowledged, and a session is reported revoked only if it was there. */
  lemma WritesAre(s: State, op: OpId, fault: Fault, newToken: TokenId, expiresAt: int)
    requires op in s.ops && newToken !in s.born
    ensures var pc, t := s.ops[op], Step(s, Continue(op, fault, newToken, expiresAt));
            && (pc.Expired? || pc.Revoking? ==>
                  t == s.(live := if fault == FailBefore then s.live else s.live - {pc.token},
                          ops := s.ops[op := if pc.Revoking? && fault == Fine && pc.token in s.live then Done
                                             else Rejected]))
            && (pc.Rotating? && pc.token in s.born ==>
                  if fault != FailBefore && pc.token in s.live
                  then t == s.(live := (s.live - {pc.token})[newToken := Row(pc.user, expiresAt)],
                               born := s.born[newToken := s.born[pc.token].(parent := Some(pc.token), user := pc.user)],
                               exchanged := s.exchanged + [pc.token],
                               ops := s.ops[op := if fault == Fine then Issued(newToken) else Rejected])
                  else t == s.(ops := s.ops[op := Rejected]))
  {
    var pc := s.ops[op];
    if pc.Rotating? && pc.token in s.born {
      assert Rotated(s.live, pc.token, pc.user, newToken, expiresAt) ==
          (s.live - {pc.token})[newToken := Row(pc.user, expiresAt)];
    }
  }

  /** The user's live tokens all descend from logins that are not among `before`. */
  ghost predicate OnlyNewLogins(s: State, user: UserId, before: set<TokenId>) {
    && before <= s.born.Keys
    && forall t | t in s.live && s.live[t].user == user :: t in s.born && s.born[t].login !in before
  }

  lemma StepKeepsNewLogins(s: State, e: Event, user: UserId, before: set<TokenId>)
    requires Inv(s) && OnlyNewLogins(s, user, before)
    ensures OnlyNewLogins(Step(s, e), user, before)
  {
    if e.Continue? && e.op in s.ops && s.ops[e.op].Rotating? {
      assert s.ops[e.op].token in s.live ==> s.live[s.ops[e.op].token].user == s.ops[e.op].user;
    }
  }

  lemma {:induction false} RunKeepsNewLogins(s: State, events: seq<Event>, user: UserId, before: set<TokenId>)
    requires Inv(s) && OnlyNewLogins(s, user, before)
    ensures OnlyNewLogins(Run(s, events), user, before)
  {
    if events != [] {
      RunKeepsInv(s, events[..|events| - 1]);
      RunKeepsNewLogins(s, events[..|events| - 1], user, before);
      StepKeepsNewLogins(Run(s, events[..|events| - 1]), events[|events| - 1], user, before);
    }
  }

  /** The steps that delete every token of a user: a password change, and a sign-out everywhere. */
  predicate RevokesAll(e: Event, user: UserId) {
    e == RevokeAll(user) || e == ChangePassword(user)
  }

  lemma NoneLiveAfterRevocation(s: State, e: Event, user: UserId)
    requires Inv(s) && RevokesAll(e, user)
    ensures OnlyNewLogins(Step(s, e), user, s.born.Keys)
  {
  }

  /** Deleting a user's other tokens keeps the current one and everybody else's; deleting all keeps everybody else's. */
  lemma RevokedAre(s: State, user: UserId, current: TokenId, t: TokenId)
    ensures var others, all := Step(s, RevokeOthers(user, Some(current))).live, Step(s, RevokeAll(user)).live;
            && (t in others <==> t in s.live && (s.live[t].user != user || t == current))
            && (t in all <==> t in s.live && s.live[t].user != user)
            && (t in others ==> others[t] == s.live[t]) && (t in all ==> all[t] == s.live[t])
            && Step(s, RevokeOthers(user, None)) == Step(s, RevokeAll(user))
  {
  }

  /** After a revocation of all of a user's tokens (a password change, a sign-out everywhere), whatever calls were in
      flight, every live token of that user descends from a login whose token was created later. */
  lemma RevocationIsComplete(before: seq<Event>, e: Event, user: UserId, after: seq<Event>, t: TokenId)
    requires e == RevokeAll(user) || e == ChangePassword(user)
    requires var s := Run(Empty, before + [e] + after); t in s.live && s.live[t].user == user
    ensures var s := Run(Empty, before + [e] + after);
            t in s.born && s.born[t].login in s.born && s.born[t].login !in Run(Empty, before).born
  {
    var mid := before + [e];
    var b := Run(Empty, before);
    assert mid[..|before|] == before;
    RunKeepsInv(Empty, before);
    RunKeepsInv(Empty, mid);
    NoneLiveAfterRevocation(b, e, user);
    RunSplit(Empty, mid, after);
    RunKeepsNewLogins(Run(Empty, mid), after, user, b.born.Keys);
    RunKeepsInv(Empty, mid + after);
    assert BirthOk(Run(Empty, mid + after), t);
  }

  // ─── Tokens that rest on an old password ───────────────

  predicate SetsPassword(e: Event, user: UserId) {
    e == ChangePassword(user) || e == ResetPassword(user)
  }

  /** How often the password was set. */
  function PasswordSets(events: seq<Event>, user: UserId): nat {
    if events == [] then 0
    else
      var e := events[|events| - 1];
      var before := PasswordSets(events[..|events| - 1], user);
      if e == ChangePassword(user) || e == ResetPassword(user) then before + 1 else before
  }

  lemma {:induction false} EraCounts(events: seq<Event>, user: UserId)
    ensures EraOf(Run(Empty, events), user) == PasswordSets(events, user)
  {
    if events != [] { EraCounts(events[..|events| - 1], user); }
  }

  /** The era of a login is that of its check, however late its token is created. */
  lemma LoginSteps(s: State, op: OpId, user: UserId, later: State, newToken: TokenId, expiresAt: int)
    requires op !in s.ops && op in later.ops && later.ops[op] == LoggingIn(user, EraOf(s, user))
    requires newToken !in later.born
    ensures Step(s, LoginCheck(op, user)) == s.(ops := s.ops[op := later.ops[op]])
    ensures Step(later, Continue(op, Fine, newToken, expiresAt)) == later.(
              live := later.live[newToken := Row(user, expiresAt)],
              born := later.born[newToken := Birth(user, None, newToken, op, EraOf(s, user))],
              ops := later.ops[op := LoggedIn(newToken)])
  {
  }

  /** The password was set again since the login that the token descends from checked it. */
  predicate RestsOnOldPassword(s: State, t: TokenId)
    requires t in s.born
  {
    s.born[t].era < EraOf(s, s.born[t].user)
  }

  /** The login was made, or its call had checked the password, in state `b`. */
  predicate CheckedBy(b: State, birth: Birth) {
    birth.login in b.born || (birth.call in b.ops && b.ops[birth.call].LoggingIn?)
  }

  /** What stays so once the password was set in state `b`, until it is set again: the logins of that time, and the
      calls that had checked the password by then, are known; all others have checked the new password. */
  ghost predicate SinceThen(b: State, s: State, user: UserId) {
    && EraOf(s, user) == EraOf(b, user) + 1
    && b.born.Keys <= s.born.Keys && b.ops.Keys <= s.ops.Keys
    && (forall t | t in s.born && s.born[t].user == user :: s.born[t].era < EraOf(s, user) <==> CheckedBy(b, s.born[t]))
    && (forall op | op in s.ops && s.ops[op].LoggingIn? && s.ops[op].user == user ::
          if op in b.ops then b.ops[op].LoggingIn? && s.ops[op].era < EraOf(s, user)
               else s.ops[op].era == EraOf(s, user))
  }

  lemma SetPasswordStartsIt(b: State, e: Event, user: UserId)
    requires Inv(b) && SetsPassword(e, user)
    ensures SinceThen(b, Step(b, e), user)
  {
    forall t | t in b.born ensures CheckedBy(b, b.born[t]) { assert BirthOk(b, t); }
    forall t | t in b.born && b.born[t].user == user ensures b.born[t].era <= EraOf(b, user) { assert BirthOk(b, t); }
  }

  /** One more token, of a login that has just entered or of one that is known. */
  lemma BornKeepsSinceThen(b: State, s: State, s': State, newToken: TokenId, birth: Birth, user: UserId)
    requires SinceThen(b, s, user) && newToken !in s.born && s'.eras == s.eras && s'.ops == s.ops
    requires s'.born == s.born[newToken := birth]
    requires birth.user == user ==> (birth.era < EraOf(s, user) <==> CheckedBy(b, birth))
    ensures SinceThen(b, s', user)
  {
    hide CheckedBy;
  }

  lemma PcKeepsSinceThen(b: State, s: State, op: OpId, pc: Pc, user: UserId)
    requires SinceThen(b, s, user)
    requires pc.LoggingIn? && pc.user == user ==> op !in b.ops && pc.era == EraOf(s, user)
    ensures SinceThen(b, SetPc(s, op, pc), user)
  {
    hide CheckedBy;
  }

  lemma ContinueKeepsSinceThen(b: State, s: State, op: OpId, fault: Fault, newToken: TokenId, expiresAt: int,
                               user: UserId)
    requires Inv(s) && SinceThen(b, s, user) && op in s.ops && newToken !in s.born && fault != FailBefore
    requires s.ops[op].LoggingIn? || (s.ops[op].Rotating? && s.ops[op].token in s.live && s.ops[op].token in s.born)
    ensures SinceThen(b, Step(s, Continue(op, fault, newToken, expiresAt)), user)
  {
    var pc := s.ops[op];
    if pc.LoggingIn? {
      var birth := Birth(pc.user, None, newToken, op, pc.era);
      assert pc.user == user ==> (birth.era < EraOf(s, user) <==> CheckedBy(b, birth));
      var s' := Entered(s, op, pc.user, pc.era, newToken, expiresAt);
      hide SinceThen, CheckedBy, Inv;
      BornKeepsSinceThen(b, s, s', newToken, birth, user);
      PcKeepsSinceThen(b, s', op, if fault == Fine then LoggedIn(newToken) else Rejected, user);
    } else {
      var parent := s.born[pc.token];
      assert parent.user == pc.user;
      var birth := parent.(parent := Some(pc.token));
      assert CheckedBy(b, birth) == CheckedBy(b, parent);
      var s' := Exchanged(s, pc.token, pc.user, newToken, expiresAt);
      assert user == birth.user ==> (birth.era < EraOf(s, user) <==> CheckedBy(b, birth));
      hide SinceThen, CheckedBy, Inv;
      BornKeepsSinceThen(b, s, s', newToken, birth, user);
      PcKeepsSinceThen(b, s', op, if fault == Fine then Issued(newToken) else Rejected, user);
    }
  }

  lemma StepKeepsSinceThen(b: State, s: State, e: Event, user: UserId)
    requires Inv(s) && SinceThen(b, s, user) && !SetsPassword(e, user)
    ensures SinceThen(b, Step(s, e), user)
  {
    if e.Continue? && e.op in s.ops && e.newToken !in s.born && e.fault != FailBefore && (s.ops[e.op].LoggingIn? ||
         (s.ops[e.op].Rotating? && s.ops[e.op].token in s.live && s.ops[e.op].token in s.born)) {
      ContinueKeepsSinceThen(b, s, e.op, e.fault, e.newToken, e.expiresAt, user);
      hide Step;
    } else {
      assert Step(s, e).born == s.born;
      hide Inv, WithoutUser, CheckedBy;
    }
  }

  lemma {:induction false} RunKeepsSinceThen(b: State, s: State, events: seq<Event>, user: UserId)
    requires Inv(s) && SinceThen(b, s, user) && forall e | e in events :: !SetsPassword(e, user)
    ensures SinceThen(b, Run(s, events), user)
  {
    if events != [] {
      var front, e := events[..|events| - 1], events[|events| - 1];
      assert forall x | x in front :: x in events;
      RunKeepsInv(s, front);
      RunKeepsSinceThen(b, s, front, user);
      assert e in events;
      hide SinceThen, SetsPassword;
      StepKeepsSinceThen(b, Run(s, front), e, user);
    }
  }

  /** Which tokens rest on an old password after the password was last set: those of the logins made before, and of the
      login calls that had checked the password before and created their token after. A change of the password, other
      than a reset, leaves none of the first kind. */
  lemma RestsOnOldPasswordIff(before: seq<Event>, e: Event, user: UserId, after: seq<Event>, t: TokenId)
    requires e == ChangePassword(user) || e == ResetPassword(user)
    requires forall x | x in after :: x != ChangePassword(user) && x != ResetPassword(user)
    requires var s := Run(Empty, before + [e] + after); t in s.live && s.live[t].user == user
    ensures var b, s := Run(Empty, before), Run(Empty, before + [e] + after);
            && t in s.born && s.born[t].user == user
            && (RestsOnOldPassword(s, t) <==> s.born[t].era < PasswordSets(before + [e] + after, user))
            && (RestsOnOldPassword(s, t) <==>
                s.born[t].login in b.born || (s.born[t].call in b.ops && b.ops[s.born[t].call].LoggingIn?))
            && (e == ChangePassword(user) ==> s.born[t].login !in b.born)
  {
    EraCounts(before + [e] + after, user);
    var mid := before + [e];
    assert mid[..|before|] == before;
    RunKeepsInv(Empty, before);
    RunKeepsInv(Empty, mid);
    SetPasswordStartsIt(Run(Empty, before), e, user);
    RunSplit(Empty, mid, after);
    RunKeepsSinceThen(Run(Empty, before), Run(Empty, mid), after, user);
    RunKeepsInv(Empty, mid + after);
    if e == ChangePassword(user) { RevocationIsComplete(before, e, user, after, t); }
  }

  /** Every login call that is past its check when the password changes still creates a token, which rests on the old
      password. */
  lemma CheckedLoginOutlivesChange(events: seq<Event>, op: OpId, newToken: TokenId, expiresAt: int)
    requires op in Run(Empty, events).ops && Run(Empty, events).ops[op].LoggingIn? &&
             newToken !in Run(Empty, events).born
    ensures var s := Run(Empty, events);
            var s' := Step(Step(s, ChangePassword(s.ops[op].user)), Continue(op, Fine, newToken, expiresAt));
            s'.ops[op] == LoggedIn(newToken) && newToken in s'.live && newToken in s'.born &&
                RestsOnOldPassword(s', newToken)
  {
    RunKeepsInv(Empty, events);
    hide Run;
  }

  lemma TwoChecks(user: UserId, u: TokenId, expiresAt: int)
    ensures var pc := LoggingIn(user, 0);
            Run(Empty, [LoginCheck(0, user), LoginCheck(1, user)] + [Continue(1, Fine, u, expiresAt)]) ==
            State(map[u := Row(user, expiresAt)], map[], map[u := Birth(user, None, u, 1, 0)], [],
                  map[0 := pc, 1 := LoggedIn(u)])
  {
    var checks, enters := [LoginCheck(0, user), LoginCheck(1, user)], [Continue(1, Fine, u, expiresAt)];
    hide Run;
    var checked := State(map[], map[], map[], [], map[0 := LoggingIn(user, 0), 1 := LoggingIn(user, 0)]);
    RunTwo(Empty, LoginCheck(0, user), LoginCheck(1, user));
    assert Run(Empty, checks) == checked;
    RunSplit(Empty, checks, enters);
    RunOne(checked, Continue(1, Fine, u, expiresAt));
  }

  /** And such a call can be there: from the empty tables, a login that checked the old password is accepted after the
      change. A reset keeps even the tokens that are live already. */
  lemma OldPasswordLogsIn(user: UserId, t: TokenId, u: TokenId, expiresAt: int)
    requires t != u
    ensures var events := [LoginCheck(0, user), LoginCheck(1, user)] + [Continue(1, Fine, u, expiresAt)];
            var changed := Run(Run(Empty, events), [ChangePassword(user), Continue(0, Fine, t, expiresAt)]);
            var reset := Step(Run(Empty, events), ResetPassword(user));
            && changed.live.Keys == {t} && t in changed.born && RestsOnOldPassword(changed, t)
            && reset.live.Keys == {u} && u in reset.born && RestsOnOldPassword(reset, u)
  {
    hide Run;
    TwoChecks(user, u, expiresAt);
    var s := Run(Empty, [LoginCheck(0, user), LoginCheck(1, user)] + [Continue(1, Fine, u, expiresAt)]);
    assert WithoutUser(s.live, user, None) == map[];
    hide WithoutUser;
    RunTwo(s, ChangePassword(user), Continue(0, Fine, t, expiresAt));
  }

  // ─── Calls with nothing in between ─────────────────────

  /** What a refresh with nothing in between does to the table, and answers. */
  function Refreshed(live: map<TokenId, Row>, token: TokenId, now: int, newToken: TokenId,
                     expiresAt: int): (map<TokenId, Row>, Option<TokenId>) {
    if token !in live then (live, None)
    else if live[token].expiresAt < now then (live - {token}, None)
    else (Rotated(live, token, live[token].user, newToken, expiresAt), Some(newToken))
  }

  /** The two steps of a refresh, run back to back, are exactly that. */
  lemma RefreshAlone(s: State, op: OpId, token: TokenId, now: int, newToken: TokenId, expiresAt: int)
    requires Inv(s) && op !in s.ops && newToken !in s.born
    ensures var t := Step(Step(s, RefreshRead(op, token, now)), Continue(op, Fine, newToken, expiresAt));
            var (live, answer) := Refreshed(s.live, token, now, newToken, expiresAt);
            && t.live == live && t.ops == s.ops[op := match answer { case Some(n) => Issued(n) case None => Rejected }]
            && t.exchanged == (if answer.Some? then s.exchanged + [token] else s.exchanged)
            && (answer.Some? ==> token in s.born && t.born == s.born[newToken := s.born[token].(parent := Some(token))])
            && (answer.None? ==> t.born == s.born) && t.eras == s.eras
  {
    var read := ReadPc(s, token, now);
    var end := if Refreshed(s.live, token, now, newToken, expiresAt).1.Some? then Issued(newToken) else Rejected;
    assert s.ops[op := read][op := end] == s.ops[op := end];
  }

  /** The two steps of a login that got past its check, run back to back. */
  lemma LoginAlone(s: State, op: OpId, user: UserId, newToken: TokenId, expiresAt: int)
    requires op !in s.ops && newToken !in s.born
    ensures Step(Step(s, LoginCheck(op, user)), Continue(op, Fine, newToken, expiresAt)) ==
            SetPc(Entered(s, op, user, EraOf(s, user), newToken, expiresAt), op, LoggedIn(newToken))
  {
    var pc := LoggingIn(user, EraOf(s, user));
    assert s.ops[op := pc][op := LoggedIn(newToken)] == s.ops[op := LoggedIn(newToken)];
  }

  /** Revoking a session of one's own, run alone, removes it if it is there and does nothing otherwise. */
  lemma RevokeAlone(s: State, op: OpId, user: UserId, token: TokenId)
    requires op !in s.ops
    ensures var t := Step(Step(s, RevokeRead(op, user, token)), Continue(op, Fine, 0, 0));
            var own := token in s.live && s.live[token].user == user;
            t == SetPc(s.(live := if own then s.live - {token} else s.live), op, if own then Done else Rejected)
  {
    assert s.ops[op := Revoking(token)][op := Done] == s.ops[op := Done];
  }

  lemma RunOne(s: State, e: Event)
    ensures Run(s, [e]) == Step(s, e)
  {
    assert [e][..0] == [];
  }

  lemma RunTwo(s: State, first: Event, second: Event)
    ensures Run(s, [first, second]) == Step(Step(s, first), second)
  {
    RunOne(s, first);
    assert [first, second][..1] == [first];
  }
}
