/** The authentication service, one call at a time, on the tables of accounts and refresh tokens.

    Every call is one schedule of the steps of the token protocol (the ghost `trace`), so what holds of every
    interleaving holds of every sequence of calls. Passwords are compared as values (hashing is not modelled), and the
    fresh token of a call is a parameter that was never issued before. */
module AuthService {
  import opened Prelude
  import opened RefreshTokens

  type Password = nat

  datatype Account = Account(password: Option<Password>, emailVerified: bool, active: bool)

  type Code = nat

  datatype Error = InvalidCredentials | EmailNotVerified | Deactivated | UserNotFound | CurrentPasswordRequired
    | InvalidToken | TokenNotFound | InvalidCode | CodeExpired

  class Service {
    var users: map<UserId, Account>
    var codes: map<(UserId, Code), int>
    var tokens: map<TokenId, Row>
    ghost var trace: seq<Event>
    ghost var calls: OpId

    /** The protocol after the steps taken so far. */
    ghost function Past(): State
      reads this
    {
      Run(Empty, trace)
    }

    /** The token table is the protocol's. Hence of the tokens that descend from one login one at most is accepted, and
        no token that was exchanged is. */
    ghost predicate Valid(): (v: bool)
      reads this
      ensures v ==> forall t, u | t in tokens && u in tokens ::
                      t in Past().born && u in Past().born && (Past().born[t].login == Past().born[u].login ==> t == u)
      ensures v ==> forall t | t in tokens :: t !in Past().exchanged && Past().born[t].user == tokens[t].user
    {
      RunKeepsInv(Empty, trace);
      Past().live == tokens && Settled(Past(), calls)
    }

    /** No login is between its check and its token, and the calls so far have ids below `n`. */
    static ghost predicate Settled(s: State, n: OpId) {
      forall op | op in s.ops :: op < n && !s.ops[op].LoggingIn?
    }

    /** `mailed` are the reset codes that users were sent, with the time at which each expires. */
    constructor (accounts: map<UserId, Account>, mailed: map<(UserId, Code), int>)
      ensures Valid() && users == accounts && codes == mailed && tokens == map[]
    {
      users, codes, tokens := accounts, mailed, map[];
      trace, calls := [], 0;
    }

    /** The steps of one call join the trace. */
    ghost method Log(events: seq<Event>)
      requires Run(Past(), events).live == tokens && Settled(Run(Past(), events), calls + 1)
      modifies `trace, `calls
      ensures Valid() && trace == old(trace) + events && Past() == Run(old(Past()), events)
    {
      RunSplit(Empty, trace, events);
      trace := trace + events;
      calls := calls + 1;
    }

    /** A token comes out exactly for a verified, active account and its password; it starts a line of its own. */
    method Login(user: UserId, password: Password, newToken: TokenId, expiresAt: int)
      returns (r: Result<TokenId, Error>)
      requires Valid() && newToken !in Past().born
      modifies `tokens, `trace, `calls
      ensures Valid() && old(trace) <= trace
      ensures r.Ok? <==> user in users && users[user] == Account(Some(password), true, true)
      ensures r == Err(InvalidCredentials) <==> user !in users || users[user].password != Some(password)
      ensures r == Err(EmailNotVerified) ==> !users[user].emailVerified
      ensures r == Err(Deactivated) ==> users[user].emailVerified && !users[user].active
      ensures r.Ok? ==> r.value == newToken && Past().born == old(Past().born)[
                            newToken := Birth(user, None, newToken, old(calls), EraOf(old(Past()), user))]
      ensures r.Err? ==> trace == old(trace)
      ensures tokens == if r.Ok? then old(tokens)[newToken := Row(user, expiresAt)] else old(tokens)
    {
      if user !in users || users[user].password.None? {
        return Err(InvalidCredentials);
      }
      var account := users[user];
      if account.password.value != password {
        return Err(InvalidCredentials);
      }
      if !account.emailVerified {
        return Err(EmailNotVerified);
      }
      if !account.active {
        return Err(Deactivated);
      }
      ghost var s := Past();
      ghost var events := [LoginCheck(calls, user), Continue(calls, Fine, newToken, expiresAt)];
      LoginAlone(s, calls, user, newToken, expiresAt);
      RunTwo(s, events[0], events[1]);
      hide Step, Run;
      tokens := tokens[newToken := Row(user, expiresAt)];
      Log(events);
      return Ok(newToken);
    }

    /** The two steps of a refresh join the trace. */
    ghost method LogRefresh(token: TokenId, now: int, newToken: TokenId, expiresAt: int)
      requires Settled(Past(), calls) && newToken !in Past().born
      requires tokens == Refreshed(Past().live, token, now, newToken, expiresAt).0
      modifies `trace, `calls
      ensures Valid() && old(trace) <= trace && token !in tokens
      ensures Refreshed(old(Past()).live, token, now, newToken, expiresAt).1.Some? ==>
                && token in Past().exchanged && newToken in Past().born && token in old(Past()).born
                && Past().born[newToken].login == old(Past()).born[token].login
    {
      ghost var s := Past();
      ghost var events := [RefreshRead(calls, token, now), Continue(calls, Fine, newToken, expiresAt)];
      RunKeepsInv(Empty, trace);
      RefreshAlone(s, calls, token, now, newToken, expiresAt);
      assert token in s.live ==> token != newToken;
      RunTwo(s, events[0], events[1]);
      hide Step, Run, Inv;
      Log(events);
    }

    /** A token is accepted once at most: exactly while it is live and not expired, it is replaced by a token of the
        same login; afterwards it is never live again. Every user keeps the number of live tokens then. */
    method Refresh(token: TokenId, now: int, newToken: TokenId, expiresAt: int) returns (r: Result<TokenId, Error>)
      requires Valid() && newToken !in Past().born
      modifies `tokens, `trace, `calls
      ensures Valid() && old(trace) <= trace
      ensures r.Ok? <==> token in old(tokens) && now <= old(tokens)[token].expiresAt
      ensures token in old(Past().exchanged) ==> r.Err?
      ensures token !in tokens && (r.Err? ==> r.error == InvalidToken && tokens == old(tokens) - {token})
      ensures r.Ok? ==>
                && r.value == newToken
                && tokens == (old(tokens) - {token})[newToken := Row(old(tokens)[token].user, expiresAt)]
                && token in Past().exchanged && newToken in Past().born
                && Past().born[newToken].login == old(Past()).born[token].login
                && forall user :: |OfUser(tokens, user)| == |OfUser(old(tokens), user)|
    {
      hide OfUser, Run;
      if token !in tokens || tokens[token].expiresAt < now {
        if token in tokens {
          tokens := tokens - {token};
        }
        LogRefresh(token, now, newToken, expiresAt);
        return Err(InvalidToken);
      }
      var record := tokens[token];
      RotatedCounts(tokens, token, newToken, expiresAt);
      tokens := tokens[newToken := Row(record.user, expiresAt)];
      tokens := tokens - {token};
      LogRefresh(token, now, newToken, expiresAt);
      return Ok(newToken);
    }

    /** On success no token of the user is left, and the trace says so: see OnlyLaterLogins for what that means
        later. */
    method ChangePassword(user: UserId, current: Option<Password>, replacement: Password)
      returns (r: Result<bool, Error>)
      requires Valid()
      modifies this
      ensures Valid() && old(trace) <= trace
      ensures r == Err(UserNotFound) <==> user !in old(users)
      ensures r.Ok? <==> user in old(users) && (old(users)[user].password.None? || current == old(users)[user].password)
      ensures r.Ok? ==> (r.value <==> old(users)[user].password.None?)
      ensures r == Err(CurrentPasswordRequired) ==> current.None?
      ensures r.Err? ==> users == old(users) && tokens == old(tokens) && trace == old(trace)
      ensures r.Ok? ==> users == old(users)[user := old(users)[user].(password := Some(replacement))]
      ensures r.Ok? ==> trace == old(trace) + [Event.ChangePassword(user)] && OfUser(tokens, user) == {}
      ensures forall t | t in old(tokens) && old(tokens)[t].user != user :: t in tokens && tokens[t] == old(tokens)[t]
      ensures forall t | t in tokens :: t in old(tokens)
    {
      if user !in users {
        return Err(UserNotFound);
      }
      var account := users[user];
      var firstTime := account.password.None?;
      if !firstTime {
        if current.None? {
          return Err(CurrentPasswordRequired);
        }
        if current.value != account.password.value {
          return Err(InvalidCredentials);
        }
      }
      ghost var s := Past();
      users := users[user := account.(password := Some(replacement))];
      tokens := WithoutUser(tokens, user, None);
      RunOne(s, Event.ChangePassword(user));
      Log([Event.ChangePassword(user)]);
      return Ok(firstTime);
    }

    /** A code works until it expires, and once: a reset uses up all the user's codes. No token is revoked. */
    method ResetPassword(user: UserId, code: Code, replacement: Password, now: int) returns (r: Result<(), Error>)
      requires Valid()
      modifies this
      ensures Valid() && tokens == old(tokens)
      ensures r.Ok? <==> user in old(users) && (user, code) in old(codes) && now <= old(codes)[(user, code)]
      ensures r == Err(UserNotFound) <==> user !in old(users)
      ensures r == Err(CodeExpired) <==> user in old(users) && (user, code) in old(codes) &&
                                         old(codes)[(user, code)] < now
      ensures users == if r.Ok? then old(users)[user := old(users)[user].(password := Some(replacement))]
              else old(users)
      ensures forall k | k in codes :: k in old(codes) && codes[k] == old(codes)[k]
      ensures forall k | k in old(codes) :: k in codes <==>
                if r.Ok? then k.0 != user else !(r == Err(CodeExpired) && k == (user, code))
      ensures trace == old(trace) + if r.Ok? then [Event.ResetPassword(user)] else []
    {
      if user !in users {
        return Err(UserNotFound);
      }
      if (user, code) !in codes {
        return Err(InvalidCode);
      }
      if codes[(user, code)] < now {
        codes := codes - {(user, code)};
        return Err(CodeExpired);
      }
      ghost var s := Past();
      users := users[user := users[user].(password := Some(replacement))];
      codes := map k | k in codes && k.0 != user :: codes[k];
      RunOne(s, Event.ResetPassword(user));
      Log([Event.ResetPassword(user)]);
      return Ok(());
    }

    method RevokeAllMySessions(user: UserId) returns (count: nat)
      requires Valid()
      modifies `tokens, `trace, `calls
      ensures Valid() && trace == old(trace) + [RevokeAll(user)]
      ensures tokens == WithoutUser(old(tokens), user, None) && OfUser(tokens, user) == {}
      ensures forall t :: t in tokens <==> t in old(tokens) && old(tokens)[t].user != user
      ensures forall t | t in tokens :: tokens[t] == old(tokens)[t]
      ensures count == |set t | t in old(tokens) && old(tokens)[t].user == user|
    {
      ghost var s := Past();
      assert OfUser(tokens, user) == set t | t in tokens && tokens[t].user == user;
      count := |OfUser(tokens, user)|;
      tokens := WithoutUser(tokens, user, None);
      RunOne(s, RevokeAll(user));
      Log([RevokeAll(user)]);
    }

    /** The token is not live afterwards and every other one is as it was. */
    method Logout(token: TokenId)
      requires Valid()
      modifies `tokens, `trace, `calls
      ensures Valid() && trace == old(trace) + [Event.Logout(token)] && Past().exchanged == old(Past().exchanged)
      ensures token !in tokens && forall t | t != token :: (t in tokens <==> t in old(tokens)) &&
                                                           (t in tokens ==> tokens[t] == old(tokens)[t])
    {
      ghost var s := Past();
      tokens := tokens - {token};
      RunOne(s, Event.Logout(token));
      Log([Event.Logout(token)]);
    }

    /** Answers whether the session that is gone was the caller's current one. */
    method RevokeMySession(user: UserId, session: TokenId, current: Option<TokenId>) returns (r: Result<bool, Error>)
      requires Valid()
      modifies `tokens, `trace, `calls
      ensures Valid() && old(trace) <= trace
      ensures r.Ok? <==> session in old(tokens) && old(tokens)[session].user == user
      ensures r.Ok? ==> (r.value <==> current == Some(session))
      ensures tokens == if r.Ok? then old(tokens) - {session} else old(tokens)
    {
      ghost var s := Past();
      ghost var events := [RevokeRead(calls, user, session), Continue(calls, Fine, 0, 0)];
      RevokeAlone(s, calls, user, session);
      RunTwo(s, events[0], events[1]);
      hide Step, Run;
      if session !in tokens || tokens[session].user != user {
        Log(events);
        return Err(TokenNotFound);
      }
      tokens := tokens - {session};
      Log(events);
      return Ok(current == Some(session));
    }

    /** Of the user's tokens the current one stays; the others are counted. */
    method RevokeOtherSessions(user: UserId, current: Option<TokenId>) returns (count: nat)
      requires Valid()
      modifies `tokens, `trace, `calls
      ensures Valid() && trace == old(trace) + [RevokeOthers(user, current)]
      ensures tokens == WithoutUser(old(tokens), user, current)
      ensures forall t :: t in tokens <==> t in old(tokens) && (old(tokens)[t].user != user || current == Some(t))
      ensures forall t | t in tokens :: tokens[t] == old(tokens)[t]
      ensures count == |set t | t in old(tokens) && old(tokens)[t].user == user && current != Some(t)|
    {
      ghost var s := Past();
      RunOne(s, RevokeOthers(user, current));
      assert Step(s, RevokeOthers(user, current)) == s.(live := WithoutUser(s.live, user, current));
      hide Step, Run;
      FewerOfUser(tokens, user, current);
      var others := OfUser(tokens, user) - OfUser(WithoutUser(tokens, user, current), user);
      assert others == set t | t in tokens && tokens[t].user == user && current != Some(t);
      count := |others|;
      tokens := WithoutUser(tokens, user, current);
      Log([RevokeOthers(user, current)]);
    }
  }

  lemma FewerOfUser(live: map<TokenId, Row>, user: UserId, current: Option<TokenId>)
    ensures var was, left := OfUser(live, user), OfUser(WithoutUser(live, user, current), user);
            left <= was && |was - left| == |was| - |left|
  {
    var was, left := OfUser(live, user), OfUser(WithoutUser(live, user, current), user);
    assert was == left + (was - left);
  }

  lemma RotatedCounts(live: map<TokenId, Row>, token: TokenId, newToken: TokenId, expiresAt: int)
    requires token in live && newToken !in live
    ensures var rotated := Rotated(live, token, live[token].user, newToken, expiresAt);
            && rotated == (live - {token})[newToken := Row(live[token].user, expiresAt)]
            && forall user :: |OfUser(rotated, user)| == |OfUser(live, user)|
  {
    forall user
      ensures |OfUser(Rotated(live, token, live[token].user, newToken, expiresAt), user)| == |OfUser(live, user)|
    {
      RotatedCount(live, token, newToken, expiresAt, user);
    }
  }

  /** Whatever is called after the user's tokens were revoked, every token of the user that is accepted descends from a
      login that came later. */
  lemma OnlyLaterLogins(service: Service, before: seq<Event>, e: Event, user: UserId, t: TokenId)
    requires service.Valid() && (e == RevokeAll(user) || e == Event.ChangePassword(user))
    requires before + [e] <= service.trace
    requires t in service.tokens && service.tokens[t].user == user
    ensures t in service.Past().born && service.Past().born[t].login !in Run(Empty, before).born
  {
    var after := service.trace[|before| + 1..];
    assert service.trace == before + [e] + after;
    RevocationIsComplete(before, e, user, after, t);
  }

  /** While calls do not overlap, a change of the password leaves no accepted token that rests on an old one; that holds
      until a reset, which leaves just the tokens of the logins before it. */
  lemma OldPasswordIff(service: Service, before: seq<Event>, e: Event, user: UserId, t: TokenId)
    requires service.Valid() && (e == Event.ChangePassword(user) || e == Event.ResetPassword(user))
    requires before + [e] <= service.trace
    requires Service.Settled(Run(Empty, before), service.calls)
    requires var after := service.trace[|before| + 1..];
             forall x | x in after :: x != Event.ChangePassword(user) && x != Event.ResetPassword(user)
    requires t in service.tokens && service.tokens[t].user == user
    ensures t in service.Past().born
    ensures RestsOnOldPassword(service.Past(), t) <==>
            e == ResetPassword(user) && service.Past().born[t].login in Run(Empty, before).born
  {
    hide Run;
    var after := service.trace[|before| + 1..];
    assert service.trace == before + [e] + after;
    RestsOnOldPasswordIff(before, e, user, after, t);
  }
}
