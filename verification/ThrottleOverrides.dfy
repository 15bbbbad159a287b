/** Throttle overrides and their in-memory cache, which is looked at on every request. Times are milliseconds since
    1970; a call reads the clock several times, and the readings never go back. */
module ThrottleOverrides {
  import opened Prelude

  type RowId = nat

  datatype Row = Row(target: string, bypass: bool, multiplier: real, reason: Option<string>, expiresAt: Option<int>)

  datatype CachedRow = CachedRow(id: RowId, target: string, bypass: bool, multiplier: real, expiresAt: Option<int>)

  datatype Error = Conflict | NotFound

  type Table = map<RowId, Row>

  const ACTIVE_CACHE_TTL_MS: int := 30_000

  ghost predicate UniqueTargets(table: Table) {
    forall a, b | a in table && b in table && table[a].target == table[b].target :: a == b
  }

  function Select(id: RowId, row: Row): CachedRow {
    CachedRow(id, row.target, row.bypass, row.multiplier, row.expiresAt)
  }

  /** The query's filter and the reader's filter: they differ on a row that expires at this very millisecond. */
  predicate Lasts(row: Row, now: int) {
    row.expiresAt.None? || row.expiresAt.value > now
  }

  predicate Expired(expiresAt: Option<int>, now: int) {
    expiresAt.Some? && expiresAt.value < now
  }

  /** What a refresh at `now` puts in the cache. */
  function Loaded(table: Table, now: int): (cache: map<string, CachedRow>)
    requires UniqueTargets(table)
    ensures forall id | id in table && Lasts(table[id], now) :: table[id].target in cache &&
                                                                cache[table[id].target] == Select(id, table[id])
    ensures forall target | target in cache ::
              exists id :: id in table && table[id].target == target && Lasts(table[id], now) &&
                           cache[target] == Select(id, table[id])
  {
    map id | id in table && Lasts(table[id], now) :: table[id].target := Select(id, table[id])
  }

  function Lookup(cache: map<string, CachedRow>, target: string, now: int): Option<CachedRow> {
    if target in cache && !Expired(cache[target].expiresAt, now) then Some(cache[target]) else None
  }

  /** Asking the table itself, as if there were no cache. */
  ghost function Direct(table: Table, target: string, now: int): Option<CachedRow>
    requires UniqueTargets(table)
  {
    if id :| id in table && table[id].target == target &&
             !Expired(table[id].expiresAt, now) then Some(Select(id, table[id])) else None
  }

  lemma DirectIs(table: Table, id: RowId, now: int)
    requires UniqueTargets(table) && id in table
    ensures Direct(table, table[id].target, now) == if Expired(table[id].expiresAt, now) then None
            else Some(Select(id, table[id]))
  {
  }

  /** A cache loaded earlier answers like the table it was loaded from. The one exception is a row that expires exactly
      now, looked up in the very millisecond of the load: the load leaves it out, the table would still give it. */
  lemma CacheAgreesIff(table: Table, loadedAt: int, target: string, now: int)
    requires UniqueTargets(table) && loadedAt <= now
    ensures var cached, direct := Lookup(Loaded(table, loadedAt), target, now), Direct(table, target, now);
            && (cached == direct <==> !(direct.Some? && direct.value.expiresAt == Some(now) && loadedAt == now))
            && (cached != direct ==> cached == None)
  {
    var cache := Loaded(table, loadedAt);
    if id :| id in table && table[id].target == target {
      DirectIs(table, id, now);
      if target in cache {
        var x :| x in table && table[x].target == target && Lasts(table[x], loadedAt) &&
                 cache[target] == Select(x, table[x]);
        assert x == id;
      }
    }
  }

  class ThrottleOverridesService {
    var table: Table
    var cache: map<string, CachedRow>
    var cacheLoadedAt: int
    ghost var queriedAt: int
    ghost var clock: int

    /** A cache that is in use holds what the table, as it is now, had to offer when the cache was filled. */
    ghost predicate Valid()
      reads this
    {
      && UniqueTargets(table)
      && (cacheLoadedAt != 0 ==> queriedAt <= cacheLoadedAt <= clock && cache == Loaded(table, queriedAt))
    }

    constructor ()
      ensures Valid() && table == map[] && clock == 0
    {
      table, cache, cacheLoadedAt := map[], map[], 0;
      queriedAt, clock := 0, 0;
    }

    method Create(id: RowId, row: Row) returns (r: Result<(), Error>)
      requires Valid() && id !in table
      modifies this
      ensures Valid() && clock == old(clock)
      ensures r.Err? <==> exists x :: x in old(table) && old(table)[x].target == row.target
      ensures table == if r.Ok? then old(table)[id := row] else old(table)
    {
      if exists x | x in table :: table[x].target == row.target {
        return Err(Conflict);
      }
      table := table[id := row];
      InvalidateCache();
      return Ok(());
    }

    /** A field is written exactly when the request names it, an empty reason as none; the target of a row never
        changes. */
    method Update(id: RowId, bypass: Option<bool>, multiplier: Option<real>, reason: Option<Option<string>>,
                  expiresAt: Option<Option<int>>)
      returns (r: Result<(), Error>)
      requires Valid()
      modifies this
      ensures Valid() && clock == old(clock)
      ensures r.Ok? <==> id in old(table)
      ensures r.Err? ==> table == old(table)
      ensures r.Ok? ==> id in table && table == old(table)[id := table[id]] && table[id] == old(table)[id].(
                bypass := if bypass.Some? then bypass.value else old(table)[id].bypass,
                multiplier := if multiplier.Some? then multiplier.value else old(table)[id].multiplier,
                reason := if reason == Some(Some("")) then None else if reason.Some? then reason.value
                    else old(table)[id].reason,
                expiresAt := if expiresAt.Some? then expiresAt.value else old(table)[id].expiresAt)
    {
      if id !in table {
        return Err(NotFound);
      }
      var row := table[id];
      if bypass.Some? { row := row.(bypass := bypass.value); }
      if multiplier.Some? { row := row.(multiplier := multiplier.value); }
      if reason.Some? { row := row.(reason := if reason.value == Some("") then None else reason.value); }
      if expiresAt.Some? { row := row.(expiresAt := expiresAt.value); }
      table := table[id := row];
      InvalidateCache();
      return Ok(());
    }

    method Delete(id: RowId) returns (r: Result<(), Error>)
      requires Valid()
      modifies this
      ensures Valid() && clock == old(clock)
      ensures r.Ok? <==> id in old(table)
      ensures table == old(table) - {id}
    {
      if id !in table {
        return Err(NotFound);
      }
      table := table - {id};
      InvalidateCache();
      return Ok(());
    }

    method InvalidateCache()
      requires UniqueTargets(table)
      modifies `cacheLoadedAt
      ensures Valid()
    {
      cacheLoadedAt := 0;
    }

    /** `now`, `query` and `loaded` are the three clock readings. A cache that was dropped is reloaded because the clock
        is far beyond 30 s after 1970. */
    method RefreshCacheIfStale(now: int, query: int, loaded: int)
      requires Valid() && clock <= now <= query <= loaded && now >= ACTIVE_CACHE_TTL_MS
      modifies `cache, `cacheLoadedAt, `queriedAt, `clock
      ensures Valid() && clock == loaded && cacheLoadedAt != 0
      ensures if now - old(cacheLoadedAt) < 30_000
              then cache == old(cache) && cacheLoadedAt == old(cacheLoadedAt) && queriedAt == old(queriedAt)
              else cacheLoadedAt == loaded && queriedAt == query && forall id | id in table ::
                     (exists target :: target in cache && cache[target].id == id) <==>
                     table[id].expiresAt.None? || table[id].expiresAt.value > query
    {
      clock := loaded;
      if now - cacheLoadedAt < ACTIVE_CACHE_TTL_MS {
        return;
      }
      cache := Loaded(table, query);
      cacheLoadedAt := loaded;
      queriedAt := query;
    }

    /** In any sequence of calls: what is returned is the current row of the target and has not expired; and a current
        row that does not expire before or at this millisecond is returned. */
    method GetOverride(target: string, now: int, query: int, loaded: int, last: int) returns (r: Option<CachedRow>)
      requires Valid() && clock <= now <= query <= loaded <= last && now >= ACTIVE_CACHE_TTL_MS
      modifies `cache, `cacheLoadedAt, `queriedAt, `clock
      ensures Valid() && clock == last
      ensures r.Some? ==>
                && r == Direct(table, target, last) && r.value.id in table && table[r.value.id] == Row(target,
                    r.value.bypass, r.value.multiplier, table[r.value.id].reason, r.value.expiresAt)
                && r.value.target == target && (r.value.expiresAt.Some? ==> last <= r.value.expiresAt.value)
      ensures forall id | id in table && table[id].target == target &&
                          (table[id].expiresAt.Some? ==>
                             last < table[id].expiresAt.value || queriedAt < last == table[id].expiresAt.value) ::
              r.Some? && r.value.id == id
      ensures r != Direct(table, target, last) ==>
              r == None && Direct(table, target, last).value.expiresAt == Some(last) && queriedAt == last
    {
      RefreshCacheIfStale(now, query, loaded);
      clock := last;
      CacheAgreesIff(table, queriedAt, target, last);
      if target !in cache {
        return None;
      }
      var row := cache[target];
      if row.expiresAt.Some? && row.expiresAt.value < last {
        return None;
      }
      return Some(row);
    }
  }
}
