/** The tag-indexed cache: values under `cache:v1:` keys, one member list per tag under `tag:v1:` keys, in one store
    whose entries expire. Times are milliseconds. */
module CacheTags {
  import opened Prelude
  import opened Sequences

  /** What a loader yields; the cache cannot tell a stored null from a miss. */
  datatype Loaded = Null | Data(text: string)

  datatype Entry = Value(value: Loaded, expiresAt: Option<int>) | Members(keys: seq<string>, expiresAt: Option<int>)

  type Store = map<string, Entry>

  const VALUE_PREFIX: string := "cache:v1:"
  const TAG_PREFIX: string := "tag:v1:"

  function NamespacedKey(key: string): string {
    VALUE_PREFIX + key
  }

  function TagKey(tag: string): string {
    TAG_PREFIX + tag
  }

  /** No value key is a tag key, and both name what they stand for. */
  lemma KeysApart(key: string, other: string)
    ensures NamespacedKey(key) != TagKey(other)
    ensures NamespacedKey(key) == NamespacedKey(other) ==> key == other
    ensures TagKey(key) == TagKey(other) ==> key == other
  {
    assert NamespacedKey(key)[0] == 'c' && TagKey(other)[0] == 't';
    assert NamespacedKey(key)[|VALUE_PREFIX|..] == key && NamespacedKey(other)[|VALUE_PREFIX|..] == other;
    assert TagKey(key)[|TAG_PREFIX|..] == key && TagKey(other)[|TAG_PREFIX|..] == other;
  }

  lemma KeyTexts(key: string)
    ensures NamespacedKey(key) == "cache:v1:" + key && TagKey(key) == "tag:v1:" + key
  {
  }

  // ─── The store ─────────────────────────────────────────

  /** An entry is served until the clock is past its expiry; an entry stored with TTL zero never expires. */
  predicate Live(e: Entry, now: int) {
    e.expiresAt.None? || now <= e.expiresAt.value
  }

  function ExpiresAt(now: int, ttlMs: nat): Option<int> {
    if ttlMs == 0 then None else Some(now + ttlMs)
  }

  function Hit(store: Store, cacheKey: string, now: int): Option<Loaded> {
    if cacheKey in store && Live(store[cacheKey], now) && store[cacheKey].Value? && store[cacheKey].value != Null
    then Some(store[cacheKey].value)
    else None
  }

  function MembersOf(store: Store, tag: string, now: int): seq<string> {
    var tk := TagKey(tag);
    if tk in store && Live(store[tk], now) && store[tk].Members? then store[tk].keys else []
  }

  /** The tag's list is live and names the key: what invalidating the tag can see. */
  predicate Listed(store: Store, tag: string, cacheKey: string, now: int) {
    cacheKey in MembersOf(store, tag, now)
  }

  function AddTag(store: Store, tag: string, cacheKey: string, ttlMs: nat, now: int): Store {
    if Listed(store, tag, cacheKey, now) then store
    else store[TagKey(tag) := Members(MembersOf(store, tag, now) + [cacheKey], ExpiresAt(now, ttlMs * 2))]
  }

  /** How the backend treats one read-through: whether the read throws, whether the write of the value is lost, and the
      tags whose lists are then rewritten. A value that was written by a call that threw reaches no list. */
  datatype Backend = Backend(readFails: bool, valueLost: bool, reached: set<string>)

  function AddTags(store: Store, tags: seq<string>, reached: set<string>, cacheKey: string, ttlMs: nat,
                   now: int): Store {
    if tags == [] then store
    else
      var front, t := AddTags(store, tags[..|tags| - 1], reached, cacheKey, ttlMs, now), tags[|tags| - 1];
      if t in reached then AddTag(front, t, cacheKey, ttlMs, now) else front
  }

  function Stored(store: Store, cacheKey: string, value: Loaded, tags: seq<string>, b: Backend, ttlMs: nat,
                  now: int): Store {
    if b.valueLost then store
    else AddTags(store[cacheKey := Value(value, ExpiresAt(now, ttlMs))], tags, b.reached, cacheKey, ttlMs, now)
  }

  /** The read-through, which reads at `now` and stores what it loaded at `storedAt`: the answer and the store it
      leaves. */
  function WrappedLate(store: Store, key: string, tags: seq<string>, loaded: Loaded, b: Backend, ttlMs: nat, now: int,
                       storedAt: int)
    : (Store, Loaded)
  {
    var hit := Hit(store, NamespacedKey(key), now);
    if b.readFails then (store, loaded)
    else if hit.Some? then (store, hit.value)
    else (Stored(store, NamespacedKey(key), loaded, tags, b, ttlMs, storedAt), loaded)
  }

  function Wrapped(store: Store, key: string, tags: seq<string>, loaded: Loaded, b: Backend, ttlMs: nat,
                   now: int): (Store, Loaded) {
    WrappedLate(store, key, tags, loaded, b, ttlMs, now, now)
  }

  /** How the backend treats the invalidation of one tag: whether the read of its list throws, which members it fails to
      delete, and whether it fails to delete the list. */
  datatype Outage = Outage(readFails: bool, kept: set<string>, listKept: bool)

  const CLEAN: Outage := Outage(false, {}, false)

  function Invalidated(store: Store, tag: string, o: Outage, now: int): Store {
    if o.readFails then store
    else store - (Elements(MembersOf(store, tag, now)) - o.kept) - (if o.listKept then {} else {TagKey(tag)})
  }

  function InvalidatedAll(store: Store, tags: seq<string>, outages: string -> Outage, now: int): Store {
    if tags == [] then store
    else
      var t := tags[|tags| - 1];
      Invalidated(InvalidatedAll(store, tags[..|tags| - 1], outages, now), t, outages(t), now)
  }

  /** The invalidation of the tag finds the key and deletes it. */
  predicate Removes(store: Store, tag: string, o: Outage, cacheKey: string, now: int) {
    Listed(store, tag, cacheKey, now) && !o.readFails && cacheKey !in o.kept
  }

  predicate KeepsList(o: Outage) {
    o.readFails || o.listKept
  }

  /** Value keys hold values, tag keys hold lists of value keys, and nothing else is there. */
  ghost predicate Typed(store: Store) {
    forall k | k in store ::
      if store[k].Value? then VALUE_PREFIX <= k
      else TAG_PREFIX <= k && forall m | m in store[k].keys :: VALUE_PREFIX <= m
  }

  lemma PrefixesApart(k: string)
    ensures !(VALUE_PREFIX <= k && TAG_PREFIX <= k)
    ensures VALUE_PREFIX <= k ==> k == NamespacedKey(k[|VALUE_PREFIX|..])
    ensures TAG_PREFIX <= k ==> k == TagKey(k[|TAG_PREFIX|..])
  {
    if VALUE_PREFIX <= k {
      assert k[0] == VALUE_PREFIX[0];
    }
    if TAG_PREFIX <= k {
      assert k[0] == TAG_PREFIX[0];
    }
  }

  // ─── What one operation does ───────────────────────────

  /** Listing a key under tags touches the member lists alone: of each tag reached that did not list the key yet, the
      list is rewritten with the key last and lives twice the TTL from now; every other list stays, expiry included. */
  lemma {:induction false} AddTagsLists(store: Store, tags: seq<string>, reached: set<string>, cacheKey: string,
                                        ttlMs: nat, now: int)
    requires Typed(store) && VALUE_PREFIX <= cacheKey
    ensures var after := AddTags(store, tags, reached, cacheKey, ttlMs, now);
            && Typed(after) && SameValues(store, after)
            && forall t :: ListAfter(store, after, t, Elements(tags) * reached, cacheKey, ttlMs, now)
  {
    if tags != [] {
      var front, t := tags[..|tags| - 1], tags[|tags| - 1];
      assert forall x :: x in tags <==> x in front || x == t;
      var was := AddTags(store, front, reached, cacheKey, ttlMs, now);
      AddTagsLists(store, front, reached, cacheKey, ttlMs, now);
      if t in reached {
        AddTagLists(was, t, cacheKey, ttlMs, now);
        forall x
          ensures ListAfter(store, AddTag(was, t, cacheKey, ttlMs, now), x, Elements(tags) * reached, cacheKey, ttlMs,
                            now)
        {
          assert ListAfter(store, was, x, Elements(front) * reached, cacheKey, ttlMs, now);
          assert ListAfter(was, AddTag(was, t, cacheKey, ttlMs, now), x, {t}, cacheKey, ttlMs, now);
        }
      } else {
        assert Elements(tags) * reached == Elements(front) * reached;
      }
    }
  }

  ghost predicate SameValues(store: Store, after: Store) {
    forall k | VALUE_PREFIX <= k :: (k in after <==> k in store) && (k in after ==> after[k] == store[k])
  }

  ghost predicate ListAfter(store: Store, after: Store, tag: string, reached: set<string>, cacheKey: string, ttlMs: nat,
                            now: int) {
    var tk := TagKey(tag);
    if tag in reached && !Listed(store, tag, cacheKey, now)
    then tk in after && after[tk] == Members(MembersOf(store, tag, now) + [cacheKey], ExpiresAt(now, ttlMs * 2))
    else (tk in after <==> tk in store) && (tk in after ==> after[tk] == store[tk])
  }

  lemma AddTagLists(store: Store, tag: string, cacheKey: string, ttlMs: nat, now: int)
    requires Typed(store) && VALUE_PREFIX <= cacheKey
    ensures var after := AddTag(store, tag, cacheKey, ttlMs, now);
            && Typed(after) && SameValues(store, after)
            && forall t :: ListAfter(store, after, t, {tag}, cacheKey, ttlMs, now)
  {
    PrefixesApart(TagKey(tag));
    forall t ensures TagKey(t) == TagKey(tag) ==> t == tag { KeysApart(t, tag); }
  }

  /** What survives invalidating some tags, for any store, clock and backend: exactly the values that none of the tags
      lists at that moment or whose deletion fails; and exactly the lists of other tags or whose deletion fails. */
  lemma {:induction false} SurvivesIff(store: Store, tags: seq<string>, outages: string -> Outage, now: int,
                                       key: string)
    requires Typed(store)
    ensures var after := InvalidatedAll(store, tags, outages, now);
            var k := NamespacedKey(key);
            && Typed(after)
            && (k in after <==> k in store && forall t | t in tags :: !Removes(store, t, outages(t), k, now))
            && (k in after ==> after[k] == store[k])
            && (forall t | t !in tags || KeepsList(outages(t)) :: SameAt(store, after, TagKey(t)))
            && (forall t | t in tags && !KeepsList(outages(t)) :: TagKey(t) !in after)
  {
    if tags != [] {
      var front, t := tags[..|tags| - 1], tags[|tags| - 1];
      SurvivesIff(store, front, outages, now, key);
      InvalidatedOne(InvalidatedAll(store, front, outages, now), t, outages(t), now, key);
      assert forall x :: x in tags <==> x in front || x == t;
    }
  }

  predicate SameAt(store: Store, after: Store, k: string) {
    (k in after <==> k in store) && (k in after ==> after[k] == store[k])
  }

  lemma InvalidatedOne(store: Store, tag: string, o: Outage, now: int, key: string)
    requires Typed(store)
    ensures var after := Invalidated(store, tag, o, now);
            var k := NamespacedKey(key);
            && Typed(after)
            && (k in after <==> k in store && !Removes(store, tag, o, k, now))
            && (k in after ==> after[k] == store[k])
            && (forall t | t != tag || KeepsList(o) :: SameAt(store, after, TagKey(t)))
            && (!KeepsList(o) ==> TagKey(tag) !in after)
  {
    KeysApart(key, tag);
    forall t | t != tag || KeepsList(o) ensures SameAt(store, Invalidated(store, tag, o, now), TagKey(t)) {
      KeysApart(t, tag);
      PrefixesApart(TagKey(t));
    }
  }

  // ─── The cache against its source ──────────────────────

  /** A source of truth, and the tags the callers of `wrap` always pass for a key. */
  datatype World = World(store: Store, source: string -> Loaded)

  /** `Fill` is the storing half of a read-through whose miss and load lie further back. */
  datatype Op =
    | Use(key: string, b: Backend, ttlMs: nat, now: int)
    | Fill(key: string, loaded: Loaded, b: Backend, ttlMs: nat, now: int)
    | Change(source: string -> Loaded, tags: seq<string>, outages: string -> Outage, now: int)

  function Apply(w: World, tagsFor: string -> seq<string>, op: Op): World {
    match op
    case Use(key, b, ttlMs, now) => w.(store := Wrapped(w.store, key, tagsFor(key), w.source(key), b, ttlMs, now).0)
    case Fill(key, loaded, b, ttlMs, now) =>
        w.(store := Stored(w.store, NamespacedKey(key), loaded, tagsFor(key), b, ttlMs, now))
    case Change(source, tags, outages, now) => World(InvalidatedAll(w.store, tags, outages, now), source)
  }

  function ApplyAll(w: World, tagsFor: string -> seq<string>, ops: seq<Op>): World {
    if ops == [] then w else Apply(ApplyAll(w, tagsFor, ops[..|ops| - 1]), tagsFor, ops[|ops| - 1])
  }

  /** A change invalidates a tag of every key whose value it changes, and the backend does not fail: not on that tag and
      key, and on no tag so that its list goes and a member stays. */
  ghost predicate Disciplined(w: World, tagsFor: string -> seq<string>, op: Op) {
    op.Change? ==>
      && (forall key {:trigger op.source(key)} | op.source(key) != w.source(key) ::
            exists t :: t in tagsFor(key) && t in op.tags && !op.outages(t).readFails &&
                        NamespacedKey(key) !in op.outages(t).kept)
      && (forall t | t in op.tags :: KeepsList(op.outages(t)) || op.outages(t).kept == {})
  }

  // ─── Coherence with a clock ────────────────────────────

  predicate NoLater(a: Option<int>, b: Option<int>) {
    b.None? || (a.Some? && a.value <= b.value)
  }

  /** The tag's list names the key, and lives as long as the key's entry. */
  predicate Outlived(store: Store, tag: string, cacheKey: string, now: int) {
    Listed(store, tag, cacheKey, now) && cacheKey in store &&
    NoLater(store[cacheKey].expiresAt, store[TagKey(tag)].expiresAt)
  }

  /** Every served value is the source's, and the lists of all its key's tags outlive it. */
  ghost predicate Covered(w: World, tagsFor: string -> seq<string>, now: int) {
    Typed(w.store) &&
    forall key {:trigger NamespacedKey(key)} | Hit(w.store, NamespacedKey(key), now).Some? ::
      && Hit(w.store, NamespacedKey(key), now).value == w.source(key)
      && forall t | t in tagsFor(key) :: Outlived(w.store, t, NamespacedKey(key), now)
  }

  /** The value that an operation stores, if it stores. */
  function Put(w: World, op: Op): Loaded
    requires !op.Change?
  {
    if op.Use? then w.source(op.key) else op.loaded
  }

  predicate Stores(w: World, op: Op) {
    !op.Change? && !op.b.valueLost && (op.Use? ==> !op.b.readFails && Hit(w.store, NamespacedKey(op.key), op.now).None?)
  }

  /** What is stored is still the source's value or is never served, and every list lasts long enough. */
  ghost predicate Timely(w: World, tagsFor: string -> seq<string>, op: Op)
    requires !op.Change?
  {
    Put(w, op) in {Null, w.source(op.key)} && forall t | t in tagsFor(op.key) :: TimelyList(w, tagsFor, op, t)
  }

  /** A list that names the key already is not renewed, so it must last as long as the new value; a list rewritten now
      lasts twice the new TTL, so no other value under its tag may last longer; and a list that is not reached fails a
      value that will be served. */
  ghost predicate TimelyList(w: World, tagsFor: string -> seq<string>, op: Op, t: string)
    requires !op.Change?
  {
    if Listed(w.store, t, NamespacedKey(op.key), op.now) then
      Put(w, op) == Null || NoLater(ExpiresAt(op.now, op.ttlMs), w.store[TagKey(t)].expiresAt)
    else if t in op.b.reached then
      forall other {:trigger NamespacedKey(other)} |
        other != op.key && Hit(w.store, NamespacedKey(other), op.now).Some? && t in tagsFor(other) ::
        NoLater(w.store[NamespacedKey(other)].expiresAt, ExpiresAt(op.now, op.ttlMs * 2))
    else Put(w, op) == Null
  }

  /** Storing keeps the cover exactly when it is timely; a read-through that does not store always keeps it. */
  lemma StoreKeepsCoverIff(w: World, tagsFor: string -> seq<string>, op: Op)
    requires !op.Change? && Covered(w, tagsFor, op.now)
    ensures Covered(Apply(w, tagsFor, op), tagsFor, op.now) <==> (Stores(w, op) ==> Timely(w, tagsFor, op))
  {
    if Stores(w, op) {
      if Timely(w, tagsFor, op) { TimelyKeepsCover(w, tagsFor, op); }
      if Covered(Apply(w, tagsFor, op), tagsFor, op.now) { CoverWasTimely(w, tagsFor, op); }
    }
  }

  /** What a storing read-through leaves: its own value, the other values as they were, and the lists it rewrites. */
  lemma StoredIs(w: World, tagsFor: string -> seq<string>, op: Op)
    requires Stores(w, op) && Typed(w.store)
    ensures var k, after := NamespacedKey(op.key), Apply(w, tagsFor, op).store;
            && Typed(after) && k in after && after[k] == Value(Put(w, op), ExpiresAt(op.now, op.ttlMs))
            && (forall other :: other != op.key ==> SameAt(w.store, after, NamespacedKey(other)))
            && (forall t :: ListAfter(w.store, after, t, Elements(tagsFor(op.key)) * op.b.reached, k, op.ttlMs, op.now))
  {
    var k := NamespacedKey(op.key);
    var put := w.store[k := Value(Put(w, op), ExpiresAt(op.now, op.ttlMs))];
    AddTagsLists(put, tagsFor(op.key), op.b.reached, k, op.ttlMs, op.now);
    forall other ensures other != op.key ==> NamespacedKey(other) != k { KeysApart(other, op.key); }
    forall t ensures TagKey(t) != k { KeysApart(op.key, t); }
    var after := Apply(w, tagsFor, op).store;
    forall t ensures ListAfter(w.store, after, t, Elements(tagsFor(op.key)) * op.b.reached, k, op.ttlMs, op.now) {
      assert ListAfter(put, after, t, Elements(tagsFor(op.key)) * op.b.reached, k, op.ttlMs, op.now);
    }
  }

  lemma TimelyKeepsCover(w: World, tagsFor: string -> seq<string>, op: Op)
    requires Stores(w, op) && Covered(w, tagsFor, op.now) && Timely(w, tagsFor, op)
    ensures Covered(Apply(w, tagsFor, op), tagsFor, op.now)
  {
    var after := Apply(w, tagsFor, op).store;
    StoredIs(w, tagsFor, op);
    assert Apply(w, tagsFor, op).source == w.source;
    hide Apply;
    forall key, t | Hit(after, NamespacedKey(key), op.now).Some? && t in tagsFor(key)
      ensures Outlived(after, t, NamespacedKey(key), op.now)
    {
      assert ListAfter(w.store, after, t, Elements(tagsFor(op.key)) * op.b.reached, NamespacedKey(op.key), op.ttlMs,
                       op.now);
      if key != op.key {
        assert SameAt(w.store, after, NamespacedKey(key));
        assert Outlived(w.store, t, NamespacedKey(key), op.now);
      }
    }
    forall key | Hit(after, NamespacedKey(key), op.now).Some?
      ensures Hit(after, NamespacedKey(key), op.now).value == w.source(key)
    {
      if key != op.key { assert SameAt(w.store, after, NamespacedKey(key)); }
    }
  }

  lemma CoverWasTimely(w: World, tagsFor: string -> seq<string>, op: Op)
    requires Stores(w, op) && Covered(w, tagsFor, op.now) && Covered(Apply(w, tagsFor, op), tagsFor, op.now)
    ensures Timely(w, tagsFor, op)
  {
    var k, after := NamespacedKey(op.key), Apply(w, tagsFor, op).store;
    StoredIs(w, tagsFor, op);
    hide Apply, Typed;
    forall t | t in tagsFor(op.key) ensures TimelyList(w, tagsFor, op, t) {
      assert ListAfter(w.store, after, t, Elements(tagsFor(op.key)) * op.b.reached, k, op.ttlMs, op.now);
      assert Put(w, op) != Null ==> Outlived(after, t, k, op.now);
      if !Listed(w.store, t, k, op.now) && t in op.b.reached {
        forall other | other != op.key && Hit(w.store, NamespacedKey(other), op.now).Some? && t in tagsFor(other)
          ensures NoLater(w.store[NamespacedKey(other)].expiresAt, ExpiresAt(op.now, op.ttlMs * 2))
        {
          assert SameAt(w.store, after, NamespacedKey(other));
          assert Outlived(after, t, NamespacedKey(other), op.now);
        }
      }
    }
  }

  /** What is served after a change was not deleted by it. */
  ghost predicate Survives(w: World, op: Op, key: string)
    requires op.Change?
  {
    && Hit(w.store, NamespacedKey(key), op.now).Some?
    && forall t | t in op.tags :: !Removes(w.store, t, op.outages(t), NamespacedKey(key), op.now)
  }

  /** A change keeps the cover exactly when what it leaves is still the source's, and it drops no list of that. */
  lemma ChangeKeepsCoverIff(w: World, tagsFor: string -> seq<string>, op: Op)
    requires op.Change? && Covered(w, tagsFor, op.now)
    ensures Covered(Apply(w, tagsFor, op), tagsFor, op.now) <==>
            forall key | Survives(w, op, key) ::
              op.source(key) == w.source(key) && forall t | t in tagsFor(key) && t in op.tags ::
                  KeepsList(op.outages(t))
  {
    var after := InvalidatedAll(w.store, op.tags, op.outages, op.now);
    assert Apply(w, tagsFor, op) == World(after, op.source);
    SurvivesIff(w.store, op.tags, op.outages, op.now, "");
    forall key
      ensures Hit(after, NamespacedKey(key), op.now) ==
              if Survives(w, op, key) then Hit(w.store, NamespacedKey(key), op.now) else None
      ensures NamespacedKey(key) in after ==> SameAt(w.store, after, NamespacedKey(key))
    {
      SurvivesIff(w.store, op.tags, op.outages, op.now, key);
    }
    forall key, t | Survives(w, op, key) && t in tagsFor(key)
      ensures Outlived(after, t, NamespacedKey(key), op.now) <==> t !in op.tags || KeepsList(op.outages(t))
    {
      assert Outlived(w.store, t, NamespacedKey(key), op.now);
      assert t !in op.tags || KeepsList(op.outages(t)) ==> SameAt(w.store, after, TagKey(t));
    }
    hide InvalidatedAll, Removes;
    CoverIs(w, World(after, op.source), tagsFor, op);
  }

  lemma CoverIs(w: World, w': World, tagsFor: string -> seq<string>, op: Op)
    requires op.Change? && Covered(w, tagsFor, op.now) && Typed(w'.store)
    requires forall key :: Hit(w'.store, NamespacedKey(key), op.now) ==
                           if Survives(w, op, key) then Hit(w.store, NamespacedKey(key), op.now) else None
    requires forall key, t | Survives(w, op, key) && t in tagsFor(key) ::
               Outlived(w'.store, t, NamespacedKey(key), op.now) <==> t !in op.tags || KeepsList(op.outages(t))
    ensures Covered(w', tagsFor, op.now) <==>
            forall key | Survives(w, op, key) ::
              w'.source(key) == w.source(key) && forall t | t in tagsFor(key) && t in op.tags ::
                  KeepsList(op.outages(t))
  {
    hide Survives, Outlived, Hit, Typed;
    forall key {:trigger Survives(w, op, key)} | Survives(w, op, key)
      ensures Hit(w.store, NamespacedKey(key), op.now) == Some(w.source(key))
    {
      assert Hit(w.store, NamespacedKey(key), op.now).Some? by { SurvivorIsHit(w, op, key); }
    }
  }

  lemma SurvivorIsHit(w: World, op: Op, key: string)
    requires op.Change? && Survives(w, op, key)
    ensures Hit(w.store, NamespacedKey(key), op.now).Some?
  {
  }

  lemma ChangeKeepsCover(w: World, tagsFor: string -> seq<string>, op: Op)
    requires op.Change? && Covered(w, tagsFor, op.now) && Disciplined(w, tagsFor, op)
    ensures Covered(Apply(w, tagsFor, op), tagsFor, op.now)
  {
    forall key | Survives(w, op, key)
      ensures op.source(key) == w.source(key)
      ensures forall t | t in tagsFor(key) && t in op.tags :: KeepsList(op.outages(t))
    {
      forall t | t in tagsFor(key) ensures Listed(w.store, t, NamespacedKey(key), op.now) {
        assert Outlived(w.store, t, NamespacedKey(key), op.now);
      }
    }
    hide Covered, Disciplined, Survives, Apply;
    ChangeKeepsCoverIff(w, tagsFor, op);
  }

  lemma CoverLater(w: World, tagsFor: string -> seq<string>, now: int, later: int)
    requires Covered(w, tagsFor, now) && now <= later
    ensures Covered(w, tagsFor, later)
  {
    forall key, t | Hit(w.store, NamespacedKey(key), later).Some? && t in tagsFor(key)
      ensures Outlived(w.store, t, NamespacedKey(key), later)
    {
      assert Outlived(w.store, t, NamespacedKey(key), now);
    }
  }

  /** The clock does not go back, changes are disciplined, and what is stored is stored timely. */
  ghost predicate TimelyRun(tagsFor: string -> seq<string>, source: string -> Loaded, ops: seq<Op>) {
    ops == [] ||
    var front, op := ops[..|ops| - 1], ops[|ops| - 1];
    var w := ApplyAll(World(map[], source), tagsFor, front);
    && TimelyRun(tagsFor, source, front) && ClockOf(front, op.now) <= op.now
    && Disciplined(w, tagsFor, op) && (Stores(w, op) ==> Timely(w, tagsFor, op))
  }

  function ClockOf(ops: seq<Op>, start: int): int {
    if ops == [] then start else ops[|ops| - 1].now
  }

  lemma {:induction false} RunIsCovered(tagsFor: string -> seq<string>, source: string -> Loaded, ops: seq<Op>,
                                        now: int)
    requires TimelyRun(tagsFor, source, ops) && ClockOf(ops, now) <= now
    ensures Covered(ApplyAll(World(map[], source), tagsFor, ops), tagsFor, now)
  {
    if ops != [] {
      var front, op := ops[..|ops| - 1], ops[|ops| - 1];
      var w := ApplyAll(World(map[], source), tagsFor, front);
      RunIsCovered(tagsFor, source, front, op.now);
      hide Covered, Apply, Timely;
      if op.Change? { ChangeKeepsCover(w, tagsFor, op); } else { StoreKeepsCoverIff(w, tagsFor, op); }
      CoverLater(Apply(w, tagsFor, op), tagsFor, op.now, now);
    }
  }

  /** Over any stretch of time, with entries and lists expiring along the way: while stores are timely and changes
      disciplined, each read-through answers what the loader would. */
  lemma TimelyWrapIsTheLoader(tagsFor: string -> seq<string>, source: string -> Loaded, ops: seq<Op>, key: string,
                              b: Backend, ttlMs: nat, now: int)
    requires TimelyRun(tagsFor, source, ops) && ClockOf(ops, now) <= now
    ensures var w := ApplyAll(World(map[], source), tagsFor, ops);
            Wrapped(w.store, key, tagsFor(key), w.source(key), b, ttlMs, now).1 == w.source(key)
  {
    RunIsCovered(tagsFor, source, ops, now);
  }

  /** And the cover cannot be weakened: a store is covered exactly when it serves the source's values now and after any
      one disciplined change, whenever that comes. */
  lemma CoveredIff(w: World, tagsFor: string -> seq<string>, now: int)
    requires Typed(w.store)
    ensures Covered(w, tagsFor, now) <==>
            && Fresh(w, now)
            && forall op: Op | op.Change? && now <= op.now && Disciplined(w, tagsFor, op) ::
               Fresh(Apply(w, tagsFor, op), op.now)
  {
    if Covered(w, tagsFor, now) {
      forall op: Op | op.Change? && now <= op.now && Disciplined(w, tagsFor, op)
        ensures Fresh(Apply(w, tagsFor, op), op.now)
      {
        CoverLater(w, tagsFor, now, op.now);
        ChangeKeepsCover(w, tagsFor, op);
      }
    } else if Fresh(w, now) {
      assert forall key :: FreshAt(w, key, now);
      var key {:trigger NamespacedKey(key)} :| Hit(w.store, NamespacedKey(key), now).Some? &&
        !(FreshAt(w, key, now) && forall t | t in tagsFor(key) :: Outlived(w.store, t, NamespacedKey(key), now));
      var t :| t in tagsFor(key) && !Outlived(w.store, t, NamespacedKey(key), now);
      var op := MissedChange(w, tagsFor, now, key, t);
    }
  }

  predicate FreshAt(w: World, key: string, now: int) {
    Hit(w.store, NamespacedKey(key), now) in {None, Some(w.source(key))}
  }

  ghost predicate Fresh(w: World, now: int) {
    forall key :: FreshAt(w, key, now)
  }

  /** The change that a list which ends before the value misses: it comes when the list is gone. */
  lemma MissedChange(w: World, tagsFor: string -> seq<string>, now: int, key: string, t: string) returns (op: Op)
    requires Typed(w.store) && Hit(w.store, NamespacedKey(key), now) == Some(w.source(key))
    requires t in tagsFor(key) && !Outlived(w.store, t, NamespacedKey(key), now)
    ensures op.Change? && now <= op.now && Disciplined(w, tagsFor, op) && !FreshAt(Apply(w, tagsFor, op), key, op.now)
  {
    var k, v := NamespacedKey(key), w.source(key);
    var later := if Listed(w.store, t, k, now) then w.store[TagKey(t)].expiresAt.value + 1 else now;
    op := Change(x => if x == key then Null else w.source(x), [t], _ => CLEAN, later);
    SurvivesIff(w.store, [t], _ => CLEAN, later, key);
    assert Hit(w.store, k, later) == Some(v) && !Listed(w.store, t, k, later);
  }

  /** When every served value ends by now plus the TTL, as it does while all share one TTL, a store is timely exactly
      when each list that names the key already lasts as long as the new value. */
  lemma SameTtlTimelyIff(w: World, tagsFor: string -> seq<string>, op: Op)
    requires Stores(w, op) && ListsAll(w, tagsFor, op) && w.source(op.key) != Null
    requires forall key {:trigger NamespacedKey(key)} | Hit(w.store, NamespacedKey(key), op.now).Some? ::
               NoLater(w.store[NamespacedKey(key)].expiresAt, ExpiresAt(op.now, op.ttlMs))
    ensures Timely(w, tagsFor, op) <==>
            forall t | t in tagsFor(op.key) :: Listed(w.store, t, NamespacedKey(op.key), op.now) ==>
              NoLater(ExpiresAt(op.now, op.ttlMs), w.store[TagKey(t)].expiresAt)
  {
    assert forall t | t in tagsFor(op.key) :: t in Elements(tagsFor(op.key));
  }

  // ─── Coherence as long as nothing expires ──────────────

  /** Every value is the source's, and is listed under each of its key's tags. */
  ghost predicate Coherent(w: World, tagsFor: string -> seq<string>, now: int) {
    Typed(w.store) &&
    forall key {:trigger NamespacedKey(key)} | NamespacedKey(key) in w.store ::
      && w.store[NamespacedKey(key)] == Value(w.source(key), w.store[NamespacedKey(key)].expiresAt)
      && forall t | t in tagsFor(key) :: Listed(w.store, t, NamespacedKey(key), now)
  }

  ghost predicate Unexpired(store: Store, now: int) {
    forall k | k in store :: Live(store[k], now)
  }

  /** What is stored is the source's value and gets listed under all its tags. */
  ghost predicate ListsAll(w: World, tagsFor: string -> seq<string>, op: Op) {
    Stores(w, op) ==> Put(w, op) == w.source(op.key) && Elements(tagsFor(op.key)) <= op.b.reached
  }

  ghost predicate UnexpiredRun(tagsFor: string -> seq<string>, source: string -> Loaded, ops: seq<Op>) {
    ops == [] ||
    var front, op := ops[..|ops| - 1], ops[|ops| - 1];
    var w := ApplyAll(World(map[], source), tagsFor, front);
    UnexpiredRun(tagsFor, source, front) && Unexpired(w.store, op.now) && Disciplined(w, tagsFor, op) &&
        ListsAll(w, tagsFor, op)
  }

  lemma CoherentLater(w: World, tagsFor: string -> seq<string>, now: int, later: int)
    requires Coherent(w, tagsFor, now) && Unexpired(w.store, later)
    ensures Coherent(w, tagsFor, later)
  {
    forall key, t | NamespacedKey(key) in w.store && t in tagsFor(key)
      ensures Listed(w.store, t, NamespacedKey(key), later)
    {
      assert Listed(w.store, t, NamespacedKey(key), now);
    }
  }

  lemma StoreKeepsCoherent(w: World, tagsFor: string -> seq<string>, op: Op)
    requires !op.Change? && ListsAll(w, tagsFor, op) && Coherent(w, tagsFor, op.now)
    ensures Coherent(Apply(w, tagsFor, op), tagsFor, op.now)
  {
    if Stores(w, op) {
      var k, after := NamespacedKey(op.key), Apply(w, tagsFor, op).store;
      StoredIs(w, tagsFor, op);
      assert Apply(w, tagsFor, op).source == w.source;
      hide Apply;
      forall other | NamespacedKey(other) in after
        ensures after[NamespacedKey(other)] == Value(w.source(other), after[NamespacedKey(other)].expiresAt)
        ensures forall t | t in tagsFor(other) :: Listed(after, t, NamespacedKey(other), op.now)
      {
        if other != op.key { assert SameAt(w.store, after, NamespacedKey(other)); }
        forall t | t in tagsFor(other) ensures Listed(after, t, NamespacedKey(other), op.now) {
          assert ListAfter(w.store, after, t, Elements(tagsFor(op.key)) * op.b.reached, k, op.ttlMs, op.now);
          assert other != op.key ==> Listed(w.store, t, NamespacedKey(other), op.now);
        }
      }
    }
  }

  lemma ChangeKeepsCoherent(w: World, tagsFor: string -> seq<string>, op: Op)
    requires op.Change? && Coherent(w, tagsFor, op.now) && Disciplined(w, tagsFor, op)
    ensures Coherent(Apply(w, tagsFor, op), tagsFor, op.now)
  {
    var after := InvalidatedAll(w.store, op.tags, op.outages, op.now);
    SurvivesIff(w.store, op.tags, op.outages, op.now, "");
    forall key | NamespacedKey(key) in after
      ensures after[NamespacedKey(key)] == Value(op.source(key), after[NamespacedKey(key)].expiresAt)
      ensures forall t | t in tagsFor(key) :: Listed(after, t, NamespacedKey(key), op.now)
    {
      SurvivesIff(w.store, op.tags, op.outages, op.now, key);
      forall t | t in tagsFor(key)
        ensures Listed(after, t, NamespacedKey(key), op.now) && (t in op.tags ==> KeepsList(op.outages(t)))
      {
        assert Listed(w.store, t, NamespacedKey(key), op.now);
        assert t !in op.tags || KeepsList(op.outages(t)) ==> SameAt(w.store, after, TagKey(t));
      }
    }
  }

  lemma ApplyKeepsCoherent(w: World, tagsFor: string -> seq<string>, op: Op)
    requires Coherent(w, tagsFor, op.now) && Disciplined(w, tagsFor, op) && ListsAll(w, tagsFor, op)
    ensures Coherent(Apply(w, tagsFor, op), tagsFor, op.now)
  {
    if op.Change? { ChangeKeepsCoherent(w, tagsFor, op); } else { StoreKeepsCoherent(w, tagsFor, op); }
  }

  lemma {:induction false} RunIsCoherent(tagsFor: string -> seq<string>, source: string -> Loaded, ops: seq<Op>,
                                         now: int)
    requires UnexpiredRun(tagsFor, source, ops)
    requires Unexpired(ApplyAll(World(map[], source), tagsFor, ops).store, now)
    ensures Coherent(ApplyAll(World(map[], source), tagsFor, ops), tagsFor, now)
  {
    if ops != [] {
      var front, op := ops[..|ops| - 1], ops[|ops| - 1];
      var w := ApplyAll(World(map[], source), tagsFor, front);
      hide Coherent, Apply, Unexpired;
      RunIsCoherent(tagsFor, source, front, op.now);
      ApplyKeepsCoherent(w, tagsFor, op);
      CoherentLater(Apply(w, tagsFor, op), tagsFor, op.now, now);
    }
  }

  /** As long as nothing expires and every change of the source invalidates a tag of what it changes, the cache is
      invisible: each read-through answers what the loader would, whatever the TTLs are. */
  lemma WrapIsTheLoader(tagsFor: string -> seq<string>, source: string -> Loaded, ops: seq<Op>, key: string, b: Backend,
                        ttlMs: nat, now: int)
    requires UnexpiredRun(tagsFor, source, ops) && Unexpired(ApplyAll(World(map[], source), tagsFor, ops).store, now)
    ensures var w := ApplyAll(World(map[], source), tagsFor, ops);
            Wrapped(w.store, key, tagsFor(key), w.source(key), b, ttlMs, now).1 == w.source(key)
  {
    RunIsCoherent(tagsFor, source, ops, now);
  }

  // ─── How it fails ──────────────────────────────────────

  /** Right after a change, a key that was fresh before reads stale exactly when its old value is still served and no
      invalidated tag lists it, or the backend failed to delete it for each that does. */
  lemma StaleIff(store: Store, key: string, tags: seq<string>, outages: string -> Outage, was: Loaded, loaded: Loaded,
                 keyTags: seq<string>, b: Backend, ttlMs: nat, now: int)
    requires Typed(store) && was != loaded && Hit(store, NamespacedKey(key), now) in {None, Some(was)}
    requires !b.readFails
    ensures Wrapped(InvalidatedAll(store, tags, outages, now), key, keyTags, loaded, b, ttlMs, now).1 != loaded <==>
            && Hit(store, NamespacedKey(key), now) == Some(was)
            && forall t | t in tags :: !Removes(store, t, outages(t), NamespacedKey(key), now)
  {
    SurvivesIff(store, tags, outages, now, key);
  }

  const WELL: Backend := Backend(false, false, {"t"})

  /** A tag's list is not renewed for a key it already names, so it can run out before the value: stored at 0 and again
      at 60,001, the value outlives the list, and invalidating the tag at 120,001 does not drop it. */
  lemma ListExpiresFirst(v: Loaded)
    requires v != Null
    ensures var once := Wrapped(map[], "k", ["t"], v, WELL, 60_000, 0).0;
            var twice := Wrapped(once, "k", ["t"], v, WELL, 60_000, 60_001).0;
            Hit(Invalidated(twice, "t", CLEAN, 120_001), NamespacedKey("k"), 120_001) == Some(v)
  {
    hide NamespacedKey, TagKey, Stored;
    var k, tk := NamespacedKey("k"), TagKey("t");
    StoredUnder(map[], "k", v, 60_000, 0, []);
    var once := map[k := Value(v, Some(60_000)), tk := Members([k], Some(120_000))];
    assert [] + [k] == [k];
    assert Wrapped(map[], "k", ["t"], v, WELL, 60_000, 0).0 == once;
    KeysApart("k", "t");
    assert Hit(once, k, 60_001) == None;
    StoredAgain(once, "k", v, 60_000, 60_001);
    var twice := once[k := Value(v, Some(120_001))];
    assert MembersOf(twice, "t", 120_001) == [];
  }

  lemma AddOne(store: Store, cacheKey: string, ttlMs: nat, now: int)
    ensures AddTags(store, ["t"], WELL.reached, cacheKey, ttlMs, now) == AddTag(store, "t", cacheKey, ttlMs, now)
  {
    assert ["t"][..0] == [];
  }

  lemma StoredUnder(store: Store, key: string, v: Loaded, ttlMs: nat, now: int, members: seq<string>)
    requires MembersOf(store, "t", now) == members && NamespacedKey(key) !in members
    ensures Stored(store, NamespacedKey(key), v, ["t"], WELL, ttlMs, now) ==
            store[NamespacedKey(key) := Value(v, ExpiresAt(now, ttlMs))]
                 [TagKey("t") := Members(members + [NamespacedKey(key)], ExpiresAt(now, ttlMs * 2))]
  {
    KeysApart(key, "t");
    AddOne(store[NamespacedKey(key) := Value(v, ExpiresAt(now, ttlMs))], NamespacedKey(key), ttlMs, now);
  }

  lemma StoredAgain(store: Store, key: string, v: Loaded, ttlMs: nat, now: int)
    requires Listed(store, "t", NamespacedKey(key), now)
    ensures Stored(store, NamespacedKey(key), v, ["t"], WELL, ttlMs, now) ==
            store[NamespacedKey(key) := Value(v, ExpiresAt(now, ttlMs))]
  {
    KeysApart(key, "t");
    AddOne(store[NamespacedKey(key) := Value(v, ExpiresAt(now, ttlMs))], NamespacedKey(key), ttlMs, now);
  }

  /** And another key with a shorter TTL cuts the list's life short: the list then lasts twice the shorter TTL. */
  lemma ListIsCutShort(v: Loaded)
    requires v != Null
    ensures var long := Wrapped(map[], "a", ["t"], v, WELL, 300_000, 0).0;
            var short := Wrapped(long, "b", ["t"], v, WELL, 1_000, 0).0;
            Hit(Invalidated(short, "t", CLEAN, 2_001), NamespacedKey("a"), 2_001) == Some(v)
  {
    hide NamespacedKey, TagKey, Stored;
    var a, b, tk := NamespacedKey("a"), NamespacedKey("b"), TagKey("t");
    KeysApart("a", "t");
    KeysApart("b", "t");
    KeysApart("a", "b");
    StoredUnder(map[], "a", v, 300_000, 0, []);
    var long := map[a := Value(v, Some(300_000)), tk := Members([a], Some(600_000))];
    assert [] + [a] == [a];
    assert Wrapped(map[], "a", ["t"], v, WELL, 300_000, 0).0 == long;
    StoredUnder(long, "b", v, 1_000, 0, [a]);
    var short := long[b := Value(v, Some(1_000))][tk := Members([a] + [b], Some(2_000))];
    assert Wrapped(long, "b", ["t"], v, WELL, 1_000, 0).0 == short;
    assert MembersOf(short, "t", 2_001) == [];
  }

  // ─── The service ───────────────────────────────────────

  /** One load whose result was stored, perhaps later. */
  datatype Load = Load(cacheKey: string, value: Loaded, ttlMs: nat, loadedAt: int, storedAt: int)

  /** Every value in the store came from a load, and expires one TTL after it was stored. */
  ghost predicate FromLoads(store: Store, loads: set<Load>) {
    forall k | k in store && store[k].Value? ::
      exists l :: l in loads && l.cacheKey == k && l.value == store[k].value &&
        store[k].expiresAt == ExpiresAt(l.storedAt, l.ttlMs)
  }

  /** The list of a tag after a key may have been listed under it: a list that has not expired and names the key stays
      as it was; to any other the key is added, and it lives twice the TTL from now. */
  ghost predicate ListedNow(before: Store, after: Store, tag: string, listing: bool, cacheKey: string, ttlMs: nat,
                            now: int) {
    var tk := TagKey(tag);
    var live := tk in before && before[tk].Members? &&
                (before[tk].expiresAt.Some? ==> now <= before[tk].expiresAt.value);
    var listed := if live then before[tk].keys else [];
    if listing && cacheKey !in listed
    then tk in after && after[tk] == Members(listed + [cacheKey], if ttlMs > 0 then Some(now + 2 * ttlMs) else None)
    else (tk in after <==> tk in before) && (tk in after ==> after[tk] == before[tk])
  }

  lemma StoredLists(store: Store, cacheKey: string, value: Loaded, tags: seq<string>, b: Backend, ttlMs: nat, now: int)
    requires Typed(store) && VALUE_PREFIX <= cacheKey && !b.valueLost
    ensures var after := Stored(store, cacheKey, value, tags, b, ttlMs, now);
            && Typed(after) && cacheKey in after && after[cacheKey] == Value(value, ExpiresAt(now, ttlMs))
            && (forall k | VALUE_PREFIX <= k && k != cacheKey :: (k in after <==> k in store) &&
                                                                 (k in after ==> after[k] == store[k]))
            && forall t :: ListedNow(store, after, t, t in tags && t in b.reached, cacheKey, ttlMs, now)
  {
    var put := store[cacheKey := Value(value, ExpiresAt(now, ttlMs))];
    var after := Stored(store, cacheKey, value, tags, b, ttlMs, now);
    AddTagsLists(put, tags, b.reached, cacheKey, ttlMs, now);
    forall t ensures ListedNow(store, after, t, t in tags && t in b.reached, cacheKey, ttlMs, now) {
      assert ListAfter(put, after, t, Elements(tags) * b.reached, cacheKey, ttlMs, now);
      PrefixesApart(TagKey(t));
      TagPrefix(t);
    }
  }

  lemma TagPrefix(tag: string)
    ensures TAG_PREFIX <= TagKey(tag)
  {
  }

  class CacheTagsService {
    const disabled: bool
    var store: Store
    ghost var loads: set<Load>

    ghost predicate Valid()
      reads this
    {
      Typed(store) && FromLoads(store, loads)
    }

    constructor (disabled: bool)
      ensures Valid() && store == map[] && this.disabled == disabled
    {
      this.disabled := disabled;
      store, loads := map[], {};
    }

    /** A served value is what some load of this key returned, no longer ago than its TTL and the time that passed until
        it was stored; otherwise the answer is what the loader returns now. */
    method Wrap(key: string, tags: seq<string>, loaded: Loaded, b: Backend, ttlMs: nat, now: int, ghost loadedAt: int,
                storedAt: int)
      returns (r: Loaded)
      requires Valid()
      modifies this
      ensures Valid() && old(loads) <= loads
      ensures (store, r) == if disabled then (old(store), loaded)
                            else WrappedLate(old(store), key, tags, loaded, b, ttlMs, now, storedAt)
      ensures var k := NamespacedKey(key);
              if !disabled && !b.readFails && k in old(store) && old(store)[k].Value? && old(store)[k].value != Null &&
                 (old(store)[k].expiresAt.Some? ==> now <= old(store)[k].expiresAt.value)
              then r == old(store)[k].value && store == old(store)
              else
                && r == loaded
                && (disabled || b.readFails || b.valueLost ==> store == old(store))
                && (!disabled && !b.readFails && !b.valueLost ==>
                      k in store && store[k] == Value(loaded, if ttlMs > 0 then Some(storedAt + ttlMs) else None))
      ensures r == loaded || exists l :: l in old(loads) && l.cacheKey == NamespacedKey(key) && l.value == r &&
                                         (l.ttlMs > 0 ==> now - l.loadedAt <= l.ttlMs + (l.storedAt - l.loadedAt))
      ensures forall l | l in loads :: l in old(loads) ||
                                       l == Load(NamespacedKey(key), loaded, ttlMs, loadedAt, storedAt)
    {
      if disabled || b.readFails {
        return loaded;
      }
      var cacheKey := NamespacedKey(key);
      if cacheKey in store && Live(store[cacheKey], now) {
        PrefixesApart(cacheKey);
        if store[cacheKey].value != Null {
          return store[cacheKey].value;
        }
      }
      Set(cacheKey, loaded, tags, b, ttlMs, loadedAt, storedAt);
      return loaded;
    }

    method Set(cacheKey: string, value: Loaded, tags: seq<string>, b: Backend, ttlMs: nat, ghost loadedAt: int,
               now: int)
      requires Valid() && VALUE_PREFIX <= cacheKey
      modifies this
      ensures Valid() && loads == old(loads) + if b.valueLost then {} else {Load(cacheKey, value, ttlMs, loadedAt, now)}
      ensures store == Stored(old(store), cacheKey, value, tags, b, ttlMs, now)
      ensures b.valueLost ==> store == old(store)
      ensures !b.valueLost ==>
                && cacheKey in store && store[cacheKey] == Value(value, if ttlMs > 0 then Some(now + ttlMs) else None)
                && forall t :: ListedNow(old(store), store, t, t in tags && t in b.reached, cacheKey, ttlMs, now)
    {
      if b.valueLost {
        return;
      }
      store := store[cacheKey := Value(value, ExpiresAt(now, ttlMs))];
      loads := loads + {Load(cacheKey, value, ttlMs, loadedAt, now)};
      ghost var put := store;
      var i := 0;
      while i < |tags|
        invariant 0 <= i <= |tags|
        invariant store == AddTags(put, tags[..i], b.reached, cacheKey, ttlMs, now)
        invariant loads == old(loads) + {Load(cacheKey, value, ttlMs, loadedAt, now)}
      {
        var tk := TagKey(tags[i]);
        var existing := if tk in store && Live(store[tk], now) && store[tk].Members? then store[tk].keys else [];
        if cacheKey !in existing && tags[i] in b.reached {
          store := store[tk := Members(existing + [cacheKey], ExpiresAt(now, ttlMs * 2))];
        }
        assert tags[..i + 1][..i] == tags[..i];
        i := i + 1;
      }
      assert tags[..i] == tags;
      StoredLists(old(store), cacheKey, value, tags, b, ttlMs, now);
    }

    /** No value that the tag lists survives, unless its deletion fails, and nothing else is lost. */
    method InvalidateTag(tag: string, o: Outage, now: int)
      requires Valid()
      modifies this
      ensures Valid() && loads == old(loads)
      ensures store == if disabled then old(store) else Invalidated(old(store), tag, o, now)
      ensures forall key :: NamespacedKey(key) in store <==>
                NamespacedKey(key) in old(store) && (disabled || !Removes(old(store), tag, o, NamespacedKey(key), now))
      ensures forall key | key in store :: key in old(store) && store[key] == old(store)[key]
      ensures disabled || o.readFails ==> store == old(store)
      ensures !disabled && !o.readFails ==>
                var tk := TagKey(tag);
                && (tk in store <==> tk in old(store) && o.listKept)
                && forall k | k in old(store) && k != tk :: k !in store <==>
                     && tk in old(store) && old(store)[tk].Members?
                     && (old(store)[tk].expiresAt.Some? ==> now <= old(store)[tk].expiresAt.value)
                     && k in old(store)[tk].keys && k !in o.kept
    {
      if disabled || o.readFails {
        return;
      }
      forall key ensures NamespacedKey(key) in Invalidated(store, tag, o, now) <==>
        NamespacedKey(key) in store && !Removes(store, tag, o, NamespacedKey(key), now)
      {
        InvalidatedOne(store, tag, o, now, key);
      }
      var tagKey := TagKey(tag);
      if tagKey in store && Live(store[tagKey], now) {
        PrefixesApart(tagKey);
        var members := store[tagKey].keys;
        var i := 0;
        while i < |members|
          invariant 0 <= i <= |members|
          invariant store == old(store) - (Elements(members[..i]) - o.kept) && loads == old(loads)
        {
          if members[i] !in o.kept {
            store := store - {members[i]};
          }
          assert Elements(members[..i + 1]) == Elements(members[..i]) + {members[i]};
          i := i + 1;
        }
        assert members[..i] == members;
      } else {
        assert Elements<string>([]) == {};
      }
      if !o.listKept {
        store := store - {tagKey};
      }
    }

    method InvalidateTags(tags: seq<string>, outages: string -> Outage, now: int)
      requires Valid()
      modifies this
      ensures Valid() && loads == old(loads)
      ensures store == if disabled then old(store) else InvalidatedAll(old(store), tags, outages, now)
    {
      var i := 0;
      while i < |tags|
        invariant 0 <= i <= |tags| && Valid() && loads == old(loads)
        invariant store == if disabled then old(store) else InvalidatedAll(old(store), tags[..i], outages, now)
      {
        InvalidateTag(tags[i], outages(tags[i]), now);
        assert tags[..i + 1][..i] == tags[..i];
        i := i + 1;
      }
      assert tags[..i] == tags;
    }
  }
}
