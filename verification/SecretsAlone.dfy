/** security/secrets.go: a call that nothing interrupts. The steps of the interleaving model, taken one after the
    other by one caller, do what the sequential model says, so that the two speak of the same cache. */
module SecretsAlone {
  import opened Common
  import opened Secrets
  import opened SecretsShared

  /** s' has the store and the cache of the sequential step, and s' has the same calls under way as s. */
  predicate Does(s: World, s': World, r: Wrapped)
  {
    s'.store == r.store && s'.cache == r.entries && s'.calls == s.calls
  }

  function Two(ttl: int, s: World, a: Event, b: Event): World { Step(ttl, Step(ttl, s, a), b) }

  // ------------------------------------------------------------------ Get

  /** Lookup and check: a hit returns the cached value at once, and the call is over. */
  lemma HitAlone(ttl: int, s: World, c: nat, key: Key, now: int)
    requires c !in s.calls && s.clock <= now && key in s.cache && now < s.cache[key].expiration
    ensures var s' := Two(ttl, s, Event(now, GetLookup(c, key)), Event(now, GetCheck(c)));
            && s'.store == s.store && s'.cache == s.cache && s'.calls == s.calls
            && s'.returned == s.returned + [Returned(key, s.cache[key].value, now)]
  {
    var s1 := Step(ttl, s, Event(now, GetLookup(c, key)));
    assert s1.calls - {c} == s.calls;
  }

  lemma MissAlone(ttl: int, s: World, c: nat, key: Key, now: int)
    requires c !in s.calls && s.clock <= now && !(key in s.cache && now < s.cache[key].expiration)
    ensures var s' := Two(ttl, s, Event(now, GetLookup(c, key)), Event(now, GetCheck(c)));
            && s'.store == s.store && s'.cache == s.cache && s'.calls == s.calls[c := Missed(key)]
            && s'.returned == s.returned && s'.refreshKeys == s.refreshKeys && s'.clock == now
  {
  }

  /** Read and cache write after a miss. */
  lemma FetchAlone(ttl: int, s: World, before: map<nat, Phase>, c: nat, key: Key, readAt: int, writtenAt: int)
    requires c !in before && s.calls == before[c := Missed(key)] && s.clock <= readAt <= writtenAt
    ensures var s' := Two(ttl, s, Event(readAt, GetRead(c, true)), Event(writtenAt, CacheWrite(c)));
            && s'.store == s.store && s'.calls == before
            && (key in s.store ==>
                  && s'.cache == s.cache[key := Cached(s.store[key], writtenAt + ttl)]
                  && s'.refreshKeys == s.refreshKeys + {key}
                  && s'.returned == s.returned + [Returned(key, s.store[key], writtenAt)])
            && (key !in s.store ==> s'.cache == s.cache && s'.returned == s.returned)
  {
    var s1 := Step(ttl, s, Event(readAt, GetRead(c, true)));
    assert s.calls - {c} == before;
    if key in s.store {
      assert s1.calls[c] == Fetched(key, s.store[key], readAt);
      assert s1.calls - {c} == before;
    }
  }

  /** GetSecret run alone is the sequential Get. */
  lemma GetAlone(ttl: int, s: World, c: nat, key: Key, now: int, readAt: int, writtenAt: int)
    requires c !in s.calls && s.clock <= now <= readAt <= writtenAt
    ensures var r := CachedStep(ttl, s.store, s.cache, Get(key, now, writtenAt));
            var s1 := Two(ttl, s, Event(now, GetLookup(c, key)), Event(now, GetCheck(c)));
            var s2 := Two(ttl, s1, Event(readAt, GetRead(c, true)), Event(writtenAt, CacheWrite(c)));
            var s' := if c in s1.calls then s2 else s1;
            && Does(s, s', r)
            && (r.answer.Found? ==>
                  |s'.returned| == |s.returned| + 1 && s'.returned[|s.returned|].value == r.answer.value)
            && (r.answer.NotFound? ==> s'.returned == s.returned)
  {
    if key in s.cache && now < s.cache[key].expiration {
      HitAlone(ttl, s, c, key, now);
    } else {
      MissAlone(ttl, s, c, key, now);
      var s1 := Two(ttl, s, Event(now, GetLookup(c, key)), Event(now, GetCheck(c)));
      FetchAlone(ttl, s1, s.calls, c, key, readAt, writtenAt);
    }
  }

  // ------------------------------------------------------------------ Set, Delete and Close

  lemma SetAlone(ttl: int, s: World, c: nat, key: Key, value: Secret, storedAt: int, writtenAt: int)
    requires c !in s.calls && s.clock <= storedAt <= writtenAt
    ensures var s' := Two(ttl, s, Event(storedAt, SetStore(c, key, value, true)), Event(writtenAt, CacheWrite(c)));
            && Does(s, s', CachedStep(ttl, s.store, s.cache, Set(key, value, writtenAt)))
            && s'.refreshKeys == s.refreshKeys + {key} && s'.returned == s.returned
  {
    var s1 := Step(ttl, s, Event(storedAt, SetStore(c, key, value, true)));
    assert s1.calls[c] == Stored(key, value, storedAt) && s1.calls - {c} == s.calls;
  }

  lemma DeleteAlone(ttl: int, s: World, c: nat, key: Key, deletedAt: int, droppedAt: int)
    requires c !in s.calls && s.clock <= deletedAt <= droppedAt
    ensures var s' := Two(ttl, s, Event(deletedAt, DeleteStore(c, key, true)), Event(droppedAt, DeleteCached(c)));
            && Does(s, s', CachedStep(ttl, s.store, s.cache, Delete(key)))
            && s'.refreshKeys == s.refreshKeys - {key} && s'.returned == s.returned
  {
    var s1 := Step(ttl, s, Event(deletedAt, DeleteStore(c, key, true)));
    assert s1.calls - {c} == s.calls;
  }

  /** Close empties the cache; closing the memory store behind it empties that too. */
  lemma CloseAlone(ttl: int, s: World, at: int)
    requires s.clock <= at
    ensures var s' := Two(ttl, s, Event(at, CloseCache), Event(at, OutsideWrite(map[])));
            Does(s, s', CachedStep(ttl, s.store, s.cache, Close)) && s'.refreshKeys == {} && s'.returned == s.returned
  {
  }

  // ------------------------------------------------------------------ the refresher

  /** The steps of the refresher for one key after another, at one time. */
  function RefreshKeys(ttl: int, s: World, c: nat, n: nat, at: int): World
    decreases n
  {
    if n == 0 then s else RefreshKeys(ttl, OneKey(ttl, s, c, at), c, n - 1, at)
  }

  function OneKey(ttl: int, s: World, c: nat, at: int): World
  {
    Step(ttl, Two(ttl, s, Event(at, RefreshNext(c)), Event(at, RefreshFetch(c, true))), Event(at, CacheWrite(c)))
  }

  /** The refresher has dealt with its first key, and the cache is as given. */
  predicate Advanced(s: World, s': World, before: map<nat, Phase>, c: nat, keys: seq<Key>, at: int, cache: Entries)
    requires keys != []
  {
    && s'.store == s.store && s'.returned == s.returned && s'.clock == at && s'.refreshKeys == s.refreshKeys
    && s'.calls == before[c := RefreshLoop(keys[1..])] && s'.cache == cache
  }

  lemma RefreshSkips(ttl: int, s: World, before: map<nat, Phase>, c: nat, keys: seq<Key>, at: int)
    requires c !in before && s.calls == before[c := RefreshLoop(keys)] && keys != [] && s.clock <= at
    requires keys[0] !in s.cache
    ensures Advanced(s, OneKey(ttl, s, c, at), before, c, keys, at, s.cache)
  {
    var s1 := Step(ttl, s, Event(at, RefreshNext(c)));
    assert s1.calls == before[c := RefreshLoop(keys[1..])];
  }

  lemma RefreshFindsNothing(ttl: int, s: World, before: map<nat, Phase>, c: nat, keys: seq<Key>, at: int)
    requires c !in before && s.calls == before[c := RefreshLoop(keys)] && keys != [] && s.clock <= at
    requires keys[0] in s.cache && keys[0] !in s.store
    ensures Advanced(s, OneKey(ttl, s, c, at), before, c, keys, at, s.cache)
  {
    var s1 := Step(ttl, s, Event(at, RefreshNext(c)));
    assert s1.calls == before[c := RefreshRead(keys[0], keys[1..])];
    var s2 := Step(ttl, s1, Event(at, RefreshFetch(c, true)));
    assert s2.calls == before[c := RefreshLoop(keys[1..])];
  }

  lemma RefreshWrites(ttl: int, s: World, before: map<nat, Phase>, c: nat, keys: seq<Key>, at: int)
    requires c !in before && s.calls == before[c := RefreshLoop(keys)] && keys != [] && s.clock <= at
    requires keys[0] in s.cache && keys[0] in s.store
    ensures Advanced(s, OneKey(ttl, s, c, at), before, c, keys, at,
                     s.cache[keys[0] := Cached(s.store[keys[0]], at + ttl)])
  {
    var s1 := Step(ttl, s, Event(at, RefreshNext(c)));
    assert s1.calls == before[c := RefreshRead(keys[0], keys[1..])];
    var s2 := Step(ttl, s1, Event(at, RefreshFetch(c, true)));
    assert s2.calls == before[c := Refetched(keys[0], s.store[keys[0]], at, keys[1..])];
  }

  lemma RefreshOne(ttl: int, s: World, before: map<nat, Phase>, c: nat, keys: seq<Key>, at: int)
    requires c !in before && s.calls == before[c := RefreshLoop(keys)] && keys != [] && s.clock <= at
    ensures var cache := if keys[0] in s.cache && keys[0] in s.store
                         then s.cache[keys[0] := Cached(s.store[keys[0]], at + ttl)] else s.cache;
            Advanced(s, OneKey(ttl, s, c, at), before, c, keys, at, cache)
  {
    if keys[0] !in s.cache {
      RefreshSkips(ttl, s, before, c, keys, at);
    } else if keys[0] !in s.store {
      RefreshFindsNothing(ttl, s, before, c, keys, at);
    } else {
      RefreshWrites(ttl, s, before, c, keys, at);
    }
  }

  lemma {:induction false} RefreshesAll(ttl: int, s: World, before: map<nat, Phase>, c: nat, keys: seq<Key>, at: int)
    requires c !in before && s.calls == before[c := RefreshLoop(keys)] && s.clock <= at
    ensures var s' := RefreshKeys(ttl, s, c, |keys|, at);
            && s'.store == s.store && s'.returned == s.returned && s'.calls == before[c := RefreshLoop([])]
            && s'.cache == RefreshAll(ttl, s.store, s.cache, keys, at) && s'.clock <= at
    decreases |keys|
  {
    if keys != [] {
      RefreshOne(ttl, s, before, c, keys, at);
      RefreshesAll(ttl, OneKey(ttl, s, c, at), before, c, keys[1..], at);
    }
  }

  /** A refresh run alone is the sequential refresh. */
  lemma RefreshAlone(ttl: int, s: World, c: nat, keys: seq<Key>, at: int)
    requires c !in s.calls && s.clock <= at && (set k | k in keys) == s.refreshKeys
    ensures var s1 := Step(ttl, s, Event(at, RefreshStart(c, keys)));
            var s' := Step(ttl, RefreshKeys(ttl, s1, c, |keys|, at), Event(at, RefreshNext(c)));
            Does(s, s', CachedStep(ttl, s.store, s.cache, Refresh(keys, at))) && s'.returned == s.returned
  {
    var s1 := Step(ttl, s, Event(at, RefreshStart(c, keys)));
    RefreshesAll(ttl, s1, s.calls, c, keys, at);
    assert s.calls[c := RefreshLoop([])] - {c} == s.calls;
  }

  // ------------------------------------------------------------------ what caching means

  /** Until it expires a cached value is returned without asking the store; from then on the store is asked. */
  lemma CachedUntilItExpires(ttl: int, store: Store, entries: Entries, key: Key, now: int, writtenAt: int)
    requires key in entries
    ensures var r := CachedStep(ttl, store, entries, Get(key, now, writtenAt));
            && (now < entries[key].expiration ==> r.answer == Found(entries[key].value) && r.entries == entries)
            && (now >= entries[key].expiration ==> r.answer == Lookup(store, key))
  {
  }

  /** What Get or Set puts in the cache is returned for the whole time to live, whatever becomes of the store. */
  lemma WrittenIsKept(ttl: int, store: Store, entries: Entries, op: Op, later: Store, now: int, writtenAt: int)
    requires (op.Set? || (op.Get? && op.key in store && !(op.key in entries && op.now < entries[op.key].expiration)))
    requires now < op.writtenAt + ttl
    ensures var r := CachedStep(ttl, store, entries, op);
            var value := if op.Set? then op.value else store[op.key];
            CachedStep(ttl, later, r.entries, Get(op.key, now, writtenAt)).answer == Found(value)
  {
  }
}
