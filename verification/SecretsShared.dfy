/** security/secrets.go: CachedSecretStore used by many callers at once over a store that others write too.
    Each locked section and each call of the store is one step; the clock never goes back. An event that is
    not enabled, or whose time lies in the past, changes nothing. */
module SecretsShared {
  import opened Common
  import opened Secrets

  /** Where a call stands between two of its steps. */
  datatype Phase =
    | Looked(key: Key, cached: Option<Cached>)
    | Missed(key: Key)
    | Fetched(key: Key, value: Secret, at: int)
    | Stored(key: Key, value: Secret, at: int)
    | Deleting(key: Key)
    | RefreshLoop(keys: seq<Key>)
    | RefreshRead(key: Key, keys: seq<Key>)
    | Refetched(key: Key, value: Secret, at: int, keys: seq<Key>)

  datatype Snapshot = Snapshot(time: int, store: Store)

  /** A value that GetSecret returned; `time` is its last clock reading. */
  datatype Returned = Returned(key: Key, value: Secret, time: int)

  /** The store, the cache and the calls under way; and, as history, what the store was at each moment, what
      was returned, and the longest time from a store reply to the cache write that used it. */
  datatype World = World(
    store: Store,
    cache: Entries,
    refreshKeys: set<Key>,
    calls: map<nat, Phase>,
    clock: int,
    past: seq<Snapshot>,
    returned: seq<Returned>,
    gap: int)

  datatype Action =
    | GetLookup(c: nat, key: Key)
    | GetCheck(c: nat)
    | GetRead(c: nat, ok: bool)
    | SetStore(c: nat, key: Key, value: Secret, ok: bool)
    | DeleteStore(c: nat, key: Key, ok: bool)
    | DeleteCached(c: nat)
    | RefreshStart(c: nat, keys: seq<Key>)
    | RefreshNext(c: nat)
    | RefreshFetch(c: nat, ok: bool)
    | CacheWrite(c: nat)
    | CloseCache
    | OutsideWrite(store: Store)

  datatype Event = Event(now: int, action: Action)

  function Max(a: int, b: int): int { if a >= b then a else b }

  function SetCall(s: World, c: nat, p: Phase): World { s.(calls := s.calls[c := p]) }

  function EndCall(s: World, c: nat): World { s.(calls := s.calls - {c}) }

  /** A cache write at time now of a value that the store gave at time at. */
  function WriteCache(ttl: int, s: World, key: Key, value: Secret, at: int, now: int, add: set<Key>): World
  {
    s.(cache := s.cache[key := Cached(value, now + ttl)], refreshKeys := s.refreshKeys + add,
       gap := Max(s.gap, now - at))
  }

  function Act(ttl: int, s: World, now: int, a: Action): World
  {
    match a
    case GetLookup(c, key) =>
      if c in s.calls then s else SetCall(s, c, Looked(key, if key in s.cache then Some(s.cache[key]) else None))
    case GetCheck(c) =>
      if c !in s.calls || !s.calls[c].Looked? then s
      else
        var p := s.calls[c];
        if p.cached.Some? && now < p.cached.value.expiration
        then EndCall(s, c).(returned := s.returned + [Returned(p.key, p.cached.value.value, now)])
        else SetCall(s, c, Missed(p.key))
    case GetRead(c, ok) =>
      if c !in s.calls || !s.calls[c].Missed? then s
      else
        var key := s.calls[c].key;
        if ok && key in s.store then SetCall(s, c, Fetched(key, s.store[key], now)) else EndCall(s, c)
    case SetStore(c, key, value, ok) =>
      if c in s.calls || !ok then s else SetCall(s, c, Stored(key, value, now)).(store := s.store[key := value])
    case DeleteStore(c, key, ok) =>
      if c in s.calls || !ok then s else SetCall(s, c, Deleting(key)).(store := s.store - {key})
    case DeleteCached(c) =>
      if c !in s.calls || !s.calls[c].Deleting? then s
      else
        var key := s.calls[c].key;
        EndCall(s, c).(cache := s.cache - {key}, refreshKeys := s.refreshKeys - {key})
    case RefreshStart(c, keys) =>
      if c in s.calls || (set k | k in keys) != s.refreshKeys then s else SetCall(s, c, RefreshLoop(keys))
    case RefreshNext(c) =>
      if c !in s.calls || !s.calls[c].RefreshLoop? then s
      else
        var keys := s.calls[c].keys;
        if keys == [] then EndCall(s, c)
        else if keys[0] in s.cache then SetCall(s, c, RefreshRead(keys[0], keys[1..]))
        else SetCall(s, c, RefreshLoop(keys[1..]))
    case RefreshFetch(c, ok) =>
      if c !in s.calls || !s.calls[c].RefreshRead? then s
      else
        var key, keys := s.calls[c].key, s.calls[c].keys;
        if ok && key in s.store then SetCall(s, c, Refetched(key, s.store[key], now, keys))
        else SetCall(s, c, RefreshLoop(keys))
    case CacheWrite(c) =>
      if c !in s.calls then s
      else
        var p := s.calls[c];
        (
          match p
          case Fetched(key, value, at) =>
            WriteCache(ttl, EndCall(s, c), key, value, at, now, {key})
              .(returned := s.returned + [Returned(key, value, now)])
          case Stored(key, value, at) => WriteCache(ttl, EndCall(s, c), key, value, at, now, {key})
          case Refetched(key, value, at, keys) =>
            WriteCache(ttl, SetCall(s, c, RefreshLoop(keys)), key, value, at, now, {})
          case _ => s
        )
    case CloseCache => s.(cache := map[], refreshKeys := {})
    case OutsideWrite(store) => s.(store := store)
  }

  function Step(ttl: int, s: World, e: Event): World
  {
    if e.now < s.clock then s
    else
      var s' := Act(ttl, s, e.now, e.action);
      s'.(clock := e.now, past := s.past + [Snapshot(e.now, s'.store)])
  }

  function Run(ttl: int, s: World, events: seq<Event>): World
    decreases |events|
  {
    if events == [] then s else Run(ttl, Step(ttl, s, events[0]), events[1..])
  }

  function Start(store: Store, clock: int): World
  {
    World(store, map[], {}, map[], clock, [Snapshot(clock, store)], [], 0)
  }

  // ------------------------------------------------------------------ the invariant

  /** The store's value for the key was this one at some moment not before t. */
  predicate WasSince(past: seq<Snapshot>, key: Key, value: Secret, t: int)
  {
    exists i :: 0 <= i < |past| && t <= past[i].time && key in past[i].store && past[i].store[key] == value
  }

  predicate EntryOk(ttl: int, past: seq<Snapshot>, gap: int, key: Key, c: Cached)
  {
    WasSince(past, key, c.value, c.expiration - ttl - gap)
  }

  predicate PhaseOk(ttl: int, past: seq<Snapshot>, gap: int, p: Phase)
  {
    match p
    case Looked(key, cached) => cached.Some? ==> EntryOk(ttl, past, gap, key, cached.value)
    case Fetched(key, value, at) => WasSince(past, key, value, at)
    case Stored(key, value, at) => WasSince(past, key, value, at)
    case Refetched(key, value, at, _) => WasSince(past, key, value, at)
    case _ => true
  }

  /** Not older than the time to live plus the longest gap. */
  predicate FreshEnough(ttl: int, past: seq<Snapshot>, gap: int, r: Returned)
  {
    WasSince(past, r.key, r.value, r.time - Max(ttl, 0) - gap)
  }

  predicate CacheOk(ttl: int, past: seq<Snapshot>, gap: int, cache: Entries)
  {
    forall key :: key in cache ==> EntryOk(ttl, past, gap, key, cache[key])
  }

  predicate CallsOk(ttl: int, past: seq<Snapshot>, gap: int, calls: map<nat, Phase>)
  {
    forall c :: c in calls ==> PhaseOk(ttl, past, gap, calls[c])
  }

  predicate ReturnsOk(ttl: int, past: seq<Snapshot>, gap: int, returned: seq<Returned>)
  {
    forall i :: 0 <= i < |returned| ==> FreshEnough(ttl, past, gap, returned[i])
  }

  predicate Inv(ttl: int, s: World)
  {
    CacheOk(ttl, s.past, s.gap, s.cache) && CallsOk(ttl, s.past, s.gap, s.calls) &&
    ReturnsOk(ttl, s.past, s.gap, s.returned)
  }

  lemma WasSinceGrows(past: seq<Snapshot>, snap: Snapshot, key: Key, value: Secret, t: int, earlier: int)
    requires WasSince(past, key, value, t) && earlier <= t
    ensures WasSince(past + [snap], key, value, earlier)
  {
    var i :| 0 <= i < |past| && t <= past[i].time && key in past[i].store && past[i].store[key] == value;
    assert (past + [snap])[i] == past[i];
  }

  lemma WasJustNow(past: seq<Snapshot>, snap: Snapshot, key: Key)
    requires key in snap.store
    ensures WasSince(past + [snap], key, snap.store[key], snap.time)
  {
    assert (past + [snap])[|past|] == snap;
  }

  lemma PhaseGrows(ttl: int, past: seq<Snapshot>, gap: int, snap: Snapshot, gap': int, p: Phase)
    requires PhaseOk(ttl, past, gap, p) && gap <= gap'
    ensures PhaseOk(ttl, past + [snap], gap', p)
  {
    match p
    case Looked(key, cached) =>
      if cached.Some? {
        var t := cached.value.expiration - ttl;
        WasSinceGrows(past, snap, key, cached.value.value, t - gap, t - gap');
      }
    case Fetched(key, value, at) => WasSinceGrows(past, snap, key, value, at, at);
    case Stored(key, value, at) => WasSinceGrows(past, snap, key, value, at, at);
    case Refetched(key, value, at, _) => WasSinceGrows(past, snap, key, value, at, at);
    case _ =>
  }

  /** Time passing and gaps growing keep everything right. */
  lemma InvGrows(ttl: int, s: World, snap: Snapshot, gap': int)
    requires Inv(ttl, s) && s.gap <= gap'
    ensures var past' := s.past + [snap];
            && CacheOk(ttl, past', gap', s.cache) && CallsOk(ttl, past', gap', s.calls)
            && ReturnsOk(ttl, past', gap', s.returned)
  {
    forall key | key in s.cache ensures EntryOk(ttl, s.past + [snap], gap', key, s.cache[key]) {
      var c := s.cache[key];
      assert EntryOk(ttl, s.past, s.gap, key, c);
      WasSinceGrows(s.past, snap, key, c.value, c.expiration - ttl - s.gap, c.expiration - ttl - gap');
    }
    forall c | c in s.calls ensures PhaseOk(ttl, s.past + [snap], gap', s.calls[c]) {
      PhaseGrows(ttl, s.past, s.gap, snap, gap', s.calls[c]);
    }
    forall i | 0 <= i < |s.returned| ensures FreshEnough(ttl, s.past + [snap], gap', s.returned[i]) {
      var r := s.returned[i];
      assert FreshEnough(ttl, s.past, s.gap, r);
      WasSinceGrows(s.past, snap, r.key, r.value, r.time - Max(ttl, 0) - s.gap, r.time - Max(ttl, 0) - gap');
    }
  }

  lemma ReturnsPlus(ttl: int, past: seq<Snapshot>, gap: int, returned: seq<Returned>, r: Returned)
    requires ReturnsOk(ttl, past, gap, returned) && FreshEnough(ttl, past, gap, r)
    ensures ReturnsOk(ttl, past, gap, returned + [r])
  {
  }

  lemma CallsSet(ttl: int, past: seq<Snapshot>, gap: int, calls: map<nat, Phase>, c: nat, p: Phase)
    requires CallsOk(ttl, past, gap, calls) && PhaseOk(ttl, past, gap, p)
    ensures CallsOk(ttl, past, gap, calls[c := p])
  {
  }

  /** A cached value, when it is returned before it expires. */
  lemma HitIsFresh(ttl: int, past: seq<Snapshot>, gap: int, key: Key, c: Cached, snap: Snapshot)
    requires EntryOk(ttl, past, gap, key, c) && snap.time < c.expiration
    ensures FreshEnough(ttl, past + [snap], gap, Returned(key, c.value, snap.time))
  {
    WasSinceGrows(past, snap, key, c.value, c.expiration - ttl - gap, snap.time - Max(ttl, 0) - gap);
  }

  /** A value that the store gave at time at, when it is written to the cache and returned at time now. */
  lemma WriteIsFresh(ttl: int, past: seq<Snapshot>, gap: int, key: Key, value: Secret, at: int, snap: Snapshot)
    requires WasSince(past, key, value, at)
    ensures var gap' := Max(gap, snap.time - at);
            && EntryOk(ttl, past + [snap], gap', key, Cached(value, snap.time + ttl))
            && FreshEnough(ttl, past + [snap], gap', Returned(key, value, snap.time))
  {
    var gap' := Max(gap, snap.time - at);
    WasSinceGrows(past, snap, key, value, at, snap.time - gap');
    WasSinceGrows(past, snap, key, value, at, snap.time - Max(ttl, 0) - gap');
  }

  lemma CacheWriteEffect(ttl: int, s: World, c: nat, now: int, gap: int, past: seq<Snapshot>)
    requires Inv(ttl, s) && s.clock <= now && c in s.calls
    requires s.calls[c].Fetched? || s.calls[c].Stored? || s.calls[c].Refetched?
    requires gap == Max(s.gap, now - s.calls[c].at) && past == s.past + [Snapshot(now, s.store)]
    ensures var p := s.calls[c];
            && CacheOk(ttl, past, gap, s.cache[p.key := Cached(p.value, now + ttl)])
            && CallsOk(ttl, past, gap, s.calls)
            && ReturnsOk(ttl, past, gap, s.returned)
            && ReturnsOk(ttl, past, gap, s.returned + [Returned(p.key, p.value, now)])
  {
    var p, snap := s.calls[c], Snapshot(now, s.store);
    assert PhaseOk(ttl, s.past, s.gap, p);
    InvGrows(ttl, s, snap, gap);
    WriteIsFresh(ttl, s.past, s.gap, p.key, p.value, p.at, snap);
    ReturnsPlus(ttl, past, gap, s.returned, Returned(p.key, p.value, now));
  }

  lemma CacheWriteKeepsInv(ttl: int, s: World, c: nat, now: int)
    requires Inv(ttl, s) && s.clock <= now && c in s.calls
    requires s.calls[c].Fetched? || s.calls[c].Stored? || s.calls[c].Refetched?
    ensures Inv(ttl, Step(ttl, s, Event(now, CacheWrite(c))))
  {
    var gap, past := Max(s.gap, now - s.calls[c].at), s.past + [Snapshot(now, s.store)];
    CacheWriteEffect(ttl, s, c, now, gap, past);
    if s.calls[c].Refetched? {
      CallsSet(ttl, past, gap, s.calls, c, RefreshLoop(s.calls[c].keys));
    }
  }

  lemma GetKeepsInv(ttl: int, s: World, now: int, a: Action)
    requires Inv(ttl, s) && s.clock <= now && (a.GetLookup? || a.GetCheck? || a.GetRead?)
    ensures Inv(ttl, Step(ttl, s, Event(now, a)))
  {
    var snap := Snapshot(now, s.store);
    InvGrows(ttl, s, snap, s.gap);
    if a.GetLookup? {
      var p := Looked(a.key, if a.key in s.cache then Some(s.cache[a.key]) else None);
      CallsSet(ttl, s.past + [snap], s.gap, s.calls, a.c, p);
    } else if a.c in s.calls {
      assert PhaseOk(ttl, s.past, s.gap, s.calls[a.c]);
      if a.GetCheck? && s.calls[a.c].Looked? {
        var p := s.calls[a.c];
        if p.cached.Some? && now < p.cached.value.expiration {
          HitIsFresh(ttl, s.past, s.gap, p.key, p.cached.value, snap);
          ReturnsPlus(ttl, s.past + [snap], s.gap, s.returned, Returned(p.key, p.cached.value.value, now));
        } else {
          CallsSet(ttl, s.past + [snap], s.gap, s.calls, a.c, Missed(p.key));
        }
      } else if a.GetRead? && s.calls[a.c].Missed? && s.calls[a.c].key in s.store {
        var key := s.calls[a.c].key;
        WasJustNow(s.past, snap, key);
        CallsSet(ttl, s.past + [snap], s.gap, s.calls, a.c, Fetched(key, s.store[key], now));
      }
    }
  }

  lemma WriteKeepsInv(ttl: int, s: World, now: int, a: Action)
    requires Inv(ttl, s) && s.clock <= now
    requires (a.SetStore? || a.DeleteStore? || a.DeleteCached? || a.CloseCache? || a.OutsideWrite?)
    ensures Inv(ttl, Step(ttl, s, Event(now, a)))
  {
    var snap := Snapshot(now, Act(ttl, s, now, a).store);
    InvGrows(ttl, s, snap, s.gap);
    if a.SetStore? && a.ok && a.c !in s.calls {
      WasJustNow(s.past, snap, a.key);
      CallsSet(ttl, s.past + [snap], s.gap, s.calls, a.c, Stored(a.key, a.value, now));
    } else if a.DeleteStore? && a.ok && a.c !in s.calls {
      CallsSet(ttl, s.past + [snap], s.gap, s.calls, a.c, Deleting(a.key));
    }
  }

  lemma RefreshKeepsInv(ttl: int, s: World, now: int, a: Action)
    requires Inv(ttl, s) && s.clock <= now && (a.RefreshStart? || a.RefreshNext? || a.RefreshFetch?)
    ensures Inv(ttl, Step(ttl, s, Event(now, a)))
  {
    var snap := Snapshot(now, s.store);
    InvGrows(ttl, s, snap, s.gap);
    if a.RefreshStart? {
      CallsSet(ttl, s.past + [snap], s.gap, s.calls, a.c, RefreshLoop(a.keys));
    } else if a.c in s.calls {
      var p := s.calls[a.c];
      if a.RefreshNext? && p.RefreshLoop? && p.keys != [] {
        CallsSet(ttl, s.past + [snap], s.gap, s.calls, a.c, RefreshRead(p.keys[0], p.keys[1..]));
        CallsSet(ttl, s.past + [snap], s.gap, s.calls, a.c, RefreshLoop(p.keys[1..]));
      } else if a.RefreshFetch? && p.RefreshRead? {
        if p.key in s.store {
          WasJustNow(s.past, snap, p.key);
          CallsSet(ttl, s.past + [snap], s.gap, s.calls, a.c, Refetched(p.key, s.store[p.key], now, p.keys));
        }
        CallsSet(ttl, s.past + [snap], s.gap, s.calls, a.c, RefreshLoop(p.keys));
      }
    }
  }

  lemma StepKeepsInv(ttl: int, s: World, e: Event)
    requires Inv(ttl, s)
    ensures Inv(ttl, Step(ttl, s, e))
  {
    var a := e.action;
    if e.now < s.clock {
    } else if a.CacheWrite? {
      if a.c in s.calls && (s.calls[a.c].Fetched? || s.calls[a.c].Stored? || s.calls[a.c].Refetched?) {
        CacheWriteKeepsInv(ttl, s, a.c, e.now);
      } else {
        InvGrows(ttl, s, Snapshot(e.now, s.store), s.gap);
      }
    } else if a.GetLookup? || a.GetCheck? || a.GetRead? {
      GetKeepsInv(ttl, s, e.now, a);
    } else if a.RefreshStart? || a.RefreshNext? || a.RefreshFetch? {
      RefreshKeepsInv(ttl, s, e.now, a);
    } else {
      WriteKeepsInv(ttl, s, e.now, a);
    }
  }

  lemma {:induction false} RunKeepsInv(ttl: int, s: World, events: seq<Event>)
    requires Inv(ttl, s)
    ensures Inv(ttl, Run(ttl, s, events))
    decreases |events|
  {
    if events != [] {
      StepKeepsInv(ttl, s, events[0]);
      RunKeepsInv(ttl, Step(ttl, s, events[0]), events[1..]);
    }
  }

  /** In every interleaving of calls, refreshes and outside writers, a value that GetSecret returns was the
      store's value for that key at some moment no older than the time to live plus the longest gap between
      a store reply and its cache write. */
  lemma StalenessIsBounded(ttl: int, store: Store, clock: int, events: seq<Event>, i: nat)
    requires i < |Run(ttl, Start(store, clock), events).returned|
    ensures var s := Run(ttl, Start(store, clock), events);
            var r := s.returned[i];
            exists k :: 0 <= k < |s.past| && s.past[k].time >= r.time - Max(ttl, 0) - s.gap
                     && r.key in s.past[k].store && s.past[k].store[r.key] == r.value
  {
    RunKeepsInv(ttl, Start(store, clock), events);
    var s := Run(ttl, Start(store, clock), events);
    assert FreshEnough(ttl, s.past, s.gap, s.returned[i]);
  }
}
