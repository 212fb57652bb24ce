/** security/secrets.go: CachedSecretStore over MemorySecretStore, used by one caller at a time. Clock
    readings are arguments and may be anything. */
module Secrets {

  datatype Key = Key(text: string)
  datatype Secret = Secret(bytes: seq<int>)

  datatype Cached = Cached(value: Secret, expiration: int)

  type Store = map<Key, Secret>
  type Entries = map<Key, Cached>

  // ------------------------------------------------------------------ runs, on values

  /** A call, with the clock readings it makes. Refresh goes through the keys in some order. */
  datatype Op =
    | Get(key: Key, now: int, writtenAt: int)
    | Set(key: Key, value: Secret, writtenAt: int)
    | Delete(key: Key)
    | Refresh(keys: seq<Key>, writtenAt: int)
    | Close

  datatype Answer = Found(value: Secret) | NotFound | Done

  datatype Bare = Bare(store: Store, answer: Answer)

  datatype Wrapped = Wrapped(store: Store, entries: Entries, answer: Answer)

  function Lookup(store: Store, key: Key): Answer { if key in store then Found(store[key]) else NotFound }

  /** The call on the bare MemorySecretStore. */
  function BareStep(store: Store, op: Op): Bare
  {
    match op
    case Get(key, _, _) => Bare(store, Lookup(store, key))
    case Set(key, value, _) => Bare(store[key := value], Done)
    case Delete(key) => Bare(store - {key}, Done)
    case Refresh(_, _) => Bare(store, Done)
    case Close => Bare(map[], Done)
  }

  function RefreshAll(ttl: int, store: Store, entries: Entries, keys: seq<Key>, writtenAt: int): Entries
  {
    if keys == [] then entries
    else
      var key := keys[0];
      var next := if key in entries && key in store then entries[key := Cached(store[key], writtenAt + ttl)]
                  else entries;
      RefreshAll(ttl, store, next, keys[1..], writtenAt)
  }

  /** The call on the CachedSecretStore. */
  function CachedStep(ttl: int, store: Store, entries: Entries, op: Op): Wrapped
  {
    match op
    case Get(key, now, writtenAt) =>
      if key in entries && now < entries[key].expiration then Wrapped(store, entries, Found(entries[key].value))
      else if key in store then Wrapped(store, entries[key := Cached(store[key], writtenAt + ttl)], Found(store[key]))
      else Wrapped(store, entries, NotFound)
    case Set(key, value, writtenAt) =>
      Wrapped(store[key := value], entries[key := Cached(value, writtenAt + ttl)], Done)
    case Delete(key) => Wrapped(store - {key}, entries - {key}, Done)
    case Refresh(keys, writtenAt) => Wrapped(store, RefreshAll(ttl, store, entries, keys, writtenAt), Done)
    case Close => Wrapped(map[], map[], Done)
  }

  function BareAnswers(store: Store, ops: seq<Op>): seq<Answer>
    decreases |ops|
  {
    if ops == [] then [] else var r := BareStep(store, ops[0]); [r.answer] + BareAnswers(r.store, ops[1..])
  }

  function CachedAnswers(ttl: int, store: Store, entries: Entries, ops: seq<Op>): seq<Answer>
    decreases |ops|
  {
    if ops == [] then []
    else var r := CachedStep(ttl, store, entries, ops[0]); [r.answer] + CachedAnswers(ttl, r.store, r.entries, ops[1..])
  }

  /** Every cached value, expired or not, is the one in the store. */
  predicate Coherent(store: Store, entries: Entries)
  {
    forall key :: key in entries ==> key in store && entries[key].value == store[key]
  }

  lemma {:induction false} RefreshKeepsCoherent(ttl: int, store: Store, entries: Entries, keys: seq<Key>,
                                                writtenAt: int)
    requires Coherent(store, entries)
    ensures Coherent(store, RefreshAll(ttl, store, entries, keys, writtenAt))
    ensures RefreshAll(ttl, store, entries, keys, writtenAt).Keys == entries.Keys
    decreases |keys|
  {
    if keys != [] {
      var key := keys[0];
      var next := if key in entries && key in store then entries[key := Cached(store[key], writtenAt + ttl)]
                  else entries;
      RefreshKeepsCoherent(ttl, store, next, keys[1..], writtenAt);
    }
  }

  lemma StepRefines(ttl: int, store: Store, entries: Entries, op: Op)
    requires Coherent(store, entries)
    ensures var r, b := CachedStep(ttl, store, entries, op), BareStep(store, op);
            r.answer == b.answer && r.store == b.store && Coherent(r.store, r.entries)
  {
    if op.Refresh? {
      RefreshKeepsCoherent(ttl, store, entries, op.keys, op.writtenAt);
    }
  }

  lemma {:induction false} RunRefines(ttl: int, store: Store, entries: Entries, ops: seq<Op>)
    requires Coherent(store, entries)
    ensures CachedAnswers(ttl, store, entries, ops) == BareAnswers(store, ops)
    decreases |ops|
  {
    if ops != [] {
      StepRefines(ttl, store, entries, ops[0]);
      var r := CachedStep(ttl, store, entries, ops[0]);
      RunRefines(ttl, r.store, r.entries, ops[1..]);
    }
  }

  /** Every sequential run of the cached store, at any clock readings and with any time to live, answers as
      the bare store does. */
  lemma CacheRefinesStore(ttl: int, store: Store, ops: seq<Op>)
    ensures CachedAnswers(ttl, store, map[], ops) == BareAnswers(store, ops)
  {
    RunRefines(ttl, store, map[], ops);
  }

  // ------------------------------------------------------------------ the objects

  class MemorySecretStore {
    var secrets: Store

    constructor ()
      ensures secrets == map[]
    {
      secrets := map[];
    }

    method GetSecret(key: Key) returns (r: Answer)
      ensures key in secrets ==> r == Found(secrets[key])
      ensures key !in secrets ==> r == NotFound
    {
      r := if key in secrets then Found(secrets[key]) else NotFound;
    }

    method SetSecret(key: Key, value: Secret)
      modifies this
      ensures secrets == old(secrets)[key := value]
    {
      secrets := secrets[key := value];
    }

    method DeleteSecret(key: Key)
      modifies this
      ensures secrets == old(secrets) - {key}
    {
      secrets := secrets - {key};
    }

    method Close()
      modifies this
      ensures secrets == map[]
    {
      secrets := map[];
    }
  }

  class CachedSecretStore {
    const store: MemorySecretStore
    const cacheTTL: int
    var cache: Entries
    var refreshKeys: set<Key>

    /** The cache agrees with the store behind it, and exactly the cached keys are refreshed. */
    ghost predicate Valid()
      reads this, store
    {
      Coherent(store.secrets, cache) && refreshKeys == cache.Keys
    }

    constructor (store: MemorySecretStore, cacheTTL: int)
      ensures Valid() && this.store == store && this.cacheTTL == cacheTTL && cache == map[]
    {
      this.store, this.cacheTTL, cache, refreshKeys := store, cacheTTL, map[], {};
    }

    method GetSecret(key: Key, now: int, writtenAt: int) returns (r: Answer)
      requires Valid()
      modifies this
      ensures Valid() && r == Lookup(store.secrets, key)
      ensures cache == CachedStep(cacheTTL, store.secrets, old(cache), Get(key, now, writtenAt)).entries
      ensures key in old(cache) && now < old(cache)[key].expiration ==> cache == old(cache)
      ensures key !in old(cache) || now >= old(cache)[key].expiration ==>
                cache == if r.Found? then old(cache)[key := Cached(r.value, writtenAt + cacheTTL)] else old(cache)
    {
      if key in cache && now < cache[key].expiration {
        return Found(cache[key].value);
      }
      r := store.GetSecret(key);
      if r.NotFound? {
        return;
      }
      cache := cache[key := Cached(r.value, writtenAt + cacheTTL)];
      refreshKeys := refreshKeys + {key};
    }

    method SetSecret(key: Key, value: Secret, writtenAt: int)
      requires Valid()
      modifies this, store
      ensures Valid() && store.secrets == old(store.secrets)[key := value]
      ensures cache == old(cache)[key := Cached(value, writtenAt + cacheTTL)]
    {
      store.SetSecret(key, value);
      cache := cache[key := Cached(value, writtenAt + cacheTTL)];
      refreshKeys := refreshKeys + {key};
    }

    method DeleteSecret(key: Key)
      requires Valid()
      modifies this, store
      ensures Valid() && store.secrets == old(store.secrets) - {key} && cache == old(cache) - {key}
    {
      store.DeleteSecret(key);
      cache := cache - {key};
      refreshKeys := refreshKeys - {key};
    }

    /** The refresher's loop over the keys it copied; each value is read from the store again. */
    method RefreshCachedSecrets(writtenAt: int)
      requires Valid()
      modifies this
      ensures Valid() && cache.Keys == old(cache).Keys
      ensures forall key :: key in cache ==> cache[key] == Cached(store.secrets[key], writtenAt + cacheTTL)
    {
      var rest := refreshKeys;
      while rest != {}
        invariant Valid() && rest <= refreshKeys && cache.Keys == old(cache).Keys
        invariant store.secrets == old(store.secrets)
        invariant forall key :: key in cache && key !in rest ==>
                    cache[key] == Cached(store.secrets[key], writtenAt + cacheTTL)
        decreases rest
      {
        var key :| key in rest;
        rest := rest - {key};
        if key in cache {
          var r := store.GetSecret(key);
          if r.Found? {
            cache := cache[key := Cached(r.value, writtenAt + cacheTTL)];
          }
        }
      }
    }

    method Close()
      requires Valid()
      modifies this, store
      ensures Valid() && cache == map[] && store.secrets == map[]
    {
      cache, refreshKeys := map[], {};
      store.Close();
    }
  }
}
