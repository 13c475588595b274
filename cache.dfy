/** The in-memory TTL cache of src/lib/cache.ts: a process-wide dictionary from
    string keys to entries that carry a payload and an absolute expiry time in
    milliseconds. The wall clock is passed in as `now`. */
module TtlCache {
  import opened Wrappers

  /** Lifetime of an entry when the caller gives none, in seconds. */
  const DefaultTtl: int := 60

  /** The clock counts milliseconds, lifetimes count seconds. */
  const MillisPerSecond: int := 1000

  /** A stored payload and the instant after which it is no longer served. */
  datatype Entry<T> = Entry(data: T, expires: int)

  /** Expiry instant of an entry written at `now` that lives `ttl` seconds. */
  function ExpiresAt(now: int, ttl: int): (r: int)
    ensures ttl >= 0 ==> now <= r
    ensures ttl == DefaultTtl ==> r == now + 60000
  {
    now + ttl * MillisPerSecond
  }

  /** An entry is expired only once its expiry lies strictly before `now`. */
  predicate Expired<T>(e: Entry<T>, now: int) {
    e.expires < now
  }

  /** What a read of `key` at time `now` yields from `store`: nothing for a
      missing key or an expired entry, the payload otherwise. */
  function Lookup<T>(store: map<string, Entry<T>>, key: string, now: int): (r: Option<T>)
    ensures r.None? <==> key !in store || store[key].expires < now
    ensures r.Some? ==> key in store && r.value == store[key].data
  {
    if key !in store || Expired(store[key], now) then None else Some(store[key].data)
  }

  /** The store after writing `data` under `key` at time `now` with lifetime `ttl`. */
  function Stored<T>(store: map<string, Entry<T>>, key: string, data: T, ttl: int, now: int)
    : (r: map<string, Entry<T>>)
    ensures r.Keys == store.Keys + {key}
    ensures r[key].data == data && r[key].expires == now + ttl * 1000
    ensures forall k :: k in store && k != key ==> r[k] == store[k]
  {
    store[key := Entry(data, ExpiresAt(now, ttl))]
  }

  /** A write is read back, at any time `t`, exactly until its expiry instant. */
  lemma ReadAfterWrite<T>(store: map<string, Entry<T>>, key: string, data: T, ttl: int, now: int, t: int)
    ensures Lookup(Stored(store, key, data, ttl, now), key, t).Some? <==> t <= now + ttl * 1000
    ensures Lookup(Stored(store, key, data, ttl, now), key, t).Some? ==>
              Lookup(Stored(store, key, data, ttl, now), key, t).value == data
    ensures 0 <= ttl && now <= t <= ExpiresAt(now, ttl) ==>
              Lookup(Stored(store, key, data, ttl, now), key, t) == Some(data)
  {
  }

  /** A write to one key leaves every read of every other key as it was. */
  lemma WriteLeavesOtherKeys<T>(store: map<string, Entry<T>>, key: string, data: T, ttl: int, now: int,
                                other: string, t: int)
    requires other != key
    ensures Lookup(Stored(store, key, data, ttl, now), other, t) == Lookup(store, other, t)
  {
  }

  /** Once a read misses, every later read of the same store misses too. */
  lemma ExpiryIsPermanent<T>(store: map<string, Entry<T>>, key: string, t: int, t': int)
    requires t <= t'
    requires Lookup(store, key, t).None?
    ensures Lookup(store, key, t').None?
  {
  }

  /** One call of `set`, with the clock reading it saw. */
  datatype SetCall<T> = SetCall(key: string, data: T, ttl: int, now: int)

  /** The store after the given calls of `set`, applied in order. */
  function Replay<T>(store: map<string, Entry<T>>, calls: seq<SetCall<T>>): map<string, Entry<T>>
    decreases |calls|
  {
    if calls == [] then store
    else
      var c := calls[0];
      Replay(Stored(store, c.key, c.data, c.ttl, c.now), calls[1..])
  }

  /** Replaying two batches one after the other is replaying them joined. */
  lemma {:induction false} ReplayAppend<T>(store: map<string, Entry<T>>, first: seq<SetCall<T>>,
                                            second: seq<SetCall<T>>)
    ensures Replay(store, first + second) == Replay(Replay(store, first), second)
    decreases |first|
  {
    if first != [] {
      var c := first[0];
      assert (first + second)[0] == c;
      assert (first + second)[1..] == first[1..] + second;
      ReplayAppend(Stored(store, c.key, c.data, c.ttl, c.now), first[1..], second);
    } else {
      assert first + second == second;
    }
  }

  /** Calls that never name `k` leave the entry under `k` (or its absence) as it was. */
  lemma {:induction false} UntouchedKeyUnchanged<T>(store: map<string, Entry<T>>, calls: seq<SetCall<T>>,
                                                     k: string)
    requires forall i :: 0 <= i < |calls| ==> calls[i].key != k
    ensures k in Replay(store, calls) <==> k in store
    ensures k in store ==> Replay(store, calls)[k] == store[k]
    decreases |calls|
  {
    if calls != [] {
      var c := calls[0];
      assert c.key != k;
      UntouchedKeyUnchanged(Stored(store, c.key, c.data, c.ttl, c.now), calls[1..], k);
    }
  }

  /** A key no call of `set` ever named reads as absent from a fresh cache, at any time. */
  lemma NeverSetIsMissing<T>(calls: seq<SetCall<T>>, k: string, t: int)
    requires forall i :: 0 <= i < |calls| ==> calls[i].key != k
    ensures Lookup(Replay(map[], calls), k, t).None?
  {
    UntouchedKeyUnchanged(map[], calls, k);
  }

  /** The last `set` of a key decides its entry, whatever was written before
      and whatever other keys are written after. */
  lemma LastWriteWins<T>(store: map<string, Entry<T>>, earlier: seq<SetCall<T>>, last: SetCall<T>,
                         later: seq<SetCall<T>>)
    requires forall i :: 0 <= i < |later| ==> later[i].key != last.key
    ensures last.key in Replay(store, earlier + [last] + later)
    ensures Replay(store, earlier + [last] + later)[last.key] == Entry(last.data, ExpiresAt(last.now, last.ttl))
  {
    var mid := Replay(store, earlier + [last]);
    ReplayAppend(store, earlier + [last], later);
    ReplayAppend(store, earlier, [last]);
    assert [last][1..] == [];
    UntouchedKeyUnchanged(mid, later, last.key);
  }

  /** The cache object: one mutable dictionary from keys to entries. */
  class Cache<T> {
    var store: map<string, Entry<T>>

    /** The cache starts empty. */
    constructor ()
      ensures store == map[]
    {
      store := map[];
    }

    /** Reads `key` at time `now`; reading never changes the store, so an
        expired entry stays in place until it is overwritten. */
    method Get(key: string, now: int) returns (r: Option<T>)
      ensures r == Lookup(store, key, now)
      ensures r.None? <==> key !in store || Expired(store[key], now)
      ensures r.Some? ==> key in store && r.value == store[key].data
    {
      if key !in store || store[key].expires < now {
        return None;
      }
      return Some(store[key].data);
    }

    /** Writes or overwrites the entry under `key`, expiring `ttl` seconds
        (by default 60) after `now`; every other key keeps its entry. */
    method Set(key: string, data: T, now: int, ttl: int := DefaultTtl)
      modifies this
      ensures store == Stored(old(store), key, data, ttl, now)
      ensures key in store && store[key] == Entry(data, now + ttl * 1000)
      ensures forall k :: k != key ==> (k in store <==> k in old(store))
      ensures forall k :: k != key && k in old(store) ==> store[k] == old(store)[k]
    {
      store := store[key := Entry(data, now + ttl * MillisPerSecond)];
    }
  }
}
