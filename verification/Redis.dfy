/** The shared Redis instance: call counters and response blobs, each with an optional expiry. */
module Redis {
  import opened Common
  import opened LlmTypes

  datatype Entry<+T> = Entry(value: T, expiresAt: Option<nat>)

  predicate Alive<T>(entry: Entry<T>, now: nat) {
    entry.expiresAt.None? || now < entry.expiresAt.value
  }

  /** The hashed part of a cache key; SHA-256 and canonical JSON are taken to be injective. */
  datatype Digest = Digest(body: Json, prompt: string, modelName: string, schema: Schema)

  datatype CacheKey = CacheKey(version: string, task: TaskType, day: nat, digest: Digest)

  /** A stored byte string, up to what the reader can make of it. */
  datatype Blob = EmptyBlob | Undecodable | Encoded(json: Json)

  /** `incrLog` lists the days whose counter was incremented, in order. */
  datatype Store = Store(
    counters: map<nat, Entry<nat>>,
    blobs: map<CacheKey, Entry<Blob>>,
    incrLog: seq<nat>)

  function EmptyStore(): Store {
    Store(map[], map[], [])
  }

  /** The value a client observes for a day's counter: a missing or expired key counts from zero. */
  function Counter(store: Store, day: nat, now: nat): nat {
    if day in store.counters && Alive(store.counters[day], now) then store.counters[day].value else 0
  }

  /** INCR: a live key keeps its expiry; a missing or expired one starts at 1 without an expiry. */
  function Incr(store: Store, day: nat, now: nat): Store {
    var entry :=
      if day in store.counters && Alive(store.counters[day], now)
      then Entry(store.counters[day].value + 1, store.counters[day].expiresAt)
      else Entry(1, None);
    store.(counters := store.counters[day := entry], incrLog := store.incrLog + [day])
  }

  /** EXPIRE: sets the expiry of a live key and does nothing to a missing one. */
  function Expire(store: Store, day: nat, now: nat, seconds: nat): Store {
    if day in store.counters && Alive(store.counters[day], now)
    then store.(counters := store.counters[day := Entry(store.counters[day].value, Some(now + seconds))])
    else store
  }

  function Get(store: Store, key: CacheKey, now: nat): Option<Blob> {
    if key in store.blobs && Alive(store.blobs[key], now) then Some(store.blobs[key].value) else None
  }

  /** SET with an expiry; Redis refuses a lifetime that is not positive. */
  function Set(store: Store, key: CacheKey, blob: Blob, now: nat, seconds: int): Result<Store, LlmError> {
    if seconds <= 0
    then Err(RedisUnavailable)
    else Ok(store.(blobs := store.blobs[key := Entry(blob, Some(now + seconds))]))
  }

  /** The server object; `fails` says that the command raises instead of running. */
  class RedisServer {
    var store: Store

    constructor ()
      ensures store == EmptyStore()
    {
      store := EmptyStore();
    }

    method DoIncr(day: nat, now: nat, fails: bool) returns (count: Result<nat, LlmError>)
      modifies this
      ensures fails ==> count == Err(RedisUnavailable) && store == old(store)
      ensures !fails ==> store == Incr(old(store), day, now) && count == Ok(Counter(store, day, now))
    {
      if fails {
        return Err(RedisUnavailable);
      }
      store := Incr(store, day, now);
      count := Ok(Counter(store, day, now));
    }

    method DoExpire(day: nat, now: nat, seconds: nat, fails: bool) returns (done: Result<(), LlmError>)
      modifies this
      ensures fails ==> done == Err(RedisUnavailable) && store == old(store)
      ensures !fails ==> done == Ok(()) && store == Expire(old(store), day, now, seconds)
    {
      if fails {
        return Err(RedisUnavailable);
      }
      store := Expire(store, day, now, seconds);
      done := Ok(());
    }

    method DoGet(key: CacheKey, now: nat, fails: bool) returns (blob: Result<Option<Blob>, LlmError>)
      ensures blob == if fails then Err(RedisUnavailable) else Ok(Get(store, key, now))
    {
      blob := if fails then Err(RedisUnavailable) else Ok(Get(store, key, now));
    }

    method DoSet(key: CacheKey, blob: Blob, now: nat, seconds: int, fails: bool) returns (done: Result<(), LlmError>)
      modifies this
      ensures fails || seconds <= 0 ==> done == Err(RedisUnavailable) && store == old(store)
      ensures !fails && seconds > 0 ==>
        done == Ok(()) && Set(old(store), key, blob, now, seconds) == Ok(store)
    {
      if fails || seconds <= 0 {
        return Err(RedisUnavailable);
      }
      store := store.(blobs := store.blobs[key := Entry(blob, Some(now + seconds))]);
      done := Ok(());
    }
  }
}
