/** The response cache: day-keyed entries with a lifetime. */
module LlmCache {
  import opened Common
  import opened LlmTypes
  import opened Redis

  const CACHE_SCHEMA_VERSION := "v1"

  datatype CachedCompletion = CachedCompletion(output: JsonObject, provider: string, modelName: string)

  function BuildKey(task: TaskType, payload: Payload, prompt: string, modelName: string, schema: Schema, now: nat)
    : CacheKey
  {
    CacheKey(CACHE_SCHEMA_VERSION, task, DayOf(now), Digest(payload.body, prompt, modelName, schema))
  }

  /** The JSON envelope written by `Store`. */
  function Envelope(output: JsonObject, provider: string, modelName: string): Json {
    JObject(map["output" := JObject(output), "provider" := JText(provider), "model_name" := JText(modelName)])
  }

  /** What `Lookup` makes of the bytes it read: anything malformed is a miss. */
  function Decode(blob: Blob): Option<CachedCompletion> {
    match blob
    case EmptyBlob => None
    case Undecodable => None
    case Encoded(json) =>
      if !json.JObject? then None
      else if "output" !in json.fields || !json.fields["output"].JObject? then None
      else if "provider" !in json.fields || !json.fields["provider"].JText? then None
      else if "model_name" !in json.fields || !json.fields["model_name"].JText? then None
      else Some(CachedCompletion(
        json.fields["output"].fields, json.fields["provider"].text, json.fields["model_name"].text))
  }

  function LookedUp(store: Store, key: CacheKey, now: nat, fails: bool): Option<CachedCompletion> {
    if fails then None
    else
      match Get(store, key, now)
      case None => None
      case Some(blob) => Decode(blob)
  }

  function Stored(
    store: Store, key: CacheKey, output: JsonObject, client: Client, ttlSeconds: int, now: nat, fails: bool): Store
  {
    if fails then store
    else
      match Set(store, key, Encoded(Envelope(output, client.providerName, client.modelName)), now, ttlSeconds)
      case Ok(written) => written
      case Err(_) => store
  }

  /** Reading back what was written: the same completion until the lifetime ends, a miss from then on,
      and no other key is affected. */
  lemma StoreThenLookup(
    store: Store, key: CacheKey, other: CacheKey, output: JsonObject, client: Client, ttlSeconds: nat, now: nat,
    later: nat)
    requires ttlSeconds > 0 && now <= later
    ensures var written := Stored(store, key, output, client, ttlSeconds, now, false);
            && LookedUp(written, key, later, false)
               == (if later < now + ttlSeconds
                   then Some(CachedCompletion(output, client.providerName, client.modelName)) else None)
            && (other != key ==> LookedUp(written, other, later, false) == LookedUp(store, other, later, false))
  {
  }

  class LLMResponseCache {
    const redis: RedisServer
    const ttlSeconds: int

    constructor (redis: RedisServer, ttlSeconds: int)
      ensures this.redis == redis && this.ttlSeconds == ttlSeconds
    {
      this.redis := redis;
      this.ttlSeconds := ttlSeconds;
    }

    method Lookup(key: CacheKey, now: nat, fails: bool) returns (hit: Option<CachedCompletion>)
      ensures hit == LookedUp(redis.store, key, now, fails)
    {
      var raw := redis.DoGet(key, now, fails);
      if raw.Err? || raw.value.None? {
        return None;
      }
      hit := Decode(raw.value.value);
    }

    method Store(key: CacheKey, output: JsonObject, client: Client, now: nat, fails: bool)
      modifies redis
      ensures redis.store == Stored(old(redis.store), key, output, client, ttlSeconds, now, fails)
    {
      var blob := Encoded(Envelope(output, client.providerName, client.modelName));
      var _ := redis.DoSet(key, blob, now, ttlSeconds, fails);
    }
  }
}
