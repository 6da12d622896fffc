/** The LLM gateway: routing, escalation, privacy, cache, budget, call and post-call verification. */
module LlmGateway {
  import opened Common
  import opened LlmTypes
  import opened LlmPolicy
  import opened LlmBudget
  import opened LlmCache
  import opened Redis

  /** How a gateway is assembled; `limit` and `cacheTtl` are absent when no budget or cache is attached. */
  datatype Config = Config(
    clients: map<Slot, Client>,
    routes: map<TaskType, Slot>,
    limit: Option<int>,
    cacheTtl: Option<int>,
    policy: Option<Policy>)

  /** What the outside world does during one request: clock readings, Redis faults and client answers. */
  datatype Env = Env(
    keyAt: nat,
    lookupAt: nat,
    lookupFails: bool,
    charge: ChargeEnv,
    firstAnswer: Answer,
    storeAt: nat,
    storeFails: bool,
    verifyCharge: ChargeEnv,
    verifyAnswer: Answer)

  datatype Outcome = Outcome(result: Result<Completion, LlmError>, store: Store, sent: seq<Sent>)

  /** A request that has a client and, when that client is the cloud, a permitted payload. */
  datatype Admitted = Admitted(slot: Slot, escalated: bool, client: Client)

  function Route(g: Config, req: Request): Result<(Slot, bool), LlmError> {
    match Resolve(g.routes, req.task)
    case Err(e) => Err(e)
    case Ok(slot) =>
      if && g.policy.Some?
         && req.signal.Some?
         && ShouldEscalateBefore(req.signal.value, slot)
         && Guard(req.payload).Ok?
      then Ok((Cloud, true))
      else Ok((slot, false))
  }

  function Admit(g: Config, req: Request): Result<Admitted, LlmError> {
    match Route(g, req)
    case Err(e) => Err(e)
    case Ok((slot, escalated)) =>
      if slot !in g.clients then Err(ClientMissing(slot))
      else if slot == Cloud && Guard(req.payload).Err? then Err(Guard(req.payload).error)
      else Ok(Admitted(slot, escalated, g.clients[slot]))
  }

  function CallFor(req: Request): Call {
    Call(req.prompt, req.payload.body, req.schema)
  }

  function SentTo(slot: Slot, req: Request): Sent {
    Sent(slot, req.payload.sensitivity, req.payload.cloudSafe, CallFor(req))
  }

  function KeyFor(req: Request, client: Client, now: nat): CacheKey {
    BuildKey(req.task, req.payload, req.prompt, client.modelName, req.schema, now)
  }

  function CompletionFrom(output: JsonObject, client: Client, escalated: bool): Completion {
    Completion(output, client.providerName, client.modelName, false, escalated)
  }

  /** What a post-call verification did: `output` is present when a schema-valid cloud answer came back. */
  datatype Verification = Verification(output: Option<JsonObject>, attempted: bool, store: Store, sent: seq<Sent>)

  function Verify(g: Config, store: Store, env: Env, req: Request): Verification {
    if Guard(req.payload).Err? then Verification(None, false, store, [])
    else
      var (charged, counted) :=
        if g.limit.Some? then Charge(g.limit.value, store, env.verifyCharge) else (Ok(()), store);
      if charged.Err? then Verification(None, false, counted, [])
      else
        match env.verifyAnswer
        case Raised(_) => Verification(None, true, counted, [SentTo(Cloud, req)])
        case Answered(output) =>
          Verification(if Conforms(output, req.schema) then Some(output) else None, true, counted, [SentTo(Cloud, req)])
  }

  /** The last stage: `output` came from the admitted client, `sent` is what has left the gateway so far. */
  function Finish(
    g: Config, store: Store, env: Env, req: Request, a: Admitted, output: JsonObject, sent: seq<Sent>): Outcome
  {
    if g.policy.Some? && ShouldVerifyAfter(g.policy.value, output, req.schema, a.slot) && Cloud in g.clients then
      var v := Verify(g, store, env, req);
      var escalated := a.escalated || v.attempted;
      var completion :=
        if v.output.Some? then CompletionFrom(v.output.value, g.clients[Cloud], escalated)
        else CompletionFrom(output, a.client, escalated);
      Outcome(Ok(completion), v.store, sent + v.sent)
    else
      Outcome(Ok(CompletionFrom(output, a.client, a.escalated)), store, sent)
  }

  lemma FinishAppends(g: Config, store: Store, env: Env, req: Request, a: Admitted, output: JsonObject, sent: seq<Sent>)
    ensures var o := Finish(g, store, env, req, a, output, []);
            Finish(g, store, env, req, a, output, sent) == Outcome(o.result, o.store, sent + o.sent)
  {
  }

  function Send(g: Config, store: Store, env: Env, req: Request, a: Admitted, key: Option<CacheKey>): Outcome {
    var sent := [SentTo(a.slot, req)];
    match env.firstAnswer
    case Raised(reason) => Outcome(Err(ClientFailed(reason)), store, sent)
    case Answered(output) =>
      var kept :=
        if output != map[] && a.slot == Cloud && g.cacheTtl.Some? && key.Some?
        then Stored(store, key.value, output, a.client, g.cacheTtl.value, env.storeAt, env.storeFails)
        else store;
      Finish(g, kept, env, req, a, output, sent)
  }

  function Dispatch(g: Config, store: Store, env: Env, req: Request, a: Admitted, key: Option<CacheKey>): Outcome {
    if a.slot == Cloud && g.limit.Some? then
      var (charged, counted) := Charge(g.limit.value, store, env.charge);
      if charged.Err? then Outcome(Err(charged.error), counted, [])
      else Send(g, counted, env, req, a, key)
    else Send(g, store, env, req, a, key)
  }

  /** One request, start to finish, with nobody else using Redis meanwhile. */
  function Complete(g: Config, store: Store, env: Env, req: Request): Outcome {
    match Admit(g, req)
    case Err(e) => Outcome(Err(e), store, [])
    case Ok(a) =>
      if a.slot == Cloud && g.cacheTtl.Some? then
        var key := KeyFor(req, a.client, env.keyAt);
        match LookedUp(store, key, env.lookupAt, env.lookupFails)
        case Some(hit) =>
          Outcome(Ok(Completion(hit.output, hit.provider, hit.modelName, true, a.escalated)), store, [])
        case None => Dispatch(g, store, env, req, a, Some(key))
      else Dispatch(g, store, env, req, a, None)
  }

  /** The network as seen from the gateway: everything sent to a client, in order. */
  class Wire {
    var sent: seq<Sent>

    constructor ()
      ensures sent == []
    {
      sent := [];
    }

    method Transmit(message: Sent)
      modifies this
      ensures sent == old(sent) + [message]
    {
      sent := sent + [message];
    }
  }

  class LLMGateway {
    const clients: map<Slot, Client>
    const routes: map<TaskType, Slot>
    const budget: DailyCallBudget?
    const cache: LLMResponseCache?
    const policy: Option<Policy>
    const redis: RedisServer
    const wire: Wire

    constructor (
      clients: map<Slot, Client>, routes: map<TaskType, Slot>, budget: DailyCallBudget?, cache: LLMResponseCache?,
      policy: Option<Policy>, redis: RedisServer, wire: Wire)
      requires budget != null ==> budget.redis == redis
      requires cache != null ==> cache.redis == redis
      ensures Valid() && this.redis == redis && this.wire == wire
      ensures Configuration() == Config(
        clients, routes, if budget == null then None else Some(budget.limit),
        if cache == null then None else Some(cache.ttlSeconds), policy)
    {
      this.clients, this.routes := clients, routes;
      this.budget, this.cache, this.policy := budget, cache, policy;
      this.redis, this.wire := redis, wire;
    }

    /** Budget and cache are attached to the same Redis. */
    ghost predicate Valid() {
      && (budget != null ==> budget.redis == redis)
      && (cache != null ==> cache.redis == redis)
    }

    function Configuration(): Config {
      Config(
        clients,
        routes,
        if budget == null then None else Some(budget.limit),
        if cache == null then None else Some(cache.ttlSeconds),
        policy)
    }

    method CompleteJson(env: Env, req: Request) returns (result: Result<Completion, LlmError>)
      requires Valid()
      modifies redis, wire
      ensures var o := Complete(Configuration(), old(redis.store), env, req);
              result == o.result && redis.store == o.store && wire.sent == old(wire.sent) + o.sent
    {
      var routed := SelectProvider(req);
      if routed.Err? {
        return Err(routed.error);
      }
      var (provider, escalated) := routed.value;
      if provider !in clients {
        return Err(ClientMissing(provider));
      }
      var client := clients[provider];
      if provider == Cloud {
        var guarded := Guard(req.payload);
        if guarded.Err? {
          return Err(guarded.error);
        }
      }
      ghost var a := Admitted(provider, escalated, client);
      assert Admit(Configuration(), req) == Ok(a);
      var cacheKey: Option<CacheKey> := None;
      if provider == Cloud && cache != null {
        var key := KeyFor(req, client, env.keyAt);
        cacheKey := Some(key);
        var hit := cache.Lookup(key, env.lookupAt, env.lookupFails);
        if hit.Some? {
          return Ok(Completion(hit.value.output, hit.value.provider, hit.value.modelName, true, escalated));
        }
      }
      assert Complete(Configuration(), old(redis.store), env, req)
          == Dispatch(Configuration(), redis.store, env, req, a, cacheKey);
      result := CompleteUncached(env, req, provider, escalated, client, cacheKey);
    }

    /** The start of `CompleteJson`: the route, and the escalation that may override it. */
    method SelectProvider(req: Request) returns (routed: Result<(Slot, bool), LlmError>)
      ensures routed == Route(Configuration(), req)
    {
      var resolved := Resolve(routes, req.task);
      if resolved.Err? {
        return Err(resolved.error);
      }
      var provider := resolved.value;
      var escalated := false;
      if policy.Some? && req.signal.Some? && ShouldEscalateBefore(req.signal.value, provider) {
        if Guard(req.payload).Ok? {
          provider := Cloud;
          escalated := true;
        }
      }
      routed := Ok((provider, escalated));
    }

    /** The rest of `CompleteJson` once the cache has been consulted. */
    method CompleteUncached(
      env: Env, req: Request, provider: Slot, escalatedBefore: bool, firstClient: Client, cacheKey: Option<CacheKey>)
      returns (result: Result<Completion, LlmError>)
      requires Valid()
      requires cacheKey.Some? ==> cache != null
      modifies redis, wire
      ensures var o := Dispatch(
                Configuration(), old(redis.store), env, req,
                Admitted(provider, escalatedBefore, firstClient), cacheKey);
              result == o.result && redis.store == o.store && wire.sent == old(wire.sent) + o.sent
    {
      if provider == Cloud && budget != null {
        var charged := budget.Consume(env.charge);
        if charged.Err? {
          return Err(charged.error);
        }
      }
      wire.Transmit(SentTo(provider, req));
      if env.firstAnswer.Raised? {
        return Err(ClientFailed(env.firstAnswer.reason));
      }
      var output := env.firstAnswer.output;
      if output != map[] && provider == Cloud && cache != null && cacheKey.Some? {
        cache.Store(cacheKey.value, output, firstClient, env.storeAt, env.storeFails);
      }
      FinishAppends(
        Configuration(), redis.store, env, req, Admitted(provider, escalatedBefore, firstClient), output,
        [SentTo(provider, req)]);
      var completion := CompleteAnswered(env, req, provider, escalatedBefore, firstClient, output);
      result := Ok(completion);
    }

    /** The end of `CompleteJson`, once the first client has answered. */
    method CompleteAnswered(
      env: Env, req: Request, provider: Slot, escalatedBefore: bool, firstClient: Client, firstOutput: JsonObject)
      returns (completion: Completion)
      requires Valid()
      modifies redis, wire
      ensures var a := Admitted(provider, escalatedBefore, firstClient);
              var o := Finish(Configuration(), old(redis.store), env, req, a, firstOutput, []);
              Ok(completion) == o.result && redis.store == o.store && wire.sent == old(wire.sent) + o.sent
    {
      var escalated := escalatedBefore;
      var client := firstClient;
      var output := firstOutput;
      if policy.Some? && ShouldVerifyAfter(policy.value, output, req.schema, provider) {
        if Cloud in clients {
          var verified, attempted := VerifyWithCloud(env, req);
          escalated := escalated || attempted;
          if verified.Some? {
            output := verified.value;
            client := clients[Cloud];
          }
        }
      }
      completion := Completion(output, client.providerName, client.modelName, false, escalated);
    }

    method VerifyWithCloud(env: Env, req: Request) returns (verified: Option<JsonObject>, attempted: bool)
      requires Valid()
      modifies redis, wire
      ensures var v := Verify(Configuration(), old(redis.store), env, req);
              && verified == v.output && attempted == v.attempted
              && redis.store == v.store && wire.sent == old(wire.sent) + v.sent
    {
      if Guard(req.payload).Err? {
        return None, false;
      }
      if budget != null {
        var charged := budget.Consume(env.verifyCharge);
        if charged.Err? {
          return None, false;
        }
      }
      wire.Transmit(SentTo(Cloud, req));
      if env.verifyAnswer.Raised? {
        return None, true;
      }
      if !Conforms(env.verifyAnswer.output, req.schema) {
        return None, true;
      }
      return Some(env.verifyAnswer.output), true;
    }
  }
}
