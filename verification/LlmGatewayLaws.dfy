/** What one gateway request can and cannot do, for every configuration, environment and request. */
module LlmGatewayLaws {
  import opened Common
  import opened LlmTypes
  import opened LlmPolicy
  import opened LlmBudget
  import opened LlmCache
  import opened LlmGateway
  import opened Redis

  function CloudCalls(sent: seq<Sent>): (n: nat)
    ensures n <= |sent|
  {
    if sent == [] then 0 else (if sent[0].slot == Cloud then 1 else 0) + CloudCalls(sent[1..])
  }

  lemma {:induction false} CloudCallsConcat(a: seq<Sent>, b: seq<Sent>)
    ensures CloudCalls(a + b) == CloudCalls(a) + CloudCalls(b)
  {
    if a == [] {
      assert a + b == b;
    } else {
      assert (a + b)[0] == a[0] && (a + b)[1..] == a[1..] + b;
      CloudCallsConcat(a[1..], b);
    }
  }

  // ----- Privacy -----

  /** Whatever leaves for the cloud slot, on the direct, the escalated or the verification path,
      is the request's own payload and has an allowed sensitivity. */
  lemma CloudSeesOnlyAllowedPayloads(g: Config, store: Store, env: Env, req: Request)
    ensures forall m :: m in Complete(g, store, env, req).sent ==>
      && m.call == Call(req.prompt, req.payload.body, req.schema)
      && m.sensitivity == req.payload.sensitivity
      && m.cloudSafe == req.payload.cloudSafe
      && (m.slot == Cloud ==> m.cloudSafe && (m.sensitivity == AGGREGATED || m.sensitivity == PUBLIC))
  {
    var o := Complete(g, store, env, req);
    forall m | m in o.sent
      ensures m == SentTo(m.slot, req) && (m.slot == Cloud ==> CloudAllowed(req.payload))
    {
      var a := Admit(g, req).value;
      assert m == SentTo(a.slot, req) || m == SentTo(Cloud, req);
    }
  }

  // ----- The budget and the number of calls -----

  /** One charge, exactly. The count is that of the UTC day the date was read on, whose counter lives until it expires
      and starts again from nothing then. A charge succeeds if its count is within the limit, unless INCR fails or it
      is the first of the day and EXPIRE fails. A new counter is given two days; a running one keeps its expiry. */
  lemma ChargeCounts(limit: int, store: Store, env: ChargeEnv)
    ensures var (charged, counted) := Charge(limit, store, env);
            && counted.blobs == store.blobs
            && (env.incrFails ==> charged == Err(RedisUnavailable) && counted == store)
            && (!env.incrFails ==> Counted(limit, store, env, env.dateAt / 86400, charged, counted))
  {
  }

  /** The counter of the day, if it is there and has not expired, says how many were counted before. */
  function Before(store: Store, day: nat, now: nat): nat {
    if && day in store.counters
       && (store.counters[day].expiresAt.None? || now < store.counters[day].expiresAt.value)
    then store.counters[day].value
    else 0
  }

  predicate Counted(
    limit: int, store: Store, env: ChargeEnv, day: nat, charged: Result<(), LlmError>, counted: Store)
  {
    var n := Before(store, day, env.incrAt) + 1;
    && counted.incrLog == store.incrLog + [day]
    && counted.counters.Keys == store.counters.Keys + {day}
    && (forall other :: other in store.counters && other != day ==> counted.counters[other] == store.counters[other])
    && counted.counters[day].value == n
    && (n > 1 ==> counted.counters[day].expiresAt == store.counters[day].expiresAt)
    && (n == 1 && (day !in store.counters || store.counters[day].value > 0) ==>
          counted.counters[day].expiresAt == if env.expireFails then None else Some(env.expireAt + 172800))
    && charged == (if n == 1 && env.expireFails then Err(RedisUnavailable)
                   else if n > limit then Err(BudgetExceeded)
                   else Ok(()))
  }

  /** Every request, on any path, makes at most one cloud call and at most one counter increment;
      with a budget attached a cloud call implies exactly one increment. */
  lemma AtMostOneCloudCall(g: Config, store: Store, env: Env, req: Request)
    ensures var o := Complete(g, store, env, req);
            && CloudCalls(o.sent) <= 1
            && (o.store.incrLog == store.incrLog || exists day :: o.store.incrLog == store.incrLog + [day])
            && (g.limit.Some? && CloudCalls(o.sent) == 1 ==> |o.store.incrLog| == |store.incrLog| + 1)
            && (g.limit.None? ==> o.store.incrLog == store.incrLog)
  {
    match Admit(g, req)
    case Err(_) =>
    case Ok(a) =>
      if Complete(g, store, env, req).sent != [] || Complete(g, store, env, req).store != store {
        var key := if a.slot == Cloud && g.cacheTtl.Some? then Some(KeyFor(req, a.client, env.keyAt)) else None;
        DispatchCalls(g, store, env, req, a, key);
      }
  }

  lemma DispatchCalls(g: Config, store: Store, env: Env, req: Request, a: Admitted, key: Option<CacheKey>)
    ensures var o := Dispatch(g, store, env, req, a, key);
            && CloudCalls(o.sent) <= 1
            && (o.store.incrLog == store.incrLog || exists day :: o.store.incrLog == store.incrLog + [day])
            && (g.limit.Some? && CloudCalls(o.sent) == 1 ==> |o.store.incrLog| == |store.incrLog| + 1)
            && (g.limit.None? ==> o.store.incrLog == store.incrLog)
  {
    if a.slot == Cloud && g.limit.Some? {
      ChargeCounts(g.limit.value, store, env.charge);
      SendCalls(g, Charge(g.limit.value, store, env.charge).1, env, req, a, key);
    } else {
      SendCalls(g, store, env, req, a, key);
    }
  }

  /** From the call on: the cloud path is done with its one call, any other path may still verify. */
  lemma SendCalls(g: Config, store: Store, env: Env, req: Request, a: Admitted, key: Option<CacheKey>)
    ensures var o := Send(g, store, env, req, a, key);
            && (a.slot == Cloud ==> CloudCalls(o.sent) == 1 && o.store.incrLog == store.incrLog)
            && CloudCalls(o.sent) <= 1
            && (o.store.incrLog == store.incrLog || exists day :: o.store.incrLog == store.incrLog + [day])
            && (g.limit.Some? && a.slot != Cloud && CloudCalls(o.sent) == 1 ==>
                  |o.store.incrLog| == |store.incrLog| + 1)
            && (g.limit.None? ==> o.store.incrLog == store.incrLog)
  {
  }

  // ----- Escalation -----

  function WithoutPolicy(g: Config): Config {
    g.(policy := None)
  }

  /** A payload that may not cross the boundary is untouched by the policy: for every signal the gateway
      with a policy does exactly what it does without one, and neither calls the cloud nor touches Redis. */
  lemma BlockedPayloadIgnoresPolicy(g: Config, store: Store, env: Env, req: Request)
    requires Resolve(g.routes, req.task).Ok? && Resolve(g.routes, req.task).value != Cloud
    requires !CloudAllowed(req.payload)
    ensures var o := Complete(g, store, env, req);
            && o == Complete(WithoutPolicy(g), store, env, req)
            && o.store == store
            && CloudCalls(o.sent) == 0
            && (o.result.Ok? ==> !o.result.value.escalated && !o.result.value.cached)
  {
  }

  /** `withPolicy` treats the request as `plain` did, except that it may have asked the cloud afterwards. */
  predicate ConservativeOver(withPolicy: Outcome, plain: Outcome, cloud: Option<Client>, env: Env, req: Request) {
    && (withPolicy.result.Err? <==> plain.result.Err?)
    && (plain.result.Err? ==> withPolicy == plain)
    && (plain.result.Ok? ==>
          var verified, local := withPolicy.result.value, plain.result.value;
          && !local.escalated
          && withPolicy.store.blobs == plain.store.blobs
          && plain.sent <= withPolicy.sent
          && (verified.escalated <==> CloudCalls(withPolicy.sent) == 1)
          && (|| verified == local.(escalated := verified.escalated)
              || (&& cloud.Some?
                  && verified.escalated
                  && env.verifyAnswer.Answered?
                  && Conforms(env.verifyAnswer.output, req.schema)
                  && verified == CompletionFrom(env.verifyAnswer.output, cloud.value, true))))
  }

  /** Post-call verification is conservative: for a request not routed to the cloud and without a triggering
      signal, the policy neither adds nor removes failures, `escalated` records a cloud call that was made,
      and the answer is the local one or a cloud answer that fits the schema. */
  lemma VerificationIsConservative(g: Config, store: Store, env: Env, req: Request)
    requires Resolve(g.routes, req.task).Ok? && Resolve(g.routes, req.task).value != Cloud
    requires req.signal.Some? ==> !Triggers(req.signal.value)
    ensures ConservativeOver(
      Complete(g, store, env, req), Complete(WithoutPolicy(g), store, env, req),
      if Cloud in g.clients then Some(g.clients[Cloud]) else None, env, req)
  {
    assert Route(g, req) == Route(WithoutPolicy(g), req);
    assert Admit(g, req) == Admit(WithoutPolicy(g), req);
    if Admit(g, req).Ok? && env.firstAnswer.Answered? {
      var a := Admit(g, req).value;
      var first := [SentTo(a.slot, req)];
      CloudCallsConcat(first, [SentTo(Cloud, req)]);
      assert CloudCalls(first) == 0 && CloudCalls([SentTo(Cloud, req)]) == 1;
      assert first + [] == first;
      assert Complete(g, store, env, req) == Finish(g, store, env, req, a, env.firstAnswer.output, first);
    }
  }

  /** When the verification does replace the answer, exactly: the policy asked for it, the cloud is configured,
      the payload may cross, the budget has room and the cloud's answer fits the schema. */
  lemma VerificationReplacesExactlyWhen(g: Config, store: Store, env: Env, req: Request)
    requires Resolve(g.routes, req.task).Ok? && Resolve(g.routes, req.task).value != Cloud
    requires req.signal.Some? ==> !Triggers(req.signal.value)
    requires Complete(g, store, env, req).result.Ok?
    ensures var slot := Resolve(g.routes, req.task).value;
            var replaced :=
              && g.policy.Some?
              && ShouldVerifyAfter(g.policy.value, env.firstAnswer.output, req.schema, slot)
              && Cloud in g.clients
              && CloudAllowed(req.payload)
              && (g.limit.Some? ==> Charge(g.limit.value, store, env.verifyCharge).0.Ok?)
              && env.verifyAnswer.Answered?
              && Conforms(env.verifyAnswer.output, req.schema);
            var completion := Complete(g, store, env, req).result.value;
            completion == if replaced
                          then CompletionFrom(env.verifyAnswer.output, g.clients[Cloud], true)
                          else CompletionFrom(env.firstAnswer.output, g.clients[slot], completion.escalated)
  {
  }

  /** Routed to the cloud, a request never meets the policy at all. */
  lemma CloudRouteIgnoresPolicy(g: Config, store: Store, env: Env, req: Request)
    requires Resolve(g.routes, req.task) == Ok(Cloud)
    ensures Complete(g, store, env, req) == Complete(WithoutPolicy(g), store, env, req)
    ensures Complete(g, store, env, req).result.Ok? ==> !Complete(g, store, env, req).result.value.escalated
  {
  }

  /** With the launch routes every task resolves to the cloud, so there every request is governed by
      `CloudRouteIgnoresPolicy`. */
  lemma LaunchRoutesGoToTheCloud(task: TaskType)
    ensures Resolve(LAUNCH_ROUTES, task) == Ok(Cloud)
  {
  }

  // ----- The cache in one gateway -----

  /** A cached completion costs nothing: no call, no charge, no write. */
  lemma HitsAreFree(g: Config, store: Store, env: Env, req: Request)
    requires var o := Complete(g, store, env, req); o.result.Ok? && o.result.value.cached
    ensures var o := Complete(g, store, env, req);
            && o.sent == [] && o.store == store
            && g.cacheTtl.Some?
            && Admit(g, req).Ok? && Admit(g, req).value.slot == Cloud
  {
    var a := Admit(g, req).value;
    var key := if a.slot == Cloud && g.cacheTtl.Some? then Some(KeyFor(req, a.client, env.keyAt)) else None;
    DispatchIsNotCached(g, store, env, req, a, key);
  }

  lemma DispatchIsNotCached(g: Config, store: Store, env: Env, req: Request, a: Admitted, key: Option<CacheKey>)
    ensures var r := Dispatch(g, store, env, req, a, key).result; r.Ok? ==> !r.value.cached
  {
  }

  /** What a completed cloud call with an output leaves in the cache. */
  lemma CloudCallIsStored(g: Config, store: Store, env: Env, req: Request)
    requires Admit(g, req).Ok? && Admit(g, req).value.slot == Cloud
    requires g.cacheTtl.Some? && g.cacheTtl.value > 0 && !env.storeFails
    requires var r := Complete(g, store, env, req).result; r.Ok? && !r.value.cached && r.value.output != map[]
    ensures var a := Admit(g, req).value;
            && env.firstAnswer.Answered?
            && Complete(g, store, env, req).result == Ok(CompletionFrom(env.firstAnswer.output, a.client, a.escalated))
            && exists counted: Store :: counted.blobs == store.blobs
                 && Complete(g, store, env, req).store
                    == Stored(counted, KeyFor(req, a.client, env.keyAt), env.firstAnswer.output, a.client,
                              g.cacheTtl.value, env.storeAt, false)
  {
  }

  /** The same request again on the same UTC day and within the lifetime is answered from the cache: same output,
      provider and model, and nothing else happens. On any other day the write is not even seen. */
  lemma RepeatedRequestHits(g: Config, store: Store, env: Env, again: Env, req: Request)
    requires Admit(g, req).Ok? && Admit(g, req).value.slot == Cloud
    requires g.cacheTtl.Some? && g.cacheTtl.value > 0 && !env.storeFails
    requires var r := Complete(g, store, env, req).result; r.Ok? && !r.value.cached && r.value.output != map[]
    requires !again.lookupFails && env.storeAt <= again.lookupAt < env.storeAt + g.cacheTtl.value
    ensures var first := Complete(g, store, env, req);
            DayOf(again.keyAt) == DayOf(env.keyAt) ==>
              Complete(g, first.store, again, req) == Outcome(Ok(first.result.value.(cached := true)), first.store, [])
    ensures var first := Complete(g, store, env, req);
            var key := KeyFor(req, Admit(g, req).value.client, again.keyAt);
            DayOf(again.keyAt) != DayOf(env.keyAt) ==>
              LookedUp(first.store, key, again.lookupAt, false) == LookedUp(store, key, again.lookupAt, false)
  {
    CloudCallIsStored(g, store, env, req);
    var a := Admit(g, req).value;
    var first := Complete(g, store, env, req);
    var counted: Store :| counted.blobs == store.blobs
      && first.store == Stored(counted, KeyFor(req, a.client, env.keyAt), env.firstAnswer.output, a.client,
                               g.cacheTtl.value, env.storeAt, false);
    StoreThenLookup(counted, KeyFor(req, a.client, env.keyAt), KeyFor(req, a.client, again.keyAt),
                    env.firstAnswer.output, a.client, g.cacheTtl.value, env.storeAt, again.lookupAt);
  }
}
