/** What becomes of every request, case by case: told from the configuration, the request, what Redis holds and what the
    outside world does. */
module LlmRequestLaws {
  import opened Common
  import opened LlmTypes
  import opened LlmPolicy
  import opened LlmBudget
  import opened LlmCache
  import opened LlmGateway
  import opened LlmGatewayLaws
  import opened Redis

  // ----- Where it goes -----

  /** The payload may cross the cloud boundary. */
  predicate MayCross(payload: Payload) {
    payload.cloudSafe && (payload.sensitivity == AGGREGATED || payload.sensitivity == PUBLIC)
  }

  /** A request routed to the local slot goes to the cloud instead: a policy is attached, a signal comes with it that
      reports a high risk, a loss, a swing of sentiment, an event or a question about a trade, and its payload may
      cross. */
  predicate Escalates(g: Config, req: Request) {
    && g.policy.Some?
    && req.task in g.routes
    && g.routes[req.task] == Local
    && req.signal.Some?
    && (var s := req.signal.value;
        s.riskLevel == HIGH || s.lossSpike || s.newsSentimentSwing || s.eventFlag || s.tradeQuestion)
    && MayCross(req.payload)
  }

  /** The slot of the client that is to answer. */
  function Chosen(g: Config, req: Request): Slot
    requires req.task in g.routes
  {
    if Escalates(g, req) then Cloud else g.routes[req.task]
  }

  /** The request has a client and, if that is the cloud, a payload that may cross. */
  predicate Accepted(g: Config, req: Request) {
    && req.task in g.routes
    && Chosen(g, req) in g.clients
    && (Chosen(g, req) == Cloud ==> MayCross(req.payload))
  }

  /** Why a request is refused. */
  function Refusal(g: Config, req: Request): LlmError
    requires !Accepted(g, req)
  {
    if req.task !in g.routes then RouteUndefined(req.task)
    else if Chosen(g, req) !in g.clients then ClientMissing(Chosen(g, req))
    else if !req.payload.cloudSafe then NotCloudSafe
    else SensitivityForbidden(req.payload.sensitivity)
  }

  lemma AdmittedExactlyWhen(g: Config, req: Request)
    ensures Admit(g, req).Ok? <==> Accepted(g, req)
    ensures Accepted(g, req) ==>
              Admit(g, req) == Ok(Admitted(Chosen(g, req), Escalates(g, req), g.clients[Chosen(g, req)]))
    ensures !Accepted(g, req) ==> Admit(g, req) == Err(Refusal(g, req))
  {
  }

  /** A request that is not accepted fails at once, with its reason and without a trace. */
  lemma RefusedExactlyWhen(g: Config, store: Store, env: Env, req: Request)
    ensures !Accepted(g, req) ==> Complete(g, store, env, req) == Outcome(Err(Refusal(g, req)), store, [])
    ensures Accepted(g, req) ==>
              var r := Complete(g, store, env, req).result;
              r.Ok? || r.error.BudgetExceeded? || r.error.RedisUnavailable? || r.error.ClientFailed?
  {
    AdmittedExactlyWhen(g, req);
    if Accepted(g, req) {
      var a := Admit(g, req).value;
      var key := if a.slot == Cloud && g.cacheTtl.Some? then Some(KeyFor(req, a.client, env.keyAt)) else None;
      DispatchFails(g, store, env, req, a, key);
    }
  }

  lemma DispatchFails(g: Config, store: Store, env: Env, req: Request, a: Admitted, key: Option<CacheKey>)
    ensures var r := Dispatch(g, store, env, req, a, key).result;
            r.Ok? || r.error.BudgetExceeded? || r.error.RedisUnavailable? || r.error.ClientFailed?
  {
    if a.slot == Cloud && g.limit.Some? {
      ChargeCounts(g.limit.value, store, env.charge);
    }
  }

  // ----- The cache -----

  /** The key under which the request's answer is kept. */
  function KeyOf(g: Config, env: Env, req: Request): CacheKey
    requires Accepted(g, req)
  {
    CacheKey("v1", req.task, env.keyAt / 86400,
             Digest(req.payload.body, req.prompt, g.clients[Chosen(g, req)].modelName, req.schema))
  }

  /** Redis holds, unexpired, an envelope of a completion under the key. */
  predicate Kept(store: Store, key: CacheKey, now: nat, c: CachedCompletion) {
    && key in store.blobs
    && (store.blobs[key].expiresAt.None? || now < store.blobs[key].expiresAt.value)
    && store.blobs[key].value.Encoded?
    && store.blobs[key].value.json.JObject?
    && (var fields := store.blobs[key].value.json.fields;
        && "output" in fields && fields["output"] == JObject(c.output)
        && "provider" in fields && fields["provider"] == JText(c.provider)
        && "model_name" in fields && fields["model_name"] == JText(c.modelName))
  }

  /** The request is answered by a kept completion. */
  predicate Hits(g: Config, store: Store, env: Env, req: Request, c: CachedCompletion) {
    && Accepted(g, req)
    && Chosen(g, req) == Cloud
    && g.cacheTtl.Some?
    && !env.lookupFails
    && Kept(store, KeyOf(g, env, req), env.lookupAt, c)
  }

  lemma LookedUpExactly(store: Store, key: CacheKey, now: nat, c: CachedCompletion)
    ensures LookedUp(store, key, now, false) == Some(c) <==> Kept(store, key, now, c)
  {
  }

  /** A cached answer is given exactly when one is kept: its own output, provider and model, for nothing. */
  lemma HitsExactlyWhen(g: Config, store: Store, env: Env, req: Request, c: CachedCompletion)
    ensures Hits(g, store, env, req, c) ==>
              Complete(g, store, env, req)
              == Outcome(Ok(Completion(c.output, c.provider, c.modelName, true, Escalates(g, req))), store, [])
    ensures var r := Complete(g, store, env, req).result;
            r.Ok? && r.value.cached && (r.value.output, r.value.provider, r.value.modelName)
                                       == (c.output, c.provider, c.modelName)
            ==> Hits(g, store, env, req, c)
  {
    AdmittedExactlyWhen(g, req);
    if Accepted(g, req) {
      var a := Admit(g, req).value;
      if a.slot == Cloud && g.cacheTtl.Some? {
        LookedUpExactly(store, KeyOf(g, env, req), env.lookupAt, c);
        DispatchIsNotCached(g, store, env, req, a, Some(KeyOf(g, env, req)));
      } else {
        DispatchIsNotCached(g, store, env, req, a, None);
      }
    }
  }

  /** Nothing kept answers the request. */
  ghost predicate Misses(g: Config, store: Store, env: Env, req: Request) {
    Accepted(g, req) && forall c :: !Hits(g, store, env, req, c)
  }

  lemma MissesDispatch(g: Config, store: Store, env: Env, req: Request)
    requires Misses(g, store, env, req)
    ensures var a := Admitted(Chosen(g, req), Escalates(g, req), g.clients[Chosen(g, req)]);
            var key := if a.slot == Cloud && g.cacheTtl.Some? then Some(KeyOf(g, env, req)) else None;
            Complete(g, store, env, req) == Dispatch(g, store, env, req, a, key)
  {
    AdmittedExactlyWhen(g, req);
    if Chosen(g, req) == Cloud && g.cacheTtl.Some? {
      var hit := LookedUp(store, KeyOf(g, env, req), env.lookupAt, env.lookupFails);
      if hit.Some? {
        LookedUpExactly(store, KeyOf(g, env, req), env.lookupAt, hit.value);
        assert Hits(g, store, env, req, hit.value);
      }
    }
  }

  // ----- The call -----

  /** The message sent for the request. */
  function Message(slot: Slot, req: Request): Sent {
    Sent(slot, req.payload.sensitivity, req.payload.cloudSafe, Call(req.prompt, req.payload.body, req.schema))
  }

  /** A cloud call is paid for first, when there is a budget; this is how that went. */
  function Paid(g: Config, store: Store, env: ChargeEnv): (Result<(), LlmError>, Store) {
    if g.limit.Some? then Charge(g.limit.value, store, env) else (Ok(()), store)
  }

  /** The cache after a cloud answer: an envelope under the request's key, for the cache's lifetime, if the answer is
      not empty and Redis takes it; and otherwise as it was. */
  ghost predicate Written(g: Config, before: Store, after: Store, env: Env, req: Request, output: JsonObject)
    requires Accepted(g, req)
  {
    var client := g.clients[Chosen(g, req)];
    var envelope := map[
      "output" := JObject(output), "provider" := JText(client.providerName), "model_name" := JText(client.modelName)];
    after == if output == map[] || g.cacheTtl.None? || g.cacheTtl.value <= 0 || env.storeFails then before
             else before.(blobs := before.blobs[KeyOf(g, env, req) :=
                    Entry(Encoded(JObject(envelope)), Some(env.storeAt + g.cacheTtl.value))])
  }

  /** A request to the cloud that no kept answer serves is charged and, if that succeeds, sent. It ends with the
      charge's error, with the client's, or with the client's output; a charge that failed sends nothing, and an
      output is kept. */
  lemma CloudRequestExactly(g: Config, store: Store, env: Env, req: Request)
    requires Misses(g, store, env, req) && Chosen(g, req) == Cloud
    ensures var o := Complete(g, store, env, req);
            var client := g.clients[Cloud];
            var (charged, counted) := Paid(g, store, env.charge);
            match (charged, env.firstAnswer)
            case (Err(e), _) => o == Outcome(Err(e), counted, [])
            case (Ok(_), Raised(reason)) => o == Outcome(Err(ClientFailed(reason)), counted, [Message(Cloud, req)])
            case (Ok(_), Answered(output)) =>
              && o.result == Ok(Completion(output, client.providerName, client.modelName, false, Escalates(g, req)))
              && o.sent == [Message(Cloud, req)]
              && Written(g, counted, o.store, env, req, output)
  {
    MissesDispatch(g, store, env, req);
  }

  // ----- Verification -----

  /** The policy wants a second opinion: the answer's confidence is a number below its threshold, or the answer does not
      fit the schema. */
  predicate Doubted(g: Config, req: Request, output: JsonObject) {
    && g.policy.Some?
    && (|| !Conforms(output, req.schema)
        || (&& g.policy.value.confidenceThreshold.Some?
            && "confidence" in output
            && output["confidence"].JNumber?
            && output["confidence"].number < g.policy.value.confidenceThreshold.value))
  }

  /** A request to any other client. The client's exception is the outcome; its output is the outcome, too, unless it is
      doubted, the cloud is configured, the payload may cross and, if there is a budget, the charge succeeds. Then the
      cloud is asked the same: its output, if it fits the schema, is the outcome, and else the first one stays, marked
      as escalated in either case. Nothing is kept. */
  lemma LocalRequestExactly(g: Config, store: Store, env: Env, req: Request)
    requires Accepted(g, req) && Chosen(g, req) != Cloud
    ensures var o := Complete(g, store, env, req);
            var slot := Chosen(g, req);
            var client := g.clients[slot];
            match env.firstAnswer
            case Raised(reason) => o == Outcome(Err(ClientFailed(reason)), store, [Message(slot, req)])
            case Answered(output) =>
              var first := Completion(output, client.providerName, client.modelName, false, false);
              if !(Doubted(g, req, output) && Cloud in g.clients && MayCross(req.payload))
              then o == Outcome(Ok(first), store, [Message(slot, req)])
              else
                var (charged, counted) := Paid(g, store, env.verifyCharge);
                if charged.Err? then o == Outcome(Ok(first), counted, [Message(slot, req)])
                else
                  var second := env.verifyAnswer;
                  var cloud := g.clients[Cloud];
                  o == Outcome(
                         Ok(if second.Answered? && Conforms(second.output, req.schema)
                            then Completion(second.output, cloud.providerName, cloud.modelName, false, true)
                            else first.(escalated := true)),
                         counted, [Message(slot, req), Message(Cloud, req)])
  {
    AdmittedExactlyWhen(g, req);
    if env.firstAnswer.Answered? {
      var a := Admit(g, req).value;
      var first := [Message(a.slot, req)];
      assert first + [] == first;
      assert first + [Message(Cloud, req)] == [Message(a.slot, req), Message(Cloud, req)];
      assert Complete(g, store, env, req) == Finish(g, store, env, req, a, env.firstAnswer.output, first);
    }
  }
}
