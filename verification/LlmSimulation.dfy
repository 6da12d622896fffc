/** The gateway with a response cache simulates the gateway without one, request by request. */
module LlmSimulation {
  import opened Common
  import opened LlmTypes
  import opened LlmPolicy
  import opened LlmBudget
  import opened LlmCache
  import opened LlmGateway
  import opened Redis

  /** One request of a history together with what the world did meanwhile. */
  datatype Turn = Turn(env: Env, req: Request)

  function WithoutCache(g: Config): Config {
    g.(cacheTtl := None)
  }

  /** The store once the first `n` turns have run one after the other. */
  function After(g: Config, store: Store, turns: seq<Turn>, n: nat): Store
    requires n <= |turns|
  {
    if n == 0 then store
    else Complete(g, After(g, store, turns, n - 1), turns[n - 1].env, turns[n - 1].req).store
  }

  function OutcomeAt(g: Config, store: Store, turns: seq<Turn>, i: nat): Outcome
    requires i < |turns|
  {
    Complete(g, After(g, store, turns, i), turns[i].env, turns[i].req)
  }

  /** The charge is made promptly: INCR runs within a day of the date being read, and EXPIRE goes through. */
  ghost predicate Prompt(charge: ChargeEnv) {
    && charge.incrAt <= charge.dateAt + DAY
    && charge.dateAt <= charge.expireAt
    && !charge.expireFails
  }

  /** The policy has the cloud verify an answer that is not the cloud's. */
  ghost predicate Verified(g: Config, turn: Turn) {
    && g.policy.Some?
    && Admit(g, turn.req).Ok?
    && Cloud in g.clients
    && Guard(turn.req.payload).Ok?
    && turn.env.firstAnswer.Answered?
    && ShouldVerifyAfter(
         g.policy.value, turn.env.firstAnswer.output, turn.req.schema, Admit(g, turn.req).value.slot)
  }

  /** Every client is a function of the messages and the schema. */
  ghost predicate AnsweredBy(g: Config, turn: Turn, client: (Slot, Call) -> Answer) {
    && (Admit(g, turn.req).Ok? ==> turn.env.firstAnswer == client(Admit(g, turn.req).value.slot, CallFor(turn.req)))
    && (Verified(g, turn) ==> turn.env.verifyAnswer == client(Cloud, CallFor(turn.req)))
  }

  ghost predicate Admissible(g: Config, turn: Turn, client: (Slot, Call) -> Answer) {
    Prompt(turn.env.charge) && !Verified(g, turn) && AnsweredBy(g, turn, client)
  }

  /** No counter can expire while its day, or the day after, lasts. */
  ghost predicate Durable(store: Store) {
    forall day :: day in store.counters && store.counters[day].expiresAt.Some? ==>
      store.counters[day].expiresAt.value >= (day + 2) * DAY
  }

  ghost predicate CountersDominated(cached: Store, plain: Store) {
    forall day :: day in cached.counters ==>
      day in plain.counters && cached.counters[day].value <= plain.counters[day].value
  }

  /** Everything readable in the cache is what the cloud client would answer to the call in the key. */
  ghost predicate CacheFaithful(store: Store, cloud: Client, client: (Slot, Call) -> Answer) {
    forall key :: key in store.blobs && Decode(store.blobs[key].value).Some? ==>
      var found := Decode(store.blobs[key].value).value;
      && client(Cloud, Call(key.digest.prompt, key.digest.body, key.digest.schema)) == Answered(found.output)
      && found.provider == cloud.providerName
      && found.modelName == cloud.modelName
  }

  ghost predicate Simulates(g: Config, cached: Store, plain: Store, client: (Slot, Call) -> Answer) {
    && Durable(cached)
    && Durable(plain)
    && CountersDominated(cached, plain)
    && (Cloud in g.clients ==> CacheFaithful(cached, g.clients[Cloud], client))
  }

  /** Whenever the plain gateway returns, so does the cached one, with the same answer. */
  ghost predicate Agrees(cached: Result<Completion, LlmError>, plain: Result<Completion, LlmError>) {
    plain.Ok? ==>
      && cached.Ok?
      && cached.value.output == plain.value.output
      && cached.value.provider == plain.value.provider
      && cached.value.modelName == plain.value.modelName
      && cached.value.escalated == plain.value.escalated
  }

  /** A day's counter, observed on the day or the day after, never reads higher. */
  ghost predicate NeverHigher(cached: Store, plain: Store) {
    forall day: nat, now: nat :: now < (day + 2) * DAY ==> Counter(cached, day, now) <= Counter(plain, day, now)
  }

  lemma DominatedReadsLower(cached: Store, plain: Store)
    requires Durable(plain) && CountersDominated(cached, plain)
    ensures NeverHigher(cached, plain)
  {
  }

  /** A prompt charge keeps counters durable, and counts one more. */
  lemma ChargeDurable(limit: int, store: Store, env: ChargeEnv)
    requires Durable(store) && Prompt(env)
    ensures var day, counted := DayOf(env.dateAt), Charge(limit, store, env).1;
            && Durable(counted)
            && counted.blobs == store.blobs
            && (env.incrFails ==> counted == store)
            && (!env.incrFails ==>
                  && day in counted.counters
                  && counted.counters[day].value == 1 + (if day in store.counters then store.counters[day].value else 0)
                  && (Charge(limit, store, env).0.Ok? <==> counted.counters[day].value <= limit))
            && (forall other :: other != day ==>
                  && (other in counted.counters <==> other in store.counters)
                  && (other in store.counters ==> counted.counters[other] == store.counters[other]))
  {
  }

  /** Both gateways charge: the cached one stays below and is granted whenever the plain one is. */
  lemma ChargeSimulates(limit: int, cached: Store, plain: Store, env: ChargeEnv)
    requires Durable(cached) && Durable(plain) && CountersDominated(cached, plain) && Prompt(env)
    ensures var (c, cached'), (p, plain') := Charge(limit, cached, env), Charge(limit, plain, env);
            && Durable(cached') && Durable(plain') && CountersDominated(cached', plain')
            && cached'.blobs == cached.blobs
            && (p.Ok? ==> c.Ok?)
  {
    ChargeDurable(limit, cached, env);
    ChargeDurable(limit, plain, env);
  }

  /** The plain gateway charges while the cached one, answering from its cache, does not. */
  lemma ChargeOnlyPlain(limit: int, cached: Store, plain: Store, env: ChargeEnv)
    requires Durable(cached) && Durable(plain) && CountersDominated(cached, plain) && Prompt(env)
    ensures var plain' := Charge(limit, plain, env).1;
            Durable(plain') && CountersDominated(cached, plain')
  {
  }

  /** Storing the cloud's answer under the key of its own call keeps the cache faithful. */
  lemma StoredFaithful(
    store: Store, req: Request, cloud: Client, client: (Slot, Call) -> Answer, output: JsonObject, ttl: int, env: Env)
    requires CacheFaithful(store, cloud, client)
    requires client(Cloud, CallFor(req)) == Answered(output)
    ensures var key := KeyFor(req, cloud, env.keyAt);
            var written := Stored(store, key, output, cloud, ttl, env.storeAt, env.storeFails);
            && CacheFaithful(written, cloud, client)
            && written.counters == store.counters
  {
  }

  /** Without a verification to come, a request ends with its first answer. */
  lemma FinishWithoutVerification(g: Config, store: Store, turn: Turn, a: Admitted, output: JsonObject, sent: seq<Sent>)
    requires turn.env.firstAnswer == Answered(output)
    requires Admit(g, turn.req) == Ok(a) && !Verified(g, turn)
    ensures Finish(g, store, turn.env, turn.req, a, output, sent)
         == Outcome(Ok(CompletionFrom(output, a.client, a.escalated)), store, sent)
  {
    assert sent + [] == sent;
  }

  lemma SendSimulates(g: Config, cached: Store, plain: Store, turn: Turn, a: Admitted, client: (Slot, Call) -> Answer)
    requires Simulates(g, cached, plain, client)
    requires Admit(g, turn.req) == Ok(a) && Admissible(g, turn, client)
    requires g.cacheTtl.Some?
    ensures var key := if a.slot == Cloud then Some(KeyFor(turn.req, a.client, turn.env.keyAt)) else None;
            var c := Send(g, cached, turn.env, turn.req, a, key);
            var p := Send(WithoutCache(g), plain, turn.env, turn.req, a, None);
            Agrees(c.result, p.result) && Simulates(g, c.store, p.store, client)
  {
    if turn.env.firstAnswer.Answered? {
      var output := turn.env.firstAnswer.output;
      var sent := [SentTo(a.slot, turn.req)];
      if a.slot == Cloud {
        StoredFaithful(cached, turn.req, a.client, client, output, g.cacheTtl.value, turn.env);
        var kept := Stored(cached, KeyFor(turn.req, a.client, turn.env.keyAt), output, a.client,
                           g.cacheTtl.value, turn.env.storeAt, turn.env.storeFails);
        FinishWithoutVerification(g, kept, turn, a, output, sent);
      }
      FinishWithoutVerification(g, cached, turn, a, output, sent);
      FinishWithoutVerification(WithoutCache(g), plain, turn, a, output, sent);
    }
  }

  lemma DispatchSimulates(
    g: Config, cached: Store, plain: Store, turn: Turn, a: Admitted, client: (Slot, Call) -> Answer)
    requires Simulates(g, cached, plain, client)
    requires Admit(g, turn.req) == Ok(a) && Admissible(g, turn, client)
    requires g.cacheTtl.Some?
    ensures var key := if a.slot == Cloud then Some(KeyFor(turn.req, a.client, turn.env.keyAt)) else None;
            var c := Dispatch(g, cached, turn.env, turn.req, a, key);
            var p := Dispatch(WithoutCache(g), plain, turn.env, turn.req, a, None);
            Agrees(c.result, p.result) && Simulates(g, c.store, p.store, client)
  {
    if a.slot == Cloud && g.limit.Some? {
      ChargeSimulates(g.limit.value, cached, plain, turn.env.charge);
      var cached' := Charge(g.limit.value, cached, turn.env.charge).1;
      var plain' := Charge(g.limit.value, plain, turn.env.charge).1;
      SendSimulates(g, cached', plain', turn, a, client);
      PlainSendKeepsCounters(g, plain', turn, a, client);
    } else {
      SendSimulates(g, cached, plain, turn, a, client);
    }
  }

  /** Without a cache and without a verification, nothing is written once the charge is made. */
  lemma PlainSendKeepsCounters(g: Config, plain: Store, turn: Turn, a: Admitted, client: (Slot, Call) -> Answer)
    requires Admit(g, turn.req) == Ok(a) && Admissible(g, turn, client)
    ensures Send(WithoutCache(g), plain, turn.env, turn.req, a, None).store == plain
    ensures turn.env.firstAnswer.Answered? ==>
              Send(WithoutCache(g), plain, turn.env, turn.req, a, None).result
              == Ok(CompletionFrom(turn.env.firstAnswer.output, a.client, a.escalated))
    ensures turn.env.firstAnswer.Raised? ==> Send(WithoutCache(g), plain, turn.env, turn.req, a, None).result.Err?
  {
  }

  /** A hit: the cached gateway answers at once what the plain one would fetch. */
  lemma HitSimulates(
    g: Config, cached: Store, plain: Store, turn: Turn, a: Admitted, client: (Slot, Call) -> Answer,
    hit: CachedCompletion)
    requires Simulates(g, cached, plain, client)
    requires Admit(g, turn.req) == Ok(a) && Admissible(g, turn, client)
    requires a.slot == Cloud
    requires LookedUp(cached, KeyFor(turn.req, a.client, turn.env.keyAt), turn.env.lookupAt, turn.env.lookupFails)
          == Some(hit)
    ensures var p := Dispatch(WithoutCache(g), plain, turn.env, turn.req, a, None);
            && Agrees(Ok(Completion(hit.output, hit.provider, hit.modelName, true, a.escalated)), p.result)
            && Simulates(g, cached, p.store, client)
  {
    assert client(Cloud, CallFor(turn.req)) == Answered(hit.output);
    if g.limit.Some? {
      ChargeOnlyPlain(g.limit.value, cached, plain, turn.env.charge);
      PlainSendKeepsCounters(g, Charge(g.limit.value, plain, turn.env.charge).1, turn, a, client);
    } else {
      PlainSendKeepsCounters(g, plain, turn, a, client);
    }
  }

  lemma TurnSimulates(g: Config, cached: Store, plain: Store, turn: Turn, client: (Slot, Call) -> Answer)
    requires Simulates(g, cached, plain, client) && Admissible(g, turn, client)
    ensures var c := Complete(g, cached, turn.env, turn.req);
            var p := Complete(WithoutCache(g), plain, turn.env, turn.req);
            Agrees(c.result, p.result) && Simulates(g, c.store, p.store, client)
  {
    assert Route(WithoutCache(g), turn.req) == Route(g, turn.req);
    assert Admit(WithoutCache(g), turn.req) == Admit(g, turn.req);
    if Admit(g, turn.req).Ok? {
      var a := Admit(g, turn.req).value;
      if g.cacheTtl.None? {
        SameConfigSimulates(g, cached, plain, turn, a, client);
      } else if a.slot == Cloud {
        var key := KeyFor(turn.req, a.client, turn.env.keyAt);
        var found := LookedUp(cached, key, turn.env.lookupAt, turn.env.lookupFails);
        if found.Some? {
          HitSimulates(g, cached, plain, turn, a, client, found.value);
        } else {
          DispatchSimulates(g, cached, plain, turn, a, client);
        }
      } else {
        DispatchSimulates(g, cached, plain, turn, a, client);
      }
    }
  }

  /** Two gateways without a cache, one of them started with lower counters. */
  lemma SameConfigSimulates(
    g: Config, cached: Store, plain: Store, turn: Turn, a: Admitted, client: (Slot, Call) -> Answer)
    requires Simulates(g, cached, plain, client)
    requires Admit(g, turn.req) == Ok(a) && Admissible(g, turn, client)
    requires g.cacheTtl.None?
    ensures var c := Dispatch(g, cached, turn.env, turn.req, a, None);
            var p := Dispatch(g, plain, turn.env, turn.req, a, None);
            Agrees(c.result, p.result) && Simulates(g, c.store, p.store, client)
  {
    assert WithoutCache(g) == g;
    if a.slot == Cloud && g.limit.Some? {
      ChargeSimulates(g.limit.value, cached, plain, turn.env.charge);
      PlainSendKeepsCounters(g, Charge(g.limit.value, cached, turn.env.charge).1, turn, a, client);
      PlainSendKeepsCounters(g, Charge(g.limit.value, plain, turn.env.charge).1, turn, a, client);
    } else {
      PlainSendKeepsCounters(g, cached, turn, a, client);
      PlainSendKeepsCounters(g, plain, turn, a, client);
    }
  }

  lemma {:induction false} HistorySimulates(
    g: Config, cached: Store, plain: Store, turns: seq<Turn>, n: nat, client: (Slot, Call) -> Answer)
    requires n <= |turns|
    requires Simulates(g, cached, plain, client)
    requires forall i :: 0 <= i < |turns| ==> Admissible(g, turns[i], client)
    ensures Simulates(g, After(g, cached, turns, n), After(WithoutCache(g), plain, turns, n), client)
  {
    if n > 0 {
      HistorySimulates(g, cached, plain, turns, n - 1, client);
      TurnSimulates(
        g, After(g, cached, turns, n - 1), After(WithoutCache(g), plain, turns, n - 1), turns[n - 1], client);
    }
  }

  /** Over every history of promptly charged and unverified requests, from an empty Redis: whenever the gateway without
      the cache returns, the gateway with it returns the same output, provider and model name, and its budget
      counter never reads higher. */
  lemma PromptHistoryRefines(g: Config, turns: seq<Turn>, i: nat, client: (Slot, Call) -> Answer)
    requires i < |turns|
    requires forall j :: 0 <= j < |turns| ==> Admissible(g, turns[j], client)
    ensures Agrees(OutcomeAt(g, EmptyStore(), turns, i).result,
                   OutcomeAt(WithoutCache(g), EmptyStore(), turns, i).result)
    ensures NeverHigher(After(g, EmptyStore(), turns, i + 1), After(WithoutCache(g), EmptyStore(), turns, i + 1))
  {
    HistorySimulates(g, EmptyStore(), EmptyStore(), turns, i, client);
    HistorySimulates(g, EmptyStore(), EmptyStore(), turns, i + 1, client);
    TurnSimulates(
      g, After(g, EmptyStore(), turns, i), After(WithoutCache(g), EmptyStore(), turns, i), turns[i], client);
    DominatedReadsLower(After(g, EmptyStore(), turns, i + 1), After(WithoutCache(g), EmptyStore(), turns, i + 1));
  }
}
