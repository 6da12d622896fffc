/** The gateway as a concurrent protocol: any number of requests, from any number of gateways, interleave their
    Redis commands and client calls on one shared Redis while time passes. */
module LlmProtocol {
  import opened Common
  import opened LlmTypes
  import opened LlmPolicy
  import opened LlmBudget
  import opened LlmCache
  import opened LlmGateway
  import opened Redis

  /** Whether the request is at its first call, or verifying the draft its first call produced. */
  datatype Phase = First | Verifying(draft: JsonObject)

  /** Where a request stands: each constructor names the step it takes next. */
  datatype Pc =
    | Fresh
    | Keying
    | Looking(key: CacheKey)
    | Dating
    | Counting(day: nat, readAt: nat)
    | Expiring(counted: nat, count: nat)
    | Calling(charge: Option<nat>)
    | Storing(output: JsonObject)
    | Done(result: Result<Completion, LlmError>)

  /** `builtAt` is the instant at which the cache key was built, once there is one. */
  datatype Worker = Worker(
    g: Config, req: Request, admitted: Option<Admitted>, key: Option<CacheKey>, builtAt: nat, phase: Phase, pc: Pc)

  datatype Event =
    | Charged(day: nat, count: nat, granted: bool)
    | Called(slot: Slot, payload: Payload, call: Call, charge: Option<nat>, key: Option<CacheKey>, builtAt: nat,
             client: Client, answer: Answer)

  /** What one step does: the worker and store afterwards, and what it leaves in the log. */
  datatype Effect = Effect(worker: Worker, store: Store, events: seq<Event>)

  function NewWorker(g: Config, req: Request): Worker {
    Worker(g, req, None, None, 0, First, Fresh)
  }

  /** The admission fields are present from the first step on. */
  predicate Shaped(w: Worker) {
    && (w.pc.Fresh? ==> w.admitted.None? && w.key.None? && w.phase.First?)
    && (w.pc.Storing? ==> w.key.Some? && w.g.cacheTtl.Some? && w.admitted.Some? && w.phase.First?)
    && (w.pc.Keying? || w.pc.Looking? ==> w.admitted.Some? && w.phase.First?)
    && (w.pc.Dating? || w.pc.Counting? || w.pc.Expiring? ==> w.g.limit.Some?)
    && (w.phase.Verifying? ==> Cloud in w.g.clients && w.admitted.Some?)
    && (!w.pc.Fresh? && !w.pc.Done? ==> w.admitted.Some?)
  }

  /** The pc of a worker about to make its call: the charge comes first when a budget applies. */
  function BeforeCall(g: Config, slot: Slot): Pc {
    if slot == Cloud && g.limit.Some? then Dating else Calling(None)
  }

  function ChargeFailed(w: Worker, error: LlmError): Worker
    requires w.phase.Verifying? ==> w.admitted.Some?
  {
    match w.phase
    case First => w.(pc := Done(Err(error)))
    case Verifying(draft) =>
      w.(pc := Done(Ok(CompletionFrom(draft, w.admitted.value.client, w.admitted.value.escalated))))
  }

  function Decide(w: Worker, day: nat, count: nat): Worker
    requires w.phase.Verifying? ==> w.admitted.Some?
    requires w.g.limit.Some?
  {
    if count > w.g.limit.value then ChargeFailed(w, BudgetExceeded) else w.(pc := Calling(Some(day)))
  }

  /** After the first answer: verify it with the cloud, or be done. */
  function AfterAnswer(w: Worker, output: JsonObject): Worker
    requires w.admitted.Some?
  {
    var a := w.admitted.value;
    if && w.g.policy.Some?
       && ShouldVerifyAfter(w.g.policy.value, output, w.req.schema, a.slot)
       && Cloud in w.g.clients
       && Guard(w.req.payload).Ok?
    then w.(phase := Verifying(output), pc := BeforeCall(w.g, Cloud))
    else w.(pc := Done(Ok(CompletionFrom(output, a.client, a.escalated))))
  }

  function CallStep(w: Worker, store: Store, answer: Answer): Effect
    requires Shaped(w) && w.pc.Calling?
  {
    var a := w.admitted.value;
    match w.phase
    case First =>
      var event := Called(a.slot, w.req.payload, CallFor(w.req), w.pc.charge, w.key, w.builtAt, a.client, answer);
      var w' :=
        match answer
        case Raised(reason) => w.(pc := Done(Err(ClientFailed(reason))))
        case Answered(output) =>
          if output != map[] && a.slot == Cloud && w.g.cacheTtl.Some? && w.key.Some?
          then w.(pc := Storing(output))
          else AfterAnswer(w, output);
      Effect(w', store, [event])
    case Verifying(draft) =>
      var cloud := w.g.clients[Cloud];
      var event := Called(Cloud, w.req.payload, CallFor(w.req), w.pc.charge, None, w.builtAt, cloud, answer);
      var completion :=
        if answer.Answered? && Conforms(answer.output, w.req.schema)
        then CompletionFrom(answer.output, cloud, true)
        else CompletionFrom(draft, a.client, true);
      Effect(w.(pc := Done(Ok(completion))), store, [event])
  }

  /** One atomic step of a worker at instant `now`; `fails` makes its Redis command raise, `answer` is what the
      client says if the step is a call. */
  function Advance(w: Worker, store: Store, now: nat, fails: bool, answer: Answer): Effect
    requires Shaped(w)
  {
    match w.pc
    case Fresh =>
      (match Admit(w.g, w.req)
       case Err(e) => Effect(w.(pc := Done(Err(e))), store, [])
       case Ok(a) =>
         var pc := if a.slot == Cloud && w.g.cacheTtl.Some? then Keying else BeforeCall(w.g, a.slot);
         Effect(w.(admitted := Some(a), pc := pc), store, []))
    case Keying =>
      var key := KeyFor(w.req, w.admitted.value.client, now);
      Effect(w.(key := Some(key), builtAt := now, pc := Looking(key)), store, [])
    case Looking(key) =>
      (match LookedUp(store, key, now, fails)
       case Some(hit) =>
         var completion := Completion(hit.output, hit.provider, hit.modelName, true, w.admitted.value.escalated);
         Effect(w.(pc := Done(Ok(completion))), store, [])
       case None => Effect(w.(pc := BeforeCall(w.g, w.admitted.value.slot)), store, []))
    case Dating => Effect(w.(pc := Counting(DayOf(now), now)), store, [])
    case Counting(day, _) =>
      if fails then Effect(ChargeFailed(w, RedisUnavailable), store, [])
      else
        var counted := Incr(store, day, now);
        var count := Counter(counted, day, now);
        var event := Charged(day, count, count <= w.g.limit.value);
        var w' := if count == 1 then w.(pc := Expiring(day, count)) else Decide(w, day, count);
        Effect(w', counted, [event])
    case Expiring(day, count) =>
      if fails then Effect(ChargeFailed(w, RedisUnavailable), store, [])
      else Effect(Decide(w, day, count), Expire(store, day, now, COUNTER_TTL), [])
    case Calling(_) => CallStep(w, store, answer)
    case Storing(output) =>
      var a := w.admitted.value;
      var kept := Stored(store, w.key.value, output, a.client, w.g.cacheTtl.value, now, fails);
      Effect(AfterAnswer(w, output), kept, [])
    case Done(_) => Effect(w, store, [])
  }

  // ----- A worker running alone is the sequential gateway -----

  /** Steps left at most, by program counter. */
  function Rank(w: Worker): nat {
    (if w.phase.First? then 10 else 0) +
    (match w.pc
     case Fresh => 8
     case Keying => 7
     case Looking(_) => 6
     case Dating => 5
     case Counting(_, _) => 4
     case Expiring(_, _) => 3
     case Calling(_) => 2
     case Storing(_) => 1
     case Done(_) => 0)
  }

  /** What the world holds in store for the charge of the call a worker is at. */
  function ChargeOf(w: Worker, env: Env): ChargeEnv {
    if w.phase.First? then env.charge else env.verifyCharge
  }

  /** The instant, the fault and the answer `env` holds in store for the worker's next step. */
  function Reading(w: Worker, env: Env): (nat, bool, Answer) {
    var charge := ChargeOf(w, env);
    match w.pc
    case Keying => (env.keyAt, false, env.firstAnswer)
    case Looking(_) => (env.lookupAt, env.lookupFails, env.firstAnswer)
    case Dating => (charge.dateAt, false, env.firstAnswer)
    case Counting(_, _) => (charge.incrAt, charge.incrFails, env.firstAnswer)
    case Expiring(_, _) => (charge.expireAt, charge.expireFails, env.firstAnswer)
    case Calling(_) => (0, false, if w.phase.First? then env.firstAnswer else env.verifyAnswer)
    case Storing(_) => (env.storeAt, env.storeFails, env.firstAnswer)
    case Fresh => (0, false, env.firstAnswer)
    case Done(_) => (0, false, env.firstAnswer)
  }

  function SentIn(events: seq<Event>): seq<Sent> {
    if events == [] then []
    else (if events[0].Called?
          then [Sent(events[0].slot, events[0].payload.sensitivity, events[0].payload.cloudSafe, events[0].call)]
          else []) + SentIn(events[1..])
  }

  lemma CallShapes(w: Worker, store: Store, answer: Answer)
    requires Shaped(w) && w.pc.Calling?
    ensures var w' := CallStep(w, store, answer).worker;
            Shaped(w') && w'.g == w.g && w'.req == w.req && Rank(w') < Rank(w)
  {
  }

  lemma ChargeShapes(w: Worker, store: Store, now: nat, fails: bool, answer: Answer)
    requires Shaped(w) && (w.pc.Dating? || w.pc.Counting? || w.pc.Expiring?)
    ensures var w' := Advance(w, store, now, fails, answer).worker;
            Shaped(w') && w'.g == w.g && w'.req == w.req && Rank(w') < Rank(w)
  {
  }

  lemma AdvanceShapes(w: Worker, store: Store, now: nat, fails: bool, answer: Answer)
    requires Shaped(w)
    ensures var w' := Advance(w, store, now, fails, answer).worker;
            && Shaped(w')
            && w'.g == w.g && w'.req == w.req
            && (!w.pc.Done? ==> Rank(w') < Rank(w))
  {
    if w.pc.Calling? {
      CallShapes(w, store, answer);
    } else if w.pc.Dating? || w.pc.Counting? || w.pc.Expiring? {
      ChargeShapes(w, store, now, fails, answer);
    }
  }

  /** Runs a worker to the end with nobody else in between. */
  function Solo(w: Worker, store: Store, env: Env): Outcome
    requires Shaped(w)
    decreases Rank(w)
  {
    if w.pc.Done? then Outcome(w.pc.result, store, [])
    else
      var (now, fails, answer) := Reading(w, env);
      var e := Advance(w, store, now, fails, answer);
      AdvanceShapes(w, store, now, fails, answer);
      var rest := Solo(e.worker, e.store, env);
      Outcome(rest.result, rest.store, SentIn(e.events) + rest.sent)
  }

  /** Where a charge with this outcome leaves a worker. */
  function AfterCharge(w: Worker, charged: Result<(), LlmError>, day: nat): Worker
    requires w.phase.Verifying? ==> w.admitted.Some?
  {
    if charged.Ok? then w.(pc := Calling(Some(day))) else ChargeFailed(w, charged.error)
  }

  lemma SoloExpires(w: Worker, store: Store, env: Env, day: nat, count: nat)
    requires Shaped(w) && w.pc == Expiring(day, count)
    ensures var fails := ChargeOf(w, env).expireFails;
            var next := if fails then ChargeFailed(w, RedisUnavailable) else Decide(w, day, count);
            var kept := if fails then store else Expire(store, day, ChargeOf(w, env).expireAt, COUNTER_TTL);
            Shaped(next) && Solo(w, store, env) == Solo(next, kept, env)
  {
  }

  lemma SoloCounts(w: Worker, store: Store, env: Env)
    requires Shaped(w) && w.pc.Counting? && w.pc.day == DayOf(ChargeOf(w, env).dateAt)
    ensures var (charged, counted) := Charge(w.g.limit.value, store, ChargeOf(w, env));
            var next := AfterCharge(w, charged, w.pc.day);
            Shaped(next) && Solo(w, store, env) == Solo(next, counted, env)
  {
    var charge, day := ChargeOf(w, env), w.pc.day;
    SoloSkips(w, store, env);
    if !charge.incrFails {
      var counted := Incr(store, day, charge.incrAt);
      var count := Counter(counted, day, charge.incrAt);
      var e := Advance(w, store, charge.incrAt, false, env.firstAnswer);
      assert SentIn(e.events) == [];
      if count == 1 {
        SoloExpires(w.(pc := Expiring(day, count)), counted, env, day, count);
      }
    }
  }

  /** The charge part of a solo run: read the date, INCR, maybe EXPIRE, decide. */
  lemma SoloCharge(w: Worker, store: Store, env: Env)
    requires Shaped(w) && w.pc.Dating?
    ensures var (charged, counted) := Charge(w.g.limit.value, store, ChargeOf(w, env));
            var next := AfterCharge(w, charged, DayOf(ChargeOf(w, env).dateAt));
            Shaped(next) && Solo(w, store, env) == Solo(next, counted, env)
  {
    var readAt := ChargeOf(w, env).dateAt;
    SoloSkips(w, store, env);
    SoloCounts(w.(pc := Counting(DayOf(readAt), readAt)), store, env);
  }

  lemma SoloVerifies(w: Worker, store: Store, env: Env)
    requires Shaped(w) && w.phase.Verifying? && w.pc == BeforeCall(w.g, Cloud)
    requires Guard(w.req.payload).Ok?
    ensures var v := Verify(w.g, store, env, w.req);
            var a := w.admitted.value;
            var escalated := a.escalated || v.attempted;
            var completion :=
              if v.output.Some? then CompletionFrom(v.output.value, w.g.clients[Cloud], escalated)
              else CompletionFrom(w.phase.draft, a.client, escalated);
            Solo(w, store, env) == Outcome(Ok(completion), v.store, v.sent)
  {
    var counted, next := store, w;
    if w.g.limit.Some? {
      SoloCharge(w, store, env);
      counted := Charge(w.g.limit.value, store, env.verifyCharge).1;
      next := w.(pc := Calling(Some(DayOf(env.verifyCharge.dateAt))));
    }
    assert Shaped(next);
    var e := CallStep(next, counted, env.verifyAnswer);
    assert e.worker.pc.Done?;
    assert SentIn(e.events) == [SentTo(Cloud, w.req)];
    assert Solo(e.worker, counted, env) == Outcome(e.worker.pc.result, counted, []);
    assert Solo(next, counted, env) == Outcome(e.worker.pc.result, counted, [SentTo(Cloud, w.req)] + []);
    assert [SentTo(Cloud, w.req)] + [] == [SentTo(Cloud, w.req)];
  }

  lemma SoloFinishes(w: Worker, store: Store, env: Env, output: JsonObject)
    requires Shaped(w) && w.phase.First? && w.admitted.Some?
    ensures Shaped(AfterAnswer(w, output))
    ensures Solo(AfterAnswer(w, output), store, env)
         == Finish(w.g, store, env, w.req, w.admitted.value, output, [])
  {
    var next := AfterAnswer(w, output);
    if next.phase.Verifying? {
      SoloVerifies(next, store, env);
    }
    var v := Verify(w.g, store, env, w.req);
    assert [] + v.sent == v.sent;
  }

  lemma SoloSends(w: Worker, store: Store, env: Env)
    requires Shaped(w) && w.phase.First? && w.pc.Calling?
    ensures Solo(w, store, env) == Send(w.g, store, env, w.req, w.admitted.value, w.key)
  {
    var a := w.admitted.value;
    var e := CallStep(w, store, env.firstAnswer);
    assert SentIn(e.events) == [SentTo(a.slot, w.req)];
    match env.firstAnswer
    case Raised(_) =>
      assert [SentTo(a.slot, w.req)] + [] == [SentTo(a.slot, w.req)];
    case Answered(output) =>
      var rest := w;
      var kept := store;
      if e.worker.pc.Storing? {
        rest := e.worker;
        kept := Stored(store, w.key.value, output, a.client, w.g.cacheTtl.value, env.storeAt, env.storeFails);
        SoloFinishes(rest, kept, env, output);
        assert Solo(rest, store, env) == Outcome(
          Solo(AfterAnswer(rest, output), kept, env).result,
          Solo(AfterAnswer(rest, output), kept, env).store,
          [] + Solo(AfterAnswer(rest, output), kept, env).sent);
      } else {
        SoloFinishes(w, store, env, output);
      }
      FinishAppends(w.g, kept, env, w.req, a, output, [SentTo(a.slot, w.req)]);
  }

  lemma SoloDispatches(w: Worker, store: Store, env: Env)
    requires Shaped(w) && w.phase.First? && w.admitted.Some? && w.pc == BeforeCall(w.g, w.admitted.value.slot)
    ensures Solo(w, store, env) == Dispatch(w.g, store, env, w.req, w.admitted.value, w.key)
  {
    var a := w.admitted.value;
    if a.slot == Cloud && w.g.limit.Some? {
      SoloCharge(w, store, env);
      var (charged, counted) := Charge(w.g.limit.value, store, env.charge);
      if charged.Ok? {
        SoloSends(w.(pc := Calling(Some(DayOf(env.charge.dateAt)))), counted, env);
      }
    } else {
      SoloSends(w, store, env);
    }
  }

  /** A worker that nobody interrupts ends exactly as the sequential gateway does: same result, same Redis,
      same messages. */
  lemma SoloIsComplete(g: Config, req: Request, store: Store, env: Env)
    ensures Solo(NewWorker(g, req), store, env) == Complete(g, store, env, req)
  {
    var w := NewWorker(g, req);
    match Admit(g, req)
    case Err(_) =>
    case Ok(a) =>
      var pc := if a.slot == Cloud && g.cacheTtl.Some? then Keying else BeforeCall(g, a.slot);
      var w1 := w.(admitted := Some(a), pc := pc);
      SoloSkips(w, store, env);
      assert Solo(w, store, env) == Solo(w1, store, env);
      if w1.pc.Keying? {
        var key := KeyFor(req, a.client, env.keyAt);
        var w2 := w1.(key := Some(key), builtAt := env.keyAt, pc := Looking(key));
        SoloSkips(w1, store, env);
        assert Solo(w1, store, env) == Solo(w2, store, env);
        SoloSkips(w2, store, env);
        if LookedUp(store, key, env.lookupAt, env.lookupFails).None? {
          var w3 := w2.(pc := BeforeCall(g, a.slot));
          assert Solo(w2, store, env) == Solo(w3, store, env);
          SoloDispatches(w3, store, env);
        }
      } else {
        SoloDispatches(w1, store, env);
      }
  }

  /** A step that sends nothing only moves on. */
  lemma SoloSkips(w: Worker, store: Store, env: Env)
    requires Shaped(w) && !w.pc.Done? && !w.pc.Calling?
    ensures var (now, fails, answer) := Reading(w, env);
            var e := Advance(w, store, now, fails, answer);
            Shaped(e.worker) && (SentIn(e.events) == [] ==> Solo(w, store, env) == Solo(e.worker, e.store, env))
  {
    var (now, fails, answer) := Reading(w, env);
    var e := Advance(w, store, now, fails, answer);
    AdvanceShapes(w, store, now, fails, answer);
    var rest := Solo(e.worker, e.store, env);
    assert [] + rest.sent == rest.sent;
  }
}
