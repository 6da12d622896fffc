/** Safety of every interleaving: the privacy boundary, one call and one charge a request, and where hits come from. */
module LlmInterleaving {
  import opened Common
  import opened LlmTypes
  import opened LlmPolicy
  import opened LlmCache
  import opened LlmGateway
  import opened LlmProtocol
  import opened LlmBudgetBound
  import opened Redis

  // ----- Privacy -----

  /** The worker has passed the gate whenever its next call, or a later one, goes to the cloud. */
  predicate Gated(w: Worker) {
    && (w.admitted.Some? && w.admitted.value.slot == Cloud ==> CloudAllowed(w.req.payload))
    && (w.phase.Verifying? ==> CloudAllowed(w.req.payload))
  }

  ghost predicate BoundaryKept(s: System) {
    && (forall id :: id in s.workers ==> Gated(s.workers[id]))
    && (forall event :: event in s.log && event.Called? && event.slot == Cloud ==> CloudAllowed(event.payload))
  }

  lemma AdvanceGated(w: Worker, store: Store, now: nat, fails: bool, answer: Answer)
    requires Shaped(w) && Gated(w)
    ensures var e := Advance(w, store, now, fails, answer);
            && Gated(e.worker)
            && forall event :: event in e.events && event.Called? && event.slot == Cloud ==> CloudAllowed(event.payload)
  {
  }

  /** However requests interleave, nothing but permitted payloads reaches the cloud slot. */
  lemma {:induction false} CloudBoundaryHolds(steps: seq<Step>, pause: nat)
    ensures BoundaryKept(Run(steps, pause))
  {
    if steps != [] {
      var n := |steps| - 1;
      CloudBoundaryHolds(steps[..n], pause);
      var s := Run(steps[..n], pause);
      if steps[n].Move? && Enabled(s, steps[n], pause) {
        AdvanceGated(s.workers[steps[n].id], s.store, s.now, steps[n].fails, steps[n].answer);
      }
    }
  }

  // ----- One cloud call and one charge a request -----

  /** The events a step leaves in the log. */
  function Emitted(s: System, step: Step, pause: nat): seq<Event> {
    if step.Move? && Enabled(s, step, pause)
    then Advance(s.workers[step.id], s.store, s.now, step.fails, step.answer).events
    else []
  }

  /** Number of steps in which request `id` called the cloud. */
  function CloudCallsBy(steps: seq<Step>, pause: nat, id: nat): nat {
    if steps == [] then 0
    else
      var n := |steps| - 1;
      var events := Emitted(Run(steps[..n], pause), steps[n], pause);
      CloudCallsBy(steps[..n], pause, id)
      + (if steps[n].Move? && steps[n].id == id && events != [] && events[0].Called? && events[0].slot == Cloud
         then 1 else 0)
  }

  /** Number of steps in which request `id` incremented a counter. */
  function ChargesBy(steps: seq<Step>, pause: nat, id: nat): nat {
    if steps == [] then 0
    else
      var n := |steps| - 1;
      var events := Emitted(Run(steps[..n], pause), steps[n], pause);
      ChargesBy(steps[..n], pause, id)
      + (if steps[n].Move? && steps[n].id == id && events != [] && events[0].Charged? then 1 else 0)
  }

  /** The worker may yet call the cloud. */
  predicate MayCallCloud(w: Worker) {
    !w.pc.Done? && !(w.pc.Storing? && w.admitted.Some? && w.admitted.value.slot == Cloud)
  }

  /** The worker may yet increment a counter. */
  predicate MayCharge(w: Worker) {
    || w.pc.Fresh? || w.pc.Keying? || w.pc.Looking? || w.pc.Dating? || w.pc.Counting?
    || (w.phase.First? && w.pc.Calling? && w.admitted.Some? && w.admitted.value.slot != Cloud)
  }

  /** Only a cloud-bound worker stores, and a worker counts or stores only on its way to or from its cloud call. */
  predicate OnPath(w: Worker) {
    && Shaped(w)
    && (w.pc.Storing? || w.pc.Keying? || w.pc.Looking? ==> w.admitted.Some? && w.admitted.value.slot == Cloud)
    && (w.phase.First? && (w.pc.Dating? || w.pc.Counting? || w.pc.Expiring?) ==>
          w.admitted.Some? && w.admitted.value.slot == Cloud)
  }

  lemma AdvanceSpends(w: Worker, store: Store, now: nat, fails: bool, answer: Answer)
    requires OnPath(w)
    ensures var e := Advance(w, store, now, fails, answer);
            && OnPath(e.worker)
            && |e.events| <= 1
            && (MayCallCloud(e.worker) ==> MayCallCloud(w))
            && (MayCharge(e.worker) ==> MayCharge(w))
            && (e.events != [] && e.events[0].Called? && e.events[0].slot == Cloud ==>
                  MayCallCloud(w) && !MayCallCloud(e.worker))
            && (e.events != [] && e.events[0].Charged? ==> MayCharge(w) && !MayCharge(e.worker))
  {
    AdvanceShapes(w, store, now, fails, answer);
  }

  ghost predicate SpentAtMostOnce(steps: seq<Step>, pause: nat, id: nat) {
    var s := Run(steps, pause);
    && (forall other :: other in s.workers ==> OnPath(s.workers[other]))
    && CloudCallsBy(steps, pause, id) + (if id !in s.workers || MayCallCloud(s.workers[id]) then 1 else 0) <= 1
    && ChargesBy(steps, pause, id) + (if id !in s.workers || MayCharge(s.workers[id]) then 1 else 0) <= 1
  }

  lemma {:induction false} RunSpends(steps: seq<Step>, pause: nat, id: nat)
    ensures SpentAtMostOnce(steps, pause, id)
  {
    if steps != [] {
      var n := |steps| - 1;
      RunSpends(steps[..n], pause, id);
      var s := Run(steps[..n], pause);
      if steps[n].Move? && Enabled(s, steps[n], pause) {
        AdvanceSpends(s.workers[steps[n].id], s.store, s.now, steps[n].fails, steps[n].answer);
      }
    }
  }

  /** However requests interleave, each makes at most one cloud call and at most one counter increment. */
  lemma OneCallOneCharge(steps: seq<Step>, pause: nat, id: nat)
    ensures CloudCallsBy(steps, pause, id) <= 1 && ChargesBy(steps, pause, id) <= 1
  {
    RunSpends(steps, pause, id);
  }

  // ----- Where a cache hit comes from -----

  /** `event` is a cloud call made under `key` that was answered with `found`. */
  predicate Answers(event: Event, key: CacheKey, found: CachedCompletion) {
    && event.Called?
    && event.slot == Cloud
    && event.key == Some(key)
    && event.answer == Answered(found.output)
    && event.client.providerName == found.provider
    && event.client.modelName == found.modelName
  }

  ghost predicate Recorded(log: seq<Event>, key: CacheKey, found: CachedCompletion) {
    exists i :: 0 <= i < |log| && Answers(log[i], key, found)
  }

  /** The key was built for this very call, at instant `builtAt` of the day it names. */
  predicate KeyOf(key: CacheKey, builtAt: nat, task: TaskType, call: Call, modelName: string) {
    && key.task == task
    && key.day == DayOf(builtAt)
    && key.digest == Digest(call.body, call.prompt, modelName, call.schema)
  }

  ghost predicate WorkerTraced(w: Worker, log: seq<Event>, now: nat) {
    && OnPath(w)
    && (w.key.Some? ==>
          && w.admitted.Some?
          && KeyOf(w.key.value, w.builtAt, w.req.task, CallFor(w.req), w.admitted.value.client.modelName)
          && w.builtAt <= now)
    && (w.pc.Looking? ==> w.key == Some(w.pc.key))
    && (w.pc.Storing? ==>
          Recorded(log, w.key.value,
            CachedCompletion(w.pc.output, w.admitted.value.client.providerName, w.admitted.value.client.modelName)))
    && (w.pc.Done? && w.pc.result.Ok? && w.pc.result.value.cached ==>
          var c := w.pc.result.value;
          w.key.Some? && Recorded(log, w.key.value, CachedCompletion(c.output, c.provider, c.modelName)))
  }

  ghost predicate StoreTraced(store: Store, log: seq<Event>) {
    forall key :: key in store.blobs && Decode(store.blobs[key].value).Some? ==>
      Recorded(log, key, Decode(store.blobs[key].value).value)
  }

  ghost predicate EventsTraced(log: seq<Event>) {
    forall i :: 0 <= i < |log| && log[i].Called? && log[i].key.Some? ==>
      exists task :: KeyOf(log[i].key.value, log[i].builtAt, task, log[i].call, log[i].client.modelName)
  }

  ghost predicate Traced(s: System) {
    && (forall id :: id in s.workers ==> WorkerTraced(s.workers[id], s.log, s.now))
    && StoreTraced(s.store, s.log)
    && EventsTraced(s.log)
  }

  lemma RecordedGrows(log: seq<Event>, more: seq<Event>, key: CacheKey, found: CachedCompletion)
    requires Recorded(log, key, found)
    ensures Recorded(log + more, key, found)
  {
    var i :| 0 <= i < |log| && Answers(log[i], key, found);
    assert (log + more)[i] == log[i];
  }

  lemma WorkerTracedGrows(w: Worker, log: seq<Event>, more: seq<Event>, now: nat, later: nat)
    requires WorkerTraced(w, log, now) && now <= later
    ensures WorkerTraced(w, log + more, later)
  {
    if w.pc.Storing? {
      RecordedGrows(log, more, w.key.value,
        CachedCompletion(w.pc.output, w.admitted.value.client.providerName, w.admitted.value.client.modelName));
    }
    if w.pc.Done? && w.pc.result.Ok? && w.pc.result.value.cached {
      var c := w.pc.result.value;
      RecordedGrows(log, more, w.key.value, CachedCompletion(c.output, c.provider, c.modelName));
    }
  }

  lemma StoreTracedGrows(store: Store, log: seq<Event>, more: seq<Event>)
    requires StoreTraced(store, log)
    ensures StoreTraced(store, log + more)
  {
    forall key | key in store.blobs && Decode(store.blobs[key].value).Some?
      ensures Recorded(log + more, key, Decode(store.blobs[key].value).value)
    {
      RecordedGrows(log, more, key, Decode(store.blobs[key].value).value);
    }
  }

  /** Looking up: a hit was recorded. */
  lemma LookStep(w: Worker, s: System, fails: bool, answer: Answer)
    requires Traced(s) && WorkerTraced(w, s.log, s.now) && w.pc.Looking?
    ensures var e := Advance(w, s.store, s.now, fails, answer);
            e.events == [] && e.store == s.store && WorkerTraced(e.worker, s.log, s.now)
  {
  }

  /** Calling: the answer is recorded under the worker's key. */
  lemma CallTraced(w: Worker, s: System, fails: bool, answer: Answer)
    requires Traced(s) && WorkerTraced(w, s.log, s.now) && w.pc.Calling?
    ensures var e := Advance(w, s.store, s.now, fails, answer);
            && |e.events| == 1
            && e.store == s.store
            && WorkerTraced(e.worker, s.log + e.events, s.now)
            && EventsTraced(s.log + e.events)
  {
    AdvanceSpends(w, s.store, s.now, fails, answer);
    var e := Advance(w, s.store, s.now, fails, answer);
    var log' := s.log + e.events;
    assert log'[|s.log|] == e.events[0];
    if e.worker.pc.Storing? {
      assert Answers(log'[|s.log|], w.key.value,
        CachedCompletion(e.worker.pc.output, w.admitted.value.client.providerName, w.admitted.value.client.modelName));
    }
    forall i | 0 <= i < |log'| && log'[i].Called? && log'[i].key.Some?
      ensures exists task :: KeyOf(log'[i].key.value, log'[i].builtAt, task, log'[i].call, log'[i].client.modelName)
    {
      if i < |s.log| {
        assert log'[i] == s.log[i];
      } else {
        assert KeyOf(w.key.value, w.builtAt, w.req.task, CallFor(w.req), w.admitted.value.client.modelName);
      }
    }
  }

  /** Storing: what is written was recorded. */
  lemma StoreStep(w: Worker, s: System, fails: bool, answer: Answer)
    requires Traced(s) && WorkerTraced(w, s.log, s.now) && w.pc.Storing?
    ensures var e := Advance(w, s.store, s.now, fails, answer);
            e.events == [] && StoreTraced(e.store, s.log) && WorkerTraced(e.worker, s.log, s.now)
  {
  }

  /** The remaining steps touch neither the cache nor the record. */
  lemma OtherStep(w: Worker, s: System, fails: bool, answer: Answer)
    requires Traced(s) && WorkerTraced(w, s.log, s.now)
    requires !w.pc.Looking? && !w.pc.Calling? && !w.pc.Storing?
    ensures var e := Advance(w, s.store, s.now, fails, answer);
            && e.store.blobs == s.store.blobs
            && (e.events == [] || (|e.events| == 1 && e.events[0].Charged?))
            && WorkerTraced(e.worker, s.log, s.now)
  {
    AdvanceSpends(w, s.store, s.now, fails, answer);
  }

  lemma MoveTraced(s: System, step: Step, pause: nat)
    requires Traced(s) && step.Move? && Enabled(s, step, pause)
    ensures Traced(Apply(s, step, pause))
  {
    var w := s.workers[step.id];
    var e := Advance(w, s.store, s.now, step.fails, step.answer);
    var s' := Apply(s, step, pause);
    assert s.log + [] == s.log;
    if w.pc.Looking? {
      LookStep(w, s, step.fails, step.answer);
    } else if w.pc.Calling? {
      CallTraced(w, s, step.fails, step.answer);
      StoreTracedGrows(s.store, s.log, e.events);
    } else if w.pc.Storing? {
      StoreStep(w, s, step.fails, step.answer);
    } else {
      OtherStep(w, s, step.fails, step.answer);
      WorkerTracedGrows(e.worker, s.log, e.events, s.now, s.now);
      StoreTracedGrows(s.store, s.log, e.events);
    }
    forall id | id in s'.workers
      ensures WorkerTraced(s'.workers[id], s'.log, s'.now)
    {
      if id != step.id {
        WorkerTracedGrows(s.workers[id], s.log, e.events, s.now, s.now);
      }
    }
  }

  lemma {:induction false} RunTraced(steps: seq<Step>, pause: nat)
    ensures Traced(Run(steps, pause))
  {
    if steps != [] {
      var n := |steps| - 1;
      RunTraced(steps[..n], pause);
      var s := Run(steps[..n], pause);
      match steps[n]
      case Tick(seconds) =>
        forall id | id in s.workers
          ensures WorkerTraced(s.workers[id], s.log, s.now + seconds)
        {
          WorkerTracedGrows(s.workers[id], s.log, [], s.now, s.now + seconds);
          assert s.log + [] == s.log;
        }
      case Arrive(_, _, _) =>
      case Move(_, _, _) =>
        if Enabled(s, steps[n], pause) {
          MoveTraced(s, steps[n], pause);
        }
    }
  }

  /** A cached completion is what the cloud really answered, to the very same call and through a client of the very
      model the request asks for, asked by a request whose key was built on the same UTC day: in every interleaving,
      and whatever the lifetime of cache entries. */
  lemma HitsComeFromCalls(steps: seq<Step>, pause: nat, id: nat)
    requires id in Run(steps, pause).workers
    requires var pc := Run(steps, pause).workers[id].pc;
             pc.Done? && pc.result.Ok? && pc.result.value.cached
    ensures var s := Run(steps, pause);
            var w, c := s.workers[id], s.workers[id].pc.result.value;
            && w.key.Some?
            && w.admitted.Some?
            && c.modelName == w.admitted.value.client.modelName
            && exists i :: 0 <= i < |s.log|
                 && s.log[i].Called?
                 && s.log[i].slot == Cloud
                 && s.log[i].call == CallFor(w.req)
                 && s.log[i].key.Some?
                 && DayOf(s.log[i].builtAt) == DayOf(w.builtAt)
                 && s.log[i].key.value.task == w.req.task
                 && s.log[i].answer == Answered(c.output)
                 && s.log[i].client == Client(c.provider, c.modelName)
  {
    RunTraced(steps, pause);
    var s := Run(steps, pause);
    var w, c := s.workers[id], s.workers[id].pc.result.value;
    assert WorkerTraced(w, s.log, s.now);
    var i :| 0 <= i < |s.log| && Answers(s.log[i], w.key.value, CachedCompletion(c.output, c.provider, c.modelName));
    var task :| KeyOf(s.log[i].key.value, s.log[i].builtAt, task, s.log[i].call, s.log[i].client.modelName);
    assert s.log[i].call == CallFor(w.req);
  }
}
