/** The daily budget bounds the cloud calls charged to each UTC day, in every interleaving. */
module LlmBudgetBound {
  import opened Common
  import opened LlmTypes
  import opened LlmBudget
  import opened LlmGateway
  import opened LlmProtocol
  import opened Redis

  /** All requests in flight, the Redis they share, the clock, and everything that happened. */
  datatype System = System(now: nat, store: Store, workers: map<nat, Worker>, log: seq<Event>)

  /** Time passes, a request arrives at some gateway, or a request takes its next step. A request that crashes
      or hangs is one that is never moved again. */
  datatype Step =
    | Tick(seconds: nat)
    | Arrive(id: nat, g: Config, req: Request)
    | Move(id: nat, fails: bool, answer: Answer)

  const START := System(0, EmptyStore(), map[], [])

  /** A request may pause arbitrarily anywhere, except that between reading the date and INCR it may pause at
      most `pause` seconds. */
  predicate Enabled(s: System, step: Step, pause: nat) {
    match step
    case Tick(_) => true
    case Arrive(id, _, _) => id !in s.workers
    case Move(id, _, _) =>
      && id in s.workers
      && Shaped(s.workers[id])
      && (s.workers[id].pc.Counting? ==> s.now <= s.workers[id].pc.readAt + pause)
  }

  /** A step that is not enabled does nothing. */
  function Apply(s: System, step: Step, pause: nat): System {
    if !Enabled(s, step, pause) then s
    else
      match step
      case Tick(seconds) => s.(now := s.now + seconds)
      case Arrive(id, g, req) => s.(workers := s.workers[id := NewWorker(g, req)])
      case Move(id, fails, answer) =>
        var e := Advance(s.workers[id], s.store, s.now, fails, answer);
        System(s.now, e.store, s.workers[id := e.worker], s.log + e.events)
  }

  /** The system after a schedule. */
  function Run(steps: seq<Step>, pause: nat): System {
    if steps == [] then START else Apply(Run(steps[..|steps| - 1], pause), steps[|steps| - 1], pause)
  }

  /** Cloud calls made on a charge against `day`. */
  function CallsChargedTo(log: seq<Event>, day: nat): nat {
    if log == [] then 0
    else CallsChargedTo(log[..|log| - 1], day) + (if ChargedCall(log[|log| - 1], day) then 1 else 0)
  }

  predicate ChargedCall(event: Event, day: nat) {
    event.Called? && event.slot == Cloud && event.charge == Some(day)
  }

  function GrantsFor(log: seq<Event>, day: nat): nat {
    if log == [] then 0
    else GrantsFor(log[..|log| - 1], day) + (if Grant(log[|log| - 1], day) then 1 else 0)
  }

  predicate Grant(event: Event, day: nat) {
    event.Charged? && event.day == day && event.granted
  }

  /** The worker has been granted a call on `day` that it has not made yet. */
  predicate HoldsGrant(w: Worker, day: nat) {
    || w.pc == Calling(Some(day))
    || (w.pc.Expiring? && w.pc.counted == day && w.g.limit.Some? && w.pc.count <= w.g.limit.value)
  }

  function Holders(workers: map<nat, Worker>, day: nat): set<nat> {
    set id | id in workers && HoldsGrant(workers[id], day)
  }

  /** The number a day's counter was last set to, expired or not. */
  function Tally(store: Store, day: nat): nat {
    if day in store.counters then store.counters[day].value else 0
  }

  function Max(a: int, b: int): int {
    if a < b then b else a
  }

  ghost predicate WorkerOk(w: Worker, now: nat, limit: int) {
    && Shaped(w)
    && (w.g.limit.Some? ==> w.g.limit.value <= limit)
    && (w.pc.Counting? ==> w.pc.day == DayOf(w.pc.readAt) && w.pc.readAt <= now)
    && (w.pc.Expiring? ==> w.pc.counted * DAY <= now)
  }

  /** Counters that may expire do so only once the day after theirs is over. */
  ghost predicate CountersLast(store: Store) {
    forall day :: day in store.counters && store.counters[day].expiresAt.Some? ==>
      store.counters[day].expiresAt.value >= (day + 2) * DAY
  }

  ghost predicate Bounded(s: System, limit: int, day: nat) {
    && CallsChargedTo(s.log, day) + |Holders(s.workers, day)| <= GrantsFor(s.log, day)
    && GrantsFor(s.log, day) <= Tally(s.store, day)
    && GrantsFor(s.log, day) <= Max(limit, 0)
  }

  ghost predicate Inv(s: System, limit: int) {
    && (forall id :: id in s.workers ==> WorkerOk(s.workers[id], s.now, limit))
    && CountersLast(s.store)
    && (forall day: nat :: Bounded(s, limit, day))
  }

  predicate LimitsAtMost(steps: seq<Step>, limit: int) {
    forall i :: 0 <= i < |steps| && steps[i].Arrive? && steps[i].g.limit.Some? ==> steps[i].g.limit.value <= limit
  }

  lemma CountsAppendOne(log: seq<Event>, event: Event, day: nat)
    ensures CallsChargedTo(log + [event], day) == CallsChargedTo(log, day) + (if ChargedCall(event, day) then 1 else 0)
    ensures GrantsFor(log + [event], day) == GrantsFor(log, day) + (if Grant(event, day) then 1 else 0)
  {
  }

  lemma HoldersCounted(workers: map<nat, Worker>, id: nat, day: nat)
    ensures |Holders(workers, day)|
         == |Holders(workers, day) - {id}| + (if id in workers && HoldsGrant(workers[id], day) then 1 else 0)
  {
  }

  lemma HoldersElsewhere(workers: map<nat, Worker>, id: nat, w: Worker, day: nat)
    ensures Holders(workers[id := w], day) - {id} == Holders(workers, day) - {id}
  {
  }

  /** Replacing one worker changes the holders by that worker alone. */
  lemma HoldersUpdate(workers: map<nat, Worker>, id: nat, w: Worker, day: nat)
    ensures var others := Holders(workers, day) - {id};
            && |Holders(workers[id := w], day)| == |others| + (if HoldsGrant(w, day) then 1 else 0)
            && |Holders(workers, day)| == |others| + (if id in workers && HoldsGrant(workers[id], day) then 1 else 0)
  {
    HoldersCounted(workers, id, day);
    HoldersCounted(workers[id := w], id, day);
    HoldersElsewhere(workers, id, w, day);
  }

  /** What a step that is neither INCR nor a call leaves alone. */
  lemma QuietStep(w: Worker, store: Store, now: nat, fails: bool, answer: Answer, limit: int, day: nat)
    requires WorkerOk(w, now, limit) && CountersLast(store)
    requires !w.pc.Counting? && !w.pc.Calling?
    ensures var e := Advance(w, store, now, fails, answer);
            && e.events == []
            && WorkerOk(e.worker, now, limit)
            && CountersLast(e.store)
            && (HoldsGrant(e.worker, day) ==> HoldsGrant(w, day))
            && Tally(e.store, day) == Tally(store, day)
  {
    AdvanceShapes(w, store, now, fails, answer);
  }

  /** INCR, within a day of reading the date: the counter is still alive, so the count it returns is one more
      than every grant so far. */
  lemma IncrStep(w: Worker, store: Store, now: nat, fails: bool, answer: Answer, limit: int, pause: nat)
    requires WorkerOk(w, now, limit) && CountersLast(store)
    requires w.pc.Counting? && now <= w.pc.readAt + pause && pause <= DAY
    ensures var e := Advance(w, store, now, fails, answer);
            var day := w.pc.day;
            && WorkerOk(e.worker, now, limit)
            && CountersLast(e.store)
            && (forall other :: other != day ==> Tally(e.store, other) == Tally(store, other))
            && (forall other :: other != day ==> !HoldsGrant(e.worker, other))
            && if fails
               then e.events == [] && e.store == store && !HoldsGrant(e.worker, day)
               else && Tally(e.store, day) == Tally(store, day) + 1
                    && e.events == [Charged(day, Tally(e.store, day), Tally(e.store, day) <= w.g.limit.value)]
                    && (HoldsGrant(e.worker, day) <==> Tally(e.store, day) <= w.g.limit.value)
  {
  }

  /** A call uses up the grant it was made on. */
  lemma CallingStep(w: Worker, store: Store, now: nat, fails: bool, answer: Answer, limit: int, day: nat)
    requires WorkerOk(w, now, limit) && w.pc.Calling?
    ensures var e := Advance(w, store, now, fails, answer);
            && |e.events| == 1
            && WorkerOk(e.worker, now, limit)
            && e.store == store
            && !HoldsGrant(e.worker, day)
            && !Grant(e.events[0], day)
            && (ChargedCall(e.events[0], day) ==> HoldsGrant(w, day))
  {
  }

  lemma MovePreserves(s: System, step: Step, pause: nat, limit: int, day: nat)
    requires Inv(s, limit) && step.Move? && Enabled(s, step, pause) && pause <= DAY
    ensures Bounded(Apply(s, step, pause), limit, day)
    ensures WorkerOk(Apply(s, step, pause).workers[step.id], s.now, limit)
    ensures CountersLast(Apply(s, step, pause).store)
  {
    var w := s.workers[step.id];
    var e := Advance(w, s.store, s.now, step.fails, step.answer);
    HoldersUpdate(s.workers, step.id, e.worker, day);
    assert Bounded(s, limit, day);
    if w.pc.Counting? {
      IncrStep(w, s.store, s.now, step.fails, step.answer, limit, pause);
      if e.events != [] {
        CountsAppendOne(s.log, e.events[0], day);
      } else {
        assert s.log + [] == s.log;
      }
    } else if w.pc.Calling? {
      CallingStep(w, s.store, s.now, step.fails, step.answer, limit, day);
      CountsAppendOne(s.log, e.events[0], day);
      assert e.events == [e.events[0]];
    } else {
      QuietStep(w, s.store, s.now, step.fails, step.answer, limit, day);
      assert s.log + [] == s.log;
    }
  }

  lemma StepPreserves(s: System, step: Step, pause: nat, limit: int)
    requires Inv(s, limit) && pause <= DAY
    requires step.Arrive? && step.g.limit.Some? ==> step.g.limit.value <= limit
    ensures Inv(Apply(s, step, pause), limit)
  {
    var s' := Apply(s, step, pause);
    if Enabled(s, step, pause) {
      match step
      case Tick(_) =>
        forall day: nat ensures Bounded(s', limit, day) { assert Bounded(s, limit, day); }
      case Arrive(id, g, req) =>
        forall day: nat ensures Bounded(s', limit, day) {
          assert Bounded(s, limit, day);
          HoldersUpdate(s.workers, id, NewWorker(g, req), day);
        }
      case Move(id, _, _) =>
        forall day: nat ensures Bounded(s', limit, day) { MovePreserves(s, step, pause, limit, day); }
        MovePreserves(s, step, pause, limit, 0);
    }
  }

  lemma {:induction false} RunKeepsInv(steps: seq<Step>, pause: nat, limit: int)
    requires LimitsAtMost(steps, limit) && pause <= DAY
    ensures Inv(Run(steps, pause), limit)
  {
    if steps == [] {
      assert forall day: nat :: Holders(START.workers, day) == {};
    } else {
      var n := |steps| - 1;
      RunKeepsInv(steps[..n], pause, limit);
      StepPreserves(Run(steps[..n], pause), steps[n], pause, limit);
    }
  }

  /** The budget does what it is for: however requests interleave, at most max(limit, 0) cloud calls are charged
      to any day. */
  ghost predicate BudgetBoundHolds(pause: nat) {
    forall steps: seq<Step>, limit: int, day: nat :: LimitsAtMost(steps, limit) ==>
      CallsChargedTo(Run(steps, pause).log, day) <= Max(limit, 0)
  }

  lemma BudgetBound(steps: seq<Step>, pause: nat, limit: int, day: nat)
    requires LimitsAtMost(steps, limit) && pause <= DAY
    ensures CallsChargedTo(Run(steps, pause).log, day) <= Max(limit, 0)
  {
    RunKeepsInv(steps, pause, limit);
    assert Bounded(Run(steps, pause), limit, day);
  }

  // ----- The pause of one day is the exact limit -----

  const DEMO_CONFIG := Config(map[Cloud := Client("provider", "model")], map[NewsSummary := Cloud], Some(1), None, None)
  const DEMO_REQUEST := Request(NewsSummary, Payload(true, PUBLIC, JNull), Schema("", map[]), "", None)
  const DEMO_WORKER := NewWorker(DEMO_CONFIG, DEMO_REQUEST).(
    admitted := Some(Admitted(Cloud, false, Client("provider", "model"))))

  const DEMO_CLIENT := Client("provider", "model")
  const DEMO_CALL := Called(
    Cloud, DEMO_REQUEST.payload, CallFor(DEMO_REQUEST), Some(0), None, 0, DEMO_CLIENT, Raised(""))

  /** INCR on a missing or expired counter grants the call. */
  lemma IncrAfresh(s: System, id: nat, readAt: nat, pause: nat)
    requires id in s.workers && s.workers[id] == DEMO_WORKER.(pc := Counting(0, readAt))
    requires s.now <= readAt + pause
    requires 0 in s.store.counters ==> !Alive(s.store.counters[0], s.now)
    ensures Apply(s, Move(id, false, Raised("")), pause) == System(
      s.now,
      Incr(s.store, 0, s.now),
      s.workers[id := DEMO_WORKER.(pc := Expiring(0, 1))],
      s.log + [Charged(0, 1, true)])
  {
  }

  lemma ExpireAfresh(s: System, id: nat, pause: nat)
    requires id in s.workers && s.workers[id] == DEMO_WORKER.(pc := Expiring(0, 1))
    ensures Apply(s, Move(id, false, Raised("")), pause) == System(
      s.now,
      Expire(s.store, 0, s.now, COUNTER_TTL),
      s.workers[id := DEMO_WORKER.(pc := Calling(Some(0)))],
      s.log)
  {
  }

  lemma CallGranted(s: System, id: nat, pause: nat)
    requires id in s.workers && s.workers[id] == DEMO_WORKER.(pc := Calling(Some(0)))
    ensures Apply(s, Move(id, false, Raised("")), pause) == System(
      s.now,
      s.store,
      s.workers[id := DEMO_WORKER.(pc := Done(Err(ClientFailed(""))))],
      s.log + [DEMO_CALL])
  {
  }

  /** `s` after INCR, EXPIRE and the call of worker `id`. */
  function Granted(s: System, id: nat): System {
    System(
      s.now,
      Expire(Incr(s.store, 0, s.now), 0, s.now, COUNTER_TTL),
      s.workers[id := DEMO_WORKER.(pc := Expiring(0, 1))][id := DEMO_WORKER.(pc := Calling(Some(0)))][
        id := DEMO_WORKER.(pc := Done(Err(ClientFailed(""))))],
      s.log + [Charged(0, 1, true)] + [DEMO_CALL])
  }

  lemma GrantFacts(s: System, id: nat)
    requires id in s.workers
    requires 0 in s.store.counters ==> !Alive(s.store.counters[0], s.now)
    ensures var s' := Granted(s, id);
            && s'.now == s.now
            && s'.workers.Keys == s.workers.Keys
            && s'.store.counters == s.store.counters[0 := Entry(1, Some(s.now + COUNTER_TTL))]
            && CallsChargedTo(s'.log, 0) == CallsChargedTo(s.log, 0) + 1
  {
  }

  lemma GrantRuns(s: System, id: nat, readAt: nat, pause: nat)
    requires id in s.workers && s.workers[id] == DEMO_WORKER.(pc := Counting(0, readAt))
    requires s.now <= readAt + pause
    requires 0 in s.store.counters ==> !Alive(s.store.counters[0], s.now)
    ensures var move := Move(id, false, Raised(""));
            Apply(Apply(Apply(s, move, pause), move, pause), move, pause) == Granted(s, id)
  {
    var move := Move(id, false, Raised(""));
    IncrAfresh(s, id, readAt, pause);
    var s1 := Apply(s, move, pause);
    ExpireAfresh(s1, id, pause);
    CallGranted(Apply(s1, move, pause), id, pause);
  }

  /** From INCR on a missing or expired counter to the call: the counter restarts and one more call is charged. */
  lemma GrantedAfresh(s: System, id: nat, readAt: nat, pause: nat)
    requires id in s.workers && s.workers[id] == DEMO_WORKER.(pc := Counting(0, readAt))
    requires s.now <= readAt + pause
    requires 0 in s.store.counters ==> !Alive(s.store.counters[0], s.now)
    ensures var move := Move(id, false, Raised(""));
            var s' := Apply(Apply(Apply(s, move, pause), move, pause), move, pause);
            && s'.now == s.now
            && s'.workers.Keys == s.workers.Keys
            && s'.store.counters == s.store.counters[0 := Entry(1, Some(s.now + COUNTER_TTL))]
            && CallsChargedTo(s'.log, 0) == CallsChargedTo(s.log, 0) + 1
  {
    GrantRuns(s, id, readAt, pause);
    GrantFacts(s, id);
  }

  /** A new request up to the point where the date is read next. */
  lemma ReachesDating(s: System, id: nat, pause: nat)
    requires id !in s.workers
    ensures var s' := Apply(Apply(s, Arrive(id, DEMO_CONFIG, DEMO_REQUEST), pause), Move(id, false, Raised("")), pause);
            s' == s.(workers := s.workers[id := DEMO_WORKER.(pc := Dating)])
  {
  }

  lemma ReadsDate(s: System, id: nat, pause: nat)
    requires id in s.workers && s.workers[id] == DEMO_WORKER.(pc := Dating)
    ensures Apply(s, Move(id, false, Raised("")), pause)
         == s.(workers := s.workers[id := DEMO_WORKER.(pc := Counting(DayOf(s.now), s.now))])
  {
  }

  lemma RunSnoc(steps: seq<Step>, step: Step, pause: nat)
    ensures Run(steps + [step], pause) == Apply(Run(steps, pause), step, pause)
  {
  }

  lemma AppendSecond(steps: seq<Step>, a: Step, b: Step)
    ensures steps + [a] + [b] == steps + [a, b]
  {
  }

  lemma AppendThird(steps: seq<Step>, a: Step, b: Step, c: Step)
    ensures steps + [a, b] + [c] == steps + [a, b, c]
  {
  }

  /** `Run` over three more equal steps. */
  lemma RunThrice(steps: seq<Step>, step: Step, pause: nat)
    ensures Run(steps + [step, step, step], pause)
         == Apply(Apply(Apply(Run(steps, pause), step, pause), step, pause), step, pause)
  {
    RunTwice(steps, step, step, pause);
    RunSnoc(steps + [step, step], step, pause);
    AppendThird(steps, step, step, step);
  }

  lemma RunTwice(steps: seq<Step>, step: Step, step': Step, pause: nat)
    ensures Run(steps + [step, step'], pause) == Apply(Apply(Run(steps, pause), step, pause), step', pause)
  {
    RunSnoc(steps, step, pause);
    RunSnoc(steps + [step], step', pause);
    AppendSecond(steps, step, step');
  }

  function DemoMove(id: nat): Step {
    Move(id, false, Raised(""))
  }

  /** A request that charges and calls at the very first second of day 0. */
  function EarlyRequest(): seq<Step> {
    [Arrive(1, DEMO_CONFIG, DEMO_REQUEST), DemoMove(1)] + [DemoMove(1)] + [DemoMove(1), DemoMove(1), DemoMove(1)]
  }

  /** After `EarlyRequest`: a request that reads its date at the last second of day 0 and increments at the first
      second of day 2, when the counter has just expired. */
  function LateIncrement(): seq<Step> {
    EarlyRequest()
    + [Arrive(2, DEMO_CONFIG, DEMO_REQUEST), DemoMove(2)] + [Tick(DAY - 1)] + [DemoMove(2)] + [Tick(DAY + 1)]
    + [DemoMove(2), DemoMove(2), DemoMove(2)]
  }

  lemma EarlyRequestCharges(pause: nat)
    ensures var s := Run(EarlyRequest(), pause);
            && s.now == 0 && s.workers.Keys == {1}
            && s.store.counters == map[0 := Entry(1, Some(2 * DAY))]
            && CallsChargedTo(s.log, 0) == 1
  {
    var arrive := [Arrive(1, DEMO_CONFIG, DEMO_REQUEST), DemoMove(1)];
    RunTwice([], arrive[0], arrive[1], pause);
    assert [] + arrive == arrive;
    assert Run([], pause) == START;
    ReachesDating(START, 1, pause);
    RunSnoc(arrive, DemoMove(1), pause);
    ReadsDate(Run(arrive, pause), 1, pause);
    var s := Run(arrive + [DemoMove(1)], pause);
    GrantedAfresh(s, 1, 0, pause);
    RunThrice(arrive + [DemoMove(1)], DemoMove(1), pause);
    assert s.store.counters == map[];
  }

  /** The second request reads its date, and the counter of the first expires before it goes on. */
  lemma LateRequestWaits(t: seq<Step>, s: System, pause: nat)
    requires s == Run(t, pause) && s.now == 0 && 2 !in s.workers
    ensures var waiting := t + [Arrive(2, DEMO_CONFIG, DEMO_REQUEST), DemoMove(2)]
                           + [Tick(DAY - 1)] + [DemoMove(2)] + [Tick(DAY + 1)];
            Run(waiting, pause) == System(
              2 * DAY, s.store, s.workers[2 := DEMO_WORKER.(pc := Counting(0, DAY - 1))], s.log)
  {
    RunTwice(t, Arrive(2, DEMO_CONFIG, DEMO_REQUEST), DemoMove(2), pause);
    ReachesDating(s, 2, pause);
    var t1 := t + [Arrive(2, DEMO_CONFIG, DEMO_REQUEST), DemoMove(2)];
    RunSnoc(t1, Tick(DAY - 1), pause);
    var t2 := t1 + [Tick(DAY - 1)];
    ReadsDate(Run(t2, pause), 2, pause);
    RunSnoc(t2, DemoMove(2), pause);
    assert DayOf(DAY - 1) == 0;
    RunSnoc(t2 + [DemoMove(2)], Tick(DAY + 1), pause);
    assert s.workers[2 := DEMO_WORKER.(pc := Dating)][2 := DEMO_WORKER.(pc := Counting(0, DAY - 1))]
        == s.workers[2 := DEMO_WORKER.(pc := Counting(0, DAY - 1))];
  }

  lemma LateIncrementLimits()
    ensures LimitsAtMost(LateIncrement(), 1)
  {
  }

  lemma LateIncrementOverspends(pause: nat)
    requires pause > DAY
    ensures CallsChargedTo(Run(LateIncrement(), pause).log, 0) == 2
  {
    EarlyRequestCharges(pause);
    var t := EarlyRequest();
    LateRequestWaits(t, Run(t, pause), pause);
    var waiting := t + [Arrive(2, DEMO_CONFIG, DEMO_REQUEST), DemoMove(2)]
                   + [Tick(DAY - 1)] + [DemoMove(2)] + [Tick(DAY + 1)];
    GrantedAfresh(Run(waiting, pause), 2, DAY - 1, pause);
    RunThrice(waiting, DemoMove(2), pause);
    assert LateIncrement() == waiting + [DemoMove(2), DemoMove(2), DemoMove(2)];
  }

  /** The budget bound holds exactly when no request pauses longer than a day between reading the date for its
      counter key and incrementing that counter: the two-day lifetime of the counter leaves just that much. */
  lemma BudgetBoundExactlyUpToOneDay(pause: nat)
    ensures BudgetBoundHolds(pause) <==> pause <= DAY
  {
    if pause <= DAY {
      forall steps: seq<Step>, limit: int, day: nat | LimitsAtMost(steps, limit)
        ensures CallsChargedTo(Run(steps, pause).log, day) <= Max(limit, 0)
      {
        BudgetBound(steps, pause, limit, day);
      }
    } else {
      LateIncrementLimits();
      LateIncrementOverspends(pause);
      assert CallsChargedTo(Run(LateIncrement(), pause).log, 0) > Max(1, 0);
    }
  }
}
