/** When exactly the gateway with a response cache refines the gateway without one. */
module LlmRefinement {
  import opened Common
  import opened LlmTypes
  import opened LlmPolicy
  import opened LlmBudget
  import opened LlmCache
  import opened LlmGateway
  import opened LlmSimulation
  import opened Redis

  /** What may happen in a history: how long a request may pause between reading the date for its counter key and
      INCR, whether an EXPIRE may be lost, and whether the policy may verify answers that are not from the cloud. */
  datatype Faults = Faults(pause: nat, expireMayFail: bool, localMayVerify: bool)

  ghost predicate Timely(charge: ChargeEnv, f: Faults) {
    && charge.incrAt <= charge.dateAt + f.pause
    && charge.dateAt <= charge.expireAt
    && (f.expireMayFail || !charge.expireFails)
  }

  ghost predicate PossibleTurn(g: Config, turn: Turn, client: (Slot, Call) -> Answer, f: Faults) {
    && AnsweredBy(g, turn, client)
    && Timely(turn.env.charge, f)
    && (!Verified(g, turn) || (f.localMayVerify && Timely(turn.env.verifyCharge, f)))
  }

  ghost predicate Possible(g: Config, turns: seq<Turn>, client: (Slot, Call) -> Answer, f: Faults) {
    forall i :: 0 <= i < |turns| ==> PossibleTurn(g, turns[i], client, f)
  }

  /** Whenever the gateway without the cache returns, the one with it returns the same answer. */
  ghost predicate Refines(g: Config, turns: seq<Turn>) {
    forall i :: 0 <= i < |turns| ==>
      Agrees(OutcomeAt(g, EmptyStore(), turns, i).result, OutcomeAt(WithoutCache(g), EmptyStore(), turns, i).result)
  }

  /** The counters of the gateway with the cache never read higher. */
  ghost predicate CountsNoMore(g: Config, turns: seq<Turn>) {
    forall i :: 0 <= i <= |turns| ==>
      NeverHigher(After(g, EmptyStore(), turns, i), After(WithoutCache(g), EmptyStore(), turns, i))
  }

  /** The cache refines the plain gateway in every history, of any configuration and any clients, with these faults. */
  ghost predicate RefinementHolds(f: Faults) {
    forall g: Config, turns: seq<Turn>, client: (Slot, Call) -> Answer :: Possible(g, turns, client, f) ==>
      Refines(g, turns)
  }

  ghost predicate CountersHold(f: Faults) {
    forall g: Config, turns: seq<Turn>, client: (Slot, Call) -> Answer :: Possible(g, turns, client, f) ==>
      CountsNoMore(g, turns)
  }

  predicate Harmless(f: Faults) {
    f.pause <= DAY && !f.expireMayFail && !f.localMayVerify
  }

  lemma HarmlessRefines(g: Config, turns: seq<Turn>, client: (Slot, Call) -> Answer, f: Faults)
    requires Possible(g, turns, client, f) && Harmless(f)
    ensures Refines(g, turns) && CountsNoMore(g, turns)
  {
    forall i | 0 <= i < |turns| ensures Admissible(g, turns[i], client) {
      assert PossibleTurn(g, turns[i], client, f);
    }
    forall i | 0 <= i < |turns|
      ensures Agrees(OutcomeAt(g, EmptyStore(), turns, i).result,
                     OutcomeAt(WithoutCache(g), EmptyStore(), turns, i).result)
    {
      PromptHistoryRefines(g, turns, i, client);
    }
    forall i | 0 <= i <= |turns|
      ensures NeverHigher(After(g, EmptyStore(), turns, i), After(WithoutCache(g), EmptyStore(), turns, i))
    {
      if i > 0 {
        PromptHistoryRefines(g, turns, i - 1, client);
      }
    }
  }

  // ----- Histories in which the gateways part -----

  /** The readings of a history come in order, request after request. */
  ghost predicate ClockRuns(turns: seq<Turn>) {
    && (forall i :: 0 <= i < |turns| ==> InOrder(turns[i].env))
    && (forall i :: 0 < i < |turns| ==> turns[i - 1].env.verifyCharge.expireAt <= turns[i].env.keyAt)
  }

  predicate InOrder(env: Env) {
    && env.keyAt <= env.lookupAt <= env.charge.dateAt <= env.charge.incrAt <= env.charge.expireAt <= env.storeAt
    && env.storeAt <= env.verifyCharge.dateAt <= env.verifyCharge.incrAt <= env.verifyCharge.expireAt
  }

  const DEMO_ANSWER: JsonObject := map["ok" := JBool(true)]
  const DEMO_SCHEMA := Schema("Demo", map["ok" := Field(FlagField, true)])
  const DEMO_CLOUD := Client("cloud-provider", "cloud-model")
  const DEMO_LOCAL := Client("local-provider", "local-model")
  const DEMO_PAYLOAD := Payload(true, PUBLIC, JNull)

  /** The cloud answers what the schema asks for, the local client nothing. */
  function DemoClient(slot: Slot, call: Call): Answer {
    if slot == Cloud then Answered(DEMO_ANSWER) else Answered(map[])
  }

  function ChargeAt(instant: nat): ChargeEnv {
    ChargeEnv(instant, instant, false, instant, false)
  }

  /** A request that builds its key and looks it up at `keyAt`, and stores and verifies right after its charge. */
  function DemoTurn(task: TaskType, prompt: string, keyAt: nat, charge: ChargeEnv): Turn {
    var slot := if task == NewsSummary then Cloud else Local;
    var req := Request(task, DEMO_PAYLOAD, DEMO_SCHEMA, prompt, None);
    Turn(Env(keyAt, keyAt, false, charge, DemoClient(slot, CallFor(req)), charge.expireAt, false,
             ChargeAt(charge.expireAt), Answered(DEMO_ANSWER)),
         req)
  }

  /** News summaries run in the cloud, tags locally; entries live for ten minutes. */
  function DemoConfig(limit: int, policy: Option<Policy>): Config {
    Config(
      map[Cloud := DEMO_CLOUD, Local := DEMO_LOCAL], map[NewsSummary := Cloud, TagSentiment := Local],
      Some(limit), Some(600), policy)
  }

  predicate IsDemo(g: Config, limit: int) {
    && g.(cacheTtl := None, policy := None) == WithoutCache(DemoConfig(limit, None))
    && g.cacheTtl in {None, Some(600)}
    && g.policy in {None, Some(Policy(None))}
  }

  lemma DemoAdmits(g: Config, limit: int, turn: Turn, prompt: string, keyAt: nat, charge: ChargeEnv)
    requires IsDemo(g, limit) && turn == DemoTurn(NewsSummary, prompt, keyAt, charge)
    ensures Admit(g, turn.req) == Ok(Admitted(Cloud, false, DEMO_CLOUD))
    ensures turn.env.firstAnswer == Answered(DEMO_ANSWER) && DEMO_ANSWER != map[]
  {
    assert "ok" in DEMO_ANSWER;
  }

  /** No entry was stored for this prompt. */
  ghost predicate Unseen(store: Store, prompt: string) {
    forall key :: key in store.blobs ==> key.digest.prompt != prompt
  }

  /** A cloud request that is not in the cache is charged, and returns exactly if the charge is granted. */
  lemma DemoMiss(g: Config, limit: int, store: Store, turn: Turn, prompt: string, keyAt: nat, charge: ChargeEnv)
    requires IsDemo(g, limit) && turn == DemoTurn(NewsSummary, prompt, keyAt, charge)
    requires g.cacheTtl.None? || Unseen(store, prompt)
    ensures var o := Complete(g, store, turn.env, turn.req);
            var (charged, counted) := Charge(limit, store, charge);
            && o.store.counters == counted.counters
            && (o.result.Ok? <==> charged.Ok?)
            && (charged.Err? ==> o.result == Err(charged.error))
            && (forall other :: other != prompt && Unseen(store, other) ==> Unseen(o.store, other))
  {
    DemoAdmits(g, limit, turn, prompt, keyAt, charge);
    var a := Admitted(Cloud, false, DEMO_CLOUD);
    var key := KeyFor(turn.req, DEMO_CLOUD, keyAt);
    var keyed := if g.cacheTtl.Some? then Some(key) else None;
    assert Complete(g, store, turn.env, turn.req) == Dispatch(g, store, turn.env, turn.req, a, keyed);
  }

  /** The first request leaves its answer behind: the same request within ten minutes and on the same day hits. */
  lemma DemoHit(limit: int, policy: Option<Policy>, first: Turn, turn: Turn, at: nat, keyAt: nat, charge: ChargeEnv)
    requires IsDemo(DemoConfig(limit, policy), limit) && limit >= 1
    requires first == DemoTurn(NewsSummary, "", at, ChargeAt(at)) && turn == DemoTurn(NewsSummary, "", keyAt, charge)
    requires DayOf(at) == DayOf(keyAt) && at <= keyAt < at + 600
    ensures var g := DemoConfig(limit, policy);
            var store := Complete(g, EmptyStore(), first.env, first.req).store;
            Complete(g, store, turn.env, turn.req).store == store
  {
    var g := DemoConfig(limit, policy);
    DemoAdmits(g, limit, first, "", at, ChargeAt(at));
    DemoAdmits(g, limit, turn, "", keyAt, charge);
    var counted := Charge(limit, EmptyStore(), ChargeAt(at)).1;
    var key := KeyFor(first.req, DEMO_CLOUD, at);
    StoreThenLookup(counted, key, key, DEMO_ANSWER, DEMO_CLOUD, 600, at, keyAt);
    assert Complete(g, EmptyStore(), first.env, first.req).store
        == Stored(counted, key, DEMO_ANSWER, DEMO_CLOUD, 600, at, false);
  }

  lemma NextStore(g: Config, turns: seq<Turn>, n: nat)
    requires n < |turns|
    ensures After(g, EmptyStore(), turns, n + 1)
         == Complete(g, After(g, EmptyStore(), turns, n), turns[n].env, turns[n].req).store
  {
  }

  // ----- Verifying local answers -----

  /** The same cloud request twice, then a local request whose answer does not fit the schema. */
  const LOCAL_HISTORY := [
    DemoTurn(NewsSummary, "", 0, ChargeAt(0)),
    DemoTurn(NewsSummary, "", 0, ChargeAt(0)),
    DemoTurn(TagSentiment, "", 0, ChargeAt(0))]

  const LOCAL_CONFIG := DemoConfig(2, Some(Policy(None)))

  /** The local request is verified, and its answer replaced, exactly when fewer than two calls were counted. */
  lemma LocalVerifies(g: Config, store: Store)
    requires g == LOCAL_CONFIG || g == WithoutCache(LOCAL_CONFIG)
    requires 0 in store.counters && Alive(store.counters[0], 0)
    ensures var turn := LOCAL_HISTORY[2];
            Complete(g, store, turn.env, turn.req).result
            == Ok(if Counter(store, 0, 0) < 2 then CompletionFrom(DEMO_ANSWER, DEMO_CLOUD, true)
                  else CompletionFrom(map[], DEMO_LOCAL, false))
  {
    var turn := LOCAL_HISTORY[2];
    assert Admit(g, turn.req) == Ok(Admitted(Local, false, DEMO_LOCAL));
    assert "ok" in DEMO_SCHEMA.fields;
    assert !Conforms(map[], DEMO_SCHEMA) && Conforms(DEMO_ANSWER, DEMO_SCHEMA);
  }

  lemma LocalPossible(f: Faults)
    requires f.localMayVerify
    ensures Possible(LOCAL_CONFIG, LOCAL_HISTORY, DemoClient, f) && ClockRuns(LOCAL_HISTORY)
  {
    forall i | 0 <= i < |LOCAL_HISTORY| ensures PossibleTurn(LOCAL_CONFIG, LOCAL_HISTORY[i], DemoClient, f) {
      var req := LOCAL_HISTORY[i].req;
      assert Admit(LOCAL_CONFIG, req)
          == Ok(if i < 2 then Admitted(Cloud, false, DEMO_CLOUD) else Admitted(Local, false, DEMO_LOCAL));
    }
  }

  /** With local requests that the policy verifies, the two gateways can part: the call the cache saved leaves
      room in the budget for a verification the plain gateway could not afford, so both return, differently. The
      history needs nothing else: its clients are functions, its clock runs and its charges are prompt. */
  lemma LocalVerificationSeesTheCache(f: Faults)
    requires f.localMayVerify
    ensures Possible(LOCAL_CONFIG, LOCAL_HISTORY, DemoClient, f) && ClockRuns(LOCAL_HISTORY)
    ensures var c := OutcomeAt(LOCAL_CONFIG, EmptyStore(), LOCAL_HISTORY, 2).result;
            var p := OutcomeAt(WithoutCache(LOCAL_CONFIG), EmptyStore(), LOCAL_HISTORY, 2).result;
            c.Ok? && p.Ok? && c.value.output != p.value.output && !Agrees(c, p)
  {
    var g, g', h := LOCAL_CONFIG, WithoutCache(LOCAL_CONFIG), LOCAL_HISTORY;
    LocalPossible(f);
    NextStore(g, h, 0);
    NextStore(g, h, 1);
    DemoMiss(g, 2, EmptyStore(), h[0], "", 0, ChargeAt(0));
    DemoHit(2, Some(Policy(None)), h[0], h[1], 0, 0, ChargeAt(0));
    LocalVerifies(g, After(g, EmptyStore(), h, 2));
    NextStore(g', h, 0);
    NextStore(g', h, 1);
    DemoMiss(g', 2, EmptyStore(), h[0], "", 0, ChargeAt(0));
    DemoMiss(g', 2, After(g', EmptyStore(), h, 1), h[1], "", 0, ChargeAt(0));
    LocalVerifies(g', After(g', EmptyStore(), h, 2));
    assert "ok" in DEMO_ANSWER;
  }

  // ----- Losing an EXPIRE -----

  const LOST_EXPIRE := ChargeAt(DAY).(expireFails := true)

  /** A request just before midnight; the same request again, reaching the budget only after midnight; then a
      different request on the new day, whose EXPIRE is lost. */
  const MIDNIGHT_HISTORY := [
    DemoTurn(NewsSummary, "", DAY - 2, ChargeAt(DAY - 2)),
    DemoTurn(NewsSummary, "", DAY - 1, ChargeAt(DAY)),
    DemoTurn(NewsSummary, "other", DAY, LOST_EXPIRE)]

  const CLOUD_CONFIG := DemoConfig(2, None)

  lemma CloudTurnPossible(limit: int, turn: Turn, prompt: string, keyAt: nat, charge: ChargeEnv, f: Faults)
    requires turn == DemoTurn(NewsSummary, prompt, keyAt, charge) && Timely(charge, f)
    ensures PossibleTurn(DemoConfig(limit, None), turn, DemoClient, f)
  {
    DemoAdmits(DemoConfig(limit, None), limit, turn, prompt, keyAt, charge);
  }

  lemma MidnightDays()
    ensures DayOf(DAY - 2) == DayOf(DAY - 1) == 0 && DayOf(DAY) == DayOf(DAY + 10) == DayOf(2 * DAY - 1) == 1
  {
  }

  lemma LostPossible(f: Faults)
    requires f.expireMayFail
    ensures Possible(CLOUD_CONFIG, MIDNIGHT_HISTORY, DemoClient, f) && ClockRuns(MIDNIGHT_HISTORY)
  {
    var h := MIDNIGHT_HISTORY;
    CloudTurnPossible(2, h[0], "", DAY - 2, ChargeAt(DAY - 2), f);
    CloudTurnPossible(2, h[1], "", DAY - 1, ChargeAt(DAY), f);
    CloudTurnPossible(2, h[2], "other", DAY, LOST_EXPIRE, f);
  }

  lemma LostCached()
    ensures OutcomeAt(CLOUD_CONFIG, EmptyStore(), MIDNIGHT_HISTORY, 2).result == Err(RedisUnavailable)
  {
    var g, h := CLOUD_CONFIG, MIDNIGHT_HISTORY;
    MidnightDays();
    NextStore(g, h, 0);
    NextStore(g, h, 1);
    DemoMiss(g, 2, EmptyStore(), h[0], "", DAY - 2, ChargeAt(DAY - 2));
    DemoHit(2, None, h[0], h[1], DAY - 2, DAY - 1, ChargeAt(DAY));
    DemoMiss(g, 2, After(g, EmptyStore(), h, 2), h[2], "other", DAY, LOST_EXPIRE);
  }

  lemma LostPlain()
    ensures OutcomeAt(WithoutCache(CLOUD_CONFIG), EmptyStore(), MIDNIGHT_HISTORY, 2).result.Ok?
  {
    var g, h := WithoutCache(CLOUD_CONFIG), MIDNIGHT_HISTORY;
    MidnightDays();
    NextStore(g, h, 0);
    NextStore(g, h, 1);
    DemoMiss(g, 2, EmptyStore(), h[0], "", DAY - 2, ChargeAt(DAY - 2));
    DemoMiss(g, 2, After(g, EmptyStore(), h, 1), h[1], "", DAY - 1, ChargeAt(DAY));
    DemoMiss(g, 2, After(g, EmptyStore(), h, 2), h[2], "other", DAY, LOST_EXPIRE);
  }

  /** A lost EXPIRE can make the cached gateway raise where the plain one returns: only the first charge of a
      day issues it, and the cache can shift which request that is. No policy and no pause is needed. */
  lemma LostExpirySeesTheCache(f: Faults)
    requires f.expireMayFail
    ensures Possible(CLOUD_CONFIG, MIDNIGHT_HISTORY, DemoClient, f) && ClockRuns(MIDNIGHT_HISTORY)
    ensures OutcomeAt(WithoutCache(CLOUD_CONFIG), EmptyStore(), MIDNIGHT_HISTORY, 2).result.Ok?
    ensures OutcomeAt(CLOUD_CONFIG, EmptyStore(), MIDNIGHT_HISTORY, 2).result == Err(RedisUnavailable)
  {
    LostPossible(f);
    LostCached();
    LostPlain();
  }

  // ----- Pausing for longer than a day -----

  const LATE_CHARGE := ChargeEnv(2 * DAY - 1, 3 * DAY, false, 3 * DAY, false)

  /** A request just before midnight; the same request again, reaching the budget only after midnight; another one
      ten seconds into the new day; and a last one that reads that day's date in its last second and increments a
      day and a second later, when the counter of the gateway without the cache has just expired. */
  const LATE_HISTORY := [
    DemoTurn(NewsSummary, "", DAY - 2, ChargeAt(DAY - 2)),
    DemoTurn(NewsSummary, "", DAY - 1, ChargeAt(DAY)),
    DemoTurn(NewsSummary, "b", DAY + 10, ChargeAt(DAY + 10)),
    DemoTurn(NewsSummary, "c", 2 * DAY - 1, LATE_CHARGE)]

  const LATE_CONFIG := DemoConfig(1, None)

  lemma LatePossible(f: Faults)
    requires f.pause > DAY
    ensures Possible(LATE_CONFIG, LATE_HISTORY, DemoClient, f) && ClockRuns(LATE_HISTORY)
  {
    var h := LATE_HISTORY;
    CloudTurnPossible(1, h[0], "", DAY - 2, ChargeAt(DAY - 2), f);
    CloudTurnPossible(1, h[1], "", DAY - 1, ChargeAt(DAY), f);
    CloudTurnPossible(1, h[2], "b", DAY + 10, ChargeAt(DAY + 10), f);
    CloudTurnPossible(1, h[3], "c", 2 * DAY - 1, LATE_CHARGE, f);
  }

  /** With the cache the second request is not charged, so the counter of day 1 starts ten seconds later
      and is still there for the last one. */
  lemma LateCached()
    ensures OutcomeAt(LATE_CONFIG, EmptyStore(), LATE_HISTORY, 3).result == Err(BudgetExceeded)
  {
    var g, h := LATE_CONFIG, LATE_HISTORY;
    MidnightDays();
    NextStore(g, h, 0);
    NextStore(g, h, 1);
    NextStore(g, h, 2);
    DemoMiss(g, 1, EmptyStore(), h[0], "", DAY - 2, ChargeAt(DAY - 2));
    DemoHit(1, None, h[0], h[1], DAY - 2, DAY - 1, ChargeAt(DAY));
    DemoMiss(g, 1, After(g, EmptyStore(), h, 2), h[2], "b", DAY + 10, ChargeAt(DAY + 10));
    assert After(g, EmptyStore(), h, 3).counters[1] == Entry(1, Some(3 * DAY + 10));
    DemoMiss(g, 1, After(g, EmptyStore(), h, 3), h[3], "c", 2 * DAY - 1, LATE_CHARGE);
  }

  lemma LatePlain()
    ensures OutcomeAt(WithoutCache(LATE_CONFIG), EmptyStore(), LATE_HISTORY, 3).result.Ok?
  {
    var g, h := WithoutCache(LATE_CONFIG), LATE_HISTORY;
    MidnightDays();
    NextStore(g, h, 0);
    NextStore(g, h, 1);
    NextStore(g, h, 2);
    DemoMiss(g, 1, EmptyStore(), h[0], "", DAY - 2, ChargeAt(DAY - 2));
    DemoMiss(g, 1, After(g, EmptyStore(), h, 1), h[1], "", DAY - 1, ChargeAt(DAY));
    assert After(g, EmptyStore(), h, 2).counters[1] == Entry(1, Some(3 * DAY));
    DemoMiss(g, 1, After(g, EmptyStore(), h, 2), h[2], "b", DAY + 10, ChargeAt(DAY + 10));
    assert After(g, EmptyStore(), h, 3).counters[1] == Entry(2, Some(3 * DAY));
    DemoMiss(g, 1, After(g, EmptyStore(), h, 3), h[3], "c", 2 * DAY - 1, LATE_CHARGE);
  }

  /** A pause of more than a day can make the cached gateway raise where the plain one returns: the saved charge
      makes the day's counter start later, so it outlives the other gateway's. No policy and no fault is needed. */
  lemma LongPauseSeesTheCache(f: Faults)
    requires f.pause > DAY
    ensures Possible(LATE_CONFIG, LATE_HISTORY, DemoClient, f) && ClockRuns(LATE_HISTORY)
    ensures OutcomeAt(WithoutCache(LATE_CONFIG), EmptyStore(), LATE_HISTORY, 3).result.Ok?
    ensures OutcomeAt(LATE_CONFIG, EmptyStore(), LATE_HISTORY, 3).result == Err(BudgetExceeded)
  {
    LatePossible(f);
    LateCached();
    LatePlain();
  }

  // ----- The exact condition -----

  lemma Parts(g: Config, turns: seq<Turn>, i: nat, client: (Slot, Call) -> Answer, f: Faults)
    requires i < |turns| && Possible(g, turns, client, f)
    requires !Agrees(OutcomeAt(g, EmptyStore(), turns, i).result,
                     OutcomeAt(WithoutCache(g), EmptyStore(), turns, i).result)
    ensures !RefinementHolds(f)
  {
    assert !Refines(g, turns);
  }

  lemma HarmfulParts(f: Faults)
    requires !Harmless(f)
    ensures !RefinementHolds(f)
  {
    if f.localMayVerify {
      LocalVerificationSeesTheCache(f);
      Parts(LOCAL_CONFIG, LOCAL_HISTORY, 2, DemoClient, f);
    } else if f.expireMayFail {
      LostExpirySeesTheCache(f);
      Parts(CLOUD_CONFIG, MIDNIGHT_HISTORY, 2, DemoClient, f);
    } else {
      LongPauseSeesTheCache(f);
      Parts(LATE_CONFIG, LATE_HISTORY, 3, DemoClient, f);
    }
  }

  lemma HarmlessAgrees(f: Faults)
    requires Harmless(f)
    ensures RefinementHolds(f) && CountersHold(f)
  {
    forall g: Config, turns: seq<Turn>, client: (Slot, Call) -> Answer | Possible(g, turns, client, f)
      ensures Refines(g, turns) && CountsNoMore(g, turns)
    {
      HarmlessRefines(g, turns, client, f);
    }
  }

  /** Cache refinement: over every history, configuration and functional clients, whenever the gateway without the
      cache returns, the gateway with it returns the same output, provider and model, if and only if no request
      pauses for more than a day between reading the date and INCR, no EXPIRE is lost, and the policy verifies no
      answer that is not from the cloud. Then the budget counter never reads higher either. */
  lemma CachedGatewayRefinesPlain(f: Faults)
    ensures RefinementHolds(f) <==> f.pause <= DAY && !f.expireMayFail && !f.localMayVerify
    ensures RefinementHolds(f) ==> CountersHold(f)
  {
    if Harmless(f) {
      HarmlessAgrees(f);
    } else {
      HarmfulParts(f);
    }
  }
}
