/** The signal store, the two rules and the rule engine. */
module Signals {
  import opened Common
  import opened Tables

  predicate Active(s: Signal, now: nat) {
    s.expiresAt.None? || now < s.expiresAt.value
  }

  /** Two signals about the same asset, of the same type, about the same news item or none. */
  predicate SameKey(s: Signal, t: Signal) {
    s.assetId == t.assetId && s.signalType == t.signalType && s.newsItemId == t.newsItemId
  }

  predicate ExistsActive(signals: seq<Signal>, now: nat, candidate: Signal) {
    exists i :: 0 <= i < |signals| && SameKey(signals[i], candidate) && Active(signals[i], now)
  }

  /** Adds the candidate unless an active twin exists. */
  function TryCreate(signals: seq<Signal>, now: nat, candidate: Signal): seq<Signal> {
    if ExistsActive(signals, now, candidate) then signals else signals + [candidate]
  }

  // ----- Rules -----

  datatype ConflictStatus = SUPPORTS | NEUTRAL | CONFLICTS

  datatype Conflict = Conflict(status: ConflictStatus, invalidationTriggered: bool)

  datatype RuleContext = RuleContext(
    assetId: nat, newsItemId: nat, impact: Option<Impact>, thesisId: Option<nat>, conflict: Option<Conflict>)

  function ThesisConflictRule(ctx: RuleContext): Option<Signal> {
    match ctx.conflict
    case None => None
    case Some(conflict) =>
      if conflict.invalidationTriggered then
        Some(Signal(ctx.assetId, ctx.thesisId, Some(ctx.newsItemId), THESIS_BROKEN, 90, Some(CRITICAL), None))
      else if conflict.status == CONFLICTS then
        Some(Signal(ctx.assetId, ctx.thesisId, Some(ctx.newsItemId), RISK_ALERT, 70, Some(HIGH), None))
      else None
  }

  function HighImpactNewsRule(ctx: RuleContext): Option<Signal> {
    if ctx.impact == Some(HIGH) || ctx.impact == Some(CRITICAL) then
      var score := if ctx.impact == Some(CRITICAL) then 80 else 60;
      Some(Signal(ctx.assetId, None, Some(ctx.newsItemId), RISK_ALERT, score, ctx.impact, None))
    else None
  }

  /** What the default rules propose, in their order. */
  function Candidates(ctx: RuleContext): seq<Signal> {
    (match ThesisConflictRule(ctx) case Some(s) => [s] case None => [])
    + (match HighImpactNewsRule(ctx) case Some(s) => [s] case None => [])
  }

  /** The engine's loop: candidate `i` is tried at instant `clock[i]`. Returns the store and the positions of the
      created rows. */
  function CreateAll(signals: seq<Signal>, clock: seq<nat>, candidates: seq<Signal>): (seq<Signal>, seq<nat>)
    requires |clock| >= |candidates|
  {
    if candidates == [] then (signals, [])
    else
      var n := |candidates| - 1;
      var (before, created) := CreateAll(signals, clock, candidates[..n]);
      (TryCreate(before, clock[n], candidates[n]),
       if ExistsActive(before, clock[n], candidates[n]) then created else created + [|before|])
  }

  lemma CreateOneMore(signals: seq<Signal>, clock: seq<nat>, candidates: seq<Signal>, n: nat)
    requires n < |candidates| <= |clock|
    ensures var (before, created) := CreateAll(signals, clock, candidates[..n]);
            CreateAll(signals, clock, candidates[..n + 1])
            == if ExistsActive(before, clock[n], candidates[n]) then (before, created)
               else (before + [candidates[n]], created + [|before|])
  {
    assert candidates[..n + 1][..n] == candidates[..n];
  }

  class SignalRepository {
    const db: Database

    constructor (db: Database)
      ensures this.db == db
    {
      this.db := db;
    }

    method ExistsActiveTwin(candidate: Signal, now: nat) returns (found: bool)
      ensures found == ExistsActive(db.signals, now, candidate)
    {
      found := false;
      for i := 0 to |db.signals|
        invariant found <==> exists j :: 0 <= j < i && SameKey(db.signals[j], candidate) && Active(db.signals[j], now)
      {
        if SameKey(db.signals[i], candidate) && Active(db.signals[i], now) {
          found := true;
        }
      }
    }

    method Create(candidate: Signal) returns (id: nat)
      modifies db
      ensures id == |old(db.signals)|
      ensures db.View() == old(db.View()).(signals := old(db.signals) + [candidate])
    {
      id := |db.signals|;
      db.signals := db.signals + [candidate];
    }
  }

  class RuleEngine {
    const repository: SignalRepository

    constructor (repository: SignalRepository)
      ensures this.repository == repository
    {
      this.repository := repository;
    }

    /** Evaluates both rules on the context, then creates what has no active twin. */
    method Run(ctx: RuleContext, clock: seq<nat>) returns (created: seq<nat>)
      requires |clock| >= 2
      modifies repository.db
      ensures var (signals, ids) := CreateAll(old(repository.db.signals), clock, Candidates(ctx));
              created == ids && repository.db.View() == old(repository.db.View()).(signals := signals)
    {
      created := [];
      var candidates := Candidates(ctx);
      ghost var before := repository.db.View();
      for i := 0 to |candidates|
        invariant var (signals, ids) := CreateAll(before.signals, clock, candidates[..i]);
                  created == ids && repository.db.View() == before.(signals := signals)
      {
        CreateOneMore(before.signals, clock, candidates, i);
        var found := repository.ExistsActiveTwin(candidates[i], clock[i]);
        if !found {
          var id := repository.Create(candidates[i]);
          created := created + [id];
        }
      }
      assert candidates[..|candidates|] == candidates;
    }
  }

  // ----- The store over whole runs -----

  /** From `now` on, no two active signals share a key. */
  ghost predicate UniqueFrom(signals: seq<Signal>, now: nat) {
    forall i, j, later: nat ::
      0 <= i < j < |signals| && SameKey(signals[i], signals[j]) && now <= later ==>
        !(Active(signals[i], later) && Active(signals[j], later))
  }

  /** One attempt to add a signal, by the rule engine or by the concentration check. */
  datatype Attempt = Attempt(now: nat, candidate: Signal)

  function Attempted(signals: seq<Signal>, attempts: seq<Attempt>): seq<Signal> {
    if attempts == [] then signals
    else
      var n := |attempts| - 1;
      TryCreate(Attempted(signals, attempts[..n]), attempts[n].now, attempts[n].candidate)
  }

  predicate ClockAdvances(attempts: seq<Attempt>) {
    forall i, j :: 0 <= i <= j < |attempts| ==> attempts[i].now <= attempts[j].now
  }

  lemma TryCreateKeepsUnique(signals: seq<Signal>, before: nat, now: nat, candidate: Signal)
    requires UniqueFrom(signals, before) && before <= now
    ensures UniqueFrom(TryCreate(signals, now, candidate), now)
  {
  }

  /** At every time, at most one active signal exists per asset, type and news item (or none): over every
      history of attempts, whatever their expiries, as long as the clock does not run backwards. */
  lemma {:induction false} AtMostOneActiveSignal(attempts: seq<Attempt>)
    requires ClockAdvances(attempts)
    ensures UniqueFrom(Attempted([], attempts), if attempts == [] then 0 else attempts[|attempts| - 1].now)
  {
    if attempts != [] {
      var n := |attempts| - 1;
      AtMostOneActiveSignal(attempts[..n]);
      var before := if n == 0 then 0 else attempts[n - 1].now;
      TryCreateKeepsUnique(Attempted([], attempts[..n]), before, attempts[n].now, attempts[n].candidate);
    }
  }

  /** A run of the engine is a sequence of attempts. */
  lemma {:induction false} EngineMakesAttempts(signals: seq<Signal>, clock: seq<nat>, candidates: seq<Signal>)
    requires |clock| >= |candidates|
    ensures CreateAll(signals, clock, candidates).0
         == Attempted(signals, seq(|candidates|, i requires 0 <= i < |candidates| => Attempt(clock[i], candidates[i])))
  {
    var attempts := seq(|candidates|, i requires 0 <= i < |candidates| => Attempt(clock[i], candidates[i]));
    if candidates != [] {
      var n := |candidates| - 1;
      EngineMakesAttempts(signals, clock, candidates[..n]);
      assert attempts[..n] == seq(n, i requires 0 <= i < n => Attempt(clock[i], candidates[..n][i]));
    }
  }

  // ----- What one item yields -----

  /** The types of the signals an item must yield. */
  function ExpectedTypes(ctx: RuleContext): set<SignalType> {
    (if ctx.conflict.Some? && ctx.conflict.value.invalidationTriggered then {THESIS_BROKEN} else {})
    + (if || (ctx.conflict.Some? && !ctx.conflict.value.invalidationTriggered && ctx.conflict.value.status == CONFLICTS)
          || ctx.impact == Some(HIGH) || ctx.impact == Some(CRITICAL)
       then {RISK_ALERT} else {})
  }

  predicate FreshItem(signals: seq<Signal>, newsItemId: nat) {
    forall i :: 0 <= i < |signals| ==> signals[i].newsItemId != Some(newsItemId)
  }

  lemma CreateFirst(signals: seq<Signal>, clock: seq<nat>, c: Signal, newsItemId: nat)
    requires |clock| >= 1 && FreshItem(signals, newsItemId) && c.newsItemId == Some(newsItemId)
    ensures CreateAll(signals, clock, [c]) == (signals + [c], [|signals|])
  {
    assert [c][..0] == [];
    assert CreateAll(signals, clock, []) == (signals, []);
    assert !ExistsActive(signals, clock[0], c);
    assert [] + [|signals|] == [|signals|];
  }

  /** The second candidate is dropped exactly when it repeats the first. */
  lemma CreateSecond(signals: seq<Signal>, clock: seq<nat>, c: Signal, d: Signal, newsItemId: nat)
    requires |clock| >= 2 && FreshItem(signals, newsItemId)
    requires c.newsItemId == d.newsItemId == Some(newsItemId) && c.expiresAt.None?
    ensures CreateAll(signals, clock, [c, d])
         == if SameKey(c, d) then (signals + [c], [|signals|]) else (signals + [c, d], [|signals|, |signals| + 1])
  {
    CreateFirst(signals, clock, c, newsItemId);
    assert [c, d][..1] == [c];
    var one := signals + [c];
    assert one[|signals|] == c;
    assert ExistsActive(one, clock[1], d) <==> SameKey(c, d);
    assert one + [d] == signals + [c, d];
    assert [|signals|] + [|one|] == [|signals|, |signals| + 1];
  }

  /** The rows appended to `signals` in `after`: one of each type in `types`, about this item, never expiring. */
  ghost predicate Appended(
    signals: seq<Signal>, after: seq<Signal>, created: seq<nat>, ctx: RuleContext, types: set<SignalType>)
  {
    && signals <= after
    && |created| == |after| - |signals| <= 2
    && (forall i :: 0 <= i < |created| ==> created[i] == |signals| + i)
    && (forall i :: |signals| <= i < |after| ==>
          && after[i].newsItemId == Some(ctx.newsItemId)
          && after[i].assetId == ctx.assetId
          && after[i].expiresAt == None
          && after[i].signalType in types)
    && (forall t :: t in types ==> exists i :: |signals| <= i < |after| && after[i].signalType == t)
    && (forall i, j :: |signals| <= i < j < |after| ==> after[i].signalType != after[j].signalType)
  }

  lemma AppendedOne(signals: seq<Signal>, ctx: RuleContext, c: Signal)
    requires c.newsItemId == Some(ctx.newsItemId) && c.assetId == ctx.assetId && c.expiresAt.None?
    ensures Appended(signals, signals + [c], [|signals|], ctx, {c.signalType})
  {
    assert (signals + [c])[|signals|] == c;
  }

  lemma AppendedTwo(signals: seq<Signal>, ctx: RuleContext, c: Signal, d: Signal)
    requires c.newsItemId == d.newsItemId == Some(ctx.newsItemId) && c.assetId == d.assetId == ctx.assetId
    requires c.expiresAt.None? && d.expiresAt.None? && c.signalType != d.signalType
    ensures Appended(signals, signals + [c, d], [|signals|, |signals| + 1], ctx, {c.signalType, d.signalType})
  {
    var after := signals + [c, d];
    assert after[|signals|] == c && after[|signals| + 1] == d;
  }

  /** The signal is about the item and asset of the context, and never expires. */
  predicate Lasting(s: Signal, ctx: RuleContext) {
    s.newsItemId == Some(ctx.newsItemId) && s.assetId == ctx.assetId && s.expiresAt.None?
  }

  lemma ExpectedFromRules(ctx: RuleContext)
    ensures var a, b := ThesisConflictRule(ctx), HighImpactNewsRule(ctx);
            && (a.Some? ==> Lasting(a.value, ctx))
            && (b.Some? ==> Lasting(b.value, ctx))
            && ExpectedTypes(ctx) == (if a.Some? then {a.value.signalType} else {})
                                     + (if b.Some? then {b.value.signalType} else {})
  {
  }

  lemma BothRulesYield(signals: seq<Signal>, clock: seq<nat>, ctx: RuleContext, c: Signal, d: Signal)
    requires |clock| >= 2 && FreshItem(signals, ctx.newsItemId)
    requires c.newsItemId == d.newsItemId == Some(ctx.newsItemId) && c.assetId == d.assetId == ctx.assetId
    requires c.expiresAt.None? && d.expiresAt.None?
    ensures var (after, created) := CreateAll(signals, clock, [c, d]);
            Appended(signals, after, created, ctx, {c.signalType} + {d.signalType})
  {
    CreateSecond(signals, clock, c, d, ctx.newsItemId);
    if SameKey(c, d) {
      AppendedOne(signals, ctx, c);
      assert {c.signalType} + {d.signalType} == {c.signalType};
    } else {
      AppendedTwo(signals, ctx, c, d);
      assert {c.signalType} + {d.signalType} == {c.signalType, d.signalType};
    }
  }

  /** For an item no signal mentions yet, the engine creates one signal of each expected type and nothing else;
      they are new rows about that item and asset, and never expire. */
  lemma FreshItemYieldsExactly(signals: seq<Signal>, clock: seq<nat>, ctx: RuleContext)
    requires |clock| >= 2 && FreshItem(signals, ctx.newsItemId)
    ensures var (after, created) := CreateAll(signals, clock, Candidates(ctx));
            Appended(signals, after, created, ctx, ExpectedTypes(ctx))
  {
    ExpectedFromRules(ctx);
    match (ThesisConflictRule(ctx), HighImpactNewsRule(ctx))
    case (None, None) =>
      assert Candidates(ctx) == [];
    case (Some(c), None) =>
      assert Candidates(ctx) == [c];
      CreateFirst(signals, clock, c, ctx.newsItemId);
      AppendedOne(signals, ctx, c);
      assert {c.signalType} + {} == {c.signalType};
    case (None, Some(d)) =>
      assert Candidates(ctx) == [d];
      CreateFirst(signals, clock, d, ctx.newsItemId);
      AppendedOne(signals, ctx, d);
      assert {} + {d.signalType} == {d.signalType};
    case (Some(c), Some(d)) =>
      assert Candidates(ctx) == [c, d];
      BothRulesYield(signals, clock, ctx, c, d);
  }

  // ----- The exact rows -----

  /** When a signal is added, by either writer: exactly when no stored row with its asset, type and news item (or
      none) has no expiry or one still to come. It is added last, as it is. */
  lemma CreatedExactlyWhen(signals: seq<Signal>, now: nat, candidate: Signal)
    ensures TryCreate(signals, now, candidate) == signals || TryCreate(signals, now, candidate) == signals + [candidate]
    ensures TryCreate(signals, now, candidate) == signals <==>
              (exists i :: 0 <= i < |signals|
                        && signals[i].assetId == candidate.assetId
                        && signals[i].signalType == candidate.signalType
                        && signals[i].newsItemId == candidate.newsItemId
                        && (signals[i].expiresAt.None? || signals[i].expiresAt.value > now))
  {
    if (exists i :: 0 <= i < |signals|
                 && signals[i].assetId == candidate.assetId
                 && signals[i].signalType == candidate.signalType
                 && signals[i].newsItemId == candidate.newsItemId
                 && (signals[i].expiresAt.None? || signals[i].expiresAt.value > now))
    {
      assert exists i :: 0 <= i < |signals| && SameKey(signals[i], candidate) && Active(signals[i], now);
    }
  }

  /** What a verdict that triggers the invalidation of the thesis calls for. */
  function BrokenThesis(assetId: nat, id: nat, thesisId: Option<nat>, verdict: Option<Conflict>): Option<Signal> {
    if verdict.Some? && verdict.value.invalidationTriggered
    then Some(Signal(assetId, thesisId, Some(id), THESIS_BROKEN, 90, Some(CRITICAL), None))
    else None
  }

  /** What any other conflict calls for or, without one, a high or critical impact. */
  function Risk(assetId: nat, id: nat, thesisId: Option<nat>, verdict: Option<Conflict>, impact: Option<Impact>)
    : Option<Signal>
  {
    if verdict.Some? && !verdict.value.invalidationTriggered && verdict.value.status == CONFLICTS
    then Some(Signal(assetId, thesisId, Some(id), RISK_ALERT, 70, Some(HIGH), None))
    else if impact == Some(CRITICAL)
    then Some(Signal(assetId, None, Some(id), RISK_ALERT, 80, Some(CRITICAL), None))
    else if impact == Some(HIGH) then Some(Signal(assetId, None, Some(id), RISK_ALERT, 60, Some(HIGH), None))
    else None
  }

  function Row(s: Option<Signal>): seq<Signal> {
    match s case Some(row) => [row] case None => []
  }

  /** The rows an item is due, from its thesis, the verdict on it and its impact alone. */
  function Due(assetId: nat, id: nat, thesisId: Option<nat>, verdict: Option<Conflict>, impact: Option<Impact>)
    : seq<Signal>
  {
    Row(BrokenThesis(assetId, id, thesisId, verdict)) + Row(Risk(assetId, id, thesisId, verdict, impact))
  }

  /** For an item no signal mentions yet, the engine appends exactly the rows it is due. */
  lemma FreshItemGetsDue(signals: seq<Signal>, clock: seq<nat>, ctx: RuleContext)
    requires |clock| >= 2 && FreshItem(signals, ctx.newsItemId)
    ensures CreateAll(signals, clock, Candidates(ctx)).0
         == signals + Due(ctx.assetId, ctx.newsItemId, ctx.thesisId, ctx.conflict, ctx.impact)
  {
    ExpectedFromRules(ctx);
    match (ThesisConflictRule(ctx), HighImpactNewsRule(ctx))
    case (None, None) =>
      assert Candidates(ctx) == [];
    case (Some(c), None) =>
      assert Candidates(ctx) == [c];
      CreateFirst(signals, clock, c, ctx.newsItemId);
    case (None, Some(d)) =>
      assert Candidates(ctx) == [d];
      CreateFirst(signals, clock, d, ctx.newsItemId);
    case (Some(c), Some(d)) =>
      assert Candidates(ctx) == [c, d];
      CreateSecond(signals, clock, c, d, ctx.newsItemId);
  }
}
