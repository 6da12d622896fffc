/** The concentration check: a risk alert for every position above the threshold that has none. */
module ConcentrationCheck {
  import opened Common
  import opened Tables
  import opened Signals
  import Portfolio
  import PortfolioBounds

  /** Python's int(): towards zero. */
  function Truncate(x: real): int {
    if x >= 0.0 then x.Floor else -((-x).Floor)
  }

  function ScoreFromWeight(weight: real): (score: int)
    ensures 0 <= score <= 100
    ensures 0.0 <= weight <= 1.0 ==> score as real <= weight * 100.0 < score as real + 1.0
    ensures weight >= 1.0 ==> score == 100
    ensures weight <= 0.0 ==> score == 0
  {
    var percent := Truncate(weight * 100.0);
    if percent > 100 then 100 else if percent < 0 then 0 else percent
  }

  function RiskSignal(assetId: nat, weight: real): Signal {
    Signal(assetId, None, None, RISK_ALERT, ScoreFromWeight(weight), Some(HIGH), None)
  }

  /** The check's loop; position `i` is looked at at instant `clock[i]`. Returns the store and the new rows. */
  function CheckAll(signals: seq<Signal>, clock: seq<nat>, positions: seq<Portfolio.PositionWeight>)
    : (seq<Signal>, seq<nat>)
    requires |clock| >= |positions|
  {
    if positions == [] then (signals, [])
    else
      var n := |positions| - 1;
      var (before, created) := CheckAll(signals, clock, positions[..n]);
      var candidate := RiskSignal(positions[n].assetId, positions[n].weight);
      if !positions[n].exceedsThreshold || ExistsActive(before, clock[n], candidate) then (before, created)
      else (before + [candidate], created + [|before|])
  }

  class PortfolioService {
    const repository: SignalRepository

    constructor (repository: SignalRepository)
      ensures this.repository == repository
    {
      this.repository := repository;
    }

    method CheckConcentration(
      m: Portfolio.Market, ps: seq<Portfolio.Position>, cash: real, threshold: real, clock: seq<nat>)
      returns (summary: Portfolio.Summary, created: seq<nat>)
      requires |clock| >= |ps|
      modifies repository.db
      ensures summary == Portfolio.SummaryOf(m, ps, cash, threshold)
      ensures var (signals, ids) := CheckAll(old(repository.db.signals), clock, summary.weights.positions);
              created == ids && repository.db.View() == old(repository.db.View()).(signals := signals)
    {
      summary := BuildSummary(m, ps, cash, threshold);
      created := AlertAll(summary.weights.positions, clock);
    }

    /** The loop over positions. */
    method AlertAll(positions: seq<Portfolio.PositionWeight>, clock: seq<nat>) returns (created: seq<nat>)
      requires |clock| >= |positions|
      modifies repository.db
      ensures var (signals, ids) := CheckAll(old(repository.db.signals), clock, positions);
              created == ids && repository.db.View() == old(repository.db.View()).(signals := signals)
    {
      created := [];
      ghost var before := repository.db.View();
      for i := 0 to |positions|
        invariant var (signals, ids) := CheckAll(before.signals, clock, positions[..i]);
                  created == ids && repository.db.View() == before.(signals := signals)
      {
        assert positions[..i + 1][..i] == positions[..i];
        created := CheckPosition(positions[i], clock[i], created);
      }
      assert positions[..|positions|] == positions;
    }

    /** The body of the loop over positions. */
    method CheckPosition(position: Portfolio.PositionWeight, now: nat, before: seq<nat>) returns (created: seq<nat>)
      modifies repository.db
      ensures var candidate := RiskSignal(position.assetId, position.weight);
              var signals := old(repository.db.signals);
              if !position.exceedsThreshold || ExistsActive(signals, now, candidate)
              then repository.db.View() == old(repository.db.View()) && created == before
              else && repository.db.View() == old(repository.db.View()).(signals := signals + [candidate])
                   && created == before + [|signals|]
    {
      created := before;
      if position.exceedsThreshold {
        var candidate := RiskSignal(position.assetId, position.weight);
        var found := repository.ExistsActiveTwin(candidate, now);
        if !found {
          var id := repository.Create(candidate);
          created := created + [id];
        }
      }
    }

    method BuildSummary(m: Portfolio.Market, ps: seq<Portfolio.Position>, cash: real, threshold: real)
      returns (summary: Portfolio.Summary)
      ensures summary == Portfolio.SummaryOf(m, ps, cash, threshold)
    {
      var w := Portfolio.CalculateWeights(m, ps, cash, threshold);
      var cashWeight := Portfolio.Weight(cash, w.totalValue);
      var exposures := Portfolio.CalculateRiskExposures(m, w, cashWeight, threshold);
      summary := Portfolio.Summary(
        threshold, cash, cashWeight, Portfolio.AnySectorExceeds(w.sectors), w, exposures);
    }
  }

  /** The store has, for good, a risk alert on the asset itself. */
  ghost predicate Covered(signals: seq<Signal>, assetId: nat) {
    exists i :: 0 <= i < |signals|
      && signals[i].assetId == assetId
      && signals[i].signalType == RISK_ALERT
      && signals[i].newsItemId.None?
      && signals[i].expiresAt.None?
  }

  lemma CoveredGrows(signals: seq<Signal>, more: seq<Signal>, assetId: nat)
    requires signals <= more && Covered(signals, assetId)
    ensures Covered(more, assetId)
  {
  }

  lemma CoveredIsActive(signals: seq<Signal>, assetId: nat, weight: real, now: nat)
    requires Covered(signals, assetId)
    ensures ExistsActive(signals, now, RiskSignal(assetId, weight))
  {
  }

  /** Signals about the asset itself are never given an expiry by the two writers. */
  predicate NoExpiries(signals: seq<Signal>) {
    forall i :: 0 <= i < |signals| ==> signals[i].expiresAt.None?
  }

  /** The score of a weight: its whole percents, cut off at 0 and 100. */
  predicate Scores(score: int, weight: real) {
    && 0 <= score <= 100
    && (0.0 <= weight <= 1.0 ==> score as real <= weight * 100.0 < score as real + 1.0)
    && (weight > 1.0 ==> score == 100)
    && (weight < 0.0 ==> score == 0)
  }

  /** The signal is the alert of one of the positions above the threshold: a high risk of the asset itself, about no
      thesis and no news item, and without an expiry. */
  ghost predicate AlertsOn(positions: seq<Portfolio.PositionWeight>, s: Signal) {
    exists i :: 0 <= i < |positions| && positions[i].exceedsThreshold
      && s == Signal(positions[i].assetId, None, None, RISK_ALERT, s.score, Some(HIGH), None)
      && Scores(s.score, positions[i].weight)
  }

  lemma AlertsOnMore(positions: seq<Portfolio.PositionWeight>, n: nat, s: Signal)
    requires n <= |positions| && AlertsOn(positions[..n], s)
    ensures AlertsOn(positions, s)
  {
  }

  /** What a check does: it only appends; every position above the threshold ends up covered; every new row is the
      alert of such a position, whose asset nothing stored before it covers. */
  lemma {:induction false} CheckCovers(signals: seq<Signal>, clock: seq<nat>, positions: seq<Portfolio.PositionWeight>)
    requires |clock| >= |positions| && NoExpiries(signals)
    ensures var (after, created) := CheckAll(signals, clock, positions);
            && signals <= after && NoExpiries(after)
            && |after| == |signals| + |created|
            && (forall i :: 0 <= i < |created| ==> created[i] == |signals| + i)
            && (forall i :: 0 <= i < |positions| && positions[i].exceedsThreshold ==>
                  Covered(after, positions[i].assetId))
            && (forall k :: |signals| <= k < |after| ==>
                  !Covered(after[..k], after[k].assetId) && AlertsOn(positions, after[k]))
  {
    if positions != [] {
      var n := |positions| - 1;
      CheckCovers(signals, clock, positions[..n]);
      var before := CheckAll(signals, clock, positions[..n]).0;
      var candidate := RiskSignal(positions[n].assetId, positions[n].weight);
      var after := CheckAll(signals, clock, positions).0;
      if positions[n].exceedsThreshold {
        if ExistsActive(before, clock[n], candidate) {
          var i :| 0 <= i < |before| && SameKey(before[i], candidate) && Active(before[i], clock[n]);
          assert Covered(before, positions[n].assetId);
        } else {
          assert after[|before|] == candidate;
          assert Covered(after, positions[n].assetId);
          if Covered(before, positions[n].assetId) {
            CoveredIsActive(before, positions[n].assetId, positions[n].weight, clock[n]);
          }
          assert AlertsOn(positions, candidate);
        }
      }
      forall i | 0 <= i < n && positions[i].exceedsThreshold ensures Covered(after, positions[i].assetId) {
        assert positions[..n][i] == positions[i];
        CoveredGrows(before, after, positions[i].assetId);
      }
      forall k | |signals| <= k < |after|
        ensures !Covered(after[..k], after[k].assetId) && AlertsOn(positions, after[k])
      {
        if k < |before| {
          assert after[k] == before[k] && after[..k] == before[..k];
          AlertsOnMore(positions, n, before[k]);
        } else {
          assert after[..k] == before;
        }
      }
    }
  }

  lemma {:induction false} CoveredCheckIsIdle(
    signals: seq<Signal>, clock: seq<nat>, positions: seq<Portfolio.PositionWeight>)
    requires |clock| >= |positions|
    requires forall i :: 0 <= i < |positions| && positions[i].exceedsThreshold ==>
      Covered(signals, positions[i].assetId)
    ensures CheckAll(signals, clock, positions) == (signals, [])
  {
    if positions != [] {
      var n := |positions| - 1;
      forall i | 0 <= i < n && positions[..n][i].exceedsThreshold ensures Covered(signals, positions[..n][i].assetId) {
        assert positions[..n][i] == positions[i];
      }
      CoveredCheckIsIdle(signals, clock, positions[..n]);
      if positions[n].exceedsThreshold {
        CoveredIsActive(signals, positions[n].assetId, positions[n].weight, clock[n]);
      }
    }
  }

  /** Repeating the check with the same holdings and quotes creates nothing, at any later time and whatever
      other signals were added in between. */
  lemma RepeatedCheckCreatesNothing(
    signals: seq<Signal>, clock: seq<nat>, positions: seq<Portfolio.PositionWeight>, later: seq<Signal>,
    clock': seq<nat>)
    requires |clock| >= |positions| && |clock'| >= |positions| && NoExpiries(signals)
    requires CheckAll(signals, clock, positions).0 <= later
    ensures CheckAll(later, clock', positions) == (later, [])
  {
    CheckCovers(signals, clock, positions);
    var after := CheckAll(signals, clock, positions).0;
    forall i | 0 <= i < |positions| && positions[i].exceedsThreshold ensures Covered(later, positions[i].assetId) {
      CoveredGrows(after, later, positions[i].assetId);
    }
    CoveredCheckIsIdle(later, clock', positions);
  }

  lemma {:induction false} CreatedWithinBreaches(
    m: Portfolio.Market, signals: seq<Signal>, clock: seq<nat>, positions: seq<Portfolio.PositionWeight>)
    requires |clock| >= |positions|
    ensures |CheckAll(signals, clock, positions).1| <= |Portfolio.PositionBreaches(m, positions)|
  {
    if positions != [] {
      CreatedWithinBreaches(m, signals, clock, positions[..|positions| - 1]);
    }
  }

  /** One check creates fewer than 1 / threshold signals. */
  lemma FewSignalsPerCheck(
    m: Portfolio.Market, ps: seq<Portfolio.Position>, cash: real, threshold: real, signals: seq<Signal>,
    clock: seq<nat>)
    requires PortfolioBounds.NonNegative(m, ps, cash) && Portfolio.TotalValue(m, ps, cash) > 0.0
    requires |clock| >= |ps|
    ensures var created := CheckAll(signals, clock, Portfolio.WeightsOf(m, ps, cash, threshold).positions).1;
            PortfolioBounds.Share(|created|, threshold) < 1.0
  {
    var positions := Portfolio.WeightsOf(m, ps, cash, threshold).positions;
    var created, n := CheckAll(signals, clock, positions).1, |Portfolio.PositionBreaches(m, positions)|;
    CreatedWithinBreaches(m, signals, clock, positions);
    PortfolioBounds.BreachCount(m, positions);
    PortfolioBounds.FewConcentratedPositions(m, ps, cash, threshold);
    if threshold > 0.0 {
      ShareMonotone(|created|, n, threshold);
    } else {
      ShareNotPositive(|created|, threshold);
    }
  }

  lemma ShareNotPositive(n: nat, threshold: real)
    requires threshold <= 0.0
    ensures PortfolioBounds.Share(n, threshold) <= 0.0
  {
  }

  lemma ShareMonotone(a: nat, b: nat, threshold: real)
    requires a <= b && threshold > 0.0
    ensures PortfolioBounds.Share(a, threshold) <= PortfolioBounds.Share(b, threshold)
    ensures b == 0 ==> PortfolioBounds.Share(b, threshold) == 0.0
  {
  }

  /** The attempts a check makes. */
  function CheckAttempts(clock: seq<nat>, positions: seq<Portfolio.PositionWeight>): seq<Attempt>
    requires |clock| >= |positions|
  {
    if positions == [] then []
    else
      var n := |positions| - 1;
      CheckAttempts(clock, positions[..n])
      + if positions[n].exceedsThreshold
        then [Attempt(clock[n], RiskSignal(positions[n].assetId, positions[n].weight))] else []
  }

  /** A check, too, is a sequence of attempts. */
  lemma {:induction false} CheckMakesAttempts(
    signals: seq<Signal>, clock: seq<nat>, positions: seq<Portfolio.PositionWeight>)
    requires |clock| >= |positions|
    ensures CheckAll(signals, clock, positions).0 == Attempted(signals, CheckAttempts(clock, positions))
  {
    if positions != [] {
      var n := |positions| - 1;
      CheckMakesAttempts(signals, clock, positions[..n]);
      var attempts := CheckAttempts(clock, positions);
      if positions[n].exceedsThreshold {
        assert attempts[..|attempts| - 1] == CheckAttempts(clock, positions[..n]);
      } else {
        assert attempts == CheckAttempts(clock, positions[..n]);
      }
    }
  }
}
