/** Relations between portfolio figures that hold for every book. */
module PortfolioLaws {
  import opened Sorting
  import opened Portfolio

  // ----- Scale invariance -----

  function By(x: real, k: real): real {
    x * k
  }

  function Scale(ps: seq<Position>, k: real): seq<Position> {
    seq(|ps|, i requires 0 <= i < |ps| => ps[i].(quantity := By(ps[i].quantity, k)))
  }

  function ScaleAll(xs: seq<real>, k: real): seq<real> {
    seq(|xs|, i requires 0 <= i < |xs| => By(xs[i], k))
  }

  function ScaleEntries(entries: seq<(string, real)>, k: real): seq<(string, real)> {
    seq(|entries|, i requires 0 <= i < |entries| => (entries[i].0, By(entries[i].1, k)))
  }

  lemma Times(a: real, b: real, k: real)
    ensures By(a, k) * b == By(a * b, k)
    ensures By(a, k) + By(b, k) == By(a + b, k)
    ensures By(a, k) - By(b, k) == By(a - b, k)
  {
  }

  lemma {:induction false} SumScales(xs: seq<real>, k: real)
    ensures Sum(ScaleAll(xs, k)) == By(Sum(xs), k)
  {
    if xs != [] {
      var n := |xs| - 1;
      SumScales(xs[..n], k);
      assert ScaleAll(xs, k)[..n] == ScaleAll(xs[..n], k);
      Times(Sum(xs[..n]), xs[n], k);
    }
  }

  lemma WeightScales(value: real, total: real, k: real)
    requires k > 0.0
    ensures Weight(By(value, k), By(total, k)) == Weight(value, total)
  {
  }

  lemma QuotientScales(value: real, denominator: real, k: real)
    requires denominator != 0.0
    ensures By(value, k) / denominator == By(value / denominator, k)
  {
  }

  lemma PositionScales(m: Market, p: Position, k: real)
    ensures var p' := p.(quantity := By(p.quantity, k));
            && MarketValue(m, p') == By(MarketValue(m, p), k)
            && CostValue(p') == By(CostValue(p), k)
            && DayChange(m, p') == By(DayChange(m, p), k)
  {
    var p' := p.(quantity := By(p.quantity, k));
    Times(p.quantity, PriceOf(m, p), k);
    Times(p.quantity, p.avgBuyPrice, k);
    var denominator := 1.0 + ChangeOf(m, p) / 100.0;
    var value := MarketValue(m, p);
    if PriceOf(m, p) != 0.0 && denominator != 0.0 {
      var previous := value / denominator;
      QuotientScales(value, denominator, k);
      Times(value, previous, k);
    }
  }

  lemma ValuesScale(m: Market, ps: seq<Position>, k: real)
    ensures MarketValues(m, Scale(ps, k)) == ScaleAll(MarketValues(m, ps), k)
    ensures CostValues(Scale(ps, k)) == ScaleAll(CostValues(ps), k)
    ensures DayChanges(m, Scale(ps, k)) == ScaleAll(DayChanges(m, ps), k)
  {
    forall i | 0 <= i < |ps|
      ensures MarketValue(m, Scale(ps, k)[i]) == By(MarketValue(m, ps[i]), k)
      ensures CostValue(Scale(ps, k)[i]) == By(CostValue(ps[i]), k)
      ensures DayChange(m, Scale(ps, k)[i]) == By(DayChange(m, ps[i]), k)
    {
      PositionScales(m, ps[i], k);
    }
  }

  lemma {:induction false} AddToScales(entries: seq<(string, real)>, sector: string, value: real, k: real)
    ensures AddTo(ScaleEntries(entries, k), sector, By(value, k)) == ScaleEntries(AddTo(entries, sector, value), k)
  {
    if entries != [] {
      assert ScaleEntries(entries, k)[1..] == ScaleEntries(entries[1..], k);
      if entries[0].0 == sector {
        Times(entries[0].1, value, k);
      } else {
        AddToScales(entries[1..], sector, value, k);
      }
    }
  }

  lemma {:induction false} SectorTotalsScale(m: Market, ps: seq<Position>, k: real)
    ensures SectorTotals(m, Scale(ps, k)) == ScaleEntries(SectorTotals(m, ps), k)
  {
    if ps != [] {
      var n := |ps| - 1;
      SectorTotalsScale(m, ps[..n], k);
      assert Scale(ps, k)[..n] == Scale(ps[..n], k);
      PositionScales(m, ps[n], k);
      AddToScales(SectorTotals(m, ps[..n]), SectorOf(m, ps[n]), MarketValue(m, ps[n]), k);
    }
  }

  lemma {:induction false} InsertScales(entry: (string, real), entries: seq<(string, real)>, k: real)
    ensures Insert((entry.0, By(entry.1, k)), ScaleEntries(entries, k), SectorLe)
         == ScaleEntries(Insert(entry, entries, SectorLe), k)
  {
    if entries != [] {
      assert ScaleEntries(entries, k)[1..] == ScaleEntries(entries[1..], k);
      if !SectorLe(entry, entries[0]) {
        InsertScales(entry, entries[1..], k);
      }
    }
  }

  /** Sorting looks at names only, so it commutes with scaling the values. */
  lemma {:induction false} SortScales(entries: seq<(string, real)>, k: real)
    ensures Sort(ScaleEntries(entries, k), SectorLe) == ScaleEntries(Sort(entries, SectorLe), k)
  {
    if entries != [] {
      assert ScaleEntries(entries, k)[1..] == ScaleEntries(entries[1..], k);
      SortScales(entries[1..], k);
      InsertScales(entries[0], Sort(entries[1..], SectorLe), k);
    }
  }

  /** A position row whose money has been multiplied by `k` and whose ratios have not moved. */
  predicate PositionRowScaled(small: PositionWeight, large: PositionWeight, k: real) {
    large == small.(
      quantity := By(small.quantity, k),
      costValue := By(small.costValue, k),
      marketValue := By(small.marketValue, k))
  }

  predicate SectorRowScaled(small: SectorWeight, large: SectorWeight, k: real) {
    large == small.(marketValue := By(small.marketValue, k))
  }

  /** Every money field multiplied by `k`; every weight, flag and percentage as before. */
  predicate WeightsScaled(small: Weights, large: Weights, k: real) {
    && large.totalCostValue == By(small.totalCostValue, k)
    && large.totalValue == By(small.totalValue, k)
    && large.dayChangeValue == By(small.dayChangeValue, k)
    && large.dayChangePercent == small.dayChangePercent
    && |large.positions| == |small.positions|
    && |large.sectors| == |small.sectors|
    && (forall i :: 0 <= i < |small.positions| ==> PositionRowScaled(small.positions[i], large.positions[i], k))
    && (forall i :: 0 <= i < |small.sectors| ==> SectorRowScaled(small.sectors[i], large.sectors[i], k))
  }

  lemma TotalsScale(m: Market, ps: seq<Position>, cash: real, k: real)
    ensures Sum(CostValues(Scale(ps, k))) == By(Sum(CostValues(ps)), k)
    ensures TotalValue(m, Scale(ps, k), By(cash, k)) == By(TotalValue(m, ps, cash), k)
    ensures Sum(DayChanges(m, Scale(ps, k))) == By(Sum(DayChanges(m, ps)), k)
  {
    ValuesScale(m, ps, k);
    SumScales(CostValues(ps), k);
    SumScales(MarketValues(m, ps), k);
    SumScales(DayChanges(m, ps), k);
    Times(Sum(MarketValues(m, ps)), cash, k);
  }

  lemma PositionRowScales(m: Market, p: Position, total: real, totalCost: real, threshold: real, k: real)
    requires k > 0.0
    ensures PositionRowScaled(
      WeighPosition(m, p, total, totalCost, threshold),
      WeighPosition(m, p.(quantity := By(p.quantity, k)), By(total, k), By(totalCost, k), threshold), k)
  {
    PositionScales(m, p, k);
    WeightScales(MarketValue(m, p), total, k);
    WeightScales(CostValue(p), totalCost, k);
  }

  lemma SectorRowScales(entry: (string, real), total: real, threshold: real, k: real)
    requires k > 0.0
    ensures SectorRowScaled(
      WeighSector(entry, total, threshold), WeighSector((entry.0, By(entry.1, k)), By(total, k), threshold), k)
  {
  }

  lemma PercentScales(total: real, change: real, k: real)
    requires k > 0.0
    ensures DayChangePercent(By(total, k), By(change, k)) == DayChangePercent(total, change)
  {
  }

  lemma RowsScale(m: Market, ps: seq<Position>, total: real, totalCost: real, threshold: real, k: real)
    requires k > 0.0
    ensures var small := WeighPositions(m, ps, total, totalCost, threshold);
            var large := WeighPositions(m, Scale(ps, k), By(total, k), By(totalCost, k), threshold);
            |small| == |large| && forall i :: 0 <= i < |small| ==> PositionRowScaled(small[i], large[i], k)
    ensures var small := WeighSectors(Sort(SectorTotals(m, ps), SectorLe), total, threshold);
            var large := WeighSectors(Sort(SectorTotals(m, Scale(ps, k)), SectorLe), By(total, k), threshold);
            |small| == |large| && forall i :: 0 <= i < |small| ==> SectorRowScaled(small[i], large[i], k)
  {
    forall i | 0 <= i < |ps|
      ensures PositionRowScaled(
        WeighPosition(m, ps[i], total, totalCost, threshold),
        WeighPosition(m, Scale(ps, k)[i], By(total, k), By(totalCost, k), threshold), k)
    {
      PositionRowScales(m, ps[i], total, totalCost, threshold, k);
    }
    var entries := Sort(SectorTotals(m, ps), SectorLe);
    SectorTotalsScale(m, ps, k);
    SortScales(SectorTotals(m, ps), k);
    forall i | 0 <= i < |entries|
      ensures SectorRowScaled(
        WeighSector(entries[i], total, threshold), WeighSector(ScaleEntries(entries, k)[i], By(total, k), threshold), k)
    {
      SectorRowScales(entries[i], total, threshold, k);
    }
  }

  lemma WeightsScale(m: Market, ps: seq<Position>, cash: real, threshold: real, k: real)
    requires k > 0.0
    ensures WeightsScaled(WeightsOf(m, ps, cash, threshold), WeightsOf(m, Scale(ps, k), By(cash, k), threshold), k)
  {
    var total, totalCost := TotalValue(m, ps, cash), Sum(CostValues(ps));
    TotalsScale(m, ps, cash, k);
    RowsScale(m, ps, total, totalCost, threshold, k);
    PercentScales(total, Sum(DayChanges(m, ps)), k);
  }

  lemma {:induction false} SectorBreachesScale(small: seq<SectorWeight>, large: seq<SectorWeight>, k: real)
    requires |small| == |large|
    requires forall i :: 0 <= i < |small| ==> SectorRowScaled(small[i], large[i], k)
    ensures SectorBreaches(large) == SectorBreaches(small)
  {
    if small != [] {
      SectorBreachesScale(small[..|small| - 1], large[..|large| - 1], k);
    }
  }

  lemma {:induction false} PositionBreachesScale(
    m: Market, small: seq<PositionWeight>, large: seq<PositionWeight>, k: real)
    requires |small| == |large|
    requires forall i :: 0 <= i < |small| ==> PositionRowScaled(small[i], large[i], k)
    ensures PositionBreaches(m, large) == PositionBreaches(m, small)
    ensures LargestWeight(large) == LargestWeight(small)
  {
    if small != [] {
      PositionBreachesScale(m, small[..|small| - 1], large[..|large| - 1], k);
    }
  }

  lemma ExposuresScale(m: Market, small: Weights, large: Weights, cashWeight: real, threshold: real, k: real)
    requires k > 0.0 && WeightsScaled(small, large, k)
    ensures RiskExposures(m, large, cashWeight, threshold) == RiskExposures(m, small, cashWeight, threshold)
  {
    SectorBreachesScale(small.sectors, large.sectors, k);
    PositionBreachesScale(m, small.positions, large.positions, k);
    assert large.totalValue == 0.0 <==> small.totalValue == 0.0;
  }

  lemma SummaryScales(m: Market, ps: seq<Position>, cash: real, threshold: real, k: real)
    requires k > 0.0
    ensures var small := SummaryOf(m, ps, cash, threshold);
            var large := SummaryOf(m, Scale(ps, k), By(cash, k), threshold);
            && WeightsScaled(small.weights, large.weights, k)
            && large == small.(cashBalance := By(cash, k), weights := large.weights)
  {
    var small, large := WeightsOf(m, ps, cash, threshold), WeightsOf(m, Scale(ps, k), By(cash, k), threshold);
    WeightsScale(m, ps, cash, threshold, k);
    WeightScales(cash, small.totalValue, k);
    ExposuresScale(m, small, large, Weight(cash, small.totalValue), threshold, k);
    FlagsScale(small, large, k);
  }

  /** Multiplying every quantity and the cash by `k` > 0 multiplies every money field by `k` and leaves every
      weight, flag, percentage and risk exposure, and the whole briefing sent to the cloud, as they were. */
  lemma SummaryIsScaleInvariant(
    m: Market, ps: seq<Position>, cash: real, threshold: real, k: real,
    symbols: map<nat, string>, sectors: map<nat, string>, changes: map<nat, real>)
    requires k > 0.0
    ensures var small := SummaryOf(m, ps, cash, threshold);
            var large := SummaryOf(m, Scale(ps, k), By(cash, k), threshold);
            && WeightsScaled(small.weights, large.weights, k)
            && large == small.(cashBalance := By(cash, k), weights := large.weights)
            && BriefingOf(large, symbols, sectors, changes) == BriefingOf(small, symbols, sectors, changes)
  {
    SummaryScales(m, ps, cash, threshold, k);
    var small, large := SummaryOf(m, ps, cash, threshold), SummaryOf(m, Scale(ps, k), By(cash, k), threshold);
    PositionBreachesScale(m, small.weights.positions, large.weights.positions, k);
    BriefingScales(small, large, k, symbols, sectors, changes);
  }

  lemma FlagsScale(small: Weights, large: Weights, k: real)
    requires WeightsScaled(small, large, k)
    ensures AnySectorExceeds(small.sectors) <==> AnySectorExceeds(large.sectors)
  {
  }

  lemma BriefingScales(
    small: Summary, large: Summary, k: real,
    symbols: map<nat, string>, sectors: map<nat, string>, changes: map<nat, real>)
    requires WeightsScaled(small.weights, large.weights, k)
    requires large.threshold == small.threshold && large.cashWeight == small.cashWeight
    requires large.exposures == small.exposures
    requires LargestWeight(large.weights.positions) == LargestWeight(small.weights.positions)
    ensures BriefingOf(large, symbols, sectors, changes) == BriefingOf(small, symbols, sectors, changes)
  {
  }
}
