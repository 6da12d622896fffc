/** The day change of a portfolio is a weighted mean of its positions' changes, with cash at zero. */
module PortfolioDayChange {
  import opened Portfolio
  import opened PortfolioLaws
  import opened PortfolioBounds

  /** What a position was worth before today's move. */
  function PreviousValue(m: Market, p: Position): real {
    MarketValue(m, p) - DayChange(m, p)
  }

  function PreviousValues(m: Market, ps: seq<Position>): seq<real> {
    seq(|ps|, i requires 0 <= i < |ps| => PreviousValue(m, ps[i]))
  }

  /** Changes lie in a band that contains zero, and nothing lost all of its value. */
  predicate ChangesWithin(m: Market, ps: seq<Position>, lo: real, hi: real) {
    && lo <= 0.0 <= hi
    && forall i :: 0 <= i < |ps| ==> lo <= ChangeOf(m, ps[i]) <= hi && ChangeOf(m, ps[i]) > -100.0
  }

  /** A position moved by its change percent of what it was worth before. */
  lemma PositionMoves(m: Market, p: Position)
    requires p.quantity >= 0.0 && PriceOf(m, p) >= 0.0 && ChangeOf(m, p) > -100.0
    ensures PreviousValue(m, p) >= 0.0
    ensures By(DayChange(m, p), 100.0) == PreviousValue(m, p) * ChangeOf(m, p)
  {
    var value, c := MarketValue(m, p), ChangeOf(m, p);
    var denominator := 1.0 + c / 100.0;
    assert denominator > 0.0;
    NonNegativeProduct(p.quantity, PriceOf(m, p));
    if PriceOf(m, p) == 0.0 {
      assert value == 0.0;
    } else {
      var previous := value / denominator;
      assert value == previous * denominator;
      QuotientMonotone(0.0, value, denominator);
      MoveOf(previous, c);
    }
  }

  lemma MoveOf(previous: real, c: real)
    ensures (previous * (1.0 + c / 100.0) - previous) * 100.0 == previous * c
  {
  }

  lemma ProductMonotone(x: real, a: real, b: real)
    requires x >= 0.0 && a <= b
    ensures x * a <= x * b
  {
  }

  lemma PositionMovesWithin(m: Market, p: Position, lo: real, hi: real)
    requires p.quantity >= 0.0 && PriceOf(m, p) >= 0.0 && ChangeOf(m, p) > -100.0
    requires lo <= ChangeOf(m, p) <= hi
    ensures PreviousValue(m, p) >= 0.0
    ensures By(PreviousValue(m, p), lo) <= By(DayChange(m, p), 100.0) <= By(PreviousValue(m, p), hi)
  {
    PositionMoves(m, p);
    ProductMonotone(PreviousValue(m, p), lo, ChangeOf(m, p));
    ProductMonotone(PreviousValue(m, p), ChangeOf(m, p), hi);
  }

  lemma MovesAdd(before: real, moved: real, p: real, change: real, lo: real, hi: real)
    requires By(before, lo) <= By(moved, 100.0) <= By(before, hi)
    requires By(p, lo) <= By(change, 100.0) <= By(p, hi)
    ensures By(before + p, lo) <= By(moved + change, 100.0) <= By(before + p, hi)
  {
  }

  /** Summed over the positions, the change stays within the band times the previous value. */
  lemma {:induction false} MovesWithin(m: Market, ps: seq<Position>, lo: real, hi: real)
    requires forall i :: 0 <= i < |ps| ==> ps[i].quantity >= 0.0 && PriceOf(m, ps[i]) >= 0.0
    requires ChangesWithin(m, ps, lo, hi)
    ensures Sum(PreviousValues(m, ps)) >= 0.0
    ensures By(Sum(PreviousValues(m, ps)), lo)
         <= By(Sum(DayChanges(m, ps)), 100.0)
         <= By(Sum(PreviousValues(m, ps)), hi)
  {
    if ps != [] {
      var n := |ps| - 1;
      MovesWithin(m, ps[..n], lo, hi);
      assert PreviousValues(m, ps)[..n] == PreviousValues(m, ps[..n]);
      assert DayChanges(m, ps)[..n] == DayChanges(m, ps[..n]);
      PositionMovesWithin(m, ps[n], lo, hi);
      MovesAdd(Sum(PreviousValues(m, ps[..n])), Sum(DayChanges(m, ps[..n])),
               PreviousValue(m, ps[n]), DayChange(m, ps[n]), lo, hi);
    }
  }

  lemma {:induction false} PreviousSum(m: Market, ps: seq<Position>)
    ensures Sum(PreviousValues(m, ps)) == Sum(MarketValues(m, ps)) - Sum(DayChanges(m, ps))
  {
    if ps != [] {
      var n := |ps| - 1;
      PreviousSum(m, ps[..n]);
      assert PreviousValues(m, ps)[..n] == PreviousValues(m, ps[..n]);
      assert MarketValues(m, ps)[..n] == MarketValues(m, ps[..n]);
      assert DayChanges(m, ps)[..n] == DayChanges(m, ps[..n]);
    }
  }

  /** `100 * change / base` stays in a band around zero when the change does, for a smaller base. */
  lemma PercentWithin(change: real, moved: real, base: real, lo: real, hi: real)
    requires 0.0 <= moved <= base && base > 0.0 && lo <= 0.0 <= hi
    requires By(moved, lo) <= By(change, 100.0) <= By(moved, hi)
    ensures lo <= (change / base) * 100.0 <= hi
  {
  }

  /** `value` after a move of `percent` percent. */
  function Grown(value: real, percent: real): real {
    value * (1.0 + percent / 100.0)
  }

  lemma PercentMoves(change: real, previous: real)
    requires previous != 0.0
    ensures previous + change == Grown(previous, (change / previous) * 100.0)
  {
  }

  lemma NothingMoves(change: real, lo: real, hi: real)
    requires By(0.0, lo) <= By(change, 100.0) <= By(0.0, hi)
    ensures change == 0.0
  {
  }

  /** The bound on plain numbers: `moved` was in positions and `cash` beside it. */
  lemma PercentOfWhole(total: real, change: real, moved: real, cash: real, lo: real, hi: real)
    requires total - change == moved + cash && moved >= 0.0 && cash >= 0.0 && lo <= 0.0 <= hi
    requires By(moved, lo) <= By(change, 100.0) <= By(moved, hi)
    ensures lo <= DayChangePercent(total, change) <= hi
    ensures total == Grown(total - change, DayChangePercent(total, change))
  {
    if total - change > 0.0 {
      PercentWithin(change, moved, total - change, lo, hi);
      PercentMoves(change, total - change);
    } else {
      NothingMoves(change, lo, hi);
    }
  }

  /** Day-change bound: with nothing negative and no position having lost everything, the portfolio moves by no
      more than its extreme positions (or zero), and today's value is yesterday's moved by that percentage. */
  lemma DayChangeIsWeightedMean(m: Market, ps: seq<Position>, cash: real, threshold: real, lo: real, hi: real)
    requires NonNegative(m, ps, cash) && ChangesWithin(m, ps, lo, hi)
    ensures var w := WeightsOf(m, ps, cash, threshold);
            var previous := w.totalValue - w.dayChangeValue;
            && previous >= 0.0
            && lo <= w.dayChangePercent <= hi
            && w.totalValue == Grown(previous, w.dayChangePercent)
  {
    var w := WeightsOf(m, ps, cash, threshold);
    PreviousSum(m, ps);
    MovesWithin(m, ps, lo, hi);
    PercentOfWhole(w.totalValue, w.dayChangeValue, Sum(PreviousValues(m, ps)), cash, lo, hi);
  }

  // ----- The change of each position -----

  /** `d` is what the position gained today, so that `value - d`, moved by the quoted percentage, is `value`; without a
      quote, with a price of zero or after a total loss it is zero. */
  predicate Moved(m: Market, p: Position, value: real, d: real) {
    if p.assetId in m.assets && m.assets[p.assetId].ticker in m.quotes
    then
      var quote := m.quotes[m.assets[p.assetId].ticker];
      if quote.price == 0.0 || quote.changePercent == -100.0 then d == 0.0
      else Grown(value - d, quote.changePercent) == value
    else d == 0.0
  }

  lemma MoveIsExact(m: Market, p: Position)
    ensures Moved(m, p, MarketValue(m, p), DayChange(m, p))
  {
    var value, denominator := MarketValue(m, p), 1.0 + ChangeOf(m, p) / 100.0;
    if denominator != 0.0 && PriceOf(m, p) != 0.0 {
      assert value - DayChange(m, p) == value / denominator;
      assert (value / denominator) * denominator == value;
    }
  }

  lemma PercentIsExact(total: real, change: real)
    ensures var percent := DayChangePercent(total, change);
            if total == change then percent == 0.0 else Grown(total - change, percent) == total
  {
    if total != change {
      PercentMoves(change, total - change);
    }
  }

  /** The positions' changes, which add up to that of the whole. */
  ghost predicate MovedInAll(m: Market, ps: seq<Position>, w: Weights, ds: seq<real>) {
    && |ds| == |ps| == |w.positions|
    && (forall i :: 0 <= i < |ps| ==> Moved(m, ps[i], w.positions[i].marketValue, ds[i]))
    && Sum(ds) == w.dayChangeValue
  }

  /** The day change of the whole: the positions' changes added up, and their percentage of what everything was worth
      before. */
  lemma DayChangeIsExact(m: Market, ps: seq<Position>, cash: real, threshold: real)
    ensures var w := WeightsOf(m, ps, cash, threshold);
            && (exists ds :: MovedInAll(m, ps, w, ds))
            && (if w.totalValue == w.dayChangeValue then w.dayChangePercent == 0.0
                else Grown(w.totalValue - w.dayChangeValue, w.dayChangePercent) == w.totalValue)
  {
    var w, ds := WeightsOf(m, ps, cash, threshold), DayChanges(m, ps);
    forall i | 0 <= i < |ps| ensures Moved(m, ps[i], w.positions[i].marketValue, ds[i]) {
      MoveIsExact(m, ps[i]);
    }
    assert MovedInAll(m, ps, w, ds);
    PercentIsExact(w.totalValue, w.dayChangeValue);
  }
}
