/** The deterministic daily price series. Prices are whole cents; dates are days since 1970-01-01. */
module PriceGenerator {

  /** 25 June 2026. */
  const SERIES_END := 20629

  datatype Bar = Bar(
    date: int, open: int, high: int, low: int, close: int, adjustedClose: int, volume: int, currency: string)

  function RangeCount(range: string): nat {
    if range == "1M" then 22
    else if range == "3M" then 66
    else if range == "6M" then 132
    else if range == "1Y" then 252
    else 66
  }

  /** Monday is 0; 1 January 1970 was a Thursday. */
  function Weekday(date: int): int {
    (date + 3) % 7
  }

  predicate BusinessDay(date: int) {
    Weekday(date) < 5
  }

  /** The last `count` business days up to `end`, oldest first. */
  function BusinessDays(end: int, count: nat): seq<int>
    decreases count, if BusinessDay(end) then 0 else Weekday(end)
  {
    if count == 0 then []
    else if BusinessDay(end) then BusinessDays(end - 1, count - 1) + [end]
    else BusinessDays(end - 1, count)
  }

  function Reversed<T>(xs: seq<T>): seq<T> {
    seq(|xs|, i requires 0 <= i < |xs| => xs[|xs| - 1 - i])
  }

  method BusinessDaysEndingOn(end: int, count: nat) returns (dates: seq<int>)
    ensures dates == BusinessDays(end, count)
  {
    var days: seq<int> := [];
    var current := end;
    while |days| < count
      invariant |days| <= count
      invariant BusinessDays(end, count) == BusinessDays(current, count - |days|) + Reversed(days)
      decreases count - |days|, if BusinessDay(current) then 0 else Weekday(current)
    {
      if BusinessDay(current) {
        assert Reversed(days + [current]) == [current] + Reversed(days);
        days := days + [current];
      }
      current := current - 1;
    }
    dates := Reversed(days);
    assert BusinessDays(current, 0) + dates == dates;
  }

  lemma {:induction false} BusinessDaysInOrder(end: int, count: nat)
    ensures var dates := BusinessDays(end, count);
            && |dates| == count
            && (forall i :: 0 <= i < count ==> BusinessDay(dates[i]) && dates[i] <= end)
            && (forall i, j :: 0 <= i < j < count ==> dates[i] < dates[j])
            && (forall d :: count > 0 && dates[0] <= d <= end && BusinessDay(d) ==> d in dates)
    decreases count, if BusinessDay(end) then 0 else Weekday(end)
  {
    if count > 0 {
      if BusinessDay(end) {
        BusinessDaysInOrder(end - 1, count - 1);
        var rest := BusinessDays(end - 1, count - 1);
        forall d | (rest + [end])[0] <= d <= end && BusinessDay(d) ensures d in rest + [end] {
          if d < end && count > 1 {
            assert (rest + [end])[0] == rest[0];
            assert d in rest;
          }
        }
      } else {
        BusinessDaysInOrder(end - 1, count);
      }
    }
  }

  /** Neither a Saturday nor a Sunday: day 0, the first of January 1970, was a Thursday. */
  predicate IsWeekday(date: int) {
    date % 7 != 2 && date % 7 != 3
  }

  lemma BusinessDaysAreWeekdays(date: int)
    ensures BusinessDay(date) <==> IsWeekday(date)
  {
  }

  /** Exactly `count` strictly increasing weekdays, none after `end` and none skipped from the first on. */
  lemma BusinessDaysAreConsecutive(end: int, count: nat)
    ensures var dates := BusinessDays(end, count);
            && |dates| == count
            && (forall i :: 0 <= i < count ==> IsWeekday(dates[i]) && dates[i] <= end)
            && (forall i, j :: 0 <= i < j < count ==> dates[i] < dates[j])
            && (forall d :: count > 0 && dates[0] <= d <= end && IsWeekday(d) ==> d in dates)
  {
    BusinessDaysInOrder(end, count);
    forall d ensures BusinessDay(d) <==> IsWeekday(d) {
      BusinessDaysAreWeekdays(d);
    }
  }

  // ----- One bar -----

  function Max(a: int, b: int): int {
    if a >= b then a else b
  }

  function Min(a: int, b: int): int {
    if a <= b then a else b
  }

  /** Rounds `n / d` to the nearest integer, ties to even. */
  function RoundHalfEven(n: int, d: nat): int
    requires d > 0
  {
    var q, r := n / d, n % d;
    if 2 * r < d || (2 * r == d && q % 2 == 0) then q else q + 1
  }

  /** `r` is the integer nearest to `n / d`, and the even one of two equally near. */
  predicate Nearest(n: int, d: nat, r: int) {
    && -(d as int) <= 2 * (n - r * d) <= d
    && ((2 * (n - r * d) == d || 2 * (n - r * d) == -(d as int)) ==> r % 2 == 0)
  }

  lemma RoundsToNearest(n: int, d: nat)
    requires d > 0
    ensures Nearest(n, d, RoundHalfEven(n, d))
  {
  }

  function Drift(seed: nat, index: nat): int {
    (seed + index * 17) % 900 - 450
  }

  function CloseMove(seed: nat, index: nat): int {
    (seed / 7 + index * 13) % 700 - 350
  }

  function Spread(seed: nat, index: nat): int {
    (seed / 13 + index * 5) % 300 + 50
  }

  /** The adjustment factor in basis points. */
  function Factor(seed: nat, index: nat): int {
    10000 - (seed + index) % 35
  }

  function BasePrice(seed: nat): int {
    (seed % 50000 + 5000) * 100
  }

  function CurrencyFor(market: string): string {
    if market == "KRX" then "KRW" else "USD"
  }

  function BarAt(seed: nat, market: string, adjusted: bool, index: nat, date: int, previousClose: int): Bar {
    var open := previousClose + Drift(seed, index);
    var close := Max(open + CloseMove(seed, index), 100);
    Bar(
      date,
      open,
      Max(open, close) + Spread(seed, index),
      Max(Min(open, close) - Spread(seed, index), 1),
      close,
      if adjusted then RoundHalfEven(close * Factor(seed, index), 10000) else close,
      seed % 1000000 + 100000 + index * 997,
      CurrencyFor(market))
  }

  /** The price a bar starts from: the base price, then each close in turn. */
  function PreviousClose(seed: nat, bars: seq<Bar>): int {
    if bars == [] then BasePrice(seed) else bars[|bars| - 1].close
  }

  function Series(seed: nat, market: string, adjusted: bool, dates: seq<int>): (bars: seq<Bar>)
    ensures |bars| == |dates|
  {
    if dates == [] then []
    else
      var n := |dates| - 1;
      var before := Series(seed, market, adjusted, dates[..n]);
      before + [BarAt(seed, market, adjusted, n, dates[n], PreviousClose(seed, before))]
  }

  function DailyBars(seed: nat, market: string, range: string, adjusted: bool): seq<Bar> {
    Series(seed, market, adjusted, BusinessDays(SERIES_END, RangeCount(range)))
  }

  method GetDailyBars(seed: nat, market: string, range: string, adjusted: bool) returns (bars: seq<Bar>)
    ensures bars == DailyBars(seed, market, range, adjusted)
  {
    var dates := BusinessDaysEndingOn(SERIES_END, RangeCount(range));
    bars := [];
    var previousClose := BasePrice(seed);
    for index := 0 to |dates|
      invariant bars == Series(seed, market, adjusted, dates[..index])
      invariant previousClose == PreviousClose(seed, bars)
    {
      assert dates[..index + 1][..index] == dates[..index];
      var bar := NextBar(seed, market, adjusted, index, dates[index], previousClose);
      bars := bars + [bar];
      previousClose := bar.close;
    }
    assert dates[..|dates|] == dates;
  }

  /** The body of the loop over trading dates. */
  method NextBar(seed: nat, market: string, adjusted: bool, index: nat, date: int, previousClose: int)
    returns (bar: Bar)
    ensures bar == BarAt(seed, market, adjusted, index, date, previousClose)
  {
    var open := previousClose + Drift(seed, index);
    var close := Max(open + CloseMove(seed, index), 100);
    var spread := Spread(seed, index);
    var adjustedClose := close;
    if adjusted {
      adjustedClose := RoundHalfEven(close * Factor(seed, index), 10000);
    }
    bar := Bar(
      date, open, Max(open, close) + spread, Max(Min(open, close) - spread, 1), close, adjustedClose,
      seed % 1000000 + 100000 + index * 997, CurrencyFor(market));
  }

  // ----- The shape of every series -----

  /** A bar that makes sense as a day of trading, more than `floor` cents up. */
  predicate Sound(bar: Bar, floor: int) {
    && 0 < bar.low
    && bar.low <= bar.open <= bar.high
    && bar.low <= bar.close <= bar.high
    && 0 < bar.adjustedClose <= bar.close
    && bar.close >= floor
    && bar.volume > 0
  }

  lemma AdjustmentShrinks(close: int, factor: int)
    requires close >= 100 && 9966 <= factor <= 10000
    ensures 0 < RoundHalfEven(close * factor, 10000) <= close
  {
  }

  /** From a previous close well above a dollar neither clamp fires, and a day moves the close by at most 8.00. */
  lemma BarIsSound(seed: nat, market: string, adjusted: bool, index: nat, date: int, previousClose: int)
    requires previousClose >= 2000
    ensures var bar := BarAt(seed, market, adjusted, index, date, previousClose);
            && bar.open == previousClose + Drift(seed, index)
            && bar.close == bar.open + CloseMove(seed, index)
            && bar.low == Min(bar.open, bar.close) - Spread(seed, index)
            && previousClose - 800 <= bar.close <= previousClose + 798
            && Sound(bar, previousClose - 800)
  {
    var bar := BarAt(seed, market, adjusted, index, date, previousClose);
    assert -450 <= Drift(seed, index) <= 449 && -350 <= CloseMove(seed, index) <= 349;
    assert 50 <= Spread(seed, index) <= 349;
    if adjusted {
      AdjustmentShrinks(bar.close, Factor(seed, index));
    }
  }

  /** One step of the walk: the bar makes sense, neither clamp fired, and its close is within 8.00 of `previous`. */
  predicate WalkStep(seed: nat, bar: Bar, index: nat, date: int, previous: int) {
    && Sound(bar, BasePrice(seed) - 800 * (index + 1))
    && bar.date == date
    && bar.open == previous + Drift(seed, index)
    && bar.close == bar.open + CloseMove(seed, index)
    && bar.low == Min(bar.open, bar.close) - Spread(seed, index)
    && previous - 800 <= bar.close <= previous + 798
  }

  ghost predicate WalkBounded(seed: nat, bars: seq<Bar>, dates: seq<int>) {
    && |bars| == |dates|
    && forall i :: 0 <= i < |bars| ==> WalkStep(seed, bars[i], i, dates[i], PreviousClose(seed, bars[..i]))
  }

  lemma BasePriceRange(seed: nat)
    ensures 500000 <= BasePrice(seed) <= 5499900
  {
  }

  lemma WalkStepHolds(seed: nat, market: string, adjusted: bool, index: nat, date: int, previous: int)
    requires index < 252 && previous >= BasePrice(seed) - 800 * index
    ensures WalkStep(seed, BarAt(seed, market, adjusted, index, date, previous), index, date, previous)
  {
    BasePriceRange(seed);
    BarIsSound(seed, market, adjusted, index, date, previous);
  }

  lemma WalkFloor(seed: nat, bars: seq<Bar>, dates: seq<int>)
    requires WalkBounded(seed, bars, dates)
    ensures PreviousClose(seed, bars) >= BasePrice(seed) - 800 * |bars|
  {
  }

  lemma WalkGrows(seed: nat, bars: seq<Bar>, dates: seq<int>, bar: Bar, date: int)
    requires WalkBounded(seed, bars, dates)
    requires WalkStep(seed, bar, |bars|, date, PreviousClose(seed, bars))
    ensures WalkBounded(seed, bars + [bar], dates + [date])
  {
    var longer := bars + [bar];
    forall i | 0 <= i < |longer|
      ensures WalkStep(seed, longer[i], i, (dates + [date])[i], PreviousClose(seed, longer[..i]))
    {
      assert longer[..i] == bars[..i];
      assert i == |bars| ==> bars[..i] == bars;
    }
  }

  lemma {:induction false} SeriesIsBounded(seed: nat, market: string, adjusted: bool, dates: seq<int>)
    requires |dates| <= 252
    ensures WalkBounded(seed, Series(seed, market, adjusted, dates), dates)
  {
    if dates != [] {
      var n := |dates| - 1;
      SeriesIsBounded(seed, market, adjusted, dates[..n]);
      var before := Series(seed, market, adjusted, dates[..n]);
      var previous := PreviousClose(seed, before);
      WalkFloor(seed, before, dates[..n]);
      WalkStepHolds(seed, market, adjusted, n, dates[n], previous);
      WalkGrows(seed, before, dates[..n], BarAt(seed, market, adjusted, n, dates[n], previous), dates[n]);
      assert dates == dates[..n] + [dates[n]];
    }
  }

  lemma StepFacts(seed: nat, bar: Bar, index: nat, date: int, previous: int)
    requires index < 252 && WalkStep(seed, bar, index, date, previous)
    ensures bar.close >= 298400 && bar.date == date
  {
  }

  // ----- The numbers of every bar -----

  /** The bar drawn for the seed and the index from `previous` cents: it opens 4.50 below to 4.49 above that, moves 3.50
      down to 3.49 up but not below 1.00, and reaches 0.50 to 3.49 beyond both, though not down to zero; an adjusted
      close is the close less up to 34 basis points, rounded to cents. */
  predicate Drawn(seed: nat, market: string, adjusted: bool, bar: Bar, index: nat, date: int, previous: int) {
    var moved := bar.open + (seed / 7 + index * 13) % 700 - 350;
    var spread := (seed / 13 + index * 5) % 300 + 50;
    && bar.date == date
    && bar.open == previous + (seed + index * 17) % 900 - 450
    && bar.close == (if moved < 100 then 100 else moved)
    && bar.high == (if bar.open < bar.close then bar.close else bar.open) + spread
    && (var low := (if bar.open < bar.close then bar.open else bar.close) - spread;
        bar.low == if low < 1 then 1 else low)
    && (if adjusted then Nearest(bar.close * (10000 - (seed + index) % 35), 10000, bar.adjustedClose)
        else bar.adjustedClose == bar.close)
    && bar.volume == seed % 1000000 + 100000 + index * 997
    && bar.currency == (if market == "KRX" then "KRW" else "USD")
  }

  /** What the bar at `i` starts from: 5000 to 54999 whole units, as the seed says, or the close before. */
  function From(seed: nat, bars: seq<Bar>, i: nat): int
    requires i <= |bars|
  {
    if i == 0 then (seed % 50000 + 5000) * 100 else bars[i - 1].close
  }

  /** One bar for each date, each drawn from where the one before left off. */
  predicate DrawnInTurn(seed: nat, market: string, adjusted: bool, bars: seq<Bar>, dates: seq<int>) {
    && |bars| == |dates|
    && forall i :: 0 <= i < |bars| ==>
         Drawn(seed, market, adjusted, bars[i], i, dates[i], From(seed, bars, i))
  }

  lemma BarIsDrawn(seed: nat, market: string, adjusted: bool, index: nat, date: int, previous: int)
    ensures Drawn(seed, market, adjusted, BarAt(seed, market, adjusted, index, date, previous), index, date, previous)
  {
    var bar, factor := BarAt(seed, market, adjusted, index, date, previous), Factor(seed, index);
    RoundsToNearest(bar.close * factor, 10000);
    assert Nearest(bar.close * factor, 10000, RoundHalfEven(bar.close * factor, 10000));
    assert factor == 10000 - (seed + index) % 35;
  }

  lemma DrawnGrows(
    seed: nat, market: string, adjusted: bool, bars: seq<Bar>, dates: seq<int>, bar: Bar, date: int)
    requires DrawnInTurn(seed, market, adjusted, bars, dates)
    requires Drawn(seed, market, adjusted, bar, |bars|, date, PreviousClose(seed, bars))
    ensures DrawnInTurn(seed, market, adjusted, bars + [bar], dates + [date])
  {
    var longer, more := bars + [bar], dates + [date];
    forall i | 0 <= i < |longer|
      ensures Drawn(seed, market, adjusted, longer[i], i, more[i], From(seed, longer, i))
    {
      if i < |bars| {
        assert longer[i] == bars[i] && more[i] == dates[i] && From(seed, longer, i) == From(seed, bars, i);
        assert Drawn(seed, market, adjusted, longer[i], i, more[i], From(seed, longer, i))
            == Drawn(seed, market, adjusted, bars[i], i, dates[i], From(seed, bars, i));
      } else {
        assert From(seed, longer, i) == PreviousClose(seed, bars);
        assert Drawn(seed, market, adjusted, longer[i], i, more[i], From(seed, longer, i))
            == Drawn(seed, market, adjusted, bar, |bars|, date, PreviousClose(seed, bars));
      }
    }
  }

  /** Every bar of a series, of whatever dates, is drawn in turn. */
  lemma {:induction false} SeriesIsDrawn(seed: nat, market: string, adjusted: bool, dates: seq<int>)
    ensures DrawnInTurn(seed, market, adjusted, Series(seed, market, adjusted, dates), dates)
  {
    if dates != [] {
      var n := |dates| - 1;
      SeriesIsDrawn(seed, market, adjusted, dates[..n]);
      var before := Series(seed, market, adjusted, dates[..n]);
      var previous := PreviousClose(seed, before);
      BarIsDrawn(seed, market, adjusted, n, dates[n], previous);
      DrawnGrows(seed, market, adjusted, before, dates[..n],
                 BarAt(seed, market, adjusted, n, dates[n], previous), dates[n]);
      assert dates == dates[..n] + [dates[n]];
    }
  }

  /** The day number of 25 June 2026: 56 years, 14 of them leap years, five months, and 24 days. */
  const LAST_DAY := 56 * 365 + 14 + (31 + 28 + 31 + 30 + 31) + 24

  /** How many bars a range asks for; one it does not know counts as three months. */
  function Asked(range: string): nat {
    if range == "1M" then 22 else if range == "6M" then 132 else if range == "1Y" then 252 else 66
  }

  function DatesOf(bars: seq<Bar>): seq<int> {
    seq(|bars|, i requires 0 <= i < |bars| => bars[i].date)
  }

  /** All the weekdays from the first on, and the last is 25 June 2026. */
  ghost predicate EveryWeekday(dates: seq<int>) {
    && dates != []
    && dates[|dates| - 1] == LAST_DAY
    && (forall i, j :: 0 <= i < j < |dates| ==> dates[i] < dates[j])
    && (forall d :: dates[0] <= d <= LAST_DAY ==> (d in dates <==> IsWeekday(d)))
  }

  lemma LastWeekdays(count: nat)
    requires count > 0
    ensures EveryWeekday(BusinessDays(SERIES_END, count)) && |BusinessDays(SERIES_END, count)| == count
  {
    BusinessDaysAreConsecutive(SERIES_END, count);
    BusinessDaysAreWeekdays(SERIES_END);
  }

  /** For every seed, market and range: as many bars as the range asks for, on consecutive weekdays up to 25 June 2026,
      each drawn in turn and sound, with neither clamp ever fired. */
  lemma GeneratedSeriesIsSound(seed: nat, market: string, range: string, adjusted: bool)
    ensures var bars := DailyBars(seed, market, range, adjusted);
            && |bars| == Asked(range)
            && EveryWeekday(DatesOf(bars))
            && DrawnInTurn(seed, market, adjusted, bars, DatesOf(bars))
            && WalkBounded(seed, bars, DatesOf(bars))
            && (forall i :: 0 <= i < |bars| ==> bars[i].close >= 298400)
  {
    var bars, dates := DailyBars(seed, market, range, adjusted), BusinessDays(SERIES_END, RangeCount(range));
    LastWeekdays(RangeCount(range));
    SeriesFacts(seed, market, adjusted, dates);
    SeriesIsDrawn(seed, market, adjusted, dates);
    assert dates == DatesOf(bars);
  }

  lemma SeriesFacts(seed: nat, market: string, adjusted: bool, dates: seq<int>)
    requires |dates| <= 252
    ensures var bars := Series(seed, market, adjusted, dates);
            && WalkBounded(seed, bars, dates)
            && (forall i :: 0 <= i < |bars| ==> bars[i].date == dates[i] && bars[i].close >= 298400)
  {
    SeriesIsBounded(seed, market, adjusted, dates);
    var bars := Series(seed, market, adjusted, dates);
    forall i | 0 <= i < |bars| ensures bars[i].date == dates[i] && bars[i].close >= 298400 {
      StepFacts(seed, bars[i], i, dates[i], PreviousClose(seed, bars[..i]));
    }
  }
}
