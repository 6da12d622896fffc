/** What validation makes of a generated series. */
module GeneratedQuality {
  import opened Common
  import opened Sorting
  import opened Prices
  import G = PriceGenerator

  function Dollars(cents: int): real {
    cents as real / 100.0
  }

  /** A generated bar as the provider hands it over: complete, stamped at midnight UTC. */
  function Delivered(bar: G.Bar, symbol: string, market: string): Bar
    requires bar.date >= 0
  {
    Bar(symbol, market, "1d", bar.date * DAY,
        Some(Dollars(bar.open)), Some(Dollars(bar.high)), Some(Dollars(bar.low)), Some(Dollars(bar.close)),
        Some(Dollars(bar.adjustedClose)), bar.volume, bar.currency, "mock")
  }

  predicate Dated(bars: seq<G.Bar>) {
    forall i :: 0 <= i < |bars| ==> bars[i].date >= 0
  }

  function DeliveredAll(bars: seq<G.Bar>, symbol: string, market: string): seq<Bar>
    requires Dated(bars)
  {
    seq(|bars|, i requires 0 <= i < |bars| => Delivered(bars[i], symbol, market))
  }

  /** The bar carries the generated numbers, in whole units instead of cents, at midnight of its date. */
  predicate HandedOver(bar: G.Bar, handed: Bar, symbol: string, market: string) {
    && handed.symbol == symbol && handed.market == market && handed.interval == "1d" && handed.source == "mock"
    && handed.timestamp == bar.date * 86400
    && handed.open.Some? && handed.open.value * 100.0 == bar.open as real
    && handed.high.Some? && handed.high.value * 100.0 == bar.high as real
    && handed.low.Some? && handed.low.value * 100.0 == bar.low as real
    && handed.close.Some? && handed.close.value * 100.0 == bar.close as real
    && handed.adjustedClose.Some? && handed.adjustedClose.value * 100.0 == bar.adjustedClose as real
    && handed.volume == bar.volume && handed.currency == bar.currency
  }

  /** Every bar of a series is handed over with its own numbers. */
  lemma SeriesHandedOver(bars: seq<G.Bar>, symbol: string, market: string)
    requires Dated(bars)
    ensures var handed := DeliveredAll(bars, symbol, market);
            |handed| == |bars| && forall i :: 0 <= i < |bars| ==> HandedOver(bars[i], handed[i], symbol, market)
  {
  }

  /** Days since the last business day. */
  function WeekendDays(date: int): int {
    if G.BusinessDay(date) then 0 else G.Weekday(date) - 4
  }

  lemma {:induction false} DatesNotFarBack(end: int, count: nat)
    ensures var dates := G.BusinessDays(end, count);
            |dates| == count && forall i :: 0 <= i < count ==> dates[i] >= end - WeekendDays(end) - 3 * (count - 1)
    decreases count, if G.BusinessDay(end) then 0 else G.Weekday(end)
  {
    if count > 0 {
      DatesNotFarBack(end - 1, if G.BusinessDay(end) then count - 1 else count);
    }
  }

  // ----- Which bars validation keeps -----

  /** How many leading bars are not dated after `today`. */
  function Arrived(bars: seq<Bar>, today: nat): (n: nat)
    ensures n <= |bars|
  {
    if bars == [] then 0
    else Arrived(bars[..|bars| - 1], today) + if DayOf(bars[|bars| - 1].timestamp) <= today then 1 else 0
  }

  ghost predicate CompleteAndOrdered(bars: seq<Bar>) {
    && (forall i :: 0 <= i < |bars| ==> !Lacking(bars[i]))
    && (forall i, j :: 0 <= i < j < |bars| ==> bars[i].timestamp <= bars[j].timestamp)
  }

  lemma DaysInOrder(a: nat, b: nat)
    requires a <= b
    ensures DayOf(a) <= DayOf(b)
  {
  }

  lemma PrefixOneMore(head: seq<Bar>, last: Bar, today: nat)
    requires CompleteAndOrdered(head + [last])
    requires Kept(head, today) == head[..Arrived(head, today)]
    requires Arrived(head, today) < |head| ==> DayOf(head[|head| - 1].timestamp) > today
    ensures var bars := head + [last];
            && Kept(bars, today) == bars[..Arrived(bars, today)]
            && (Arrived(bars, today) < |bars| ==> DayOf(last.timestamp) > today)
  {
    var bars := head + [last];
    assert bars[..|head|] == head && bars[|head|] == last;
    assert Keeps(last, today) <==> DayOf(last.timestamp) <= today;
    if Arrived(head, today) < |head| {
      assert bars[|head| - 1] == head[|head| - 1];
      DaysInOrder(head[|head| - 1].timestamp, last.timestamp);
      assert bars[..Arrived(head, today)] == head[..Arrived(head, today)];
    } else {
      assert head[..|head|] == head && bars[..|bars|] == bars;
    }
  }

  lemma {:induction false} KeepsPrefix(bars: seq<Bar>, today: nat)
    requires CompleteAndOrdered(bars)
    ensures Kept(bars, today) == bars[..Arrived(bars, today)]
    ensures Arrived(bars, today) < |bars| ==> DayOf(bars[|bars| - 1].timestamp) > today
  {
    if bars != [] {
      var head, last := bars[..|bars| - 1], bars[|bars| - 1];
      KeepsPrefix(head, today);
      SplitLast(bars);
      PrefixOneMore(head, last, today);
    }
  }

  // ----- Warnings -----

  /** Closes of at least 2984.00 that move by at most 8.00 never look like outliers. */
  lemma SmallMoveIsNoOutlier(close: int, previous: int)
    requires previous >= 298400 && previous - 800 <= close <= previous + 798
    ensures !Jumps(Dollars(close), Some(Dollars(previous)))
  {
  }

  ghost predicate Smooth(bars: seq<Bar>) {
    forall i :: 0 < i < |bars| && bars[i].close.Some? ==> !Jumps(bars[i].close.value, bars[i - 1].close)
  }

  lemma {:induction false} SmoothHasNoOutliers(bars: seq<Bar>)
    requires Smooth(bars)
    ensures CountOutliers(bars) == 0
  {
    if bars != [] {
      var n := |bars| - 1;
      forall i | 0 < i < n && bars[..n][i].close.Some?
        ensures !Jumps(bars[..n][i].close.value, bars[..n][i - 1].close)
      {
        assert !Jumps(bars[i].close.value, bars[i - 1].close);
      }
      SmoothHasNoOutliers(bars[..n]);
    }
  }

  lemma {:induction false} AllMismatch(bars: seq<Bar>, market: string, mismatch: bool)
    requires forall i :: 0 <= i < |bars| ==> WrongCurrency(bars[i], market) == mismatch
    ensures CountMismatches(bars, market) == if mismatch then |bars| else 0
  {
    if bars != [] {
      AllMismatch(bars[..|bars| - 1], market, mismatch);
    }
  }

  /** The generator quotes KRW for the market "KRX" only, the validator expects it for KOSPI and KOSDAQ. */
  predicate MismatchedMarket(market: string) {
    market == "KOSPI" || market == "KOSDAQ"
  }

  lemma GeneratedCurrency(bar: Bar, market: string)
    requires bar.currency == G.CurrencyFor(market)
    ensures WrongCurrency(bar, market) <==> MismatchedMarket(market)
  {
    assert "USD"[0] != "KRW"[0] && "USD"[0] as int != "KRW"[0] as int + 32;
  }

  /** Trading dates a series can be generated for. */
  ghost predicate TradingDates(dates: seq<int>) {
    && |dates| <= 252
    && (forall i :: 0 <= i < |dates| ==> dates[i] >= 0)
    && (forall i, j :: 0 <= i < j < |dates| ==> dates[i] <= dates[j])
  }

  lemma SeriesDates(seed: nat, market: string, adjusted: bool, dates: seq<int>)
    requires TradingDates(dates)
    ensures var series := G.Series(seed, market, adjusted, dates);
            Dated(series) && forall i :: 0 <= i < |series| ==> series[i].date == dates[i]
  {
  }

  lemma SeriesInOrder(series: seq<G.Bar>, dates: seq<int>, symbol: string, market: string)
    requires TradingDates(dates) && |series| == |dates| && Dated(series)
    requires forall i :: 0 <= i < |series| ==> series[i].date == dates[i]
    ensures var bars := DeliveredAll(series, symbol, market);
            CompleteAndOrdered(bars) && forall i :: 0 <= i < |bars| ==> DayOf(bars[i].timestamp) == dates[i]
  {
  }

  lemma SeriesSmooth(seed: nat, symbol: string, market: string, adjusted: bool, dates: seq<int>)
    requires TradingDates(dates) && Dated(G.Series(seed, market, adjusted, dates))
    ensures Smooth(DeliveredAll(G.Series(seed, market, adjusted, dates), symbol, market))
  {
    G.SeriesIsBounded(seed, market, adjusted, dates);
    var series := G.Series(seed, market, adjusted, dates);
    var bars := DeliveredAll(series, symbol, market);
    forall i | 0 < i < |bars| ensures !Jumps(bars[i].close.value, bars[i - 1].close) {
      assert G.PreviousClose(seed, series[..i]) == series[i - 1].close;
      G.StepFacts(seed, series[i - 1], i - 1, dates[i - 1], G.PreviousClose(seed, series[..i - 1]));
      StepIsSmall(seed, series[i], i, dates[i], series[i - 1].close);
      SmallMoveIsNoOutlier(series[i].close, series[i - 1].close);
    }
  }

  lemma StepIsSmall(seed: nat, bar: G.Bar, index: nat, date: int, previous: int)
    requires G.WalkStep(seed, bar, index, date, previous)
    ensures previous - 800 <= bar.close <= previous + 798
  {
  }

  lemma {:induction false} CurrenciesUniform(seed: nat, market: string, adjusted: bool, dates: seq<int>)
    ensures forall i :: 0 <= i < |dates| ==>
      G.Series(seed, market, adjusted, dates)[i].currency == G.CurrencyFor(market)
  {
    if dates != [] {
      CurrenciesUniform(seed, market, adjusted, dates[..|dates| - 1]);
    }
  }

  lemma OrderedScan(bars: seq<Bar>, market: string, today: nat)
    requires CompleteAndOrdered(bars)
    ensures var s := ScanAll(bars, market, today);
            && Validate(bars, market, today)
               == Validation(s.valid, |s.dropped|, s.warnings, StatusFor(|s.dropped|, s.warnings), s.reasons)
            && s.valid == bars[..Arrived(bars, today)]
            && |s.dropped| == |bars| - Arrived(bars, today)
            && s.warnings == CountMismatches(s.valid, market) + CountOutliers(s.valid)
  {
    SortKeepsSorted(bars, TimeLe);
    ScanKeepsBooks(bars, market, today);
    KeepsPrefix(bars, today);
    var s := ScanAll(bars, market, today);
    assert |multiset(s.valid) + multiset(s.dropped)| == |bars|;
  }

  /** Complete, ordered, smooth bars with one currency: kept as far as they have arrived, and warned about only
      for that currency. */
  lemma SmoothBarsValidate(bars: seq<Bar>, market: string, today: nat, mismatch: bool)
    requires CompleteAndOrdered(bars) && Smooth(bars)
    requires forall i :: 0 <= i < |bars| ==> WrongCurrency(bars[i], market) == mismatch
    ensures var v := Validate(bars, market, today);
            && v.valid == bars[..Arrived(bars, today)]
            && v.dropped == |bars| - Arrived(bars, today)
            && v.warnings == (if mismatch then |v.valid| else 0)
            && v.status == StatusFor(v.dropped, v.warnings)
  {
    OrderedScan(bars, market, today);
    var kept := bars[..Arrived(bars, today)];
    SmoothPrefix(bars, Arrived(bars, today));
    SmoothHasNoOutliers(kept);
    AllMismatch(kept, market, mismatch);
  }

  lemma SmoothPrefix(bars: seq<Bar>, n: nat)
    requires Smooth(bars) && n <= |bars|
    ensures Smooth(bars[..n])
  {
  }

  /** What validation makes of a series generated for any trading dates: it keeps exactly the bars that are not in
      the future, and warns about none of them, except that for KOSPI and KOSDAQ it warns about the currency of
      every one. */
  lemma SeriesValidates(seed: nat, symbol: string, market: string, adjusted: bool, dates: seq<int>, today: nat)
    requires TradingDates(dates)
    ensures Dated(G.Series(seed, market, adjusted, dates))
    ensures var bars := DeliveredAll(G.Series(seed, market, adjusted, dates), symbol, market);
            var v := Validate(bars, market, today);
            && v.valid == bars[..Arrived(bars, today)]
            && v.dropped == |bars| - Arrived(bars, today)
            && v.warnings == (if MismatchedMarket(market) then |v.valid| else 0)
            && (bars != [] ==>
                  (v.status == VALID <==> today >= dates[|dates| - 1] && !MismatchedMarket(market)))
  {
    SeriesDates(seed, market, adjusted, dates);
    var series := G.Series(seed, market, adjusted, dates);
    var bars := DeliveredAll(series, symbol, market);
    SeriesInOrder(series, dates, symbol, market);
    SeriesSmooth(seed, symbol, market, adjusted, dates);
    CurrenciesUniform(seed, market, adjusted, dates);
    forall i | 0 <= i < |bars| ensures WrongCurrency(bars[i], market) == MismatchedMarket(market) {
      GeneratedCurrency(bars[i], market);
    }
    SmoothBarsValidate(bars, market, today, MismatchedMarket(market));
    if bars != [] {
      ArrivedLast(bars, today);
    }
  }

  /** All bars have arrived exactly when the last one has. */
  lemma ArrivedLast(bars: seq<Bar>, today: nat)
    requires CompleteAndOrdered(bars) && bars != []
    ensures Arrived(bars, today) == |bars| <==> DayOf(bars[|bars| - 1].timestamp) <= today
  {
  }

  lemma SeriesDatesAreTradingDates(range: string)
    ensures var dates := G.BusinessDays(G.SERIES_END, G.RangeCount(range));
            TradingDates(dates) && dates != [] && dates[|dates| - 1] == G.SERIES_END
  {
    var count := G.RangeCount(range);
    assert 0 < count <= 252;
    G.BusinessDaysAreConsecutive(G.SERIES_END, count);
    DatesNotFarBack(G.SERIES_END, count);
    assert G.BusinessDay(G.SERIES_END);
  }

  /** So for every seed, market and range the provider's own series is judged VALID exactly when its end date has
      arrived and the market is not KOSPI or KOSDAQ; from the end date on nothing is dropped. */
  lemma GeneratedSeriesIsValidWhen(seed: nat, symbol: string, market: string, range: string, adjusted: bool, today: nat)
    ensures var series := G.DailyBars(seed, market, range, adjusted);
            && Dated(series)
            && var v := Validate(DeliveredAll(series, symbol, market), market, today);
               && (v.status == VALID <==> today >= G.SERIES_END && !MismatchedMarket(market))
               && (v.dropped == 0 <==> today >= G.SERIES_END)
               && v.warnings == (if MismatchedMarket(market) then |v.valid| else 0)
  {
    var dates := G.BusinessDays(G.SERIES_END, G.RangeCount(range));
    SeriesDatesAreTradingDates(range);
    SeriesValidates(seed, symbol, market, adjusted, dates, today);
    SeriesDates(seed, market, adjusted, dates);
    var series := G.Series(seed, market, adjusted, dates);
    SeriesInOrder(series, dates, symbol, market);
    ArrivedLast(DeliveredAll(series, symbol, market), today);
  }
}
