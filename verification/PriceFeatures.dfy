/** Windowed price features, and the amount of history they need. */
module PriceFeatures {
  import opened Common
  import opened Sorting
  import opened PriceTable

  const HIGH_WINDOW := 252
  const VOLUME_WINDOW := 20

  /** How many bars the context builder asks for. */
  const PRICE_BAR_LIMIT := 252

  datatype FeatureSet = FeatureSet(
    return1d: Option<real>,
    return5d: Option<real>,
    return20d: Option<real>,
    volumeRatio: Option<real>,
    drawdown: Option<real>)

  function CloseOf(row: Row): real {
    row.values.close
  }

  function ReturnOver(bars: seq<Row>, lookback: nat): Option<real> {
    if |bars| < lookback + 1 then None
    else
      var latest, baseline := CloseOf(bars[|bars| - 1]), CloseOf(bars[|bars| - 1 - lookback]);
      if baseline == 0.0 then None else Some((latest - baseline) / baseline)
  }

  function SumVolumes(bars: seq<Row>): int {
    if bars == [] then 0 else SumVolumes(bars[..|bars| - 1]) + bars[|bars| - 1].values.volume
  }

  function VolumeRatio(bars: seq<Row>): Option<real> {
    if |bars| < VOLUME_WINDOW then None
    else
      var average := SumVolumes(LastRows(bars, VOLUME_WINDOW)) as real / VOLUME_WINDOW as real;
      if average == 0.0 then None else Some(bars[|bars| - 1].values.volume as real / average)
  }

  function MaxHigh(bars: seq<Row>): real
    requires bars != []
  {
    var last := bars[|bars| - 1].values.high;
    if |bars| == 1 then last
    else
      var rest := MaxHigh(bars[..|bars| - 1]);
      if last > rest then last else rest
  }

  function Drawdown(bars: seq<Row>): Option<real> {
    if bars == [] then None
    else
      var high := MaxHigh(LastRows(bars, HIGH_WINDOW));
      if high == 0.0 then None else Some((CloseOf(bars[|bars| - 1]) - high) / high)
  }

  function FeaturesOfSorted(bars: seq<Row>): FeatureSet {
    FeatureSet(ReturnOver(bars, 1), ReturnOver(bars, 5), ReturnOver(bars, 20), VolumeRatio(bars), Drawdown(bars))
  }

  function Build(bars: seq<Row>): FeatureSet {
    FeaturesOfSorted(Sort(bars, OlderFirst))
  }

  // ----- Truncated history suffices -----

  /** The features look at the last 252 rows and no further. */
  lemma FeaturesNeedOnlyLast(bars: seq<Row>, n: nat)
    requires n >= HIGH_WINDOW
    ensures FeaturesOfSorted(LastRows(bars, n)) == FeaturesOfSorted(bars)
  {
    ReturnNeedsOnlyLast(bars, n, 1);
    ReturnNeedsOnlyLast(bars, n, 5);
    ReturnNeedsOnlyLast(bars, n, 20);
    RatioNeedsOnlyLast(bars, n);
    DrawdownNeedsOnlyLast(bars, n);
  }

  lemma ReturnNeedsOnlyLast(bars: seq<Row>, n: nat, lookback: nat)
    requires n > lookback
    ensures ReturnOver(LastRows(bars, n), lookback) == ReturnOver(bars, lookback)
  {
  }

  lemma RatioNeedsOnlyLast(bars: seq<Row>, n: nat)
    requires n >= VOLUME_WINDOW
    ensures VolumeRatio(LastRows(bars, n)) == VolumeRatio(bars)
  {
    LastOfLast(bars, n, VOLUME_WINDOW);
  }

  lemma DrawdownNeedsOnlyLast(bars: seq<Row>, n: nat)
    requires n >= HIGH_WINDOW
    ensures Drawdown(LastRows(bars, n)) == Drawdown(bars)
  {
    LastOfLast(bars, n, HIGH_WINDOW);
  }

  lemma LastOfLast(bars: seq<Row>, n: nat, w: nat)
    requires w <= n
    ensures LastRows(LastRows(bars, n), w) == LastRows(bars, w)
  {
  }

  /** Truncated history suffices: from a table with unique keys, and for any limit of at least 252, the features
      built from the latest rows equal those built from all stored rows of that symbol, in any order. */
  lemma RecentHistorySuffices(
    rows: seq<Row>, symbol: string, market: string, interval: string, limit: nat, shuffled: seq<Row>)
    requires UniqueKeys(rows) && limit >= PRICE_BAR_LIMIT
    requires multiset(shuffled) == multiset(Matching(rows, symbol, market, interval))
    ensures Build(Recent(Matching(rows, symbol, market, interval), limit)) == Build(shuffled)
  {
    var all := Matching(rows, symbol, market, interval);
    MatchingDistinct(rows, symbol, market, interval);
    RecentIsLatest(all, limit);
    SortedDistinct(all);
    LastOfSorted(Sort(all, OlderFirst), limit);
    FeaturesNeedOnlyLast(Sort(all, OlderFirst), limit);
    OlderOrder();
    DistinctNoTies(all);
    SortIgnoresOrder(all, shuffled, OlderFirst);
  }

  lemma LastOfSorted(sorted: seq<Row>, limit: nat)
    requires SortedBy(sorted, OlderFirst)
    ensures Sort(LastRows(sorted, limit), OlderFirst) == LastRows(sorted, limit)
  {
    var recent := LastRows(sorted, limit);
    forall i, j | 0 <= i < j < |recent| ensures OlderFirst(recent[i], recent[j]) {
      var shift := |sorted| - |recent|;
      assert recent[i] == sorted[shift + i] && recent[j] == sorted[shift + j];
    }
    SortKeepsSorted(recent, OlderFirst);
  }

  // ----- No smaller limit suffices -----

  /** `days` days at 1.00, the first of which touched 2.00. */
  function SpikeHistory(days: nat): (rows: seq<Row>)
    ensures |rows| == days
    ensures forall i :: 0 <= i < days ==> rows[i].key.timestamp == i && CloseOf(rows[i]) == 1.0
    ensures forall i :: 0 < i < days ==> rows[i].values.high == 1.0
    ensures days > 0 ==> rows[0].values.high == 2.0
  {
    if days == 0 then []
    else
      SpikeHistory(days - 1) + [Row(
        Key("S", "M", "1d", days - 1), Values(1.0, if days == 1 then 2.0 else 1.0, 1.0, 1.0, 1.0, 1, "USD", "demo"))]
  }

  lemma {:induction false} FlatMax(bars: seq<Row>)
    requires bars != [] && forall i :: 0 < i < |bars| ==> bars[i].values.high == 1.0
    requires bars[0].values.high >= 1.0
    ensures MaxHigh(bars) == bars[0].values.high
  {
    if |bars| > 1 {
      FlatMax(bars[..|bars| - 1]);
    }
  }

  lemma FlatDrawdown(bars: seq<Row>, high: real)
    requires 0 < |bars| <= HIGH_WINDOW && CloseOf(bars[|bars| - 1]) == 1.0
    requires forall i :: 0 < i < |bars| ==> bars[i].values.high == 1.0
    requires bars[0].values.high == high && high >= 1.0
    ensures Drawdown(bars) == Some((1.0 - high) / high)
  {
    FlatMax(bars);
  }

  lemma SpikeInOrder(days: nat, limit: nat)
    ensures UniqueKeys(SpikeHistory(days)) && DistinctTimes(SpikeHistory(days))
    ensures var recent := LastRows(SpikeHistory(days), limit);
            SortedBy(recent, OlderFirst) && Recent(SpikeHistory(days), limit) == recent
  {
    InOrder(SpikeHistory(days), limit);
  }

  lemma InOrder(all: seq<Row>, limit: nat)
    requires forall i :: 0 <= i < |all| ==> all[i].key.timestamp == i
    ensures UniqueKeys(all) && DistinctTimes(all)
    ensures SortedBy(LastRows(all, limit), OlderFirst) && Recent(all, limit) == LastRows(all, limit)
  {
    forall i, j | 0 <= i < j < |all| ensures all[i].key != all[j].key && all[i].key.timestamp != all[j].key.timestamp {}
    assert SortedBy(all, OlderFirst);
    SortKeepsSorted(all, OlderFirst);
    RecentIsLatest(all, limit);
  }

  lemma BuildOfSorted(rows: seq<Row>)
    requires SortedBy(rows, OlderFirst)
    ensures Build(rows).drawdown == Drawdown(rows)
  {
    SortKeepsSorted(rows, OlderFirst);
  }

  /** 252 is the least limit that suffices: below it the drawdown can miss the high. */
  lemma ShorterHistoryMisleads(limit: nat, days: nat)
    requires limit < days == PRICE_BAR_LIMIT
    ensures UniqueKeys(SpikeHistory(days))
    ensures Build(Recent(SpikeHistory(days), limit)) != Build(SpikeHistory(days))
  {
    var all := SpikeHistory(days);
    SpikeInOrder(days, limit);
    SpikeInOrder(days, days);
    BuildOfSorted(LastRows(all, limit));
    BuildOfSorted(all);
    SpikeMissed(all, limit);
    DrawdownsTell(LastRows(all, limit), all);
  }

  lemma DrawdownsTell(a: seq<Row>, b: seq<Row>)
    requires Build(a).drawdown != Build(b).drawdown
    ensures Build(a) != Build(b)
  {
  }

  lemma SpikeMissed(all: seq<Row>, limit: nat)
    requires limit < |all| == HIGH_WINDOW
    requires forall i :: 0 <= i < |all| ==> CloseOf(all[i]) == 1.0
    requires forall i :: 0 < i < |all| ==> all[i].values.high == 1.0
    requires all[0].values.high == 2.0
    ensures Drawdown(LastRows(all, limit)) != Drawdown(all)
  {
    FlatDrawdown(all, 2.0);
    if limit > 0 {
      FlatDrawdown(LastRows(all, limit), 1.0);
    }
  }

  // ----- Ranges -----

  lemma {:induction false} VolumesSum(bars: seq<Row>)
    requires forall i :: 0 <= i < |bars| ==> bars[i].values.volume >= 0
    ensures SumVolumes(bars) >= 0
    ensures bars != [] ==> SumVolumes(bars) >= bars[|bars| - 1].values.volume
  {
    if bars != [] {
      VolumesSum(bars[..|bars| - 1]);
    }
  }

  lemma {:induction false} MaxHighBounds(bars: seq<Row>, i: nat)
    requires i < |bars|
    ensures bars[i].values.high <= MaxHigh(bars)
  {
    if |bars| > 1 && i < |bars| - 1 {
      MaxHighBounds(bars[..|bars| - 1], i);
    }
  }

  lemma RatioWithin(part: real, whole: real, factor: real)
    requires 0.0 <= part <= whole * factor && whole > 0.0
    ensures 0.0 <= part / whole <= factor
  {
  }

  /** With non-negative volumes the volume ratio lies between 0 and 20, and with 0 <= close <= high the drawdown
      between -1 and 0. */
  lemma FeatureRanges(rows: seq<Row>)
    requires forall i :: 0 <= i < |rows| ==> Sensible(rows[i])
    ensures Build(rows).volumeRatio.Some? ==> 0.0 <= Build(rows).volumeRatio.value <= 20.0
    ensures Build(rows).drawdown.Some? ==> -1.0 <= Build(rows).drawdown.value <= 0.0
  {
    var bars := Sort(rows, OlderFirst);
    forall i | 0 <= i < |bars| ensures Sensible(bars[i]) {
      SortMembers(rows, OlderFirst, bars[i]);
    }
    SortedRanges(bars);
  }

  predicate Sensible(row: Row) {
    row.values.volume >= 0 && 0.0 <= CloseOf(row) <= row.values.high
  }

  lemma SortedRanges(bars: seq<Row>)
    requires forall i :: 0 <= i < |bars| ==> Sensible(bars[i])
    ensures VolumeRatio(bars).Some? ==> 0.0 <= VolumeRatio(bars).value <= 20.0
    ensures Drawdown(bars).Some? ==> -1.0 <= Drawdown(bars).value <= 0.0
  {
    if VolumeRatio(bars).Some? {
      var window := LastRows(bars, VOLUME_WINDOW);
      VolumesSum(window);
      var average := SumVolumes(window) as real / 20.0;
      RatioWithin(bars[|bars| - 1].values.volume as real, average, 20.0);
    }
    if Drawdown(bars).Some? {
      var window := LastRows(bars, HIGH_WINDOW);
      MaxHighBounds(window, |window| - 1);
      DrawdownWithin(CloseOf(bars[|bars| - 1]), MaxHigh(window));
    }
  }

  lemma DrawdownWithin(close: real, high: real)
    requires 0.0 <= close <= high && high != 0.0
    ensures -1.0 <= (close - high) / high <= 0.0
  {
  }

  // ----- What the features are -----

  /** The bars newer than an instant. */
  function NewerThan(rows: seq<Row>, instant: int): set<Row> {
    set row | row in rows && row.key.timestamp > instant
  }

  /** The bar has exactly `k` newer ones. */
  predicate Nth(rows: seq<Row>, k: nat, row: Row) {
    row in rows && |NewerThan(rows, row.key.timestamp)| == k
  }

  /** The bar is one of the `n` newest. */
  predicate AmongLast(rows: seq<Row>, n: nat, row: Row) {
    row in rows && |NewerThan(rows, row.key.timestamp)| < n
  }

  /** The change takes `base` to `value`; there is none from zero. */
  predicate Leads(base: real, change: Option<real>, value: real) {
    if base == 0.0 then change.None? else change.Some? && base * (1.0 + change.value) == value
  }

  /** The return over `k` bars takes the close of the bar with exactly `k` newer ones to the newest close; there is none
      without such a bar, or from a close of zero. */
  ghost predicate ReturnFits(rows: seq<Row>, k: nat, r: Option<real>) {
    if |rows| <= k then r.None?
    else exists newest, base ::
      && Nth(rows, 0, newest)
      && Nth(rows, k, base)
      && Leads(base.values.close, r, newest.values.close)
  }

  function Total(rows: seq<Row>): int {
    if rows == [] then 0 else rows[0].values.volume + Total(rows[1..])
  }

  /** The ratio puts the newest volume in proportion to the mean of the 20 newest; there is none of fewer bars or of no
      volume. */
  ghost predicate RatioFits(rows: seq<Row>, r: Option<real>) {
    if |rows| < 20 then r.None?
    else exists window: seq<Row> ::
      && |window| == 20
      && (forall i :: 0 <= i < 20 ==> Nth(rows, 19 - i, window[i]))
      && InProportion(window[19].values.volume as real, r, Total(window) as real)
  }

  /** The volume is `ratio` times a twentieth of the total; there is none of a total of zero. */
  predicate InProportion(volume: real, ratio: Option<real>, total: real) {
    if total == 0.0 then ratio.None? else ratio.Some? && ratio.value * total == 20.0 * volume
  }

  /** The drawdown takes the greatest high of the 252 newest bars to the newest close. */
  ghost predicate DrawdownFits(rows: seq<Row>, d: Option<real>) {
    if rows == [] then d.None?
    else exists newest, top ::
      && Nth(rows, 0, newest)
      && AmongLast(rows, 252, top)
      && (forall row :: AmongLast(rows, 252, row) ==> row.values.high <= top.values.high)
      && Leads(top.values.high, d, newest.values.close)
  }

  /** In order of time, the bar at `i` has those after it for newer ones. */
  lemma {:induction false} RankInOrder(sorted: seq<Row>, i: nat)
    requires Strict(sorted) && i < |sorted|
    ensures |NewerThan(sorted, sorted[i].key.timestamp)| == |sorted| - 1 - i
    decreases |sorted| - i
  {
    var newer := NewerThan(sorted, sorted[i].key.timestamp);
    if i == |sorted| - 1 {
      assert newer == {};
    } else {
      RankInOrder(sorted, i + 1);
      assert newer == NewerThan(sorted, sorted[i + 1].key.timestamp) + {sorted[i + 1]};
    }
  }

  lemma SameRanks(rows: seq<Row>, sorted: seq<Row>, i: nat)
    requires Strict(sorted) && i < |sorted| && forall row :: row in sorted <==> row in rows
    ensures Nth(rows, |sorted| - 1 - i, sorted[i])
  {
    RankInOrder(sorted, i);
    assert NewerThan(rows, sorted[i].key.timestamp) == NewerThan(sorted, sorted[i].key.timestamp);
  }

  lemma ReturnIsExact(rows: seq<Row>, sorted: seq<Row>, k: nat)
    requires Strict(sorted) && |sorted| == |rows| && forall row :: row in sorted <==> row in rows
    ensures ReturnFits(rows, k, ReturnOver(sorted, k))
  {
    if |rows| > k {
      var last := |sorted| - 1;
      SameRanks(rows, sorted, last);
      SameRanks(rows, sorted, last - k);
      ReturnLeads(sorted, k);
    }
  }

  lemma ReturnLeads(sorted: seq<Row>, k: nat)
    requires |sorted| > k
    ensures Leads(sorted[|sorted| - 1 - k].values.close, ReturnOver(sorted, k), sorted[|sorted| - 1].values.close)
  {
    if sorted[|sorted| - 1 - k].values.close != 0.0 {
      QuotientBack(sorted[|sorted| - 1 - k].values.close, sorted[|sorted| - 1].values.close);
    }
  }

  lemma QuotientBack(base: real, value: real)
    requires base != 0.0
    ensures base * (1.0 + (value - base) / base) == value
  {
  }

  lemma {:induction false} TotalSnoc(rows: seq<Row>, row: Row)
    ensures Total(rows + [row]) == Total(rows) + row.values.volume
  {
    if rows == [] {
      assert rows + [row] == [row];
    } else {
      TotalSnoc(rows[1..], row);
      assert (rows + [row])[1..] == rows[1..] + [row];
    }
  }

  lemma {:induction false} TotalIsSum(rows: seq<Row>)
    ensures Total(rows) == SumVolumes(rows)
  {
    if rows != [] {
      var n := |rows| - 1;
      TotalIsSum(rows[..n]);
      TotalSnoc(rows[..n], rows[n]);
      assert rows == rows[..n] + [rows[n]];
    }
  }

  lemma RatioBack(volume: real, total: real)
    requires total != 0.0
    ensures total / 20.0 != 0.0 && (volume / (total / 20.0)) * total == 20.0 * volume
  {
  }

  lemma RatioIsExact(rows: seq<Row>, sorted: seq<Row>)
    requires Strict(sorted) && |sorted| == |rows| && forall row :: row in sorted <==> row in rows
    ensures RatioFits(rows, VolumeRatio(sorted))
  {
    if |rows| >= 20 {
      var window := LastRows(sorted, 20);
      forall i | 0 <= i < 20 ensures Nth(rows, 19 - i, window[i]) {
        SameRanks(rows, sorted, |sorted| - 20 + i);
      }
      RatioProportions(sorted);
    }
  }

  lemma RatioProportions(sorted: seq<Row>)
    requires |sorted| >= 20
    ensures var window := LastRows(sorted, 20);
            InProportion(window[19].values.volume as real, VolumeRatio(sorted), Total(window) as real)
  {
    var window := LastRows(sorted, 20);
    TotalIsSum(window);
    if Total(window) != 0 {
      RatioBack(window[19].values.volume as real, Total(window) as real);
    }
  }

  lemma {:induction false} HighAttained(bars: seq<Row>)
    requires bars != []
    ensures exists i :: 0 <= i < |bars| && bars[i].values.high == MaxHigh(bars)
  {
    var n := |bars| - 1;
    if n > 0 && bars[n].values.high <= MaxHigh(bars[..n]) {
      HighAttained(bars[..n]);
      var i :| 0 <= i < n && bars[..n][i].values.high == MaxHigh(bars[..n]);
      assert bars[i].values.high == MaxHigh(bars);
    } else {
      assert bars[n].values.high == MaxHigh(bars);
    }
  }

  lemma WindowIsLast(rows: seq<Row>, sorted: seq<Row>, row: Row)
    requires Strict(sorted) && |sorted| == |rows| && forall row :: row in sorted <==> row in rows
    ensures AmongLast(rows, 252, row) <==> row in LastRows(sorted, 252)
  {
    var window := LastRows(sorted, 252);
    if row in rows {
      var i :| 0 <= i < |sorted| && sorted[i] == row;
      SameRanks(rows, sorted, i);
      if |sorted| - 1 - i < 252 {
        assert row == window[i - (|sorted| - |window|)];
      }
    }
  }

  /** The highest bar of the window. */
  lemma HighestOf(window: seq<Row>) returns (top: Row)
    requires window != []
    ensures top in window && top.values.high == MaxHigh(window)
    ensures forall row :: row in window ==> row.values.high <= top.values.high
  {
    HighAttained(window);
    var i :| 0 <= i < |window| && window[i].values.high == MaxHigh(window);
    top := window[i];
    forall row | row in window ensures row.values.high <= top.values.high {
      var j :| 0 <= j < |window| && window[j] == row;
      MaxHighBounds(window, j);
    }
  }

  lemma DrawdownIsExact(rows: seq<Row>, sorted: seq<Row>)
    requires Strict(sorted) && |sorted| == |rows| && forall row :: row in sorted <==> row in rows
    ensures DrawdownFits(rows, Drawdown(sorted))
  {
    if rows != [] {
      var newest := sorted[|sorted| - 1];
      var top := HighestOf(LastRows(sorted, 252));
      SameRanks(rows, sorted, |sorted| - 1);
      forall row ensures AmongLast(rows, 252, row) <==> row in LastRows(sorted, 252) {
        WindowIsLast(rows, sorted, row);
      }
      DrawdownLeads(sorted);
    }
  }

  lemma DrawdownLeads(sorted: seq<Row>)
    requires sorted != []
    ensures Leads(MaxHigh(LastRows(sorted, 252)), Drawdown(sorted), sorted[|sorted| - 1].values.close)
  {
    if MaxHigh(LastRows(sorted, 252)) != 0.0 {
      QuotientBack(MaxHigh(LastRows(sorted, 252)), sorted[|sorted| - 1].values.close);
    }
  }

  /** What each feature says of bars with distinct times, whatever their order: the three returns are over 1, 5 and 20
      bars, the ratio is over 20 and the drawdown over 252. */
  lemma FeaturesAreExact(rows: seq<Row>)
    requires DistinctTimes(rows)
    ensures var f := Build(rows);
            && ReturnFits(rows, 1, f.return1d)
            && ReturnFits(rows, 5, f.return5d)
            && ReturnFits(rows, 20, f.return20d)
            && RatioFits(rows, f.volumeRatio)
            && DrawdownFits(rows, f.drawdown)
  {
    var sorted := Sort(rows, OlderFirst);
    SortedStrictly(rows);
    ReturnIsExact(rows, sorted, 1);
    ReturnIsExact(rows, sorted, 5);
    ReturnIsExact(rows, sorted, 20);
    RatioIsExact(rows, sorted);
    DrawdownIsExact(rows, sorted);
  }
}
