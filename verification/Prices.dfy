/** Price bars: validation, the price table with its upsert, and the history query. */
module Prices {
  import opened Common
  import opened Sorting

  /** A bar as a provider delivers it: any price may be missing. Timestamps are UTC seconds. */
  datatype Bar = Bar(
    symbol: string,
    market: string,
    interval: string,
    timestamp: nat,
    open: Option<real>,
    high: Option<real>,
    low: Option<real>,
    close: Option<real>,
    adjustedClose: Option<real>,
    volume: int,
    currency: string,
    source: string)

  datatype Reason = MISSING_REQUIRED_FIELD | FUTURE_TIMESTAMP | CURRENCY_MISMATCH | OUTLIER_RETURN

  datatype Quality = VALID | LOW_TRUST | INVALID

  const OUTLIER_THRESHOLD := 0.5

  function ExpectedCurrency(market: string): Option<string> {
    if market == "KOSPI" || market == "KOSDAQ" then Some("KRW")
    else if market == "NASDAQ" || market == "NYSE" then Some("USD")
    else None
  }

  /** Upper case, for the ASCII letters currency codes are made of. */
  function Upper(text: string): string {
    seq(|text|, i requires 0 <= i < |text| =>
      if 'a' <= text[i] <= 'z' then ((text[i] - 'a') + 'A') else text[i])
  }

  predicate TimeLe(a: Bar, b: Bar) {
    a.timestamp <= b.timestamp
  }

  predicate MissingPrice(bar: Bar) {
    bar.open.None? || bar.high.None? || bar.low.None? || bar.close.None? || bar.adjustedClose.None?
  }

  predicate CurrencyMismatch(bar: Bar, market: string) {
    ExpectedCurrency(market).Some? && Upper(bar.currency) != ExpectedCurrency(market).value
  }

  predicate Outlier(close: real, previousClose: Option<real>) {
    && previousClose.Some?
    && previousClose.value != 0.0
    && var rate := (close - previousClose.value) / previousClose.value;
       rate > OUTLIER_THRESHOLD || -rate > OUTLIER_THRESHOLD
  }

  /** What the validation loop carries along; `dropped` lists the bars it left out. */
  datatype Scan = Scan(
    valid: seq<Bar>, dropped: seq<Bar>, warnings: nat, reasons: seq<Reason>, previousClose: Option<real>)

  function ScanBar(s: Scan, bar: Bar, market: string, today: nat): Scan {
    if MissingPrice(bar) then
      s.(dropped := s.dropped + [bar], reasons := s.reasons + [MISSING_REQUIRED_FIELD])
    else if DayOf(bar.timestamp) > today then
      s.(dropped := s.dropped + [bar], reasons := s.reasons + [FUTURE_TIMESTAMP])
    else
      var currency := if CurrencyMismatch(bar, market) then [CURRENCY_MISMATCH] else [];
      var outlier := if Outlier(bar.close.value, s.previousClose) then [OUTLIER_RETURN] else [];
      Scan(s.valid + [bar], s.dropped, s.warnings + |currency| + |outlier|, s.reasons + currency + outlier, bar.close)
  }

  const EMPTY_SCAN := Scan([], [], 0, [], None)

  function ScanAll(bars: seq<Bar>, market: string, today: nat): Scan {
    if bars == [] then EMPTY_SCAN
    else ScanBar(ScanAll(bars[..|bars| - 1], market, today), bars[|bars| - 1], market, today)
  }

  datatype Validation = Validation(valid: seq<Bar>, dropped: nat, warnings: nat, status: Quality, reasons: seq<Reason>)

  function StatusFor(dropped: nat, warnings: nat): Quality {
    if dropped > 0 then INVALID else if warnings > 0 then LOW_TRUST else VALID
  }

  function Validate(bars: seq<Bar>, market: string, today: nat): Validation {
    var s := ScanAll(Sort(bars, TimeLe), market, today);
    Validation(s.valid, |s.dropped|, s.warnings, StatusFor(|s.dropped|, s.warnings), s.reasons)
  }

  method ValidateBars(bars: seq<Bar>, market: string, today: nat) returns (v: Validation)
    ensures v == Validate(bars, market, today)
  {
    var scan := EMPTY_SCAN;
    var sorted := Sort(bars, TimeLe);
    for i := 0 to |sorted|
      invariant scan == ScanAll(sorted[..i], market, today)
    {
      assert sorted[..i + 1][..i] == sorted[..i];
      scan := ValidateBar(scan, sorted[i], market, today);
    }
    assert sorted[..|sorted|] == sorted;
    v := Validation(
      scan.valid, |scan.dropped|, scan.warnings, StatusFor(|scan.dropped|, scan.warnings), scan.reasons);
  }

  /** The body of the validation loop. */
  method ValidateBar(before: Scan, bar: Bar, market: string, today: nat) returns (after: Scan)
    ensures after == ScanBar(before, bar, market, today)
  {
    if MissingPrice(bar) {
      return before.(dropped := before.dropped + [bar], reasons := before.reasons + [MISSING_REQUIRED_FIELD]);
    }
    if DayOf(bar.timestamp) > today {
      return before.(dropped := before.dropped + [bar], reasons := before.reasons + [FUTURE_TIMESTAMP]);
    }
    var warnings, reasons := before.warnings, before.reasons;
    if CurrencyMismatch(bar, market) {
      warnings := warnings + 1;
      reasons := reasons + [CURRENCY_MISMATCH];
    }
    if before.previousClose.Some? && before.previousClose.value != 0.0 {
      var rate := (bar.close.value - before.previousClose.value) / before.previousClose.value;
      if (if rate < 0.0 then -rate else rate) > OUTLIER_THRESHOLD {
        warnings := warnings + 1;
        reasons := reasons + [OUTLIER_RETURN];
      }
    }
    after := Scan(before.valid + [bar], before.dropped, warnings, reasons, bar.close);
  }

  // ----- The validation ledger -----

  lemma TimeOrder()
    ensures TotalPreorder(TimeLe)
  {
  }

  /** A bar that validation keeps on `today` (a day number): all five prices are there, and its day has come. */
  predicate Keeps(bar: Bar, today: nat) {
    !Lacking(bar) && bar.timestamp / 86400 <= today
  }

  predicate Lacking(bar: Bar) {
    !(bar.open.Some? && bar.high.Some? && bar.low.Some? && bar.close.Some? && bar.adjustedClose.Some?)
  }

  /** The text is the code, in capitals or not. */
  predicate Spells(text: string, code: string) {
    && |text| == |code|
    && (forall i :: 0 <= i < |text| ==> text[i] == code[i] || text[i] as int == code[i] as int + 32)
  }

  /** Won are expected on the two Korean markets and dollars on the two American ones. */
  predicate WrongCurrency(bar: Bar, market: string) {
    || ((market == "KOSPI" || market == "KOSDAQ") && !Spells(bar.currency, "KRW"))
    || ((market == "NASDAQ" || market == "NYSE") && !Spells(bar.currency, "USD"))
  }

  /** The close is further than half the previous one, if that is not zero, away from it. */
  predicate Jumps(close: real, previousClose: Option<real>) {
    && previousClose.Some?
    && var p := previousClose.value;
       (p > 0.0 && (close > 1.5 * p || close < 0.5 * p)) || (p < 0.0 && (close < 1.5 * p || close > 0.5 * p))
  }

  lemma UpperSpells(text: string, code: string)
    requires forall i :: 0 <= i < |code| ==> 'A' <= code[i] <= 'Z'
    ensures Upper(text) == code <==> Spells(text, code)
  {
    if Upper(text) == code {
      forall i | 0 <= i < |text| ensures text[i] == code[i] || text[i] as int == code[i] as int + 32 {
        assert Upper(text)[i] == code[i];
      }
    }
    if Spells(text, code) {
      forall i | 0 <= i < |text| ensures Upper(text)[i] == code[i] {
        assert text[i] == code[i] || text[i] as int == code[i] as int + 32;
      }
    }
  }

  lemma MismatchIsWrong(bar: Bar, market: string)
    ensures CurrencyMismatch(bar, market) <==> WrongCurrency(bar, market)
  {
    UpperSpells(bar.currency, "KRW");
    UpperSpells(bar.currency, "USD");
  }

  lemma OutlierIsJump(close: real, previousClose: Option<real>)
    ensures Outlier(close, previousClose) <==> Jumps(close, previousClose)
  {
    if previousClose.Some? && previousClose.value != 0.0 {
      var p, rate := previousClose.value, (close - previousClose.value) / previousClose.value;
      assert close - p == rate * p;
      if p > 0.0 {
        RateAgainst(close - p, rate, p);
      } else {
        RateAgainst(p - close, rate, -p);
      }
    }
  }

  lemma RateAgainst(gap: real, rate: real, p: real)
    requires p > 0.0 && gap == rate * p
    ensures rate > 0.5 <==> gap > 0.5 * p
    ensures -rate > 0.5 <==> -gap > 0.5 * p
  {
  }

  function Kept(bars: seq<Bar>, today: nat): seq<Bar> {
    if bars == [] then []
    else Kept(bars[..|bars| - 1], today) + if Keeps(bars[|bars| - 1], today) then [bars[|bars| - 1]] else []
  }

  /** Bars kept with a currency other than the market's. */
  function CountMismatches(bars: seq<Bar>, market: string): nat {
    if bars == [] then 0
    else CountMismatches(bars[..|bars| - 1], market) + if WrongCurrency(bars[|bars| - 1], market) then 1 else 0
  }

  /** Bars whose close jumps away from the one before. */
  function CountOutliers(bars: seq<Bar>): nat {
    if bars == [] then 0
    else
      var n := |bars| - 1;
      CountOutliers(bars[..n])
      + if n > 0 && bars[n].close.Some? && Jumps(bars[n].close.value, bars[n - 1].close) then 1 else 0
  }

  function CountLacking(bars: seq<Bar>): nat {
    if bars == [] then 0
    else CountLacking(bars[..|bars| - 1]) + if Lacking(bars[|bars| - 1]) then 1 else 0
  }

  /** How often each reason is given: once for each dropped bar, for each wrong currency and for each jump. */
  ghost predicate ReasonsCounted(reasons: seq<Reason>, valid: seq<Bar>, dropped: seq<Bar>, market: string) {
    var counts := multiset(reasons);
    && counts[MISSING_REQUIRED_FIELD] == CountLacking(dropped)
    && counts[FUTURE_TIMESTAMP] == |dropped| - CountLacking(dropped)
    && counts[CURRENCY_MISMATCH] == CountMismatches(valid, market)
    && counts[OUTLIER_RETURN] == CountOutliers(valid)
  }

  /** What `s` says about the bars it has scanned, described without the loop. */
  ghost predicate ScanDescribes(s: Scan, bars: seq<Bar>, market: string, today: nat) {
    Sorts(s, bars, today) && Explains(s, market)
  }

  /** Every bar is kept or dropped, as it deserves. */
  ghost predicate Sorts(s: Scan, bars: seq<Bar>, today: nat) {
    && s.valid == Kept(bars, today)
    && multiset(s.valid) + multiset(s.dropped) == multiset(bars)
    && (forall bar :: bar in s.dropped ==> !Keeps(bar, today))
    && (forall bar :: bar in s.valid ==> Keeps(bar, today))
  }

  /** One reason for each dropped bar and each warning, and a warning for each mismatch and outlier. */
  ghost predicate Explains(s: Scan, market: string) {
    && |s.reasons| == |s.dropped| + s.warnings
    && s.warnings == CountMismatches(s.valid, market) + CountOutliers(s.valid)
    && s.previousClose == (if s.valid == [] then None else s.valid[|s.valid| - 1].close)
    && ReasonsCounted(s.reasons, s.valid, s.dropped, market)
  }

  lemma CountReason(reasons: seq<Reason>, reason: Reason, other: Reason)
    ensures multiset(reasons + [reason])[other] == multiset(reasons)[other] + if other == reason then 1 else 0
  {
  }

  lemma LackingMore(dropped: seq<Bar>, bar: Bar)
    ensures CountLacking(dropped + [bar]) == CountLacking(dropped) + if Lacking(bar) then 1 else 0
  {
  }

  lemma DroppedBarDescribes(s: Scan, bars: seq<Bar>, bar: Bar, market: string, today: nat)
    requires ScanDescribes(s, bars, market, today) && !Keeps(bar, today)
    ensures ScanDescribes(
      s.(dropped := s.dropped + [bar],
         reasons := s.reasons + [if Lacking(bar) then MISSING_REQUIRED_FIELD else FUTURE_TIMESTAMP]),
      bars + [bar], market, today)
  {
    LackingMore(s.dropped, bar);
    var reason := if Lacking(bar) then MISSING_REQUIRED_FIELD else FUTURE_TIMESTAMP;
    CountReason(s.reasons, reason, MISSING_REQUIRED_FIELD);
    CountReason(s.reasons, reason, FUTURE_TIMESTAMP);
    CountReason(s.reasons, reason, CURRENCY_MISMATCH);
    CountReason(s.reasons, reason, OUTLIER_RETURN);
  }

  lemma KeptBarSorts(s: Scan, bars: seq<Bar>, bar: Bar, today: nat, after: Scan)
    requires Sorts(s, bars, today) && Keeps(bar, today)
    requires after.valid == s.valid + [bar] && after.dropped == s.dropped
    ensures Sorts(after, bars + [bar], today)
  {
  }

  /** The counts over the kept bars with one more. */
  lemma CountsMore(valid: seq<Bar>, bar: Bar, market: string)
    requires bar.close.Some?
    ensures CountMismatches(valid + [bar], market)
         == CountMismatches(valid, market) + if WrongCurrency(bar, market) then 1 else 0
    ensures var previous := if valid == [] then None else valid[|valid| - 1].close;
            CountOutliers(valid + [bar]) == CountOutliers(valid) + if Jumps(bar.close.value, previous) then 1 else 0
  {
  }

  lemma KeptBarCounts(reasons: seq<Reason>, currency: bool, outlier: bool, other: Reason)
    ensures var more := (if currency then [CURRENCY_MISMATCH] else []) + (if outlier then [OUTLIER_RETURN] else []);
            multiset(reasons + more)[other]
            == multiset(reasons)[other]
               + (if currency && other == CURRENCY_MISMATCH then 1 else 0)
               + (if outlier && other == OUTLIER_RETURN then 1 else 0)
  {
  }

  lemma KeptBarExplains(s: Scan, bar: Bar, market: string, today: nat, after: Scan, currency: bool, outlier: bool)
    requires Explains(s, market) && Keeps(bar, today)
    requires currency == WrongCurrency(bar, market) && outlier == Jumps(bar.close.value, s.previousClose)
    requires after.valid == s.valid + [bar] && after.dropped == s.dropped && after.previousClose == bar.close
    requires after.warnings == s.warnings + (if currency then 1 else 0) + (if outlier then 1 else 0)
    requires after.reasons
          == s.reasons + ((if currency then [CURRENCY_MISMATCH] else []) + (if outlier then [OUTLIER_RETURN] else []))
    ensures Explains(after, market)
  {
    CountsMore(s.valid, bar, market);
    KeptBarCounts(s.reasons, currency, outlier, MISSING_REQUIRED_FIELD);
    KeptBarCounts(s.reasons, currency, outlier, FUTURE_TIMESTAMP);
    KeptBarCounts(s.reasons, currency, outlier, CURRENCY_MISMATCH);
    KeptBarCounts(s.reasons, currency, outlier, OUTLIER_RETURN);
  }

  lemma ScanBarDescribes(s: Scan, bars: seq<Bar>, bar: Bar, market: string, today: nat)
    requires ScanDescribes(s, bars, market, today)
    ensures ScanDescribes(ScanBar(s, bar, market, today), bars + [bar], market, today)
  {
    if !Keeps(bar, today) {
      DroppedBarDescribes(s, bars, bar, market, today);
    } else {
      var after := ScanBar(s, bar, market, today);
      var currency, outlier := CurrencyMismatch(bar, market), Outlier(bar.close.value, s.previousClose);
      MismatchIsWrong(bar, market);
      OutlierIsJump(bar.close.value, s.previousClose);
      KeptBarSorts(s, bars, bar, today, after);
      assert after.reasons
          == s.reasons + ((if currency then [CURRENCY_MISMATCH] else []) + (if outlier then [OUTLIER_RETURN] else []));
      KeptBarExplains(s, bar, market, today, after, currency, outlier);
    }
  }

  /** The scan: what it keeps, what it drops, and why it warns. */
  lemma {:induction false} ScanKeepsBooks(bars: seq<Bar>, market: string, today: nat)
    ensures ScanDescribes(ScanAll(bars, market, today), bars, market, today)
  {
    if bars != [] {
      var n := |bars| - 1;
      ScanKeepsBooks(bars[..n], market, today);
      ScanBarDescribes(ScanAll(bars[..n], market, today), bars[..n], bars[n], market, today);
      assert bars == bars[..n] + [bars[n]];
    }
  }

  lemma {:induction false} KeptSorted(bars: seq<Bar>, today: nat)
    requires SortedBy(bars, TimeLe)
    ensures SortedBy(Kept(bars, today), TimeLe)
    ensures forall bar :: bar in Kept(bars, today) ==> bar in bars
  {
    if bars != [] {
      var n := |bars| - 1;
      KeptSorted(bars[..n], today);
      forall bar | bar in Kept(bars[..n], today) ensures TimeLe(bar, bars[n]) {
        var i :| 0 <= i < n && bars[..n][i] == bar;
        assert TimeLe(bars[i], bars[n]);
      }
    }
  }

  lemma {:induction false} FewWarnings(bars: seq<Bar>, market: string)
    ensures CountMismatches(bars, market) <= |bars|
    ensures CountOutliers(bars) <= if bars == [] then 0 else |bars| - 1
  {
    if bars != [] {
      FewWarnings(bars[..|bars| - 1], market);
    }
  }

  /** One validation: the kept bars are in order of time and, with the dropped ones, are the input rearranged;
      exactly the complete bars that are not in the future are kept; each dropped bar gives one reason, for a missing
      price before a future date, and each kept one a warning for a wrong currency and one for a jump of its close. */
  lemma ValidationKeepsBooks(bars: seq<Bar>, market: string, today: nat)
    ensures var v := Validate(bars, market, today);
            && SortedBy(v.valid, TimeLe)
            && (exists dropped: seq<Bar> ::
                  && |dropped| == v.dropped
                  && multiset(v.valid) + multiset(dropped) == multiset(bars)
                  && (forall bar :: bar in dropped ==> !Keeps(bar, today))
                  && ReasonsCounted(v.reasons, v.valid, dropped, market))
            && (forall bar :: bar in v.valid <==> bar in bars && Keeps(bar, today))
            && |v.valid| + v.dropped == |bars|
            && |v.reasons| == v.dropped + v.warnings
            && v.warnings == CountMismatches(v.valid, market) + CountOutliers(v.valid)
            && v.warnings <= (if v.valid == [] then 0 else 2 * |v.valid| - 1)
            && (v.status == INVALID <==> exists bar :: bar in bars && !Keeps(bar, today))
            && (v.status == VALID <==> v.reasons == [])
  {
    var sorted := Sort(bars, TimeLe);
    var s := ScanAll(sorted, market, today);
    TimeOrder();
    SortSorts(bars, TimeLe);
    SortPermutes(bars, TimeLe);
    ScanKeepsBooks(sorted, market, today);
    KeptSorted(sorted, today);
    FewWarnings(s.valid, market);
    BooksBalance(bars, s, today);
  }

  /** What of `ValidationKeepsBooks` does not concern the reasons. */
  lemma ValidationKeeps(bars: seq<Bar>, market: string, today: nat)
    ensures var v := Validate(bars, market, today);
            && (forall bar :: bar in v.valid <==> bar in bars && Keeps(bar, today))
            && |v.valid| + v.dropped == |bars|
            && (v.dropped > 0 <==> exists bar :: bar in bars && !Keeps(bar, today))
            && v.warnings == CountMismatches(v.valid, market) + CountOutliers(v.valid)
  {
    var sorted := Sort(bars, TimeLe);
    SortPermutes(bars, TimeLe);
    ScanKeepsBooks(sorted, market, today);
    BooksBalance(bars, ScanAll(sorted, market, today), today);
  }

  lemma BooksBalance(bars: seq<Bar>, s: Scan, today: nat)
    requires multiset(s.valid) + multiset(s.dropped) == multiset(bars)
    requires forall bar :: bar in s.dropped ==> !Keeps(bar, today)
    requires forall bar :: bar in s.valid ==> Keeps(bar, today)
    ensures |s.valid| + |s.dropped| == |bars|
    ensures forall bar :: bar in s.valid <==> bar in bars && Keeps(bar, today)
    ensures |s.dropped| > 0 <==> exists bar :: bar in bars && !Keeps(bar, today)
  {
    assert |multiset(s.valid) + multiset(s.dropped)| == |s.valid| + |s.dropped|;
    forall bar ensures bar in bars <==> bar in s.valid || bar in s.dropped {
      assert bar in bars <==> bar in multiset(bars);
    }
    if |s.dropped| > 0 {
      assert s.dropped[0] in bars;
    }
  }
}
