/** Portfolio arithmetic: weights, sectors, day change, risk exposures and the briefing snapshot.
    Decimals are modelled as reals. */
module Portfolio {
  import opened Common
  import opened Sorting
  import opened Text

  /** `ticker` is the upper-cased symbol quotes are looked up by. */
  datatype Asset = Asset(symbol: string, ticker: string, sector: Option<string>)

  datatype Quote = Quote(price: real, changePercent: real)

  /** The assets that exist and the quotes the market provider returned, by ticker. */
  datatype Market = Market(assets: map<nat, Asset>, quotes: map<string, Quote>)

  datatype Position = Position(assetId: nat, quantity: real, avgBuyPrice: real)

  datatype PositionWeight = PositionWeight(
    assetId: nat,
    quantity: real,
    avgBuyPrice: real,
    costValue: real,
    marketValue: real,
    costWeight: real,
    weight: real,
    exceedsThreshold: bool)

  datatype SectorWeight = SectorWeight(sector: string, marketValue: real, weight: real, exceedsThreshold: bool)

  datatype Weights = Weights(
    totalCostValue: real,
    totalValue: real,
    positions: seq<PositionWeight>,
    sectors: seq<SectorWeight>,
    dayChangeValue: real,
    dayChangePercent: real)

  datatype Level = HIGH | MEDIUM

  datatype ExposureCode = SectorConcentration(sector: string) | SingleNameConcentration(symbol: string) | CashShortage

  datatype Exposure = Exposure(code: ExposureCode, level: Level)

  datatype Summary = Summary(
    threshold: real,
    cashBalance: real,
    cashWeight: real,
    hasSectorConcentration: bool,
    weights: Weights,
    exposures: seq<Exposure>)

  const UNKNOWN := "UNKNOWN"
  const RISK_LEVEL_HIGH_MULTIPLIER := 1.5
  const CASH_FLOOR_HIGH := 0.05
  const CASH_FLOOR_MEDIUM := 0.15

  // ----- One position -----

  function QuoteOf(m: Market, p: Position): Option<Quote> {
    if p.assetId in m.assets && m.assets[p.assetId].ticker in m.quotes
    then Some(m.quotes[m.assets[p.assetId].ticker])
    else None
  }

  function PriceOf(m: Market, p: Position): real {
    match QuoteOf(m, p)
    case None => 0.0
    case Some(quote) => quote.price
  }

  function ChangeOf(m: Market, p: Position): real {
    match QuoteOf(m, p)
    case None => 0.0
    case Some(quote) => quote.changePercent
  }

  /** An asset without a sector, or with an empty one, counts as unknown; so does a missing asset. */
  function SectorOf(m: Market, p: Position): string {
    if p.assetId in m.assets && m.assets[p.assetId].sector.Some? && m.assets[p.assetId].sector.value != ""
    then m.assets[p.assetId].sector.value
    else UNKNOWN
  }

  /** The symbol of an asset, or its identifier when the asset is missing. */
  function NameOf(m: Market, assetId: nat): string {
    if assetId in m.assets then m.assets[assetId].symbol else ShowNat(assetId)
  }

  function MarketValue(m: Market, p: Position): real {
    p.quantity * PriceOf(m, p)
  }

  function CostValue(p: Position): real {
    p.quantity * p.avgBuyPrice
  }

  function PositionDayChange(marketValue: real, price: real, changePercent: real): real {
    var denominator := 1.0 + changePercent / 100.0;
    if price == 0.0 || denominator == 0.0 then 0.0 else marketValue - marketValue / denominator
  }

  function DayChange(m: Market, p: Position): real {
    PositionDayChange(MarketValue(m, p), PriceOf(m, p), ChangeOf(m, p))
  }

  function Weight(value: real, total: real): real {
    if total == 0.0 then 0.0 else value / total
  }

  // ----- The whole portfolio -----

  function Sum(xs: seq<real>): real {
    if xs == [] then 0.0 else Sum(xs[..|xs| - 1]) + xs[|xs| - 1]
  }

  function MarketValues(m: Market, ps: seq<Position>): seq<real> {
    seq(|ps|, i requires 0 <= i < |ps| => MarketValue(m, ps[i]))
  }

  function CostValues(ps: seq<Position>): seq<real> {
    seq(|ps|, i requires 0 <= i < |ps| => CostValue(ps[i]))
  }

  function DayChanges(m: Market, ps: seq<Position>): seq<real> {
    seq(|ps|, i requires 0 <= i < |ps| => DayChange(m, ps[i]))
  }

  /** A dictionary in insertion order: adds `value` to the entry of `sector`, creating it at the end. */
  function AddTo(totals: seq<(string, real)>, sector: string, value: real): seq<(string, real)> {
    if totals == [] then [(sector, 0.0 + value)]
    else if totals[0].0 == sector then [(sector, totals[0].1 + value)] + totals[1..]
    else [totals[0]] + AddTo(totals[1..], sector, value)
  }

  function SectorTotals(m: Market, ps: seq<Position>): seq<(string, real)> {
    if ps == [] then []
    else
      var p := ps[|ps| - 1];
      AddTo(SectorTotals(m, ps[..|ps| - 1]), SectorOf(m, p), MarketValue(m, p))
  }

  predicate SectorLe(a: (string, real), b: (string, real)) {
    TextLe(a.0, b.0)
  }

  function TotalValue(m: Market, ps: seq<Position>, cash: real): real {
    Sum(MarketValues(m, ps)) + cash
  }

  function WeighPosition(m: Market, p: Position, total: real, totalCost: real, threshold: real): PositionWeight {
    var weight := Weight(MarketValue(m, p), total);
    PositionWeight(
      p.assetId, p.quantity, p.avgBuyPrice, CostValue(p), MarketValue(m, p),
      Weight(CostValue(p), totalCost), weight, weight > threshold)
  }

  function WeighPositions(m: Market, ps: seq<Position>, total: real, totalCost: real, threshold: real)
    : (weights: seq<PositionWeight>)
  {
    seq(|ps|, i requires 0 <= i < |ps| => WeighPosition(m, ps[i], total, totalCost, threshold))
  }

  function WeighSector(entry: (string, real), total: real, threshold: real): SectorWeight {
    var weight := Weight(entry.1, total);
    SectorWeight(entry.0, entry.1, weight, weight > threshold)
  }

  function WeighSectors(entries: seq<(string, real)>, total: real, threshold: real): seq<SectorWeight> {
    seq(|entries|, i requires 0 <= i < |entries| => WeighSector(entries[i], total, threshold))
  }

  function DayChangePercent(total: real, change: real): real {
    var previous := total - change;
    if previous == 0.0 then 0.0 else (change / previous) * 100.0
  }

  function WeightsOf(m: Market, ps: seq<Position>, cash: real, threshold: real): Weights {
    var totalCost := Sum(CostValues(ps));
    var total := TotalValue(m, ps, cash);
    var change := Sum(DayChanges(m, ps));
    Weights(
      totalCost,
      total,
      WeighPositions(m, ps, total, totalCost, threshold),
      WeighSectors(Sort(SectorTotals(m, ps), SectorLe), total, threshold),
      change,
      DayChangePercent(total, change))
  }

  // ----- Risk exposures -----

  /** A concentration worth reporting, with the two values it is ordered by. */
  datatype Breach = Breach(name: string, weight: real)

  /** Heaviest first, ties by name. */
  predicate BreachLe(a: Breach, b: Breach) {
    a.weight > b.weight || (a.weight == b.weight && TextLe(a.name, b.name))
  }

  function SectorBreaches(sectors: seq<SectorWeight>): seq<Breach> {
    if sectors == [] then []
    else
      var s := sectors[|sectors| - 1];
      SectorBreaches(sectors[..|sectors| - 1])
      + (if s.exceedsThreshold && s.sector != UNKNOWN then [Breach(s.sector, s.weight)] else [])
  }

  function PositionBreaches(m: Market, positions: seq<PositionWeight>): seq<Breach> {
    if positions == [] then []
    else
      var p := positions[|positions| - 1];
      PositionBreaches(m, positions[..|positions| - 1])
      + (if p.exceedsThreshold then [Breach(NameOf(m, p.assetId), p.weight)] else [])
  }

  function RiskLevel(weight: real, highThreshold: real): Level {
    if weight >= highThreshold then HIGH else MEDIUM
  }

  function SectorExposures(breaches: seq<Breach>, highThreshold: real): seq<Exposure> {
    seq(|breaches|, i requires 0 <= i < |breaches| =>
      Exposure(SectorConcentration(breaches[i].name), RiskLevel(breaches[i].weight, highThreshold)))
  }

  function NameExposures(breaches: seq<Breach>, highThreshold: real): seq<Exposure> {
    seq(|breaches|, i requires 0 <= i < |breaches| =>
      Exposure(SingleNameConcentration(breaches[i].name), RiskLevel(breaches[i].weight, highThreshold)))
  }

  function CashExposures(cashWeight: real, total: real): seq<Exposure> {
    if total == 0.0 then []
    else if cashWeight < CASH_FLOOR_HIGH then [Exposure(CashShortage, HIGH)]
    else if cashWeight < CASH_FLOOR_MEDIUM then [Exposure(CashShortage, MEDIUM)]
    else []
  }

  function RiskExposures(m: Market, w: Weights, cashWeight: real, threshold: real): seq<Exposure> {
    var highThreshold := threshold * RISK_LEVEL_HIGH_MULTIPLIER;
    SectorExposures(Sort(SectorBreaches(w.sectors), BreachLe), highThreshold)
    + NameExposures(Sort(PositionBreaches(m, w.positions), BreachLe), highThreshold)
    + CashExposures(cashWeight, w.totalValue)
  }

  predicate AnySectorExceeds(sectors: seq<SectorWeight>) {
    exists i :: 0 <= i < |sectors| && sectors[i].exceedsThreshold
  }

  function SummaryOf(m: Market, ps: seq<Position>, cash: real, threshold: real): Summary {
    var w := WeightsOf(m, ps, cash, threshold);
    var cashWeight := Weight(cash, w.totalValue);
    Summary(
      threshold,
      cash,
      cashWeight,
      AnySectorExceeds(w.sectors),
      w,
      RiskExposures(m, w, cashWeight, threshold))
  }

  // ----- The projection sent to the cloud -----

  datatype BriefingPosition = BriefingPosition(symbol: string, sector: string, weight: real, dailyChangePercent: real)

  datatype BriefingSector = BriefingSector(sector: string, weight: real)

  datatype Briefing = Briefing(
    positions: seq<BriefingPosition>,
    sectors: seq<BriefingSector>,
    largestPositionWeight: real,
    isConcentrated: bool,
    concentrationThreshold: real,
    cashWeight: real,
    dayChangePercent: real,
    exposures: seq<Exposure>)

  function LargestWeight(positions: seq<PositionWeight>): real {
    if positions == [] then 0.0
    else if |positions| == 1 then positions[0].weight
    else
      var rest := LargestWeight(positions[..|positions| - 1]);
      var last := positions[|positions| - 1].weight;
      if last > rest then last else rest
  }

  function BriefingOf(
    summary: Summary, symbols: map<nat, string>, sectors: map<nat, string>, changes: map<nat, real>): Briefing
  {
    var ps, ss := summary.weights.positions, summary.weights.sectors;
    var largest := LargestWeight(ps);
    Briefing(
      seq(|ps|, i requires 0 <= i < |ps| =>
        BriefingPosition(
          if ps[i].assetId in symbols then symbols[ps[i].assetId] else ShowNat(ps[i].assetId),
          if ps[i].assetId in sectors then sectors[ps[i].assetId] else UNKNOWN,
          ps[i].weight,
          if ps[i].assetId in changes then changes[ps[i].assetId] else 0.0)),
      seq(|ss|, i requires 0 <= i < |ss| => BriefingSector(ss[i].sector, ss[i].weight)),
      largest,
      largest > summary.threshold,
      summary.threshold,
      summary.cashWeight,
      summary.weights.dayChangePercent,
      summary.exposures)
  }

  // ----- The loops -----

  lemma MeasureOneMore(m: Market, ps: seq<Position>, i: nat)
    requires i < |ps|
    ensures MarketValues(m, ps[..i + 1]) == MarketValues(m, ps[..i]) + [MarketValue(m, ps[i])]
    ensures DayChanges(m, ps[..i + 1]) == DayChanges(m, ps[..i]) + [DayChange(m, ps[i])]
    ensures SectorTotals(m, ps[..i + 1])
         == AddTo(SectorTotals(m, ps[..i]), SectorOf(m, ps[i]), MarketValue(m, ps[i]))
  {
    assert ps[..i + 1][..i] == ps[..i];
  }

  /** The first half of the body of the loop over positions: what the position is worth, and where it counts. */
  method MeasurePosition(m: Market, p: Position) returns (marketValue: real, dayChange: real, sector: string)
    ensures marketValue == MarketValue(m, p) && dayChange == DayChange(m, p) && sector == SectorOf(m, p)
  {
    var price, changePercent := 0.0, 0.0;
    sector := UNKNOWN;
    if p.assetId in m.assets {
      var asset := m.assets[p.assetId];
      if asset.ticker in m.quotes {
        price := m.quotes[asset.ticker].price;
        changePercent := m.quotes[asset.ticker].changePercent;
      }
      if asset.sector.Some? && asset.sector.value != "" {
        sector := asset.sector.value;
      }
    }
    assert price == PriceOf(m, p) && changePercent == ChangeOf(m, p);
    marketValue := p.quantity * price;
    assert marketValue == MarketValue(m, p);
    dayChange := PositionDayChange(marketValue, price, changePercent);
  }

  /** The loop of `CalculateWeights` over positions, costs and market values side by side. */
  method PositionRows(
    m: Market, ps: seq<Position>, costs: seq<real>, marketValues: seq<real>, total: real, totalCost: real,
    threshold: real)
    returns (positions: seq<PositionWeight>)
    requires costs == CostValues(ps) && marketValues == MarketValues(m, ps)
    ensures positions == WeighPositions(m, ps, total, totalCost, threshold)
  {
    positions := [];
    for i := 0 to |ps|
      invariant positions == WeighPositions(m, ps[..i], total, totalCost, threshold)
    {
      var weight := Weight(marketValues[i], total);
      positions := positions + [PositionWeight(
        ps[i].assetId, ps[i].quantity, ps[i].avgBuyPrice, costs[i], marketValues[i],
        Weight(costs[i], totalCost), weight, weight > threshold)];
    }
    assert ps[..|ps|] == ps;
  }

  /** The loop of `CalculateWeights` over the sorted sector values. */
  method SectorRows(entries: seq<(string, real)>, total: real, threshold: real) returns (sectors: seq<SectorWeight>)
    ensures sectors == WeighSectors(entries, total, threshold)
  {
    sectors := [];
    for i := 0 to |entries|
      invariant sectors == WeighSectors(entries[..i], total, threshold)
    {
      var weight := Weight(entries[i].1, total);
      sectors := sectors + [SectorWeight(entries[i].0, entries[i].1, weight, weight > threshold)];
    }
    assert entries[..|entries|] == entries;
  }

  method CalculateWeights(m: Market, ps: seq<Position>, cash: real, threshold: real) returns (w: Weights)
    ensures w == WeightsOf(m, ps, cash, threshold)
  {
    var costs := CostValues(ps);
    var totalCost := Sum(costs);
    var marketValues: seq<real> := [];
    var dayChanges: seq<real> := [];
    var sectorValues: seq<(string, real)> := [];
    for i := 0 to |ps|
      invariant marketValues == MarketValues(m, ps[..i])
      invariant dayChanges == DayChanges(m, ps[..i])
      invariant sectorValues == SectorTotals(m, ps[..i])
    {
      var marketValue, dayChange, sector := MeasurePosition(m, ps[i]);
      marketValues := marketValues + [marketValue];
      dayChanges := dayChanges + [dayChange];
      sectorValues := AddTo(sectorValues, sector, marketValue);
      MeasureOneMore(m, ps, i);
    }
    assert ps[..|ps|] == ps;
    var total := Sum(marketValues) + cash;
    var change := Sum(dayChanges);
    var positions := PositionRows(m, ps, costs, marketValues, total, totalCost, threshold);
    var sectors := SectorRows(Sort(sectorValues, SectorLe), total, threshold);
    w := Weights(totalCost, total, positions, sectors, change, DayChangePercent(total, change));
  }

  method CalculateRiskExposures(m: Market, w: Weights, cashWeight: real, threshold: real)
    returns (exposures: seq<Exposure>)
    ensures exposures == RiskExposures(m, w, cashWeight, threshold)
  {
    var highThreshold := threshold * RISK_LEVEL_HIGH_MULTIPLIER;
    exposures := [];
    var sectors := Sort(SectorBreaches(w.sectors), BreachLe);
    for i := 0 to |sectors|
      invariant exposures == SectorExposures(sectors[..i], highThreshold)
    {
      exposures := exposures
        + [Exposure(SectorConcentration(sectors[i].name), RiskLevel(sectors[i].weight, highThreshold))];
    }
    assert sectors[..|sectors|] == sectors;
    ghost var first := exposures;
    var names := Sort(PositionBreaches(m, w.positions), BreachLe);
    for i := 0 to |names|
      invariant exposures == first + NameExposures(names[..i], highThreshold)
    {
      exposures := exposures
        + [Exposure(SingleNameConcentration(names[i].name), RiskLevel(names[i].weight, highThreshold))];
    }
    assert names[..|names|] == names;
    if w.totalValue != 0.0 {
      if cashWeight < CASH_FLOOR_HIGH {
        exposures := exposures + [Exposure(CashShortage, HIGH)];
      } else if cashWeight < CASH_FLOOR_MEDIUM {
        exposures := exposures + [Exposure(CashShortage, MEDIUM)];
      }
    }
  }
}
