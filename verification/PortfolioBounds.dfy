/** Conservation of weights, exactness of rows and exposures, and the concentration bounds. */
module PortfolioBounds {
  import opened Sorting
  import opened Portfolio
  import opened PortfolioLaws
  import opened Text

  // ----- Conservation -----

  function EntryValues(entries: seq<(string, real)>): seq<real> {
    seq(|entries|, i requires 0 <= i < |entries| => entries[i].1)
  }

  function SectorWeightsOf(w: Weights): seq<real> {
    seq(|w.sectors|, i requires 0 <= i < |w.sectors| => w.sectors[i].weight)
  }

  function SectorValuesOf(w: Weights): seq<real> {
    seq(|w.sectors|, i requires 0 <= i < |w.sectors| => w.sectors[i].marketValue)
  }

  function PositionValuesOf(w: Weights): seq<real> {
    seq(|w.positions|, i requires 0 <= i < |w.positions| => w.positions[i].marketValue)
  }

  function CostValuesOf(w: Weights): seq<real> {
    seq(|w.positions|, i requires 0 <= i < |w.positions| => w.positions[i].costValue)
  }

  function PositionWeightsOf(w: Weights): seq<real> {
    seq(|w.positions|, i requires 0 <= i < |w.positions| => w.positions[i].weight)
  }

  lemma {:induction false} SumCons(x: real, xs: seq<real>)
    ensures Sum([x] + xs) == x + Sum(xs)
  {
    if xs == [] {
      assert ([x] + xs)[..0] == [];
    } else {
      var n := |xs| - 1;
      SumCons(x, xs[..n]);
      assert ([x] + xs)[..n + 1] == [x] + xs[..n];
    }
  }

  lemma EntryValuesCons(entry: (string, real), entries: seq<(string, real)>)
    ensures Sum(EntryValues([entry] + entries)) == entry.1 + Sum(EntryValues(entries))
  {
    assert EntryValues([entry] + entries) == [entry.1] + EntryValues(entries);
    SumCons(entry.1, EntryValues(entries));
  }

  lemma {:induction false} AddToSum(entries: seq<(string, real)>, sector: string, value: real)
    ensures Sum(EntryValues(AddTo(entries, sector, value))) == Sum(EntryValues(entries)) + value
  {
    if entries == [] {
      EntryValuesCons((sector, 0.0 + value), []);
      assert [(sector, 0.0 + value)] + [] == [(sector, 0.0 + value)];
    } else {
      assert entries == [entries[0]] + entries[1..];
      EntryValuesCons(entries[0], entries[1..]);
      if entries[0].0 == sector {
        EntryValuesCons((sector, entries[0].1 + value), entries[1..]);
      } else {
        EntryValuesCons(entries[0], AddTo(entries[1..], sector, value));
        AddToSum(entries[1..], sector, value);
      }
    }
  }

  /** The sector dictionary partitions the positions: nothing is lost and nothing counted twice. */
  lemma {:induction false} SectorTotalsSum(m: Market, ps: seq<Position>)
    ensures Sum(EntryValues(SectorTotals(m, ps))) == Sum(MarketValues(m, ps))
  {
    if ps == [] {
      assert EntryValues([]) == [];
    } else {
      var n := |ps| - 1;
      SectorTotalsSum(m, ps[..n]);
      AddToSum(SectorTotals(m, ps[..n]), SectorOf(m, ps[n]), MarketValue(m, ps[n]));
      assert MarketValues(m, ps)[..n] == MarketValues(m, ps[..n]);
    }
  }

  lemma {:induction false} InsertSum(entry: (string, real), entries: seq<(string, real)>)
    ensures Sum(EntryValues(Insert(entry, entries, SectorLe))) == entry.1 + Sum(EntryValues(entries))
  {
    EntryValuesCons(entry, entries);
    if entries == [] {
      assert [entry] + [] == [entry];
    } else if !SectorLe(entry, entries[0]) {
      InsertSum(entry, entries[1..]);
      EntryValuesCons(entries[0], Insert(entry, entries[1..], SectorLe));
      EntryValuesCons(entries[0], entries[1..]);
      assert entries == [entries[0]] + entries[1..];
    }
  }

  lemma {:induction false} SortSum(entries: seq<(string, real)>)
    ensures Sum(EntryValues(Sort(entries, SectorLe))) == Sum(EntryValues(entries))
  {
    if entries != [] {
      SortSum(entries[1..]);
      InsertSum(entries[0], Sort(entries[1..], SectorLe));
      EntryValuesCons(entries[0], entries[1..]);
      assert entries == [entries[0]] + entries[1..];
    }
  }

  function WeighAll(xs: seq<real>, total: real): seq<real> {
    seq(|xs|, i requires 0 <= i < |xs| => Weight(xs[i], total))
  }

  lemma {:induction false} SumWeighs(xs: seq<real>, total: real)
    ensures Sum(WeighAll(xs, total)) == Weight(Sum(xs), total)
  {
    if xs != [] {
      var n := |xs| - 1;
      SumWeighs(xs[..n], total);
      assert WeighAll(xs, total)[..n] == WeighAll(xs[..n], total);
      if total != 0.0 {
        QuotientAdds(Sum(xs[..n]), xs[n], total);
      }
    }
  }

  lemma QuotientAdds(a: real, b: real, total: real)
    requires total != 0.0
    ensures a / total + b / total == (a + b) / total
  {
  }

  /** The rows of a summary are the weighed market and sector values. */
  lemma RowsWeigh(m: Market, ps: seq<Position>, cash: real, threshold: real)
    ensures var w := WeightsOf(m, ps, cash, threshold);
            && PositionWeightsOf(w) == WeighAll(MarketValues(m, ps), w.totalValue)
            && SectorValuesOf(w) == EntryValues(Sort(SectorTotals(m, ps), SectorLe))
            && SectorWeightsOf(w) == WeighAll(SectorValuesOf(w), w.totalValue)
  {
  }

  lemma RowSums(m: Market, ps: seq<Position>, cash: real, threshold: real)
    ensures var w := WeightsOf(m, ps, cash, threshold);
            && Sum(SectorValuesOf(w)) == Sum(MarketValues(m, ps))
            && Sum(SectorWeightsOf(w)) == Sum(PositionWeightsOf(w)) == Weight(Sum(MarketValues(m, ps)), w.totalValue)
  {
    var w := WeightsOf(m, ps, cash, threshold);
    RowsWeigh(m, ps, cash, threshold);
    SectorTotalsSum(m, ps);
    SortSum(SectorTotals(m, ps));
    SumWeighs(MarketValues(m, ps), w.totalValue);
    SumWeighs(SectorValuesOf(w), w.totalValue);
  }

  lemma WholeWeighsOne(a: real, b: real)
    ensures Weight(a, a + b) + Weight(b, a + b) == if a + b == 0.0 then 0.0 else 1.0
  {
  }

  lemma WeightsSumToOne(m: Market, ps: seq<Position>, cash: real, threshold: real)
    ensures var w := WeightsOf(m, ps, cash, threshold);
            Sum(PositionWeightsOf(w)) + Weight(cash, w.totalValue) == if w.totalValue == 0.0 then 0.0 else 1.0
  {
    RowSums(m, ps, cash, threshold);
    WholeWeighsOne(Sum(MarketValues(m, ps)), cash);
  }

  predicate NothingWeighs(w: Weights) {
    && (forall i :: 0 <= i < |w.positions| ==> w.positions[i].weight == 0.0)
    && (forall i :: 0 <= i < |w.sectors| ==> w.sectors[i].weight == 0.0)
  }

  lemma WorthlessWeighsNothing(m: Market, ps: seq<Position>, cash: real, threshold: real)
    ensures TotalValue(m, ps, cash) == 0.0 ==> NothingWeighs(WeightsOf(m, ps, cash, threshold))
  {
  }

  /** Conservation: sector values add up to the market value, sector weights to the position weights, and these
      together with the cash weight to exactly 1, unless the portfolio is worth nothing, when all are 0. */
  lemma WeightsConserve(m: Market, ps: seq<Position>, cash: real, threshold: real)
    ensures var s := SummaryOf(m, ps, cash, threshold);
            var w := s.weights;
            && Sum(SectorValuesOf(w)) == Sum(PositionValuesOf(w)) == w.totalValue - cash
            && Sum(CostValuesOf(w)) == w.totalCostValue
            && Sum(SectorWeightsOf(w)) == Sum(PositionWeightsOf(w))
            && Sum(PositionWeightsOf(w)) + s.cashWeight == (if w.totalValue == 0.0 then 0.0 else 1.0)
            && (w.totalValue == 0.0 ==> s.cashWeight == 0.0 && NothingWeighs(w))
  {
    var w := WeightsOf(m, ps, cash, threshold);
    RowSums(m, ps, cash, threshold);
    assert PositionValuesOf(w) == MarketValues(m, ps) && CostValuesOf(w) == CostValues(ps);
    WeightsSumToOne(m, ps, cash, threshold);
    WorthlessWeighsNothing(m, ps, cash, threshold);
  }

  // ----- What each position row holds -----

  /** `weight` is the part `value` is of `total`, and 0 of a total of 0. */
  predicate IsPart(weight: real, value: real, total: real) {
    if total == 0.0 then weight == 0.0 else By(weight, total) == value
  }

  lemma WeightIsPart(value: real, total: real)
    ensures IsPart(Weight(value, total), value, total)
  {
  }

  /** The row is about the position and holds its values and its parts of both totals. */
  predicate RowExact(m: Market, p: Position, row: PositionWeight, total: real, totalCost: real, threshold: real) {
    && row.assetId == p.assetId && row.quantity == p.quantity && row.avgBuyPrice == p.avgBuyPrice
    && (if p.assetId in m.assets && m.assets[p.assetId].ticker in m.quotes
        then row.marketValue == p.quantity * m.quotes[m.assets[p.assetId].ticker].price
        else row.marketValue == 0.0)
    && row.costValue == p.quantity * p.avgBuyPrice
    && IsPart(row.weight, row.marketValue, total)
    && IsPart(row.costWeight, row.costValue, totalCost)
    && (row.exceedsThreshold <==> row.weight > threshold)
  }

  function CostWeightsOf(w: Weights): seq<real> {
    seq(|w.positions|, i requires 0 <= i < |w.positions| => w.positions[i].costWeight)
  }

  lemma RowIsExact(m: Market, p: Position, total: real, totalCost: real, threshold: real)
    ensures RowExact(m, p, WeighPosition(m, p, total, totalCost, threshold), total, totalCost, threshold)
  {
    WeightIsPart(MarketValue(m, p), total);
    WeightIsPart(CostValue(p), totalCost);
  }

  lemma WeightOfAll(total: real)
    ensures Weight(total, total) == if total == 0.0 then 0.0 else 1.0
  {
  }

  /** The cost weights add up to 1 or, when nothing was paid, to 0. */
  lemma CostWeightsConserve(m: Market, ps: seq<Position>, cash: real, threshold: real)
    ensures var w := WeightsOf(m, ps, cash, threshold);
            Sum(CostWeightsOf(w)) == if w.totalCostValue == 0.0 then 0.0 else 1.0
  {
    var w := WeightsOf(m, ps, cash, threshold);
    assert CostWeightsOf(w) == WeighAll(CostValues(ps), w.totalCostValue);
    SumWeighs(CostValues(ps), w.totalCostValue);
    WeightOfAll(w.totalCostValue);
  }

  /** One row for each position, in order and exact. */
  lemma PositionRowsAreExact(m: Market, ps: seq<Position>, cash: real, threshold: real)
    ensures var w := WeightsOf(m, ps, cash, threshold);
            && |w.positions| == |ps|
            && (forall i :: 0 <= i < |ps| ==>
                  RowExact(m, ps[i], w.positions[i], w.totalValue, w.totalCostValue, threshold))
  {
    var w := WeightsOf(m, ps, cash, threshold);
    forall i | 0 <= i < |ps|
      ensures RowExact(m, ps[i], w.positions[i], w.totalValue, w.totalCostValue, threshold)
    {
      RowIsExact(m, ps[i], w.totalValue, w.totalCostValue, threshold);
    }
  }

  // ----- What each sector row holds -----

  /** The market value of the positions in `sector`. */
  function SectorSum(m: Market, ps: seq<Position>, sector: string): real {
    if ps == [] then 0.0
    else
      SectorSum(m, ps[..|ps| - 1], sector)
      + (if SectorOf(m, ps[|ps| - 1]) == sector then MarketValue(m, ps[|ps| - 1]) else 0.0)
  }

  function Names(entries: seq<(string, real)>): set<string> {
    set i | 0 <= i < |entries| :: entries[i].0
  }

  predicate DistinctNames(entries: seq<(string, real)>) {
    forall i, j :: 0 <= i < j < |entries| ==> entries[i].0 != entries[j].0
  }

  /** `added` is `entries` with `value` put on the entry of `sector`, new or not, and nothing else changed. */
  ghost predicate PutOn(entries: seq<(string, real)>, added: seq<(string, real)>, sector: string, value: real) {
    && DistinctNames(added)
    && Names(added) == Names(entries) + {sector}
    && (forall e :: e in added && e.0 != sector ==> e in entries)
    && (forall e :: e in added && e.0 == sector ==>
          if sector in Names(entries) then (sector, e.1 - value) in entries else e.1 == value)
  }

  lemma PutOnHead(entries: seq<(string, real)>, sector: string, value: real)
    requires DistinctNames(entries) && entries != [] && entries[0].0 == sector
    ensures PutOn(entries, [(sector, entries[0].1 + value)] + entries[1..], sector, value)
  {
    var head, rest := (sector, entries[0].1 + value), entries[1..];
    var added := [head] + rest;
    NamesCons(entries[0], rest);
    NamesCons(head, rest);
    assert entries == [entries[0]] + rest;
    assert forall k :: 1 <= k < |added| ==> added[k] == entries[k] && entries[k].0 != sector;
    assert (sector, head.1 - value) == entries[0];
  }

  lemma PutOnRest(entries: seq<(string, real)>, tail: seq<(string, real)>, sector: string, value: real)
    requires DistinctNames(entries) && entries != [] && entries[0].0 != sector
    requires PutOn(entries[1..], tail, sector, value)
    ensures PutOn(entries, [entries[0]] + tail, sector, value)
  {
    var rest := entries[1..];
    assert entries == [entries[0]] + rest;
    NamesCons(entries[0], rest);
    NamesCons(entries[0], tail);
    forall i | 0 <= i < |rest| ensures rest[i].0 != entries[0].0 {
      assert rest[i] == entries[i + 1];
    }
    forall j | 0 <= j < |tail| ensures tail[j].0 != entries[0].0 {
      assert tail[j].0 in Names(tail);
    }
  }

  lemma {:induction false} AddToEntries(entries: seq<(string, real)>, sector: string, value: real)
    requires DistinctNames(entries)
    ensures PutOn(entries, AddTo(entries, sector, value), sector, value)
  {
    if entries == [] {
      NamesCons((sector, 0.0 + value), []);
      assert [(sector, 0.0 + value)] + [] == [(sector, 0.0 + value)];
    } else if entries[0].0 == sector {
      PutOnHead(entries, sector, value);
    } else {
      assert forall i, j :: 0 <= i < j < |entries| - 1 ==> entries[1..][i].0 != entries[1..][j].0;
      AddToEntries(entries[1..], sector, value);
      PutOnRest(entries, AddTo(entries[1..], sector, value), sector, value);
    }
  }

  lemma NamesCons(entry: (string, real), rest: seq<(string, real)>)
    ensures Names([entry] + rest) == {entry.0} + Names(rest)
  {
    var all := [entry] + rest;
    forall name | name in Names(all) ensures name in {entry.0} + Names(rest) {
      var i :| 0 <= i < |all| && all[i].0 == name;
      assert i > 0 ==> all[i] == rest[i - 1];
    }
    forall i | 0 <= i < |rest| ensures rest[i].0 in Names(all) { assert all[i + 1] == rest[i]; }
    assert all[0].0 in Names(all);
  }

  /** Every entry of the dictionary is the market value of its sector, every sector has one entry, and the
      sectors are those of the positions. */
  ghost predicate Partitions(entries: seq<(string, real)>, m: Market, ps: seq<Position>) {
    && DistinctNames(entries)
    && (forall e :: e in entries ==> e.1 == SectorSum(m, ps, e.0))
    && (forall i :: 0 <= i < |ps| ==> SectorOf(m, ps[i]) in Names(entries))
    && (forall name :: name in Names(entries) ==> exists i :: 0 <= i < |ps| && SectorOf(m, ps[i]) == name)
  }

  lemma SectorSumAbsent(m: Market, ps: seq<Position>, sector: string)
    requires forall i :: 0 <= i < |ps| ==> SectorOf(m, ps[i]) != sector
    ensures SectorSum(m, ps, sector) == 0.0
  {
  }

  lemma SectorsListed(m: Market, head: seq<Position>, last: Position, before: set<string>, after: set<string>)
    requires after == before + {SectorOf(m, last)}
    requires forall i :: 0 <= i < |head| ==> SectorOf(m, head[i]) in before
    requires forall name :: name in before ==> exists i :: 0 <= i < |head| && SectorOf(m, head[i]) == name
    ensures var ps := head + [last];
            && (forall i :: 0 <= i < |ps| ==> SectorOf(m, ps[i]) in after)
            && (forall name :: name in after ==> exists i :: 0 <= i < |ps| && SectorOf(m, ps[i]) == name)
  {
    var ps := head + [last];
    forall name | name in after ensures exists i :: 0 <= i < |ps| && SectorOf(m, ps[i]) == name {
      if name in before {
        var i :| 0 <= i < |head| && SectorOf(m, head[i]) == name;
        assert ps[i] == head[i];
      } else {
        assert ps[|head|] == last;
      }
    }
  }

  /** The entries among `entries` that `last` does not touch, and the one it does, still hold sector sums. */
  lemma EntryHoldsSum(m: Market, head: seq<Position>, last: Position, entries: seq<(string, real)>, e: (string, real))
    requires forall f :: f in entries ==> f.1 == SectorSum(m, head, f.0)
    requires e.0 != SectorOf(m, last) ==> e in entries
    requires e.0 == SectorOf(m, last) ==>
      || (e.0, e.1 - MarketValue(m, last)) in entries
      || (e.1 == MarketValue(m, last) && SectorSum(m, head, e.0) == 0.0)
    ensures e.1 == SectorSum(m, head + [last], e.0)
  {
  }

  lemma PartitionGrows(m: Market, head: seq<Position>, last: Position, before: seq<(string, real)>)
    requires Partitions(before, m, head)
    ensures Partitions(AddTo(before, SectorOf(m, last), MarketValue(m, last)), m, head + [last])
  {
    var after := AddTo(before, SectorOf(m, last), MarketValue(m, last));
    AddToEntries(before, SectorOf(m, last), MarketValue(m, last));
    if SectorOf(m, last) !in Names(before) {
      SectorSumAbsent(m, head, SectorOf(m, last));
    }
    forall e | e in after ensures e.1 == SectorSum(m, head + [last], e.0) {
      EntryHoldsSum(m, head, last, before, e);
    }
    SectorsListed(m, head, last, Names(before), Names(after));
  }

  lemma {:induction false} SectorTotalsPartition(m: Market, ps: seq<Position>)
    ensures Partitions(SectorTotals(m, ps), m, ps)
  {
    if ps != [] {
      var head, last := ps[..|ps| - 1], ps[|ps| - 1];
      SectorTotalsPartition(m, head);
      PartitionGrows(m, head, last, SectorTotals(m, head));
      assert head + [last] == ps;
    }
  }

  lemma SectorOrder()
    ensures TotalPreorder(SectorLe)
  {
    forall a, b ensures SectorLe(a, b) || SectorLe(b, a) { TextLeTotal(a.0, b.0); }
    forall a, b, c | SectorLe(a, b) && SectorLe(b, c) ensures SectorLe(a, c) { TextLeTransitive(a.0, b.0, c.0); }
  }

  lemma BreachOrder()
    ensures TotalPreorder(BreachLe)
  {
    forall a, b ensures BreachLe(a, b) || BreachLe(b, a) { TextLeTotal(a.name, b.name); }
    forall a, b, c | BreachLe(a, b) && BreachLe(b, c) ensures BreachLe(a, c) {
      if a.weight == b.weight == c.weight {
        TextLeTransitive(a.name, b.name, c.name);
      }
    }
  }

  lemma {:induction false} InsertDistinct(entry: (string, real), entries: seq<(string, real)>)
    requires DistinctNames(entries) && forall e :: e in entries ==> e.0 != entry.0
    ensures DistinctNames(Insert(entry, entries, SectorLe))
  {
    if entries != [] && !SectorLe(entry, entries[0]) {
      var tail := Insert(entry, entries[1..], SectorLe);
      InsertDistinct(entry, entries[1..]);
      forall e | e in tail ensures e.0 != entries[0].0 {
        InsertMembers(entry, entries[1..], SectorLe, e);
      }
    }
  }

  /** Sorting keeps one entry a sector. */
  lemma {:induction false} SortDistinct(entries: seq<(string, real)>)
    requires DistinctNames(entries)
    ensures DistinctNames(Sort(entries, SectorLe))
  {
    if entries != [] {
      var rest := Sort(entries[1..], SectorLe);
      SortDistinct(entries[1..]);
      forall e | e in rest ensures e.0 != entries[0].0 {
        SortMembers(entries[1..], SectorLe, e);
      }
      InsertDistinct(entries[0], rest);
    }
  }

  /** The position counts in the sector: that of its asset or, if the asset is missing or has none, `UNKNOWN`. */
  predicate InSector(m: Market, p: Position, sector: string) {
    if p.assetId in m.assets && m.assets[p.assetId].sector.Some? && m.assets[p.assetId].sector.value != ""
    then sector == m.assets[p.assetId].sector.value
    else sector == "UNKNOWN"
  }

  /** What the rows of the positions in the sector are worth together. */
  function PartSum(m: Market, ps: seq<Position>, rows: seq<PositionWeight>, sector: string): real
    requires |rows| == |ps|
  {
    if ps == [] then 0.0
    else
      var n := |ps| - 1;
      PartSum(m, ps[..n], rows[..n], sector) + if InSector(m, ps[n], sector) then rows[n].marketValue else 0.0
  }

  lemma {:induction false} PartSumIsSectorSum(m: Market, ps: seq<Position>, rows: seq<PositionWeight>, sector: string)
    requires |rows| == |ps| && forall i :: 0 <= i < |ps| ==> rows[i].marketValue == MarketValue(m, ps[i])
    ensures PartSum(m, ps, rows, sector) == SectorSum(m, ps, sector)
  {
    if ps != [] {
      PartSumIsSectorSum(m, ps[..|ps| - 1], rows[..|ps| - 1], sector);
    }
  }

  /** The row sums up its sector, to which some position belongs. */
  ghost predicate SectorExact(m: Market, ps: seq<Position>, w: Weights, threshold: real, row: SectorWeight)
    requires |w.positions| == |ps|
  {
    && Occurs(m, ps, row.sector)
    && row.marketValue == PartSum(m, ps, w.positions, row.sector)
    && IsPart(row.weight, row.marketValue, w.totalValue)
    && (row.exceedsThreshold <==> row.weight > threshold)
  }

  /** Some row is about the sector of the position. */
  ghost predicate Listed(m: Market, p: Position, rows: seq<SectorWeight>) {
    exists j :: 0 <= j < |rows| && InSector(m, p, rows[j].sector)
  }

  /** One row a sector, in order of name, each exact, and every position's sector among them. */
  ghost predicate SectorsExact(m: Market, ps: seq<Position>, w: Weights, threshold: real)
    requires |w.positions| == |ps|
  {
    && (forall i, j :: 0 <= i < j < |w.sectors| ==>
          TextLe(w.sectors[i].sector, w.sectors[j].sector) && w.sectors[i].sector != w.sectors[j].sector)
    && (forall i :: 0 <= i < |w.sectors| ==> SectorExact(m, ps, w, threshold, w.sectors[i]))
    && (forall i :: 0 <= i < |ps| ==> Listed(m, ps[i], w.sectors))
  }

  /** The sector rows: one a sector, in order of name, each holding exactly the market value of its sector's
      positions, and every position's sector among them. */
  lemma SectorRowsAreExact(m: Market, ps: seq<Position>, cash: real, threshold: real)
    ensures SectorsExact(m, ps, WeightsOf(m, ps, cash, threshold), threshold)
  {
    var w := WeightsOf(m, ps, cash, threshold);
    RowsOfTotals(m, ps, w.totalValue, threshold);
    forall i | 0 <= i < |w.sectors| ensures SectorExact(m, ps, w, threshold, w.sectors[i]) {
      SectorRowIsExact(m, ps, w, threshold, w.sectors[i]);
    }
  }

  lemma SectorRowIsExact(m: Market, ps: seq<Position>, w: Weights, threshold: real, row: SectorWeight)
    requires |w.positions| == |ps|
    requires forall i :: 0 <= i < |ps| ==> w.positions[i].marketValue == MarketValue(m, ps[i])
    requires RowHolds(m, ps, row, w.totalValue, threshold)
    ensures SectorExact(m, ps, w, threshold, row)
  {
    PartSumIsSectorSum(m, ps, w.positions, row.sector);
    WeightIsPart(row.marketValue, w.totalValue);
  }

  ghost predicate Occurs(m: Market, ps: seq<Position>, sector: string) {
    exists k :: 0 <= k < |ps| && InSector(m, ps[k], sector)
  }

  /** The row sums up its sector, as `SectorSum` has it. */
  ghost predicate RowHolds(m: Market, ps: seq<Position>, row: SectorWeight, total: real, threshold: real) {
    && row == WeighSector((row.sector, row.marketValue), total, threshold)
    && row.marketValue == SectorSum(m, ps, row.sector)
    && Occurs(m, ps, row.sector)
  }

  ghost predicate RowsHold(m: Market, ps: seq<Position>, rows: seq<SectorWeight>, total: real, threshold: real) {
    && (forall i, j :: 0 <= i < j < |rows| ==>
          TextLe(rows[i].sector, rows[j].sector) && rows[i].sector != rows[j].sector)
    && (forall i :: 0 <= i < |rows| ==> RowHolds(m, ps, rows[i], total, threshold))
    && (forall i :: 0 <= i < |ps| ==> Listed(m, ps[i], rows))
  }

  /** The sorted dictionary: distinct names in order, each with its sector's sum, and none made up. */
  lemma SortedTotals(m: Market, ps: seq<Position>)
    ensures var sorted := Sort(SectorTotals(m, ps), SectorLe);
            && DistinctNames(sorted)
            && SortedBy(sorted, SectorLe)
            && (forall e :: e in sorted ==> e.1 == SectorSum(m, ps, e.0) && Occurs(m, ps, e.0))
  {
    var entries := SectorTotals(m, ps);
    SectorTotalsPartition(m, ps);
    SectorOrder();
    SortSorts(entries, SectorLe);
    SortDistinct(entries);
    forall e | e in Sort(entries, SectorLe) ensures e.1 == SectorSum(m, ps, e.0) && Occurs(m, ps, e.0) {
      SortMembers(entries, SectorLe, e);
      assert e.0 in Names(entries);
      var k :| 0 <= k < |ps| && SectorOf(m, ps[k]) == e.0;
      assert InSector(m, ps[k], e.0);
    }
  }

  lemma SectorIsListed(m: Market, ps: seq<Position>, i: nat, total: real, threshold: real)
    requires i < |ps|
    ensures Listed(m, ps[i], WeighSectors(Sort(SectorTotals(m, ps), SectorLe), total, threshold))
  {
    var entries := SectorTotals(m, ps);
    var sorted := Sort(entries, SectorLe);
    SectorTotalsPartition(m, ps);
    var k :| 0 <= k < |entries| && entries[k].0 == SectorOf(m, ps[i]);
    SortMembers(entries, SectorLe, entries[k]);
    var j :| 0 <= j < |sorted| && sorted[j] == entries[k];
    assert InSector(m, ps[i], WeighSectors(sorted, total, threshold)[j].sector);
  }

  lemma RowsOfTotals(m: Market, ps: seq<Position>, total: real, threshold: real)
    ensures RowsHold(m, ps, WeighSectors(Sort(SectorTotals(m, ps), SectorLe), total, threshold), total, threshold)
  {
    SortedTotals(m, ps);
    var sorted := Sort(SectorTotals(m, ps), SectorLe);
    var rows := WeighSectors(sorted, total, threshold);
    forall i | 0 <= i < |rows| ensures RowHolds(m, ps, rows[i], total, threshold) && rows[i].sector == sorted[i].0 {
      assert sorted[i] in sorted;
    }
    forall i | 0 <= i < |ps| ensures Listed(m, ps[i], rows) {
      SectorIsListed(m, ps, i, total, threshold);
    }
  }

  // ----- Concentration -----

  /** Prices and quantities that a real book has: nothing is held short and no price or balance is negative. */
  predicate NonNegative(m: Market, ps: seq<Position>, cash: real) {
    cash >= 0.0 && forall i :: 0 <= i < |ps| ==> ps[i].quantity >= 0.0 && PriceOf(m, ps[i]) >= 0.0
  }

  lemma NonNegativeProduct(a: real, b: real)
    requires a >= 0.0 && b >= 0.0
    ensures a * b >= 0.0
  {
  }

  lemma {:induction false} SumMonotone(xs: seq<real>)
    requires forall i :: 0 <= i < |xs| ==> xs[i] >= 0.0
    ensures Sum(xs) >= 0.0
  {
    if xs != [] {
      SumMonotone(xs[..|xs| - 1]);
    }
  }

  lemma ValuesNonNegative(m: Market, ps: seq<Position>, cash: real)
    requires NonNegative(m, ps, cash)
    ensures forall i :: 0 <= i < |ps| ==> MarketValue(m, ps[i]) >= 0.0
    ensures Sum(MarketValues(m, ps)) >= 0.0
  {
    forall i | 0 <= i < |ps| ensures MarketValue(m, ps[i]) >= 0.0 {
      NonNegativeProduct(ps[i].quantity, PriceOf(m, ps[i]));
    }
    SumMonotone(MarketValues(m, ps));
  }

  lemma QuotientMonotone(a: real, b: real, total: real)
    requires a <= b && total > 0.0
    ensures a / total <= b / total
  {
  }

  function Share(n: nat, threshold: real): real {
    n as real * threshold
  }

  lemma OneMoreShare(n: nat, threshold: real)
    ensures Share(n + 1, threshold) == Share(n, threshold) + threshold
    ensures Share(0, threshold) == 0.0
  {
  }

  function WeightsIn(positions: seq<PositionWeight>): seq<real> {
    seq(|positions|, i requires 0 <= i < |positions| => positions[i].weight)
  }

  lemma OutweighOneMore(n: nat, sum: real, row: PositionWeight, threshold: real)
    requires Share(n, threshold) <= sum && (n > 0 ==> Share(n, threshold) < sum)
    requires row.weight >= 0.0 && (row.exceedsThreshold <==> row.weight > threshold)
    ensures var n' := if row.exceedsThreshold then n + 1 else n;
            Share(n', threshold) <= sum + row.weight && (n' > 0 ==> Share(n', threshold) < sum + row.weight)
  {
    OneMoreShare(n, threshold);
  }

  /** Breaching weights each count for more than the threshold. */
  lemma {:induction false} BreachesOutweigh(m: Market, positions: seq<PositionWeight>, threshold: real)
    requires forall i :: 0 <= i < |positions| ==>
      positions[i].weight >= 0.0 && (positions[i].exceedsThreshold <==> positions[i].weight > threshold)
    ensures var n := |PositionBreaches(m, positions)|;
            && Share(n, threshold) <= Sum(WeightsIn(positions))
            && (n > 0 ==> Share(n, threshold) < Sum(WeightsIn(positions)))
  {
    if positions == [] {
      OneMoreShare(0, threshold);
    } else {
      var k := |positions| - 1;
      BreachesOutweigh(m, positions[..k], threshold);
      assert WeightsIn(positions)[..k] == WeightsIn(positions[..k]);
      OutweighOneMore(|PositionBreaches(m, positions[..k])|, Sum(WeightsIn(positions[..k])), positions[k], threshold);
    }
  }

  /** The rows above the threshold. */
  function Exceeding(positions: seq<PositionWeight>): set<nat> {
    set i: nat | i < |positions| && positions[i].exceedsThreshold
  }

  lemma {:induction false} BreachCount(m: Market, positions: seq<PositionWeight>)
    ensures |PositionBreaches(m, positions)| == |Exceeding(positions)|
  {
    if positions == [] {
      assert Exceeding(positions) == {};
    } else {
      var n := |positions| - 1;
      BreachCount(m, positions[..n]);
      assert Exceeding(positions) == Exceeding(positions[..n]) + if positions[n].exceedsThreshold then {n} else {};
    }
  }

  /** Pigeonhole: the weights above the threshold cannot number 1 / threshold or more. So the single-name
      exposures of a summary, one for each, are bounded as well. */
  lemma FewConcentratedPositions(m: Market, ps: seq<Position>, cash: real, threshold: real)
    requires NonNegative(m, ps, cash) && TotalValue(m, ps, cash) > 0.0
    ensures var w := WeightsOf(m, ps, cash, threshold);
            var n := |Exceeding(w.positions)|;
            n > 0 ==> Share(n, threshold) < 1.0
  {
    BreachCount(m, WeightsOf(m, ps, cash, threshold).positions);
    var w := WeightsOf(m, ps, cash, threshold);
    PositionWeightsNonNegative(m, ps, cash, threshold);
    BreachesOutweigh(m, w.positions, threshold);
    PositionWeightsAtMostOne(m, ps, cash, threshold);
  }

  lemma PositionWeightsNonNegative(m: Market, ps: seq<Position>, cash: real, threshold: real)
    requires NonNegative(m, ps, cash) && TotalValue(m, ps, cash) > 0.0
    ensures var w := WeightsOf(m, ps, cash, threshold);
            forall i :: 0 <= i < |w.positions| ==>
              w.positions[i].weight >= 0.0 && (w.positions[i].exceedsThreshold <==> w.positions[i].weight > threshold)
  {
  }

  lemma PositionWeightsAtMostOne(m: Market, ps: seq<Position>, cash: real, threshold: real)
    requires NonNegative(m, ps, cash) && TotalValue(m, ps, cash) > 0.0
    ensures Sum(WeightsIn(WeightsOf(m, ps, cash, threshold).positions)) <= 1.0
  {
    var w := WeightsOf(m, ps, cash, threshold);
    WeightsConserve(m, ps, cash, threshold);
    CashWeightNonNegative(cash, w.totalValue);
    assert PositionWeightsOf(w) == WeightsIn(w.positions);
  }

  lemma CashWeightNonNegative(cash: real, total: real)
    requires cash >= 0.0 && total > 0.0
    ensures Weight(cash, total) >= 0.0
  {
  }

  lemma {:induction false} PositionWithinSector(m: Market, ps: seq<Position>, i: nat)
    requires i < |ps|
    requires forall j :: 0 <= j < |ps| ==> MarketValue(m, ps[j]) >= 0.0
    ensures MarketValue(m, ps[i]) <= SectorSum(m, ps, SectorOf(m, ps[i]))
  {
    var n := |ps| - 1;
    SectorSumNonNegative(m, ps[..n], SectorOf(m, ps[i]));
    if i < n {
      PositionWithinSector(m, ps[..n], i);
    }
  }

  lemma {:induction false} SectorSumNonNegative(m: Market, ps: seq<Position>, sector: string)
    requires forall j :: 0 <= j < |ps| ==> MarketValue(m, ps[j]) >= 0.0
    ensures SectorSum(m, ps, sector) >= 0.0
  {
    if ps != [] {
      SectorSumNonNegative(m, ps[..|ps| - 1], sector);
    }
  }

  /** A position above the threshold puts its whole sector above the threshold. */
  lemma ConcentratedPositionConcentratesSector(m: Market, ps: seq<Position>, cash: real, threshold: real, i: nat)
    requires NonNegative(m, ps, cash) && TotalValue(m, ps, cash) > 0.0
    requires i < |ps| && WeightsOf(m, ps, cash, threshold).positions[i].exceedsThreshold
    ensures var s := SummaryOf(m, ps, cash, threshold);
            && s.hasSectorConcentration
            && exists j :: 0 <= j < |s.weights.sectors|
                 && InSector(m, ps[i], s.weights.sectors[j].sector)
                 && s.weights.sectors[j].exceedsThreshold
  {
    var w := WeightsOf(m, ps, cash, threshold);
    ValuesNonNegative(m, ps, cash);
    PositionWithinSector(m, ps, i);
    RowsOfTotals(m, ps, w.totalValue, threshold);
    var j := SectorIsHeavier(m, ps, w.sectors, w.totalValue, threshold, i);
    assert w.sectors[j].exceedsThreshold;
  }

  lemma SectorIsHeavier(
    m: Market, ps: seq<Position>, rows: seq<SectorWeight>, total: real, threshold: real, i: nat) returns (j: nat)
    requires RowsHold(m, ps, rows, total, threshold) && total > 0.0 && i < |ps|
    requires MarketValue(m, ps[i]) <= SectorSum(m, ps, SectorOf(m, ps[i]))
    requires MarketValue(m, ps[i]) / total > threshold
    ensures j < |rows| && InSector(m, ps[i], rows[j].sector) && rows[j].exceedsThreshold
  {
    assert Listed(m, ps[i], rows);
    j :| 0 <= j < |rows| && InSector(m, ps[i], rows[j].sector);
    assert RowHolds(m, ps, rows[j], total, threshold);
    QuotientMonotone(MarketValue(m, ps[i]), rows[j].marketValue, total);
  }

  predicate HighFirst(exposures: seq<Exposure>) {
    forall i, j :: 0 <= i < j < |exposures| && exposures[j].level == HIGH ==> exposures[i].level == HIGH
  }

  lemma GroupsHighFirst(breaches: seq<Breach>, highThreshold: real)
    ensures HighFirst(SectorExposures(Sort(breaches, BreachLe), highThreshold))
    ensures HighFirst(NameExposures(Sort(breaches, BreachLe), highThreshold))
  {
    BreachOrder();
    SortSorts(breaches, BreachLe);
    var sorted := Sort(breaches, BreachLe);
    assert forall i, j :: 0 <= i < j < |sorted| ==> BreachLe(sorted[i], sorted[j]);
  }

  lemma GroupsConcatenate(a: seq<Exposure>, b: seq<Exposure>, c: seq<Exposure>, i: nat, j: nat)
    requires HighFirst(a) && HighFirst(b) && |c| <= 1
    requires forall k :: 0 <= k < |a| ==> a[k].code.SectorConcentration?
    requires forall k :: 0 <= k < |b| ==> b[k].code.SingleNameConcentration?
    requires forall k :: 0 <= k < |c| ==> c[k].code.CashShortage?
    requires i < j < |a + b + c| && SameGroup((a + b + c)[i].code, (a + b + c)[j].code)
    requires (a + b + c)[j].level == HIGH
    ensures (a + b + c)[i].level == HIGH
  {
  }

  /** The exposures of one kind, in the order they are listed, never put a MEDIUM before a HIGH. */
  lemma HighComesFirst(m: Market, ps: seq<Position>, cash: real, threshold: real, i: nat, j: nat)
    requires i < j < |SummaryOf(m, ps, cash, threshold).exposures|
    requires var exposures := SummaryOf(m, ps, cash, threshold).exposures;
             SameGroup(exposures[i].code, exposures[j].code) && exposures[j].level == HIGH
    ensures SummaryOf(m, ps, cash, threshold).exposures[i].level == HIGH
  {
    var w := WeightsOf(m, ps, cash, threshold);
    var highThreshold := threshold * RISK_LEVEL_HIGH_MULTIPLIER;
    GroupsHighFirst(SectorBreaches(w.sectors), highThreshold);
    GroupsHighFirst(PositionBreaches(m, w.positions), highThreshold);
    GroupsConcatenate(
      SectorExposures(Sort(SectorBreaches(w.sectors), BreachLe), highThreshold),
      NameExposures(Sort(PositionBreaches(m, w.positions), BreachLe), highThreshold),
      CashExposures(Weight(cash, w.totalValue), w.totalValue), i, j);
  }

  predicate SameGroup(a: ExposureCode, b: ExposureCode) {
    || (a.SectorConcentration? && b.SectorConcentration?)
    || (a.SingleNameConcentration? && b.SingleNameConcentration?)
    || (a.CashShortage? && b.CashShortage?)
  }

  // ----- What is reported -----

  lemma {:induction false} PositionBreachesExact(m: Market, positions: seq<PositionWeight>, b: Breach)
    ensures b in PositionBreaches(m, positions) <==>
              exists i :: 0 <= i < |positions| && positions[i].exceedsThreshold
                && b == Breach(NameOf(m, positions[i].assetId), positions[i].weight)
  {
    if positions != [] {
      var n := |positions| - 1;
      PositionBreachesExact(m, positions[..n], b);
      if b in PositionBreaches(m, positions[..n]) {
        var i :| 0 <= i < n && positions[..n][i].exceedsThreshold
          && b == Breach(NameOf(m, positions[..n][i].assetId), positions[..n][i].weight);
        assert positions[i].exceedsThreshold;
      }
      assert forall i :: 0 <= i < n ==> positions[i] == positions[..n][i];
    }
  }

  lemma {:induction false} SectorBreachesExact(sectors: seq<SectorWeight>, b: Breach)
    ensures b in SectorBreaches(sectors) <==>
              exists i :: 0 <= i < |sectors| && sectors[i].exceedsThreshold && sectors[i].sector != UNKNOWN
                && b == Breach(sectors[i].sector, sectors[i].weight)
  {
    if sectors != [] {
      var n := |sectors| - 1;
      SectorBreachesExact(sectors[..n], b);
      if b in SectorBreaches(sectors[..n]) {
        var i :| 0 <= i < n && sectors[..n][i].exceedsThreshold && sectors[..n][i].sector != UNKNOWN
          && b == Breach(sectors[..n][i].sector, sectors[..n][i].weight);
        assert sectors[i].exceedsThreshold;
      }
      assert forall i :: 0 <= i < n ==> sectors[i] == sectors[..n][i];
    }
  }

  /** HIGH from one and a half times the threshold on, and MEDIUM below. */
  predicate LevelFits(level: Level, weight: real, threshold: real) {
    level == HIGH <==> weight >= 1.5 * threshold
  }

  /** The row of a position above the threshold calls for the exposure; it goes by the symbol of the asset, or by its
      number when there is no such asset. */
  predicate NameCalls(m: Market, threshold: real, row: PositionWeight, e: Exposure) {
    && row.exceedsThreshold
    && e.code.SingleNameConcentration?
    && e.code.symbol == (if row.assetId in m.assets then m.assets[row.assetId].symbol else ShowNat(row.assetId))
    && LevelFits(e.level, row.weight, threshold)
  }

  /** The row of a known sector above the threshold calls for the exposure. */
  predicate SectorCalls(threshold: real, row: SectorWeight, e: Exposure) {
    && row.exceedsThreshold
    && row.sector != "UNKNOWN"
    && e.code == SectorConcentration(row.sector)
    && LevelFits(e.level, row.weight, threshold)
  }

  /** The rows that call for the exposure. */
  function NameRows(m: Market, threshold: real, rows: seq<PositionWeight>, e: Exposure): set<nat> {
    set i: nat | i < |rows| && NameCalls(m, threshold, rows[i], e)
  }

  function SectorRows(threshold: real, rows: seq<SectorWeight>, e: Exposure): set<nat> {
    set i: nat | i < |rows| && SectorCalls(threshold, rows[i], e)
  }

  lemma NameExposuresGrow(breaches: seq<Breach>, b: Breach, high: real)
    ensures NameExposures(breaches + [b], high)
         == NameExposures(breaches, high) + [Exposure(SingleNameConcentration(b.name), RiskLevel(b.weight, high))]
    ensures SectorExposures(breaches + [b], high)
         == SectorExposures(breaches, high) + [Exposure(SectorConcentration(b.name), RiskLevel(b.weight, high))]
  {
  }

  lemma CountOneMore(xs: seq<Exposure>, x: Exposure, e: Exposure)
    ensures multiset(xs + [x])[e] == multiset(xs)[e] + if x == e then 1 else 0
  {
  }

  lemma NameRowsGrow(m: Market, threshold: real, rows: seq<PositionWeight>, e: Exposure)
    requires rows != []
    ensures var n := |rows| - 1;
            |NameRows(m, threshold, rows, e)|
            == |NameRows(m, threshold, rows[..n], e)| + if NameCalls(m, threshold, rows[n], e) then 1 else 0
  {
    var n := |rows| - 1;
    assert forall i :: 0 <= i < n ==> rows[..n][i] == rows[i];
    assert NameRows(m, threshold, rows, e)
        == NameRows(m, threshold, rows[..n], e) + if NameCalls(m, threshold, rows[n], e) then {n} else {};
  }

  lemma SectorRowsGrow(threshold: real, rows: seq<SectorWeight>, e: Exposure)
    requires rows != []
    ensures var n := |rows| - 1;
            |SectorRows(threshold, rows, e)|
            == |SectorRows(threshold, rows[..n], e)| + if SectorCalls(threshold, rows[n], e) then 1 else 0
  {
    var n := |rows| - 1;
    assert forall i :: 0 <= i < n ==> rows[..n][i] == rows[i];
    assert SectorRows(threshold, rows, e)
        == SectorRows(threshold, rows[..n], e) + if SectorCalls(threshold, rows[n], e) then {n} else {};
  }

  /** Each row above the threshold puts one exposure on the list. */
  lemma {:induction false} NamesCounted(m: Market, threshold: real, rows: seq<PositionWeight>, e: Exposure)
    ensures multiset(NameExposures(PositionBreaches(m, rows), threshold * RISK_LEVEL_HIGH_MULTIPLIER))[e]
         == |NameRows(m, threshold, rows, e)|
  {
    var high := threshold * RISK_LEVEL_HIGH_MULTIPLIER;
    if rows == [] {
      assert NameRows(m, threshold, rows, e) == {};
    } else {
      var n := |rows| - 1;
      var head, b := PositionBreaches(m, rows[..n]), Breach(NameOf(m, rows[n].assetId), rows[n].weight);
      NamesCounted(m, threshold, rows[..n], e);
      NameRowsGrow(m, threshold, rows, e);
      NameExposuresGrow(head, b, high);
      var one := Exposure(SingleNameConcentration(b.name), RiskLevel(b.weight, high));
      CountOneMore(NameExposures(head, high), one, e);
      assert rows[n].exceedsThreshold ==> (one == e <==> NameCalls(m, threshold, rows[n], e));
      assert head + [] == head;
    }
  }

  lemma {:induction false} SectorsCounted(threshold: real, rows: seq<SectorWeight>, e: Exposure)
    ensures multiset(SectorExposures(SectorBreaches(rows), threshold * RISK_LEVEL_HIGH_MULTIPLIER))[e]
         == |SectorRows(threshold, rows, e)|
  {
    var high := threshold * RISK_LEVEL_HIGH_MULTIPLIER;
    if rows == [] {
      assert SectorRows(threshold, rows, e) == {};
    } else {
      var n := |rows| - 1;
      var head, b := SectorBreaches(rows[..n]), Breach(rows[n].sector, rows[n].weight);
      SectorsCounted(threshold, rows[..n], e);
      SectorRowsGrow(threshold, rows, e);
      NameExposuresGrow(head, b, high);
      var one := Exposure(SectorConcentration(b.name), RiskLevel(b.weight, high));
      CountOneMore(SectorExposures(head, high), one, e);
      assert rows[n].exceedsThreshold && rows[n].sector != UNKNOWN ==>
        (one == e <==> SectorCalls(threshold, rows[n], e));
      assert head + [] == head;
    }
  }

  /** Cash is short, HIGH below 5 percent and MEDIUM below 15, of a portfolio that is not worth nothing. */
  predicate CashShort(cashWeight: real, total: real, e: Exposure) {
    && e.code == CashShortage
    && total != 0.0
    && cashWeight < 0.15
    && (e.level == HIGH <==> cashWeight < 0.05)
  }

  /** What a breach turns into is listed once for each, whatever the order. */
  lemma SortedExposures(breaches: seq<Breach>, high: real)
    ensures multiset(NameExposures(Sort(breaches, BreachLe), high)) == multiset(NameExposures(breaches, high))
    ensures multiset(SectorExposures(Sort(breaches, BreachLe), high)) == multiset(SectorExposures(breaches, high))
  {
    var sorted := Sort(breaches, BreachLe);
    var name := (b: Breach) => Exposure(SingleNameConcentration(b.name), RiskLevel(b.weight, high));
    var sector := (b: Breach) => Exposure(SectorConcentration(b.name), RiskLevel(b.weight, high));
    SortMaps(breaches, BreachLe, name);
    SortMaps(breaches, BreachLe, sector);
    assert NameExposures(sorted, high) == Map(sorted, name) && NameExposures(breaches, high) == Map(breaches, name);
    assert SectorExposures(sorted, high) == Map(sorted, sector);
    assert SectorExposures(breaches, high) == Map(breaches, sector);
  }

  /** Some row of weight `x` calls for the exposure. */
  ghost predicate Backed(m: Market, w: Weights, threshold: real, e: Exposure, x: real) {
    match e.code
    case SectorConcentration(_) =>
      exists i :: 0 <= i < |w.sectors| && SectorCalls(threshold, w.sectors[i], e) && w.sectors[i].weight == x
    case SingleNameConcentration(_) =>
      exists i :: 0 <= i < |w.positions| && NameCalls(m, threshold, w.positions[i], e) && w.positions[i].weight == x
    case CashShortage => true
  }

  /** `a`, of weight `x`, is listed before `b`, of weight `y`: sectors come before names and names before cash, and in
      each of the first two groups the heavier before the lighter and equal weights by name. */
  predicate Precedes(a: Exposure, x: real, b: Exposure, y: real) {
    match (a.code, b.code)
    case (SectorConcentration(s), SectorConcentration(t)) => x > y || (x == y && TextLe(s, t))
    case (SingleNameConcentration(s), SingleNameConcentration(t)) => x > y || (x == y && TextLe(s, t))
    case (SectorConcentration(_), _) => true
    case (SingleNameConcentration(_), CashShortage) => true
    case _ => false
  }

  ghost predicate InOrder(m: Market, w: Weights, threshold: real, exposures: seq<Exposure>, xs: seq<real>) {
    && |xs| == |exposures|
    && (forall i :: 0 <= i < |xs| ==> Backed(m, w, threshold, exposures[i], xs[i]))
    && (forall i, j :: 0 <= i < j < |xs| ==> Precedes(exposures[i], xs[i], exposures[j], xs[j]))
  }

  function BreachWeights(breaches: seq<Breach>): seq<real> {
    seq(|breaches|, i requires 0 <= i < |breaches| => breaches[i].weight)
  }

  lemma SectorsInOrder(m: Market, w: Weights, threshold: real)
    ensures var sorted := Sort(SectorBreaches(w.sectors), BreachLe);
            var exposures := SectorExposures(sorted, threshold * RISK_LEVEL_HIGH_MULTIPLIER);
            InOrder(m, w, threshold, exposures, BreachWeights(sorted))
  {
    var breaches := SectorBreaches(w.sectors);
    var sorted := Sort(breaches, BreachLe);
    var exposures := SectorExposures(sorted, threshold * RISK_LEVEL_HIGH_MULTIPLIER);
    BreachesInOrder(breaches);
    forall i | 0 <= i < |sorted| ensures Backed(m, w, threshold, exposures[i], sorted[i].weight) {
      SortMembers(breaches, BreachLe, sorted[i]);
      SectorBreachesExact(w.sectors, sorted[i]);
      var k :| 0 <= k < |w.sectors| && w.sectors[k].exceedsThreshold && w.sectors[k].sector != UNKNOWN
            && sorted[i] == Breach(w.sectors[k].sector, w.sectors[k].weight);
      assert SectorCalls(threshold, w.sectors[k], exposures[i]);
    }
  }

  lemma NamesInOrder(m: Market, w: Weights, threshold: real)
    ensures var sorted := Sort(PositionBreaches(m, w.positions), BreachLe);
            var exposures := NameExposures(sorted, threshold * RISK_LEVEL_HIGH_MULTIPLIER);
            InOrder(m, w, threshold, exposures, BreachWeights(sorted))
  {
    var breaches := PositionBreaches(m, w.positions);
    var sorted := Sort(breaches, BreachLe);
    var exposures := NameExposures(sorted, threshold * RISK_LEVEL_HIGH_MULTIPLIER);
    BreachesInOrder(breaches);
    forall i | 0 <= i < |sorted| ensures Backed(m, w, threshold, exposures[i], sorted[i].weight) {
      SortMembers(breaches, BreachLe, sorted[i]);
      PositionBreachesExact(m, w.positions, sorted[i]);
      var k :| 0 <= k < |w.positions| && w.positions[k].exceedsThreshold
            && sorted[i] == Breach(NameOf(m, w.positions[k].assetId), w.positions[k].weight);
      assert NameCalls(m, threshold, w.positions[k], exposures[i]);
    }
  }

  lemma OrderedPair(
    m: Market, w: Weights, threshold: real, a: seq<Exposure>, b: seq<Exposure>, xs: seq<real>, ys: seq<real>)
    requires InOrder(m, w, threshold, a, xs) && InOrder(m, w, threshold, b, ys)
    requires forall i, j :: 0 <= i < |a| && 0 <= j < |b| ==> Precedes(a[i], xs[i], b[j], ys[j])
    ensures InOrder(m, w, threshold, a + b, xs + ys)
  {
    var ab, xys := a + b, xs + ys;
    assert forall i :: 0 <= i < |a| ==> ab[i] == a[i] && xys[i] == xs[i];
    assert forall j :: |a| <= j < |ab| ==> ab[j] == b[j - |a|] && xys[j] == ys[j - |a|];
  }

  lemma OrderedGroups(
    m: Market, w: Weights, threshold: real, a: seq<Exposure>, b: seq<Exposure>, c: seq<Exposure>,
    xs: seq<real>, ys: seq<real>)
    requires InOrder(m, w, threshold, a, xs) && InOrder(m, w, threshold, b, ys) && |c| <= 1
    requires forall k :: 0 <= k < |a| ==> a[k].code.SectorConcentration?
    requires forall k :: 0 <= k < |b| ==> b[k].code.SingleNameConcentration?
    requires forall k :: 0 <= k < |c| ==> c[k].code.CashShortage?
    ensures exists zs :: InOrder(m, w, threshold, a + b + c, zs)
  {
    var zs := seq(|c|, i => 0.0);
    OrderedPair(m, w, threshold, a, b, xs, ys);
    assert forall i :: 0 <= i < |a + b| ==> !(a + b)[i].code.CashShortage?;
    OrderedPair(m, w, threshold, a + b, c, xs + ys, zs);
  }

  /** The order of the list: sectors, then names, then cash; in each of the first two groups the heaviest first and
      equal weights by name. */
  lemma HeaviestFirst(m: Market, w: Weights, cashWeight: real, threshold: real)
    ensures exists xs :: InOrder(m, w, threshold, RiskExposures(m, w, cashWeight, threshold), xs)
  {
    var high := threshold * RISK_LEVEL_HIGH_MULTIPLIER;
    var sectors, names := Sort(SectorBreaches(w.sectors), BreachLe), Sort(PositionBreaches(m, w.positions), BreachLe);
    SectorsInOrder(m, w, threshold);
    NamesInOrder(m, w, threshold);
    OrderedGroups(
      m, w, threshold, SectorExposures(sectors, high), NameExposures(names, high),
      CashExposures(cashWeight, w.totalValue), BreachWeights(sectors), BreachWeights(names));
    assert RiskExposures(m, w, cashWeight, threshold)
        == SectorExposures(sectors, high) + NameExposures(names, high) + CashExposures(cashWeight, w.totalValue);
  }

  lemma BreachesInOrder(breaches: seq<Breach>)
    ensures multiset(Sort(breaches, BreachLe)) == multiset(breaches)
    ensures SortedBy(Sort(breaches, BreachLe), BreachLe)
  {
    BreachOrder();
    SortPermutes(breaches, BreachLe);
    SortSorts(breaches, BreachLe);
  }

  lemma CountsAdd(a: seq<Exposure>, b: seq<Exposure>, c: seq<Exposure>, e: Exposure)
    ensures multiset(a + b + c)[e] == multiset(a)[e] + multiset(b)[e] + multiset(c)[e]
  {
  }

  lemma CashCounted(cashWeight: real, total: real, e: Exposure)
    ensures multiset(CashExposures(cashWeight, total))[e] == if CashShort(cashWeight, total, e) then 1 else 0
  {
  }

  /** What is reported, exactly: an exposure is listed once for each known sector above the threshold, and for each
      position above it, that calls for it, HIGH from one and a half times the threshold on; and cash when it is
      short. */
  lemma ExposuresAreExact(m: Market, w: Weights, cashWeight: real, threshold: real, e: Exposure)
    ensures multiset(RiskExposures(m, w, cashWeight, threshold))[e]
         == |SectorRows(threshold, w.sectors, e)|
            + |NameRows(m, threshold, w.positions, e)|
            + if CashShort(cashWeight, w.totalValue, e) then 1 else 0
    ensures e in RiskExposures(m, w, cashWeight, threshold) <==>
              || (exists i :: 0 <= i < |w.sectors| && SectorCalls(threshold, w.sectors[i], e))
              || (exists i :: 0 <= i < |w.positions| && NameCalls(m, threshold, w.positions[i], e))
              || CashShort(cashWeight, w.totalValue, e)
  {
    var high := threshold * RISK_LEVEL_HIGH_MULTIPLIER;
    SortedExposures(SectorBreaches(w.sectors), high);
    SortedExposures(PositionBreaches(m, w.positions), high);
    SectorsCounted(threshold, w.sectors, e);
    NamesCounted(m, threshold, w.positions, e);
    CashCounted(cashWeight, w.totalValue, e);
    CountsAdd(
      SectorExposures(Sort(SectorBreaches(w.sectors), BreachLe), high),
      NameExposures(Sort(PositionBreaches(m, w.positions), BreachLe), high),
      CashExposures(cashWeight, w.totalValue), e);
    RowsExist(m, w, threshold, e);
    assert e in RiskExposures(m, w, cashWeight, threshold)
      <==> multiset(RiskExposures(m, w, cashWeight, threshold))[e] > 0;
  }

  lemma RowsExist(m: Market, w: Weights, threshold: real, e: Exposure)
    ensures |SectorRows(threshold, w.sectors, e)| > 0
        <==> exists i :: 0 <= i < |w.sectors| && SectorCalls(threshold, w.sectors[i], e)
    ensures |NameRows(m, threshold, w.positions, e)| > 0
        <==> exists i :: 0 <= i < |w.positions| && NameCalls(m, threshold, w.positions[i], e)
  {
    if i :| 0 <= i < |w.sectors| && SectorCalls(threshold, w.sectors[i], e) {
      assert i in SectorRows(threshold, w.sectors, e);
    }
    if i :| 0 <= i < |w.positions| && NameCalls(m, threshold, w.positions[i], e) {
      assert i in NameRows(m, threshold, w.positions, e);
    }
    if |SectorRows(threshold, w.sectors, e)| > 0 {
      var i :| i in SectorRows(threshold, w.sectors, e);
    }
    if |NameRows(m, threshold, w.positions, e)| > 0 {
      var i :| i in NameRows(m, threshold, w.positions, e);
    }
  }

  /** The fields of the summary beside its rows and exposures: what was given, the part cash is of the total, and
      whether a sector row weighs more than the threshold. */
  lemma SummaryFieldsAreExact(m: Market, ps: seq<Position>, cash: real, threshold: real)
    ensures var s := SummaryOf(m, ps, cash, threshold);
            && s.threshold == threshold
            && s.cashBalance == cash
            && IsPart(s.cashWeight, cash, s.weights.totalValue)
            && (s.hasSectorConcentration <==>
                  exists i :: 0 <= i < |s.weights.sectors| && s.weights.sectors[i].weight > threshold)
            && s.weights == WeightsOf(m, ps, cash, threshold)
            && s.exposures == RiskExposures(m, s.weights, s.cashWeight, threshold)
  {
    var w := WeightsOf(m, ps, cash, threshold);
    WeightIsPart(cash, w.totalValue);
    assert forall i :: 0 <= i < |w.sectors| ==>
      (w.sectors[i].exceedsThreshold <==> w.sectors[i].weight > threshold);
  }

  // ----- The briefing's flag -----

  lemma {:induction false} LargestIsMax(positions: seq<PositionWeight>, threshold: real)
    requires positions != []
    ensures LargestWeight(positions) > threshold
        <==> exists i :: 0 <= i < |positions| && positions[i].weight > threshold
  {
    var n := |positions| - 1;
    if n > 0 {
      LargestIsMax(positions[..n], threshold);
      assert forall i :: 0 <= i < n ==> positions[..n][i] == positions[i];
      if LargestWeight(positions[..n]) > threshold {
        var i :| 0 <= i < n && positions[..n][i].weight > threshold;
        assert positions[i].weight > threshold;
      }
    } else {
      assert positions[0].weight == LargestWeight(positions);
    }
  }

  ghost predicate AnyPositionExceeds(w: Weights) {
    exists i :: 0 <= i < |w.positions| && w.positions[i].exceedsThreshold
  }

  /** The row of the snapshot says of a position what the summary and the three look-ups have: its symbol or its
      number, its sector or `UNKNOWN`, its weight, and its change or zero. */
  predicate BriefedPosition(
    row: PositionWeight, b: BriefingPosition, symbols: map<nat, string>, sectors: map<nat, string>,
    changes: map<nat, real>)
  {
    && b.symbol == (if row.assetId in symbols then symbols[row.assetId] else ShowNat(row.assetId))
    && b.sector == (if row.assetId in sectors then sectors[row.assetId] else "UNKNOWN")
    && b.weight == row.weight
    && b.dailyChangePercent == (if row.assetId in changes then changes[row.assetId] else 0.0)
  }

  lemma {:induction false} LargestIsAttained(positions: seq<PositionWeight>)
    ensures positions == [] ==> LargestWeight(positions) == 0.0
    ensures positions != [] ==>
              && (exists i :: 0 <= i < |positions| && positions[i].weight == LargestWeight(positions))
              && (forall i :: 0 <= i < |positions| ==> positions[i].weight <= LargestWeight(positions))
  {
    if |positions| > 1 {
      var n := |positions| - 1;
      LargestIsAttained(positions[..n]);
      assert forall i :: 0 <= i < n ==> positions[..n][i] == positions[i];
      var k :| 0 <= k < n && positions[..n][k].weight == LargestWeight(positions[..n]);
      assert positions[if positions[n].weight > LargestWeight(positions[..n]) then n else k].weight
          == LargestWeight(positions);
    } else if positions != [] {
      assert positions[0].weight == LargestWeight(positions);
    }
  }

  /** What the snapshot sent to the cloud holds of a summary: rows in order with their weights, the largest position
      weight, and the threshold, cash weight, day change and exposures as they are. Amounts of money, quantities and
      prices are not in it. */
  lemma BriefingIsExact(
    s: Summary, symbols: map<nat, string>, sectors: map<nat, string>, changes: map<nat, real>)
    ensures var b, w := BriefingOf(s, symbols, sectors, changes), s.weights;
            && |b.positions| == |w.positions| && |b.sectors| == |w.sectors|
            && (forall i :: 0 <= i < |b.positions| ==>
                  BriefedPosition(w.positions[i], b.positions[i], symbols, sectors, changes))
            && (forall i :: 0 <= i < |b.sectors| ==>
                  b.sectors[i] == BriefingSector(w.sectors[i].sector, w.sectors[i].weight))
            && (w.positions == [] ==> b.largestPositionWeight == 0.0)
            && (w.positions != [] ==>
                  exists i :: 0 <= i < |w.positions| && w.positions[i].weight == b.largestPositionWeight)
            && (forall i :: 0 <= i < |w.positions| ==> w.positions[i].weight <= b.largestPositionWeight)
            && b.concentrationThreshold == s.threshold
            && b.cashWeight == s.cashWeight
            && b.dayChangePercent == w.dayChangePercent
            && b.exposures == s.exposures
  {
    LargestIsAttained(s.weights.positions);
  }

  /** The flag sent to the cloud says that some position is above the threshold, except for an empty portfolio with
      a negative threshold, when it is on although there is no position. */
  lemma BriefingFlagsConcentration(
    m: Market, ps: seq<Position>, cash: real, threshold: real,
    symbols: map<nat, string>, sectors: map<nat, string>, changes: map<nat, real>)
    ensures var s := SummaryOf(m, ps, cash, threshold);
            (BriefingOf(s, symbols, sectors, changes).isConcentrated <==> AnyPositionExceeds(s.weights))
            <==> ps != [] || threshold >= 0.0
  {
    var w := WeightsOf(m, ps, cash, threshold);
    if ps != [] {
      LargestIsMax(w.positions, threshold);
      assert forall i :: 0 <= i < |ps| ==> (w.positions[i].exceedsThreshold <==> w.positions[i].weight > threshold);
    }
  }
}
