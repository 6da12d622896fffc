/** The price ingestion run: fetch, keep the raw payload, validate, upsert, and count. */
module PriceIngestion {
  import opened Common
  import opened Sorting
  import Prices
  import PriceTable

  /** What one target brings: bars with the hash of the raw payload, or an exception before anything is stored. */
  datatype Delivery = Delivered(payloadHash: string, bars: seq<Prices.Bar>) | ProviderFailed

  datatype Target = Target(market: string, delivery: Delivery)

  /** Hashes of the raw payloads kept so far, the bar table, and the state of the session all targets share: a
      refused commit breaks it, and until a rollback, which no step of a run makes, every statement on it raises. */
  datatype Tables = Tables(hashes: set<string>, rows: seq<PriceTable.Row>, broken: bool)

  datatype SessionError = PendingRollback

  datatype Ledger = Ledger(
    targets: nat, success: nat, failure: nat, rawSaved: nat, rawSkipped: nat,
    received: nat, saved: nat, dropped: nat, warnings: nat)

  const EMPTY_LEDGER := Ledger(0, 0, 0, 0, 0, 0, 0, 0, 0)

  function ToRow(bar: Prices.Bar): PriceTable.Row
    requires !Prices.MissingPrice(bar)
  {
    PriceTable.Row(
      PriceTable.Key(bar.symbol, bar.market, bar.interval, bar.timestamp),
      PriceTable.Values(
        bar.open.value, bar.high.value, bar.low.value, bar.close.value, bar.adjustedClose.value,
        bar.volume, bar.currency, bar.source))
  }

  function ToRows(bars: seq<Prices.Bar>): seq<PriceTable.Row>
    requires forall i :: 0 <= i < |bars| ==> !Prices.MissingPrice(bars[i])
  {
    seq(|bars|, i requires 0 <= i < |bars| => ToRow(bars[i]))
  }

  lemma ValidBarsComplete(bars: seq<Prices.Bar>, market: string, today: nat)
    ensures var valid := Prices.Validate(bars, market, today).valid;
            forall i :: 0 <= i < |valid| ==> !Prices.MissingPrice(valid[i])
  {
    Prices.ValidationKeeps(bars, market, today);
    var valid := Prices.Validate(bars, market, today).valid;
    forall i | 0 <= i < |valid| ensures Prices.Keeps(valid[i], today) {
      assert valid[i] in valid;
    }
  }

  /** One target. A refused upsert leaves the raw payload stored, counts the target as failed and breaks the session;
      on a broken session a delivered target is counted as failed and nothing is stored. */
  function CollectTarget(t: Tables, ledger: Ledger, target: Target, today: nat): (Tables, Ledger) {
    match target.delivery
    case ProviderFailed => (t, ledger.(failure := ledger.failure + 1))
    case Delivered(payloadHash, bars) =>
      if t.broken then (t, ledger.(failure := ledger.failure + 1))
      else
        var isNew := payloadHash !in t.hashes;
        var hashes := t.hashes + {payloadHash};
        var v := Prices.Validate(bars, target.market, today);
        ValidBarsComplete(bars, target.market, today);
        match PriceTable.Upsert(t.rows, ToRows(v.valid))
        case Err(_) => (Tables(hashes, t.rows, true), ledger.(failure := ledger.failure + 1))
        case Ok(rows) =>
          (Tables(hashes, rows, false),
           ledger.(
             success := ledger.success + 1,
             rawSaved := ledger.rawSaved + if isNew then 1 else 0,
             rawSkipped := ledger.rawSkipped + if isNew then 0 else 1,
             received := ledger.received + |bars|,
             saved := ledger.saved + |v.valid|,
             dropped := ledger.dropped + v.dropped,
             warnings := ledger.warnings + v.warnings))
  }

  function Collect(t: Tables, targets: seq<Target>, today: nat): (Tables, Ledger) {
    if targets == [] then (t, EMPTY_LEDGER)
    else
      var (before, ledger) := Collect(t, targets[..|targets| - 1], today);
      var (after, counted) := CollectTarget(before, ledger, targets[|targets| - 1], today);
      (after, counted.(targets := counted.targets + 1))
  }

  class PriceIngestionService {
    var hashes: set<string>
    var broken: bool
    const priceRepo: PriceTable.PriceBarRepository

    constructor (priceRepo: PriceTable.PriceBarRepository)
      ensures this.priceRepo == priceRepo && hashes == {} && !broken
    {
      this.priceRepo := priceRepo;
      hashes, broken := {}, false;
    }

    function View(): Tables
      reads this, priceRepo
    {
      Tables(hashes, priceRepo.rows, broken)
    }

    method CollectAndSave(targets: seq<Target>, today: nat) returns (ledger: Ledger)
      modifies this`hashes, this`broken, priceRepo
      ensures (View(), ledger) == Collect(old(View()), targets, today)
    {
      ghost var start := View();
      ledger := EMPTY_LEDGER;
      for i := 0 to |targets|
        invariant (View(), ledger) == Collect(start, targets[..i], today)
      {
        assert targets[..i + 1][..i] == targets[..i];
        ledger := CollectOneTarget(targets[i], today, ledger);
        ledger := ledger.(targets := ledger.targets + 1);
      }
      assert targets[..|targets|] == targets;
    }

    method CollectOneTarget(target: Target, today: nat, before: Ledger) returns (ledger: Ledger)
      modifies this`hashes, this`broken, priceRepo
      ensures (View(), ledger) == CollectTarget(old(View()), before, target, today)
    {
      if target.delivery.ProviderFailed? {
        return before.(failure := before.failure + 1);
      }
      var isNew := SaveRaw(target.delivery.payloadHash);
      if isNew.Err? {
        return before.(failure := before.failure + 1);
      }
      var v := Prices.ValidateBars(target.delivery.bars, target.market, today);
      ValidBarsComplete(target.delivery.bars, target.market, today);
      var upserted := priceRepo.UpsertBars(ToRows(v.valid));
      if upserted.Err? {
        broken := true;
        return before.(failure := before.failure + 1);
      }
      ledger := before.(
        success := before.success + 1,
        rawSaved := before.rawSaved + if isNew.value then 1 else 0,
        rawSkipped := before.rawSkipped + if isNew.value then 0 else 1,
        received := before.received + |target.delivery.bars|,
        saved := before.saved + upserted.value,
        dropped := before.dropped + v.dropped,
        warnings := before.warnings + v.warnings);
    }

    /** Looks the hash up first, so that it is this statement that a broken session refuses. */
    method SaveRaw(payloadHash: string) returns (isNew: Result<bool, SessionError>)
      modifies this`hashes
      ensures broken ==> isNew == Err(PendingRollback) && hashes == old(hashes)
      ensures !broken ==> isNew == Ok(payloadHash !in old(hashes)) && hashes == old(hashes) + {payloadHash}
    {
      if broken {
        return Err(PendingRollback);
      }
      isNew := Ok(payloadHash !in hashes);
      hashes := hashes + {payloadHash};
    }
  }

  /** The ledger of a run adds up, whatever fails. */
  ghost predicate Balanced(ledger: Ledger) {
    && ledger.success + ledger.failure == ledger.targets
    && ledger.rawSaved + ledger.rawSkipped == ledger.success
    && ledger.received == ledger.saved + ledger.dropped
    && ledger.warnings <= 2 * ledger.saved
  }

  lemma CollectTargetBalancesRows(t: Tables, ledger: Ledger, target: Target, today: nat)
    requires PriceTable.UniqueKeys(t.rows)
    ensures PriceTable.UniqueKeys(CollectTarget(t, ledger, target, today).0.rows)
  {
    if target.delivery.Delivered? {
      PriceTable.UpsertMerges(t.rows, KeptRows(target, today));
    }
  }

  lemma CollectTargetBalances(t: Tables, ledger: Ledger, target: Target, today: nat)
    requires PriceTable.UniqueKeys(t.rows) && Balanced(ledger)
    ensures var (after, counted) := CollectTarget(t, ledger, target, today);
            PriceTable.UniqueKeys(after.rows) && Balanced(counted.(targets := counted.targets + 1))
  {
    match target.delivery
    case ProviderFailed =>
    case Delivered(_, bars) =>
      Prices.ValidationKeepsBooks(bars, target.market, today);
      ValidBarsComplete(bars, target.market, today);
      PriceTable.UpsertMerges(t.rows, ToRows(Prices.Validate(bars, target.market, today).valid));
  }

  /** For every list of targets and any failures: success + failure = targets, raw saved + raw skipped = success,
      received = saved + dropped, at most two warnings a saved bar, and the bar table keeps its unique keys. */
  lemma {:induction false} RunBalances(t: Tables, targets: seq<Target>, today: nat)
    requires PriceTable.UniqueKeys(t.rows)
    ensures var (after, ledger) := Collect(t, targets, today);
            PriceTable.UniqueKeys(after.rows) && Balanced(ledger) && ledger.targets == |targets|
  {
    if targets != [] {
      var n := |targets| - 1;
      RunBalances(t, targets[..n], today);
      var (before, ledger) := Collect(t, targets[..n], today);
      CollectTargetBalances(before, ledger, targets[n], today);
    }
  }

  // ----- Which targets succeed -----

  /** The rows of a delivery that validation keeps. */
  function KeptRows(target: Target, today: nat): seq<PriceTable.Row>
    requires target.delivery.Delivered?
  {
    ValidBarsComplete(target.delivery.bars, target.market, today);
    ToRows(Prices.Validate(target.delivery.bars, target.market, today).valid)
  }

  /** A delivered target succeeds exactly when the session is not broken and no key that is new to the table comes
      twice among its kept bars; one that fails leaves the table alone, and the session broken. */
  lemma DeliverySucceedsExactlyWhen(t: Tables, ledger: Ledger, target: Target, today: nat)
    requires PriceTable.UniqueKeys(t.rows) && target.delivery.Delivered?
    ensures var (after, counted) := CollectTarget(t, ledger, target, today);
            var succeeds := !t.broken && PriceTable.NewKeysOnce(t.rows, KeptRows(target, today));
            && (counted.success == ledger.success + 1 <==> succeeds)
            && (counted.failure == ledger.failure + 1 <==> !succeeds)
            && (after.broken <==> !succeeds)
            && (!succeeds ==> after.rows == t.rows)
            && (t.broken ==> after == t)
  {
    PriceTable.UpsertMerges(t.rows, KeptRows(target, today));
  }

  /** The tables when target `i` of a run is reached. */
  function Reached(t: Tables, targets: seq<Target>, i: nat, today: nat): Tables
    requires i <= |targets|
  {
    Collect(t, targets[..i], today).0
  }

  /** Target `i` is delivered and repeats, among its kept bars, a key that is new to the table it meets. */
  predicate Repeats(t: Tables, targets: seq<Target>, i: nat, today: nat) {
    && i < |targets|
    && targets[i].delivery.Delivered?
    && !PriceTable.NewKeysOnce(Reached(t, targets, i, today).rows, KeptRows(targets[i], today))
  }

  ghost predicate RepeatsBefore(t: Tables, targets: seq<Target>, n: nat, today: nat) {
    exists j: nat :: j < n && Repeats(t, targets, j, today)
  }

  lemma RepeatsNext(t: Tables, targets: seq<Target>, i: nat, today: nat)
    ensures RepeatsBefore(t, targets, i + 1, today)
       <==> RepeatsBefore(t, targets, i, today) || Repeats(t, targets, i, today)
  {
  }

  /** The run after one more target. */
  lemma CollectNext(t: Tables, targets: seq<Target>, i: nat, today: nat)
    requires i < |targets|
    ensures var (before, ledger) := Collect(t, targets[..i], today);
            var (after, counted) := CollectTarget(before, ledger, targets[i], today);
            Collect(t, targets[..i + 1], today) == (after, counted.(targets := counted.targets + 1))
  {
    assert targets[..i + 1][..i] == targets[..i];
  }

  /** The session is broken exactly once some target of the run has repeated a new key. */
  lemma {:induction false} BrokenExactlyWhen(t: Tables, targets: seq<Target>, i: nat, today: nat)
    requires PriceTable.UniqueKeys(t.rows) && i <= |targets|
    ensures Reached(t, targets, i, today).broken <==> t.broken || RepeatsBefore(t, targets, i, today)
    decreases i
  {
    if i == 0 {
      assert targets[..0] == [];
    } else {
      var k := i - 1;
      BrokenExactlyWhen(t, targets, k, today);
      RunBalances(t, targets[..k], today);
      CollectNext(t, targets, k, today);
      var (before, ledger) := Collect(t, targets[..k], today);
      if targets[k].delivery.Delivered? {
        DeliverySucceedsExactlyWhen(before, ledger, targets[k], today);
      }
      RepeatsNext(t, targets, k, today);
    }
  }

  /** Over every run: a target succeeds exactly when it is delivered and neither it nor any target before it repeats
      a key that was new to the table, the session being intact at the start; otherwise it is counted as a failure
      and stores no bar, and once the session is broken it stores nothing at all. */
  lemma TargetSucceedsExactlyWhen(t: Tables, targets: seq<Target>, i: nat, today: nat)
    requires PriceTable.UniqueKeys(t.rows) && i < |targets|
    ensures var (before, ledger) := Collect(t, targets[..i], today);
            var (after, counted) := Collect(t, targets[..i + 1], today);
            var succeeds := targets[i].delivery.Delivered? && !t.broken && !RepeatsBefore(t, targets, i + 1, today);
            && (counted.success == ledger.success + 1 <==> succeeds)
            && (counted.failure == ledger.failure + 1 <==> !succeeds)
            && (!succeeds ==> after.rows == before.rows)
            && (t.broken || RepeatsBefore(t, targets, i, today) ==> after == before)
  {
    BrokenExactlyWhen(t, targets, i, today);
    RunBalances(t, targets[..i], today);
    CollectNext(t, targets, i, today);
    var (before, ledger) := Collect(t, targets[..i], today);
    if targets[i].delivery.Delivered? {
      DeliverySucceedsExactlyWhen(before, ledger, targets[i], today);
    }
    RepeatsNext(t, targets, i, today);
  }

  const DEMO_BAR := Prices.Bar(
    "AAA", "NASDAQ", "1d", 0, Some(1.0), Some(1.0), Some(1.0), Some(1.0), Some(1.0), 1, "USD", "provider")

  /** Two bars for one instant, and then a target with a single clean bar. */
  const DEMO_TARGETS := [
    Target("NASDAQ", Delivered("first", [DEMO_BAR, DEMO_BAR])),
    Target("NASDAQ", Delivered("second", [DEMO_BAR.(symbol := "BBB")]))]

  const NO_TABLES := Tables({}, [], false)

  /** Two equal bars with a new key. */
  lemma TwinsRepeat(rows: seq<PriceTable.Row>, target: Target, bar: Prices.Bar, today: nat)
    requires target.delivery.Delivered? && target.delivery.bars == [bar, bar] && Prices.Keeps(bar, today)
    requires !PriceTable.HasKey(rows, ToRow(bar).key)
    ensures !PriceTable.NewKeysOnce(rows, KeptRows(target, today))
  {
    var bars := target.delivery.bars;
    var valid := Prices.Validate(bars, target.market, today).valid;
    OnlyTwins(bars, target.market, bar, today);
    var kept := KeptRows(target, today);
    assert kept[0] == ToRow(valid[0]) && kept[1] == ToRow(valid[1]);
  }

  lemma OnlyTwins(bars: seq<Prices.Bar>, market: string, bar: Prices.Bar, today: nat)
    requires bars == [bar, bar] && Prices.Keeps(bar, today)
    ensures Prices.Validate(bars, market, today).valid == [bar, bar]
  {
    var v := Prices.Validate(bars, market, today);
    Prices.ValidationKeeps(bars, market, today);
    assert v.dropped == 0;
    assert v.valid[0] in v.valid && v.valid[1] in v.valid;
  }

  lemma DemoRepeats(today: nat)
    ensures Repeats(NO_TABLES, DEMO_TARGETS, 0, today)
  {
    assert DEMO_TARGETS[..0] == [];
    TwinsRepeat([], DEMO_TARGETS[0], DEMO_BAR, today);
  }

  /** The first target breaks the session, so the second, clean as it is, fails too and is not stored: one refused
      upsert costs every later target of the run. */
  lemma RefusalFailsTheRest(today: nat)
    ensures var (after, ledger) := Collect(NO_TABLES, DEMO_TARGETS, today);
            ledger.success == 0 && ledger.failure == 2 && after == Tables({"first"}, [], true)
  {
    assert DEMO_TARGETS[..0] == [] && DEMO_TARGETS[..1] == [DEMO_TARGETS[0]] && DEMO_TARGETS[..2] == DEMO_TARGETS;
    DemoRepeats(today);
    CollectNext(NO_TABLES, DEMO_TARGETS, 0, today);
    CollectNext(NO_TABLES, DEMO_TARGETS, 1, today);
    DeliverySucceedsExactlyWhen(NO_TABLES, EMPTY_LEDGER, DEMO_TARGETS[0], today);
  }

  /** What a target adds to the ledger: if it succeeds, its payload as new or known, its bars as kept or dropped, and
      a warning for each kept bar with a wrong currency and each that jumps; otherwise one failure. Its payload is
      kept unless nothing was delivered or the session was broken. */
  lemma TargetCounts(t: Tables, ledger: Ledger, target: Target, today: nat)
    ensures var (after, counted) := CollectTarget(t, ledger, target, today);
            && (counted.success == ledger.success ==> counted == ledger.(failure := ledger.failure + 1))
            && (counted.success != ledger.success ==>
                  && target.delivery.Delivered?
                  && Counted(t, ledger, target.delivery, KeptBars(target, today), target.market, counted))
            && after.hashes == (if target.delivery.ProviderFailed? || t.broken then t.hashes
                                else t.hashes + {target.delivery.payloadHash})
  {
    match target.delivery
    case ProviderFailed =>
    case Delivered(_, bars) => Prices.ValidationKeeps(bars, target.market, today);
  }

  predicate Counted(
    t: Tables, ledger: Ledger, delivery: Delivery, kept: seq<Prices.Bar>, market: string, counted: Ledger)
    requires delivery.Delivered?
  {
    && counted.targets == ledger.targets
    && counted.success == ledger.success + 1
    && counted.failure == ledger.failure
    && counted.rawSaved == ledger.rawSaved + (if delivery.payloadHash in t.hashes then 0 else 1)
    && counted.rawSkipped == ledger.rawSkipped + (if delivery.payloadHash in t.hashes then 1 else 0)
    && counted.received == ledger.received + |delivery.bars|
    && counted.saved == ledger.saved + |kept|
    && counted.dropped - ledger.dropped == |delivery.bars| - |kept|
    && counted.warnings == ledger.warnings + Prices.CountMismatches(kept, market) + Prices.CountOutliers(kept)
  }

  // ----- What the table holds -----

  /** The row holds the bar, field by field. */
  predicate Holds(row: PriceTable.Row, bar: Prices.Bar) {
    && Keyed(row, bar)
    && bar.open == Some(row.values.open)
    && bar.high == Some(row.values.high)
    && bar.low == Some(row.values.low)
    && bar.close == Some(row.values.close)
    && bar.adjustedClose == Some(row.values.adjustedClose)
    && row.values.volume == bar.volume
    && row.values.currency == bar.currency
    && row.values.source == bar.source
  }

  /** The row is about the bar's symbol, market, interval and instant. */
  predicate Keyed(row: PriceTable.Row, bar: Prices.Bar) {
    && row.key.symbol == bar.symbol
    && row.key.market == bar.market
    && row.key.interval == bar.interval
    && row.key.timestamp == bar.timestamp
  }

  /** The bars of a delivery that validation keeps, in order of time. */
  function KeptBars(target: Target, today: nat): seq<Prices.Bar>
    requires target.delivery.Delivered?
  {
    Prices.Validate(target.delivery.bars, target.market, today).valid
  }

  /** The delivery keeps a bar with the row's key. */
  ghost predicate Mentions(target: Target, today: nat, row: PriceTable.Row) {
    && target.delivery.Delivered?
    && exists bar :: bar in target.delivery.bars && Prices.Keeps(bar, today) && Keyed(row, bar)
  }

  /** The row holds the last of the kept bars that have its key. */
  ghost predicate Says(target: Target, today: nat, row: PriceTable.Row) {
    && target.delivery.Delivered?
    && var kept := KeptBars(target, today);
       exists j :: 0 <= j < |kept| && Holds(row, kept[j]) && forall k :: j < k < |kept| ==> !Keyed(row, kept[k])
  }

  lemma HoldsIsToRow(row: PriceTable.Row, bar: Prices.Bar)
    requires !Prices.MissingPrice(bar)
    ensures Holds(row, bar) <==> row == ToRow(bar)
    ensures Keyed(row, bar) <==> row.key == ToRow(bar).key
  {
  }

  lemma MentionsIsKey(target: Target, today: nat, row: PriceTable.Row)
    requires target.delivery.Delivered?
    ensures Mentions(target, today, row) <==> PriceTable.HasKey(KeptRows(target, today), row.key)
  {
    var kept, rows := KeptBars(target, today), KeptRows(target, today);
    ValidBarsComplete(target.delivery.bars, target.market, today);
    Prices.ValidationKeeps(target.delivery.bars, target.market, today);
    if Mentions(target, today, row) {
      var bar :| bar in target.delivery.bars && Prices.Keeps(bar, today) && Keyed(row, bar);
      var i :| 0 <= i < |kept| && kept[i] == bar;
      assert rows[i].key == row.key;
    }
    if PriceTable.HasKey(rows, row.key) {
      var i :| 0 <= i < |rows| && rows[i].key == row.key;
      assert kept[i] in kept && Keyed(row, kept[i]);
    }
  }

  predicate LastAt(rows: seq<PriceTable.Row>, row: PriceTable.Row, j: nat) {
    j < |rows| && rows[j] == row && forall k :: j < k < |rows| ==> rows[k].key != row.key
  }

  lemma {:induction false} LastForAt(rows: seq<PriceTable.Row>, row: PriceTable.Row)
    ensures PriceTable.LastFor(rows, row.key) == Some(row) <==> exists j: nat :: LastAt(rows, row, j)
  {
    if rows != [] {
      var n := |rows| - 1;
      LastForAt(rows[..n], row);
      if rows[n].key == row.key {
        assert rows[n] == row ==> LastAt(rows, row, n);
      } else {
        forall j: nat ensures LastAt(rows, row, j) <==> LastAt(rows[..n], row, j) {
        }
      }
    }
  }

  lemma SaysIsLast(target: Target, today: nat, row: PriceTable.Row)
    requires target.delivery.Delivered?
    ensures Says(target, today, row) <==> PriceTable.LastFor(KeptRows(target, today), row.key) == Some(row)
  {
    var kept, rows := KeptBars(target, today), KeptRows(target, today);
    ValidBarsComplete(target.delivery.bars, target.market, today);
    LastForAt(rows, row);
    forall i | 0 <= i < |kept|
      ensures (Holds(row, kept[i]) <==> rows[i] == row) && (Keyed(row, kept[i]) <==> rows[i].key == row.key)
    {
      HoldsIsToRow(row, kept[i]);
    }
    forall j: nat
      ensures LastAt(rows, row, j) <==>
        j < |kept| && Holds(row, kept[j]) && forall k :: j < k < |kept| ==> !Keyed(row, kept[k])
    {
    }
  }

  /** Membership in a merged table, row by row. */
  lemma MergedRow(
    before: seq<PriceTable.Row>, bars: seq<PriceTable.Row>, after: seq<PriceTable.Row>, row: PriceTable.Row)
    requires PriceTable.UniqueKeys(before) && PriceTable.Merged(before, bars, after)
    ensures row in after <==>
              || PriceTable.LastFor(bars, row.key) == Some(row)
              || (row in before && !PriceTable.HasKey(bars, row.key))
  {
    PriceTable.LastForPresence(bars, row.key);
    if PriceTable.HasKey(bars, row.key) {
      assert PriceTable.HasKey(after, row.key);
    } else {
      UnmentionedStays(before, bars, after, row);
    }
  }

  lemma UnmentionedStays(
    before: seq<PriceTable.Row>, bars: seq<PriceTable.Row>, after: seq<PriceTable.Row>, row: PriceTable.Row)
    requires PriceTable.UniqueKeys(before) && PriceTable.Merged(before, bars, after)
    requires !PriceTable.HasKey(bars, row.key)
    ensures row in after <==> row in before
  {
    PriceTable.LastForPresence(bars, row.key);
    if row in after {
      assert PriceTable.HasKey(after, row.key);
      var i :| 0 <= i < |before| && before[i].key == row.key;
      assert after[i] == before[i];
    }
    if i :| 0 <= i < |before| && before[i] == row {
      assert after[i] == row;
    }
  }

  /** A target that succeeds: the table holds the last kept bar for every key the delivery mentions, and what it held
      before for every other. */
  lemma TargetRefreshes(t: Tables, ledger: Ledger, target: Target, today: nat)
    requires PriceTable.UniqueKeys(t.rows) && target.delivery.Delivered?
    requires !t.broken && PriceTable.NewKeysOnce(t.rows, KeptRows(target, today))
    ensures var after := CollectTarget(t, ledger, target, today).0;
            forall row :: row in after.rows <==>
              Says(target, today, row) || (row in t.rows && !Mentions(target, today, row))
  {
    var rows, after := KeptRows(target, today), CollectTarget(t, ledger, target, today).0;
    PriceTable.UpsertMerges(t.rows, rows);
    forall row ensures row in after.rows <==>
      Says(target, today, row) || (row in t.rows && !Mentions(target, today, row))
    {
      MergedRow(t.rows, rows, after.rows, row);
      SaysIsLast(target, today, row);
      MentionsIsKey(target, today, row);
    }
  }

  /** Target `i` of the run succeeds, as `TargetSucceedsExactlyWhen` has it. */
  ghost predicate Succeeds(t: Tables, targets: seq<Target>, i: nat, today: nat) {
    i < |targets| && targets[i].delivery.Delivered? && !t.broken && !RepeatsBefore(t, targets, i + 1, today)
  }

  /** What row the first `n` targets of a run leave: that of the last successful one that mentions its key or, if none
      does, the one there was. */
  ghost predicate Left(t: Tables, targets: seq<Target>, n: nat, today: nat, row: PriceTable.Row)
    requires n <= |targets|
  {
    || (exists i: nat :: SaysLast(t, targets, i, n, today, row))
    || (row in t.rows && forall i: nat :: i < n && Succeeds(t, targets, i, today) ==> !Mentions(targets[i], today, row))
  }

  /** Target `i` is the last of the first `n` that mentions the row's key and succeeds; the row is the one it says. */
  ghost predicate SaysLast(t: Tables, targets: seq<Target>, i: nat, n: nat, today: nat, row: PriceTable.Row)
    requires n <= |targets|
  {
    && i < n
    && Succeeds(t, targets, i, today)
    && Says(targets[i], today, row)
    && (forall j: nat :: i < j < n && Succeeds(t, targets, j, today) ==> !Mentions(targets[j], today, row))
  }

  /** One more successful target. */
  lemma LeftBySuccess(t: Tables, targets: seq<Target>, n: nat, m: nat, today: nat, row: PriceTable.Row)
    requires m == n + 1 <= |targets| && Succeeds(t, targets, n, today)
    ensures Left(t, targets, m, today, row)
       <==> Says(targets[n], today, row) || (Left(t, targets, n, today, row) && !Mentions(targets[n], today, row))
  {
    if Says(targets[n], today, row) {
      assert SaysLast(t, targets, n, m, today, row);
    }
    forall i: nat | i < n
      ensures SaysLast(t, targets, i, m, today, row)
         <==> SaysLast(t, targets, i, n, today, row) && !Mentions(targets[n], today, row)
    {
    }
  }

  /** One more target that fails. */
  lemma LeftByFailure(t: Tables, targets: seq<Target>, n: nat, m: nat, today: nat, row: PriceTable.Row)
    requires m == n + 1 <= |targets| && !Succeeds(t, targets, n, today)
    ensures Left(t, targets, m, today, row) <==> Left(t, targets, n, today, row)
  {
    forall i: nat ensures SaysLast(t, targets, i, m, today, row) <==> SaysLast(t, targets, i, n, today, row) {
    }
  }

  /** What the table holds after any run: for every key, the last bar kept from the last successful delivery that
      mentions it, field by field; and what it held before for a key that none mentions. Nothing else. */
  lemma {:induction false} RunLeaves(t: Tables, targets: seq<Target>, n: nat, today: nat, row: PriceTable.Row)
    requires PriceTable.UniqueKeys(t.rows) && n <= |targets|
    ensures row in Reached(t, targets, n, today).rows <==> Left(t, targets, n, today, row)
    decreases n
  {
    if n == 0 {
      assert targets[..0] == [];
    } else {
      RunLeaves(t, targets, n - 1, today, row);
      NextLeaves(t, targets, n - 1, today, row);
    }
  }

  lemma NextLeaves(t: Tables, targets: seq<Target>, k: nat, today: nat, row: PriceTable.Row)
    requires PriceTable.UniqueKeys(t.rows) && k < |targets|
    requires row in Reached(t, targets, k, today).rows <==> Left(t, targets, k, today, row)
    ensures row in Reached(t, targets, k + 1, today).rows <==> Left(t, targets, k + 1, today, row)
  {
    TargetSucceedsExactlyWhen(t, targets, k, today);
    if Succeeds(t, targets, k, today) {
      BrokenExactlyWhen(t, targets, k, today);
      RunBalances(t, targets[..k], today);
      CollectNext(t, targets, k, today);
      RepeatsNext(t, targets, k, today);
      var (before, ledger) := Collect(t, targets[..k], today);
      TargetRefreshes(before, ledger, targets[k], today);
      LeftBySuccess(t, targets, k, k + 1, today, row);
    } else {
      LeftByFailure(t, targets, k, k + 1, today, row);
    }
  }

  // ----- Clean deliveries -----

  predicate DistinctBarKeys(bars: seq<Prices.Bar>) {
    forall i, j :: 0 <= i < j < |bars| ==> bars[i].timestamp != bars[j].timestamp
  }

  lemma DistinctNeverRepeats(rows: seq<PriceTable.Row>, target: Target, today: nat)
    requires target.delivery.Delivered? && DistinctBarKeys(target.delivery.bars)
    ensures PriceTable.NewKeysOnce(rows, KeptRows(target, today))
  {
    ValidBarsDistinct(target.delivery.bars, target.market, today);
  }

  /** Of distinct instants, every kept bar is the last with its key. */
  lemma KeptBarSays(target: Target, bar: Prices.Bar, today: nat)
    requires target.delivery.Delivered? && DistinctBarKeys(target.delivery.bars)
    requires bar in target.delivery.bars && Prices.Keeps(bar, today)
    ensures Says(target, today, ToRow(bar))
  {
    var kept := KeptBars(target, today);
    Prices.ValidationKeeps(target.delivery.bars, target.market, today);
    ValidBarsDistinct(target.delivery.bars, target.market, today);
    var j :| 0 <= j < |kept| && kept[j] == bar;
    assert Holds(ToRow(bar), kept[j]);
  }

  /** A delivery that names no instant twice is refused only by a session that is broken already; otherwise every
      kept bar is stored, field by field, in the one row with its key, and the session stays intact. */
  lemma DistinctDeliverySucceeds(t: Tables, ledger: Ledger, target: Target, today: nat)
    requires PriceTable.UniqueKeys(t.rows) && target.delivery.Delivered? && DistinctBarKeys(target.delivery.bars)
    ensures var (after, counted) := CollectTarget(t, ledger, target, today);
            && (counted.success == ledger.success + 1 <==> !t.broken)
            && (counted.failure == ledger.failure + 1 <==> t.broken)
            && after.broken == t.broken
            && PriceTable.UniqueKeys(after.rows)
            && (!t.broken ==>
                  forall bar :: bar in target.delivery.bars && Prices.Keeps(bar, today) ==>
                    exists row :: row in after.rows && Holds(row, bar))
  {
    DistinctNeverRepeats(t.rows, target, today);
    DeliverySucceedsExactlyWhen(t, ledger, target, today);
    CollectTargetBalancesRows(t, ledger, target, today);
    if !t.broken {
      TargetRefreshes(t, ledger, target, today);
      var after := CollectTarget(t, ledger, target, today).0;
      forall bar | bar in target.delivery.bars && Prices.Keeps(bar, today)
        ensures exists row :: row in after.rows && Holds(row, bar)
      {
        KeptBarSays(target, bar, today);
        assert Holds(ToRow(bar), bar);
      }
    }
  }

  /** So in a run of such deliveries on an intact session it is exactly the delivered targets that `RunLeaves` tells the
      table from. */
  lemma CleanTargetsSucceed(t: Tables, targets: seq<Target>, i: nat, today: nat)
    requires !t.broken
    requires forall j :: 0 <= j < |targets| && targets[j].delivery.Delivered? ==>
      DistinctBarKeys(targets[j].delivery.bars)
    ensures Succeeds(t, targets, i, today) <==> i < |targets| && targets[i].delivery.Delivered?
  {
    forall j: nat ensures !Repeats(t, targets, j, today) {
      if j < |targets| && targets[j].delivery.Delivered? {
        DistinctNeverRepeats(Reached(t, targets, j, today).rows, targets[j], today);
      }
    }
  }

  function CountDelivered(targets: seq<Target>): nat {
    if targets == [] then 0
    else CountDelivered(targets[..|targets| - 1]) + if targets[|targets| - 1].delivery.Delivered? then 1 else 0
  }

  /** In a run on an intact session in which no delivery names an instant twice, every delivered target succeeds. */
  lemma {:induction false} CleanRunSucceeds(t: Tables, targets: seq<Target>, today: nat)
    requires PriceTable.UniqueKeys(t.rows) && !t.broken
    requires forall i :: 0 <= i < |targets| && targets[i].delivery.Delivered? ==>
      DistinctBarKeys(targets[i].delivery.bars)
    ensures var (after, ledger) := Collect(t, targets, today);
            && !after.broken
            && ledger.success == CountDelivered(targets)
            && ledger.failure == |targets| - CountDelivered(targets)
  {
    if targets != [] {
      var n := |targets| - 1;
      CleanRunSucceeds(t, targets[..n], today);
      RunBalances(t, targets[..n], today);
      var (before, ledger) := Collect(t, targets[..n], today);
      if targets[n].delivery.Delivered? {
        DistinctDeliverySucceeds(before, ledger, targets[n], today);
      }
    }
  }

  /** Validation neither repeats nor invents timestamps. */
  lemma ValidBarsDistinct(bars: seq<Prices.Bar>, market: string, today: nat)
    requires DistinctBarKeys(bars)
    ensures DistinctBarKeys(Prices.Validate(bars, market, today).valid)
  {
    var sorted := Sort(bars, Prices.TimeLe);
    SortPermutes(bars, Prices.TimeLe);
    DistinctByMultiset(bars, sorted);
    Prices.ScanKeepsBooks(sorted, market, today);
    KeptDistinct(sorted, today);
  }

  lemma {:induction false} KeptDistinct(bars: seq<Prices.Bar>, today: nat)
    requires DistinctBarKeys(bars)
    ensures DistinctBarKeys(Prices.Kept(bars, today))
    ensures forall bar :: bar in Prices.Kept(bars, today) ==> bar in bars
  {
    if bars != [] {
      var n := |bars| - 1;
      KeptDistinct(bars[..n], today);
      var head := Prices.Kept(bars[..n], today);
      forall bar | bar in head ensures bar.timestamp != bars[n].timestamp {
        var i :| 0 <= i < n && bars[..n][i] == bar;
        assert bars[i].timestamp != bars[n].timestamp;
      }
      assert forall i :: 0 <= i < |head| ==> head[i] in head;
    }
  }

  lemma DistinctByMultiset(bars: seq<Prices.Bar>, other: seq<Prices.Bar>)
    requires multiset(bars) == multiset(other) && DistinctBarKeys(bars)
    ensures DistinctBarKeys(other)
  {
    RearrangedNoRepeats(bars, other);
    forall i, j | 0 <= i < j < |other| ensures other[i].timestamp != other[j].timestamp {
      assert other[i] in multiset(bars) && other[j] in multiset(bars);
    }
  }
}
