/** The watchlist analysis flow: fetch, store, summarize, judge, report, signal and alert, asset by asset. */
module Analysis {
  import opened Common
  import opened Tables
  import opened Signals
  import opened Alerts
  import opened News

  datatype NewsSummary = NewsSummary(text: string, impact: Impact)

  /** What the outside world does while one asset is processed. For each news item: the language model's summary
      and verdict (None when the call raises), and the two clock readings of the rule engine. */
  datatype World = World(
    fetch: Fetch,
    thesisId: Option<nat>,
    summarize: nat -> Option<NewsSummary>,
    judge: nat -> Option<Conflict>,
    clock: nat -> (nat, nat))

  datatype Counts = Counts(signals: nat, alerts: nat)

  datatype AssetResult = AssetResult(newsItems: nat, reports: nat, signals: nat, alerts: nat)

  /** One asset of the watchlist; `present` says whether the asset row is still there. */
  datatype WatchItem = WatchItem(assetId: nat, present: bool, world: World)

  datatype FlowResult = FlowResult(
    processed: nat, newsItems: nat, reports: nat, signals: nat, alerts: nat, failures: seq<nat>)

  /** The first raw event with a URL; the URL is known to be stored. */
  function RawIdOf(raw: seq<RawEvent>, url: string): Option<nat> {
    if raw == [] then None
    else if RawIdOf(raw[..|raw| - 1], url).Some? then RawIdOf(raw[..|raw| - 1], url)
    else if raw[|raw| - 1].url == url then Some(|raw| - 1)
    else None
  }

  function SaveAll(raw: seq<RawEvent>, entries: seq<(Entry, nat)>): seq<RawEvent> {
    if entries == [] then raw
    else InsertRaw(SaveAll(raw, entries[..|entries| - 1]), EventFor(entries[|entries| - 1].0, None, None))
  }

  /** One news item for each fetched URL that has none yet; returns the table and the new identifiers. */
  function CreateItems(t: Snapshot, assetId: nat, entries: seq<(Entry, nat)>): (seq<NewsItem>, seq<nat>) {
    if entries == [] then (t.news, [])
    else
      var (news, ids) := CreateItems(t, assetId, entries[..|entries| - 1]);
      var entry := entries[|entries| - 1].0;
      if HasNews(news, entry.url) then (news, ids)
      else
        (news + [NewsItem(RawIdOf(t.raw, entry.url), assetId, entry.url, entry.title, None, None)], ids + [|news|])
  }

  /** The verdict on an item: no thesis, no verdict; an empty summary or a failed call raises. */
  function JudgeItem(w: World, summary: NewsSummary, id: nat): Result<Option<Conflict>, ()> {
    if w.thesisId.None? then Ok(None)
    else if summary.text == "" then Err(())
    else
      match w.judge(id)
      case None => Err(())
      case Some(conflict) => Ok(Some(conflict))
  }

  function ContextFor(w: World, assetId: nat, id: nat, summary: NewsSummary, conflict: Option<Conflict>): RuleContext {
    RuleContext(assetId, id, Some(summary.impact), w.thesisId, conflict)
  }

  function ClockOf(w: World, id: nat): seq<nat> {
    [w.clock(id).0, w.clock(id).1]
  }

  /** Alerts the user about each created signal; returns the table and how many alerts were new. */
  function AlertAll(signals: seq<Signal>, alerts: seq<Alert>, userId: nat, created: seq<nat>): (seq<Alert>, nat)
    requires forall i :: 0 <= i < |created| ==> created[i] < |signals|
  {
    if created == [] then (alerts, 0)
    else
      var n := |created| - 1;
      var (before, count) := AlertAll(signals, alerts, userId, created[..n]);
      var key := DedupKey(signals[created[n]], created[n]);
      (InsertAlert(before, userId, created[n], key), count + if HasAlert(before, userId, key) then 0 else 1)
  }

  lemma {:induction false} CreatedInRange(signals: seq<Signal>, clock: seq<nat>, candidates: seq<Signal>)
    requires |clock| >= |candidates|
    ensures var (after, created) := CreateAll(signals, clock, candidates);
            && signals <= after
            && forall i :: 0 <= i < |created| ==> created[i] < |after|
  {
    if candidates != [] {
      CreatedInRange(signals, clock, candidates[..|candidates| - 1]);
    }
  }

  /** Report, signals and alerts for one item whose summary and verdict are known. */
  function Conclude(t: Snapshot, userId: nat, ctx: RuleContext, clock: seq<nat>): (Snapshot, Counts)
    requires |clock| >= 2
  {
    var (signals, created) := CreateAll(t.signals, clock, Candidates(ctx));
    CreatedInRange(t.signals, clock, Candidates(ctx));
    var (alerts, count) := AlertAll(signals, t.alerts, userId, created);
    (t.(reports := t.reports + [Report(ctx.assetId, ctx.thesisId, ctx.newsItemId)],
        signals := signals, alerts := alerts),
     Counts(|created|, count))
  }

  function Summarized(t: Snapshot, id: nat, summary: NewsSummary): Snapshot
    requires id < |t.news|
  {
    t.(news := t.news[id := t.news[id].(summary := Some(summary.text), impact := Some(summary.impact))])
  }

  /** One news item. Everything done before an exception stays done. */
  function ProcessItem(t: Snapshot, w: World, assetId: nat, userId: nat, id: nat): (Snapshot, Option<Counts>)
    requires id < |t.news|
  {
    match w.summarize(id)
    case None => (t, None)
    case Some(summary) =>
      var summarized := Summarized(t, id, summary);
      match JudgeItem(w, summary, id)
      case Err(_) => (summarized, None)
      case Ok(conflict) =>
        var ctx := ContextFor(w, assetId, id, summary, conflict);
        var (after, counts) := Conclude(summarized, userId, ctx, ClockOf(w, id));
        (after, Some(counts))
  }

  lemma ProcessItemKeepsNews(t: Snapshot, w: World, assetId: nat, userId: nat, id: nat)
    requires id < |t.news|
    ensures |ProcessItem(t, w, assetId, userId, id).0.news| == |t.news|
  {
  }

  function ProcessItems(t: Snapshot, w: World, assetId: nat, userId: nat, ids: seq<nat>)
    : (r: (Snapshot, Option<Counts>))
    requires forall i :: 0 <= i < |ids| ==> ids[i] < |t.news|
    ensures |r.0.news| == |t.news|
  {
    if ids == [] then (t, Some(Counts(0, 0)))
    else
      var (before, counts) := ProcessItems(t, w, assetId, userId, ids[..|ids| - 1]);
      if counts.None? then (before, None)
      else
        var (after, one) := ProcessItem(before, w, assetId, userId, ids[|ids| - 1]);
        ProcessItemKeepsNews(before, w, assetId, userId, ids[|ids| - 1]);
        (after, if one.None? then None else Some(Plus(counts.value, one.value)))
  }

  function Plus(a: Counts, b: Counts): Counts {
    Counts(a.signals + b.signals, a.alerts + b.alerts)
  }

  /** One more item, when none has raised so far. */
  lemma ProcessOneMore(t: Snapshot, w: World, assetId: nat, userId: nat, ids: seq<nat>, n: nat)
    requires n < |ids|
    requires forall i :: 0 <= i < |ids| ==> ids[i] < |t.news|
    requires ProcessItems(t, w, assetId, userId, ids[..n]).1.Some?
    ensures var (before, counts) := ProcessItems(t, w, assetId, userId, ids[..n]);
            var (after, one) := ProcessItem(before, w, assetId, userId, ids[n]);
            ProcessItems(t, w, assetId, userId, ids[..n + 1])
            == (after, if one.None? then None else Some(Plus(counts.value, one.value)))
  {
    assert ids[..n + 1][..n] == ids[..n];
  }

  lemma {:induction false} CreateItemsIds(t: Snapshot, assetId: nat, entries: seq<(Entry, nat)>)
    ensures var (news, ids) := CreateItems(t, assetId, entries);
            && t.news <= news
            && |news| == |t.news| + |ids|
            && (forall i :: 0 <= i < |ids| ==> ids[i] == |t.news| + i)
  {
    if entries != [] {
      CreateItemsIds(t, assetId, entries[..|entries| - 1]);
    }
  }

  function ProcessAsset(t: Snapshot, item: WatchItem, userId: nat): (Snapshot, Option<AssetResult>) {
    match item.world.fetch
    case FetchFailed => (t, None)
    case Fetched(entries) =>
      var saved := t.(raw := SaveAll(t.raw, entries));
      var (news, ids) := CreateItems(saved, item.assetId, entries);
      CreateItemsIds(saved, item.assetId, entries);
      var (after, counts) := ProcessItems(saved.(news := news), item.world, item.assetId, userId, ids);
      (after,
       match counts
       case None => None
       case Some(c) => Some(AssetResult(|ids|, |ids|, c.signals, c.alerts)))
  }

  function FlowStep(before: Snapshot, result: FlowResult, item: WatchItem, userId: nat): (Snapshot, FlowResult) {
    if !item.present then (before, result.(failures := result.failures + [item.assetId]))
    else
      var (after, one) := ProcessAsset(before, item, userId);
      (after, Tally(result, item.assetId, one))
  }

  /** Adds one asset's result, or its failure, to the totals. */
  function Tally(result: FlowResult, assetId: nat, one: Option<AssetResult>): FlowResult {
    match one
    case None => result.(failures := result.failures + [assetId])
    case Some(r) =>
      FlowResult(
        result.processed + 1, result.newsItems + r.newsItems, result.reports + r.reports,
        result.signals + r.signals, result.alerts + r.alerts, result.failures)
  }

  function Flow(t: Snapshot, items: seq<WatchItem>, userId: nat): (Snapshot, FlowResult) {
    if items == [] then (t, FlowResult(0, 0, 0, 0, 0, []))
    else
      var (before, result) := Flow(t, items[..|items| - 1], userId);
      FlowStep(before, result, items[|items| - 1], userId)
  }

  class WatchlistAnalysisService {
    const db: Database
    const engine: RuleEngine
    const alertService: AlertService
    const ingestion: NewsIngestionService

    constructor (db: Database, engine: RuleEngine, alertService: AlertService, ingestion: NewsIngestionService)
      requires engine.repository.db == db && alertService.db == db && ingestion.db == db
      ensures this.db == db && this.engine == engine && this.alertService == alertService && this.ingestion == ingestion
      ensures Valid()
    {
      this.db, this.engine, this.alertService, this.ingestion := db, engine, alertService, ingestion;
    }

    /** All collaborators work on the one database. */
    ghost predicate Valid() {
      engine.repository.db == db && alertService.db == db && ingestion.db == db
    }

    method Run(items: seq<WatchItem>, userId: nat) returns (result: FlowResult)
      requires Valid()
      modifies db
      ensures (db.View(), result) == Flow(old(db.View()), items, userId)
    {
      ghost var start := db.View();
      result := FlowResult(0, 0, 0, 0, 0, []);
      for i := 0 to |items|
        invariant (db.View(), result) == Flow(start, items[..i], userId)
      {
        assert items[..i + 1][..i] == items[..i];
        result := RunOne(items[i], userId, result);
      }
      assert items[..|items|] == items;
    }

    method RunOne(item: WatchItem, userId: nat, before: FlowResult) returns (result: FlowResult)
      requires Valid()
      modifies db
      ensures (db.View(), result) == FlowStep(old(db.View()), before, item, userId)
    {
      if !item.present {
        return before.(failures := before.failures + [item.assetId]);
      }
      var one := ProcessOneAsset(item, userId);
      result := Tally(before, item.assetId, one);
    }

    method ProcessOneAsset(item: WatchItem, userId: nat) returns (result: Option<AssetResult>)
      requires Valid()
      modifies db
      ensures (db.View(), result) == ProcessAsset(old(db.View()), item, userId)
    {
      if item.world.fetch.FetchFailed? {
        return None;
      }
      var entries := item.world.fetch.entries;
      ghost var start := db.View();
      for i := 0 to |entries|
        invariant db.View() == start.(raw := SaveAll(start.raw, entries[..i]))
      {
        assert entries[..i + 1][..i] == entries[..i];
        var _ := ingestion.CreateOrSkip(EventFor(entries[i].0, None, None));
      }
      assert entries[..|entries|] == entries;
      var ids := CreateNewItems(item.assetId, entries);
      result := ProcessNewItems(item.world, item.assetId, userId, ids);
    }

    /** The service also keeps the URLs seen in this batch; a URL is seen exactly when its item has just been
        created, so `HasNews` alone decides. */
    method CreateNewItems(assetId: nat, entries: seq<(Entry, nat)>) returns (ids: seq<nat>)
      requires Valid()
      modifies db
      ensures var (news, created) := CreateItems(old(db.View()), assetId, entries);
              && db.View() == old(db.View()).(news := news) && ids == created
              && |news| == |old(db.news)| + |ids| && forall i :: 0 <= i < |ids| ==> ids[i] == |old(db.news)| + i
    {
      ids := [];
      var seenUrls: set<string> := {};
      ghost var start := db.View();
      for i := 0 to |entries|
        invariant var (news, created) := CreateItems(start, assetId, entries[..i]);
                  db.View() == start.(news := news) && ids == created
        invariant forall url :: url in seenUrls ==> HasNews(db.news, url)
      {
        assert entries[..i + 1][..i] == entries[..i];
        var entry := entries[i].0;
        if !(entry.url in seenUrls || HasNews(db.news, entry.url)) {
          seenUrls := seenUrls + {entry.url};
          var item := NewsItem(RawIdOf(db.raw, entry.url), assetId, entry.url, entry.title, None, None);
          forall url ensures HasNews(db.news + [item], url) <==> HasNews(db.news, url) || item.url == url {
            HasNewsGrows(db.news, item, url);
          }
          ids := ids + [|db.news|];
          db.news := db.news + [item];
        }
      }
      assert entries[..|entries|] == entries;
      CreateItemsIds(start, assetId, entries);
    }

    method ProcessNewItems(world: World, assetId: nat, userId: nat, ids: seq<nat>) returns (result: Option<AssetResult>)
      requires Valid() && forall i :: 0 <= i < |ids| ==> ids[i] < |db.news|
      modifies db
      ensures var (after, counts) := ProcessItems(old(db.View()), world, assetId, userId, ids);
              && db.View() == after
              && result == (match counts case None => None
                            case Some(c) => Some(AssetResult(|ids|, |ids|, c.signals, c.alerts)))
    {
      ghost var start := db.View();
      var counts := Counts(0, 0);
      for i := 0 to |ids|
        invariant (db.View(), Some(counts)) == ProcessItems(start, world, assetId, userId, ids[..i])
        invariant |db.news| == |start.news|
      {
        ProcessOneMore(start, world, assetId, userId, ids, i);
        var one := ProcessNewItem(world, assetId, userId, ids[i]);
        if one.None? {
          RaisedStays(start, world, assetId, userId, ids, i + 1);
          return None;
        }
        counts := Plus(counts, one.value);
      }
      assert ids[..|ids|] == ids;
      result := Some(AssetResult(|ids|, |ids|, counts.signals, counts.alerts));
    }

    method ProcessNewItem(world: World, assetId: nat, userId: nat, id: nat) returns (counts: Option<Counts>)
      requires Valid() && id < |db.news|
      modifies db
      ensures (db.View(), counts) == ProcessItem(old(db.View()), world, assetId, userId, id)
      ensures |db.news| == |old(db.news)|
    {
      var summary := world.summarize(id);
      if summary.None? {
        return None;
      }
      db.news := db.news[id := db.news[id].(summary := Some(summary.value.text), impact := Some(summary.value.impact))];
      var verdict := JudgeItem(world, summary.value, id);
      if verdict.Err? {
        return None;
      }
      var ctx := ContextFor(world, assetId, id, summary.value, verdict.value);
      var concluded := ConcludeItem(userId, ctx, ClockOf(world, id));
      counts := Some(concluded);
    }

    method ConcludeItem(userId: nat, ctx: RuleContext, clock: seq<nat>) returns (counts: Counts)
      requires Valid() && |clock| >= 2
      modifies db
      ensures (db.View(), counts) == Conclude(old(db.View()), userId, ctx, clock)
    {
      db.reports := db.reports + [Report(ctx.assetId, ctx.thesisId, ctx.newsItemId)];
      CreatedInRange(db.signals, clock, Candidates(ctx));
      var created := engine.Run(ctx, clock);
      var alerted := AlertCreated(userId, created);
      counts := Counts(|created|, alerted);
    }

    method AlertCreated(userId: nat, created: seq<nat>) returns (alerted: nat)
      requires Valid() && forall i :: 0 <= i < |created| ==> created[i] < |db.signals|
      modifies db
      ensures var (alerts, count) := AlertAll(old(db.signals), old(db.alerts), userId, created);
              db.View() == old(db.View()).(alerts := alerts) && alerted == count
    {
      ghost var before := db.View();
      alerted := 0;
      for i := 0 to |created|
        invariant var (alerts, count) := AlertAll(before.signals, before.alerts, userId, created[..i]);
                  db.View() == before.(alerts := alerts) && alerted == count
      {
        assert created[..i + 1][..i] == created[..i];
        var isNew := alertService.CreateAlert(userId, created[i]);
        if isNew {
          alerted := alerted + 1;
        }
      }
      assert created[..|created|] == created;
    }
  }

  /** Once an item has raised, the rest of the asset's items are left alone. */
  lemma {:induction false} RaisedStays(t: Snapshot, w: World, assetId: nat, userId: nat, ids: seq<nat>, n: nat)
    requires n <= |ids|
    requires forall i :: 0 <= i < |ids| ==> ids[i] < |t.news|
    requires ProcessItems(t, w, assetId, userId, ids[..n]).1.None?
    ensures ProcessItems(t, w, assetId, userId, ids) == ProcessItems(t, w, assetId, userId, ids[..n])
  {
    if n == |ids| {
      assert ids[..n] == ids;
    } else {
      assert ids[..|ids| - 1][..n] == ids[..n];
      RaisedStays(t, w, assetId, userId, ids[..|ids| - 1], n);
    }
  }
}
