/** What analysis runs and ingestion runs keep, and what one run reports about itself. */
module AnalysisLaws {
  import opened Common
  import opened Tables
  import opened Signals
  import opened Alerts
  import opened News
  import opened Analysis
  import ConcentrationCheck
  import Portfolio

  /** The invariant of all five tables: unique URLs, an item for every normalized event, at most one report an
      item, references that exist, and consistent alerts. */
  ghost predicate Consistent(t: Snapshot, canon: string -> string) {
    && NewsConsistent(t, canon)
    && ReportsConsistent(t)
    && SignalsRefer(t)
    && AlertsConsistent(t.signals, t.alerts)
  }

  ghost predicate ReportsConsistent(t: Snapshot) {
    && (forall i :: 0 <= i < |t.reports| ==> t.reports[i].newsItemId < |t.news|)
    && (forall i, j :: 0 <= i < j < |t.reports| ==> t.reports[i].newsItemId != t.reports[j].newsItemId)
  }

  ghost predicate SignalsRefer(t: Snapshot) {
    forall i :: 0 <= i < |t.signals| && t.signals[i].newsItemId.Some? ==> t.signals[i].newsItemId.value < |t.news|
  }

  /** Nothing mentions the item yet. */
  ghost predicate Untouched(t: Snapshot, id: nat) {
    && FreshItem(t.signals, id)
    && (forall i :: 0 <= i < |t.reports| ==> t.reports[i].newsItemId != id)
  }

  // ----- One item -----

  /** `after` is `alerts` followed by one alert for each of the first `n` created signals. */
  ghost predicate Alerted(alerts: seq<Alert>, after: seq<Alert>, userId: nat, created: seq<nat>, n: nat) {
    && n <= |created|
    && |after| == |alerts| + n
    && (forall i :: 0 <= i < |alerts| ==> after[i] == alerts[i])
    && (forall j :: |alerts| <= j < |after| ==>
          after[j].signalId == created[j - |alerts|] && after[j].userId == userId && after[j].status == UNREAD)
  }

  /** How the alerting of the first `n` created signals went. */
  ghost predicate AllAlerted(signals: seq<Signal>, alerts: seq<Alert>, userId: nat, created: seq<nat>, n: nat)
    requires forall i :: 0 <= i < |created| ==> created[i] < |signals|
    requires n <= |created|
  {
    var (after, count) := AlertAll(signals, alerts, userId, created[..n]);
    count == n && AlertsConsistent(signals, after) && Alerted(alerts, after, userId, created, n)
  }

  lemma AlertNone(before: seq<Signal>, signals: seq<Signal>, alerts: seq<Alert>, userId: nat, created: seq<nat>)
    requires forall i :: 0 <= i < |created| ==> created[i] < |signals|
    requires before <= signals && AlertsConsistent(before, alerts)
    ensures AllAlerted(signals, alerts, userId, created, 0)
  {
  }

  lemma AlertNext(
    before: seq<Signal>, signals: seq<Signal>, alerts: seq<Alert>, userId: nat, created: seq<nat>, n: nat,
    ctx: RuleContext, types: set<SignalType>)
    requires Appended(before, signals, created, ctx, types) && FreshItem(before, ctx.newsItemId)
    requires AlertsConsistent(before, alerts) && n < |created|
    requires forall i :: 0 <= i < |created| ==> created[i] < |signals|
    requires AllAlerted(signals, alerts, userId, created, n)
    ensures AllAlerted(signals, alerts, userId, created, n + 1)
  {
    AlertOneMore(signals, alerts, userId, created, n);
    var prior := AlertAll(signals, alerts, userId, created[..n]).0;
    InsertsFreely(before, signals, alerts, prior, userId, created, n, ctx, types);
  }

  /** Freshly appended signals have keys no alert carries: each yields an alert. */
  lemma {:induction false} FreshSignalsAllAlert(
    before: seq<Signal>, signals: seq<Signal>, alerts: seq<Alert>, userId: nat, created: seq<nat>, n: nat,
    ctx: RuleContext, types: set<SignalType>)
    requires Appended(before, signals, created, ctx, types) && FreshItem(before, ctx.newsItemId)
    requires AlertsConsistent(before, alerts) && n <= |created|
    requires forall i :: 0 <= i < |created| ==> created[i] < |signals|
    ensures AllAlerted(signals, alerts, userId, created, n)
  {
    if n == 0 {
      AlertNone(before, signals, alerts, userId, created);
    } else {
      FreshSignalsAllAlert(before, signals, alerts, userId, created, n - 1, ctx, types);
      AlertNext(before, signals, alerts, userId, created, n - 1, ctx, types);
    }
  }

  lemma AlertedOneMore(
    alerts: seq<Alert>, prior: seq<Alert>, userId: nat, created: seq<nat>, n: nat, key: string)
    requires n < |created| && Alerted(alerts, prior, userId, created, n)
    ensures Alerted(alerts, prior + [Alert(userId, created[n], key, UNREAD)], userId, created, n + 1)
  {
  }

  lemma InsertsFreely(
    before: seq<Signal>, signals: seq<Signal>, alerts: seq<Alert>, prior: seq<Alert>, userId: nat, created: seq<nat>,
    n: nat, ctx: RuleContext, types: set<SignalType>)
    requires Appended(before, signals, created, ctx, types) && FreshItem(before, ctx.newsItemId)
    requires AlertsConsistent(before, alerts) && AlertsConsistent(signals, prior)
    requires n < |created| && Alerted(alerts, prior, userId, created, n)
    ensures var key := DedupKey(signals[created[n]], created[n]);
            var after := InsertAlert(prior, userId, created[n], key);
            && !HasAlert(prior, userId, key)
            && AlertsConsistent(signals, after)
            && Alerted(alerts, after, userId, created, n + 1)
  {
    NewKeyIsFree(before, signals, alerts, prior, userId, created, n, ctx, types);
    AlertsStayConsistent(signals, prior, userId, created[n], 0, READ);
    AlertedOneMore(alerts, prior, userId, created, n, DedupKey(signals[created[n]], created[n]));
  }

  lemma AlertOneMore(signals: seq<Signal>, alerts: seq<Alert>, userId: nat, created: seq<nat>, n: nat)
    requires n < |created| && forall i :: 0 <= i < |created| ==> created[i] < |signals|
    ensures var (prior, count) := AlertAll(signals, alerts, userId, created[..n]);
            var key := DedupKey(signals[created[n]], created[n]);
            AlertAll(signals, alerts, userId, created[..n + 1])
            == (InsertAlert(prior, userId, created[n], key), count + if HasAlert(prior, userId, key) then 0 else 1)
  {
    assert created[..n + 1][..n] == created[..n];
  }

  lemma NewKeyIsFree(
    before: seq<Signal>, signals: seq<Signal>, alerts: seq<Alert>, prior: seq<Alert>, userId: nat, created: seq<nat>,
    n: nat, ctx: RuleContext, types: set<SignalType>)
    requires Appended(before, signals, created, ctx, types) && FreshItem(before, ctx.newsItemId)
    requires AlertsConsistent(before, alerts) && AlertsConsistent(signals, prior)
    requires n < |created| && Alerted(alerts, prior, userId, created, n)
    ensures !HasAlert(prior, userId, DedupKey(signals[created[n]], created[n]))
  {
    var id := created[n];
    forall i | 0 <= i < |prior| ensures prior[i].dedupKey != DedupKey(signals[id], id) {
      var other := prior[i].signalId;
      DedupKeyInjective(signals[other], other, signals[id], id);
      if i < |alerts| {
        assert signals[other] == before[other];
      } else {
        assert other == created[i - |alerts|];
      }
    }
  }

  /** What concluding one untouched item does. */
  ghost predicate Concluded(t: Snapshot, after: Snapshot, userId: nat, counts: Counts, ctx: RuleContext) {
    && after.raw == t.raw && after.news == t.news
    && after.reports == t.reports + [Report(ctx.assetId, ctx.thesisId, ctx.newsItemId)]
    && Appended(t.signals, after.signals, seq(counts.signals, i => |t.signals| + i), ctx, ExpectedTypes(ctx))
    && |after.alerts| == |t.alerts| + counts.alerts
    && counts.alerts == counts.signals
    && (forall i :: 0 <= i < |t.alerts| ==> after.alerts[i] == t.alerts[i])
    && (forall j :: |t.alerts| <= j < |after.alerts| ==>
          && after.alerts[j].signalId == |t.signals| + (j - |t.alerts|)
          && after.alerts[j].userId == userId
          && after.alerts[j].status == UNREAD)
  }

  lemma AppendedRefers(t: Snapshot, signals: seq<Signal>, created: seq<nat>, ctx: RuleContext, types: set<SignalType>)
    requires SignalsRefer(t) && Appended(t.signals, signals, created, ctx, types) && ctx.newsItemId < |t.news|
    ensures SignalsRefer(t.(signals := signals))
    ensures created == seq(|created|, i => |t.signals| + i)
  {
  }

  /** One fresh item yields one report, one signal of each expected type, and one unread alert of the user for
      each of those. */
  lemma ConcludeExact(t: Snapshot, userId: nat, ctx: RuleContext, clock: seq<nat>, canon: string -> string)
    requires Consistent(t, canon) && |clock| >= 2
    requires ctx.newsItemId < |t.news| && Untouched(t, ctx.newsItemId)
    ensures var (after, counts) := Conclude(t, userId, ctx, clock);
            Consistent(after, canon) && Concluded(t, after, userId, counts, ctx)
  {
    var (signals, created) := CreateAll(t.signals, clock, Candidates(ctx));
    var types := ExpectedTypes(ctx);
    FreshItemYieldsExactly(t.signals, clock, ctx);
    CreatedInRange(t.signals, clock, Candidates(ctx));
    FreshSignalsAllAlert(t.signals, signals, t.alerts, userId, created, |created|, ctx, types);
    assert created[..|created|] == created;
    ConcludeSplits(t, userId, ctx, clock);
    ConcludeFromParts(t, userId, ctx, signals, created, AlertAll(signals, t.alerts, userId, created).0, canon);
  }

  lemma ConcludeFromParts(
    t: Snapshot, userId: nat, ctx: RuleContext, signals: seq<Signal>, created: seq<nat>, alerts: seq<Alert>,
    canon: string -> string)
    requires Consistent(t, canon) && ctx.newsItemId < |t.news| && Untouched(t, ctx.newsItemId)
    requires Appended(t.signals, signals, created, ctx, ExpectedTypes(ctx))
    requires AlertsConsistent(signals, alerts) && Alerted(t.alerts, alerts, userId, created, |created|)
    ensures var after := Snapshot(
              t.raw, t.news, t.reports + [Report(ctx.assetId, ctx.thesisId, ctx.newsItemId)], signals, alerts);
            Consistent(after, canon) && Concluded(t, after, userId, Counts(|created|, |created|), ctx)
  {
    AppendedRefers(t, signals, created, ctx, ExpectedTypes(ctx));
  }

  lemma ConcludeSplits(t: Snapshot, userId: nat, ctx: RuleContext, clock: seq<nat>)
    requires |clock| >= 2
    ensures var (signals, created) := CreateAll(t.signals, clock, Candidates(ctx));
            && (forall i :: 0 <= i < |created| ==> created[i] < |signals|)
            && var (alerts, count) := AlertAll(signals, t.alerts, userId, created);
               Conclude(t, userId, ctx, clock)
               == (Snapshot(t.raw, t.news, t.reports + [Report(ctx.assetId, ctx.thesisId, ctx.newsItemId)],
                            signals, alerts),
                   Counts(|created|, count))
  {
    CreatedInRange(t.signals, clock, Candidates(ctx));
  }

  lemma SummarizedConsistent(t: Snapshot, id: nat, summary: NewsSummary, canon: string -> string)
    requires Consistent(t, canon) && id < |t.news|
    ensures Consistent(Summarized(t, id, summary), canon)
  {
    var after := Summarized(t, id, summary);
    forall i | 0 <= i < |t.news| ensures after.news[i].url == t.news[i].url {}
    forall i | 0 <= i < |t.raw| && t.raw[i].status == NORMALIZED
      ensures HasNews(after.news, canon(t.raw[i].url))
    {
      var j :| 0 <= j < |t.news| && t.news[j].url == canon(t.raw[i].url);
      assert after.news[j].url == canon(t.raw[i].url);
    }
  }

  /** No news item but the summaries and impacts of some changes, the other tables only gain rows, and new alerts
      are about new signals. */
  ghost predicate Extends(t: Snapshot, after: Snapshot) {
    && after.raw == t.raw
    && |after.news| == |t.news|
    && (forall i :: 0 <= i < |t.news| ==>
          after.news[i] == t.news[i].(summary := after.news[i].summary, impact := after.news[i].impact))
    && t.reports <= after.reports
    && t.signals <= after.signals
    && t.alerts <= after.alerts
    && (forall j :: |t.alerts| <= j < |after.alerts| ==> after.alerts[j].signalId >= |t.signals|)
  }

  lemma ProcessItemExact(t: Snapshot, w: World, assetId: nat, userId: nat, id: nat, canon: string -> string)
    requires Consistent(t, canon) && id < |t.news| && Untouched(t, id)
    ensures var (after, counts) := ProcessItem(t, w, assetId, userId, id);
            && Consistent(after, canon)
            && Extends(t, after)
            && (forall other :: other != id && Untouched(t, other) ==> Untouched(after, other))
            && (forall other :: 0 <= other < |t.news| && other != id ==> after.news[other] == t.news[other])
            && (counts.None? ==> after.reports == t.reports && after.signals == t.signals && after.alerts == t.alerts)
            && (counts.Some? ==> Adds(t, after, 1, counts.value))
  {
    if w.summarize(id).Some? {
      var summary := w.summarize(id).value;
      SummarizedConsistent(t, id, summary, canon);
      if JudgeItem(w, summary, id).Ok? {
        var ctx := ContextFor(w, assetId, id, summary, JudgeItem(w, summary, id).value);
        var s := Summarized(t, id, summary);
        ConcludeExact(s, userId, ctx, ClockOf(w, id), canon);
        var (after, counts) := Conclude(s, userId, ctx, ClockOf(w, id));
        forall other | other != id && Untouched(t, other) ensures Untouched(after, other) {
          OthersUntouched(s, after, userId, counts, ctx, other);
        }
      }
    }
  }

  lemma OthersUntouched(t: Snapshot, after: Snapshot, userId: nat, counts: Counts, ctx: RuleContext, other: nat)
    requires Concluded(t, after, userId, counts, ctx) && other != ctx.newsItemId && Untouched(t, other)
    ensures Untouched(after, other)
  {
  }

  // ----- All items of an asset -----

  /** What processing the items `ids` one after the other did to the tables, when it started from `t`. */
  ghost predicate Processed(t: Snapshot, after: Snapshot, counts: Option<Counts>, ids: seq<nat>) {
    && Extends(t, after)
    && (forall other :: other !in ids && Untouched(t, other) ==> Untouched(after, other))
    && (forall other :: 0 <= other < |t.news| && other !in ids ==> after.news[other] == t.news[other])
    && (counts.Some? ==> Adds(t, after, |ids|, counts.value))
  }

  /** So many reports, and as many alerts as signals. */
  ghost predicate Adds(t: Snapshot, after: Snapshot, reports: nat, counts: Counts) {
    && |after.reports| == |t.reports| + reports
    && |after.signals| == |t.signals| + counts.signals
    && |after.alerts| == |t.alerts| + counts.alerts
    && counts.signals == counts.alerts
  }

  lemma ProcessedOneMore(
    t: Snapshot, before: Snapshot, counts: Counts, after: Snapshot, one: Option<Counts>, ids: seq<nat>, id: nat)
    requires Processed(t, before, Some(counts), ids) && Extends(before, after)
    requires forall other :: other != id && Untouched(before, other) ==> Untouched(after, other)
    requires forall other :: 0 <= other < |before.news| && other != id ==> after.news[other] == before.news[other]
    requires one.Some? ==> Adds(before, after, 1, one.value)
    ensures Processed(t, after, if one.None? then None else Some(Plus(counts, one.value)), ids + [id])
  {
  }

  lemma {:induction false} ProcessItemsExact(
    t: Snapshot, w: World, assetId: nat, userId: nat, ids: seq<nat>, canon: string -> string)
    requires Consistent(t, canon)
    requires forall i :: 0 <= i < |ids| ==> ids[i] < |t.news| && Untouched(t, ids[i])
    requires forall i, j :: 0 <= i < j < |ids| ==> ids[i] != ids[j]
    ensures var (after, counts) := ProcessItems(t, w, assetId, userId, ids);
            Consistent(after, canon) && Processed(t, after, counts, ids)
  {
    if ids != [] {
      var n := |ids| - 1;
      ProcessItemsExact(t, w, assetId, userId, ids[..n], canon);
      var (before, counts) := ProcessItems(t, w, assetId, userId, ids[..n]);
      SplitLast(ids);
      if counts.Some? {
        assert ids[n] !in ids[..n];
        ProcessItemExact(before, w, assetId, userId, ids[n], canon);
        var (after, one) := ProcessItem(before, w, assetId, userId, ids[n]);
        ProcessedOneMore(t, before, counts.value, after, one, ids[..n], ids[n]);
      }
    }
  }

  lemma {:induction false} SaveAllConsistent(t: Snapshot, entries: seq<(Entry, nat)>, canon: string -> string)
    requires Consistent(t, canon)
    ensures Consistent(t.(raw := SaveAll(t.raw, entries)), canon)
    ensures t.raw <= SaveAll(t.raw, entries)
  {
    if entries != [] {
      var n := |entries| - 1;
      SaveAllConsistent(t, entries[..n], canon);
      InsertRawConsistent(t.(raw := SaveAll(t.raw, entries[..n])), EventFor(entries[n].0, None, None), canon);
    }
  }

  lemma {:induction false} CreateItemsConsistent(
    t: Snapshot, assetId: nat, entries: seq<(Entry, nat)>, canon: string -> string)
    requires Consistent(t, canon)
    ensures var (news, ids) := CreateItems(t, assetId, entries);
            && NewsConsistent(t.(news := news), canon)
            && (forall i :: 0 <= i < |entries| ==> HasNews(news, entries[i].0.url))
  {
    if entries != [] {
      var n := |entries| - 1;
      CreateItemsConsistent(t, assetId, entries[..n], canon);
      var (before, _) := CreateItems(t, assetId, entries[..n]);
      var url := entries[n].0.url;
      var item := NewsItem(RawIdOf(t.raw, url), assetId, url, entries[n].0.title, None, None);
      forall other ensures HasNews(before + [item], other) <==> HasNews(before, other) || other == url {
        HasNewsGrows(before, item, other);
      }
      assert forall i :: 0 <= i < n ==> entries[..n][i] == entries[i];
    }
  }

  // ----- What an asset's entries become -----

  /** The raw event is what the first entry with its URL says, naming neither symbol nor market. */
  ghost predicate RawFrom(event: RawEvent, entries: seq<(Entry, nat)>) {
    exists k: nat :: FirstWith(entries, k, event.url)
             && event.title == entries[k].0.title
             && event.source == entries[k].0.source
             && event.publishedAt == entries[k].0.publishedAt
             && event.symbol.None? && event.market.None? && event.status == FETCHED
  }

  /** The item is of the asset, has the title of the first entry with its URL, and refers to the raw event with that
      URL. */
  ghost predicate ItemFrom(item: NewsItem, raw: seq<RawEvent>, assetId: nat, entries: seq<(Entry, nat)>) {
    && item.assetId == assetId
    && (exists k: nat :: FirstWith(entries, k, item.url) && item.title == entries[k].0.title)
    && item.rawEventId.Some?
    && item.rawEventId.value < |raw|
    && raw[item.rawEventId.value].url == item.url
  }

  lemma RawFromMore(event: RawEvent, entries: seq<(Entry, nat)>, n: nat)
    requires n <= |entries| && RawFrom(event, entries[..n])
    ensures RawFrom(event, entries)
  {
    var k: nat :| FirstWith(entries[..n], k, event.url) && event.title == entries[..n][k].0.title
          && event.source == entries[..n][k].0.source && event.publishedAt == entries[..n][k].0.publishedAt;
    FirstAmongMore(entries, n, k, event.url);
  }

  lemma ItemFromMore(item: NewsItem, raw: seq<RawEvent>, assetId: nat, entries: seq<(Entry, nat)>, n: nat)
    requires n <= |entries| && ItemFrom(item, raw, assetId, entries[..n])
    ensures ItemFrom(item, raw, assetId, entries)
  {
    var k: nat :| FirstWith(entries[..n], k, item.url) && item.title == entries[..n][k].0.title;
    FirstAmongMore(entries, n, k, item.url);
  }

  /** Storing entries adds one raw event for each URL that had none, as its first entry gives it, and no other. */
  lemma {:induction false} SaveAllExact(raw: seq<RawEvent>, entries: seq<(Entry, nat)>)
    ensures var after := SaveAll(raw, entries);
            && raw <= after
            && (forall k :: 0 <= k < |entries| ==> HasRaw(after, entries[k].0.url))
            && (forall i :: |raw| <= i < |after| ==> RawFrom(after[i], entries) && !HasRaw(after[..i], after[i].url))
  {
    if entries != [] {
      var n := |entries| - 1;
      SaveAllExact(raw, entries[..n]);
      var before, after := SaveAll(raw, entries[..n]), SaveAll(raw, entries);
      assert forall k :: 0 <= k < n ==> entries[..n][k] == entries[k];
      forall k | 0 <= k < |entries| ensures HasRaw(after, entries[k].0.url) {
        if k < n {
          var i :| 0 <= i < |before| && before[i].url == entries[k].0.url;
          assert after[i] == before[i];
        } else if HasRaw(before, entries[n].0.url) {
          assert after == before;
        } else {
          assert after[|before|].url == entries[n].0.url;
        }
      }
      forall i | |raw| <= i < |after| ensures RawFrom(after[i], entries) && !HasRaw(after[..i], after[i].url) {
        if i < |before| {
          assert after[..i] == before[..i];
          RawFromMore(after[i], entries, n);
        } else {
          assert after[..i] == before;
          assert FirstWith(entries, n, after[i].url);
        }
      }
    }
  }

  lemma {:induction false} RawIdFound(raw: seq<RawEvent>, url: string)
    requires HasRaw(raw, url)
    ensures RawIdOf(raw, url).Some? && RawIdOf(raw, url).value < |raw| && raw[RawIdOf(raw, url).value].url == url
  {
    var i :| 0 <= i < |raw| && raw[i].url == url;
    if i < |raw| - 1 {
      assert raw[..|raw| - 1][i] == raw[i];
      RawIdFound(raw[..|raw| - 1], url);
    } else if RawIdOf(raw[..|raw| - 1], url).Some? {
      RawIdIsOf(raw[..|raw| - 1], url);
    }
  }

  lemma {:induction false} RawIdIsOf(raw: seq<RawEvent>, url: string)
    requires RawIdOf(raw, url).Some?
    ensures RawIdOf(raw, url).value < |raw| && raw[RawIdOf(raw, url).value].url == url
  {
    if RawIdOf(raw[..|raw| - 1], url).Some? {
      RawIdIsOf(raw[..|raw| - 1], url);
    }
  }

  /** Every URL without an item gets one, made from its first entry; nothing else is created. */
  lemma {:induction false} CreateItemsExact(t: Snapshot, assetId: nat, entries: seq<(Entry, nat)>)
    requires forall k :: 0 <= k < |entries| ==> HasRaw(t.raw, entries[k].0.url)
    ensures var (news, ids) := CreateItems(t, assetId, entries);
            && t.news <= news
            && (forall k :: 0 <= k < |entries| ==> HasNews(news, entries[k].0.url))
            && (forall i :: |t.news| <= i < |news| ==>
                  && ItemFrom(news[i], t.raw, assetId, entries)
                  && !HasNews(news[..i], news[i].url)
                  && news[i].summary.None? && news[i].impact.None?)
  {
    if entries != [] {
      var n := |entries| - 1;
      assert forall k :: 0 <= k < n ==> entries[..n][k] == entries[k];
      CreateItemsExact(t, assetId, entries[..n]);
      var before, after := CreateItems(t, assetId, entries[..n]).0, CreateItems(t, assetId, entries).0;
      forall k | 0 <= k < |entries| ensures HasNews(after, entries[k].0.url) {
        if k < n {
          var i :| 0 <= i < |before| && before[i].url == entries[k].0.url;
          assert after[i] == before[i];
        } else if HasNews(before, entries[n].0.url) {
          assert after == before;
        } else {
          assert after[|before|].url == entries[n].0.url;
        }
      }
      forall i | |t.news| <= i < |after|
        ensures ItemFrom(after[i], t.raw, assetId, entries) && !HasNews(after[..i], after[i].url)
        ensures after[i].summary.None? && after[i].impact.None?
      {
        if i < |before| {
          assert after[..i] == before[..i];
          ItemFromMore(after[i], t.raw, assetId, entries, n);
        } else {
          RawIdFound(t.raw, entries[n].0.url);
          assert after[..i] == before;
          assert FirstWith(entries, n, after[i].url);
        }
      }
    }
  }

  lemma NewItemsUntouched(t: Snapshot, news: seq<NewsItem>, ids: seq<nat>)
    requires ReportsConsistent(t) && SignalsRefer(t) && t.news <= news
    requires forall i :: 0 <= i < |ids| ==> ids[i] == |t.news| + i < |news|
    ensures forall i :: 0 <= i < |ids| ==> Untouched(t.(news := news), ids[i])
  {
  }

  /** Exactness of one asset. Whatever happens the tables stay consistent and every fetched URL has its item; if
      the asset is processed successfully, reports created = news items created = the new rows of both tables,
      and alerts created = signals created = the new rows of both. */
  lemma ProcessAssetExact(t: Snapshot, item: WatchItem, userId: nat, canon: string -> string)
    requires Consistent(t, canon)
    ensures var (after, result) := ProcessAsset(t, item, userId);
            && Consistent(after, canon)
            && |t.news| <= |after.news|
            && (item.world.fetch.Fetched? ==>
                  forall i :: 0 <= i < |item.world.fetch.entries| ==>
                    HasNews(after.news, item.world.fetch.entries[i].0.url))
            && (result.Some? ==>
                  && result.value.newsItems == result.value.reports
                     == |after.news| - |t.news| == |after.reports| - |t.reports|
                  && result.value.signals == result.value.alerts
                     == |after.signals| - |t.signals| == |after.alerts| - |t.alerts|)
  {
    if item.world.fetch.Fetched? {
      var entries := item.world.fetch.entries;
      var saved := t.(raw := SaveAll(t.raw, entries));
      SaveAllConsistent(t, entries, canon);
      var (news, ids) := CreateItems(saved, item.assetId, entries);
      CreateItemsIds(saved, item.assetId, entries);
      CreateItemsConsistent(saved, item.assetId, entries, canon);
      NewItemsUntouched(saved, news, ids);
      ProcessItemsExact(saved.(news := news), item.world, item.assetId, userId, ids, canon);
      var after := ProcessAsset(t, item, userId).0;
      forall i | 0 <= i < |entries| ensures HasNews(after.news, entries[i].0.url) {
        var j :| 0 <= j < |news| && news[j].url == entries[i].0.url;
        assert after.news[j].url == entries[i].0.url;
      }
    }
  }

  /** One run over a watchlist: processed + failures = assets, reports = news items and alerts = signals in the
      totals, and the tables stay consistent. */
  lemma {:induction false} FlowExact(t: Snapshot, items: seq<WatchItem>, userId: nat, canon: string -> string)
    requires Consistent(t, canon)
    ensures var (after, result) := Flow(t, items, userId);
            && Consistent(after, canon)
            && result.processed + |result.failures| == |items|
            && result.reports == result.newsItems
            && result.alerts == result.signals
  {
    if items != [] {
      var n := |items| - 1;
      FlowExact(t, items[..n], userId, canon);
      var (before, _) := Flow(t, items[..n], userId);
      ProcessAssetExact(before, items[n], userId, canon);
    }
  }

  // ----- Any sequence of runs -----

  /** The writers, run one after the other: ingestion, analysis of a watchlist, the concentration check of a
      portfolio (whose position `i` is looked at at instant `clock(i)`), and the owner's alert updates. */
  datatype Job =
    | Ingest(targets: seq<(Target, Fetch)>, resolve: map<(string, string), nat>)
    | Analyze(items: seq<WatchItem>, userId: nat)
    | Check(m: Portfolio.Market, ps: seq<Portfolio.Position>, cash: real, threshold: real, clock: nat -> nat)
    | Acknowledge(alertId: nat, owner: nat, status: AlertStatus)

  function RunJob(t: Snapshot, job: Job, canon: string -> string): Snapshot {
    match job
    case Ingest(targets, resolve) => Collect(t, targets, canon, resolve).0
    case Analyze(items, userId) => Flow(t, items, userId).0
    case Check(m, ps, cash, threshold, clock) =>
      var positions := Portfolio.WeightsOf(m, ps, cash, threshold).positions;
      var readings := seq(|ps|, i requires 0 <= i < |ps| => clock(i));
      t.(signals := ConcentrationCheck.CheckAll(t.signals, readings, positions).0)
    case Acknowledge(alertId, owner, status) =>
      match UpdateOwned(t.alerts, alertId, owner, status)
      case Ok(alerts) => t.(alerts := alerts)
      case Err(_) => t
  }

  function RunJobs(jobs: seq<Job>, canon: string -> string): Snapshot {
    if jobs == [] then EMPTY_TABLES
    else RunJob(RunJobs(jobs[..|jobs| - 1], canon), jobs[|jobs| - 1], canon)
  }

  lemma {:induction false} CollectTouchesNewsOnly(
    t: Snapshot, targets: seq<(Target, Fetch)>, canon: string -> string, resolve: map<(string, string), nat>)
    ensures var after := Collect(t, targets, canon, resolve).0;
            after.reports == t.reports && after.signals == t.signals && after.alerts == t.alerts
  {
    if targets != [] {
      var n := |targets| - 1;
      CollectTouchesNewsOnly(t, targets[..n], canon, resolve);
      var (before, ledger) := Collect(t, targets[..n], canon, resolve);
      if targets[n].1.Fetched? {
        IngestTouchesNewsOnly(before, ledger, targets[n].1.entries, targets[n].0, canon, resolve);
      }
    }
  }

  lemma {:induction false} IngestTouchesNewsOnly(
    t: Snapshot, ledger: Ledger, entries: seq<(Entry, nat)>, target: Target,
    canon: string -> string, resolve: map<(string, string), nat>)
    ensures var after := IngestAll(t, ledger, entries, target, canon, resolve).0;
            after.reports == t.reports && after.signals == t.signals && after.alerts == t.alerts
  {
    if entries != [] {
      IngestTouchesNewsOnly(t, ledger, entries[..|entries| - 1], target, canon, resolve);
    }
  }

  /** A check only appends signals about assets. */
  lemma {:induction false} CheckAppends(signals: seq<Signal>, clock: seq<nat>, positions: seq<Portfolio.PositionWeight>)
    requires |clock| >= |positions|
    ensures var after := ConcentrationCheck.CheckAll(signals, clock, positions).0;
            signals <= after && forall i :: |signals| <= i < |after| ==> after[i].newsItemId.None?
  {
    if positions != [] {
      CheckAppends(signals, clock, positions[..|positions| - 1]);
    }
  }

  lemma CheckConsistent(
    t: Snapshot, clock: seq<nat>, positions: seq<Portfolio.PositionWeight>, canon: string -> string)
    requires Consistent(t, canon) && |clock| >= |positions|
    ensures Consistent(t.(signals := ConcentrationCheck.CheckAll(t.signals, clock, positions).0), canon)
  {
    CheckAppends(t.signals, clock, positions);
    var after := ConcentrationCheck.CheckAll(t.signals, clock, positions).0;
    forall i | 0 <= i < |t.alerts|
      ensures t.alerts[i].dedupKey == DedupKey(after[t.alerts[i].signalId], t.alerts[i].signalId)
    {
      assert after[t.alerts[i].signalId] == t.signals[t.alerts[i].signalId];
    }
  }

  /** After any jobs in any order: each URL has at most one raw event and at most one news item, each item at
      most one report, every normalized event its item, and no user two alerts with one key. */
  lemma {:induction false} JobsKeepTablesConsistent(jobs: seq<Job>, canon: string -> string)
    ensures Consistent(RunJobs(jobs, canon), canon)
  {
    if jobs != [] {
      var n := |jobs| - 1;
      JobsKeepTablesConsistent(jobs[..n], canon);
      var t := RunJobs(jobs[..n], canon);
      match jobs[n]
      case Ingest(targets, resolve) =>
        IngestionKeepsBooks(t, targets, canon, resolve);
        CollectTouchesNewsOnly(t, targets, canon, resolve);
      case Analyze(items, userId) =>
        FlowExact(t, items, userId, canon);
      case Check(m, ps, cash, threshold, clock) =>
        var positions := Portfolio.WeightsOf(m, ps, cash, threshold).positions;
        CheckConsistent(t, seq(|ps|, i requires 0 <= i < |ps| => clock(i)), positions, canon);
      case Acknowledge(alertId, owner, status) =>
        if UpdateOwned(t.alerts, alertId, owner, status).Ok? {
          AcknowledgeConsistent(t.signals, t.alerts, alertId, owner, status);
        }
    }
  }

  lemma AcknowledgeConsistent(signals: seq<Signal>, alerts: seq<Alert>, alertId: nat, owner: nat, status: AlertStatus)
    requires AlertsConsistent(signals, alerts) && UpdateOwned(alerts, alertId, owner, status).Ok?
    ensures AlertsConsistent(signals, UpdateOwned(alerts, alertId, owner, status).value)
  {
  }
}
