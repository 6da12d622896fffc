/** What each news item comes to: analysed exactly, or left behind for good, and which. What an item is due is told
    from the outside world alone: the thesis, the summary and the verdict. */
module AnalysisYields {
  import opened Common
  import opened Tables
  import opened Signals
  import opened News
  import opened Analysis
  import opened AnalysisLaws
  import Portfolio

  /** The item gets its summary and, if there is a thesis, its verdict: the text is not empty and no call raises. */
  predicate Comes(w: World, id: nat) {
    && w.summarize(id).Some?
    && (w.thesisId.Some? ==> w.summarize(id).value.text != "" && w.judge(id).Some?)
  }

  function DueFrom(item: WatchItem, id: nat): seq<Signal>
    requires Comes(item.world, id)
  {
    var w := item.world;
    var verdict := if w.thesisId.Some? then w.judge(id) else None;
    Due(item.assetId, id, w.thesisId, verdict, Some(w.summarize(id).value.impact))
  }

  predicate About(s: Signal, id: nat) {
    s.newsItemId == Some(id)
  }

  /** The signals about the item are exactly `due`, from position `p` on. */
  ghost predicate Holds(signals: seq<Signal>, due: seq<Signal>, id: nat, p: nat) {
    && p + |due| <= |signals|
    && signals[p..p + |due|] == due
    && (forall i :: 0 <= i < |signals| && About(signals[i], id) ==> p <= i < p + |due|)
  }

  /** Exactly one alert is about the signal, and it is the user's. */
  ghost predicate AlertedOnce(alerts: seq<Alert>, userId: nat, signalId: nat) {
    exists j :: 0 <= j < |alerts| && alerts[j].signalId == signalId && alerts[j].userId == userId
             && forall k :: 0 <= k < |alerts| && alerts[k].signalId == signalId ==> k == j
  }

  ghost predicate AllAlertedOnce(t: Snapshot, userId: nat, id: nat) {
    forall i :: 0 <= i < |t.signals| && About(t.signals[i], id) ==> AlertedOnce(t.alerts, userId, i)
  }

  ghost predicate Reported(reports: seq<Report>, id: nat) {
    exists i :: 0 <= i < |reports| && reports[i].newsItemId == id
  }

  /** The one report about the item. */
  ghost predicate OnlyReport(reports: seq<Report>, report: Report) {
    && report in reports
    && (forall i :: 0 <= i < |reports| && reports[i].newsItemId == report.newsItemId ==> reports[i] == report)
  }

  /** The item has its report; the signals about it are exactly the ones it is due, and the user has one alert for
      each. */
  ghost predicate Analysed(t: Snapshot, item: WatchItem, userId: nat, id: nat) {
    && Comes(item.world, id)
    && OnlyReport(t.reports, Report(item.assetId, item.world.thesisId, id))
    && (exists p: nat :: Holds(t.signals, DueFrom(item, id), id, p))
    && AllAlertedOnce(t, userId, id)
  }

  /** The row's summary and impact are those given, or none. */
  predicate Summary(row: NewsItem, given: Option<NewsSummary>) {
    && row.summary == (if given.Some? then Some(given.value.text) else None)
    && row.impact == (if given.Some? then Some(given.value.impact) else None)
  }

  /** The item is of the asset and comes from what was fetched for it. */
  ghost predicate Origin(t: Snapshot, item: WatchItem, id: nat) {
    && id < |t.news|
    && item.world.fetch.Fetched?
    && ItemFrom(t.news[id], t.raw, item.assetId, item.world.fetch.entries)
  }

  /** Created for the asset, and nothing done with it yet. */
  ghost predicate Fresh(t: Snapshot, item: WatchItem, id: nat) {
    Origin(t, item, id) && Untouched(t, id) && Summary(t.news[id], None)
  }

  // ----- What later steps keep -----

  /** Nothing is taken away from what is known about the items before `first`: their rows stay, and what is added to
      the other tables is about items from `first` on, or about none. */
  ghost predicate Appends(t: Snapshot, after: Snapshot, first: nat) {
    && SignalsAppend(t, after, first)
    && ReportsAppend(t, after, first)
    && RowsStay(t, after, first)
    && AlertsStay(t, after)
  }

  ghost predicate SignalsAppend(t: Snapshot, after: Snapshot, first: nat) {
    && t.signals <= after.signals
    && (forall i :: |t.signals| <= i < |after.signals| && after.signals[i].newsItemId.Some? ==>
          after.signals[i].newsItemId.value >= first)
  }

  ghost predicate ReportsAppend(t: Snapshot, after: Snapshot, first: nat) {
    && t.reports <= after.reports
    && (forall i :: |t.reports| <= i < |after.reports| ==> after.reports[i].newsItemId >= first)
  }

  ghost predicate RowsStay(t: Snapshot, after: Snapshot, first: nat) {
    && |t.news| <= |after.news|
    && (forall i :: 0 <= i < |t.news| && i < first ==> after.news[i] == t.news[i])
    && |t.raw| <= |after.raw|
    && (forall i :: 0 <= i < |t.raw| ==> after.raw[i].url == t.raw[i].url)
  }

  /** Alerts keep their user and signal, and new ones are about new signals. */
  ghost predicate AlertsStay(t: Snapshot, after: Snapshot) {
    && |t.alerts| <= |after.alerts|
    && (forall j :: 0 <= j < |t.alerts| ==>
          after.alerts[j].userId == t.alerts[j].userId && after.alerts[j].signalId == t.alerts[j].signalId)
    && (forall j :: |t.alerts| <= j < |after.alerts| ==> after.alerts[j].signalId >= |t.signals|)
  }

  lemma AppendsTwice(a: Snapshot, b: Snapshot, c: Snapshot, first: nat, second: nat)
    requires Appends(a, b, first) && Appends(b, c, second) && first <= second
    ensures Appends(a, c, first)
  {
    SignalsAppendTwice(a, b, c, first, second);
    ReportsAppendTwice(a, b, c, first, second);
    AlertsStayTwice(a, b, c);
  }

  lemma SignalsAppendTwice(a: Snapshot, b: Snapshot, c: Snapshot, first: nat, second: nat)
    requires SignalsAppend(a, b, first) && SignalsAppend(b, c, second) && first <= second
    ensures SignalsAppend(a, c, first)
  {
    forall i | |a.signals| <= i < |c.signals| && c.signals[i].newsItemId.Some?
      ensures c.signals[i].newsItemId.value >= first
    {
      if i < |b.signals| {
        assert c.signals[i] == b.signals[i];
      }
    }
  }

  lemma ReportsAppendTwice(a: Snapshot, b: Snapshot, c: Snapshot, first: nat, second: nat)
    requires ReportsAppend(a, b, first) && ReportsAppend(b, c, second) && first <= second
    ensures ReportsAppend(a, c, first)
  {
    forall i | |a.reports| <= i < |c.reports| ensures c.reports[i].newsItemId >= first {
      if i < |b.reports| {
        assert c.reports[i] == b.reports[i];
      }
    }
  }

  lemma AlertsStayTwice(a: Snapshot, b: Snapshot, c: Snapshot)
    requires AlertsStay(a, b) && AlertsStay(b, c) && |a.signals| <= |b.signals|
    ensures AlertsStay(a, c)
  {
    forall j | |a.alerts| <= j < |c.alerts| ensures c.alerts[j].signalId >= |a.signals| {
      if j < |b.alerts| {
        assert c.alerts[j].signalId == b.alerts[j].signalId;
      }
    }
  }

  lemma UntouchedKept(t: Snapshot, after: Snapshot, first: nat, id: nat)
    requires Appends(t, after, first) && id < first && Untouched(t, id)
    ensures Untouched(after, id)
  {
    forall i | 0 <= i < |after.signals| ensures after.signals[i].newsItemId != Some(id) {
      if i < |t.signals| {
        assert after.signals[i] == t.signals[i];
      }
    }
    forall i | 0 <= i < |after.reports| ensures after.reports[i].newsItemId != id {
      if i < |t.reports| {
        assert after.reports[i] == t.reports[i];
      }
    }
  }

  lemma OriginKept(t: Snapshot, after: Snapshot, first: nat, item: WatchItem, id: nat)
    requires Appends(t, after, first) && id < first && Origin(t, item, id)
    ensures Origin(after, item, id) && after.news[id] == t.news[id]
  {
  }

  lemma HoldsKept(t: Snapshot, after: Snapshot, first: nat, due: seq<Signal>, id: nat, p: nat)
    requires SignalsAppend(t, after, first) && id < first && Holds(t.signals, due, id, p)
    ensures Holds(after.signals, due, id, p)
  {
    assert after.signals[p..p + |due|] == t.signals[p..p + |due|];
    forall i | 0 <= i < |after.signals| && About(after.signals[i], id) ensures p <= i < p + |due| {
      assert i < |t.signals| && after.signals[i] == t.signals[i];
    }
  }

  lemma OnlyReportKept(t: Snapshot, after: Snapshot, first: nat, report: Report)
    requires ReportsAppend(t, after, first) && report.newsItemId < first && OnlyReport(t.reports, report)
    ensures OnlyReport(after.reports, report)
  {
    forall i | 0 <= i < |after.reports| && after.reports[i].newsItemId == report.newsItemId
      ensures after.reports[i] == report
    {
      assert i < |t.reports| && after.reports[i] == t.reports[i];
    }
  }

  lemma AlertedOnceKept(t: Snapshot, after: Snapshot, userId: nat, signalId: nat)
    requires AlertsStay(t, after) && signalId < |t.signals| && AlertedOnce(t.alerts, userId, signalId)
    ensures AlertedOnce(after.alerts, userId, signalId)
  {
    var j :| 0 <= j < |t.alerts| && t.alerts[j].signalId == signalId && t.alerts[j].userId == userId
          && forall k :: 0 <= k < |t.alerts| && t.alerts[k].signalId == signalId ==> k == j;
    assert after.alerts[j].signalId == signalId;
    forall k | 0 <= k < |after.alerts| && after.alerts[k].signalId == signalId ensures k == j {
      assert k < |t.alerts| && t.alerts[k].signalId == signalId;
    }
  }

  lemma AllAlertedOnceKept(t: Snapshot, after: Snapshot, first: nat, userId: nat, id: nat)
    requires SignalsAppend(t, after, first) && AlertsStay(t, after) && id < first && AllAlertedOnce(t, userId, id)
    ensures AllAlertedOnce(after, userId, id)
  {
    forall i | 0 <= i < |after.signals| && About(after.signals[i], id) ensures AlertedOnce(after.alerts, userId, i) {
      assert i < |t.signals| && after.signals[i] == t.signals[i];
      AlertedOnceKept(t, after, userId, i);
    }
  }

  lemma AnalysedKept(t: Snapshot, after: Snapshot, first: nat, item: WatchItem, userId: nat, id: nat)
    requires Appends(t, after, first) && id < first && Analysed(t, item, userId, id)
    ensures Analysed(after, item, userId, id)
  {
    var p: nat :| Holds(t.signals, DueFrom(item, id), id, p);
    HoldsKept(t, after, first, DueFrom(item, id), id, p);
    OnlyReportKept(t, after, first, Report(item.assetId, item.world.thesisId, id));
    AllAlertedOnceKept(t, after, first, userId, id);
  }

  // ----- One item -----

  /** An untouched item is analysed exactly if its summary and its verdict come in; otherwise it stays untouched. Its
      summary is stored as soon as there is one. */
  lemma ItemSettles(t: Snapshot, item: WatchItem, userId: nat, id: nat, canon: string -> string)
    requires Consistent(t, canon) && Fresh(t, item, id)
    ensures var (after, counts) := ProcessItem(t, item.world, item.assetId, userId, id);
            && Appends(t, after, id)
            && Origin(after, item, id)
            && Summary(after.news[id], item.world.summarize(id))
            && (counts.Some? <==> Comes(item.world, id))
            && (if counts.Some? then Analysed(after, item, userId, id) else Untouched(after, id))
  {
    ProcessItemExact(t, item.world, item.assetId, userId, id, canon);
    if Comes(item.world, id) {
      ItemYields(t, item, userId, id, canon);
    }
  }

  /** What the rules see of an item that gets through. */
  function Seen(item: WatchItem, id: nat): RuleContext
    requires Comes(item.world, id)
  {
    var w := item.world;
    RuleContext(item.assetId, id, Some(w.summarize(id).value.impact), w.thesisId,
                if w.thesisId.Some? then w.judge(id) else None)
  }

  lemma ProcessesSeen(t: Snapshot, item: WatchItem, userId: nat, id: nat)
    requires id < |t.news| && Comes(item.world, id)
    ensures var s := Summarized(t, id, item.world.summarize(id).value);
            var (after, counts) := Conclude(s, userId, Seen(item, id), ClockOf(item.world, id));
            && ProcessItem(t, item.world, item.assetId, userId, id) == (after, Some(counts))
            && after.signals == CreateAll(s.signals, ClockOf(item.world, id), Candidates(Seen(item, id))).0
  {
  }

  /** Storing a summary touches one row only. */
  lemma SummarizedOnly(t: Snapshot, id: nat, summary: NewsSummary)
    requires id < |t.news|
    ensures var s := Summarized(t, id, summary);
            && Summary(s.news[id], Some(summary))
            && RowsStay(t, s, id)
            && s == t.(news := s.news)
  {
  }

  lemma ItemYields(t: Snapshot, item: WatchItem, userId: nat, id: nat, canon: string -> string)
    requires Consistent(t, canon) && Fresh(t, item, id) && Comes(item.world, id)
    ensures var (after, counts) := ProcessItem(t, item.world, item.assetId, userId, id);
            && counts.Some?
            && Analysed(after, item, userId, id)
            && Appends(t, after, id)
            && Summary(after.news[id], item.world.summarize(id))
  {
    var summary := item.world.summarize(id).value;
    var s, ctx, clock := Summarized(t, id, summary), Seen(item, id), ClockOf(item.world, id);
    SummarizedOnly(t, id, summary);
    SummarizedConsistent(t, id, summary, canon);
    ConcludeExact(s, userId, ctx, clock, canon);
    FreshItemGetsDue(s.signals, clock, ctx);
    ProcessesSeen(t, item, userId, id);
    var (after, counts) := Conclude(s, userId, ctx, clock);
    ConcludedHolds(s.signals, after.signals, DueFrom(item, id), id);
    ConcludedSignals(s, after, userId, counts, ctx);
    ConcludedAlerts(s, after, userId, counts, ctx);
    ConcludedReports(s, after, userId, counts, ctx);
    ConcludedRows(t, s, after, userId, counts, ctx);
  }

  lemma ConcludedRows(t: Snapshot, s: Snapshot, after: Snapshot, userId: nat, counts: Counts, ctx: RuleContext)
    requires RowsStay(t, s, ctx.newsItemId) && Concluded(s, after, userId, counts, ctx)
    ensures RowsStay(t, after, ctx.newsItemId) && after.news == s.news
  {
  }

  lemma ConcludedSignals(t: Snapshot, after: Snapshot, userId: nat, counts: Counts, ctx: RuleContext)
    requires Concluded(t, after, userId, counts, ctx)
    ensures SignalsAppend(t, after, ctx.newsItemId)
  {
  }

  lemma ConcludedHolds(before: seq<Signal>, after: seq<Signal>, due: seq<Signal>, id: nat)
    requires FreshItem(before, id) && after == before + due
    ensures Holds(after, due, id, |before|)
  {
    assert forall i :: 0 <= i < |before| ==> after[i] == before[i];
  }

  lemma ConcludedReports(t: Snapshot, after: Snapshot, userId: nat, counts: Counts, ctx: RuleContext)
    requires Untouched(t, ctx.newsItemId) && Concluded(t, after, userId, counts, ctx)
    ensures OnlyReport(after.reports, Report(ctx.assetId, ctx.thesisId, ctx.newsItemId))
    ensures ReportsAppend(t, after, ctx.newsItemId)
  {
    assert after.reports[|t.reports|] == Report(ctx.assetId, ctx.thesisId, ctx.newsItemId);
  }

  lemma ConcludedAlerts(t: Snapshot, after: Snapshot, userId: nat, counts: Counts, ctx: RuleContext)
    requires AlertsRefer(t) && FreshItem(t.signals, ctx.newsItemId) && Concluded(t, after, userId, counts, ctx)
    ensures AllAlertedOnce(after, userId, ctx.newsItemId) && AlertsStay(t, after)
  {
    assert forall i :: 0 <= i < |t.signals| ==> after.signals[i] == t.signals[i];
    forall i | 0 <= i < |after.signals| && About(after.signals[i], ctx.newsItemId)
      ensures AlertedOnce(after.alerts, userId, i)
    {
      NewSignalAlertedOnce(t.alerts, after.alerts, |t.signals|, userId, i);
    }
  }

  /** Alerts are added for the signals from position `n` on, one for each and in their order. */
  lemma NewSignalAlertedOnce(before: seq<Alert>, after: seq<Alert>, n: nat, userId: nat, i: nat)
    requires |before| <= |after| && n <= i && i - n < |after| - |before|
    requires forall j :: 0 <= j < |before| ==> before[j].signalId < n && after[j] == before[j]
    requires forall j :: |before| <= j < |after| ==>
      after[j].signalId == n + (j - |before|) && after[j].userId == userId
    ensures AlertedOnce(after, userId, i)
  {
    var j := |before| + (i - n);
    assert after[j].signalId == i;
  }

  ghost predicate AlertsRefer(t: Snapshot) {
    forall j :: 0 <= j < |t.alerts| ==> t.alerts[j].signalId < |t.signals|
  }

  // ----- The items of one asset -----

  /** Every item from `first` up to, and without, `end` gets its summary and its verdict. */
  ghost predicate Passes(w: World, first: nat, end: nat) {
    forall j :: first <= j < end ==> Comes(w, j)
  }

  /** What became of an item, those of its asset being numbered from `first` on. It is analysed exactly if it and the
      ones before it pass, and untouched otherwise; its summary is stored if it was reached and has one. */
  ghost predicate Settled(t: Snapshot, item: WatchItem, userId: nat, first: nat, id: nat) {
    && Origin(t, item, id)
    && Summary(t.news[id], if Passes(item.world, first, id) then item.world.summarize(id) else None)
    && (if Passes(item.world, first, id + 1) then Analysed(t, item, userId, id) else Untouched(t, id))
  }

  lemma PassesNext(w: World, first: nat, id: nat)
    requires first <= id
    ensures Passes(w, first, id + 1) <==> Passes(w, first, id) && Comes(w, id)
  {
  }

  lemma SettledKept(
    t: Snapshot, after: Snapshot, bound: nat, item: WatchItem, userId: nat, first: nat, id: nat)
    requires Appends(t, after, bound) && id < bound && Settled(t, item, userId, first, id)
    ensures Settled(after, item, userId, first, id)
  {
    OriginKept(t, after, bound, item, id);
    if Passes(item.world, first, id + 1) {
      AnalysedKept(t, after, bound, item, userId, id);
    } else {
      UntouchedKept(t, after, bound, id);
    }
  }

  /** Consecutive items from `first` on with which nothing has been done yet. */
  ghost predicate Ready(t: Snapshot, item: WatchItem, first: nat, ids: seq<nat>) {
    && first + |ids| <= |t.news|
    && (forall i :: 0 <= i < |ids| ==> ids[i] == first + i && Fresh(t, item, ids[i]))
  }

  ghost predicate SettledBetween(t: Snapshot, item: WatchItem, userId: nat, first: nat, end: nat) {
    forall id :: first <= id < end ==> Settled(t, item, userId, first, id)
  }

  /** The items from `first` on are settled, nothing about earlier ones has changed, and `counts` says if all
      passed. */
  ghost predicate AllSettled(
    t: Snapshot, after: Snapshot, counts: Option<Counts>, item: WatchItem, userId: nat, first: nat, end: nat)
  {
    && Appends(t, after, first)
    && SettledBetween(after, item, userId, first, end)
    && (counts.Some? <==> Passes(item.world, first, end))
  }

  lemma SettledBetweenKept(t: Snapshot, after: Snapshot, item: WatchItem, userId: nat, first: nat, end: nat)
    requires Appends(t, after, end) && SettledBetween(t, item, userId, first, end)
    ensures SettledBetween(after, item, userId, first, end)
  {
    forall id | first <= id < end ensures Settled(after, item, userId, first, id) {
      SettledKept(t, after, end, item, userId, first, id);
    }
  }

  lemma SettledOneMore(t: Snapshot, item: WatchItem, userId: nat, first: nat, id: nat)
    requires first <= id && SettledBetween(t, item, userId, first, id) && Settled(t, item, userId, first, id)
    ensures SettledBetween(t, item, userId, first, id + 1)
  {
  }

  /** One more item, `id`, after those before it have been processed without raising. */
  lemma NextSettles(
    t: Snapshot, before: Snapshot, counts: Counts, item: WatchItem, userId: nat, first: nat, id: nat,
    canon: string -> string)
    requires first <= id && AllSettled(t, before, Some(counts), item, userId, first, id)
    requires Consistent(before, canon) && Fresh(before, item, id)
    ensures var (after, one) := ProcessItem(before, item.world, item.assetId, userId, id);
            AllSettled(t, after, one, item, userId, first, id + 1)
  {
    ItemSettles(before, item, userId, id, canon);
    var (after, one) := ProcessItem(before, item.world, item.assetId, userId, id);
    AppendsTwice(t, before, after, first, id);
    SettledBetweenKept(before, after, item, userId, first, id);
    PassesNext(item.world, first, id);
    SettledOneMore(after, item, userId, first, id);
  }

  /** One more item after one that raised. */
  lemma StoppedSettles(t: Snapshot, before: Snapshot, item: WatchItem, userId: nat, first: nat, id: nat)
    requires first <= id && AllSettled(t, before, None, item, userId, first, id) && Fresh(before, item, id)
    ensures AllSettled(t, before, None, item, userId, first, id + 1)
  {
    PassesNext(item.world, first, id);
    SettledOneMore(before, item, userId, first, id);
  }

  lemma ProcessItemsLast(t: Snapshot, w: World, assetId: nat, userId: nat, ids: seq<nat>)
    requires ids != [] && forall i :: 0 <= i < |ids| ==> ids[i] < |t.news|
    ensures var (before, counts) := ProcessItems(t, w, assetId, userId, ids[..|ids| - 1]);
            var (after, whole) := ProcessItems(t, w, assetId, userId, ids);
            && (counts.None? ==> after == before && whole.None?)
            && (counts.Some? ==>
                  var (next, one) := ProcessItem(before, w, assetId, userId, ids[|ids| - 1]);
                  after == next && (whole.Some? <==> one.Some?))
  {
  }

  /** What the items before the last leave of it. */
  lemma LastIsReady(
    t: Snapshot, item: WatchItem, userId: nat, first: nat, ids: seq<nat>, canon: string -> string)
    requires Consistent(t, canon) && Ready(t, item, first, ids) && ids != []
    ensures Ready(t, item, first, ids[..|ids| - 1])
    ensures var before := ProcessItems(t, item.world, item.assetId, userId, ids[..|ids| - 1]).0;
            Consistent(before, canon) && |before.news| == |t.news| && Fresh(before, item, ids[|ids| - 1])
  {
    var head := ids[..|ids| - 1];
    ProcessItemsExact(t, item.world, item.assetId, userId, head, canon);
    assert ids[|ids| - 1] !in head;
  }

  lemma LastSettles(
    t: Snapshot, item: WatchItem, userId: nat, first: nat, ids: seq<nat>, canon: string -> string)
    requires Consistent(t, canon) && ids != [] && Ready(t, item, first, ids) && Ready(t, item, first, ids[..|ids| - 1])
    requires var (before, counts) := ProcessItems(t, item.world, item.assetId, userId, ids[..|ids| - 1]);
             AllSettled(t, before, counts, item, userId, first, first + |ids| - 1)
    ensures var (after, counts) := ProcessItems(t, item.world, item.assetId, userId, ids);
            AllSettled(t, after, counts, item, userId, first, first + |ids|)
  {
    var id := ids[|ids| - 1];
    LastIsReady(t, item, userId, first, ids, canon);
    ProcessItemsLast(t, item.world, item.assetId, userId, ids);
    var (before, counts) := ProcessItems(t, item.world, item.assetId, userId, ids[..|ids| - 1]);
    if counts.Some? {
      NextSettles(t, before, counts.value, item, userId, first, id, canon);
    } else {
      StoppedSettles(t, before, item, userId, first, id);
    }
  }

  lemma {:induction false} ItemsSettle(
    t: Snapshot, item: WatchItem, userId: nat, first: nat, ids: seq<nat>, canon: string -> string)
    requires Consistent(t, canon) && Ready(t, item, first, ids)
    ensures var (after, counts) := ProcessItems(t, item.world, item.assetId, userId, ids);
            AllSettled(t, after, counts, item, userId, first, first + |ids|)
    decreases |ids|
  {
    if ids == [] {
      NothingSettles(t, item, userId, first);
    } else {
      LastIsReady(t, item, userId, first, ids, canon);
      ItemsSettle(t, item, userId, first, ids[..|ids| - 1], canon);
      LastSettles(t, item, userId, first, ids, canon);
    }
  }

  lemma NothingSettles(t: Snapshot, item: WatchItem, userId: nat, first: nat)
    ensures AllSettled(t, t, Some(Counts(0, 0)), item, userId, first, first)
  {
  }

  /** The tables once an asset's entries are stored and its new items created, and those items. */
  function Started(t: Snapshot, assetId: nat, entries: seq<(Entry, nat)>): (Snapshot, seq<nat>) {
    var saved := t.(raw := SaveAll(t.raw, entries));
    var (news, ids) := CreateItems(saved, assetId, entries);
    (saved.(news := news), ids)
  }

  lemma StartedAppends(t: Snapshot, item: WatchItem, canon: string -> string)
    requires Consistent(t, canon) && item.world.fetch.Fetched?
    ensures var (start, ids) := Started(t, item.assetId, item.world.fetch.entries);
            && Consistent(start, canon)
            && |start.news| == |t.news| + |ids|
            && (forall i :: 0 <= i < |ids| ==> ids[i] == |t.news| + i)
            && (forall i :: 0 <= i < |ids| ==> Untouched(start, ids[i]))
            && Appends(t, start, |t.news|)
  {
    var entries := item.world.fetch.entries;
    var saved := t.(raw := SaveAll(t.raw, entries));
    SaveAllConsistent(t, entries, canon);
    var (news, ids) := CreateItems(saved, item.assetId, entries);
    CreateItemsIds(saved, item.assetId, entries);
    CreateItemsConsistent(saved, item.assetId, entries, canon);
    NewItemsUntouched(saved, news, ids);
  }

  lemma StartedOrigin(t: Snapshot, item: WatchItem, id: nat)
    requires item.world.fetch.Fetched?
    requires |t.news| <= id < |Started(t, item.assetId, item.world.fetch.entries).0.news|
    ensures var start := Started(t, item.assetId, item.world.fetch.entries).0;
            Origin(start, item, id) && Summary(start.news[id], None)
  {
    var entries := item.world.fetch.entries;
    SaveAllExact(t.raw, entries);
    CreateItemsExact(t.(raw := SaveAll(t.raw, entries)), item.assetId, entries);
  }

  lemma StartedReady(t: Snapshot, item: WatchItem, canon: string -> string)
    requires Consistent(t, canon) && item.world.fetch.Fetched?
    ensures var (start, ids) := Started(t, item.assetId, item.world.fetch.entries);
            && Consistent(start, canon)
            && |start.news| == |t.news| + |ids|
            && Ready(start, item, |t.news|, ids)
            && Appends(t, start, |t.news|)
  {
    StartedAppends(t, item, canon);
    var (start, ids) := Started(t, item.assetId, item.world.fetch.entries);
    forall i | 0 <= i < |ids| ensures Fresh(start, item, ids[i]) {
      StartedOrigin(t, item, ids[i]);
    }
  }

  lemma ProcessesStarted(t: Snapshot, item: WatchItem, userId: nat)
    requires item.world.fetch.Fetched?
    ensures var (start, ids) := Started(t, item.assetId, item.world.fetch.entries);
            && (forall i :: 0 <= i < |ids| ==> ids[i] < |start.news|)
            && ProcessAsset(t, item, userId).0 == ProcessItems(start, item.world, item.assetId, userId, ids).0
            && (ProcessAsset(t, item, userId).1.Some?
                <==> ProcessItems(start, item.world, item.assetId, userId, ids).1.Some?)
  {
    var saved := t.(raw := SaveAll(t.raw, item.world.fetch.entries));
    CreateItemsIds(saved, item.assetId, item.world.fetch.entries);
  }

  /** An asset: it is processed exactly if every item it creates passes; and each of those is analysed exactly if it
      and the ones created before it pass, and left untouched otherwise. */
  lemma AssetSettles(t: Snapshot, item: WatchItem, userId: nat, canon: string -> string)
    requires Consistent(t, canon)
    ensures var (after, result) := ProcessAsset(t, item, userId);
            && Appends(t, after, |t.news|)
            && (forall id :: |t.news| <= id < |after.news| ==> Settled(after, item, userId, |t.news|, id))
            && (result.Some? <==> item.world.fetch.Fetched? && Passes(item.world, |t.news|, |after.news|))
  {
    if item.world.fetch.Fetched? {
      var (start, ids) := Started(t, item.assetId, item.world.fetch.entries);
      StartedReady(t, item, canon);
      ProcessesStarted(t, item, userId);
      ItemsSettle(start, item, userId, |t.news|, ids, canon);
      AppendsTwice(t, start, ProcessAsset(t, item, userId).0, |t.news|, |t.news|);
    }
  }

  /** A signal of the type is about the item. */
  ghost predicate Signalled(signals: seq<Signal>, id: nat, signalType: SignalType) {
    exists i :: 0 <= i < |signals| && About(signals[i], id) && signals[i].signalType == signalType
  }

  /** A conflict that does not invalidate the thesis, or a high or critical impact. */
  predicate RiskDue(w: World, id: nat)
    requires Comes(w, id)
  {
    || (w.thesisId.Some? && !w.judge(id).value.invalidationTriggered && w.judge(id).value.status == CONFLICTS)
    || w.summarize(id).value.impact == HIGH
    || w.summarize(id).value.impact == CRITICAL
  }

  /** Which signals an analysed item has, one way and the other: a broken thesis exactly if there is a thesis and the
      verdict triggers its invalidation; a risk exactly if the verdict is a conflict that does not, or the impact is
      high or critical; and no other. */
  ghost predicate SignalsExplained(signals: seq<Signal>, w: World, id: nat)
    requires Comes(w, id)
  {
    && (Signalled(signals, id, THESIS_BROKEN) <==> w.thesisId.Some? && w.judge(id).value.invalidationTriggered)
    && (Signalled(signals, id, RISK_ALERT) <==> RiskDue(w, id))
    && OnlyTheseTypes(signals, id)
  }

  /** No other type, and neither of the two twice. */
  ghost predicate OnlyTheseTypes(signals: seq<Signal>, id: nat) {
    && (forall i :: 0 <= i < |signals| && About(signals[i], id) ==>
          signals[i].signalType == THESIS_BROKEN || signals[i].signalType == RISK_ALERT)
    && (forall i, j :: 0 <= i < j < |signals| && About(signals[i], id) && About(signals[j], id) ==>
          signals[i].signalType == THESIS_BROKEN && signals[j].signalType == RISK_ALERT)
  }

  /** What holds of the rows an item is due holds of the signals about it. */
  lemma HeldAt(signals: seq<Signal>, due: seq<Signal>, id: nat, p: nat, i: nat)
    requires Holds(signals, due, id, p) && i < |signals| && About(signals[i], id)
    ensures p <= i < p + |due| && signals[i] == due[i - p]
  {
    assert signals[p..p + |due|][i - p] == signals[i];
  }

  lemma HeldAll(signals: seq<Signal>, due: seq<Signal>, id: nat, p: nat, k: nat)
    requires Holds(signals, due, id, p) && k < |due|
    ensures signals[p + k] == due[k]
  {
    assert signals[p..p + |due|][k] == signals[p + k];
  }

  /** A row of the type is due. */
  ghost predicate Calls(due: seq<Signal>, signalType: SignalType) {
    exists k :: 0 <= k < |due| && due[k].signalType == signalType
  }

  lemma HeldExactly(signals: seq<Signal>, due: seq<Signal>, id: nat, p: nat, signalType: SignalType)
    requires Holds(signals, due, id, p) && forall k :: 0 <= k < |due| ==> About(due[k], id)
    ensures Signalled(signals, id, signalType) <==> Calls(due, signalType)
  {
    if Signalled(signals, id, signalType) {
      var i :| 0 <= i < |signals| && About(signals[i], id) && signals[i].signalType == signalType;
      HeldAt(signals, due, id, p, i);
      assert due[i - p].signalType == signalType;
    }
    if Calls(due, signalType) {
      var k :| 0 <= k < |due| && due[k].signalType == signalType;
      HeldAll(signals, due, id, p, k);
      assert About(signals[p + k], id);
    }
  }

  /** Of two optional rows. */
  lemma RowsCall(a: Option<Signal>, b: Option<Signal>, signalType: SignalType)
    ensures Calls(Row(a) + Row(b), signalType)
       <==> (a.Some? && a.value.signalType == signalType) || (b.Some? && b.value.signalType == signalType)
  {
    var rows := Row(a) + Row(b);
    if a.Some? {
      assert rows[0] == a.value;
    }
    if b.Some? {
      assert rows[|rows| - 1] == b.value;
    }
  }

  lemma DueTypes(item: WatchItem, id: nat)
    requires Comes(item.world, id)
    ensures var w, due := item.world, DueFrom(item, id);
            && (forall k :: 0 <= k < |due| ==> About(due[k], id))
            && TypesInTurn(due)
            && (Calls(due, THESIS_BROKEN) <==> w.thesisId.Some? && w.judge(id).value.invalidationTriggered)
            && (Calls(due, RISK_ALERT) <==> RiskDue(w, id))
  {
    var w := item.world;
    var verdict := if w.thesisId.Some? then w.judge(id) else None;
    var broken := BrokenThesis(item.assetId, id, w.thesisId, verdict);
    var risk := Risk(item.assetId, id, w.thesisId, verdict, Some(w.summarize(id).value.impact));
    RowsCall(broken, risk, THESIS_BROKEN);
    RowsCall(broken, risk, RISK_ALERT);
  }

  /** At most a broken thesis and, after it, a risk. */
  predicate TypesInTurn(due: seq<Signal>) {
    && (forall k :: 0 <= k < |due| ==> due[k].signalType == THESIS_BROKEN || due[k].signalType == RISK_ALERT)
    && (forall j, k :: 0 <= j < k < |due| ==> due[j].signalType == THESIS_BROKEN && due[k].signalType == RISK_ALERT)
  }

  lemma AnalysedExplained(t: Snapshot, item: WatchItem, userId: nat, id: nat)
    requires Analysed(t, item, userId, id)
    ensures SignalsExplained(t.signals, item.world, id)
  {
    var p: nat :| Holds(t.signals, DueFrom(item, id), id, p);
    HeldExplained(t.signals, item, id, p);
  }

  lemma HeldExplained(signals: seq<Signal>, item: WatchItem, id: nat, p: nat)
    requires Comes(item.world, id) && Holds(signals, DueFrom(item, id), id, p)
    ensures SignalsExplained(signals, item.world, id)
  {
    var due := DueFrom(item, id);
    DueTypes(item, id);
    HeldExactly(signals, due, id, p, THESIS_BROKEN);
    HeldExactly(signals, due, id, p, RISK_ALERT);
    OnlyDueTypes(signals, due, id, p);
  }

  lemma OnlyDueTypes(signals: seq<Signal>, due: seq<Signal>, id: nat, p: nat)
    requires Holds(signals, due, id, p)
    requires TypesInTurn(due)
    ensures OnlyTheseTypes(signals, id)
  {
    forall i | 0 <= i < |signals| && About(signals[i], id)
      ensures p <= i < p + |due| && signals[i] == due[i - p]
    {
      HeldAt(signals, due, id, p, i);
    }
  }

  /** An asset processed successfully: every item it created got its summary and its verdict, which say exactly which
      signals about it the store holds. Each has one alert, and the item one report. */
  lemma ProcessedAssetYieldsExactly(t: Snapshot, item: WatchItem, userId: nat, canon: string -> string)
    requires Consistent(t, canon) && ProcessAsset(t, item, userId).1.Some?
    ensures var after := ProcessAsset(t, item, userId).0;
            forall id :: |t.news| <= id < |after.news| ==>
              && Analysed(after, item, userId, id)
              && SignalsExplained(after.signals, item.world, id)
              && Summary(after.news[id], item.world.summarize(id))
  {
    AssetSettles(t, item, userId, canon);
    var after := ProcessAsset(t, item, userId).0;
    forall id | |t.news| <= id < |after.news|
      ensures Analysed(after, item, userId, id) && SignalsExplained(after.signals, item.world, id)
      ensures Summary(after.news[id], item.world.summarize(id))
    {
      assert Settled(after, item, userId, |t.news|, id);
      AnalysedExplained(after, item, userId, id);
    }
  }

  // ----- One run over a watchlist -----

  /** The totals have grown by one asset and by the rows that are new in each table. */
  predicate Gained(before: Snapshot, after: Snapshot, counted: FlowResult, result: FlowResult) {
    && result.processed == counted.processed + 1
    && result.newsItems - counted.newsItems == |after.news| - |before.news|
    && result.reports - counted.reports == |after.reports| - |before.reports|
    && result.signals - counted.signals == |after.signals| - |before.signals|
    && result.alerts - counted.alerts == |after.alerts| - |before.alerts|
    && result.failures == counted.failures
  }

  /** The last asset of a run fails exactly if its row is gone, its fetch raises, or an item created for it gets no
      summary or no verdict; then it alone is added to the failures. Otherwise the totals grow by the rows that are
      new in each table. */
  lemma LastAssetCounts(t: Snapshot, items: seq<WatchItem>, userId: nat, canon: string -> string)
    requires Consistent(t, canon) && items != []
    ensures var item := items[|items| - 1];
            var (before, counted) := Flow(t, items[..|items| - 1], userId);
            var (after, result) := Flow(t, items, userId);
            var reached := item.present && item.world.fetch.Fetched?;
            && (!reached ==> after == before)
            && (if !reached || exists id :: |before.news| <= id < |after.news| && !Comes(item.world, id)
                then result == counted.(failures := counted.failures + [item.assetId])
                else Gained(before, after, counted, result))
  {
    var n := |items| - 1;
    FlowExact(t, items[..n], userId, canon);
    var before := Flow(t, items[..n], userId).0;
    AssetSettles(before, items[n], userId, canon);
    ProcessAssetExact(before, items[n], userId, canon);
  }

  /** How many news items exist once the first `k` assets of a run have been handled. */
  function NewsAfter(t: Snapshot, items: seq<WatchItem>, userId: nat, k: nat): nat
    requires k <= |items|
  {
    |Flow(t, items[..k], userId).0.news|
  }

  /** The item was created while asset `k` of the run was handled. */
  predicate CreatedFor(t: Snapshot, items: seq<WatchItem>, userId: nat, k: nat, id: nat) {
    k < |items| && NewsAfter(t, items, userId, k) <= id < NewsAfter(t, items, userId, k + 1)
  }

  ghost predicate FlowSettled(t: Snapshot, after: Snapshot, items: seq<WatchItem>, userId: nat, k: nat, id: nat)
    requires k < |items|
  {
    Settled(after, items[k], userId, NewsAfter(t, items, userId, k), id)
  }

  lemma {:induction false} FlowAppends(t: Snapshot, items: seq<WatchItem>, userId: nat, canon: string -> string)
    requires Consistent(t, canon)
    ensures var after := Flow(t, items, userId).0;
            Consistent(after, canon) && Appends(t, after, |t.news|)
  {
    FlowExact(t, items, userId, canon);
    if items != [] {
      var n := |items| - 1;
      FlowAppends(t, items[..n], userId, canon);
      var before := Flow(t, items[..n], userId).0;
      AssetSettles(before, items[n], userId, canon);
      AppendsTwice(t, before, Flow(t, items, userId).0, |t.news|, |before.news|);
    }
  }

  lemma FlowPrefix(t: Snapshot, items: seq<WatchItem>, userId: nat, n: nat, k: nat)
    requires k <= n <= |items|
    ensures items[..n][..k] == items[..k]
    ensures NewsAfter(t, items[..n], userId, k) == NewsAfter(t, items, userId, k)
  {
    assert items[..n][..k] == items[..k];
  }

  lemma LastAssetSettles(t: Snapshot, items: seq<WatchItem>, userId: nat, id: nat, canon: string -> string)
    requires Consistent(t, canon) && items != [] && CreatedFor(t, items, userId, |items| - 1, id)
    ensures FlowSettled(t, Flow(t, items, userId).0, items, userId, |items| - 1, id)
  {
    var n := |items| - 1;
    assert items[..n + 1] == items;
    FlowAppends(t, items[..n], userId, canon);
    AssetSettles(Flow(t, items[..n], userId).0, items[n], userId, canon);
  }

  lemma EarlierAssetSettles(
    t: Snapshot, items: seq<WatchItem>, userId: nat, k: nat, id: nat, canon: string -> string)
    requires Consistent(t, canon) && CreatedFor(t, items, userId, k, id) && k < |items| - 1
    requires FlowSettled(t, Flow(t, items[..|items| - 1], userId).0, items, userId, k, id)
    ensures FlowSettled(t, Flow(t, items, userId).0, items, userId, k, id)
  {
    var n := |items| - 1;
    var before := Flow(t, items[..n], userId).0;
    NewsGrows(t, items, userId, k + 1, n, canon);
    LastAssetAppends(t, items, userId, canon);
    FlowSettledKept(t, before, Flow(t, items, userId).0, items, userId, k, id);
  }

  lemma FlowSettledKept(
    t: Snapshot, before: Snapshot, after: Snapshot, items: seq<WatchItem>, userId: nat, k: nat, id: nat)
    requires k < |items| && FlowSettled(t, before, items, userId, k, id)
    requires Appends(before, after, |before.news|) && id < |before.news|
    ensures FlowSettled(t, after, items, userId, k, id)
  {
    SettledKept(before, after, |before.news|, items[k], userId, NewsAfter(t, items, userId, k), id);
  }

  lemma LastAssetAppends(t: Snapshot, items: seq<WatchItem>, userId: nat, canon: string -> string)
    requires Consistent(t, canon) && items != []
    ensures var before := Flow(t, items[..|items| - 1], userId).0;
            var after := Flow(t, items, userId).0;
            Appends(before, after, |before.news|)
  {
    var n := |items| - 1;
    FlowAppends(t, items[..n], userId, canon);
    AssetSettles(Flow(t, items[..n], userId).0, items[n], userId, canon);
  }

  /** Items created for asset `k` are settled when the run ends, by the world that asset met. */
  lemma {:induction false} FlowSettles(
    t: Snapshot, items: seq<WatchItem>, userId: nat, k: nat, id: nat, canon: string -> string)
    requires Consistent(t, canon) && CreatedFor(t, items, userId, k, id)
    ensures FlowSettled(t, Flow(t, items, userId).0, items, userId, k, id)
    decreases |items|
  {
    var n := |items| - 1;
    if k < n {
      FlowPrefix(t, items, userId, n, k);
      FlowPrefix(t, items, userId, n, k + 1);
      FlowSettles(t, items[..n], userId, k, id, canon);
      EarlierAssetSettles(t, items, userId, k, id, canon);
    } else {
      LastAssetSettles(t, items, userId, id, canon);
    }
  }

  lemma OneMoreGrows(t: Snapshot, items: seq<WatchItem>, userId: nat, k: nat, canon: string -> string)
    requires Consistent(t, canon) && 0 < k <= |items|
    ensures NewsAfter(t, items, userId, k - 1) <= NewsAfter(t, items, userId, k)
  {
    assert items[..k][..k - 1] == items[..k - 1];
    LastAssetAppends(t, items[..k], userId, canon);
  }

  lemma {:induction false} NewsGrows(
    t: Snapshot, items: seq<WatchItem>, userId: nat, j: nat, k: nat, canon: string -> string)
    requires Consistent(t, canon) && j <= k <= |items|
    ensures NewsAfter(t, items, userId, j) <= NewsAfter(t, items, userId, k)
    decreases k
  {
    if j < k {
      NewsGrows(t, items, userId, j, k - 1, canon);
      OneMoreGrows(t, items, userId, k, canon);
    }
  }

  /** Every new item was created for some asset. */
  lemma {:induction false} SomeAssetCreated(
    t: Snapshot, items: seq<WatchItem>, userId: nat, k: nat, id: nat) returns (which: nat)
    requires k <= |items| && |t.news| <= id < NewsAfter(t, items, userId, k)
    ensures CreatedFor(t, items, userId, which, id)
    decreases k
  {
    assert items[..0] == [];
    if NewsAfter(t, items, userId, k - 1) <= id {
      which := k - 1;
    } else {
      which := SomeAssetCreated(t, items, userId, k - 1, id);
    }
  }

  // ----- Any sequence of jobs -----

  lemma JobAppends(t: Snapshot, job: Job, canon: string -> string)
    requires Consistent(t, canon)
    ensures Appends(t, RunJob(t, job, canon), |t.news|)
  {
    match job
    case Ingest(targets, resolve) =>
      IngestionKeepsBooks(t, targets, canon, resolve);
      CollectTouchesNewsOnly(t, targets, canon, resolve);
    case Analyze(items, userId) => FlowAppends(t, items, userId, canon);
    case Check(m, ps, cash, threshold, clock) =>
      CheckAppends(t.signals, seq(|ps|, i requires 0 <= i < |ps| => clock(i)),
                   Portfolio.WeightsOf(m, ps, cash, threshold).positions);
    case Acknowledge(_, _, _) =>
  }

  lemma {:induction false} JobsAppend(jobs: seq<Job>, n: nat, canon: string -> string)
    requires n <= |jobs|
    ensures var before, after := RunJobs(jobs[..n], canon), RunJobs(jobs, canon);
            Appends(before, after, |before.news|)
  {
    if n == |jobs| {
      assert jobs[..n] == jobs;
    } else {
      var k := |jobs| - 1;
      assert jobs[..k][..n] == jobs[..n];
      JobsAppend(jobs[..k], n, canon);
      JobsKeepTablesConsistent(jobs[..k], canon);
      var before, middle := RunJobs(jobs[..n], canon), RunJobs(jobs[..k], canon);
      JobAppends(middle, jobs[k], canon);
      AppendsTwice(before, middle, RunJobs(jobs, canon), |before.news|, |middle.news|);
    }
  }

  /** Job `n` created the item. */
  predicate CreatedBy(jobs: seq<Job>, n: nat, canon: string -> string, id: nat) {
    n < |jobs| && |RunJobs(jobs[..n], canon).news| <= id < |RunJobs(jobs[..n + 1], canon).news|
  }

  /** The job that created the item was an ingestion, or an analysis in which that item, or one created before it
      for the same asset, got no summary or no verdict. */
  ghost predicate LeftBehind(t: Snapshot, job: Job, id: nat) {
    || job.Ingest?
    || (job.Analyze? && exists k: nat, j: nat ::
          && CreatedFor(t, job.items, job.userId, k, id)
          && NewsAfter(t, job.items, job.userId, k) <= j <= id
          && !Comes(job.items[k].world, j))
  }

  /** The job analysed the item, for the asset it created it for. */
  ghost predicate AnalysedBy(t: Snapshot, job: Job, after: Snapshot, id: nat) {
    job.Analyze? && exists k: nat ::
      && CreatedFor(t, job.items, job.userId, k, id)
      && Analysed(after, job.items[k], job.userId, id)
      && SignalsExplained(after.signals, job.items[k].world, id)
  }

  /** The job created the item for an asset, and settled it. */
  ghost predicate SettledBy(t: Snapshot, job: Job, after: Snapshot, id: nat) {
    job.Analyze? && exists k: nat ::
      && CreatedFor(t, job.items, job.userId, k, id)
      && Settled(after, job.items[k], job.userId, NewsAfter(t, job.items, job.userId, k), id)
  }

  lemma OnlyOneAsset(t: Snapshot, items: seq<WatchItem>, userId: nat, j: nat, k: nat, id: nat, canon: string -> string)
    requires Consistent(t, canon) && CreatedFor(t, items, userId, j, id) && CreatedFor(t, items, userId, k, id)
    ensures j == k
  {
    if j < k {
      NewsGrows(t, items, userId, j + 1, k, canon);
    } else if k < j {
      NewsGrows(t, items, userId, k + 1, j, canon);
    }
  }

  /** At the end of the job that created it, an item is left behind untouched, or analysed. */
  lemma JobSettles(t: Snapshot, job: Job, canon: string -> string, id: nat)
    requires Consistent(t, canon) && |t.news| <= id < |RunJob(t, job, canon).news|
    ensures var after := RunJob(t, job, canon);
            && (if LeftBehind(t, job, id) then Untouched(after, id) else AnalysedBy(t, job, after, id))
            && (job.Analyze? ==> SettledBy(t, job, after, id))
  {
    match job
    case Ingest(targets, resolve) => CollectTouchesNewsOnly(t, targets, canon, resolve);
    case Analyze(items, userId) =>
      assert items[..|items|] == items;
      var k := SomeAssetCreated(t, items, userId, |items|, id);
      FlowSettles(t, items, userId, k, id, canon);
      var first, item := NewsAfter(t, items, userId, k), items[k];
      if LeftBehind(t, job, id) {
        var k': nat, j: nat :| CreatedFor(t, items, userId, k', id) && NewsAfter(t, items, userId, k') <= j <= id
          && !Comes(items[k'].world, j);
        OnlyOneAsset(t, items, userId, k', k, id, canon);
        assert !Passes(item.world, first, id + 1);
      } else {
        assert Passes(item.world, first, id + 1);
        AnalysedExplained(RunJob(t, job, canon), item, userId, id);
      }
    case Check(_, _, _, _, _) => assert false;
    case Acknowledge(_, _, _) => assert false;
  }

  lemma UntouchedIsNotAnalysed(t: Snapshot, item: WatchItem, userId: nat, id: nat)
    requires Analysed(t, item, userId, id)
    ensures !Untouched(t, id)
  {
  }

  /** What becomes of a news item, over any jobs in any order. Whatever ran after the job that created it, it has no
      report and no signals at the end if and only if that job was an ingestion, or an analysis in which it, or an
      item created before it for the same asset, got no summary or no verdict. Otherwise it has exactly what its
      summary and verdict call for. Its row is in any case what its asset's fetch and its own summary made it. */
  lemma UnanalysedExactlyWhen(jobs: seq<Job>, n: nat, canon: string -> string, id: nat)
    requires CreatedBy(jobs, n, canon, id)
    ensures var start, end := RunJobs(jobs[..n], canon), RunJobs(jobs, canon);
            && (Untouched(end, id) <==> LeftBehind(start, jobs[n], id))
            && (!LeftBehind(start, jobs[n], id) ==> AnalysedBy(start, jobs[n], end, id))
            && (jobs[n].Analyze? ==> SettledBy(start, jobs[n], end, id))
  {
    var start, after, end := RunJobs(jobs[..n], canon), RunJobs(jobs[..n + 1], canon), RunJobs(jobs, canon);
    assert jobs[..n + 1][..n] == jobs[..n];
    JobsKeepTablesConsistent(jobs[..n], canon);
    JobSettles(start, jobs[n], canon, id);
    JobsAppend(jobs, n + 1, canon);
    if LeftBehind(start, jobs[n], id) {
      UntouchedKept(after, end, |after.news|, id);
    } else {
      AnalysedByKept(start, jobs[n], after, end, id);
    }
    if jobs[n].Analyze? {
      SettledByKept(start, jobs[n], after, end, id);
    }
  }

  lemma SettledByKept(start: Snapshot, job: Job, after: Snapshot, end: Snapshot, id: nat)
    requires SettledBy(start, job, after, id) && Appends(after, end, |after.news|) && id < |after.news|
    ensures SettledBy(start, job, end, id)
  {
    var items, userId := job.items, job.userId;
    var k: nat :| CreatedFor(start, items, userId, k, id)
               && Settled(after, items[k], userId, NewsAfter(start, items, userId, k), id);
    SettledKept(after, end, |after.news|, items[k], userId, NewsAfter(start, items, userId, k), id);
  }

  lemma AnalysedByKept(start: Snapshot, job: Job, after: Snapshot, end: Snapshot, id: nat)
    requires AnalysedBy(start, job, after, id) && Appends(after, end, |after.news|) && id < |after.news|
    ensures AnalysedBy(start, job, end, id) && !Untouched(end, id)
  {
    var items, userId := job.items, job.userId;
    var k: nat :| CreatedFor(start, items, userId, k, id) && Analysed(after, items[k], userId, id);
    AnalysedKept(after, end, |after.news|, items[k], userId, id);
    AnalysedExplained(end, items[k], userId, id);
    UntouchedIsNotAnalysed(end, items[k], userId, id);
  }

  /** Every item was created by some job. */
  lemma {:induction false} SomeJobCreated(jobs: seq<Job>, canon: string -> string, id: nat) returns (n: nat)
    requires id < |RunJobs(jobs, canon).news|
    ensures CreatedBy(jobs, n, canon, id)
  {
    var k := |jobs| - 1;
    assert jobs[..k + 1] == jobs;
    if id < |RunJobs(jobs[..k], canon).news| {
      n := SomeJobCreated(jobs[..k], canon, id);
      assert jobs[..k][..n] == jobs[..n] && jobs[..k][..n + 1] == jobs[..n + 1];
    } else {
      n := k;
    }
  }

  // ----- A lost item -----

  /** One entry, seen in two runs over one asset: in the first the summary raises, in the second nothing would. */
  const DEMO_ENTRIES := [(Entry("url", "title", "source", None), 0)]

  function DemoRun(summary: Option<NewsSummary>): Job {
    Analyze([WatchItem(1, true, World(Fetched(DEMO_ENTRIES), None, _ => summary, _ => None, _ => (0, 0)))], 1)
  }

  const FAILED_RUN := DemoRun(None)
  const SOUND_RUN := DemoRun(Some(NewsSummary("summary", LOW)))

  const DEMO_JOBS := [FAILED_RUN, SOUND_RUN]

  /** A run over the demo asset creates the one item unless its URL is known. */
  lemma DemoCreates(t: Snapshot, summary: Option<NewsSummary>, canon: string -> string)
    requires Consistent(t, canon)
    ensures |RunJob(t, DemoRun(summary), canon).news| == if HasNews(t.news, "url") then |t.news| else |t.news| + 1
    ensures HasNews(RunJob(t, DemoRun(summary), canon).news, "url")
  {
    var item := DemoRun(summary).items[0];
    var saved := t.(raw := SaveAll(t.raw, DEMO_ENTRIES));
    assert DEMO_ENTRIES[..0] == [] && [item][..0] == [];
    assert CreateItems(saved, 1, []) == (t.news, []);
    var (news, ids) := CreateItems(saved, 1, DEMO_ENTRIES);
    assert |news| == if HasNews(t.news, "url") then |t.news| else |t.news| + 1;
    CreateItemsIds(saved, 1, DEMO_ENTRIES);
    ProcessAssetExact(t, item, 1, canon);
    assert Flow(t, [], 1).0 == t;
    assert Flow(t, [item], 1).0 == ProcessAsset(t, item, 1).0;
    assert DEMO_ENTRIES[0].0.url == "url";
  }

  /** The first run raises and leaves the item behind, so the second finds its URL known and does nothing: the item
      has no report in the end. Had the second run come first, it would have one. */
  lemma FailedItemIsLost(canon: string -> string)
    ensures var end := RunJobs(DEMO_JOBS, canon); |end.news| == 1 && end.reports == []
    ensures var sound := RunJobs([SOUND_RUN], canon); |sound.news| == 1 && Reported(sound.reports, 0)
  {
    assert DEMO_JOBS[..0] == [] && DEMO_JOBS[..1] == [FAILED_RUN] && DEMO_JOBS[..2] == DEMO_JOBS;
    assert [SOUND_RUN][..0] == [] && [SOUND_RUN][..1] == [SOUND_RUN];
    assert [FAILED_RUN][..0] == [];
    assert RunJobs([], canon) == EMPTY_TABLES;
    DemoCreates(EMPTY_TABLES, None, canon);
    DemoCreates(EMPTY_TABLES, Some(NewsSummary("summary", LOW)), canon);
    JobsKeepTablesConsistent([FAILED_RUN], canon);
    DemoCreates(RunJobs([FAILED_RUN], canon), Some(NewsSummary("summary", LOW)), canon);
    FirstIsLeftBehind(canon);
    SoundIsNot(canon);
  }

  lemma NoReportAtAll(t: Snapshot)
    requires ReportsConsistent(t) && |t.news| == 1 && Untouched(t, 0)
    ensures t.reports == []
  {
    assert t.reports != [] ==> t.reports[0].newsItemId == 0;
  }

  lemma FirstIsLeftBehind(canon: string -> string)
    requires |RunJobs([FAILED_RUN], canon).news| == 1 && |RunJobs(DEMO_JOBS, canon).news| == 1
    ensures RunJobs(DEMO_JOBS, canon).reports == []
  {
    assert DEMO_JOBS[..0] == [] && DEMO_JOBS[..1] == [FAILED_RUN];
    UnanalysedExactlyWhen(DEMO_JOBS, 0, canon, 0);
    JobsKeepTablesConsistent(DEMO_JOBS, canon);
    NoReportAtAll(RunJobs(DEMO_JOBS, canon));
  }

  lemma SoundIsNot(canon: string -> string)
    requires |RunJobs([SOUND_RUN], canon).news| == 1
    ensures Reported(RunJobs([SOUND_RUN], canon).reports, 0)
  {
    assert [SOUND_RUN][..0] == [] && [SOUND_RUN][..1] == [SOUND_RUN];
    UnanalysedExactlyWhen([SOUND_RUN], 0, canon, 0);
  }
}
