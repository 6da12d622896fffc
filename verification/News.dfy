/** Raw news ingestion and its normalization into news items. URL canonicalization is one fixed function `canon`;
    `resolve` maps an event's symbol and market to the asset they canonically name. */
module News {
  import opened Common
  import opened Tables
  import opened Text

  datatype Entry = Entry(url: string, title: string, source: string, publishedAt: Option<nat>)

  /** What one target's fetch brought: entries, each with the instant it is normalized at, or an exception. */
  datatype Fetch = Fetched(entries: seq<(Entry, nat)>) | FetchFailed

  datatype Target = Target(symbol: string, market: string)

  datatype Ledger = Ledger(
    targets: nat, success: nat, failure: nat, received: nat, saved: nat, skipped: nat, normalized: nat)

  predicate HasRaw(raw: seq<RawEvent>, url: string) {
    exists i :: 0 <= i < |raw| && raw[i].url == url
  }

  predicate HasNews(news: seq<NewsItem>, url: string) {
    exists i :: 0 <= i < |news| && news[i].url == url
  }

  /** Insert, unless the unique constraint on the URL refuses it. */
  function InsertRaw(raw: seq<RawEvent>, event: RawEvent): seq<RawEvent> {
    if HasRaw(raw, event.url) then raw else raw + [event]
  }

  function EventFor(entry: Entry, symbol: Option<string>, market: Option<string>): RawEvent {
    RawEvent(entry.url, entry.title, entry.source, symbol, market, entry.publishedAt, FETCHED)
  }

  predicate Blank(text: string) {
    forall i :: 0 <= i < |text| ==> IsSpace(text[i])
  }

  predicate Invalid(url: string, event: RawEvent, now: nat) {
    || Blank(event.title) || Blank(url) || Blank(event.source)
    || (event.publishedAt.Some? && event.publishedAt.value > now)
  }

  function Mark(raw: seq<RawEvent>, id: nat, status: RawStatus): seq<RawEvent>
    requires id < |raw|
  {
    raw[id := raw[id].(status := status)]
  }

  function Normalize(
    t: Snapshot, id: nat, canon: string -> string, resolve: map<(string, string), nat>, now: nat): Snapshot
    requires id < |t.raw|
  {
    var event := t.raw[id];
    if event.symbol.None? || event.market.None? then t
    else if (event.symbol.value, event.market.value) !in resolve then t
    else
      var url := canon(event.url);
      if Invalid(url, event, now) then t.(raw := Mark(t.raw, id, FAILED))
      else if HasNews(t.news, url) then t.(raw := Mark(t.raw, id, NORMALIZED))
      else
        var asset := resolve[(event.symbol.value, event.market.value)];
        t.(raw := Mark(t.raw, id, NORMALIZED),
           news := t.news + [NewsItem(Some(id), asset, url, event.title, None, None)])
  }

  function IngestOne(
    t: Snapshot, ledger: Ledger, entry: Entry, now: nat, target: Target,
    canon: string -> string, resolve: map<(string, string), nat>): (Snapshot, Ledger)
  {
    if HasRaw(t.raw, entry.url) then (t, ledger.(skipped := ledger.skipped + 1))
    else
      var id := |t.raw|;
      var saved := t.(raw := t.raw + [EventFor(entry, Some(target.symbol), Some(target.market))]);
      var after := Normalize(saved, id, canon, resolve, now);
      (after, ledger.(
         saved := ledger.saved + 1,
         normalized := ledger.normalized + if after.raw[id].status == NORMALIZED then 1 else 0))
  }

  function IngestAll(
    t: Snapshot, ledger: Ledger, entries: seq<(Entry, nat)>, target: Target,
    canon: string -> string, resolve: map<(string, string), nat>): (Snapshot, Ledger)
  {
    if entries == [] then (t, ledger)
    else
      var n := |entries| - 1;
      var (before, counted) := IngestAll(t, ledger, entries[..n], target, canon, resolve);
      IngestOne(before, counted, entries[n].0, entries[n].1, target, canon, resolve)
  }

  function CollectTarget(
    t: Snapshot, ledger: Ledger, fetch: Fetch, target: Target,
    canon: string -> string, resolve: map<(string, string), nat>): (Snapshot, Ledger)
  {
    match fetch
    case FetchFailed => (t, ledger.(failure := ledger.failure + 1))
    case Fetched(entries) =>
      var (after, counted) := IngestAll(t, ledger, entries, target, canon, resolve);
      (after, counted.(success := counted.success + 1, received := counted.received + |entries|))
  }

  function Collect(
    t: Snapshot, targets: seq<(Target, Fetch)>, canon: string -> string, resolve: map<(string, string), nat>)
    : (Snapshot, Ledger)
  {
    if targets == [] then (t, Ledger(0, 0, 0, 0, 0, 0, 0))
    else
      var n := |targets| - 1;
      var (before, ledger) := Collect(t, targets[..n], canon, resolve);
      var (after, counted) := CollectTarget(before, ledger, targets[n].1, targets[n].0, canon, resolve);
      (after, counted.(targets := counted.targets + 1))
  }

  class NewsIngestionService {
    const db: Database
    const canon: string -> string
    const resolve: map<(string, string), nat>

    constructor (db: Database, canon: string -> string, resolve: map<(string, string), nat>)
      ensures this.db == db && this.canon == canon && this.resolve == resolve
    {
      this.db, this.canon, this.resolve := db, canon, resolve;
    }

    method CreateOrSkip(event: RawEvent) returns (id: Option<nat>)
      modifies db
      ensures db.View() == old(db.View()).(raw := InsertRaw(old(db.raw), event))
      ensures id == if HasRaw(old(db.raw), event.url) then None else Some(|old(db.raw)|)
    {
      for i := 0 to |db.raw|
        invariant forall j :: 0 <= j < i ==> db.raw[j].url != event.url
        invariant db.View() == old(db.View())
      {
        if db.raw[i].url == event.url {
          return None;
        }
      }
      id := Some(|db.raw|);
      db.raw := db.raw + [event];
    }

    method NormalizeEvent(id: nat, now: nat)
      requires id < |db.raw|
      modifies db
      ensures db.View() == Normalize(old(db.View()), id, canon, resolve, now)
    {
      var event := db.raw[id];
      if event.symbol.None? || event.market.None? {
        return;
      }
      if (event.symbol.value, event.market.value) !in resolve {
        return;
      }
      var asset := resolve[(event.symbol.value, event.market.value)];
      var url := canon(event.url);
      if Invalid(url, event, now) {
        db.raw := Mark(db.raw, id, FAILED);
        return;
      }
      if HasNews(db.news, url) {
        db.raw := Mark(db.raw, id, NORMALIZED);
        return;
      }
      db.news := db.news + [NewsItem(Some(id), asset, url, event.title, None, None)];
      db.raw := Mark(db.raw, id, NORMALIZED);
    }

    method IngestEntry(entry: Entry, now: nat, target: Target, before: Ledger) returns (ledger: Ledger)
      modifies db
      ensures (db.View(), ledger) == IngestOne(old(db.View()), before, entry, now, target, canon, resolve)
    {
      var id := CreateOrSkip(EventFor(entry, Some(target.symbol), Some(target.market)));
      if id.None? {
        return before.(skipped := before.skipped + 1);
      }
      NormalizeEvent(id.value, now);
      ledger := before.(
        saved := before.saved + 1,
        normalized := before.normalized + if db.raw[id.value].status == NORMALIZED then 1 else 0);
    }

    method CollectOneTarget(target: Target, fetch: Fetch, before: Ledger) returns (ledger: Ledger)
      modifies db
      ensures (db.View(), ledger) == CollectTarget(old(db.View()), before, fetch, target, canon, resolve)
    {
      if fetch.FetchFailed? {
        return before.(failure := before.failure + 1);
      }
      var entries := fetch.entries;
      ghost var start := db.View();
      ledger := before;
      for i := 0 to |entries|
        invariant (db.View(), ledger) == IngestAll(start, before, entries[..i], target, canon, resolve)
      {
        assert entries[..i + 1][..i] == entries[..i];
        ledger := IngestEntry(entries[i].0, entries[i].1, target, ledger);
      }
      assert entries[..|entries|] == entries;
      ledger := ledger.(success := ledger.success + 1, received := ledger.received + |entries|);
    }

    method CollectAndSave(targets: seq<(Target, Fetch)>) returns (ledger: Ledger)
      modifies db
      ensures (db.View(), ledger) == Collect(old(db.View()), targets, canon, resolve)
    {
      ghost var start := db.View();
      ledger := Ledger(0, 0, 0, 0, 0, 0, 0);
      for i := 0 to |targets|
        invariant (db.View(), ledger) == Collect(start, targets[..i], canon, resolve)
      {
        assert targets[..i + 1][..i] == targets[..i];
        ledger := CollectOneTarget(targets[i].0, targets[i].1, ledger);
        ledger := ledger.(targets := ledger.targets + 1);
      }
      assert targets[..|targets|] == targets;
    }
  }

  // ----- What every run keeps -----

  /** Raw URLs are unique, news URLs are unique, and whatever is marked normalized has its item. */
  ghost predicate NewsConsistent(t: Snapshot, canon: string -> string) {
    && (forall i, j :: 0 <= i < j < |t.raw| ==> t.raw[i].url != t.raw[j].url)
    && (forall i, j :: 0 <= i < j < |t.news| ==> t.news[i].url != t.news[j].url)
    && (forall i :: 0 <= i < |t.raw| && t.raw[i].status == NORMALIZED ==> HasNews(t.news, canon(t.raw[i].url)))
  }

  /** Rows are only appended, and existing ones keep their identity. */
  ghost predicate Grows(before: Snapshot, after: Snapshot) {
    && |before.raw| <= |after.raw|
    && before.news <= after.news
    && (forall i :: 0 <= i < |before.raw| ==>
          after.raw[i] == before.raw[i].(status := after.raw[i].status)
          && (before.raw[i].status != FETCHED ==> after.raw[i].status == before.raw[i].status))
  }

  lemma HasNewsGrows(news: seq<NewsItem>, item: NewsItem, url: string)
    ensures HasNews(news + [item], url) <==> HasNews(news, url) || item.url == url
  {
    forall i | 0 <= i < |news| ensures (news + [item])[i] == news[i] {}
    assert (news + [item])[|news|] == item;
  }

  lemma InsertRawConsistent(t: Snapshot, event: RawEvent, canon: string -> string)
    requires NewsConsistent(t, canon) && event.status == FETCHED
    ensures NewsConsistent(t.(raw := InsertRaw(t.raw, event)), canon)
  {
  }

  lemma NormalizeConsistent(
    t: Snapshot, id: nat, canon: string -> string, resolve: map<(string, string), nat>, now: nat)
    requires id < |t.raw| && NewsConsistent(t, canon) && t.raw[id].status == FETCHED
    ensures var after := Normalize(t, id, canon, resolve, now);
            && NewsConsistent(after, canon)
            && Grows(t, after)
            && |after.raw| == |t.raw|
            && (forall i :: 0 <= i < |t.raw| && i != id ==> after.raw[i] == t.raw[i])
  {
    var after := Normalize(t, id, canon, resolve, now);
    var event := t.raw[id];
    if |after.news| > |t.news| {
      var item := after.news[|t.news|];
      forall url ensures HasNews(after.news, url) <==> HasNews(t.news, url) || item.url == url {
        HasNewsGrows(t.news, item, url);
      }
    }
  }

  function CountNormalized(raw: seq<RawEvent>): nat {
    if raw == [] then 0
    else CountNormalized(raw[..|raw| - 1]) + if raw[|raw| - 1].status == NORMALIZED then 1 else 0
  }

  /** The ledger balances, and agrees with what happened to the raw table. */
  ghost predicate Balanced(before: Snapshot, after: Snapshot, ledger: Ledger) {
    && ledger.normalized <= ledger.saved
    && |after.raw| == |before.raw| + ledger.saved
    && CountNormalized(after.raw) == CountNormalized(before.raw) + ledger.normalized
  }

  lemma NewEventKeeps(
    start: Snapshot, t: Snapshot, event: RawEvent, now: nat,
    canon: string -> string, resolve: map<(string, string), nat>)
    requires NewsConsistent(t, canon) && Grows(start, t)
    requires !HasRaw(t.raw, event.url) && event.status == FETCHED
    ensures var after := Normalize(t.(raw := t.raw + [event]), |t.raw|, canon, resolve, now);
            && NewsConsistent(after, canon) && Grows(start, after)
            && |after.raw| == |t.raw| + 1
            && CountNormalized(after.raw)
               == CountNormalized(t.raw) + if after.raw[|t.raw|].status == NORMALIZED then 1 else 0
  {
    var saved := t.(raw := t.raw + [event]);
    InsertRawConsistent(t, event, canon);
    NormalizeConsistent(saved, |t.raw|, canon, resolve, now);
    assert Normalize(saved, |t.raw|, canon, resolve, now).raw[..|t.raw|] == t.raw;
  }

  lemma IngestOneKeeps(
    start: Snapshot, t: Snapshot, ledger: Ledger, entry: Entry, now: nat, target: Target,
    canon: string -> string, resolve: map<(string, string), nat>)
    requires NewsConsistent(t, canon) && Grows(start, t) && Balanced(start, t, ledger)
    ensures var (after, counted) := IngestOne(t, ledger, entry, now, target, canon, resolve);
            && NewsConsistent(after, canon) && Grows(start, after) && Balanced(start, after, counted)
            && counted.saved + counted.skipped == ledger.saved + ledger.skipped + 1
            && (counted.targets, counted.success, counted.failure, counted.received)
               == (ledger.targets, ledger.success, ledger.failure, ledger.received)
  {
    if !HasRaw(t.raw, entry.url) {
      NewEventKeeps(start, t, EventFor(entry, Some(target.symbol), Some(target.market)), now, canon, resolve);
    }
  }

  lemma {:induction false} IngestAllKeeps(
    start: Snapshot, t: Snapshot, ledger: Ledger, entries: seq<(Entry, nat)>, target: Target,
    canon: string -> string, resolve: map<(string, string), nat>)
    requires NewsConsistent(t, canon) && Grows(start, t) && Balanced(start, t, ledger)
    ensures var (after, counted) := IngestAll(t, ledger, entries, target, canon, resolve);
            && NewsConsistent(after, canon) && Grows(start, after) && Balanced(start, after, counted)
            && counted.saved + counted.skipped == ledger.saved + ledger.skipped + |entries|
            && (counted.targets, counted.success, counted.failure, counted.received)
               == (ledger.targets, ledger.success, ledger.failure, ledger.received)
  {
    if entries != [] {
      var n := |entries| - 1;
      IngestAllKeeps(start, t, ledger, entries[..n], target, canon, resolve);
      var (before, counted) := IngestAll(t, ledger, entries[..n], target, canon, resolve);
      IngestOneKeeps(start, before, counted, entries[n].0, entries[n].1, target, canon, resolve);
    }
  }

  function CountFailed(targets: seq<(Target, Fetch)>): nat {
    if targets == [] then 0
    else CountFailed(targets[..|targets| - 1]) + if targets[|targets| - 1].1.FetchFailed? then 1 else 0
  }

  function CountEntries(targets: seq<(Target, Fetch)>): nat {
    if targets == [] then 0
    else
      var last := targets[|targets| - 1].1;
      CountEntries(targets[..|targets| - 1]) + if last.Fetched? then |last.entries| else 0
  }

  /** Every ingestion run, whatever fails: the tables stay consistent, existing rows stay what they were, and the
      ledger adds up: received = saved + skipped, success + failure = targets, failures are the targets whose fetch
      raised and received all entries of the others, saved is the number of new raw rows and normalized the number of
      newly normalized ones. */
  lemma {:induction false} IngestionKeepsBooks(
    t: Snapshot, targets: seq<(Target, Fetch)>, canon: string -> string, resolve: map<(string, string), nat>)
    requires NewsConsistent(t, canon)
    ensures var (after, ledger) := Collect(t, targets, canon, resolve);
            && NewsConsistent(after, canon)
            && Grows(t, after)
            && Balanced(t, after, ledger)
            && ledger.received == ledger.saved + ledger.skipped
            && ledger.success + ledger.failure == ledger.targets == |targets|
            && ledger.failure == CountFailed(targets)
            && ledger.received == CountEntries(targets)
  {
    if targets != [] {
      var n := |targets| - 1;
      IngestionKeepsBooks(t, targets[..n], canon, resolve);
      var (before, ledger) := Collect(t, targets[..n], canon, resolve);
      if targets[n].1.Fetched? {
        IngestAllKeeps(t, before, ledger, targets[n].1.entries, targets[n].0, canon, resolve);
      }
    }
  }

  // ----- Entries -----

  /** The first of the entries with the URL. */
  predicate FirstWith(entries: seq<(Entry, nat)>, k: nat, url: string) {
    k < |entries| && entries[k].0.url == url && forall j :: 0 <= j < k ==> entries[j].0.url != url
  }

  lemma FirstAmongMore(entries: seq<(Entry, nat)>, n: nat, k: nat, url: string)
    requires n <= |entries| && FirstWith(entries[..n], k, url)
    ensures FirstWith(entries, k, url)
  {
    assert forall j :: 0 <= j < n ==> entries[..n][j] == entries[j];
  }
}
