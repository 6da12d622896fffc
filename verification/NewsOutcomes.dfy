/** What becomes of every delivered entry: which event it is stored as, how that event ends, and which item it
    yields. */
module NewsOutcomes {
  import opened Common
  import opened Tables
  import opened Text
  import opened News

  // ----- One event -----

  /** The event names an asset that is known. */
  predicate Resolved(event: RawEvent, resolve: map<(string, string), nat>) {
    && event.symbol.Some? && event.market.Some?
    && (event.symbol.value, event.market.value) in resolve
  }

  predicate OnlySpaces(text: string) {
    forall i :: 0 <= i < |text| ==> IsSpace(text[i])
  }

  /** Its title, canonical URL or source is blank, or it is dated after `now`. */
  predicate Unfit(event: RawEvent, url: string, now: nat) {
    || OnlySpaces(event.title)
    || OnlySpaces(url)
    || OnlySpaces(event.source)
    || (event.publishedAt.Some? && event.publishedAt.value > now)
  }

  /** How a fetched event ends: left as it is if it names no known asset, failed if it does but is unfit, and normalized
      otherwise. */
  predicate Ends(event: RawEvent, canon: string -> string, resolve: map<(string, string), nat>, now: nat) {
    && (event.status == FETCHED <==> !Resolved(event, resolve))
    && (event.status == FAILED <==> Resolved(event, resolve) && Unfit(event, canon(event.url), now))
    && (event.status == NORMALIZED <==> Resolved(event, resolve) && !Unfit(event, canon(event.url), now))
  }

  /** The item made from an event: it carries the event's number, asset, canonical URL and title, and nothing that only
      an analysis adds. */
  predicate MadeFrom(
    item: NewsItem, id: nat, event: RawEvent, canon: string -> string, resolve: map<(string, string), nat>)
  {
    && event.status == NORMALIZED
    && Resolved(event, resolve)
    && item == NewsItem(
                 Some(id), resolve[(event.symbol.value, event.market.value)], canon(event.url), event.title, None, None)
  }

  /** `news` has, after those of `before`, the item of the event if the event was normalized and no item had its
      URL; otherwise nothing was added. */
  ghost predicate Gains(
    before: seq<NewsItem>, news: seq<NewsItem>, id: nat, event: RawEvent,
    canon: string -> string, resolve: map<(string, string), nat>)
  {
    if event.status == NORMALIZED && forall i :: 0 <= i < |before| ==> before[i].url != canon(event.url)
    then |news| == |before| + 1 && before <= news && MadeFrom(news[|before|], id, event, canon, resolve)
    else news == before
  }

  /** Normalizing a fetched event settles its status and may add its item; nothing else changes. */
  lemma NormalizedExactly(
    t: Snapshot, id: nat, canon: string -> string, resolve: map<(string, string), nat>, now: nat)
    requires id < |t.raw| && t.raw[id].status == FETCHED
    ensures var after := Normalize(t, id, canon, resolve, now);
            && after == t.(raw := after.raw, news := after.news)
            && |after.raw| == |t.raw|
            && after.raw[id] == t.raw[id].(status := after.raw[id].status)
            && (forall i :: 0 <= i < |t.raw| && i != id ==> after.raw[i] == t.raw[i])
            && Ends(after.raw[id], canon, resolve, now)
            && Gains(t.news, after.news, id, after.raw[id], canon, resolve)
  {
    var event := t.raw[id];
    assert Invalid(canon(event.url), event, now) <==> Unfit(event, canon(event.url), now);
  }

  // ----- One entry -----

  /** The event stored for an entry of the target: the entry's own fields, the target's symbol and market, and the
      status it ends with. */
  predicate Stored(
    event: RawEvent, target: Target, entry: Entry, now: nat,
    canon: string -> string, resolve: map<(string, string), nat>)
  {
    && event == RawEvent(entry.url, entry.title, entry.source, Some(target.symbol), Some(target.market),
                         entry.publishedAt, event.status)
    && Ends(event, canon, resolve, now)
  }

  /** An entry whose URL is stored is skipped. Any other is stored last; it counts as saved and, if it is, as
      normalized. */
  lemma IngestedExactly(
    t: Snapshot, ledger: Ledger, entry: Entry, now: nat, target: Target,
    canon: string -> string, resolve: map<(string, string), nat>)
    ensures var (after, counted) := IngestOne(t, ledger, entry, now, target, canon, resolve);
            if exists i :: 0 <= i < |t.raw| && t.raw[i].url == entry.url
            then after == t && counted == ledger.(skipped := ledger.skipped + 1)
            else
              && |after.raw| == |t.raw| + 1
              && t.raw <= after.raw
              && Stored(after.raw[|t.raw|], target, entry, now, canon, resolve)
              && Gains(t.news, after.news, |t.raw|, after.raw[|t.raw|], canon, resolve)
              && counted == ledger.(
                   saved := ledger.saved + 1,
                   normalized := ledger.normalized + if after.raw[|t.raw|].status == NORMALIZED then 1 else 0)
  {
    if !HasRaw(t.raw, entry.url) {
      var saved := t.(raw := t.raw + [EventFor(entry, Some(target.symbol), Some(target.market))]);
      NormalizedExactly(saved, |t.raw|, canon, resolve, now);
      var after := Normalize(saved, |t.raw|, canon, resolve, now);
      assert forall i :: 0 <= i < |t.raw| ==> after.raw[i] == saved.raw[i] == t.raw[i];
    }
  }

  // ----- What a run keeps -----

  /** Every item from position `n` on was made from the first normalized event with its URL. */
  ghost predicate ItemsMade(
    t: Snapshot, n: nat, canon: string -> string, resolve: map<(string, string), nat>)
  {
    forall i :: n <= i < |t.news| ==>
      && t.news[i].rawEventId.Some?
      && t.news[i].rawEventId.value < |t.raw|
      && MadeFrom(t.news[i], t.news[i].rawEventId.value, t.raw[t.news[i].rawEventId.value], canon, resolve)
      && (forall q :: 0 <= q < t.news[i].rawEventId.value && t.raw[q].status == NORMALIZED ==>
            canon(t.raw[q].url) != t.news[i].url)
  }

  lemma ItemsMadeOneMore(
    t: Snapshot, after: Snapshot, n: nat, event: RawEvent,
    canon: string -> string, resolve: map<(string, string), nat>)
    requires NewsConsistent(t, canon) && ItemsMade(t, n, canon, resolve) && n <= |t.news|
    requires after.raw == t.raw + [event] && Gains(t.news, after.news, |t.raw|, event, canon, resolve)
    ensures ItemsMade(after, n, canon, resolve)
  {
    assert forall q :: 0 <= q < |t.raw| ==> after.raw[q] == t.raw[q];
  }

  /** The entries of one target, first to last: every new event is the first entry with its URL, every entry's URL is
      stored, and every new item is made from an event. */
  ghost predicate Took(
    t: Snapshot, after: Snapshot, entries: seq<(Entry, nat)>, target: Target,
    canon: string -> string, resolve: map<(string, string), nat>)
  {
    && t.raw <= after.raw
    && t.news <= after.news
    && (forall j :: 0 <= j < |entries| ==> HasRaw(after.raw, entries[j].0.url))
    && (forall i :: |t.raw| <= i < |after.raw| ==>
          !HasRaw(t.raw, after.raw[i].url) && FromEntries(after.raw[i], entries, target, canon, resolve))
  }

  ghost predicate FromEntries(
    event: RawEvent, entries: seq<(Entry, nat)>, target: Target,
    canon: string -> string, resolve: map<(string, string), nat>)
  {
    exists j: nat :: FirstWith(entries, j, event.url)
                  && Stored(event, target, entries[j].0, entries[j].1, canon, resolve)
  }

  lemma FromMoreEntries(
    event: RawEvent, entries: seq<(Entry, nat)>, n: nat, target: Target,
    canon: string -> string, resolve: map<(string, string), nat>)
    requires n <= |entries| && FromEntries(event, entries[..n], target, canon, resolve)
    ensures FromEntries(event, entries, target, canon, resolve)
  {
    var j: nat :| FirstWith(entries[..n], j, event.url)
               && Stored(event, target, entries[..n][j].0, entries[..n][j].1, canon, resolve);
    FirstAmongMore(entries, n, j, event.url);
  }

  lemma HasRawKept(raw: seq<RawEvent>, more: seq<RawEvent>, url: string)
    requires raw <= more
    ensures HasRaw(raw, url) ==> HasRaw(more, url)
  {
    assert forall i :: 0 <= i < |raw| ==> more[i] == raw[i];
  }

  lemma TookOneMore(
    t: Snapshot, before: Snapshot, after: Snapshot, entries: seq<(Entry, nat)>, target: Target,
    canon: string -> string, resolve: map<(string, string), nat>)
    requires entries != [] && Took(t, before, entries[..|entries| - 1], target, canon, resolve)
    requires before.raw <= after.raw && before.news <= after.news
    requires var entry := entries[|entries| - 1];
             if HasRaw(before.raw, entry.0.url) then after.raw == before.raw
             else && |after.raw| == |before.raw| + 1
                  && Stored(after.raw[|before.raw|], target, entry.0, entry.1, canon, resolve)
    ensures Took(t, after, entries, target, canon, resolve)
  {
    var n := |entries| - 1;
    forall j | 0 <= j < |entries| ensures HasRaw(after.raw, entries[j].0.url) {
      if j < n {
        assert entries[..n][j] == entries[j];
        HasRawKept(before.raw, after.raw, entries[j].0.url);
      } else if HasRaw(before.raw, entries[n].0.url) {
      } else {
        assert after.raw[|before.raw|].url == entries[n].0.url;
      }
    }
    forall i | |t.raw| <= i < |after.raw|
      ensures !HasRaw(t.raw, after.raw[i].url) && FromEntries(after.raw[i], entries, target, canon, resolve)
    {
      if i < |before.raw| {
        assert after.raw[i] == before.raw[i];
        FromMoreEntries(after.raw[i], entries, n, target, canon, resolve);
      } else {
        NewIsFirst(t, before, entries, target, canon, resolve);
        assert FirstWith(entries, n, after.raw[i].url);
      }
    }
  }

  lemma NewIsFirst(
    t: Snapshot, before: Snapshot, entries: seq<(Entry, nat)>, target: Target,
    canon: string -> string, resolve: map<(string, string), nat>)
    requires entries != [] && Took(t, before, entries[..|entries| - 1], target, canon, resolve)
    requires !HasRaw(before.raw, entries[|entries| - 1].0.url)
    ensures FirstWith(entries, |entries| - 1, entries[|entries| - 1].0.url)
    ensures !HasRaw(t.raw, entries[|entries| - 1].0.url)
  {
    var n := |entries| - 1;
    assert forall j :: 0 <= j < n ==> entries[..n][j] == entries[j];
    HasRawKept(t.raw, before.raw, entries[n].0.url);
  }

  lemma {:induction false} TargetTakes(
    t: Snapshot, ledger: Ledger, entries: seq<(Entry, nat)>, target: Target,
    canon: string -> string, resolve: map<(string, string), nat>, n: nat)
    requires NewsConsistent(t, canon) && ItemsMade(t, n, canon, resolve) && n <= |t.news|
    ensures var after := IngestAll(t, ledger, entries, target, canon, resolve).0;
            && NewsConsistent(after, canon)
            && Took(t, after, entries, target, canon, resolve)
            && ItemsMade(after, n, canon, resolve)
  {
    if entries != [] {
      var k := |entries| - 1;
      TargetTakes(t, ledger, entries[..k], target, canon, resolve, n);
      var (before, counted) := IngestAll(t, ledger, entries[..k], target, canon, resolve);
      EntryKept(before, counted, entries[k].0, entries[k].1, target, canon, resolve, n);
      IngestedExactly(before, counted, entries[k].0, entries[k].1, target, canon, resolve);
      TookOneMore(t, before, IngestAll(t, ledger, entries, target, canon, resolve).0, entries, target, canon, resolve);
    }
  }

  lemma EntryKept(
    t: Snapshot, ledger: Ledger, entry: Entry, now: nat, target: Target,
    canon: string -> string, resolve: map<(string, string), nat>, n: nat)
    requires NewsConsistent(t, canon) && ItemsMade(t, n, canon, resolve) && n <= |t.news|
    ensures var after := IngestOne(t, ledger, entry, now, target, canon, resolve).0;
            && NewsConsistent(after, canon)
            && ItemsMade(after, n, canon, resolve)
            && t.raw <= after.raw && t.news <= after.news
  {
    IngestedExactly(t, ledger, entry, now, target, canon, resolve);
    if !HasRaw(t.raw, entry.url) {
      var after := IngestOne(t, ledger, entry, now, target, canon, resolve).0;
      NewEventKeeps(t, t, EventFor(entry, Some(target.symbol), Some(target.market)), now, canon, resolve);
      assert after.raw == t.raw + [after.raw[|t.raw|]];
      ItemsMadeOneMore(t, after, n, after.raw[|t.raw|], canon, resolve);
    }
  }

  // ----- A whole run -----

  /** Entry `j` that target `k` delivered has the URL. */
  predicate Delivered(targets: seq<(Target, Fetch)>, k: nat, j: nat, url: string) {
    && k < |targets|
    && targets[k].1.Fetched?
    && j < |targets[k].1.entries|
    && targets[k].1.entries[j].0.url == url
  }

  ghost predicate FirstDelivered(targets: seq<(Target, Fetch)>, k: nat, j: nat, url: string) {
    && Delivered(targets, k, j, url)
    && (forall k': nat, j': nat :: Delivered(targets, k', j', url) ==> k < k' || (k == k' && j <= j'))
  }

  /** The event is the first entry of the run that has its URL. */
  ghost predicate FromRun(
    event: RawEvent, targets: seq<(Target, Fetch)>, canon: string -> string, resolve: map<(string, string), nat>)
  {
    exists k: nat, j: nat ::
      && FirstDelivered(targets, k, j, event.url)
      && Stored(event, targets[k].0, targets[k].1.entries[j].0, targets[k].1.entries[j].1, canon, resolve)
  }

  lemma FromMoreTargets(
    event: RawEvent, targets: seq<(Target, Fetch)>, n: nat,
    canon: string -> string, resolve: map<(string, string), nat>)
    requires n <= |targets| && FromRun(event, targets[..n], canon, resolve)
    ensures FromRun(event, targets, canon, resolve)
  {
    var head := targets[..n];
    var k: nat, j: nat :| FirstDelivered(head, k, j, event.url)
      && Stored(event, head[k].0, head[k].1.entries[j].0, head[k].1.entries[j].1, canon, resolve);
    assert Delivered(targets, k, j, event.url);
    forall k': nat, j': nat | Delivered(targets, k', j', event.url) ensures k < k' || (k == k' && j <= j') {
      if k' < n {
        assert Delivered(head, k', j', event.url);
      }
    }
  }

  lemma FromLastTarget(
    event: RawEvent, targets: seq<(Target, Fetch)>, canon: string -> string, resolve: map<(string, string), nat>)
    requires targets != [] && targets[|targets| - 1].1.Fetched?
    requires var last := targets[|targets| - 1]; FromEntries(event, last.1.entries, last.0, canon, resolve)
    requires forall k: nat, j: nat :: k < |targets| - 1 ==> !Delivered(targets, k, j, event.url)
    ensures FromRun(event, targets, canon, resolve)
  {
    var n := |targets| - 1;
    var entries := targets[n].1.entries;
    var j: nat :| FirstWith(entries, j, event.url)
               && Stored(event, targets[n].0, entries[j].0, entries[j].1, canon, resolve);
    assert Delivered(targets, n, j, event.url);
    forall k': nat, j': nat | Delivered(targets, k', j', event.url) ensures n < k' || (n == k' && j <= j') {
    }
  }

  /** What a run did to the tables, entry by entry. Stored rows stay what they are. Each new event is the first
      delivered entry with its URL, which was not stored before, and has ended as that entry calls for; every delivered
      URL is stored; and every new item was made from the first normalized event with its URL. */
  ghost predicate Collected(
    t: Snapshot, after: Snapshot, targets: seq<(Target, Fetch)>,
    canon: string -> string, resolve: map<(string, string), nat>)
  {
    && t.raw <= after.raw
    && t.news <= after.news
    && (forall k: nat, j: nat, url :: Delivered(targets, k, j, url) ==> HasRaw(after.raw, url))
    && (forall i :: |t.raw| <= i < |after.raw| ==>
          !HasRaw(t.raw, after.raw[i].url) && FromRun(after.raw[i], targets, canon, resolve))
    && ItemsMade(after, |t.news|, canon, resolve)
  }

  lemma CollectedOneMore(
    t: Snapshot, before: Snapshot, after: Snapshot, targets: seq<(Target, Fetch)>,
    canon: string -> string, resolve: map<(string, string), nat>)
    requires targets != [] && Collected(t, before, targets[..|targets| - 1], canon, resolve)
    requires targets[|targets| - 1].1.Fetched?
    requires var last := targets[|targets| - 1]; Took(before, after, last.1.entries, last.0, canon, resolve)
    requires ItemsMade(after, |t.news|, canon, resolve)
    ensures Collected(t, after, targets, canon, resolve)
  {
    var n := |targets| - 1;
    forall k: nat, j: nat, url | Delivered(targets, k, j, url) ensures HasRaw(after.raw, url) {
      if k < n {
        assert Delivered(targets[..n], k, j, url);
        HasRawKept(before.raw, after.raw, url);
      }
    }
    forall i | |t.raw| <= i < |after.raw|
      ensures !HasRaw(t.raw, after.raw[i].url) && FromRun(after.raw[i], targets, canon, resolve)
    {
      if i < |before.raw| {
        assert after.raw[i] == before.raw[i];
        FromMoreTargets(after.raw[i], targets, n, canon, resolve);
      } else {
        LateIsFresh(t, before, targets, after.raw[i].url, canon, resolve);
        FromLastTarget(after.raw[i], targets, canon, resolve);
      }
    }
  }

  lemma EarlierAreStored(
    t: Snapshot, before: Snapshot, targets: seq<(Target, Fetch)>, url: string,
    canon: string -> string, resolve: map<(string, string), nat>)
    requires targets != [] && Collected(t, before, targets[..|targets| - 1], canon, resolve)
    ensures forall k: nat, j: nat :: k < |targets| - 1 && Delivered(targets, k, j, url) ==> HasRaw(before.raw, url)
  {
    var head := targets[..|targets| - 1];
    forall k: nat, j: nat | k < |head| && Delivered(targets, k, j, url) ensures HasRaw(before.raw, url) {
      assert Delivered(head, k, j, url);
    }
  }

  lemma LateIsFresh(
    t: Snapshot, before: Snapshot, targets: seq<(Target, Fetch)>, url: string,
    canon: string -> string, resolve: map<(string, string), nat>)
    requires targets != [] && Collected(t, before, targets[..|targets| - 1], canon, resolve)
    requires !HasRaw(before.raw, url)
    ensures !HasRaw(t.raw, url)
    ensures forall k: nat, j: nat :: k < |targets| - 1 ==> !Delivered(targets, k, j, url)
  {
    HasRawKept(t.raw, before.raw, url);
    EarlierAreStored(t, before, targets, url, canon, resolve);
  }

  /** Every run: what it stores, how each event ends and which items it creates are decided by the deliveries, the
      known assets and the clock, as `Collected` has it. */
  lemma {:induction false} RunCollects(
    t: Snapshot, targets: seq<(Target, Fetch)>, canon: string -> string, resolve: map<(string, string), nat>)
    requires NewsConsistent(t, canon)
    ensures var after := Collect(t, targets, canon, resolve).0;
            NewsConsistent(after, canon) && Collected(t, after, targets, canon, resolve)
  {
    if targets != [] {
      var n := |targets| - 1;
      RunCollects(t, targets[..n], canon, resolve);
      var (before, ledger) := Collect(t, targets[..n], canon, resolve);
      var after := Collect(t, targets, canon, resolve).0;
      if targets[n].1.Fetched? {
        TargetTakes(before, ledger, targets[n].1.entries, targets[n].0, canon, resolve, |t.news|);
        CollectedOneMore(t, before, after, targets, canon, resolve);
      } else {
        FailedTakesNothing(t, before, targets, canon, resolve);
      }
    }
  }

  lemma FailedTakesNothing(
    t: Snapshot, before: Snapshot, targets: seq<(Target, Fetch)>,
    canon: string -> string, resolve: map<(string, string), nat>)
    requires targets != [] && Collected(t, before, targets[..|targets| - 1], canon, resolve)
    requires targets[|targets| - 1].1.FetchFailed?
    ensures Collected(t, before, targets, canon, resolve)
  {
    var n := |targets| - 1;
    forall k: nat, j: nat, url | Delivered(targets, k, j, url) ensures HasRaw(before.raw, url) {
      assert Delivered(targets[..n], k, j, url);
    }
    forall i | |t.raw| <= i < |before.raw| ensures FromRun(before.raw[i], targets, canon, resolve) {
      FromMoreTargets(before.raw[i], targets, n, canon, resolve);
    }
  }
}
