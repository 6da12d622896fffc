/** The stored price bars: the batch upsert and the history query. */
module PriceTable {
  import opened Common
  import opened Sorting

  datatype Key = Key(symbol: string, market: string, interval: string, timestamp: int)

  /** The columns an upsert overwrites. */
  datatype Values = Values(
    open: real, high: real, low: real, close: real, adjustedClose: real, volume: int, currency: string, source: string)

  datatype Row = Row(key: Key, values: Values)

  datatype TableError = IntegrityError

  predicate UniqueKeys(rows: seq<Row>) {
    forall i, j :: 0 <= i < j < |rows| ==> rows[i].key != rows[j].key
  }

  predicate HasKey(rows: seq<Row>, key: Key) {
    exists i :: 0 <= i < |rows| && rows[i].key == key
  }

  /** Overwrites the row with the key of `bar`, wherever it is. */
  function Overwrite(rows: seq<Row>, bar: Row): seq<Row> {
    seq(|rows|, i requires 0 <= i < |rows| => if rows[i].key == bar.key then bar else rows[i])
  }

  /** What a session holds in the middle of a batch: the committed rows with its changes, and the rows it has added
      but not flushed, which its queries do not see. */
  datatype Session = Session(rows: seq<Row>, pending: seq<Row>)

  function Stage(s: Session, bar: Row): Session {
    if HasKey(s.rows, bar.key) then s.(rows := Overwrite(s.rows, bar)) else s.(pending := s.pending + [bar])
  }

  function StageAll(rows: seq<Row>, bars: seq<Row>): Session {
    if bars == [] then Session(rows, []) else Stage(StageAll(rows, bars[..|bars| - 1]), bars[|bars| - 1])
  }

  /** Commit: refused by the unique constraint when two pending rows share a key. */
  function Upsert(rows: seq<Row>, bars: seq<Row>): Result<seq<Row>, TableError> {
    var s := StageAll(rows, bars);
    if UniqueKeys(s.pending) then Ok(s.rows + s.pending) else Err(IntegrityError)
  }

  class PriceBarRepository {
    var rows: seq<Row>

    constructor ()
      ensures rows == []
    {
      rows := [];
    }

    /** Returns the size of the batch; on an integrity error the table is left as it was. */
    method UpsertBars(bars: seq<Row>) returns (count: Result<nat, TableError>)
      modifies this
      ensures match Upsert(old(rows), bars)
              case Ok(after) => rows == after && count == Ok(|bars|)
              case Err(e) => rows == old(rows) && count == Err(e)
    {
      var session := Session(rows, []);
      for i := 0 to |bars|
        invariant session == StageAll(rows, bars[..i])
        invariant rows == old(rows)
      {
        assert bars[..i + 1][..i] == bars[..i];
        if HasKey(session.rows, bars[i].key) {
          session := session.(rows := Overwrite(session.rows, bars[i]));
        } else {
          session := session.(pending := session.pending + [bars[i]]);
        }
      }
      assert bars[..|bars|] == bars;
      if !UniqueKeys(session.pending) {
        return Err(IntegrityError);
      }
      rows := session.rows + session.pending;
      count := Ok(|bars|);
    }

    method ListRecent(symbol: string, market: string, interval: string, limit: nat) returns (recent: seq<Row>)
      ensures recent == Recent(Matching(rows, symbol, market, interval), limit)
    {
      var matching: seq<Row> := [];
      for i := 0 to |rows|
        invariant matching == Matching(rows[..i], symbol, market, interval)
      {
        assert rows[..i + 1][..i] == rows[..i];
        var key := rows[i].key;
        if key.symbol == symbol && key.market == market && key.interval == interval {
          matching := matching + [rows[i]];
        }
      }
      assert rows[..|rows|] == rows;
      recent := Recent(matching, limit);
    }
  }

  // ----- The upsert -----

  /** The last bar of the batch with this key. */
  function LastFor(bars: seq<Row>, key: Key): Option<Row> {
    if bars == [] then None
    else if bars[|bars| - 1].key == key then Some(bars[|bars| - 1])
    else LastFor(bars[..|bars| - 1], key)
  }

  /** No key that is new to the table comes twice. */
  predicate NewKeysOnce(rows: seq<Row>, bars: seq<Row>) {
    forall i, j :: 0 <= i < j < |bars| && bars[i].key == bars[j].key ==> HasKey(rows, bars[i].key)
  }

  lemma LastForSnoc(bars: seq<Row>, bar: Row, key: Key)
    ensures LastFor(bars + [bar], key) == if bar.key == key then Some(bar) else LastFor(bars, key)
  {
  }

  lemma {:induction false} LastForPresence(bars: seq<Row>, key: Key)
    ensures LastFor(bars, key).Some? <==> HasKey(bars, key)
    ensures LastFor(bars, key).Some? ==> LastFor(bars, key).value in bars && LastFor(bars, key).value.key == key
  {
    if bars != [] {
      var n := |bars| - 1;
      LastForPresence(bars[..n], key);
      assert bars == bars[..n] + [bars[n]];
      if HasKey(bars[..n], key) {
        var i :| 0 <= i < n && bars[..n][i].key == key;
        assert bars[i].key == key;
      }
    }
  }

  /** What is staged after a batch: every committed row takes the last bar of the batch with its key, and the
      bars with new keys are pending, in order. */
  ghost predicate Staged(s: Session, rows: seq<Row>, bars: seq<Row>) {
    && |s.rows| == |rows|
    && (forall i :: 0 <= i < |rows| ==>
          s.rows[i] == (match LastFor(bars, rows[i].key) case Some(bar) => bar case None => rows[i]))
    && s.pending == NewOnes(rows, bars)
  }

  function NewOnes(rows: seq<Row>, bars: seq<Row>): seq<Row> {
    if bars == [] then []
    else
      NewOnes(rows, bars[..|bars| - 1])
      + if HasKey(rows, bars[|bars| - 1].key) then [] else [bars[|bars| - 1]]
  }

  lemma StagedKeepsKeys(s: Session, rows: seq<Row>, bars: seq<Row>, key: Key)
    requires Staged(s, rows, bars)
    ensures HasKey(s.rows, key) <==> HasKey(rows, key)
  {
    forall i | 0 <= i < |rows| ensures s.rows[i].key == rows[i].key {
      LastForPresence(bars, rows[i].key);
    }
    if HasKey(rows, key) {
      var i :| 0 <= i < |rows| && rows[i].key == key;
      assert s.rows[i].key == key;
    }
  }

  lemma {:induction false} StageAllStages(rows: seq<Row>, bars: seq<Row>)
    ensures Staged(StageAll(rows, bars), rows, bars)
  {
    if bars != [] {
      var n := |bars| - 1;
      StageAllStages(rows, bars[..n]);
      var before := StageAll(rows, bars[..n]);
      StagedKeepsKeys(before, rows, bars[..n], bars[n].key);
      assert bars == bars[..n] + [bars[n]];
      forall i | 0 <= i < |rows| ensures before.rows[i].key == rows[i].key {
        LastForPresence(bars[..n], rows[i].key);
      }
      forall i | 0 <= i < |rows|
        ensures LastFor(bars, rows[i].key)
             == if bars[n].key == rows[i].key then Some(bars[n]) else LastFor(bars[..n], rows[i].key)
      {
        LastForSnoc(bars[..n], bars[n], rows[i].key);
      }
      assert !HasKey(rows, bars[n].key) ==> forall i :: 0 <= i < |rows| ==> rows[i].key != bars[n].key;
    }
  }

  lemma {:induction false} NewOnesUnique(rows: seq<Row>, bars: seq<Row>)
    ensures UniqueKeys(NewOnes(rows, bars)) <==> NewKeysOnce(rows, bars)
    ensures forall key :: HasKey(NewOnes(rows, bars), key) <==> HasKey(bars, key) && !HasKey(rows, key)
  {
    if bars != [] {
      var n := |bars| - 1;
      var head, bar := bars[..n], bars[n];
      NewOnesUnique(rows, head);
      assert bars == head + [bar];
      forall key ensures HasKey(bars, key) <==> HasKey(head, key) || bar.key == key {
        HasKeySnoc(head, bar, key);
      }
      NewKeysOnceSnoc(rows, head, bar);
      if !HasKey(rows, bar.key) {
        var news := NewOnes(rows, head);
        forall key ensures HasKey(news + [bar], key) <==> HasKey(news, key) || bar.key == key {
          HasKeySnoc(news, bar, key);
        }
        UniqueKeysSnoc(news, bar);
      } else {
        assert NewOnes(rows, bars) == NewOnes(rows, head);
      }
    }
  }

  lemma HasKeySnoc(rows: seq<Row>, row: Row, key: Key)
    ensures HasKey(rows + [row], key) <==> HasKey(rows, key) || row.key == key
  {
    var all := rows + [row];
    assert all[|rows|] == row;
    if HasKey(rows, key) {
      var i :| 0 <= i < |rows| && rows[i].key == key;
      assert all[i].key == key;
    }
  }

  lemma UniqueKeysSnoc(rows: seq<Row>, row: Row)
    ensures UniqueKeys(rows + [row]) <==> UniqueKeys(rows) && !HasKey(rows, row.key)
  {
    var all := rows + [row];
    forall i | 0 <= i < |rows| ensures all[i] == rows[i] {}
    assert all[|rows|] == row;
    if UniqueKeys(all) {
      forall i, j | 0 <= i < j < |rows| ensures rows[i].key != rows[j].key {
        assert all[i].key != all[j].key;
      }
      forall i | 0 <= i < |rows| ensures rows[i].key != row.key {
        assert all[i].key != all[|rows|].key;
      }
    }
  }

  lemma NewKeysOnceSnoc(rows: seq<Row>, bars: seq<Row>, bar: Row)
    ensures NewKeysOnce(rows, bars + [bar])
       <==> NewKeysOnce(rows, bars) && (HasKey(bars, bar.key) ==> HasKey(rows, bar.key))
  {
    var all := bars + [bar];
    forall i | 0 <= i < |bars| ensures all[i] == bars[i] {}
    assert all[|bars|] == bar;
    if NewKeysOnce(rows, all) {
      forall i, j | 0 <= i < j < |bars| && bars[i].key == bars[j].key ensures HasKey(rows, bars[i].key) {
        assert all[i].key == all[j].key;
      }
      if HasKey(bars, bar.key) {
        var i :| 0 <= i < |bars| && bars[i].key == bar.key;
        assert all[i].key == all[|bars|].key;
      }
    }
  }

  /** The table after a successful upsert: unique keys; existing rows keep their place and take the last bar of
      the batch with their key; the new keys follow. */
  ghost predicate Merged(rows: seq<Row>, bars: seq<Row>, after: seq<Row>) {
    && UniqueKeys(after)
    && |rows| <= |after|
    && (forall i :: 0 <= i < |rows| ==>
          after[i] == (match LastFor(bars, rows[i].key) case Some(bar) => bar case None => rows[i]))
    && (forall key :: HasKey(after, key) <==> HasKey(rows, key) || HasKey(bars, key))
    && (forall i :: 0 <= i < |after| && HasKey(bars, after[i].key) ==> LastFor(bars, after[i].key) == Some(after[i]))
  }

  lemma {:induction false} NewOnesAreLast(rows: seq<Row>, bars: seq<Row>)
    requires NewKeysOnce(rows, bars)
    ensures forall row :: row in NewOnes(rows, bars) ==> LastFor(bars, row.key) == Some(row)
  {
    if bars != [] {
      var n := |bars| - 1;
      var head, bar := bars[..n], bars[n];
      assert bars == head + [bar];
      NewKeysOnceSnoc(rows, head, bar);
      NewOnesAreLast(rows, head);
      NewOnesUnique(rows, head);
      forall row | row in NewOnes(rows, bars) ensures LastFor(bars, row.key) == Some(row) {
        LastForSnoc(head, bar, row.key);
        if row in NewOnes(rows, head) {
          LastForPresence(head, row.key);
          assert HasKey(NewOnes(rows, head), row.key);
        }
      }
    }
  }

  /** An upsert succeeds exactly when no key that is new to the table comes twice in the batch, because a session
      does not see its own unflushed rows; and a successful one merges the batch, the last bar winning. */
  lemma UpsertMerges(rows: seq<Row>, bars: seq<Row>)
    requires UniqueKeys(rows)
    ensures Upsert(rows, bars).Ok? <==> NewKeysOnce(rows, bars)
    ensures Upsert(rows, bars).Ok? ==> Merged(rows, bars, Upsert(rows, bars).value)
  {
    var s := StageAll(rows, bars);
    StageAllStages(rows, bars);
    NewOnesUnique(rows, bars);
    if NewKeysOnce(rows, bars) {
      NewOnesAreLast(rows, bars);
      MergeStaged(rows, bars, s);
    }
  }

  lemma MergeStaged(rows: seq<Row>, bars: seq<Row>, s: Session)
    requires UniqueKeys(rows) && Staged(s, rows, bars) && UniqueKeys(s.pending)
    requires forall key :: HasKey(s.pending, key) <==> HasKey(bars, key) && !HasKey(rows, key)
    requires forall row :: row in s.pending ==> LastFor(bars, row.key) == Some(row)
    ensures Merged(rows, bars, s.rows + s.pending)
  {
    var after := s.rows + s.pending;
    forall i | 0 <= i < |rows| ensures s.rows[i].key == rows[i].key && after[i] == s.rows[i] {
      LastForPresence(bars, rows[i].key);
    }
    forall i | |rows| <= i < |after| ensures after[i] == s.pending[i - |rows|] && !HasKey(rows, after[i].key) {
      assert HasKey(s.pending, after[i].key);
    }
    forall i, j | 0 <= i < j < |after| ensures after[i].key != after[j].key {
      if i < |rows| && j >= |rows| {
        assert rows[i].key == after[i].key;
      } else if j < |rows| {
        assert rows[i].key != rows[j].key;
      } else {
        assert s.pending[i - |rows|].key != s.pending[j - |rows|].key;
      }
    }
    forall key ensures HasKey(after, key) <==> HasKey(rows, key) || HasKey(bars, key) {
      HasKeyConcat(s.rows, s.pending, key);
      StagedKeepsKeys(s, rows, bars, key);
    }
    forall i | 0 <= i < |after| && HasKey(bars, after[i].key) ensures LastFor(bars, after[i].key) == Some(after[i]) {
      LastForPresence(bars, after[i].key);
    }
  }

  lemma HasKeyConcat(a: seq<Row>, b: seq<Row>, key: Key)
    ensures HasKey(a + b, key) <==> HasKey(a, key) || HasKey(b, key)
  {
    var all := a + b;
    if HasKey(a, key) {
      var i :| 0 <= i < |a| && a[i].key == key;
      assert all[i].key == key;
    }
    if HasKey(b, key) {
      var i :| 0 <= i < |b| && b[i].key == key;
      assert all[|a| + i].key == key;
    }
  }

  /** Repeating a successful batch changes nothing, even if it names a key more than once. */
  lemma UpsertIsIdempotent(rows: seq<Row>, bars: seq<Row>)
    requires UniqueKeys(rows) && Upsert(rows, bars).Ok?
    ensures Upsert(Upsert(rows, bars).value, bars) == Upsert(rows, bars)
  {
    UpsertMerges(rows, bars);
    var once := Upsert(rows, bars).value;
    forall i, j | 0 <= i < j < |bars| && bars[i].key == bars[j].key ensures HasKey(once, bars[i].key) {
      assert HasKey(bars, bars[i].key);
    }
    UpsertMerges(once, bars);
    var twice := Upsert(once, bars).value;
    StageAllStages(once, bars);
    NewOnesUnique(once, bars);
    assert StageAll(once, bars).pending == [] by {
      if NewOnes(once, bars) != [] {
        assert HasKey(NewOnes(once, bars), NewOnes(once, bars)[0].key);
      }
    }
    forall i | 0 <= i < |once| ensures twice[i] == once[i] {
      LastForPresence(bars, once[i].key);
    }
    assert |twice| == |once|;
    assert twice == once;
  }

  // ----- The history query -----

  function Matching(rows: seq<Row>, symbol: string, market: string, interval: string): seq<Row> {
    if rows == [] then []
    else
      var row := rows[|rows| - 1];
      Matching(rows[..|rows| - 1], symbol, market, interval)
      + if row.key.symbol == symbol && row.key.market == market && row.key.interval == interval then [row] else []
  }

  predicate NewerFirst(a: Row, b: Row) {
    a.key.timestamp >= b.key.timestamp
  }

  predicate OlderFirst(a: Row, b: Row) {
    a.key.timestamp <= b.key.timestamp
  }

  function Reversed(rows: seq<Row>): seq<Row> {
    seq(|rows|, i requires 0 <= i < |rows| => rows[|rows| - 1 - i])
  }

  /** Newest first, at most `limit`, then turned round. */
  function Recent(rows: seq<Row>, limit: nat): seq<Row> {
    var newest := Sort(rows, NewerFirst);
    Reversed(if |newest| <= limit then newest else newest[..limit])
  }

  predicate DistinctTimes(rows: seq<Row>) {
    forall i, j :: 0 <= i < j < |rows| ==> rows[i].key.timestamp != rows[j].key.timestamp
  }

  /** The rows of one symbol, market and interval have distinct timestamps in a table with unique keys. */
  lemma {:induction false} MatchingDistinct(rows: seq<Row>, symbol: string, market: string, interval: string)
    requires UniqueKeys(rows)
    ensures DistinctTimes(Matching(rows, symbol, market, interval))
    ensures forall row :: row in Matching(rows, symbol, market, interval) ==>
              row in rows && row.key == Key(symbol, market, interval, row.key.timestamp)
  {
    if rows != [] {
      var n := |rows| - 1;
      MatchingDistinct(rows[..n], symbol, market, interval);
      var head := Matching(rows[..n], symbol, market, interval);
      forall row | row in head && rows[n].key == Key(symbol, market, interval, rows[n].key.timestamp)
        ensures row.key.timestamp != rows[n].key.timestamp
      {
        var i :| 0 <= i < n && rows[..n][i] == row;
        assert rows[i].key != rows[n].key;
      }
      var all := Matching(rows, symbol, market, interval);
      assert forall i :: 0 <= i < |head| ==> all[i] == head[i] && head[i] in head;
    }
  }

  lemma OlderOrder()
    ensures TotalPreorder(OlderFirst) && TotalPreorder(NewerFirst)
  {
  }

  lemma {:induction false} ReversedPermutes(rows: seq<Row>)
    ensures multiset(Reversed(rows)) == multiset(rows)
  {
    if rows != [] {
      var n := |rows| - 1;
      ReversedPermutes(rows[..n]);
      assert Reversed(rows) == [rows[n]] + Reversed(rows[..n]);
      assert rows == rows[..n] + [rows[n]];
    }
  }

  lemma DistinctNoTies(rows: seq<Row>)
    requires DistinctTimes(rows)
    ensures NoTies(rows, OlderFirst)
  {
  }

  /** Sorting newest first and turning round is sorting oldest first, when no two timestamps tie. */
  lemma ReversedNewest(rows: seq<Row>)
    requires DistinctTimes(rows)
    ensures Reversed(Sort(rows, NewerFirst)) == Sort(rows, OlderFirst)
  {
    OlderOrder();
    var newest, turned := Sort(rows, NewerFirst), Reversed(Sort(rows, NewerFirst));
    SortSorts(rows, NewerFirst);
    SortPermutes(rows, NewerFirst);
    ReversedPermutes(newest);
    forall i, j | 0 <= i < j < |turned| ensures OlderFirst(turned[i], turned[j]) {
      assert NewerFirst(newest[|newest| - 1 - j], newest[|newest| - 1 - i]);
    }
    SortKeepsSorted(turned, OlderFirst);
    DistinctNoTies(rows);
    SortIgnoresOrder(rows, turned, OlderFirst);
  }

  /** The last `n` rows, or all of them. */
  function LastRows(rows: seq<Row>, n: nat): seq<Row> {
    if |rows| <= n then rows else rows[|rows| - n..]
  }

  /** The query returns the `limit` latest rows in order of time. */
  lemma RecentIsLatest(rows: seq<Row>, limit: nat)
    requires DistinctTimes(rows)
    ensures Recent(rows, limit) == LastRows(Sort(rows, OlderFirst), limit)
  {
    ReversedNewest(rows);
    var newest := Sort(rows, NewerFirst);
    if |newest| > limit {
      assert Reversed(newest[..limit]) == Reversed(newest)[|newest| - limit..];
    }
  }

  lemma SortedDistinct(rows: seq<Row>)
    requires DistinctTimes(rows)
    ensures SortedBy(Sort(rows, OlderFirst), OlderFirst)
  {
    OlderOrder();
    SortSorts(rows, OlderFirst);
  }

  predicate Strict(rows: seq<Row>) {
    forall i, j :: 0 <= i < j < |rows| ==> rows[i].key.timestamp < rows[j].key.timestamp
  }

  lemma SortedStrictly(rows: seq<Row>)
    requires DistinctTimes(rows)
    ensures var sorted := Sort(rows, OlderFirst);
            Strict(sorted) && |sorted| == |rows| && forall row :: row in sorted <==> row in rows
  {
    var sorted := Sort(rows, OlderFirst);
    SortedDistinct(rows);
    SortPermutes(rows, OlderFirst);
    RearrangedNoRepeats(rows, sorted);
    forall row ensures row in sorted <==> row in rows {
      SortMembers(rows, OlderFirst, row);
    }
    forall i, j | 0 <= i < j < |sorted| ensures sorted[i].key.timestamp < sorted[j].key.timestamp {
      assert sorted[i] in rows && sorted[j] in rows && sorted[i] != sorted[j];
      assert OlderFirst(sorted[i], sorted[j]);
    }
  }

  /** The bars of one symbol, market and interval. */
  predicate InSeries(row: Row, symbol: string, market: string, interval: string) {
    row.key.symbol == symbol && row.key.market == market && row.key.interval == interval
  }

  /** Every stored bar of the series is found, as often as it is stored, and no other. */
  lemma {:induction false} MatchingIsExact(
    rows: seq<Row>, symbol: string, market: string, interval: string, row: Row)
    ensures multiset(Matching(rows, symbol, market, interval))[row]
         == if InSeries(row, symbol, market, interval) then multiset(rows)[row] else 0
    ensures row in Matching(rows, symbol, market, interval)
       <==> row in rows && InSeries(row, symbol, market, interval)
  {
    if rows != [] {
      var n := |rows| - 1;
      MatchingIsExact(rows[..n], symbol, market, interval, row);
      SplitLast(rows);
    }
  }

  /** What the query returns of a table with unique keys: bars of the series in order of time, at most `limit`; and a
      bar of the series that is left out is older than all of them, and is left out only if there are `limit`. */
  lemma RecentIsExact(rows: seq<Row>, symbol: string, market: string, interval: string, limit: nat)
    requires UniqueKeys(rows)
    ensures var recent := Recent(Matching(rows, symbol, market, interval), limit);
            && |recent| <= limit
            && Strict(recent)
            && (forall row :: row in recent ==> row in rows && InSeries(row, symbol, market, interval))
            && (forall row :: row in rows && InSeries(row, symbol, market, interval) && row !in recent ==>
                  |recent| == limit && forall kept :: kept in recent ==> row.key.timestamp < kept.key.timestamp)
  {
    var all := Matching(rows, symbol, market, interval);
    var sorted := Sort(all, OlderFirst);
    MatchingDistinct(rows, symbol, market, interval);
    RecentIsLatest(all, limit);
    SortedStrictly(all);
    forall row ensures row in sorted <==> row in rows && InSeries(row, symbol, market, interval) {
      MatchingIsExact(rows, symbol, market, interval, row);
    }
    LastAreLatest(sorted, limit);
  }

  lemma LastAreLatest(sorted: seq<Row>, limit: nat)
    requires Strict(sorted)
    ensures var last := LastRows(sorted, limit);
            && |last| <= limit
            && Strict(last)
            && (forall row :: row in last ==> row in sorted)
            && (forall row :: row in sorted && row !in last ==>
                  |last| == limit && forall kept :: kept in last ==> row.key.timestamp < kept.key.timestamp)
  {
    if |sorted| > limit {
      FrontIsOlder(sorted, |sorted| - limit);
    }
  }

  lemma FrontIsOlder(sorted: seq<Row>, k: nat)
    requires Strict(sorted) && k <= |sorted|
    ensures Strict(sorted[k..])
    ensures forall row :: row in sorted <==> row in sorted[..k] || row in sorted[k..]
    ensures forall row, kept :: row in sorted[..k] && kept in sorted[k..] ==> row.key.timestamp < kept.key.timestamp
  {
    assert sorted == sorted[..k] + sorted[k..];
  }
}
