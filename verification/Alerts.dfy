/** Alerts and their deduplication key. */
module Alerts {
  import opened Common
  import opened Tables
  import opened Text

  function TypeName(t: SignalType): string {
    match t
    case WATCH => "WATCH"
    case RISK_ALERT => "RISK_ALERT"
    case THESIS_BROKEN => "THESIS_BROKEN"
    case BUY_CANDIDATE => "BUY_CANDIDATE"
    case SELL_REVIEW => "SELL_REVIEW"
    case OVERHEATED => "OVERHEATED"
  }

  /** The part of the key after the type: the news item, or else the signal itself. */
  function KeySuffix(s: Signal, signalId: nat): string {
    match s.newsItemId
    case Some(newsItemId) => ShowNat(newsItemId)
    case None => "signal:" + ShowNat(signalId)
  }

  function DedupKey(s: Signal, signalId: nat): string {
    TypeName(s.signalType) + ":" + KeySuffix(s, signalId)
  }

  predicate NoColon(text: string) {
    forall i :: 0 <= i < |text| ==> text[i] != ':'
  }

  lemma TypeNamesDistinct(s: SignalType, t: SignalType)
    ensures NoColon(TypeName(s))
    ensures TypeName(s) == TypeName(t) ==> s == t
  {
  }

  /** Text before the first colon is determined by the whole. */
  lemma SplitAtColon(a: string, x: string, b: string, y: string)
    requires NoColon(a) && NoColon(b)
    requires a + ":" + x == b + ":" + y
    ensures a == b && x == y
  {
    var whole := a + ":" + x;
    assert whole[|a|] == ':' && (b + ":" + y)[|b|] == ':';
    assert forall k :: 0 <= k < |a| ==> whole[k] == a[k];
    assert forall k :: 0 <= k < |b| ==> (b + ":" + y)[k] == b[k];
    assert |a| == |b|;
    assert a == whole[..|a|] && b == (b + ":" + y)[..|b|];
    assert x == whole[|a| + 1..] && y == (b + ":" + y)[|b| + 1..];
  }

  lemma SuffixDetermines(s: Signal, i: nat, t: Signal, j: nat)
    requires KeySuffix(s, i) == KeySuffix(t, j)
    ensures s.newsItemId == t.newsItemId && (s.newsItemId.None? ==> i == j)
  {
    assert ("signal:" + ShowNat(i))[0] == 's' && ("signal:" + ShowNat(j))[0] == 's';
    match (s.newsItemId, t.newsItemId)
    case (Some(m), Some(n)) => ShowNatInjective(m, n);
    case (None, None) =>
      assert ShowNat(i) == ("signal:" + ShowNat(i))[7..] && ShowNat(j) == ("signal:" + ShowNat(j))[7..];
      ShowNatInjective(i, j);
    case (Some(m), None) =>
    case (None, Some(n)) =>
  }

  /** Two signals share a deduplication key exactly when they have the same type and are about the same news
      item or, when about none, are the same signal. */
  lemma DedupKeyInjective(s: Signal, i: nat, t: Signal, j: nat)
    ensures DedupKey(s, i) == DedupKey(t, j) <==>
            && s.signalType == t.signalType
            && s.newsItemId == t.newsItemId
            && (s.newsItemId.None? ==> i == j)
  {
    if DedupKey(s, i) == DedupKey(t, j) {
      TypeNamesDistinct(s.signalType, t.signalType);
      TypeNamesDistinct(t.signalType, s.signalType);
      SplitAtColon(TypeName(s.signalType), KeySuffix(s, i), TypeName(t.signalType), KeySuffix(t, j));
      SuffixDetermines(s, i, t, j);
    }
  }

  predicate Spelled(t: SignalType, name: string) {
    && (t == WATCH ==> name == "WATCH")
    && (t == RISK_ALERT ==> name == "RISK_ALERT")
    && (t == THESIS_BROKEN ==> name == "THESIS_BROKEN")
    && (t == BUY_CANDIDATE ==> name == "BUY_CANDIDATE")
    && (t == SELL_REVIEW ==> name == "SELL_REVIEW")
    && (t == OVERHEATED ==> name == "OVERHEATED")
  }

  /** How a key reads: the type, a colon, and the number of the news item or, after `signal:`, of the signal. */
  lemma KeyReads(s: Signal, signalId: nat)
    ensures exists name, n ::
              && Spelled(s.signalType, name)
              && ReadNat(n) == (if s.newsItemId.Some? then s.newsItemId.value else signalId)
              && DedupKey(s, signalId) == name + ":" + if s.newsItemId.Some? then n else "signal:" + n
  {
    var number := if s.newsItemId.Some? then s.newsItemId.value else signalId;
    var name, n := TypeName(s.signalType), ShowNat(number);
    ReadShow(number);
    assert Spelled(s.signalType, name) && ReadNat(n) == number;
  }

  // ----- The table -----

  predicate HasAlert(alerts: seq<Alert>, userId: nat, dedupKey: string) {
    exists i :: 0 <= i < |alerts| && alerts[i].userId == userId && alerts[i].dedupKey == dedupKey
  }

  /** Insert, unless the unique constraint on user and key refuses it. */
  function InsertAlert(alerts: seq<Alert>, userId: nat, signalId: nat, dedupKey: string): seq<Alert> {
    if HasAlert(alerts, userId, dedupKey) then alerts else alerts + [Alert(userId, signalId, dedupKey, UNREAD)]
  }

  datatype AlertError = AlertNotFound

  /** Marking an alert read or dismissed: only its owner may, and only the status changes. */
  function UpdateOwned(alerts: seq<Alert>, alertId: nat, userId: nat, status: AlertStatus)
    : Result<seq<Alert>, AlertError>
  {
    if alertId >= |alerts| || alerts[alertId].userId != userId then Err(AlertNotFound)
    else Ok(alerts[alertId := alerts[alertId].(status := status)])
  }

  class AlertService {
    const db: Database

    constructor (db: Database)
      ensures this.db == db
    {
      this.db := db;
    }

    method CreateAlert(userId: nat, signalId: nat) returns (created: bool)
      requires signalId < |db.signals|
      modifies db
      ensures var key := DedupKey(old(db.signals)[signalId], signalId);
              && db.View() == old(db.View()).(alerts := InsertAlert(old(db.alerts), userId, signalId, key))
              && created == !HasAlert(old(db.alerts), userId, key)
    {
      var key := DedupKey(db.signals[signalId], signalId);
      var taken := false;
      for i := 0 to |db.alerts|
        invariant taken <==> exists j :: 0 <= j < i && db.alerts[j].userId == userId && db.alerts[j].dedupKey == key
      {
        if db.alerts[i].userId == userId && db.alerts[i].dedupKey == key {
          taken := true;
        }
      }
      if taken {
        return false;
      }
      db.alerts := db.alerts + [Alert(userId, signalId, key, UNREAD)];
      created := true;
    }

    method UpdateOwnedAlert(alertId: nat, userId: nat, status: AlertStatus) returns (done: Result<(), AlertError>)
      modifies db
      ensures var updated := UpdateOwned(old(db.alerts), alertId, userId, status);
              && done == (match updated case Ok(_) => Ok(()) case Err(e) => Err(e))
              && db.View() == old(db.View()).(alerts := match updated case Ok(a) => a case Err(_) => old(db.alerts))
    {
      if alertId >= |db.alerts| || db.alerts[alertId].userId != userId {
        return Err(AlertNotFound);
      }
      db.alerts := db.alerts[alertId := db.alerts[alertId].(status := status)];
      done := Ok(());
    }
  }

  /** Every alert carries the key of its own signal, and no user has two alerts with one key. */
  ghost predicate AlertsConsistent(signals: seq<Signal>, alerts: seq<Alert>) {
    && (forall i :: 0 <= i < |alerts| ==>
          && alerts[i].signalId < |signals|
          && alerts[i].dedupKey == DedupKey(signals[alerts[i].signalId], alerts[i].signalId))
    && (forall i, j :: 0 <= i < j < |alerts| ==>
          !(alerts[i].userId == alerts[j].userId && alerts[i].dedupKey == alerts[j].dedupKey))
  }

  /** Inserting and updating alerts keep the table consistent; updates never touch the other columns. */
  lemma AlertsStayConsistent(
    signals: seq<Signal>, alerts: seq<Alert>, userId: nat, signalId: nat, alertId: nat, status: AlertStatus)
    requires AlertsConsistent(signals, alerts) && signalId < |signals|
    ensures AlertsConsistent(signals, InsertAlert(alerts, userId, signalId, DedupKey(signals[signalId], signalId)))
    ensures UpdateOwned(alerts, alertId, userId, status).Ok? ==>
              AlertsConsistent(signals, UpdateOwned(alerts, alertId, userId, status).value)
  {
    var key := DedupKey(signals[signalId], signalId);
    if !HasAlert(alerts, userId, key) {
      var after := InsertAlert(alerts, userId, signalId, key);
      forall i, j | 0 <= i < j < |after|
        ensures !(after[i].userId == after[j].userId && after[i].dedupKey == after[j].dedupKey)
      {
        if j == |alerts| {
          assert after[i] == alerts[i];
        }
      }
    }
  }

  /** A new alert is refused exactly when the user already has one with the key; otherwise it is added last, unread. */
  lemma InsertedExactlyWhen(alerts: seq<Alert>, userId: nat, signalId: nat, key: string)
    ensures InsertAlert(alerts, userId, signalId, key)
         == if exists i :: 0 <= i < |alerts| && alerts[i].userId == userId && alerts[i].dedupKey == key
            then alerts else alerts + [Alert(userId, signalId, key, UNREAD)]
  {
    assert HasAlert(alerts, userId, key) <==>
             exists i :: 0 <= i < |alerts| && alerts[i].userId == userId && alerts[i].dedupKey == key;
  }

  /** Who may mark an alert: its owner, and nobody else; an alert that is not there is nobody's. Marking changes that
      alert's status and nothing else, so marking it again decides alone. */
  lemma OnlyOwnersUpdate(alerts: seq<Alert>, alertId: nat, userId: nat, status: AlertStatus, again: AlertStatus)
    ensures var updated := UpdateOwned(alerts, alertId, userId, status);
            && (updated.Ok? <==> alertId < |alerts| && alerts[alertId].userId == userId)
            && (updated.Ok? ==>
                  && |updated.value| == |alerts|
                  && updated.value[alertId] == Alert(userId, alerts[alertId].signalId, alerts[alertId].dedupKey, status)
                  && (forall i :: 0 <= i < |alerts| && i != alertId ==> updated.value[i] == alerts[i])
                  && UpdateOwned(updated.value, alertId, userId, again) == UpdateOwned(alerts, alertId, userId, again))
  {
    if UpdateOwned(alerts, alertId, userId, status).Ok? {
      var one := alerts[alertId := alerts[alertId].(status := status)];
      assert one[alertId := one[alertId].(status := again)] == alerts[alertId := alerts[alertId].(status := again)];
    }
  }
}
