/** The rows of the news, report, signal and alert tables. A row's identifier is its position: rows are only
    ever appended or updated. */
module Tables {
  import opened Common

  datatype RawStatus = FETCHED | NORMALIZED | FAILED

  datatype RawEvent = RawEvent(
    url: string,
    title: string,
    source: string,
    symbol: Option<string>,
    market: Option<string>,
    publishedAt: Option<nat>,
    status: RawStatus)

  datatype Impact = LOW | MEDIUM | HIGH | CRITICAL

  datatype NewsItem = NewsItem(
    rawEventId: Option<nat>,
    assetId: nat,
    url: string,
    title: string,
    summary: Option<string>,
    impact: Option<Impact>)

  datatype Report = Report(assetId: nat, thesisId: Option<nat>, newsItemId: nat)

  datatype SignalType = WATCH | RISK_ALERT | THESIS_BROKEN | BUY_CANDIDATE | SELL_REVIEW | OVERHEATED

  /** A signal as proposed; the table stores exactly these fields. */
  datatype Signal = Signal(
    assetId: nat,
    thesisId: Option<nat>,
    newsItemId: Option<nat>,
    signalType: SignalType,
    score: int,
    riskLevel: Option<Impact>,
    expiresAt: Option<nat>)

  datatype AlertStatus = UNREAD | READ | DISMISSED

  datatype Alert = Alert(userId: nat, signalId: nat, dedupKey: string, status: AlertStatus)

  datatype Snapshot = Snapshot(
    raw: seq<RawEvent>,
    news: seq<NewsItem>,
    reports: seq<Report>,
    signals: seq<Signal>,
    alerts: seq<Alert>)

  const EMPTY_TABLES := Snapshot([], [], [], [], [])

  class Database {
    var raw: seq<RawEvent>
    var news: seq<NewsItem>
    var reports: seq<Report>
    var signals: seq<Signal>
    var alerts: seq<Alert>

    constructor ()
      ensures View() == EMPTY_TABLES
    {
      raw, news, reports, signals, alerts := [], [], [], [], [];
    }

    function View(): Snapshot
      reads this
    {
      Snapshot(raw, news, reports, signals, alerts)
    }
  }
}
