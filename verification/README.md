# Verification of the stock research backend

A Dafny 4.11 model of the parts of the backend that carry state, branching or arithmetic, with proofs of what they are for.
`dafny verify dfyconfig.toml` checks everything.

* **LLM gateway** (`Llm*.dfy`, `Redis.dfy`). Requests are routed, possibly escalated to the cloud, guarded by sensitivity,
  looked up in a cache keyed by UTC day, charged to a shared counter, sent, stored, and possibly verified by the cloud.
  `LlmGateway` has the gateway, its cache and its budget as classes on one Redis, proved against the function `Complete`;
  `LlmProtocol` has the same request as a step machine, so that any number of requests can interleave while time passes,
  and proves that a request left alone is exactly `Complete`. `LlmGatewayLaws` and `LlmRequestLaws` (one request), `LlmSimulation` and
  `LlmRefinement` (histories, with and without cache), `LlmBudgetBound` and `LlmInterleaving` (every interleaving) hold the theorems.
* **Portfolio arithmetic** (`Portfolio*.dfy`, `Sorting.dfy`). Weights, sectors, day change and risk exposures as the loops
  of the service, proved against functions about which the laws are stated. Decimals are reals.
* **Analysis, signals, alerts** (`Analysis*.dfy`, `Signals.dfy`, `Alerts.dfy`, `ConcentrationCheck.dfy`, `SignalRuns.dfy`,
  `News*.dfy`, `Tables.dfy`). Services over one database object, and what every sequence of their runs keeps.
* **Prices** (`Price*.dfy`, `Prices.dfy`, `GeneratedQuality.dfy`, `WireDecimal.dfy`, `Text.dfy`). The deterministic series
  generator, validation, the upsert table, windowed features, the ingestion ledger, and decimals on the wire.
* **Buy checklist** (`DecisionChecklist.dfy`). When a note counts as decided.

Client answers, clock readings and Redis faults are inputs of a request (`Env`, or the steps of a schedule); news fetches,
summaries and verdicts are inputs of an analysis run (`World`). Every theorem holds for all of them unless it names a
condition.

## Results that differ from what the design promises

* The daily budget holds in every interleaving exactly when no request pauses for more than one day between reading the
  date for its counter key and incrementing the counter (`LlmBudgetBound.BudgetBoundExactlyUpToOneDay`); a concrete
  schedule overspends beyond that.
* The gateway with a cache refines the one without exactly when no request pauses for more than a day between reading the
  date and INCR, no EXPIRE is lost, and the policy verifies no answer that is not from the cloud
  (`LlmRefinement.CachedGatewayRefinesPlain`). Each of the three conditions has a history that needs nothing but its
  violation: `LongPauseSeesTheCache`, `LostExpirySeesTheCache` and `LocalVerificationSeesTheCache`.
* An upsert sees none of its own unflushed rows (`app/db/session.py:9`), so it is refused exactly when a key that is new to
  the table comes twice in one batch (`PriceTable.UpsertMerges`).
* A refused upsert is never rolled back (`app/domains/prices/repository.py:51`,
  `app/domains/prices/ingestion_service.py:91-106`), so the session it leaves behind makes every later delivered target of
  the run fail, however clean. A target succeeds exactly when it is delivered and neither it nor any target before it
  repeats a key that was new to the table (`PriceIngestion.TargetSucceedsExactlyWhen`, with the run
  `PriceIngestion.RefusalFailsTheRest`).
* Wire decimals are canonical up to the sign of zero: a negative zero keeps its sign (`WireDecimal.WireIsCanonical`).
* The series generator emits KRW only for the market "KRX", while validation expects KRW for KOSPI and KOSDAQ: a generated
  series for those two is warned about on every bar (`GeneratedQuality.GeneratedSeriesIsValidWhen`).
* A news item is never given a report or signals, whatever runs later, exactly when ingestion created it, or when it, or an
  item created before it in the same run for the same asset, got no summary or no verdict
  (`AnalysisYields.UnanalysedExactlyWhen`, with the history `AnalysisYields.FailedItemIsLost`).
* `docs/decisions/ADR-011-llm-cache-policy.md` describes the cache key without the version part that
  `app/adapters/llm/cache.py:17` adds; the model has it.

## Model

| member | source | states |
|---|---|---|
| LlmGateway.LLMGateway.CompleteJson | app/adapters/llm/gateway.py:59-175 | the imperative request ends with exactly the result, the Redis contents and the transmissions of `Complete`, which all laws below are about |
| LlmGateway.LLMGateway.CompleteUncached | app/adapters/llm/gateway.py:123-145 | charge, call and store, in that order and only on the cloud path, then the rest of the request |
| LlmGateway.LLMGateway.CompleteAnswered | app/adapters/llm/gateway.py:146-175 | after an answer: verify if the policy asks and a cloud client exists; `escalated` and the answer follow from it |
| LlmGateway.LLMGateway.VerifyWithCloud | app/adapters/llm/gateway.py:177-247 | a blocked payload or a refused charge means no attempt; an attempt yields an output only if it fits the schema |
| LlmPolicy.Guard | app/adapters/llm/privacy.py:349-363 | lets a payload through, unchanged, exactly if it is cloud-safe and aggregated or public; and with which error it stops any other |
| LlmBudget.DailyCallBudget.Consume | app/adapters/llm/budget.py:18-24 | INCR, EXPIRE on the first count, refusal above the limit, with either command failing |
| LlmCache.StoreThenLookup | app/adapters/llm/cache.py:66-125 | what is stored is read back until its lifetime ends and never after, and no other key is affected |
| LlmCache.LLMResponseCache.Lookup | app/adapters/llm/cache.py:66-100 | a hit exactly when the bytes decode to a well-formed envelope; faults and malformed bytes are misses |
| LlmCache.LLMResponseCache.Store | app/adapters/llm/cache.py:102-125 | writes the envelope under the key with the lifetime; a fault writes nothing and raises nothing |
| LlmGatewayLaws.CloudSeesOnlyAllowedPayloads | app/adapters/llm/gateway.py:67-200 | whatever is sent to the cloud slot, on the direct, escalated or verification path, is the request's own payload and has an allowed sensitivity |
| LlmGatewayLaws.ChargeCounts | app/adapters/llm/budget.py:18-24 | a charge counts on the UTC day it reads, from nothing once the counter has expired, and succeeds iff the count is within the limit, INCR works and, for the first count, EXPIRE does; a new counter is given two days, a running one keeps its expiry, other days are untouched |
| LlmGatewayLaws.AtMostOneCloudCall | app/adapters/llm/gateway.py:59-247 | every request makes at most one cloud call and one increment, and with a budget a call implies an increment |
| LlmGatewayLaws.BlockedPayloadIgnoresPolicy | app/adapters/llm/gateway.py:67-102 | a payload that may not cross, routed elsewhere than the cloud: the gateway with a policy does exactly what it does without, for every signal, and touches neither Redis nor the cloud |
| LlmGatewayLaws.VerificationIsConservative | app/adapters/llm/gateway.py:146-247 | without a triggering signal the policy adds and removes no failure, `escalated` holds iff a cloud call was made, and the answer is the local one or a schema-valid cloud answer |
| LlmGatewayLaws.VerificationReplacesExactlyWhen | app/adapters/llm/gateway.py:146-169 | the exact condition under which the cloud's answer replaces the local one |
| LlmGatewayLaws.CloudRouteIgnoresPolicy | app/adapters/llm/escalation.py:26-48 | a request routed to the cloud never meets the escalation policy |
| LlmGatewayLaws.LaunchRoutesGoToTheCloud | app/adapters/llm/router.py:13-37 | every task resolves to the cloud in the shipped table |
| LlmGatewayLaws.HitsAreFree | app/adapters/llm/gateway.py:104-121 | a cached completion costs no call, no charge and no write, and arises only on the cloud path |
| LlmGatewayLaws.CloudCallIsStored | app/adapters/llm/gateway.py:133-145 | a completed cloud call with a non-empty output is in the cache under the key of that request |
| LlmGatewayLaws.RepeatedRequestHits | app/adapters/llm/gateway.py:104-145 | the same request on the same UTC day within the lifetime gets the same output, provider and model and does nothing else; on another day the entry is invisible |
| LlmRequestLaws.AdmittedExactlyWhen | app/adapters/llm/gateway.py:67-103 | a request goes to the cloud instead of the local client iff there is a policy, one of the five signals and a payload that may cross; it is admitted iff it then has a route, a client and, for the cloud, such a payload |
| LlmRequestLaws.RefusedExactlyWhen | app/adapters/llm/gateway.py:67-103 | any other request fails at once with the error of the first thing it lacks and leaves no trace; an admitted one can only fail by its charge or its client |
| LlmRequestLaws.HitsExactlyWhen | app/adapters/llm/gateway.py:104-121 | an answer is a cached one iff Redis holds, unexpired, a well-formed envelope under the key of task, UTC day, body, prompt, model and schema; its output, provider and model are the envelope's |
| LlmRequestLaws.CloudRequestExactly | app/adapters/llm/gateway.py:123-145 | on a miss: the charge's error, the client's error or the client's output, with exactly the message sent and exactly the envelope written |
| LlmRequestLaws.LocalRequestExactly | app/adapters/llm/gateway.py:133-247 | the answer of another client is kept unless its confidence is a number below the threshold or it does not fit the schema, and the cloud exists, may see the payload and can be charged; then the cloud's fitting answer replaces it, and it is marked escalated either way |
| LlmTypes.ConformsExactly | app/adapters/llm/gateway.py:213-214 | an output fits iff no required field is missing and every known field has its kind; unknown ones do not matter |
| LlmRefinement.CachedGatewayRefinesPlain | app/adapters/llm/gateway.py:101-145 | over every history, configuration and functional clients: whenever the gateway without cache returns, the one with cache returns the same output, provider and model, if and only if pauses before INCR are at most a day, no EXPIRE is lost and no local answer is verified; then its counter never reads higher |
| LlmRefinement.LongPauseSeesTheCache | app/adapters/llm/budget.py:19-22 | for any longer pause, a history with a running clock, no lost EXPIRE and no policy in which only the gateway without cache returns |
| LlmRefinement.LostExpirySeesTheCache | app/adapters/llm/budget.py:21-22 | a history with a running clock, no pause and no policy, but one lost EXPIRE, in which only the gateway without cache returns |
| LlmRefinement.LocalVerificationSeesTheCache | app/adapters/llm/gateway.py:146-169 | a history with a running clock and prompt charges, but a verified local request, in which both gateways return, differently |
| LlmProtocol.SoloIsComplete | app/adapters/llm/gateway.py:59-247 | the step machine, run with nobody in between, ends with the result, Redis and transmissions of the sequential gateway |
| LlmBudgetBound.BudgetBound | app/adapters/llm/budget.py:18-24 | in every interleaving of any number of gateways, at most max(limit, 0) cloud calls are charged to a UTC day, for pauses of up to a day |
| LlmBudgetBound.BudgetBoundExactlyUpToOneDay | app/adapters/llm/budget.py:19-22 | that bound holds if and only if the pause between reading the date and INCR is at most a day |
| LlmBudgetBound.LateIncrementOverspends | app/adapters/llm/budget.py:19-22 | for any longer pause, a schedule that makes two calls on a budget of one |
| LlmBudgetBound.IncrStep | app/adapters/llm/budget.py:19-24 | the two-day lifetime cannot drop a counter an INCR still needs, so the count is one more than ever before that day |
| LlmInterleaving.CloudBoundaryHolds | app/adapters/llm/gateway.py:67-200 | in every interleaving only permitted payloads reach the cloud slot |
| LlmInterleaving.OneCallOneCharge | app/adapters/llm/gateway.py:123-247 | in every interleaving each request makes at most one cloud call and one increment |
| LlmInterleaving.HitsComeFromCalls | app/adapters/llm/cache.py:38-100 | in every interleaving a cached completion is what the cloud answered to the same call for the same model, by a request whose key was built at an instant of the same UTC day, whatever the lifetime |
| Portfolio.CalculateWeights | app/domains/portfolios/service.py:243-334 | the loops compute, for every book, the values, weights, sector rows and day change the laws below are about |
| Portfolio.MeasurePosition | app/domains/portfolios/service.py:264-282 | one position's market value, day change and sector, with a missing asset, quote or sector |
| Portfolio.CalculateRiskExposures | app/domains/portfolios/service.py:362-446 | the loops emit the sector, single-name and cash exposures whose presence, number, level and order `ExposuresAreExact` and `HeaviestFirst` state |
| PortfolioLaws.SummaryIsScaleInvariant | app/domains/portfolios/service.py:192-454 | multiplying quantities and cash by k > 0 scales every money field by k and leaves every weight, flag, percentage, exposure and the whole briefing snapshot unchanged |
| PortfolioLaws.WeightsScale | app/domains/portfolios/service.py:243-334 | the same for the weights: row by row, in the same order |
| PortfolioLaws.BriefingScales | app/adapters/llm/privacy.py:226-267 | two summaries with equal weights, threshold and exposures project to one briefing snapshot |
| PortfolioBounds.WeightsConserve | app/domains/portfolios/service.py:208-325 | the totals are the sums of the rows and cash; sector values sum to the position values, sector weights to the position weights, and with the cash weight to 1, or all to 0 when the total is 0 |
| PortfolioBounds.PositionRowsAreExact | app/domains/portfolios/service.py:259-313 | one row per position: quantity times the quoted price of its asset, or 0 without asset or quote; quantity times buy price; each weight times its total gives the value back; flagged iff above the threshold |
| PortfolioBounds.CostWeightsConserve | app/domains/portfolios/service.py:259-313 | cost weights sum to 1, or to 0 when nothing was paid |
| PortfolioBounds.SectorTotalsPartition | app/domains/portfolios/service.py:264-284 | the dictionary the loop builds has one entry per sector held, with exactly that sector's market value |
| PortfolioBounds.SectorRowsAreExact | app/domains/portfolios/service.py:315-325 | one row per sector some position belongs to (UNKNOWN without asset or sector), in order of name: the sum of those positions' values, its part of the total, and flagged iff above the threshold |
| PortfolioBounds.SummaryFieldsAreExact | app/domains/portfolios/service.py:192-232 | cash weight times the total is the cash; the sector flag is on iff some sector row weighs more than the threshold; the other fields are passed through |
| PortfolioBounds.FewConcentratedPositions | app/domains/portfolios/service.py:295-313 | n positions above the threshold imply n x threshold < 1 |
| PortfolioBounds.ConcentratedPositionConcentratesSector | app/domains/portfolios/service.py:295-325 | a position above the threshold puts its sector above it, and the summary's flag on |
| PortfolioBounds.HighComesFirst | app/domains/portfolios/service.py:372-451 | within each group of exposures every HIGH precedes every MEDIUM |
| PortfolioBounds.ExposuresAreExact | app/domains/portfolios/service.py:372-446 | an exposure is listed once for each known sector and each position above the threshold that calls for it, and once for short cash; a level is HIGH iff the weight is at least 1.5 times the threshold, or cash is below 0.05; cash is short below 0.15 of a total that is not 0 |
| PortfolioBounds.HeaviestFirst | app/domains/portfolios/service.py:372-424 | each listed exposure has a row behind it, and they stand in order: sectors before names before cash, within sectors and within names the heavier row first and equal weights by name |
| PortfolioBounds.BriefingFlagsConcentration | app/adapters/llm/privacy.py:226-267 | the snapshot's flag agrees with the positions' flags, iff there is a position or the threshold is not negative |
| PortfolioBounds.BriefingIsExact | app/adapters/llm/privacy.py:226-267 | row by row and field by field, the snapshot holds the summary's symbols, sectors, weights, threshold, day change and exposures; the largest weight is attained and not exceeded |
| PortfolioDayChange.DayChangeIsWeightedMean | app/domains/portfolios/service.py:287-292 | the portfolio's change lies between the extreme changes (or zero), and the total is the previous total moved by it |
| PortfolioDayChange.PositionMoves | app/domains/portfolios/service.py:345-355 | a position's day change is its change percent of its previous value, which is not negative |
| PortfolioDayChange.DayChangeIsExact | app/domains/portfolios/service.py:285-355 | the day change is the sum of position changes, each of which grown by the quoted percentage gives today's value, or 0 without a quote, at price 0 or at -100 percent; its percentage takes the previous total to today's |
| Signals.SignalRepository.ExistsActiveTwin | app/domains/signals/repository.py:115-135 | whether an unexpired signal has the candidate's asset, type and news item |
| Signals.SignalRepository.Create | app/domains/signals/repository.py:16-31 | appends the row and touches no other table |
| Signals.RuleEngine.Run | app/domains/signals/rules/engine.py:13-30 | evaluates both rules first, then creates in order what has no active twin |
| Signals.FreshItemYieldsExactly | app/domains/signals/rules/engine.py:13-34 | for an item no signal mentions, exactly one signal of each expected type is created: THESIS_BROKEN if invalidated, RISK_ALERT if a conflict without invalidation or a high impact |
| Signals.ExpectedFromRules | app/domains/signals/rules/thesis_conflict_rule.py:7-36 | the two rules propose exactly the expected types, about the item and without an expiry |
| Signals.FreshItemGetsDue | app/domains/signals/rules/thesis_conflict_rule.py:7-36 | for an item no signal mentions, the engine appends exactly the rows that thesis, verdict and impact call for, with their scores and risk levels |
| Signals.CreatedExactlyWhen | app/domains/signals/repository.py:115-135 | a candidate is added, last and as it is, iff no row with its asset, type and news item has no expiry or one still to come |
| Signals.AtMostOneActiveSignal | app/domains/signals/repository.py:115-135 | over every history of attempts with an advancing clock at most one active signal per asset, type and news item exists, for ever after |
| Signals.EngineMakesAttempts | app/domains/signals/rules/engine.py:21-28 | a run of the engine is a sequence of such attempts |
| SignalRuns.SignalStoreStaysUnique | app/domains/signals/rules/engine.py:21-28 | the same over every history of engine runs and concentration checks |
| SignalRuns.RepeatedCheckIsIdle | app/domains/portfolios/service.py:142-169 | in any such history, checking again what was checked before creates nothing, at any time |
| ConcentrationCheck.PortfolioService.CheckConcentration | app/domains/portfolios/service.py:133-174 | builds the summary and adds a signal, in order, for each position above the threshold without an active one |
| ConcentrationCheck.CheckCovers | app/domains/portfolios/service.py:142-169 | a check only appends, covers every position above the threshold, and each new row is the high-risk alert of such a position, scored by its weight, whose asset nothing before it covers |
| ConcentrationCheck.RepeatedCheckCreatesNothing | app/domains/portfolios/service.py:142-154 | with the same weights a later check creates nothing, whatever was added in between |
| ConcentrationCheck.FewSignalsPerCheck | app/domains/portfolios/service.py:142-169 | one check creates fewer than 1 / threshold signals |
| ConcentrationCheck.CheckMakesAttempts | app/domains/portfolios/service.py:142-169 | a check is a sequence of attempts in the sense of `AtMostOneActiveSignal` |
| ConcentrationCheck.ScoreFromWeight | app/domains/portfolios/service.py:453-454 | the whole percents of the weight, cut off at 0 and 100 |
| Alerts.DedupKeyInjective | app/domains/alerts/service.py:136-139 | two signals share a key iff they have one type and one news item or, without one, are the same signal |
| Alerts.KeyReads | app/domains/alerts/service.py:136-139 | a key is the name of the type, a colon, and the number of the news item or, after `signal:`, of the signal |
| Alerts.AlertService.CreateAlert | app/domains/alerts/service.py:21-28 | inserts unless the user already has an alert with the signal's key, and says which |
| Alerts.AlertService.UpdateOwnedAlert | app/domains/alerts/service.py:103-111 | only the owner's alert changes, in its status only; otherwise not found |
| Alerts.AlertsStayConsistent | app/domains/alerts/repository.py:13-26 | inserting and updating keep keys true to their signals and unique per user |
| Alerts.OnlyOwnersUpdate | app/domains/alerts/service.py:103-111 | an update succeeds iff the alert exists and is the caller's, and then changes its status and nothing else |
| Alerts.InsertedExactlyWhen | app/domains/alerts/repository.py:13-26 | an alert is added, last and unread, iff its user has none with its key |
| Analysis.WatchlistAnalysisService.Run | app/domains/analysis/service.py:52-92 | the loop over the watchlist with its totals and failures |
| Analysis.WatchlistAnalysisService.ProcessOneAsset | app/domains/analysis/service.py:94-135 | fetch, store, create, and process the new items; everything done before an exception stays done |
| Analysis.WatchlistAnalysisService.CreateNewItems | app/domains/analysis/service.py:137-163 | one item for each fetched URL without one, linked to its raw event |
| Analysis.WatchlistAnalysisService.ProcessNewItem | app/domains/analysis/service.py:104-128 | summarize, judge, report, signal and alert, each step able to raise; what that comes to is stated by `ProcessedAssetYieldsExactly` |
| AnalysisLaws.ConcludeExact | app/domains/analysis/service.py:108-128 | an untouched item yields one report, one signal of each expected type and one unread alert of the user for each, and the tables stay consistent |
| AnalysisLaws.SaveAllExact | app/domains/raw_news/service.py:13-28 | storing adds, for each URL that had none, one raw event with the fields of its first entry, and no other |
| AnalysisLaws.CreateItemsExact | app/domains/analysis/service.py:137-163 | each URL without an item gets one, of the asset, with the title of its first entry and linked to the raw event with that URL; nothing else is created |
| AnalysisLaws.ProcessAssetExact | app/domains/analysis/service.py:94-135 | for a processed asset reports = items = new rows of both, alerts = signals = new rows of both; every fetched URL has its item |
| AnalysisLaws.FlowExact | app/domains/analysis/service.py:52-92 | processed + failures = watchlist items, reports = items, alerts = signals |
| AnalysisLaws.JobsKeepTablesConsistent | app/domains/analysis/service.py:52-163 | after any ingestion, analysis, concentration checks and alert updates in any order: one raw event and one item per URL, one report per item, an item for every normalized event, one alert per user and key |
| AnalysisYields.ProcessedAssetYieldsExactly | app/domains/analysis/service.py:104-128 | of every item a processed asset created, by its thesis, summary and verdict alone: THESIS_BROKEN exists iff there is a thesis and the verdict triggers its invalidation, RISK_ALERT iff the verdict is a conflict that does not or the impact is high or critical, and nothing else does; one report, one alert of the user for each signal, and the summary stored |
| AnalysisYields.AssetSettles | app/domains/analysis/service.py:94-135 | an asset is processed iff its fetch succeeds and every item it creates gets its summary and, with a thesis, a text to judge and a verdict; each item comes from its fetched entry and is analysed iff it and those before it do, and is untouched otherwise |
| AnalysisYields.LastAssetCounts | app/domains/analysis/service.py:69-92 | an asset of a run is added to the failures, and nowhere else, iff its row is gone, its fetch raises or an item it creates does not get through; otherwise each total grows by the rows new in its table |
| AnalysisYields.UnanalysedExactlyWhen | app/domains/analysis/service.py:97-128 | over any jobs in any order, an item has no report and no signals at the end iff ingestion created it, or it or an item before it for the same asset got no summary, or with a thesis an empty text or no verdict; otherwise it has exactly the signals, report and alerts described for `ProcessedAssetYieldsExactly` |
| AnalysisYields.FailedItemIsLost | app/domains/analysis/service.py:79-84 | two runs over one entry, of which the first raises: no report in the end, although the second run alone would have made one |
| News.NewsIngestionService.CreateOrSkip | app/domains/raw_news/repository.py:14-24 | inserts unless the URL is taken |
| News.NewsIngestionService.NormalizeEvent | app/domains/news/normalization_service.py:26-67 | unresolved events stay fetched, invalid ones fail, known URLs are only marked, others get an item; when, is stated by `NormalizedExactly` |
| News.NewsIngestionService.CollectOneTarget | app/domains/raw_news/ingestion_service.py:40-96 | one target: store, normalize and count each entry, or count the failure |
| News.NewsIngestionService.CollectAndSave | app/domains/raw_news/ingestion_service.py:30-38 | all targets in order, whatever fails |
| News.NormalizeConsistent | app/domains/news/normalization_service.py:26-67 | normalizing keeps URLs unique and an item behind every normalized mark, and touches one event |
| News.IngestionKeepsBooks | app/domains/raw_news/ingestion_service.py:30-96 | received = saved + skipped, success + failure = targets, a failure for each fetch that raised and all entries of the others received; saved and normalized are the changes of the table |
| NewsOutcomes.NormalizedExactly | app/domains/news/normalization_service.py:26-67 | a fetched event stays so iff it names no known asset, fails iff it does and its title, canonical URL or source is blank or its date is to come, and is normalized otherwise; an item is added iff it is normalized and none has the URL, with the event's number, asset, canonical URL and title |
| Text.SpacesAre | app/domains/news/validator.py:53-53 | the code points that count as blank |
| NewsOutcomes.IngestedExactly | app/domains/raw_news/ingestion_service.py:74-96 | an entry with a stored URL is skipped; any other is stored with its own fields and its target's symbol and market, ends as above, and is counted as saved and perhaps normalized |
| NewsOutcomes.RunCollects | app/domains/raw_news/ingestion_service.py:30-96 | over every run: the new events are the first delivered entries with URLs not stored before, each ended as its entry calls for; every delivered URL is stored; every new item was made from the first normalized event with its URL; stored rows are untouched |
| PriceGenerator.BusinessDaysEndingOn | app/adapters/market/mock.py:168-175 | the backward loop terminates with the last `count` business days, oldest first |
| PriceGenerator.BusinessDaysAreConsecutive | app/adapters/market/mock.py:168-175 | exactly `count` strictly increasing days up to the end date that are neither Saturday nor Sunday, counted from a Thursday, none skipped |
| PriceGenerator.RoundsToNearest | app/adapters/market/mock.py:182-183 | cent rounding gives the nearest integer, ties to even |
| PriceGenerator.GetDailyBars | app/adapters/market/mock.py:72-127 | the loop over dates is the price walk the laws below are about |
| PriceGenerator.BarIsSound | app/adapters/market/mock.py:82-112 | far above a dollar neither clamp fires and a day moves the close by at most 8.00 |
| PriceGenerator.SeriesIsDrawn | app/adapters/market/mock.py:81-127 | every bar of a series of any dates opens, closes, spreads, adjusts and trades by the stated numbers of seed and index, from the base price or the close before |
| PriceGenerator.GeneratedSeriesIsSound | app/adapters/market/mock.py:72-127 | for every seed, market and range: 22, 66, 132 or 252 bars, one for each weekday up to 25 June 2026, each drawn in turn and sound, neither clamp ever fired |
| GeneratedQuality.SeriesHandedOver | app/adapters/market/mock.py:105-125 | each bar is handed over with its own prices, volume and currency, at midnight of its date |
| GeneratedQuality.SeriesValidates | app/domains/prices/validator.py:48-103 | validation keeps exactly the generated bars not in the future and warns only about KOSPI and KOSDAQ currencies |
| GeneratedQuality.GeneratedSeriesIsValidWhen | app/domains/prices/validator.py:48-103 | a generated series is VALID iff its end date has arrived and the market is not KOSPI or KOSDAQ |
| Prices.ValidateBars | app/domains/prices/validator.py:35-103 | the validation loop, bar by bar in order of time |
| Prices.ScanKeepsBooks | app/domains/prices/validator.py:48-93 | kept and dropped bars rearrange the input, and warnings are exactly the currency mismatches and jumps among the kept |
| Prices.ValidationKeepsBooks | app/domains/prices/validator.py:35-122 | kept bars are sorted and are exactly those with all five prices and a day that has come; each dropped bar gives its one reason, each kept one a warning for a wrong currency and one for a close more than half the previous one away from it |
| PriceTable.PriceBarRepository.UpsertBars | app/domains/prices/repository.py:17-52 | the batch loop with its unflushed rows, and the table unchanged when the commit is refused |
| PriceTable.UpsertMerges | app/domains/prices/repository.py:17-52 | a batch succeeds iff no key new to the table comes twice, and then merges with the last bar winning and keys unique |
| PriceTable.UpsertIsIdempotent | app/domains/prices/repository.py:17-52 | repeating a successful batch changes nothing |
| PriceTable.PriceBarRepository.ListRecent | app/domains/prices/repository.py:69-86 | the filtered, limited, reversed query |
| PriceTable.RecentIsLatest | app/domains/prices/repository.py:69-86 | the query returns the `limit` latest rows in order of time |
| PriceTable.MatchingIsExact | app/domains/prices/repository.py:69-86 | every stored bar of the symbol, market and interval is found as often as it is stored, and no other |
| PriceTable.RecentIsExact | app/domains/prices/repository.py:69-86 | the query returns bars of the series in order of time, at most `limit`; one left out is older than all of them, and there are `limit` of them |
| PriceFeatures.RecentHistorySuffices | app/domains/features/price_builder.py:14-64 | features of the limited query equal features of all stored bars in any order, for limits of at least 252 |
| PriceFeatures.FeaturesAreExact | app/domains/features/price_builder.py:14-64 | of bars with distinct times: the return over 1, 5 and 20 takes the close of the bar with that many newer ones to the newest close, and is missing iff there is none or it is 0; the ratio times the volume of the 20 newest is 20 times the newest; the drawdown takes the greatest of the 252 newest highs to the newest close |
| PriceFeatures.ShorterHistoryMisleads | app/domains/llm_context/context_builder.py:82-87 | no smaller limit suffices |
| PriceFeatures.FeatureRanges | app/domains/features/price_builder.py:14-64 | the features built from sensible bars, in any order: volume ratio in [0, 20], drawdown in [-1, 0] |
| PriceIngestion.PriceIngestionService.CollectAndSave | app/domains/prices/ingestion_service.py:37-106 | the loop over targets with its ledger, on one session that a refused upsert breaks for the rest of the run |
| PriceIngestion.RunBalances | app/domains/prices/ingestion_service.py:37-106 | success + failure = targets, raw saved + skipped = success, received = saved + dropped, warnings at most twice the saved bars, keys stay unique |
| PriceIngestion.TargetSucceedsExactlyWhen | app/domains/prices/ingestion_service.py:37-106 | over every run and for each target: it succeeds iff it is delivered and neither it nor an earlier one repeats a key new to the table; otherwise it fails and stores no bar, and on a broken session nothing at all |
| PriceIngestion.RefusalFailsTheRest | app/domains/prices/ingestion_service.py:91-106 | a run of two targets, the first with two bars for one new key: both fail and the clean one is not stored |
| PriceIngestion.DeliverySucceedsExactlyWhen | app/domains/prices/ingestion_service.py:47-106 | one delivered target succeeds iff the session is intact and no key new to the table comes twice among its kept bars; failing, it leaves the bars alone and the session broken |
| PriceIngestion.TargetCounts | app/domains/prices/ingestion_service.py:47-106 | what a target adds to the ledger and to the payloads kept, if it succeeds and if it fails |
| PriceIngestion.TargetRefreshes | app/domains/prices/repository.py:17-52 | after a success the table holds, field by field, the last kept bar for each key the delivery mentions, and what it held for every other |
| PriceIngestion.RunLeaves | app/domains/prices/ingestion_service.py:37-106 | over every run, row by row: the table holds what the last successful delivery that mentions a key kept last for it, what was there if none mentions it, and nothing else |
| PriceIngestion.DistinctDeliverySucceeds | app/domains/prices/ingestion_service.py:47-90 | a delivery without repeated timestamps succeeds iff the session is intact; then a row holds each kept bar, field by field, under a key no other row has |
| PriceIngestion.CleanRunSucceeds | app/domains/prices/ingestion_service.py:37-106 | on an intact session, if no delivery of a run repeats a timestamp, every delivered target succeeds |
| PriceIngestion.CleanTargetsSucceed | app/domains/prices/ingestion_service.py:37-106 | then the successful deliveries `RunLeaves` speaks of are all the delivered ones, so the last delivery of a key wins |
| WireDecimal.WireShows | app/domains/prices/service.py:139-143 | the wire text is the sign and the fraction in lowest scale |
| WireDecimal.WireRoundTrip | app/domains/prices/service.py:139-143 | reading the wire text gives back the number, and its sign |
| WireDecimal.WireIsCanonical | app/domains/prices/service.py:139-143 | two decimals print identically iff they are equal and have the same sign, whatever their stored scale |
| DecisionChecklist.DecisionChecklistService.SaveNote | app/domains/decision_checklist/service.py:42-60 | the new table and the response of one save, or a refusal for an unknown asset |
| DecisionChecklist.DecidedSinceStreakBegan | app/domains/decision_checklist/service.py:98-110 | over every history the stored note is the last save's; `decided_at` is set iff it is complete, to the clock at the first save of the current streak of complete saves |
| DecisionChecklist.ShownAfterSaves | app/domains/decision_checklist/service.py:37-99 | what is shown after any history: nothing checked without a save, else the four items as the last save checked them, complete iff its memo has text and all four are checked, and decided iff complete, since the first save of that streak |
| DecisionChecklist.UniqueInOrder | app/domains/decision_checklist/service.py:49-49 | stored keys are in the order in which they first came |
| DecisionChecklist.DecisionChecklistService.GetChecklist | app/domains/decision_checklist/service.py:37-40 | the response for the stored note or for none, or a refusal for an unknown asset |

## Left out

- Injectivity of SHA-256 and of canonical JSON is taken for granted: a cache key is its material. Expiry is counted in whole seconds.
- Prompt texts, client timeouts and logging of the gateway. A schema is a title and the kinds of its fields, without the coercions of lax validation or a NaN confidence.
- A payload that is not a CloudSafePayload and has no `as_payload()`: on a route that is not the cloud it raises before anything is sent, whereas the model takes every payload to have one.
- A Redis command that was applied although its reply was lost: only a request that is never moved again covers it.
- The `future_primary` column of the route table, which the resolver does not use.
- Rounding of decimals to 28 digits and to column scales (decimals are reals), and the labels and descriptions of exposures.
- URL splitting and symbol resolution: canonicalization is one fixed function and resolution one fixed map; upper-casing is done for ASCII letters only. The staleness status of news is left out.
- Reasons and evidence of signals, texts of reports, and the stored conflict verdicts of a thesis.
- Signals posted directly through the API: they bypass deduplication and are outside the invariants of the signal store.
- Deletion of rows, and rows of watchlists, theses, users and decision logs: they would add only easy members.
- `active_signal_types_by_asset`, `build_alert_responses`, listing and counting queries, dashboards and index quotes: projections without invariants of their own.
- The concentration, dashboard, watchlist and context snapshots and their bands (`app/adapters/llm/privacy.py:202-389`): only the portfolio briefing is modelled.
- HTTP endpoints, authentication, middleware, job scheduling, and real market, news and model providers: foreign calls and configuration.
