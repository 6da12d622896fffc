/** Routing, the privacy gate and the escalation policy: the pure decisions of the gateway. */
module LlmPolicy {
  import opened Common
  import opened LlmTypes

  /** The routes in force at launch: every task goes to the cloud. */
  const LAUNCH_ROUTES: map<TaskType, Slot> :=
    map[NewsSummary := Cloud, ThesisConflict := Cloud, PortfolioBriefing := Cloud, DashboardBriefing := Cloud,
        WatchlistNote := Cloud, TagSentiment := Cloud, Agent := Cloud]

  function Resolve(routes: map<TaskType, Slot>, task: TaskType): Result<Slot, LlmError> {
    if task in routes then Ok(routes[task]) else Err(RouteUndefined(task))
  }

  const CLOUD_ALLOWED: set<Sensitivity> := {AGGREGATED, PUBLIC}

  /** A payload may cross the cloud boundary. */
  predicate CloudAllowed(payload: Payload) {
    payload.cloudSafe && payload.sensitivity in CLOUD_ALLOWED
  }

  function Guard(payload: Payload): (guarded: Result<Payload, LlmError>)
    ensures guarded.Ok? <==> payload.cloudSafe && (payload.sensitivity == AGGREGATED || payload.sensitivity == PUBLIC)
    ensures guarded.Ok? ==> guarded.value == payload
    ensures guarded.Err? ==>
              guarded.error == if payload.cloudSafe then SensitivityForbidden(payload.sensitivity) else NotCloudSafe
  {
    if !payload.cloudSafe then Err(NotCloudSafe)
    else if payload.sensitivity !in CLOUD_ALLOWED then Err(SensitivityForbidden(payload.sensitivity))
    else Ok(payload)
  }

  /** An escalation policy; `confidenceThreshold` is optional. */
  datatype Policy = Policy(confidenceThreshold: Option<real>)

  /** A signal that asks for the stronger provider. */
  predicate Triggers(signal: Signal) {
    || signal.riskLevel == HIGH
    || signal.lossSpike
    || signal.newsSentimentSwing
    || signal.eventFlag
    || signal.tradeQuestion
  }

  predicate ShouldEscalateBefore(signal: Signal, resolved: Slot) {
    resolved == Local && Triggers(signal)
  }

  predicate ShouldVerifyAfter(policy: Policy, output: JsonObject, schema: Schema, first: Slot) {
    if first == Cloud then false
    else if && policy.confidenceThreshold.Some?
            && "confidence" in output
            && output["confidence"].JNumber?
            && output["confidence"].number < policy.confidenceThreshold.value
    then true
    else !Conforms(output, schema)
  }
}
