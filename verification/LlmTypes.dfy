/** JSON values, payloads, schemas and outcomes exchanged by the LLM adapters. */
module LlmTypes {
  import opened Common

  /** JSON values. Objects are maps: key order is not observable. */
  datatype Json =
    | JNull
    | JBool(flag: bool)
    | JNumber(number: real)
    | JText(text: string)
    | JArray(items: seq<Json>)
    | JObject(fields: JsonObject)

  type JsonObject = map<string, Json>

  datatype TaskType =
    | NewsSummary
    | ThesisConflict
    | PortfolioBriefing
    | DashboardBriefing
    | WatchlistNote
    | TagSentiment
    | Agent

  datatype Sensitivity = RAW | SEMI | AGGREGATED | PUBLIC

  datatype RiskLevel = LOW | MEDIUM | HIGH

  /** The key of a client in the gateway's client table. */
  datatype Slot = Cloud | Local | Named(name: string)

  /** What a caller hands to the gateway; `cloudSafe` is membership in the CloudSafePayload class. */
  datatype Payload = Payload(cloudSafe: bool, sensitivity: Sensitivity, body: Json)

  datatype FieldKind =
    | TextField
    | FlagField
    | NumberField
    | ChoiceField(options: set<string>)
    | NullableField(of: FieldKind)
    | ListField(of: FieldKind)
    | RecordField(members: seq<(string, Field)>)

  datatype Field = Field(kind: FieldKind, required: bool)

  /** A response model: its title and its fields. Unknown fields are ignored by validation. */
  datatype Schema = Schema(title: string, fields: map<string, Field>)

  predicate HasKind(value: Json, kind: FieldKind)
    decreases kind
  {
    match kind
    case TextField => value.JText?
    case FlagField => value.JBool?
    case NumberField => value.JNumber?
    case ChoiceField(options) => value.JText? && value.text in options
    case NullableField(of) => value.JNull? || HasKind(value, of)
    case ListField(of) => value.JArray? && forall i :: 0 <= i < |value.items| ==> HasKind(value.items[i], of)
    case RecordField(members) =>
      && value.JObject?
      && (forall i :: 0 <= i < |members| ==>
            if members[i].0 in value.fields then HasKind(value.fields[members[i].0], members[i].1.kind)
            else !members[i].1.required)
  }

  /** Whether validating `output` against `schema` raises no validation error. */
  predicate Conforms(output: JsonObject, schema: Schema) {
    forall name :: name in schema.fields ==>
      if name in output then HasKind(output[name], schema.fields[name].kind)
      else !schema.fields[name].required
  }

  /** What fits: an output that leaves out a field exactly if it may, and whose other fields, as far as the schema knows
      them, are of their kinds. */
  lemma ConformsExactly(output: JsonObject, schema: Schema)
    ensures Conforms(output, schema) <==>
              && (forall name :: name in schema.fields && schema.fields[name].required ==> name in output)
              && (forall name :: name in schema.fields && name in output ==>
                    HasKind(output[name], schema.fields[name].kind))
  {
  }

  datatype Signal = Signal(
    riskLevel: RiskLevel,
    lossSpike: bool,
    newsSentimentSwing: bool,
    eventFlag: bool,
    tradeQuestion: bool)

  datatype Client = Client(providerName: string, modelName: string)

  /** The messages of one completion call together with the schema passed along. */
  datatype Call = Call(prompt: string, body: Json, schema: Schema)

  /** How a client answered: a JSON object, or an exception. */
  datatype Answer = Answered(output: JsonObject) | Raised(reason: string)

  datatype LlmError =
    | RouteUndefined(task: TaskType)
    | ClientMissing(slot: Slot)
    | NotCloudSafe
    | SensitivityForbidden(level: Sensitivity)
    | BudgetExceeded
    | RedisUnavailable
    | ClientFailed(reason: string)

  datatype Completion = Completion(
    output: JsonObject,
    provider: string,
    modelName: string,
    cached: bool,
    escalated: bool)

  datatype Request = Request(
    task: TaskType,
    payload: Payload,
    schema: Schema,
    prompt: string,
    signal: Option<Signal>)

  /** A message that left the gateway for the client in `slot`. */
  datatype Sent = Sent(slot: Slot, sensitivity: Sensitivity, cloudSafe: bool, call: Call)
}
