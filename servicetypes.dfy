/** The values that cross the boundary of the API client: the analysis request the symptom
    page builds, the JSON the model answers with, the normalised assessment, and what one
    HTTP exchange produced. */
module ServiceTypes {
  import opened Wrappers
  import opened JsNumber

  /** `vitalSigns.temperature`: a number, or a text such as `'未知'` or the sentinel `'unknown'`. */
  datatype Temperature = Num(value: Decimal) | Text(text: string)

  /** `vitalSigns.duration` is one of the form's bucket strings, `''` when none was chosen. */
  datatype VitalSigns = VitalSigns(temperature: Temperature, duration: string)

  /** The analysis request. A body part whose id has no table entry is `undefined` in the
      source; here it is `None`. */
  datatype Intake = Intake(symptoms: seq<string>, bodyParts: seq<Option<string>>, vitalSigns: VitalSigns)

  /** A value produced by `JSON.parse`. */
  datatype Json =
    | JNull
    | JBool(b: bool)
    | JNumber(n: real)
    | JString(s: string)
    | JArray(items: seq<Json>)
    | JObject(members: map<string, Json>)

  /** JavaScript truthiness of a parsed value. */
  predicate IsTruthy(v: Json) {
    match v
    case JNull => false
    case JBool(b) => b
    case JNumber(n) => n != 0.0
    case JString(s) => s != ""
    case JArray(_) => true
    case JObject(_) => true
  }

  /** `v[name]` for a parsed value; `None` is `undefined`. Arrays and primitives have none of
      the named properties the client reads. */
  function Property(v: Json, name: string): Option<Json>
  {
    if v.JObject? && name in v.members then Some(v.members[name]) else None
  }

  /** The normalised triage result: exactly five fields. */
  datatype Assessment = Assessment(
    diagnosis: Json,
    level: Json,
    advice: Json,
    urgency: Json,
    precautions: seq<Json>)

  /** What one HTTP request produced: the model's reply text, or an error carrying the
      HTTP status (if a response arrived), the error code (such as `ECONNABORTED`), the error
      message and the server's own error message from the response body (`''` if none). */
  datatype Reply =
    | Delivered(content: string)
    | Failed(status: Option<int>, code: Option<string>, message: string, detail: string)

  /** One request: how long the answer took, in milliseconds, and what it was. */
  datatype Exchange = Exchange(latency: nat, reply: Reply)

  /** The network, as seen by the retrying caller: what the n-th attempt gets. */
  type Network = nat -> Exchange

  /** `JSON.parse` on the extracted text: `None` when it throws. */
  type JsonParser = string -> Option<Json>

  /** An `Error` as the `catch` blocks inspect it: message, `error.response?.status`, `error.code`. */
  datatype JsError = JsError(message: string, status: Option<int>, code: Option<string>)

  const TIMEOUT_CODE: string := "ECONNABORTED"

  /** The error a failed HTTP exchange throws. */
  function ReplyError(r: Reply): JsError
    requires r.Failed?
  {
    JsError(r.message, r.status, r.code)
  }

  /** An error thrown by the client's own checks: no response, no code. */
  function Thrown(message: string): JsError
  {
    JsError(message, None, None)
  }
}
