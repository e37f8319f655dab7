/** The response cache of the API client: one map shared by free-form questions and triage
    requests, entries stamped when stored, freshness checked lazily on every read, nothing
    ever evicted. */
module ResponseCache {
  import opened Wrappers
  import opened ServiceTypes
  import JsNumber

  /** Two hours, in milliseconds. */
  const CACHE_DURATION: int := 1000 * 60 * 120

  /** A question is cached under its own text; a triage request under its serialisation,
      modelled as the request value in canonical form (see `RequestKey`). */
  datatype Key = QuestionKey(question: string) | IntakeKey(intake: Intake)

  /** A temperature as `JSON.stringify` writes it: a number by the double it denotes, a text
      as it is. */
  function SerializedTemperature(t: Temperature): (r: Temperature)
    ensures t.Text? ==> r == t
    ensures t.Num? ==> r.Num? && JsNumber.Value(r.value) == JsNumber.Value(t.value)
  {
    match t
    case Num(d) => Num(JsNumber.Canonical(d))
    case Text(_) => t
  }

  /** `JSON.stringify(data)` as a cache key. Strings and arrays serialise injectively; a
      number serialises by its value, so `38` and `38.0` typed in the form share a key. */
  function RequestKey(data: Intake): (k: Key)
    ensures k.IntakeKey?
  {
    var v := data.vitalSigns;
    IntakeKey(Intake(data.symptoms, data.bodyParts,
                     VitalSigns(SerializedTemperature(v.temperature), v.duration)))
  }

  /** Two temperatures serialise alike: numbers of one value, or one text. */
  predicate SameTemperature(a: Temperature, b: Temperature) {
    || (a.Num? && b.Num? && JsNumber.Value(a.value) == JsNumber.Value(b.value))
    || (a.Text? && b.Text? && a.text == b.text)
  }

  /** Two requests share a key exactly when they agree field by field, temperatures compared
      as serialised. */
  lemma RequestKeyIff(a: Intake, b: Intake)
    ensures RequestKey(a) == RequestKey(b) <==>
      && a.symptoms == b.symptoms && a.bodyParts == b.bodyParts
      && a.vitalSigns.duration == b.vitalSigns.duration
      && SameTemperature(a.vitalSigns.temperature, b.vitalSigns.temperature)
  {
    var ta, tb := a.vitalSigns.temperature, b.vitalSigns.temperature;
    if ta.Num? && tb.Num? {
      JsNumber.CanonicalIff(ta.value, tb.value);
    }
  }

  /** What is cached: the answer text of `askAI`, or the assessment of `analyzeSymptoms`. */
  datatype Cached = Answer(text: string) | Assessed(assessment: Assessment)

  datatype Entry = Entry(data: Cached, timestamp: int)

  type Cache = map<Key, Entry>

  /** JavaScript truthiness of a cached value: an assessment is an object, an answer a string. */
  predicate IsTruthy(d: Cached) {
    d.Answer? ==> d.text != ""
  }

  /** What the two writers store: intake keys hold assessments, question keys hold non-empty
      answers. */
  predicate WellTyped(c: Cache) {
    forall k :: k in c ==>
      && (k.IntakeKey? ==> c[k].data.Assessed?)
      && (k.QuestionKey? ==> c[k].data.Answer? && c[k].data.text != "")
  }

  /** `checkCache(key)` at clock reading `now`. */
  function CheckCache(c: Cache, key: Key, now: int): (r: Option<Cached>)
    ensures r.Some? <==> key in c && now - c[key].timestamp < CACHE_DURATION
    ensures r.Some? ==> r.value == c[key].data
  {
    if key in c && now - c[key].timestamp < CACHE_DURATION then Some(c[key].data) else None
  }

  /** `setCache(key, data)` at clock reading `now`: overwrite unconditionally. */
  function SetCache(c: Cache, key: Key, data: Cached, now: int): (c': Cache)
    ensures c'.Keys == c.Keys + {key}
    ensures c'[key] == Entry(data, now)
    ensures forall k :: k in c && k != key ==> c'[k] == c[k]
  {
    c[key := Entry(data, now)]
  }

  /** An entry is served for exactly two hours after it was stored. */
  lemma FreshnessWindow(c: Cache, key: Key, data: Cached, stored: int, now: int)
    ensures CheckCache(SetCache(c, key, data, stored), key, now)
         == if now - stored < CACHE_DURATION then Some(data) else None
  {
  }

  /** Storing leaves every other key's lookups as they were. */
  lemma OtherKeysUntouched(c: Cache, key: Key, data: Cached, stored: int, other: Key, now: int)
    requires other != key
    ensures CheckCache(SetCache(c, key, data, stored), other, now) == CheckCache(c, other, now)
  {
  }

  /** A miss stays a miss as the clock advances, as long as nothing is stored. */
  lemma MissPersists(c: Cache, key: Key, t: int, later: int)
    requires t <= later && CheckCache(c, key, t).None?
    ensures CheckCache(c, key, later).None?
  {
  }

  /** Storing what the writers store keeps the cache well typed. */
  lemma StoreKeepsWellTyped(c: Cache, key: Key, data: Cached, now: int)
    requires WellTyped(c)
    requires key.IntakeKey? ==> data.Assessed?
    requires key.QuestionKey? ==> data.Answer? && data.text != ""
    ensures WellTyped(SetCache(c, key, data, now))
  {
  }
}
