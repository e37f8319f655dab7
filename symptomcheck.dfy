/** The symptom-check page: its selection updaters, the vital-signs merge, the request it
    builds for `analyzeSymptoms`, and the page state a submission leaves behind. */
module SymptomCheck {
  import opened Wrappers
  import opened JsText
  import opened JsNumber
  import opened ServiceTypes
  import opened Selection
  import opened BodyPartMap
  import opened ServiceCalls
  import ResponseCache
  import AiService

  // ---------------------------------------------------------------------------------------
  // Symptoms kept when the body-part selection changes
  // ---------------------------------------------------------------------------------------

  /** `bodyParts.some(part => part.symptoms.includes(symptom))`. */
  predicate IsPredefined(symptom: string) {
    exists i :: 0 <= i < |BODY_PARTS| && symptom in BODY_PARTS[i].symptoms
  }

  /** `parts.some(partId => bodyParts.find(part => part.id === partId)?.symptoms.includes(symptom))`. */
  predicate ListedBy(parts: seq<string>, symptom: string) {
    exists k :: 0 <= k < |parts| && Find(BODY_PARTS, parts[k]).Some? &&
                symptom in Find(BODY_PARTS, parts[k]).value.symptoms
  }

  /** The filter of `handleBodyPartSelect`: a symptom stays if it is the user's own or some
      newly selected part lists it. */
  function KeepForParts(parts: seq<string>, symptoms: seq<string>): (r: seq<string>)
    ensures forall s :: s in r <==> s in symptoms && (!IsPredefined(s) || ListedBy(parts, s))
  {
    FilterMembers(symptoms, KeepRule(parts));
    Filter(symptoms, KeepRule(parts))
  }

  /** The test of that filter. */
  function KeepRule(parts: seq<string>): string -> bool {
    s => !IsPredefined(s) || ListedBy(parts, s)
  }

  /** The kept symptoms are the old ones in their order; the filter never adds. */
  lemma KeepForPartsIsSubsequence(parts: seq<string>, symptoms: seq<string>)
    ensures IsSubsequence(KeepForParts(parts, symptoms), symptoms)
    ensures |KeepForParts(parts, symptoms)| <= |symptoms|
  {
    FilterIsSubsequence(symptoms, KeepRule(parts));
  }

  /** A symptom typed in by the user is listed by no part and always survives. */
  lemma {:induction false} CustomSymptomKept(parts: seq<string>, symptoms: seq<string>, s: string)
    requires s in symptoms
    requires forall i :: 0 <= i < |BODY_PARTS| ==> s !in BODY_PARTS[i].symptoms
    ensures s in KeepForParts(parts, symptoms)
  {
  }

  /** A predefined symptom survives exactly when one of the new parts is a table entry that
      lists it. */
  lemma {:induction false} PredefinedKeptIff(parts: seq<string>, symptoms: seq<string>, s: string)
    requires s in symptoms && IsPredefined(s)
    ensures s in KeepForParts(parts, symptoms) <==>
      exists i :: 0 <= i < |BODY_PARTS| && BODY_PARTS[i].id in parts && s in BODY_PARTS[i].symptoms
  {
    if s in KeepForParts(parts, symptoms) {
      var k :| 0 <= k < |parts| && Find(BODY_PARTS, parts[k]).Some? &&
               s in Find(BODY_PARTS, parts[k]).value.symptoms;
      var i :| 0 <= i < |BODY_PARTS| && BODY_PARTS[i] == Find(BODY_PARTS, parts[k]).value &&
               BODY_PARTS[i].id == parts[k];
    }
    if exists i :: 0 <= i < |BODY_PARTS| && BODY_PARTS[i].id in parts && s in BODY_PARTS[i].symptoms {
      var i :| 0 <= i < |BODY_PARTS| && BODY_PARTS[i].id in parts && s in BODY_PARTS[i].symptoms;
      var k :| 0 <= k < |parts| && parts[k] == BODY_PARTS[i].id;
      FindEachPart(i);
      assert ListedBy(parts, s);
    }
  }

  // ---------------------------------------------------------------------------------------
  // Vital signs
  // ---------------------------------------------------------------------------------------

  /** The form's vital signs, as the inputs hold them. */
  datatype VitalsForm = VitalsForm(temperature: string, duration: string)

  const INITIAL_VITALS: VitalsForm := VitalsForm("", "")

  /** An object passed to `onChange`: the keys it has. */
  datatype VitalsUpdate = VitalsUpdate(temperature: Option<string>, duration: Option<string>)

  /** `{ ...prev, ...data }`: a key of the update overrides, every other key keeps its value. */
  function MergeVitals(prev: VitalsForm, update: VitalsUpdate): (r: VitalsForm)
    ensures update.temperature.Some? ==> r.temperature == update.temperature.value
    ensures update.temperature.None? ==> r.temperature == prev.temperature
    ensures update.duration.Some? ==> r.duration == update.duration.value
    ensures update.duration.None? ==> r.duration == prev.duration
  {
    VitalsForm(
      if update.temperature.Some? then update.temperature.value else prev.temperature,
      if update.duration.Some? then update.duration.value else prev.duration)
  }

  /** Merging the same update twice is merging it once, and an empty update changes nothing. */
  lemma MergeIdempotent(prev: VitalsForm, update: VitalsUpdate)
    ensures MergeVitals(MergeVitals(prev, update), update) == MergeVitals(prev, update)
    ensures MergeVitals(prev, VitalsUpdate(None, None)) == prev
  {
  }

  // ---------------------------------------------------------------------------------------
  // The request sent to analyzeSymptoms
  // ---------------------------------------------------------------------------------------

  const UNKNOWN_CHOICE: string := "unknown"
  const UNKNOWN_TEMPERATURE: string := "未知"
  /** 36.5, the fallback of `|| 36.5`. */
  const FALLBACK_TEMPERATURE: Decimal := Decimal(false, 365, 1)

  /** `temperature === 'unknown' ? '未知' : (parseFloat(temperature) || 36.5)`. */
  function ShapeTemperature(t: string): (r: Temperature)
    ensures t == UNKNOWN_CHOICE <==> r == Text(UNKNOWN_TEMPERATURE)
    ensures t != UNKNOWN_CHOICE ==> r.Num? && JsNumber.IsTruthy(r.value)
    ensures t != UNKNOWN_CHOICE && ParseFloat(t).Some? && JsNumber.IsTruthy(ParseFloat(t).value) ==>
      r == Num(ParseFloat(t).value)
    ensures t != UNKNOWN_CHOICE && !(ParseFloat(t).Some? && JsNumber.IsTruthy(ParseFloat(t).value)) ==>
      r.Num? && Value(r.value) == 36.5
  {
    if t == UNKNOWN_CHOICE then Text(UNKNOWN_TEMPERATURE)
    else
      match ParseFloat(t)
      case Some(d) => if JsNumber.IsTruthy(d) then Num(d) else Num(FALLBACK_TEMPERATURE)
      case None => Num(FALLBACK_TEMPERATURE)
  }

  /** `bodyParts.find(part => part.id === partId)?.name`. */
  function PartName(id: string): (name: Option<string>)
    ensures name.None? <==> forall i :: 0 <= i < |BODY_PARTS| ==> BODY_PARTS[i].id != id
  {
    match Find(BODY_PARTS, id)
    case None => None
    case Some(part) => Some(part.name)
  }

  /** Each id of the table maps to its part's name. */
  lemma {:induction false} PartNameOfEachPart(i: nat)
    requires i < |BODY_PARTS|
    ensures PartName(BODY_PARTS[i].id) == Some(BODY_PARTS[i].name)
  {
    FindEachPart(i);
  }

  /** `analysisData`: the symptoms as selected, one part name (or `undefined`) per selected id
      in the same order, the shaped temperature and the duration as typed. */
  function Payload(symptoms: seq<string>, parts: seq<string>, vitals: VitalsForm): (data: Intake)
    ensures data.symptoms == symptoms
    ensures |data.bodyParts| == |parts|
    ensures forall k :: 0 <= k < |parts| ==> data.bodyParts[k] == PartName(parts[k])
    ensures data.vitalSigns == VitalSigns(ShapeTemperature(vitals.temperature), vitals.duration)
  {
    Intake(symptoms, PartNames(parts), VitalSigns(ShapeTemperature(vitals.temperature), vitals.duration))
  }

  function PartNames(parts: seq<string>): (r: seq<Option<string>>)
    ensures |r| == |parts|
    ensures forall k :: 0 <= k < |parts| ==> r[k] == PartName(parts[k])
  {
    if |parts| == 0 then [] else [PartName(parts[0])] + PartNames(parts[1..])
  }

  /** The page never sends the `'unknown'` sentinel the service recognises: "unknown" arrives
      as `'未知'`, which `parseFloat` reads as `NaN`, so the range check lets it through. */
  lemma UnknownReachesServiceAsNaN(symptoms: seq<string>, parts: seq<string>, vitals: VitalsForm)
    requires vitals.temperature == UNKNOWN_CHOICE
    ensures var t := Payload(symptoms, parts, vitals).vitalSigns.temperature;
      t != Text(UNKNOWN_CHOICE) && ParsedTemperature(t).None? && TemperatureAccepted(t)
  {
    var u := UNKNOWN_TEMPERATURE;
    assert !IsWhitespace(u[0]);
    assert LeadingSpace(u) == 0;
    assert !StartsNumber(Unsigned(u));
  }

  /** Whatever the form holds, the temperature sent is never the sentinel, and a number sent is
      never zero. */
  lemma SentinelNeverSent(symptoms: seq<string>, parts: seq<string>, vitals: VitalsForm)
    ensures var t := Payload(symptoms, parts, vitals).vitalSigns.temperature;
      t != Text(UNKNOWN_CHOICE) && (t.Num? ==> Value(t.value) != 0.0)
  {
    var t := Payload(symptoms, parts, vitals).vitalSigns.temperature;
    if t.Num? {
      assert t.value.digits > 0;
      assert Pow10(t.value.scale) as real > 0.0;
    }
  }

  /** Two spellings of one temperature in the form, such as `38` and `38.0`, give requests
      with one cache key: the second is served from the cache like the first. */
  lemma TemperatureSpellingsShareKey(symptoms: seq<string>, parts: seq<string>, a: string, b: string,
                                     duration: string)
    requires a != UNKNOWN_CHOICE && b != UNKNOWN_CHOICE
    requires ParseFloat(a).Some? && ParseFloat(b).Some?
    requires Value(ParseFloat(a).value) == Value(ParseFloat(b).value) != 0.0
    ensures ResponseCache.RequestKey(Payload(symptoms, parts, VitalsForm(a, duration)))
         == ResponseCache.RequestKey(Payload(symptoms, parts, VitalsForm(b, duration)))
  {
    ZeroValue(ParseFloat(a).value);
    ZeroValue(ParseFloat(b).value);
    ResponseCache.RequestKeyIff(Payload(symptoms, parts, VitalsForm(a, duration)),
                                Payload(symptoms, parts, VitalsForm(b, duration)));
  }

  /** Typing a whole number and then the same number with `.0`, such as `38` and `38.0`,
      sends two requests with one cache key. */
  lemma PointZeroSharesKey(symptoms: seq<string>, parts: seq<string>, w: string, duration: string)
    requires |w| > 0 && AllDigits(w) && DigitsValue(w) != 0
    ensures ResponseCache.RequestKey(Payload(symptoms, parts, VitalsForm(w, duration)))
         == ResponseCache.RequestKey(Payload(symptoms, parts, VitalsForm(w + ".0", duration)))
  {
    WholeLiteral(w);
    PointZeroLiteral(w);
    ScaleDown(DigitsValue(w), 0);
    assert w != UNKNOWN_CHOICE by {
      assert IsDigit(w[0]) && !IsDigit(UNKNOWN_CHOICE[0]);
    }
    assert w + ".0" != UNKNOWN_CHOICE by {
      assert (w + ".0")[0] == w[0];
      assert !IsDigit(UNKNOWN_CHOICE[0]);
    }
    TemperatureSpellingsShareKey(symptoms, parts, w, w + ".0", duration);
  }

  /** Typing `38` and then `38.0`: the second request is served from the first one's entry. */
  lemma ThirtyEightSharesKey(symptoms: seq<string>, parts: seq<string>, whole: string, pointed: string,
                             duration: string)
    requires whole == "38" && pointed == "38.0"
    ensures ResponseCache.RequestKey(Payload(symptoms, parts, VitalsForm(whole, duration)))
         == ResponseCache.RequestKey(Payload(symptoms, parts, VitalsForm(pointed, duration)))
  {
    assert whole + ".0" == pointed;
    assert AllDigits(whole) && DigitsValue(whole) == 38 by {
      assert whole[..1] == "3" && "3"[..0] == "";
      assert DigitOf('3') == 3 && DigitOf('8') == 8;
    }
    PointZeroSharesKey(symptoms, parts, whole, duration);
  }

  /** `parseFloat` of a digit string is its value. */
  lemma WholeLiteral(w: string)
    requires |w| > 0 && AllDigits(w)
    ensures ParseFloat(w) == Some(Decimal(false, DigitsValue(w), 0))
  {
    SignedText("", w);
    assert "" + w == w;
    DigitRunOf(w, "");
    assert w + "" == w && w[..|w|] == w;
    ParseFloatReadsLiteral(w);
  }

  /** `parseFloat` of a digit string followed by `.0` is ten times its value at scale one. */
  lemma PointZeroLiteral(w: string)
    requires |w| > 0 && AllDigits(w)
    ensures ParseFloat(w + ".0") == Some(Decimal(false, DigitsValue(w) * 10, 1))
  {
    PointZeroRead(w);
    ParseFloatReadsLiteral(w + ".0");
  }

  lemma PointZeroRead(w: string)
    requires |w| > 0 && AllDigits(w)
    ensures ReadLiteral(w + ".0") == Some(Decimal(false, DigitsValue(w) * 10, 1))
  {
    PointZeroText(w);
    ReadSignedPointed("", w, "0");
    AppendZero(w);
  }

  lemma PointZeroText(w: string)
    ensures "" + (w + "." + "0") == w + ".0"
  {
  }

  /** Appending the digit `0` multiplies the value by ten. */
  lemma AppendZero(w: string)
    requires AllDigits(w)
    ensures AllDigits(w + "0") && DigitsValue(w + "0") == DigitsValue(w) * 10
  {
    var t := w + "0";
    assert t[..|w|] == w && t[|w|] == '0';
    assert DigitOf('0') == 0;
  }

  // ---------------------------------------------------------------------------------------
  // The page
  // ---------------------------------------------------------------------------------------

  const SUBMIT_ERROR: string := "分析過程中發生錯誤，請稍後重試"

  /** The state hooks of the page. */
  class Page {
    var selectedSymptoms: seq<string>
    var selectedBodyParts: seq<string>
    var vitalSigns: VitalsForm
    var assessmentResult: Option<Assessment>
    var isAnalyzing: bool
    var error: Option<string>

    constructor()
      ensures selectedSymptoms == [] && selectedBodyParts == [] && vitalSigns == INITIAL_VITALS
      ensures assessmentResult == None && !isAnalyzing && error == None
    {
      selectedSymptoms := [];
      selectedBodyParts := [];
      vitalSigns := INITIAL_VITALS;
      assessmentResult := None;
      isAnalyzing := false;
      error := None;
    }

    /** `handleSymptomSelect`: toggle the symptom. */
    method SelectSymptom(symptom: string)
      modifies this
      ensures selectedSymptoms == Toggle(old(selectedSymptoms), symptom)
      ensures selectedBodyParts == old(selectedBodyParts) && vitalSigns == old(vitalSigns)
      ensures assessmentResult == old(assessmentResult) && error == old(error)
      ensures isAnalyzing == old(isAnalyzing)
    {
      selectedSymptoms := Toggle(selectedSymptoms, symptom);
    }

    /** `handleBodyPartSelect`: take the new parts and drop the predefined symptoms none of
        them lists. */
    method SelectBodyParts(parts: seq<string>)
      modifies this
      ensures selectedBodyParts == parts
      ensures selectedSymptoms == KeepForParts(parts, old(selectedSymptoms))
      ensures vitalSigns == old(vitalSigns)
      ensures assessmentResult == old(assessmentResult) && error == old(error)
      ensures isAnalyzing == old(isAnalyzing)
    {
      selectedBodyParts := parts;
      selectedSymptoms := KeepForParts(parts, selectedSymptoms);
    }

    /** `handleVitalSignsChange`. */
    method ChangeVitals(update: VitalsUpdate)
      modifies this
      ensures vitalSigns == MergeVitals(old(vitalSigns), update)
      ensures selectedSymptoms == old(selectedSymptoms) && selectedBodyParts == old(selectedBodyParts)
      ensures assessmentResult == old(assessmentResult) && error == old(error)
      ensures isAnalyzing == old(isAnalyzing)
    {
      vitalSigns := MergeVitals(vitalSigns, update);
    }

    /** `handleSubmit` at clock reading `now`: the request goes to `analyzeSymptoms`; a result
        is shown, any thrown error replaced by one generic message, and the spinner stops. */
    method Submit(service: AiService.Service, now: int, net: Network, parse: JsonParser)
      requires service.Valid()
      modifies this, service
      ensures service.Valid()
      ensures var a := Analyze(old(service.State()),
                               Payload(old(selectedSymptoms), old(selectedBodyParts), old(vitalSigns)),
                               0, now, net, parse);
        && service.State() == a.state
        && (a.result.Success? ==> assessmentResult == Some(a.result.value) && error == None)
        && (a.result.Failure? ==> assessmentResult == old(assessmentResult) && error == Some(SUBMIT_ERROR))
      ensures !isAnalyzing
      ensures selectedSymptoms == old(selectedSymptoms) && selectedBodyParts == old(selectedBodyParts)
      ensures vitalSigns == old(vitalSigns)
    {
      isAnalyzing := true;
      error := None;
      var data := Payload(selectedSymptoms, selectedBodyParts, vitalSigns);
      var result, _ := service.AnalyzeSymptoms(data, 0, now, net, parse);
      if result.Success? {
        assessmentResult := Some(result.value);
      } else {
        error := Some(SUBMIT_ERROR);
      }
      isAnalyzing := false;
    }
  }
}
