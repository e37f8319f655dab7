/** Temperature handling of the API client: the plausibility check run before any request,
    and the fever bands the prompt annotates a temperature with. */
module Vitals {
  import opened Wrappers

  const TEMPERATURE_MIN: real := 35.0
  const TEMPERATURE_MAX: real := 42.5
  const NORMAL_MIN: real := 36.3
  const NORMAL_MAX: real := 37.2

  /** The message `validateTemperature` throws. */
  const TEMPERATURE_ERROR: string := "體溫數值異常（35°C ~ 42.5°C 為合理範圍）"

  /** `validateTemperature` on a number; `None` is `NaN`. True means the check passes, false
      that it throws `TEMPERATURE_ERROR`. */
  function ValidateTemperature(t: Option<real>): (ok: bool)
    ensures ok <==> t.None? || TEMPERATURE_MIN <= t.value <= TEMPERATURE_MAX
  {
    match t
    case None => true
    case Some(x) => !(x < TEMPERATURE_MIN || x > TEMPERATURE_MAX)
  }

  /** The annotation `generatePrompt` chooses for a numeric temperature. */
  datatype FeverBand =
    | ExtremeFever
    | HighFever
    | ModerateFever
    | MildFever
    | Hypothermia
    | NormalRange
    | Unlabelled

  /** The first band of the chain that matches, in the order `>= 41`, `>= 39`, `>= 38`,
      `>= 37.5`, `<= 35`, `36.3..37.2`. Every temperature lands in exactly one band. */
  function Band(x: real): (b: FeverBand)
    ensures b == ExtremeFever <==> x >= 41.0
    ensures b == HighFever <==> 39.0 <= x < 41.0
    ensures b == ModerateFever <==> 38.0 <= x < 39.0
    ensures b == MildFever <==> 37.5 <= x < 38.0
    ensures b == Hypothermia <==> x <= 35.0
    ensures b == NormalRange <==> NORMAL_MIN <= x <= NORMAL_MAX
    ensures b == Unlabelled <==> (35.0 < x < NORMAL_MIN) || (NORMAL_MAX < x < 37.5)
  {
    if x >= 41.0 then ExtremeFever
    else if x >= 39.0 then HighFever
    else if x >= 38.0 then ModerateFever
    else if x >= 37.5 then MildFever
    else if x <= 35.0 then Hypothermia
    else if x >= NORMAL_MIN && x <= NORMAL_MAX then NormalRange
    else Unlabelled
  }

  /** The note text of each band; a temperature outside every band gets an empty note. */
  function BandNote(b: FeverBand): string
  {
    match b
    case ExtremeFever => "（極度高燒，非常危險）"
    case HighFever => "（高燒）"
    case ModerateFever => "（中度發燒）"
    case MildFever => "（輕度發燒）"
    case Hypothermia => "（體溫過低，需要注意）"
    case NormalRange => "（正常體溫範圍）"
    case Unlabelled => ""
  }

  /** The note is empty exactly in the gaps (35, 36.3) and (37.2, 37.5). */
  lemma EmptyNoteOnlyInGaps(x: real)
    ensures BandNote(Band(x)) == "" <==> (35.0 < x < NORMAL_MIN) || (NORMAL_MAX < x < 37.5)
  {
  }

  /** Every temperature that passes validation and carries a fever note is at least 37.5. */
  lemma FeverNotesArePlausibleFevers(x: real)
    requires ValidateTemperature(Some(x))
    requires Band(x) in {ExtremeFever, HighFever, ModerateFever, MildFever}
    ensures 37.5 <= x <= TEMPERATURE_MAX
  {
  }
}
