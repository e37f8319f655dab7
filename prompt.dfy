/** The data lines of the prompt `generatePrompt` renders from an analysis request. The fixed
    instruction text around them (the role, the rubric, the requested JSON shape) is constant
    and not reproduced. */
module Prompt {
  import opened Wrappers
  import opened JsText
  import opened JsNumber
  import opened ServiceTypes
  import opened Vitals

  /** The parenthesised note after the temperature: a fever band for a number, nothing for a text. */
  function TemperatureNote(t: Temperature): (note: string)
    ensures t.Text? ==> note == ""
    ensures t.Num? ==> note == BandNote(Band(Value(t.value)))
  {
    match t
    case Num(d) => BandNote(Band(Value(d)))
    case Text(_) => ""
  }

  /** `${temperature}`: a number in its shortest decimal form, a text as it is. */
  function TemperatureText(t: Temperature): string
  {
    match t
    case Num(d) => NumberText(d)
    case Text(s) => s
  }

  /** `Array.prototype.join` writes `undefined` elements as empty strings. */
  function PartText(p: Option<string>): string
  {
    match p
    case None => ""
    case Some(name) => name
  }

  function PartTexts(parts: seq<Option<string>>): (r: seq<string>)
    ensures |r| == |parts|
    ensures forall i :: 0 <= i < |parts| ==> r[i] == PartText(parts[i])
  {
    if |parts| == 0 then [] else [PartText(parts[0])] + PartTexts(parts[1..])
  }

  const SEPARATOR: string := "、"
  const UNKNOWN_DURATION: string := "未知"

  /** The four data lines: body parts and symptoms joined with `、` in their given order, the
      temperature with its unit and note (`°C` only for a number), and the duration or `未知`. */
  function DataLines(data: Intake): (lines: seq<string>)
    ensures |lines| == 4
    ensures lines[0] == "- 症狀位置：" + Join(PartTexts(data.bodyParts), SEPARATOR)
    ensures lines[1] == "- 主要症狀：" + Join(data.symptoms, SEPARATOR)
    ensures data.vitalSigns.temperature.Text? ==>
      lines[2] == "- 體溫：" + data.vitalSigns.temperature.text + " "
    ensures data.vitalSigns.temperature.Num? ==>
      var x := data.vitalSigns.temperature.value;
      lines[2] == "- 體溫：" + NumberText(x) + "°C" + " " + BandNote(Band(Value(x)))
    ensures data.vitalSigns.duration == "" ==> lines[3] == "- 持續時間：" + UNKNOWN_DURATION
    ensures data.vitalSigns.duration != "" ==> lines[3] == "- 持續時間：" + data.vitalSigns.duration
  {
    var t := data.vitalSigns.temperature;
    var unit := if t.Num? then "°C" else "";
    [ "- 症狀位置：" + Join(PartTexts(data.bodyParts), SEPARATOR),
      "- 主要症狀：" + Join(data.symptoms, SEPARATOR),
      "- 體溫：" + TemperatureText(t) + unit + " " + TemperatureNote(t),
      "- 持續時間：" + (if data.vitalSigns.duration == "" then UNKNOWN_DURATION else data.vitalSigns.duration) ]
  }

  /** The first request of the connectivity page: 38.5 °C is annotated as a moderate fever. */
  lemma ModerateFeverFixture()
    ensures var d := Intake(["發燒", "咳嗽"], [Some("頭部"), Some("胸部")],
                            VitalSigns(Num(Decimal(false, 385, 1)), "1-3d"));
      DataLines(d)[2] == "- 體溫：38.5°C （中度發燒）"
  {
    var x := Decimal(false, 385, 1);
    var d := Intake(["發燒", "咳嗽"], [Some("頭部"), Some("胸部")], VitalSigns(Num(x), "1-3d"));
    ThirtyEightFiveText();
    assert TemperatureNote(Num(x)) == "（中度發燒）" by {
      assert Value(x) == 38.5;
    }
    assert DataLines(d)[2] == "- 體溫：" + "38.5" + "°C" + " " + "（中度發燒）";
  }

  /** `String(38.5)` is `38.5`. */
  lemma ThirtyEightFiveText()
    ensures NumberText(Decimal(false, 385, 1)) == "38.5"
  {
    var x := Decimal(false, 385, 1);
    assert Normalize(x) == x;
    assert Pow10(1) == 10;
    assert NatText(38) == "38";
    assert NatText(5) == "5";
    assert PadDigits(5, 1) == "5";
  }

  /** 39.5 °C is a high fever: the higher band wins over the lower ones it also exceeds. */
  lemma HighFeverWins()
    ensures TemperatureNote(Num(Decimal(false, 395, 1))) == "（高燒）"
  {
    assert Value(Decimal(false, 395, 1)) == 39.5;
  }
}
