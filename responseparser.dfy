/** How `analyzeSymptoms` turns the model's reply text into an assessment: cut out the span
    from the first `{` to the last `}`, parse it, check the four required fields and keep
    exactly five fields. */
module ResponseParser {
  import opened Wrappers
  import opened JsText
  import opened ServiceTypes

  const FORMAT_ERROR: string := "AI 回應格式錯誤"
  const INVALID_RESPONSE: string := "AI 回應格式無效"
  const MISSING_FIELDS_PREFIX: string := "AI 回應缺少必要欄位: "

  const REQUIRED_FIELDS: seq<string> := ["diagnosis", "level", "advice", "urgency"]

  /** The index of the first occurrence of `c`. */
  function FirstIndex(s: string, c: char): (r: Option<nat>)
    ensures r.None? <==> c !in s
    ensures r.Some? ==> r.value < |s| && s[r.value] == c && c !in s[..r.value]
  {
    if |s| == 0 then None
    else if s[0] == c then Some(0)
    else match FirstIndex(s[1..], c)
      case None => None
      case Some(i) =>
        assert s[..i + 1] == [s[0]] + s[1..][..i];
        Some(i + 1)
  }

  /** The index of the last occurrence of `c`. */
  function LastIndex(s: string, c: char): (r: Option<nat>)
    ensures r.None? <==> c !in s
    ensures r.Some? ==> r.value < |s| && s[r.value] == c && c !in s[r.value + 1..]
  {
    if |s| == 0 then None
    else if s[|s| - 1] == c then Some(|s| - 1)
    else
      var r := LastIndex(s[..|s| - 1], c);
      assert s == s[..|s| - 1] + [s[|s| - 1]];
      if r.Some? then
        assert s[r.value + 1..] == s[..|s| - 1][r.value + 1..] + [s[|s| - 1]];
        r
      else r
  }

  /** `i` is the first `{` of `s` and `j > i` its last `}`. */
  predicate OutermostBraces(s: string, i: int, j: int) {
    && 0 <= i < j < |s|
    && s[i] == '{' && s[j] == '}'
    && '{' !in s[..i] && '}' !in s[j + 1..]
  }

  /** `content.match(/\{[\s\S]*\}/)`: the span from the first `{` to the last `}`, when that
      `}` comes after the `{`. */
  function ExtractJson(content: string): (r: Option<string>)
  {
    match (FirstIndex(content, '{'), LastIndex(content, '}'))
    case (Some(i), Some(j)) => if i < j then Some(content[i..j + 1]) else None
    case _ => None
  }

  /** The greedy match starts at the first `{` and ends at the last `}` after it. There is a
      match exactly when some `{` precedes some `}`. */
  lemma ExtractJsonMatches(content: string)
    ensures var r := ExtractJson(content);
      && (r.Some? <==> exists i, j :: 0 <= i < j < |content| && content[i] == '{' && content[j] == '}')
      && (r.Some? ==> exists i, j :: OutermostBraces(content, i, j) && r.value == content[i..j + 1])
  {
    match (FirstIndex(content, '{'), LastIndex(content, '}'))
    case (Some(i), Some(j)) =>
      if i < j {
        assert OutermostBraces(content, i, j);
      } else {
        NoBracePair(content, i, j);
      }
    case _ =>
  }

  /** When the last `}` comes before the first `{`, no `{` precedes any `}`. */
  lemma NoBracePair(s: string, i: nat, j: nat)
    requires i < |s| && j < |s| && j <= i
    requires '{' !in s[..i] && '}' !in s[j + 1..]
    ensures forall a, b :: 0 <= a < b < |s| && s[a] == '{' ==> s[b] != '}'
  {
    forall a, b | 0 <= a < b < |s| && s[a] == '{' ensures s[b] != '}' {
      assert forall m :: 0 <= m < i ==> s[..i][m] == s[m];
      assert b > j;
      assert s[b] == s[j + 1..][b - j - 1];
    }
  }

  /** The first occurrence is the one with no earlier occurrence. */
  lemma FirstIndexIs(s: string, c: char, k: nat)
    requires k < |s| && s[k] == c && c !in s[..k]
    ensures FirstIndex(s, c) == Some(k)
  {
    var k2 := FirstIndex(s, c).value;
    assert forall m :: 0 <= m < k ==> s[..k][m] == s[m];
    assert forall m :: 0 <= m < k2 ==> s[..k2][m] == s[m];
  }

  /** The last occurrence is the one with no later occurrence. */
  lemma LastIndexIs(s: string, c: char, k: nat)
    requires k < |s| && s[k] == c && c !in s[k + 1..]
    ensures LastIndex(s, c) == Some(k)
  {
    var k2 := LastIndex(s, c).value;
    assert forall m :: k < m < |s| ==> s[k + 1..][m - (k + 1)] == s[m];
    assert forall m :: k2 < m < |s| ==> s[k2 + 1..][m - (k2 + 1)] == s[m];
  }

  /** A string has one outermost brace pair at most. */
  lemma OutermostUnique(s: string, i: int, j: int, i2: int, j2: int)
    requires OutermostBraces(s, i, j) && OutermostBraces(s, i2, j2)
    ensures i == i2 && j == j2
  {
    assert forall m :: 0 <= m < i2 ==> s[..i2][m] == s[m];
    assert forall m :: 0 <= m < i ==> s[..i][m] == s[m];
    assert forall m :: j < m < |s| ==> s[j + 1..][m - (j + 1)] == s[m];
    assert forall m :: j2 < m < |s| ==> s[j2 + 1..][m - (j2 + 1)] == s[m];
  }

  /** `!!v[field]`. */
  predicate Present(v: Json, field: string) {
    Property(v, field).Some? && IsTruthy(Property(v, field).value)
  }

  /** `fields.filter(field => !v[field])`. */
  function Missing(v: Json, fields: seq<string>): (r: seq<string>)
    ensures |r| <= |fields|
  {
    if |fields| == 0 then []
    else (if Present(v, fields[0]) then [] else [fields[0]]) + Missing(v, fields[1..])
  }

  /** The filter keeps exactly the fields that are absent or falsy. */
  lemma {:induction false} MissingMembers(v: Json, fields: seq<string>)
    ensures forall f :: f in Missing(v, fields) <==> f in fields && !Present(v, f)
  {
    if |fields| > 0 {
      MissingMembers(v, fields[1..]);
      assert fields == [fields[0]] + fields[1..];
    }
  }

  /** All four required fields are present and truthy. */
  predicate Complete(v: Json) {
    Present(v, "diagnosis") && Present(v, "level") && Present(v, "advice") && Present(v, "urgency")
  }

  /** The required-field check, field by field in its fixed order. */
  lemma RequiredMissing(v: Json)
    ensures Missing(v, REQUIRED_FIELDS)
         == (if Present(v, "diagnosis") then [] else ["diagnosis"])
          + ((if Present(v, "level") then [] else ["level"])
          + ((if Present(v, "advice") then [] else ["advice"])
          + (if Present(v, "urgency") then [] else ["urgency"])))
    ensures Missing(v, REQUIRED_FIELDS) == [] <==> Complete(v)
  {
    MissingOfFour(v, "diagnosis", "level", "advice", "urgency");
  }

  lemma MissingOfFour(v: Json, a: string, b: string, c: string, d: string)
    ensures Missing(v, [a, b, c, d])
         == (if Present(v, a) then [] else [a])
          + ((if Present(v, b) then [] else [b])
          + ((if Present(v, c) then [] else [c])
          + (if Present(v, d) then [] else [d])))
  {
    assert [a, b, c, d] == [a] + ([b] + ([c] + [d]));
    MissingConcat(v, [a], [b] + ([c] + [d]));
    MissingConcat(v, [b], [c] + [d]);
    MissingConcat(v, [c], [d]);
    MissingOne(v, a);
    MissingOne(v, b);
    MissingOne(v, c);
    MissingOne(v, d);
  }

  lemma MissingOne(v: Json, field: string)
    ensures Missing(v, [field]) == if Present(v, field) then [] else [field]
  {
    assert [field][1..] == [];
  }

  /** The filter keeps the order of the field list: it distributes over concatenation. */
  lemma {:induction false} MissingConcat(v: Json, a: seq<string>, b: seq<string>)
    ensures Missing(v, a + b) == Missing(v, a) + Missing(v, b)
  {
    if |a| == 0 {
      assert a + b == b;
    } else {
      assert (a + b)[1..] == a[1..] + b;
      MissingConcat(v, a[1..], b);
    }
  }

  /** The missing-field error names the required fields that are absent or falsy, in the order
      diagnosis, level, advice, urgency. */
  function MissingFieldsMessage(v: Json): (m: string)
    ensures m != ""
  {
    MISSING_FIELDS_PREFIX + Join(Missing(v, REQUIRED_FIELDS), ", ")
  }

  /** The missing-field message has no letter `J`: neither the prefix nor a field name has. */
  lemma MissingFieldsLackJ(v: Json)
    ensures 'J' !in MissingFieldsMessage(v)
  {
    var fields := REQUIRED_FIELDS;
    assert 'J' !in fields[0] && 'J' !in fields[1] && 'J' !in fields[2] && 'J' !in fields[3];
    MissingLacks(v, fields, 'J');
    JoinChars(Missing(v, fields), ", ", 'J');
    assert 'J' !in MISSING_FIELDS_PREFIX;
  }

  /** The filter only keeps names from its list. */
  lemma {:induction false} MissingLacks(v: Json, fields: seq<string>, c: char)
    requires forall i :: 0 <= i < |fields| ==> c !in fields[i]
    ensures forall i :: 0 <= i < |Missing(v, fields)| ==> c !in Missing(v, fields)[i]
  {
    if |fields| > 0 {
      MissingLacks(v, fields[1..], c);
    }
  }

  /** `Array.isArray(v.precautions) ? v.precautions : []`. */
  function Precautions(v: Json): (p: seq<Json>)
    ensures Property(v, "precautions").Some? && Property(v, "precautions").value.JArray? ==>
      p == Property(v, "precautions").value.items
    ensures !(Property(v, "precautions").Some? && Property(v, "precautions").value.JArray?) ==>
      p == []
  {
    match Property(v, "precautions")
    case Some(JArray(items)) => items
    case _ => []
  }

  /** Parse the reply text. A failure is one of the three messages above, thrown by the
      client itself (no status, no code). */
  function ParseReply(content: string, parse: JsonParser): (r: Result<Assessment, JsError>)
    ensures r.Failure? ==> r.error.status.None? && r.error.code.None? && r.error.message != ""
  {
    match ExtractJson(content)
    case None => Failure(Thrown(FORMAT_ERROR))
    case Some(text) =>
      match parse(text)
      case None => Failure(Thrown(FORMAT_ERROR))
      case Some(v) =>
        if !IsTruthy(v) || !(v.JObject? || v.JArray?) then
          Failure(Thrown(INVALID_RESPONSE))
        else if |Missing(v, REQUIRED_FIELDS)| > 0 then
          Failure(Thrown(MissingFieldsMessage(v)))
        else
          RequiredMissing(v);
          Success(Assessment(v.members["diagnosis"], v.members["level"], v.members["advice"],
                             v.members["urgency"], Precautions(v)))
  }

  /** No failure message of the parser contains `JSON`: none has the letter `J`. */
  lemma ParseFailureLacksJ(content: string, parse: JsonParser)
    requires ParseReply(content, parse).Failure?
    ensures 'J' !in ParseReply(content, parse).error.message
  {
    match ExtractJson(content)
    case None =>
    case Some(text) =>
      match parse(text)
      case None =>
      case Some(v) => MissingFieldsLackJ(v);
  }

  /** The format error is thrown exactly when there is no `{ ... }` span or the parser refuses
      it; a success comes from an object with all four required fields present and truthy, and
      keeps exactly those fields and the precautions. */
  lemma ParseReplyMeaning(content: string, parse: JsonParser)
    ensures var r := ParseReply(content, parse);
      && (r.Failure? && r.error.message == FORMAT_ERROR <==>
            ExtractJson(content).None? || parse(ExtractJson(content).value).None?)
      && (ExtractJson(content).Some? && parse(ExtractJson(content).value).Some? ==>
            var v := parse(ExtractJson(content).value).value;
            && (!IsTruthy(v) || !(v.JObject? || v.JArray?) ==> r == Failure(Thrown(INVALID_RESPONSE)))
            && (IsTruthy(v) && (v.JObject? || v.JArray?) && !Complete(v) ==>
                  r == Failure(Thrown(MissingFieldsMessage(v)))))
      && (r.Success? ==>
            var v := parse(ExtractJson(content).value).value;
            && ExtractJson(content).Some? && v.JObject?
            && Complete(v)
            && r.value.diagnosis == v.members["diagnosis"] && r.value.level == v.members["level"]
            && r.value.advice == v.members["advice"] && r.value.urgency == v.members["urgency"]
            && r.value.precautions == Precautions(v))
  {
    match ExtractJson(content)
    case None =>
    case Some(text) =>
      match parse(text)
      case None =>
      case Some(v) =>
        RequiredMissing(v);
        assert MissingFieldsMessage(v)[5] == MISSING_FIELDS_PREFIX[5] != FORMAT_ERROR[5];
  }

  /** A reply whose parsed value is an object with all four fields truthy always succeeds, and
      the assessment keeps exactly those fields plus the precautions. */
  lemma CompleteObjectAccepted(content: string, parse: JsonParser)
    requires ExtractJson(content).Some?
    requires parse(ExtractJson(content).value).Some?
    requires var v := parse(ExtractJson(content).value).value;
      v.JObject? && Complete(v)
    ensures ParseReply(content, parse).Success?
  {
    RequiredMissing(parse(ExtractJson(content).value).value);
  }

  /** An array passes the object check but has none of the fields: all four are reported. */
  lemma ArrayLacksEveryField(items: seq<Json>)
    ensures Missing(JArray(items), REQUIRED_FIELDS) == REQUIRED_FIELDS
  {
    RequiredMissing(JArray(items));
  }

  /** Text before the first `{` and after the last `}` is ignored: the span handed to the
      parser is exactly the object. */
  lemma {:induction false} ExtractSurrounded(prefix: string, body: string, suffix: string)
    requires '{' !in prefix && '}' !in suffix
    ensures ExtractJson(prefix + "{" + body + "}" + suffix) == Some("{" + body + "}")
  {
    var obj := "{" + body + "}";
    var s := prefix + obj + suffix;
    var i, j := |prefix|, |prefix| + |obj| - 1;
    assert s == prefix + "{" + body + "}" + suffix;
    assert s[..i] == prefix && s[j + 1..] == suffix && s[i..j + 1] == obj;
    FirstIndexIs(s, '{', i);
    LastIndexIs(s, '}', j);
  }

  /** A reply that wraps a complete object in prose, without `precautions`, yields exactly the
      four fields and an empty precaution list. */
  lemma ProseAroundObject(prefix: string, body: string, suffix: string, parse: JsonParser,
                          diagnosis: string, level: string, advice: string, urgency: string)
    requires '{' !in prefix && '}' !in suffix
    requires diagnosis != "" && level != "" && advice != "" && urgency != ""
    requires parse("{" + body + "}") == Some(JObject(map[
      "diagnosis" := JString(diagnosis), "level" := JString(level),
      "advice" := JString(advice), "urgency" := JString(urgency)]))
    ensures ParseReply(prefix + "{" + body + "}" + suffix, parse)
         == Success(Assessment(JString(diagnosis), JString(level), JString(advice), JString(urgency), []))
  {
    var content := prefix + "{" + body + "}" + suffix;
    ExtractSurrounded(prefix, body, suffix);
    var v := parse("{" + body + "}").value;
    FourFieldObject(diagnosis, level, advice, urgency);
    CompleteObjectAccepted(content, parse);
    var r := ParseReply(content, parse);
    assert r.value.diagnosis == JString(diagnosis) && r.value.level == JString(level);
    assert r.value.advice == JString(advice) && r.value.urgency == JString(urgency);
  }

  lemma FourFieldObject(diagnosis: string, level: string, advice: string, urgency: string)
    requires diagnosis != "" && level != "" && advice != "" && urgency != ""
    ensures var v := JObject(map[
      "diagnosis" := JString(diagnosis), "level" := JString(level),
      "advice" := JString(advice), "urgency" := JString(urgency)]);
      Complete(v) && Precautions(v) == []
  {
    var m := map["diagnosis" := JString(diagnosis), "level" := JString(level),
                 "advice" := JString(advice), "urgency" := JString(urgency)];
    assert m.Keys == {"diagnosis", "level", "advice", "urgency"};
    assert "precautions" !in m;
  }

  /** A reply without any `{ ... }` span fails with the format error. */
  lemma NoObjectIsFormatError(content: string, parse: JsonParser)
    requires '{' !in content
    ensures ParseReply(content, parse) == Failure(Thrown(FORMAT_ERROR))
  {
  }

  /** A reply whose object has every required field but `urgency` fails with the message that
      names exactly that field. */
  lemma UrgencyOmittedReply(content: string, parse: JsonParser)
    requires ExtractJson(content).Some? && parse(ExtractJson(content).value).Some?
    requires var v := parse(ExtractJson(content).value).value;
      && v.JObject?
      && Present(v, "diagnosis") && Present(v, "level") && Present(v, "advice")
      && !Present(v, "urgency")
    ensures ParseReply(content, parse) == Failure(Thrown(MISSING_FIELDS_PREFIX + "urgency"))
  {
    var v := parse(ExtractJson(content).value).value;
    OnlyUrgencyMissing(v);
    ParseReplyMeaning(content, parse);
  }

  /** A reply that omits only `urgency` names exactly that field. */
  lemma OnlyUrgencyMissing(v: Json)
    requires v.JObject?
    requires Present(v, "diagnosis") && Present(v, "level") && Present(v, "advice")
    requires !Present(v, "urgency")
    ensures MissingFieldsMessage(v) == MISSING_FIELDS_PREFIX + "urgency"
  {
    RequiredMissing(v);
  }
}
