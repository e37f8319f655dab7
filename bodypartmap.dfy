/** The body-part table shared by the symptom pages, and the lookup `bodyParts.find` does on
    it. Clicking a part toggles its id in the selection (`Selection.Toggle`). */
module BodyPartMap {
  import opened Wrappers

  datatype BodyPart = BodyPart(id: string, name: string, symptoms: seq<string>)

  const BODY_PARTS: seq<BodyPart> := [
    BodyPart("head", "頭部", ["頭痛", "頭暈", "發燒", "噁心"]),
    BodyPart("chest", "胸部", ["咳嗽", "胸痛", "呼吸困難", "心悸"]),
    BodyPart("stomach", "腹部", ["腹痛", "嘔吐", "腹瀉", "食慾不振"]),
    BodyPart("limbs", "四肢", ["關節痛", "肌肉酸痛", "疲勞", "手腳冰冷"]),
    BodyPart("throat", "喉嚨", ["喉嚨痛", "吞嚥困難", "聲音嘶啞"]),
    BodyPart("skin", "皮膚", ["發疹", "搔癢", "出汗", "發紅"])
  ]

  /** `parts.find(part => part.id === id)`: the first entry with that id, if any. */
  function Find(parts: seq<BodyPart>, id: string): (r: Option<BodyPart>)
    ensures r.None? <==> forall i :: 0 <= i < |parts| ==> parts[i].id != id
    ensures r.Some? ==> exists i :: 0 <= i < |parts| && parts[i] == r.value && r.value.id == id &&
                                    forall j :: 0 <= j < i ==> parts[j].id != id
  {
    if |parts| == 0 then None
    else if parts[0].id == id then Some(parts[0])
    else
      var r := Find(parts[1..], id);
      assert forall i :: 1 <= i < |parts| ==> parts[i] == parts[1..][i - 1];
      r
  }

  /** The ids in the table are distinct, so a lookup by id finds the one entry with it. */
  lemma DistinctIds()
    ensures |BODY_PARTS| == 6
    ensures forall i, j :: 0 <= i < j < |BODY_PARTS| ==> BODY_PARTS[i].id != BODY_PARTS[j].id
  {
  }

  /** Every entry of the table is what a lookup by its id returns. */
  lemma {:induction false} FindEachPart(i: nat)
    requires i < |BODY_PARTS|
    ensures Find(BODY_PARTS, BODY_PARTS[i].id) == Some(BODY_PARTS[i])
  {
    DistinctIds();
  }

  /** Every symptom of the table is listed under exactly one part. */
  lemma SymptomsHaveOneOwner()
    ensures forall i, j, k :: 0 <= i < j < |BODY_PARTS| && 0 <= k < |BODY_PARTS[i].symptoms| ==>
              BODY_PARTS[i].symptoms[k] !in BODY_PARTS[j].symptoms
  {
  }
}
