/** The symptom picker: the category table built from the body-part table, the categories
    offered for the selected body parts, and the form for a symptom of the user's own. */
module SymptomSelector {
  import opened Wrappers
  import opened JsText
  import opened Selection
  import opened BodyPartMap

  /** A key of `commonSymptoms` with its heading; its items are `ItemsOf(id)`. */
  datatype Category = Category(id: string, name: string)

  /** `bodyParts.find(part => part.id === id)?.symptoms || []`. */
  function ItemsOf(id: string): (items: seq<string>)
    ensures Find(BODY_PARTS, id).None? ==> items == []
    ensures Find(BODY_PARTS, id).Some? ==> items == Find(BODY_PARTS, id).value.symptoms
  {
    match Find(BODY_PARTS, id)
    case None => []
    case Some(part) => part.symptoms
  }

  /** The keys and headings of `commonSymptoms`, in its key order. */
  const COMMON_SYMPTOMS: seq<Category> := [
    Category("head", "頭部症狀"),
    Category("chest", "胸部症狀"),
    Category("stomach", "腹部症狀"),
    Category("limbs", "四肢症狀"),
    Category("throat", "喉嚨症狀"),
    Category("skin", "皮膚症狀"),
    Category("general", "全身症狀")
  ]

  predicate DistinctIds(cats: seq<Category>) {
    forall i, j :: 0 <= i < j < |cats| ==> cats[i].id != cats[j].id
  }

  /** Seven categories under distinct keys: the six body-part ids, in the table's order, then
      `general`. */
  lemma CommonSymptomsKeys()
    ensures |COMMON_SYMPTOMS| == 7 && DistinctIds(COMMON_SYMPTOMS)
    ensures forall i :: 0 <= i < 6 ==> COMMON_SYMPTOMS[i].id == BODY_PARTS[i].id
    ensures COMMON_SYMPTOMS[6].id == "general"
  {
  }

  /** Each body-part category holds the symptoms of the body part with its key. */
  lemma {:induction false} CategoryItems(i: nat)
    requires i < 6
    ensures ItemsOf(COMMON_SYMPTOMS[i].id) == BODY_PARTS[i].symptoms
  {
    CommonSymptomsKeys();
    FindEachPart(i);
  }

  /** `general` names no body part, so its category holds no symptoms. */
  lemma GeneralIsEmpty()
    ensures ItemsOf(COMMON_SYMPTOMS[6].id) == []
  {
    assert forall i :: 0 <= i < |BODY_PARTS| ==> BODY_PARTS[i].id != "general";
  }

  /** `commonSymptoms[id]`: the category under that key, if any. */
  function Lookup(id: string): (r: Option<Category>)
    ensures r.None? <==> forall i :: 0 <= i < |COMMON_SYMPTOMS| ==> COMMON_SYMPTOMS[i].id != id
    ensures r.Some? ==> r.value in COMMON_SYMPTOMS && r.value.id == id
  {
    LookupIn(COMMON_SYMPTOMS, id)
  }

  function LookupIn(cats: seq<Category>, id: string): (r: Option<Category>)
    ensures r.None? <==> forall i :: 0 <= i < |cats| ==> cats[i].id != id
    ensures r.Some? ==> r.value in cats && r.value.id == id
  {
    if |cats| == 0 then None
    else if cats[0].id == id then Some(cats[0])
    else
      assert forall i :: 1 <= i < |cats| ==> cats[i] == cats[1..][i - 1];
      LookupIn(cats[1..], id)
  }

  /** In a table with distinct keys, a category is what a lookup by its key returns. */
  lemma LookupUnique(cats: seq<Category>, c: Category)
    requires DistinctIds(cats) && c in cats
    ensures LookupIn(cats, c.id) == Some(c)
  {
    var i :| 0 <= i < |cats| && cats[i] == c;
    if cats[0].id != c.id {
      assert cats[1..][i - 1] == c;
      LookupUnique(cats[1..], c);
    }
  }

  /** `availableSymptoms`: every category for an empty selection; otherwise the categories
      the selection names, once each, in the order their keys were first selected. */
  method AvailableSymptoms(selected: seq<string>) returns (available: seq<Category>)
    ensures |selected| == 0 ==> available == COMMON_SYMPTOMS
    ensures |selected| > 0 ==>
      forall c :: c in available <==> c in COMMON_SYMPTOMS && c.id in selected
    ensures DistinctIds(available)
    ensures |selected| > 0 ==> forall i, j :: 0 <= i < j < |available| ==>
      IndexOf(selected, available[i].id) < IndexOf(selected, available[j].id)
    ensures |selected| > 0 && (forall id :: id in selected ==> Lookup(id).None?) ==> available == []
  {
    CommonSymptomsKeys();
    if |selected| == 0 {
      return COMMON_SYMPTOMS;
    }
    available := Collect(COMMON_SYMPTOMS, selected);
  }

  /** The `reduce` of `availableSymptoms` over a table with distinct keys: the accumulator
      object gains the category of every known key the first time the key comes up, keeps the
      insertion order of its keys, and `acc[partId] = ...` on a key it already has writes the
      same category again. */
  method Collect(table: seq<Category>, selected: seq<string>) returns (acc: seq<Category>)
    requires DistinctIds(table)
    ensures forall c :: c in acc <==> c in table && c.id in selected
    ensures DistinctIds(acc)
    ensures forall i, j :: 0 <= i < j < |acc| ==>
      IndexOf(selected, acc[i].id) < IndexOf(selected, acc[j].id)
    ensures (forall id :: id in selected ==> LookupIn(table, id).None?) ==> acc == []
  {
    acc := [];
    for k := 0 to |selected|
      invariant Collected(table, selected, k, acc)
    {
      var id := selected[k];
      var hit := LookupIn(table, id);
      if hit.Some? {
        var c := hit.value;
        var at := IndexOfId(acc, id);
        if at < |acc| {
          CollectKnownKey(table, selected, k, acc, at);
          acc := acc[at := c];
        } else {
          CollectNewKey(table, selected, k, acc, c);
          acc := acc + [c];
        }
      } else {
        CollectUnknownKey(table, selected, k, acc);
      }
    }
    if acc != [] {
      LookupUnique(table, acc[0]);
    }
  }

  /** What the accumulator holds after the first `k` selected keys: the categories whose key
      first comes up among them, once each, in the order of those first occurrences. */
  predicate Collected(table: seq<Category>, selected: seq<string>, k: nat, acc: seq<Category>)
  {
    && DistinctIds(table)
    && (forall c :: c in acc ==> c in table && IndexOf(selected, c.id) < k)
    && (forall c :: c in table && IndexOf(selected, c.id) < k ==> c in acc)
    && DistinctIds(acc)
    && (forall i, j :: 0 <= i < j < |acc| ==> IndexOf(selected, acc[i].id) < IndexOf(selected, acc[j].id))
  }

  /** A key the accumulator already has: writing its category again changes nothing. */
  lemma {:induction false} CollectKnownKey(table: seq<Category>, selected: seq<string>, k: nat,
                                           acc: seq<Category>, at: nat)
    requires k < |selected| && Collected(table, selected, k, acc)
    requires LookupIn(table, selected[k]).Some? && at < |acc| && acc[at].id == selected[k]
    ensures acc[at := LookupIn(table, selected[k]).value] == acc
    ensures Collected(table, selected, k + 1, acc)
  {
    LookupUnique(table, acc[at]);
    forall c | c in table && IndexOf(selected, c.id) < k + 1 ensures c in acc {
      if IndexOf(selected, c.id) == k {
        LookupUnique(table, c);
      }
    }
  }

  /** A known key seen for the first time: its category goes at the end. */
  lemma {:induction false} CollectNewKey(table: seq<Category>, selected: seq<string>, k: nat,
                                         acc: seq<Category>, c: Category)
    requires k < |selected| && Collected(table, selected, k, acc)
    requires LookupIn(table, selected[k]) == Some(c) && IndexOfId(acc, selected[k]) == |acc|
    ensures Collected(table, selected, k + 1, acc + [c])
  {
    var id := selected[k];
    assert c !in acc;
    assert IndexOf(selected, id) == k;
    var next := acc + [c];
    forall x | x in table && IndexOf(selected, x.id) < k + 1 ensures x in next {
      if IndexOf(selected, x.id) == k {
        LookupUnique(table, x);
      }
    }
    forall i, j | 0 <= i < j < |next|
      ensures next[i].id != next[j].id
      ensures IndexOf(selected, next[i].id) < IndexOf(selected, next[j].id)
    {
      assert next[i] == acc[i] && acc[i] in acc;
      if j < |acc| {
        assert next[j] == acc[j];
      }
    }
  }

  /** A key the table does not have leaves the accumulator alone. */
  lemma {:induction false} CollectUnknownKey(table: seq<Category>, selected: seq<string>, k: nat,
                                             acc: seq<Category>)
    requires k < |selected| && Collected(table, selected, k, acc)
    requires LookupIn(table, selected[k]).None?
    ensures Collected(table, selected, k + 1, acc)
  {
    forall c | c in table && IndexOf(selected, c.id) < k + 1 ensures c in acc {
      var i :| 0 <= i < |table| && table[i] == c;
      assert c.id != selected[k];
    }
  }

  /** Position of the first category under key `id`, or `|cats|`. */
  function IndexOfId(cats: seq<Category>, id: string): (i: nat)
    ensures i <= |cats|
    ensures i < |cats| ==> cats[i].id == id
    ensures forall j :: 0 <= j < i ==> cats[j].id != id
  {
    if |cats| == 0 then 0
    else if cats[0].id == id then 0
    else 1 + IndexOfId(cats[1..], id)
  }

  /** The form behind "+ 添加其他症狀": the text typed so far and whether the form is open. */
  class OtherSymptomForm {
    var otherSymptom: string
    var showOtherInput: bool

    constructor()
      ensures otherSymptom == "" && !showOtherInput
    {
      otherSymptom := "";
      showOtherInput := false;
    }

    /** The "+ 添加其他症狀" button opens the form. */
    method Open()
      modifies this
      ensures showOtherInput && otherSymptom == old(otherSymptom)
    {
      showOtherInput := true;
    }

    /** The "取消" button closes the form and keeps the text. */
    method Cancel()
      modifies this
      ensures !showOtherInput && otherSymptom == old(otherSymptom)
    {
      showOtherInput := false;
    }

    /** Typing into the input. */
    method Type(text: string)
      modifies this
      ensures otherSymptom == text && showOtherInput == old(showOtherInput)
    {
      otherSymptom := text;
    }

    /** `handleOtherSymptomSubmit`: the symptom handed to `onSymptomSelect`, if any. Blank
        text is ignored and changes nothing; otherwise the trimmed text is handed on, the input
        cleared and the form closed. The page toggles what it receives, so a custom symptom
        that is already selected is deselected. */
    method Submit() returns (selected: Option<string>)
      modifies this
      ensures AllWhitespace(old(otherSymptom)) ==>
        selected == None && otherSymptom == old(otherSymptom) && showOtherInput == old(showOtherInput)
      ensures !AllWhitespace(old(otherSymptom)) ==>
        selected == Some(Trim(old(otherSymptom))) && otherSymptom == "" && !showOtherInput
      ensures selected.Some? ==> selected.value != "" && Trim(selected.value) == selected.value
    {
      var text := Trim(otherSymptom);
      if text != "" {
        TrimIdempotent(otherSymptom);
        selected := Some(text);
        otherSymptom := "";
        showOtherInput := false;
      } else {
        selected := None;
      }
    }
  }
}
