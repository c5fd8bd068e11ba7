/**
 * Field lookup in the `form_submit_data` mapping of a form submission.
 * The mapping is an ordered sequence of entries, in the order the payload's
 * keys are enumerated; a missing label or key is the empty string.
 */
module Fields {
  import opened Wrappers
  import opened Strings

  /** One entry of `form_submit_data`: `id` is the entry's own key in that object (the key
      `Object.keys` enumerates; the lookup never reads it), then its `label`, `key` and `value`. */
  datatype Field = Field(id: string, fieldLabel: string, fieldKey: string, value: Option<string>)

  /** `item?.value ?? ""`. */
  function ValueOf(f: Field): string {
    f.value.GetOr("")
  }

  /** The entry's lower-cased label contains the wanted label, or the wanted key is non-empty
      and the entry's lower-cased key contains it. Both wanted strings are already lower-cased. */
  predicate Matches(f: Field, wantedLabel: string, wantedKey: string) {
    Contains(Lower(f.fieldLabel), wantedLabel) || (wantedKey != "" && Contains(Lower(f.fieldKey), wantedKey))
  }

  /** Index of the first matching entry, or None when no entry matches. */
  function FirstMatch(fields: seq<Field>, wantedLabel: string, wantedKey: string): (r: Option<nat>)
    ensures r.Some? ==> r.value < |fields| && Matches(fields[r.value], wantedLabel, wantedKey)
    ensures r.Some? ==> forall j :: 0 <= j < r.value ==> !Matches(fields[j], wantedLabel, wantedKey)
    ensures r.None? ==> forall j :: 0 <= j < |fields| ==> !Matches(fields[j], wantedLabel, wantedKey)
  {
    if fields == [] then None
    else if Matches(fields[0], wantedLabel, wantedKey) then Some(0)
    else match FirstMatch(fields[1..], wantedLabel, wantedKey)
      case None => None
      case Some(i) => Some(i + 1)
  }

  /** `pickFieldValue(payload, labelContains, keyContains)` where `formData` is
      `payload?.form_submit_data` (None when it is absent). */
  function Pick(formData: Option<seq<Field>>, labelContains: string, keyContains: string): string {
    var fields := formData.GetOr([]);
    match FirstMatch(fields, Lower(labelContains), Lower(keyContains))
    case Some(i) => ValueOf(fields[i])
    case None => ""
  }

  /** The value of the first matching entry is picked, whatever entries come after it; an
      entry matched by key before an entry matched by label therefore wins. */
  lemma PickFirstMatching(fields: seq<Field>, labelContains: string, keyContains: string, i: nat)
    requires i < |fields| && Matches(fields[i], Lower(labelContains), Lower(keyContains))
    requires forall j :: 0 <= j < i ==> !Matches(fields[j], Lower(labelContains), Lower(keyContains))
    ensures Pick(Some(fields), labelContains, keyContains) == ValueOf(fields[i])
  {
    var m := FirstMatch(fields, Lower(labelContains), Lower(keyContains));
    assert m.Some?;
    assert m.value == i;
  }

  /** With no matching entry, or no `form_submit_data` at all, the result is "". */
  lemma PickNothingMatching(formData: Option<seq<Field>>, labelContains: string, keyContains: string)
    requires forall f :: f in formData.GetOr([]) ==> !Matches(f, Lower(labelContains), Lower(keyContains))
    ensures Pick(formData, labelContains, keyContains) == ""
  {
  }

  /** A picked value that is not "" was the value of some matching entry. */
  lemma PickComesFromMatch(formData: Option<seq<Field>>, labelContains: string, keyContains: string)
    requires Pick(formData, labelContains, keyContains) != ""
    ensures exists f :: && f in formData.GetOr([])
                        && Matches(f, Lower(labelContains), Lower(keyContains))
                        && ValueOf(f) == Pick(formData, labelContains, keyContains)
  {
    var fields := formData.GetOr([]);
    var m := FirstMatch(fields, Lower(labelContains), Lower(keyContains));
    assert fields[m.value] in fields;
  }

  /** Entries with the same labels and values give the same first match when the wanted key
      is empty: keys are never consulted then. */
  lemma {:induction false} FirstMatchIgnoresKeys(fields: seq<Field>, others: seq<Field>, wantedLabel: string)
    requires |fields| == |others|
    requires forall j :: 0 <= j < |fields| ==> fields[j].fieldLabel == others[j].fieldLabel
    ensures FirstMatch(fields, wantedLabel, "") == FirstMatch(others, wantedLabel, "")
  {
    if fields != [] {
      FirstMatchIgnoresKeys(fields[1..], others[1..], wantedLabel);
    }
  }

  /** With an empty key argument only labels decide: changing every entry's key changes nothing. */
  lemma PickIgnoresKeys(fields: seq<Field>, others: seq<Field>, labelContains: string)
    requires |fields| == |others|
    requires forall j :: 0 <= j < |fields| ==> fields[j].fieldLabel == others[j].fieldLabel && fields[j].value == others[j].value
    ensures Pick(Some(fields), labelContains, "") == Pick(Some(others), labelContains, "")
  {
    FirstMatchIgnoresKeys(fields, others, Lower(labelContains));
  }

  /** The loop of `pickFieldValue`: tests each entry's label, then its key, and returns at the
      first hit. */
  method PickFieldValue(formData: Option<seq<Field>>, labelContains: string, keyContains: string)
    returns (value: string)
    ensures value == Pick(formData, labelContains, keyContains)
  {
    var data := formData.GetOr([]);
    var wantedLabel := Lower(labelContains);
    var wantedKey := Lower(keyContains);
    var i := 0;
    while i < |data|
      invariant 0 <= i <= |data|
      invariant forall j :: 0 <= j < i ==> !Matches(data[j], wantedLabel, wantedKey)
    {
      var item := data[i];
      var itemLabel := Lower(item.fieldLabel);
      var itemKey := Lower(item.fieldKey);
      if Contains(itemLabel, wantedLabel) {
        PickFirstMatching(data, labelContains, keyContains, i);
        return ValueOf(item);
      }
      if wantedKey != "" && Contains(itemKey, wantedKey) {
        PickFirstMatching(data, labelContains, keyContains, i);
        return ValueOf(item);
      }
      i := i + 1;
    }
    return "";
  }
}
