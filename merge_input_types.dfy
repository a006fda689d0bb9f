/**
 Merging a list of unit schemas into one: groups are combined by
 dictionary update in list order, so a later schema overrides an earlier
 one on a shared name.
 */
module MergeInputTypes {
  import opened Types

  datatype GroupName = Required | Optional

  /** The named group of a schema, absent or present. */
  function Pick(s: Schema, w: GroupName): Option<Group>
  {
    if w == Required then s.required else s.optional
  }

  /** The merged group after the given schemas: a left fold of updates,
      where a schema lacking the group contributes nothing. */
  function Collect(inputs: seq<Schema>, w: GroupName): Group
    decreases |inputs|
  {
    if inputs == [] then map[]
    else Collect(inputs[..|inputs| - 1], w) + GroupOf(Pick(inputs[|inputs| - 1], w))
  }

  /** `merge_input_types`: a single schema is returned as it is; any other
      list, the empty one included, gives both groups. */
  function Merged(inputs: seq<Schema>): (r: Schema)
    ensures |inputs| == 1 ==> r == inputs[0]
    ensures |inputs| != 1 ==> r.required.Some? && r.optional.Some?
    ensures inputs == [] ==> r == Schema(Some(map[]), Some(map[]))
  {
    if |inputs| == 1 then inputs[0]
    else Schema(Some(Collect(inputs, Required)), Some(Collect(inputs, Optional)))
  }

  /** The loop of `merge_input_types`, updating the two groups in place. */
  method Merge(inputTypes: seq<Schema>) returns (merged: Schema)
    ensures merged == Merged(inputTypes)
  {
    if |inputTypes| == 1 {
      return inputTypes[0];
    }
    var required: Group := map[];
    var optional: Group := map[];
    for i := 0 to |inputTypes|
      invariant required == Collect(inputTypes[..i], Required)
      invariant optional == Collect(inputTypes[..i], Optional)
    {
      var inputType := inputTypes[i];
      assert inputTypes[..i + 1][..i] == inputTypes[..i];
      if inputType.required.Some? {
        required := required + inputType.required.value;
      }
      if inputType.optional.Some? {
        optional := optional + inputType.optional.value;
      }
    }
    assert inputTypes[..|inputTypes|] == inputTypes;
    return Schema(Some(required), Some(optional));
  }

  /** The index of the last schema whose group w declares k, or -1. */
  function LastHolder(inputs: seq<Schema>, w: GroupName, k: string): (i: int)
    ensures -1 <= i < |inputs|
    ensures i >= 0 ==> k in GroupOf(Pick(inputs[i], w))
    ensures forall j :: i < j < |inputs| ==> k !in GroupOf(Pick(inputs[j], w))
    decreases |inputs|
  {
    if inputs == [] then -1
    else if k in GroupOf(Pick(inputs[|inputs| - 1], w)) then |inputs| - 1
    else LastHolder(inputs[..|inputs| - 1], w, k)
  }

  /** A name is in the merged group exactly when some schema's group holds
      it, and its entry is that of the last such schema. Each group is merged
      on its own, so a name may end up in both. */
  lemma {:induction false} CollectLastWriterWins(inputs: seq<Schema>, w: GroupName, k: string)
    ensures k in Collect(inputs, w) <==> LastHolder(inputs, w, k) >= 0
    ensures k in Collect(inputs, w) <==> exists i :: 0 <= i < |inputs| && k in GroupOf(Pick(inputs[i], w))
    ensures k in Collect(inputs, w) ==>
      Collect(inputs, w)[k] == GroupOf(Pick(inputs[LastHolder(inputs, w, k)], w))[k]
    decreases |inputs|
  {
    if inputs != [] {
      var init := inputs[..|inputs| - 1];
      CollectLastWriterWins(init, w, k);
      if k !in GroupOf(Pick(inputs[|inputs| - 1], w)) {
        assert forall i :: 0 <= i < |init| ==> init[i] == inputs[i];
      }
    }
  }

  /** Merged groups of a list of several schemas, in terms of the inputs. */
  lemma MergedGroups(inputs: seq<Schema>, k: string)
    requires |inputs| != 1
    ensures k in Merged(inputs).required.value <==>
      exists i :: 0 <= i < |inputs| && k in GroupOf(inputs[i].required)
    ensures k in Merged(inputs).optional.value <==>
      exists i :: 0 <= i < |inputs| && k in GroupOf(inputs[i].optional)
    ensures k in Merged(inputs).required.value ==>
      Merged(inputs).required.value[k] == GroupOf(inputs[LastHolder(inputs, Required, k)].required)[k]
    ensures k in Merged(inputs).optional.value ==>
      Merged(inputs).optional.value[k] == GroupOf(inputs[LastHolder(inputs, Optional, k)].optional)[k]
  {
    CollectLastWriterWins(inputs, Required, k);
    CollectLastWriterWins(inputs, Optional, k);
  }
}
