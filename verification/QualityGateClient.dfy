/**
 * The client helpers as the source runs them: loops over slices and ranges over the association map
 * in an arbitrary order, each proved against the corresponding function of the model.
 */
module QualityGateClient {
  import opened Basics
  import opened Pairing
  import opened QualityGateModel

  method GenerateConditionsAssociation(specs: seq<ConditionSpec>, obs: seq<ConditionObservation>)
    returns (m: Associations)
    ensures m == Associate(specs, obs)
  {
    m := map[];
    for i := 0 to |obs|
      invariant m == AssociateObservations(obs[..i])
    {
      m := m[obs[i].id := Association(Some(obs[i]), None, false)];
      assert Init(obs[..i + 1]) == obs[..i];
    }
    assert obs[..|obs|] == obs;
    for i := 0 to |specs|
      invariant m == AssociateSpecs(AssociateObservations(obs), specs, i)
    {
      var s := specs[i];
      if s.id.Some? {
        if s.id.value in m {
          var assoc := m[s.id.value];
          assoc := assoc.(spec := Some(i));
          assoc := assoc.(upToDate := IsConditionUpToDate(s, assoc.observation));
          m := m[s.id.value := assoc];
        } else {
          m := m[s.id.value := Association(None, Some(i), false)];
        }
      } else {
        m := m[NEW_PREFIX + s.metric := Association(None, Some(i), false)];
      }
    }
  }

  method BuildObservationIdSet(obs: seq<ConditionObservation>) returns (ids: map<string, bool>)
    ensures ids == map id <- Ids(obs) :: true
  {
    ids := map[];
    for i := 0 to |obs|
      invariant ids == map id <- Ids(obs[..i]) :: true
    {
      assert obs[..i + 1] == obs[..i] + [obs[i]];
      IdsSnoc(obs[..i], obs[i]);
      ids := ids[obs[i].id := true];
    }
    assert obs[..|obs|] == obs;
  }

  method FindMatchingObservationId(s: ConditionSpec, obs: seq<ConditionObservation>) returns (id: Option<string>)
    ensures id == FirstMatch(s, obs)
  {
    for i := 0 to |obs|
      invariant FirstMatch(s, obs) == FirstMatch(s, obs[i..])
    {
      if Matches(s, obs[i].condition) {
        return Some(obs[i].id);
      }
      assert obs[i..][1..] == obs[i + 1..];
    }
    return None;
  }

  /** Compares IDs and operators position by position, as pointers to values. */
  method WereConditionsLateInitialized(before: seq<ConditionSpec>, after: seq<ConditionSpec>) returns (changed: bool)
    ensures changed <==> |before| != |after| ||
                         exists i :: 0 <= i < |before| && (before[i].id != after[i].id || before[i].op != after[i].op)
  {
    if |before| != |after| {
      return true;
    }
    for i := 0 to |before|
      invariant forall k :: 0 <= k < i ==> before[k].id == after[k].id && before[k].op == after[k].op
    {
      if before[i].id != after[i].id || before[i].op != after[i].op {
        return true;
      }
    }
    return false;
  }
}
