/**
 * What one observation does: it adopts IDs of matching remote conditions into the spec and reads the
 * repair plan off the association map. Both agree with the distance computed from the remote state.
 */
module QualityGateAdoption {
  import opened Basics
  import opened Pairing
  import opened QualityGateModel
  import opened QualityGatePlan
  import opened QualityGateMismatch

  /** `obs` is a listing of the remote conditions, in any order. */
  ghost predicate Lists(obs: seq<ConditionObservation>, conds: map<string, Condition>) {
    && Ids(obs) == conds.Keys
    && forall o <- obs :: conds[o.id] == o.condition
  }

  /** Every declared condition either holds a valid ID or matches nothing the server has. */
  ghost predicate Settled(specs: seq<ConditionSpec>, conds: map<string, Condition>) {
    forall s <- specs :: HasValidId(s, conds) || Unmet(s, conds)
  }

  // ---------- adoption of IDs ----------

  /** The ID search returns the first matching observation, and nothing only when there is none. */
  lemma {:induction false} FirstMatchIsFirst(s: ConditionSpec, obs: seq<ConditionObservation>)
    ensures var id := FirstMatch(s, obs);
            if id.None? then forall o <- obs :: !Matches(s, o.condition)
            else exists n :: 0 <= n < |obs| && obs[n].id == id.value && Matches(s, obs[n].condition)
                  && forall k :: 0 <= k < n ==> !Matches(s, obs[k].condition)
  {
    if obs != [] {
      var rest := obs[1..];
      assert obs == [obs[0]] + rest;
      FirstMatchIsFirst(s, rest);
      if Matches(s, obs[0].condition) {
        assert obs[0].id == FirstMatch(s, obs).value;
      } else if FirstMatch(s, rest).Some? {
        var m :| 0 <= m < |rest| && rest[m].id == FirstMatch(s, rest).value && Matches(s, rest[m].condition)
          && forall k :: 0 <= k < m ==> !Matches(s, rest[k].condition);
        assert obs[m + 1] == rest[m];
        assert forall k :: 1 <= k < m + 1 ==> obs[k] == rest[k - 1];
      }
    }
  }

  /** Adoption gives a spec an ID it claims, or leaves it alone when its ID is valid or it is unmet. */
  lemma AdoptIsClaim(s: ConditionSpec, obs: seq<ConditionObservation>, conds: map<string, Condition>)
    requires Lists(obs, conds)
    ensures var a := Adopt(s, obs);
            && a == s.(id := a.id)
            && (HasValidId(s, conds) || Unmet(s, conds) ==> a == s)
            && (!HasValidId(s, conds) && !Unmet(s, conds) ==>
                  a.id.Some? && Claims(s, conds, a.id.value) && Held(a, conds))
  {
    FirstMatchIsFirst(s, obs);
    if FirstMatch(s, obs).None? {
      forall id <- conds ensures !Matches(s, conds[id]) {
        assert id in Ids(obs);
        var o :| o in obs && o.id == id;
        assert conds[o.id] == o.condition;
      }
    } else {
      var n :| 0 <= n < |obs| && obs[n].id == FirstMatch(s, obs).value && Matches(s, obs[n].condition);
      assert obs[n] in obs && obs[n].id in Ids(obs);
    }
    if HasValidId(s, conds) {
      assert Claims(s, conds, s.id.value);
    }
  }

  lemma AdoptedIsSettled(specs: seq<ConditionSpec>, obs: seq<ConditionObservation>, conds: map<string, Condition>)
    requires Lists(obs, conds)
    ensures Settled(AdoptAll(specs, obs), conds)
  {
    forall s <- AdoptAll(specs, obs) ensures HasValidId(s, conds) || Unmet(s, conds) {
      var i :| 0 <= i < |specs| && s == Adopt(specs[i], obs);
      AdoptIsClaim(specs[i], obs, conds);
    }
  }

  /**
   * Late initialisation is idempotent: a second observation of the same conditions, listed in any order,
   * changes nothing.
   */
  lemma SettledIsFixpoint(specs: seq<ConditionSpec>, obs: seq<ConditionObservation>, conds: map<string, Condition>)
    requires Lists(obs, conds) && Settled(specs, conds)
    ensures AdoptAll(specs, obs) == specs
  {
    forall i | 0 <= i < |specs| ensures Adopt(specs[i], obs) == specs[i] {
      assert specs[i] in specs;
      AdoptIsClaim(specs[i], obs, conds);
    }
  }

  /**
   * Late initialisation touches only a nil default, which becomes the observed flag, and nil or stale
   * IDs, and doing it again after
   * another observation of the same conditions, in any order and whatever the default is by then,
   * changes nothing.
   */
  lemma LateInitIdempotent(spec: GateParameters, o: GateObservation, later: GateObservation,
                           conds: map<string, Condition>)
    requires Lists(o.conditions, conds) && Lists(later.conditions, conds)
    ensures var after := LateInitialized(spec, o);
            && after.name == spec.name && |after.conditions| == |spec.conditions|
            && (spec.default.None? ==> after.default == Some(o.isDefault))
            && (spec.default.Some? ==> after.default == spec.default)
            && (forall i | 0 <= i < |spec.conditions| ::
                  && after.conditions[i] == spec.conditions[i].(id := after.conditions[i].id)
                  && (HasValidId(spec.conditions[i], conds) ==> after.conditions[i] == spec.conditions[i]))
            && LateInitialized(after, later) == after
  {
    AdoptedIsSettled(spec.conditions, o.conditions, conds);
    SettledIsFixpoint(AdoptAll(spec.conditions, o.conditions), later.conditions, conds);
    forall i | 0 <= i < |spec.conditions|
      ensures var a := Adopt(spec.conditions[i], o.conditions);
              && a == spec.conditions[i].(id := a.id)
              && (HasValidId(spec.conditions[i], conds) ==> a == spec.conditions[i])
    {
      AdoptIsClaim(spec.conditions[i], o.conditions, conds);
    }
  }

  lemma AdoptedEnvironment(specs: seq<ConditionSpec>, r: Remote, obs: seq<ConditionObservation>)
    requires Environment(specs, r) && Lists(obs, r.conditions)
    ensures Environment(AdoptAll(specs, obs), r)
  {
    var after := AdoptAll(specs, obs);
    forall s <- after ensures s.op != Some("") {
      var i :| 0 <= i < |specs| && s == Adopt(specs[i], obs);
      assert specs[i] in specs;
      AdoptIsClaim(specs[i], obs, r.conditions);
    }
  }

  /** What a caller can check between Observe and Update is enough to start the run. */
  lemma SettledInv(specs: seq<ConditionSpec>, r: Remote)
    requires Environment(specs, r) && Settled(specs, r.conditions)
    requires ValidIdsDistinct(specs, r.conditions) && RivalFree(specs, r.conditions) && NoForetoldId(specs, r)
    ensures Inv(specs, r)
  {
  }

  lemma DistinctKeysDistinctIds(specs: seq<ConditionSpec>, conds: map<string, Condition>)
    ensures KeysDistinct(specs) ==> ValidIdsDistinct(specs, conds)
  {
    if i, j :| 0 <= i < j < |specs| && HasValidId(specs[i], conds) && specs[i].id == specs[j].id {
      assert Key(specs[i]) == Key(specs[j]);
    }
  }

  /** `a` is `s` with at most its ID changed, to one it already claims. */
  ghost predicate Relabelled(s: ConditionSpec, a: ConditionSpec, conds: map<string, Condition>) {
    && a == s.(id := a.id)
    && (forall id :: Claims(a, conds, id) <==> Claims(s, conds, id))
    && (Outdated(a, conds) <==> Outdated(s, conds))
    && (HasValidId(s, conds) ==> a == s)
    && (a == s || HasValidId(a, conds))
  }

  /** In the middle of a run, observing again re-labels specs but moves no claim. */
  lemma AdoptRelabels(specs: seq<ConditionSpec>, s: ConditionSpec, r: Remote, obs: seq<ConditionObservation>)
    requires Inv(specs, r) && s in specs && Lists(obs, r.conditions)
    ensures Relabelled(s, Adopt(s, obs), r.conditions)
  {
    AdoptIsClaim(s, obs, r.conditions);
  }

  /** Observing in the middle of a run keeps the invariant and what is amiss. */
  lemma AdoptionKeepsMismatch(specs: seq<ConditionSpec>, r: Remote, obs: seq<ConditionObservation>)
    requires Inv(specs, r) && Lists(obs, r.conditions)
    ensures Inv(AdoptAll(specs, obs), r)
    ensures Mismatch(AdoptAll(specs, obs), r.conditions) == Mismatch(specs, r.conditions)
  {
    var after, conds := AdoptAll(specs, obs), r.conditions;
    forall i | 0 <= i < |specs| ensures Relabelled(specs[i], after[i], conds) {
      AdoptRelabels(specs, specs[i], r, obs);
    }
    AdoptedEnvironment(specs, r, obs);
    AdoptedIsSettled(specs, obs, conds);
    forall i, j | 0 <= i < j < |specs| && HasValidId(after[i], conds) && HasValidId(after[j], conds)
      ensures after[i].id != after[j].id
    {
      assert Claims(after[i], conds, after[i].id.value) && Claims(after[j], conds, after[j].id.value);
    }
    SettledInv(after, r);
    forall id <- conds ensures Unclaimed(after, conds, id) <==> Unclaimed(specs, conds, id) {
      ClaimsOfAll(specs, after, conds, id);
    }
  }

  lemma AdoptionKeepsKeys(specs: seq<ConditionSpec>, r: Remote, obs: seq<ConditionObservation>)
    requires Inv(specs, r) && Lists(obs, r.conditions) && KeysDistinct(specs)
    ensures KeysDistinct(AdoptAll(specs, obs))
  {
    var after := AdoptAll(specs, obs);
    forall i, j | 0 <= i < j < |specs| ensures Key(after[i]) != Key(after[j]) {
      AdoptRelabels(specs, specs[i], r, obs);
      AdoptRelabels(specs, specs[j], r, obs);
      RelabelledKeysDiffer(specs, r, i, j, after[i], after[j]);
    }
  }

  lemma RelabelledKeysDiffer(specs: seq<ConditionSpec>, r: Remote, i: nat, j: nat, a: ConditionSpec, b: ConditionSpec)
    requires Inv(specs, r) && i < j < |specs| && Key(specs[i]) != Key(specs[j])
    requires Relabelled(specs[i], a, r.conditions) && Relabelled(specs[j], b, r.conditions)
    ensures Key(a) != Key(b)
  {
    assert specs[i] in specs && specs[j] in specs;
    assert a.id.Some? ==> !Claims(specs[i], r.conditions, a.id.value) || !Claims(specs[j], r.conditions, a.id.value);
    PlaceholdersDistinct(specs[i].metric, specs[j].metric);
  }

  lemma ClaimsOfAll(specs: seq<ConditionSpec>, after: seq<ConditionSpec>, conds: map<string, Condition>, id: string)
    requires |after| == |specs|
    requires forall i | 0 <= i < |specs| :: Relabelled(specs[i], after[i], conds)
    ensures Unclaimed(after, conds, id) <==> Unclaimed(specs, conds, id)
  {
  }

  lemma PlaceholdersDistinct(a: string, b: string)
    ensures NEW_PREFIX + a == NEW_PREFIX + b ==> a == b
    ensures !ServerId(NEW_PREFIX + a)
  {
    assert (NEW_PREFIX + a)[4..] == a && (NEW_PREFIX + b)[4..] == b;
  }

  // ---------- the association map ----------

  /** The last of the first `n` declared conditions with key `k`. */
  function Winner(specs: seq<ConditionSpec>, n: nat, k: string): Option<nat>
    requires n <= |specs|
  {
    if n == 0 then None
    else if Key(specs[n - 1]) == k then Some(n - 1)
    else Winner(specs, n - 1, k)
  }

  lemma {:induction false} WinnerIsLast(specs: seq<ConditionSpec>, n: nat, k: string)
    requires n <= |specs|
    ensures Winner(specs, n, k).Some? ==> Winner(specs, n, k).value < n && Key(specs[Winner(specs, n, k).value]) == k
    ensures forall j | 0 <= j < n :: Key(specs[j]) == k ==> Winner(specs, n, k).Some? && j <= Winner(specs, n, k).value
  {
    if n != 0 && Key(specs[n - 1]) != k {
      WinnerIsLast(specs, n - 1, k);
    }
  }

  /** Entry `k` in closed form: the observation with that ID, the last spec with that key, and their agreement. */
  function Entry(specs: seq<ConditionSpec>, n: nat, conds: map<string, Condition>,
                 k: string): Association<ConditionObservation>
    requires n <= |specs|
  {
    var seen := if k in conds then Some(ConditionObservation(k, conds[k])) else None;
    var w := Winner(specs, n, k);
    Association(seen, w, w.Some? && w.value < n && IsConditionUpToDate(specs[w.value], seen))
  }

  ghost predicate Shape(m: Associations, specs: seq<ConditionSpec>, n: nat, conds: map<string, Condition>)
    requires n <= |specs|
  {
    && m.Keys == conds.Keys + Keys(specs, n)
    && forall k <- m :: m[k] == Entry(specs, n, conds, k)
  }

  lemma ObservationShape(specs: seq<ConditionSpec>, obs: seq<ConditionObservation>, conds: map<string, Condition>)
    requires Lists(obs, conds)
    ensures Shape(AssociateObservations(obs), specs, 0, conds)
  {
    AssociateObservationsFaithful(obs, specs);
    AssociateObservationsBlank(obs);
  }

  lemma {:induction false} AssociateObservationsBlank(obs: seq<ConditionObservation>)
    ensures forall k <- AssociateObservations(obs) :: !AssociateObservations(obs)[k].upToDate
  {
    if obs != [] {
      AssociateObservationsBlank(Init(obs));
    }
  }

  lemma SpecShapeAt(m: Associations, specs: seq<ConditionSpec>, i: nat, conds: map<string, Condition>, k: string)
    requires i < |specs| && Shape(m, specs, i, conds) && forall id <- conds :: ServerId(id)
    requires k in AssociateSpec(m, specs, i)
    ensures AssociateSpec(m, specs, i)[k] == Entry(specs, i + 1, conds, k)
  {
    if k == Key(specs[i]) {
      PlaceholdersDistinct(specs[i].metric, "");
      assert Winner(specs, i + 1, k) == Some(i);
    } else {
      WinnerIsLast(specs, i, k);
      assert Winner(specs, i + 1, k) == Winner(specs, i, k);
      assert m[k] == Entry(specs, i, conds, k);
    }
  }

  lemma SpecShape(m: Associations, specs: seq<ConditionSpec>, i: nat, conds: map<string, Condition>)
    requires i < |specs| && Shape(m, specs, i, conds) && forall id <- conds :: ServerId(id)
    ensures Shape(AssociateSpec(m, specs, i), specs, i + 1, conds)
  {
    var r := AssociateSpec(m, specs, i);
    assert r.Keys == m.Keys + {Key(specs[i])} && Keys(specs, i + 1) == Keys(specs, i) + {Key(specs[i])};
    forall k <- r ensures r[k] == Entry(specs, i + 1, conds, k) {
      SpecShapeAt(m, specs, i, conds, k);
    }
  }

  lemma {:induction false} AssociationShape(specs: seq<ConditionSpec>, n: nat, obs: seq<ConditionObservation>,
                                            conds: map<string, Condition>)
    requires n <= |specs| && Lists(obs, conds) && forall id <- conds :: ServerId(id)
    ensures Shape(AssociateSpecs(AssociateObservations(obs), specs, n), specs, n, conds)
  {
    if n == 0 {
      ObservationShape(specs, obs, conds);
    } else {
      AssociationShape(specs, n - 1, obs, conds);
      SpecShape(AssociateSpecs(AssociateObservations(obs), specs, n - 1), specs, n - 1, conds);
    }
  }

  /** The last spec with its key: the one whose entry the association map keeps. */
  ghost predicate Wins(specs: seq<ConditionSpec>, i: nat) {
    i < |specs| && forall j | i < j < |specs| :: Key(specs[j]) != Key(specs[i])
  }

  lemma WinnerWins(specs: seq<ConditionSpec>, n: nat, i: nat)
    requires i < n <= |specs|
    ensures Winner(specs, n, Key(specs[i])) == Some(i) <==> forall j | i < j < n :: Key(specs[j]) != Key(specs[i])
  {
    var k := Key(specs[i]);
    var w := Winner(specs, n, k);
    WinnerIsLast(specs, n, k);
    if forall j | i < j < n :: Key(specs[j]) != k {
      assert w.value <= i;
    }
  }

  /**
   * Of the specs that share a key only the last is worked on; whether it is created or updated its own
   * state decides.
   */
  lemma PlanItems(specs: seq<ConditionSpec>, obs: seq<ConditionObservation>, r: Remote, i: nat)
    requires Sane(r) && Lists(obs, r.conditions) && Settled(specs, r.conditions) && i < |specs|
    ensures var plan := PlanOf(Associate(specs, obs));
            && (i in plan.creates <==> Unmet(specs[i], r.conditions) && Wins(specs, i))
            && (i in plan.updates <==> Outdated(specs[i], r.conditions) && Wins(specs, i))
            && (HasValidId(specs[i], r.conditions) ==> specs[i].id.value !in plan.deletes)
  {
    var m, k := Associate(specs, obs), Key(specs[i]);
    AssociationShape(specs, |specs|, obs, r.conditions);
    AssociateSpecsFaithful(specs, |specs|, obs);
    WinnerIsLast(specs, |specs|, k);
    WinnerWins(specs, |specs|, i);
    PlaceholdersDistinct(specs[i].metric, "");
    assert specs[i] in specs && k in Keys(specs, |specs|) && m[k] == Entry(specs, |specs|, r.conditions, k);
    if HasValidId(specs[i], r.conditions) {
      assert Claims(specs[i], r.conditions, k);
    }
  }

  /** The plan the controller reads off its map asks only for what is amiss, and for every deletion. */
  lemma PlanWithinMismatch(specs: seq<ConditionSpec>, obs: seq<ConditionObservation>, r: Remote)
    requires Sane(r) && Lists(obs, r.conditions) && Settled(specs, r.conditions)
    ensures var plan, want := PlanOf(Associate(specs, obs)), Mismatch(specs, r.conditions);
            Within(plan, want) && plan.deletes == want.deletes
  {
    var plan, want := PlanOf(Associate(specs, obs)), Mismatch(specs, r.conditions);
    AssociateSpecsFaithful(specs, |specs|, obs);
    AssociationShape(specs, |specs|, obs, r.conditions);
    forall i | i in plan.creates + plan.updates ensures i in want.creates || i in want.updates {
      PlanItems(specs, obs, r, i);
    }
    forall i: nat | i < |specs|
      ensures i in plan.creates ==> i in want.creates
      ensures i in plan.updates ==> i in want.updates
    {
      PlanItems(specs, obs, r, i);
    }
    forall id <- r.conditions ensures id in plan.deletes <==> id in want.deletes {
      DeletesAgree(specs, obs, r.conditions, id);
    }
  }

  /** With distinct keys that plan is the distance computed from the remote state. */
  lemma AssociationPlanIsMismatch(specs: seq<ConditionSpec>, obs: seq<ConditionObservation>, r: Remote)
    requires Sane(r) && Lists(obs, r.conditions) && Settled(specs, r.conditions) && KeysDistinct(specs)
    ensures PlanOf(Associate(specs, obs)) == Mismatch(specs, r.conditions)
  {
    var plan, want := PlanOf(Associate(specs, obs)), Mismatch(specs, r.conditions);
    PlanWithinMismatch(specs, obs, r);
    forall i: nat | i < |specs|
      ensures i in want.creates ==> i in plan.creates
      ensures i in want.updates ==> i in plan.updates
    {
      PlanItems(specs, obs, r, i);
    }
    assert plan.deletes == want.deletes && plan.creates == want.creates && plan.updates == want.updates;
  }

  lemma DeletesAgree(specs: seq<ConditionSpec>, obs: seq<ConditionObservation>, conds: map<string, Condition>,
                     id: string)
    requires Lists(obs, conds) && forall id <- conds :: ServerId(id)
    requires Settled(specs, conds) && id in conds
    ensures id in MissingKeys(Associate(specs, obs)) <==> Unclaimed(specs, conds, id)
  {
    var w := Winner(specs, |specs|, id);
    AssociationShape(specs, |specs|, obs, conds);
    WinnerIsLast(specs, |specs|, id);
    assert Associate(specs, obs)[id] == Entry(specs, |specs|, conds, id);
    if w.Some? {
      PlaceholdersDistinct(specs[w.value].metric, "");
      assert Claims(specs[w.value], conds, id) && specs[w.value] in specs;
    } else {
      forall s | s in specs ensures !Claims(s, conds, id) {
        var j :| 0 <= j < |specs| && specs[j] == s;
        assert Key(specs[j]) != id;
      }
    }
  }
}
