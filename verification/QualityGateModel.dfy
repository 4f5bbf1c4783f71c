/**
 * Quality-gate conditions: the declared and observed values, late initialisation of condition IDs,
 * and the association map that pairs declared with observed conditions.
 */
module QualityGateModel {
  import opened Basics
  import opened Pairing

  /** What the server stores for one condition. */
  datatype Condition = Condition(metric: string, error: string, op: string)

  datatype ConditionSpec = ConditionSpec(id: Option<string>, metric: string, error: string, op: Option<string>)

  datatype ConditionObservation = ConditionObservation(id: string, condition: Condition)

  datatype GateParameters = GateParameters(name: string, default: Option<bool>, conditions: seq<ConditionSpec>)

  datatype GateObservation = GateObservation(name: string, isDefault: bool, conditions: seq<ConditionObservation>)

  type Associations = Paired<ConditionObservation>

  /** An empty `op` is an operator that was not sent. */
  datatype CreateRequest = CreateRequest(gate: string, metric: string, error: string, op: string)
  datatype UpdateRequest = UpdateRequest(id: string, metric: string, error: string, op: string)

  function SentOp(s: ConditionSpec): string {
    if s.op.Some? then s.op.value else ""
  }

  function CreateRequestFor(gate: string, s: ConditionSpec): CreateRequest {
    CreateRequest(gate, s.metric, s.error, SentOp(s))
  }

  function UpdateRequestFor(id: string, s: ConditionSpec): UpdateRequest {
    UpdateRequest(id, s.metric, s.error, SentOp(s))
  }

  /** Same metric, same error, and same operator unless the declared one is nil. */
  predicate Matches(s: ConditionSpec, c: Condition) {
    s.metric == c.metric && s.error == c.error && (s.op.None? || s.op.value == c.op)
  }

  predicate IsConditionUpToDate(s: ConditionSpec, o: Option<ConditionObservation>) {
    o.Some? && Matches(s, o.value.condition)
  }

  // ---------- late initialisation ----------

  function Ids(obs: seq<ConditionObservation>): set<string> {
    set o <- obs :: o.id
  }

  lemma IdsSnoc(obs: seq<ConditionObservation>, o: ConditionObservation)
    ensures Ids(obs + [o]) == Ids(obs) + {o.id}
  {
  }

  function FirstMatch(s: ConditionSpec, obs: seq<ConditionObservation>): Option<string> {
    if obs == [] then None
    else if Matches(s, obs[0].condition) then Some(obs[0].id)
    else FirstMatch(s, obs[1..])
  }

  function Adopt(s: ConditionSpec, obs: seq<ConditionObservation>): ConditionSpec {
    if s.id.Some? && s.id.value in Ids(obs) then s
    else var id := FirstMatch(s, obs); if id.Some? then s.(id := id) else s
  }

  function AdoptAll(specs: seq<ConditionSpec>, obs: seq<ConditionObservation>): (r: seq<ConditionSpec>) {
    seq(|specs|, i requires 0 <= i < |specs| => Adopt(specs[i], obs))
  }

  function LateInitialized(spec: GateParameters, o: GateObservation): GateParameters {
    GateParameters(spec.name,
                   if spec.default.None? then Some(o.isDefault) else spec.default,
                   AdoptAll(spec.conditions, o.conditions))
  }

  // ---------- association map ----------

  const NEW_PREFIX := "new:"

  function Key(s: ConditionSpec): string {
    if s.id.Some? then s.id.value else NEW_PREFIX + s.metric
  }

  function AssociateObservations(obs: seq<ConditionObservation>): Associations {
    if obs == [] then map[]
    else AssociateObservations(Init(obs))[Last(obs).id := Association(Some(Last(obs)), None, false)]
  }

  function AssociateSpec(m: Associations, specs: seq<ConditionSpec>, i: nat): Associations
    requires i < |specs|
  {
    var s := specs[i];
    if s.id.Some? && s.id.value in m then
      var known := m[s.id.value].observation;
      m[s.id.value := Association(known, Some(i), IsConditionUpToDate(s, known))]
    else
      m[Key(s) := Association(None, Some(i), false)]
  }

  function AssociateSpecs(m: Associations, specs: seq<ConditionSpec>, n: nat): Associations
    requires n <= |specs|
  {
    if n == 0 then m else AssociateSpec(AssociateSpecs(m, specs, n - 1), specs, n - 1)
  }

  function Associate(specs: seq<ConditionSpec>, obs: seq<ConditionObservation>): Associations {
    AssociateSpecs(AssociateObservations(obs), specs, |specs|)
  }

  predicate IsGateUpToDate(spec: GateParameters, o: GateObservation, m: Associations) {
    && spec.name == o.name
    && (spec.default.None? || spec.default.value == o.isDefault)
    && AllUpToDate(m)
  }

  // ---------- the repair plan read off an association map ----------

  /**
   * The calls an association map asks for: IDs to delete, declared conditions to create and
   * declared conditions whose observed counterpart must be updated.
   */
  datatype Plan = Plan(deletes: set<string>, creates: set<nat>, updates: set<nat>) {
    function Size(): nat { |deletes| + |creates| + |updates| }
  }

  const NOTHING := Plan({}, {}, {})

  function PlanOf(m: Associations): Plan {
    Plan(MissingKeys(m),
         set k <- m | IsNonExisting(m[k]) :: m[k].spec.value,
         set k <- m | IsOutdated(m[k]) :: m[k].spec.value)
  }

  /**
   * What the generator guarantees of every entry it builds, and what each phase keeps while it
   * re-keys the map: an observed entry sits under its server ID, an entry is up to date only if it
   * has both sides, and an outdated entry's spec carries the ID it is stored under.
   */
  predicate FaithfulEntry(k: string, a: Association<ConditionObservation>, specs: seq<ConditionSpec>) {
    && (a.spec.Some? ==> a.spec.value < |specs|)
    && (a.observation.Some? ==> a.observation.value.id == k)
    && (a.observation.None? ==> a.spec.Some?)
    && (a.upToDate ==> a.observation.Some? && a.spec.Some?)
    && (IsOutdated(a) ==> specs[a.spec.value].id == Some(k))
  }

  predicate Faithful(m: Associations, specs: seq<ConditionSpec>) {
    forall k <- m :: FaithfulEntry(k, m[k], specs)
  }

  /** No pointer occurs twice. */
  predicate PointersOnce(m: Associations) {
    forall k, l :: k in m && l in m && m[k].spec.Some? && m[k].spec == m[l].spec ==> k == l
  }

  lemma {:induction false} AssociateObservationsFaithful(obs: seq<ConditionObservation>, specs: seq<ConditionSpec>)
    ensures var m := AssociateObservations(obs);
            && Faithful(m, specs) && m.Keys == Ids(obs)
            && forall k <- m :: IsMissing(m[k]) && m[k].observation.value in obs
  {
    if obs != [] {
      AssociateObservationsFaithful(Init(obs), specs);
      assert obs == Init(obs) + [Last(obs)];
    }
  }

  /** Of several observations with one ID the last is kept. */
  lemma {:induction false} LastObservationWins(obs: seq<ConditionObservation>, i: nat)
    requires i < |obs| && forall j | i < j < |obs| :: obs[j].id != obs[i].id
    ensures var m := AssociateObservations(obs); obs[i].id in m && m[obs[i].id].observation == Some(obs[i])
  {
    if i < |obs| - 1 {
      LastObservationWins(Init(obs), i);
    }
  }

  function Keys(specs: seq<ConditionSpec>, n: nat): set<string>
    requires n <= |specs|
  {
    set i | 0 <= i < n :: Key(specs[i])
  }

  /** Every pointer in the map is to one of the first `n` declared conditions, stored under its own key. */
  ghost predicate Located(m: Associations, specs: seq<ConditionSpec>, n: nat)
    requires n <= |specs|
  {
    forall k <- m :: m[k].spec.Some? ==> m[k].spec.value < n && k == Key(specs[m[k].spec.value])
  }

  lemma AssociateSpecFaithful(m: Associations, specs: seq<ConditionSpec>, i: nat)
    requires i < |specs| && Faithful(m, specs) && Located(m, specs, i)
    ensures var r := AssociateSpec(m, specs, i);
            Faithful(r, specs) && Located(r, specs, i + 1) && r.Keys == m.Keys + {Key(specs[i])}
  {
  }

  /** Holds of every input: colliding keys, repeated IDs and IDs that look like placeholders included. */
  lemma {:induction false} AssociateSpecsFaithful(specs: seq<ConditionSpec>, n: nat, obs: seq<ConditionObservation>)
    requires n <= |specs|
    ensures var m := AssociateSpecs(AssociateObservations(obs), specs, n);
            Faithful(m, specs) && Located(m, specs, n) && m.Keys == Ids(obs) + Keys(specs, n)
  {
    if n == 0 {
      AssociateObservationsFaithful(obs, specs);
    } else {
      AssociateSpecsFaithful(specs, n - 1, obs);
      AssociateSpecFaithful(AssociateSpecs(AssociateObservations(obs), specs, n - 1), specs, n - 1);
      assert Keys(specs, n) == Keys(specs, n - 1) + {Key(specs[n - 1])};
    }
  }

  /** Every entry is in exactly one of four classes, and the verdict is that the first three are empty. */
  lemma VerdictIsEmptyPlan(specs: seq<ConditionSpec>, obs: seq<ConditionObservation>)
    ensures var m := Associate(specs, obs);
            && MissingKeys(m) !! NonExistingKeys(m) !! OutdatedKeys(m)
            && (AllUpToDate(m) <==> PlanOf(m) == NOTHING)
            && (set k <- m | !m[k].upToDate) == MissingKeys(m) + NonExistingKeys(m) + OutdatedKeys(m)
  {
    var m := Associate(specs, obs);
    AssociateSpecsFaithful(specs, |specs|, obs);
    if !AllUpToDate(m) {
      var k :| k in m && !m[k].upToDate;
      if IsNonExisting(m[k]) {
        assert m[k].spec.value in PlanOf(m).creates;
      } else if IsOutdated(m[k]) {
        assert m[k].spec.value in PlanOf(m).updates;
      } else {
        assert k in PlanOf(m).deletes;
      }
    }
  }

  ghost predicate KeysDistinct(specs: seq<ConditionSpec>) {
    forall i, j :: 0 <= i < j < |specs| ==> Key(specs[i]) != Key(specs[j])
  }

  /** No declared condition is overwritten in the map exactly when the association keys are distinct. */
  lemma EverySpecRepresentedIffKeysDistinct(specs: seq<ConditionSpec>, obs: seq<ConditionObservation>)
    ensures var m := Associate(specs, obs);
            KeysDistinct(specs) <==> forall i: nat :: i < |specs| ==> exists k <- m :: m[k].spec == Some(i)
  {
    var m := Associate(specs, obs);
    AssociateSpecsFaithful(specs, |specs|, obs);
    if KeysDistinct(specs) {
      forall i: nat | i < |specs| ensures exists k <- m :: m[k].spec == Some(i) {
        SpecAtItsKey(specs, |specs|, obs, i);
      }
    } else {
      var i, j :| 0 <= i < j < |specs| && Key(specs[i]) == Key(specs[j]);
      assert forall k <- m :: m[k].spec == Some(i) ==> m[k].spec != Some(j) && k == Key(specs[j]);
      if k: string :| k in m && m[k].spec == Some(i) {
        assert forall l <- m :: m[l].spec != Some(j);
        var lost: nat := j;
        assert !exists l <- m :: m[l].spec == Some(lost);
      } else {
        var lost: nat := i;
        assert !exists l <- m :: m[l].spec == Some(lost);
      }
    }
  }

  /** The entry under a declared condition's key holds the last condition with that key. */
  lemma {:induction false} SpecAtItsKey(specs: seq<ConditionSpec>, n: nat, obs: seq<ConditionObservation>, i: nat)
    requires i < n <= |specs| && forall j :: i < j < n ==> Key(specs[j]) != Key(specs[i])
    ensures var m := AssociateSpecs(AssociateObservations(obs), specs, n);
            Key(specs[i]) in m && m[Key(specs[i])].spec == Some(i)
  {
    if i < n - 1 {
      SpecAtItsKey(specs, n - 1, obs, i);
    }
  }
}
