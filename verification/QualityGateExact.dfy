/**
 * Exactly when deleting before creating is enough, when late initialisation keeps IDs apart, and how
 * many conditions a finished sync leaves.
 */
module QualityGateExact {
  import opened Basics
  import opened Pairing
  import opened QualityGateModel
  import opened QualityGatePlan
  import opened QualityGateMismatch
  import opened QualityGateAdoption
  import opened QualityGateTheory
  import opened QualityGateOrder
  import opened QualityGateRounds
  import opened QualityGateConvergence

  // ---------- delete before create ----------

  lemma {:induction false} NoUpdateBeforeCreate(gate: string, specs: seq<ConditionSpec>, r: Remote, plan: Plan,
                                                steps: seq<Step>)
    requires Run(gate, specs, r, plan, steps) && Left(plan, steps).creates != {}
    ensures forall s <- steps :: !s.call.UpdateCall?
  {
    if steps != [] {
      assert steps == Init(steps) + [Last(steps)];
      NoUpdateBeforeCreate(gate, specs, r, plan, Init(steps));
    }
  }

  lemma {:induction false} NoUpdateCallsNoneDone(steps: seq<Step>)
    requires forall s <- steps :: !s.call.UpdateCall?
    ensures Done(steps).updates == {}
  {
    if steps != [] {
      assert steps == Init(steps) + [Last(steps)] && Last(steps) in steps;
      NoUpdateCallsNoneDone(Init(steps));
    }
  }

  /** A valid spec ID named, at the start, a remote condition of this metric. */
  ghost predicate NamedAtStart(specs: seq<ConditionSpec>, conds: map<string, Condition>, metric: string) {
    exists s <- specs :: HasValidId(s, conds) && conds[s.id.value].metric == metric
  }

  /** A condition for this metric has been created before. */
  ghost predicate MadeBefore(specs: seq<ConditionSpec>, steps: seq<Step>, metric: string) {
    exists j <- Made(steps) :: j < |specs| && specs[j].metric == metric
  }

  /** A run of what Update reads off its map that has got to a creation. */
  ghost predicate Creates(gate: string, specs: seq<ConditionSpec>, obs: seq<ConditionObservation>, r: Remote,
                          steps: seq<Step>)
  {
    && Run(gate, specs, r, PlanOf(Associate(specs, obs)), steps)
    && steps != [] && Last(steps).call.CreateCall?
  }

  /** Where a run stands at a creation: the deletions are done, no update is. */
  lemma AtCreation(gate: string, specs: seq<ConditionSpec>, obs: seq<ConditionObservation>, r: Remote, steps: seq<Step>)
    requires Sane(r) && Lists(obs, r.conditions) && Creates(gate, specs, obs, r, steps)
    ensures var plan, done := PlanOf(Associate(specs, obs)), Done(Init(steps));
            && done.deletes == plan.deletes && done.updates == {}
            && EndsAs(specs, r, done, Made(Init(steps)), Written(Init(steps)), Replay(r, Init(steps)))
            && Last(steps).spec in plan.creates - done.creates && Last(steps).spec < |specs|
            && Last(steps).call.create == CreateRequestFor(gate, specs[Last(steps).spec])
  {
    var plan, before := PlanOf(Associate(specs, obs)), Init(steps);
    PlanIsDoable(specs, obs, r);
    RunEndsAs(gate, specs, r, plan, before);
    DoneAndLeftSplitPlan(gate, specs, r, plan, before);
    assert Due(gate, specs, Left(plan, before), Last(steps));
    NoUpdateBeforeCreate(gate, specs, r, plan, before);
    NoUpdateCallsNoneDone(before);
  }

  /** The remote conditions that no deletion takes away are those that valid spec IDs name. */
  lemma KeptIsNamed(specs: seq<ConditionSpec>, obs: seq<ConditionObservation>, r: Remote, id: string)
    requires Sane(r) && Lists(obs, r.conditions) && id in r.conditions
    ensures id !in PlanOf(Associate(specs, obs)).deletes <==> exists s <- specs :: s.id == Some(id)
  {
    KeyClasses(specs, obs, r.conditions);
    if id in Keys(specs, |specs|) {
      var i :| 0 <= i < |specs| && Key(specs[i]) == id;
      PlaceholdersDistinct(specs[i].metric, "");
      assert specs[i] in specs;
    }
    if s :| s in specs && s.id == Some(id) {
      var i :| 0 <= i < |specs| && specs[i] == s;
      assert Key(specs[i]) == id;
    }
  }

  /** At a creation, a condition under an old ID is as at the start, and a new one has the metric of its spec. */
  lemma ConditionsAtCreation(gate: string, specs: seq<ConditionSpec>, obs: seq<ConditionObservation>, r: Remote,
                             steps: seq<Step>)
    requires Sane(r) && Lists(obs, r.conditions) && Creates(gate, specs, obs, r, steps)
    ensures var here, made := Replay(r, Init(steps)).conditions, Made(Init(steps));
            && here.Keys == (r.conditions.Keys - PlanOf(Associate(specs, obs)).deletes) + Names(made)
            && (forall id | id in here && id in r.conditions :: here[id] == r.conditions[id])
            && (forall j <- made :: j < |specs| && made[j] in here && here[made[j]].metric == specs[j].metric)
  {
    AtCreation(gate, specs, obs, r, steps);
    var here, made := Replay(r, Init(steps)).conditions, Made(Init(steps));
    forall j <- made ensures made[j] in Names(made) && j in Written(Init(steps)) {}
    forall id | id in here && id in r.conditions ensures here[id] == r.conditions[id] {
      assert id !in Names(made);
    }
  }

  /** At the creation call that ends `steps`, the remote gate already holds a condition with the new metric. */
  ghost predicate MeetsItsMetric(r: Remote, steps: seq<Step>) {
    && steps != [] && Last(steps).call.CreateCall?
    && var here := Replay(r, Init(steps)).conditions;
       exists id <- here :: here[id].metric == Last(steps).call.create.metric
  }

  /**
   * For every list of declared conditions: at a creation call the remote gate already holds a condition
   * with the new metric exactly when a valid spec ID named one at the start, or one was created before.
   */
  lemma CreateMeetsMetricExactly(gate: string, specs: seq<ConditionSpec>, obs: seq<ConditionObservation>, r: Remote,
                                 steps: seq<Step>)
    requires Sane(r) && Lists(obs, r.conditions) && Creates(gate, specs, obs, r, steps)
    ensures var metric := Last(steps).call.create.metric;
            MeetsItsMetric(r, steps) <==>
            NamedAtStart(specs, r.conditions, metric) || MadeBefore(specs, Init(steps), metric)
  {
    var metric, made := Last(steps).call.create.metric, Made(Init(steps));
    var here := Replay(r, Init(steps)).conditions;
    ConditionsAtCreation(gate, specs, obs, r, steps);
    if id :| id in here && here[id].metric == metric {
      if id in Names(made) {
        var j :| j in made && made[j] == id;
      } else {
        KeptIsNamed(specs, obs, r, id);
      }
    }
    if s :| s in specs && HasValidId(s, r.conditions) && r.conditions[s.id.value].metric == metric {
      KeptIsNamed(specs, obs, r, s.id.value);
      assert here[s.id.value].metric == metric;
    }
    if j :| j in made && specs[j].metric == metric {
      assert here[made[j]].metric == metric;
    }
  }

  /** A valid ID in the spec names a remote condition of the spec's own metric. */
  ghost predicate MetricPreserving(specs: seq<ConditionSpec>, conds: map<string, Condition>) {
    forall s <- specs :: HasValidId(s, conds) ==> conds[s.id.value].metric == s.metric
  }

  /** Delete-before-create is enough: no creation call meets a condition with its metric. */
  lemma CreateFindsMetricFree(gate: string, specs: seq<ConditionSpec>, obs: seq<ConditionObservation>, r: Remote,
                              steps: seq<Step>)
    requires Sane(r) && Lists(obs, r.conditions) && Creates(gate, specs, obs, r, steps)
    requires DistinctMetrics(specs) && MetricPreserving(specs, r.conditions)
    ensures !MeetsItsMetric(r, steps)
  {
    var i := Last(steps).spec;
    CreateMeetsMetricExactly(gate, specs, obs, r, steps);
    AtCreation(gate, specs, obs, r, steps);
    CreatedHasNoValidId(specs, obs, r, i);
    forall j | 0 <= j < |specs| && specs[j].metric == specs[i].metric ensures j == i {}
    assert !MadeBefore(specs, Init(steps), specs[i].metric);
    forall s | s in specs && HasValidId(s, r.conditions) ensures r.conditions[s.id.value].metric != specs[i].metric {
      var j :| 0 <= j < |specs| && specs[j] == s;
    }
  }

  lemma CreatedHasNoValidId(specs: seq<ConditionSpec>, obs: seq<ConditionObservation>, r: Remote, i: nat)
    requires Sane(r) && Lists(obs, r.conditions) && i in PlanOf(Associate(specs, obs)).creates
    ensures i < |specs| && !HasValidId(specs[i], r.conditions)
  {
    var m := Associate(specs, obs);
    AssociateSpecsFaithful(specs, |specs|, obs);
    KeyClasses(specs, obs, r.conditions);
    var k :| k in m && IsNonExisting(m[k]) && m[k].spec.value == i;
    assert k in NonExistingKeys(m) && k == Key(specs[i]);
  }

  // ---------- late initialisation keeps IDs apart ----------

  ghost predicate IdsDistinct(specs: seq<ConditionSpec>) {
    forall i, j | 0 <= i < j < |specs| :: specs[i].id.None? || specs[i].id != specs[j].id
  }

  /** The ID that some spec without a valid one would adopt is already another spec's valid ID. */
  ghost predicate AdoptsTakenId(specs: seq<ConditionSpec>, obs: seq<ConditionObservation>,
                                conds: map<string, Condition>)
  {
    exists i, j | 0 <= i < |specs| && 0 <= j < |specs| ::
      !HasValidId(specs[i], conds) && HasValidId(specs[j], conds) && FirstMatch(specs[i], obs) == specs[j].id
  }

  /** Two specs without a valid ID would adopt the same one. */
  ghost predicate AdoptsTwice(specs: seq<ConditionSpec>, obs: seq<ConditionObservation>, conds: map<string, Condition>)
  {
    exists i, j | 0 <= i < j < |specs| ::
      && !HasValidId(specs[i], conds) && !HasValidId(specs[j], conds)
      && FirstMatch(specs[i], obs).Some? && FirstMatch(specs[i], obs) == FirstMatch(specs[j], obs)
  }

  /** IDs that were distinct stay distinct exactly when no ID is adopted that is taken or adopted by another spec. */
  lemma AdoptedIdsDistinctExactly(specs: seq<ConditionSpec>, obs: seq<ConditionObservation>,
                                  conds: map<string, Condition>)
    requires Lists(obs, conds) && IdsDistinct(specs)
    ensures IdsDistinct(AdoptAll(specs, obs)) <==> !AdoptsTakenId(specs, obs, conds) && !AdoptsTwice(specs, obs, conds)
  {
    var after := AdoptAll(specs, obs);
    forall i | 0 <= i < |specs|
      ensures HasValidId(specs[i], conds) ==> after[i] == specs[i]
      ensures !HasValidId(specs[i], conds) ==>
                var m := FirstMatch(specs[i], obs);
                after[i].id == (if m.Some? then m else specs[i].id) && (m.Some? ==> m.value in conds)
    {
      AdoptIsClaim(specs[i], obs, conds);
      FirstMatchIsFirst(specs[i], obs);
    }
    if i, j :| 0 <= i < |specs| && 0 <= j < |specs| && !HasValidId(specs[i], conds) && HasValidId(specs[j], conds)
               && FirstMatch(specs[i], obs) == specs[j].id {
      assert after[i].id == after[j].id && after[i].id.Some?;
      assert !IdsDistinct(after);
    }
  }

  /** With distinct metrics and IDs that keep their metric nobody adopts an ID that is not free. */
  lemma MetricsKeepIdsFree(specs: seq<ConditionSpec>, obs: seq<ConditionObservation>, conds: map<string, Condition>)
    requires Lists(obs, conds) && DistinctMetrics(specs) && MetricPreserving(specs, conds)
    ensures !AdoptsTakenId(specs, obs, conds) && !AdoptsTwice(specs, obs, conds)
  {
    forall i | 0 <= i < |specs| && FirstMatch(specs[i], obs).Some?
      ensures var id := FirstMatch(specs[i], obs).value; id in conds && conds[id].metric == specs[i].metric
    {
      FirstMatchIsFirst(specs[i], obs);
    }
    forall i, j | 0 <= i < |specs| && 0 <= j < |specs| && !HasValidId(specs[i], conds) && HasValidId(specs[j], conds)
      ensures FirstMatch(specs[i], obs) != specs[j].id
    {
      assert specs[j] in specs;
    }
  }

  /** A spec holds, as its ID, the placeholder key of another one. */
  ghost predicate HoldsPlaceholder(specs: seq<ConditionSpec>) {
    exists i, j | 0 <= i < |specs| && 0 <= j < |specs| ::
      specs[j].id.None? && specs[i].id == Some(NEW_PREFIX + specs[j].metric)
  }

  lemma KeysFromIdsAndMetrics(specs: seq<ConditionSpec>)
    requires IdsDistinct(specs) && DistinctMetrics(specs)
    ensures KeysDistinct(specs) <==> !HoldsPlaceholder(specs)
  {
    if i, j :| 0 <= i < |specs| && 0 <= j < |specs| && specs[j].id.None?
               && specs[i].id == Some(NEW_PREFIX + specs[j].metric) {
      assert Key(specs[i]) == Key(specs[j]) && i != j;
    }
    forall i, j | 0 <= i < j < |specs| && Key(specs[i]) == Key(specs[j]) ensures HoldsPlaceholder(specs) {
      PlaceholdersDistinct(specs[i].metric, specs[j].metric);
      assert specs[i].id.Some? != specs[j].id.Some?;
    }
  }

  /**
   * Distinct metrics, distinct IDs and IDs that keep their metric: late initialisation gives no two specs
   * one ID. Then some number of rounds is certain to do unless an ID in the spec is still to be handed out,
   * and one round is unless, besides, a spec holds another one's placeholder key as its ID.
   */
  lemma LateInitInjectivity(gate: string, specs: seq<ConditionSpec>, obs: seq<ConditionObservation>, r: Remote)
    requires Environment(specs, r) && Lists(obs, r.conditions)
    requires DistinctMetrics(specs) && IdsDistinct(specs) && MetricPreserving(specs, r.conditions)
    ensures IdsDistinct(AdoptAll(specs, obs))
    ensures var x := Scene(AdoptAll(specs, obs), obs, r);
            && ((exists n: nat :: InSyncAfter(gate, x, n)) <==> NoForetoldId(x.specs, r))
            && (InSyncAfter(gate, x, 1) <==> NoForetoldId(x.specs, r) && !HoldsPlaceholder(x.specs))
  {
    var x := Scene(AdoptAll(specs, obs), obs, r);
    MetricsKeepIdsFree(specs, obs, r.conditions);
    AdoptedIdsDistinctExactly(specs, obs, r.conditions);
    forall i | 0 <= i < |specs| ensures x.specs[i].metric == specs[i].metric {
      AdoptIsClaim(specs[i], obs, r.conditions);
    }
    AdoptedEnvironment(specs, r, obs);
    AdoptedIsSettled(specs, obs, r.conditions);
    DistinctMetricsAreRivalFree(x.specs, r.conditions);
    KeysFromIdsAndMetrics(x.specs);
    EventuallyInSyncExactly(gate, x);
    ConvergesExactly(gate, x);
  }

  /** It is enough that every ID in the spec was handed out by the server and does not look like a placeholder key. */
  lemma HandedOutIdsConverge(gate: string, specs: seq<ConditionSpec>, obs: seq<ConditionObservation>, r: Remote)
    requires Environment(specs, r) && Lists(obs, r.conditions)
    requires DistinctMetrics(specs) && IdsDistinct(specs) && MetricPreserving(specs, r.conditions)
    requires forall s <- specs :: s.id.Some? ==> s.id.value in r.used && ServerId(s.id.value)
    ensures InSyncAfter(gate, Scene(AdoptAll(specs, obs), obs, r), 1)
  {
    var after := AdoptAll(specs, obs);
    LateInitInjectivity(gate, specs, obs, r);
    forall i | 0 <= i < |specs| && after[i].id.Some?
      ensures after[i].id.value in r.used && ServerId(after[i].id.value)
    {
      assert specs[i] in specs;
      AdoptIsClaim(specs[i], obs, r.conditions);
    }
    forall j | 0 <= j < |specs| ensures !ServerId(NEW_PREFIX + after[j].metric) {
      PlaceholdersDistinct(after[j].metric, "");
    }
  }

  // ---------- how many conditions a finished sync leaves ----------

  function Image<A, B>(xs: set<A>, f: map<A, B>): set<B>
    requires xs <= f.Keys
  {
    set x <- xs :: f[x]
  }

  lemma {:induction false} InjectiveImageSize<A, B>(xs: set<A>, f: map<A, B>)
    requires xs <= f.Keys && forall x, y | x in xs && y in xs && f[x] == f[y] :: x == y
    ensures |Image(xs, f)| == |xs|
  {
    if xs != {} {
      var x :| x in xs;
      InjectiveImageSize(xs - {x}, f);
      assert Image(xs, f) == Image(xs - {x}, f) + {f[x]};
    }
  }

  lemma CallCounts(r: Remote, call: Call)
    requires Answered(r, call) && forall id <- r.conditions :: id in r.used
    ensures var end := Apply(r, call);
            && |end.conditions| == |r.conditions| + (if call.ok && call.CreateCall? then 1 else 0)
                                                  - (if call.ok && call.DeleteCall? then 1 else 0)
            && (forall id <- end.conditions :: id in end.used)
  {
  }

  /** The server's condition count follows the successful deletions and creations. */
  lemma {:induction false} CountFollowsCalls(gate: string, specs: seq<ConditionSpec>, r: Remote, plan: Plan,
                                             steps: seq<Step>)
    requires Run(gate, specs, r, plan, steps) && forall id <- r.conditions :: id in r.used
    ensures var end, left := Replay(r, steps), Left(plan, steps);
            && |end.conditions| - |left.deletes| + |left.creates| == |r.conditions| - |plan.deletes| + |plan.creates|
            && (forall id <- end.conditions :: id in end.used)
  {
    if steps != [] {
      CountFollowsCalls(gate, specs, r, plan, Init(steps));
      CallCounts(Replay(r, Init(steps)), Last(steps).call);
      assert Due(gate, specs, Left(plan, Init(steps)), Last(steps));
    }
  }

  lemma CreatesCounted(m: Associations)
    requires PointersOnce(m)
    ensures |PlanOf(m).creates| == |NonExistingKeys(m)|
  {
    var pointer: map<string, nat> := map k <- NonExistingKeys(m) :: m[k].spec.value;
    InjectiveImageSize(NonExistingKeys(m), pointer);
    forall i ensures i in PlanOf(m).creates <==> i in Image(NonExistingKeys(m), pointer) {
      if i in PlanOf(m).creates {
        var k :| k in m && IsNonExisting(m[k]) && m[k].spec.value == i;
        assert k in NonExistingKeys(m) && pointer[k] == i;
      }
    }
    assert PlanOf(m).creates == Image(NonExistingKeys(m), pointer);
  }

  lemma SymmetricSizes<T>(a: set<T>, b: set<T>)
    ensures |a| - |a - b| + |b - a| == |b|
  {
  }

  /** On every input, a finished sync leaves one remote condition per association key, however many specs share it. */
  lemma FinishedSize(gate: string, specs: seq<ConditionSpec>, r: Remote, obs: seq<ConditionObservation>,
                     steps: seq<Step>)
    requires Sane(r) && Lists(obs, r.conditions) && Finished(gate, specs, obs, r, steps)
    ensures |Replay(r, steps).conditions| == |Keys(specs, |specs|)|
  {
    var m := Associate(specs, obs);
    CountFollowsCalls(gate, specs, r, PlanOf(m), steps);
    AssociateSpecsFaithful(specs, |specs|, obs);
    KeyClasses(specs, obs, r.conditions);
    CreatesCounted(m);
    SymmetricSizes(r.conditions.Keys, Keys(specs, |specs|));
  }
}
