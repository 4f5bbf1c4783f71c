/** Inputs on which the quality-gate reconciler does not do what one would expect of it. */
module QualityGateWitnesses {
  import opened Basics
  import opened QualityGateModel
  import opened QualityGatePlan
  import opened QualityGateMismatch
  import opened QualityGateAdoption
  import opened QualityGateTheory
  import opened QualityGateOrder
  import opened QualityGateRounds
  import opened QualityGateConvergence
  import opened QualityGateExact

  const FRESH_SERVER := Remote(map[], {})

  /** Two new conditions on one metric, against a server without conditions. */
  function OnOneMetric(metric: string, error: string, error': string): Scene {
    Scene([ConditionSpec(None, metric, error, None), ConditionSpec(None, metric, error', None)], [], FRESH_SERVER)
  }

  /** They share a placeholder key, so one round creates only the second. */
  lemma TwoNewConditionsShareAKey(gate: string, metric: string, error: string, error': string)
    ensures var x := OnOneMetric(metric, error, error');
            Observed(x) && |Associate(x.specs, x.obs)| == 1 && !InSyncAfter(gate, x, 1)
  {
    var x := OnOneMetric(metric, error, error');
    assert Key(x.specs[0]) == Key(x.specs[1]) == NEW_PREFIX + metric;
    AssociateSpecsFaithful(x.specs, 2, []);
    assert Associate(x.specs, []).Keys == {Key(x.specs[0])};
    ConvergesExactly(gate, x);
  }

  /** With different thresholds a second round creates the other. */
  lemma TwoThresholdsTakeTwoRounds(gate: string, metric: string, error: string, error': string)
    requires error != error'
    ensures InSyncAfter(gate, OnOneMetric(metric, error, error'), 2)
  {
    var x := OnOneMetric(metric, error, error');
    forall k ensures |Waiting(x, k)| <= 2 {
      AtMostAll(2, Waiting(x, k));
    }
    InSyncAfterExactly(gate, x, 2);
  }

  /** Both declarations hold one remote condition. */
  ghost predicate ShareACondition(x: Scene) {
    && |x.specs| == 2 && HasValidId(x.specs[0], x.remote.conditions) && x.specs[0].id == x.specs[1].id
  }

  lemma SharersGoQuiet(gate: string, x: Scene, cycles: seq<Cycle>)
    requires Observed(x) && ShareACondition(x) && Cycles(gate, x, cycles) && cycles != []
    ensures Quiet(End(x, cycles))
  {
    SharersAreMet(x);
    GoesQuiet(gate, x, cycles);
  }

  lemma SharersAreMet(x: Scene)
    requires ShareACondition(x)
    ensures Unmets(x) == {}
  {
    UnmetHasNoValidId(x.specs[0], x.remote.conditions);
    UnmetHasNoValidId(x.specs[1], x.remote.conditions);
  }

  /**
   * With equal thresholds both declarations hold the one condition for good, whatever the server answers,
   * and from the second round on nothing is reported.
   */
  lemma TwoEqualDeclarationsNeverSync(gate: string, metric: string, error: string)
    ensures var x := OnOneMetric(metric, error, error);
            forall cycles | Cycles(gate, x, cycles) ::
              && !Synced(End(x, cycles)) && (cycles != [] ==> ShareACondition(End(x, cycles)))
              && (|cycles| > 1 ==> Quiet(End(x, cycles)))
  {
    var x := OnOneMetric(metric, error, error);
    forall cycles | Cycles(gate, x, cycles)
      ensures !Synced(End(x, cycles)) && (cycles != [] ==> ShareACondition(End(x, cycles)))
      ensures |cycles| > 1 ==> Quiet(End(x, cycles))
    {
      if cycles == [] {
        assert x.specs[0] in x.specs && !Held(x.specs[0], x.remote.conditions);
      } else {
        BothAdopt(gate, x, cycles[0]);
        NextObserved(gate, x, cycles[0]);
        SharedForGood(gate, Next(x, cycles[0]), cycles[1..], 0, 1);
        if |cycles| > 1 {
          SharersGoQuiet(gate, Next(x, cycles[0]), cycles[1..]);
        }
      }
    }
  }

  /** One condition is created for two equal declarations, and both adopt it. */
  lemma BothAdopt(gate: string, x: Scene, c: Cycle)
    requires Observed(x) && IsCycle(gate, x, c) && x.remote.conditions == map[] && |x.specs| == 2
    requires x.specs[0] == x.specs[1] && x.specs[0].id.None?
    ensures var y := Next(x, c); HasValidId(y.specs[0], y.remote.conditions) && y.specs[0].id == y.specs[1].id
  {
    FinishedEndsAs(gate, x.specs, x.obs, x.remote, c.steps);
    PlanItems(x.specs, x.obs, x.remote, 1);
    var conds := Replay(x.remote, c.steps).conditions;
    var id := Made(c.steps)[1];
    assert x.specs[1] in x.specs;
    StoredIsCompatible(x.specs[1], x.specs[1], Written(c.steps)[1]);
    assert Claims(x.specs[0], conds, id);
    AdoptIsClaim(x.specs[0], c.obs, conds);
  }

  /** Distinct keys are not enough: a new condition equal to what an outdated one is about to become. */
  lemma RivalOfAnUpdate(gate: string)
    ensures var specs := [ConditionSpec(Some("1"), "bugs", "5", None), ConditionSpec(None, "bugs", "5", None)];
            var conds := map["1" := Condition("bugs", "10", "GT")];
            var x := Scene(specs, [ConditionObservation("1", conds["1"])], Remote(conds, {"1"}));
            Observed(x) && KeysDistinct(specs) && forall n: nat :: !InSyncAfter(gate, x, n)
  {
    var specs := [ConditionSpec(Some("1"), "bugs", "5", None), ConditionSpec(None, "bugs", "5", None)];
    var conds := map["1" := Condition("bugs", "10", "GT")];
    var x := Scene(specs, [ConditionObservation("1", conds["1"])], Remote(conds, {"1"}));
    assert x.obs[0] in x.obs && Key(specs[1]) == "new:bugs";
    assert Compatible(specs[1], specs[0]) && !HasValidId(specs[1], conds) && !Held(specs[0], conds);
    EventuallyInSyncExactly(gate, x);
  }

  /**
   * A spec whose metric was edited keeps its ID, a new spec equal to the old condition adopts the same
   * one, no number of rounds parts them, and nothing is reported.
   */
  lemma EditedMetricSharesItsId(gate: string)
    ensures var specs := [ConditionSpec(Some("1"), "bugs", "5", None), ConditionSpec(None, "coverage", "80", None)];
            var conds := map["1" := Condition("coverage", "80", "LT")];
            var obs := [ConditionObservation("1", conds["1"])];
            var x := Scene(AdoptAll(specs, obs), obs, Remote(conds, {"1"}));
            && DistinctMetrics(specs) && IdsDistinct(specs) && Observed(x) && !KeysDistinct(x.specs)
            && forall cycles | Cycles(gate, x, cycles) ::
                 && !Synced(End(x, cycles)) && ShareACondition(End(x, cycles))
                 && (cycles != [] ==> Quiet(End(x, cycles)))
  {
    var specs := [ConditionSpec(Some("1"), "bugs", "5", None), ConditionSpec(None, "coverage", "80", None)];
    var conds := map["1" := Condition("coverage", "80", "LT")];
    var obs := [ConditionObservation("1", conds["1"])];
    var x := Scene(AdoptAll(specs, obs), obs, Remote(conds, {"1"}));
    assert obs[0] in obs;
    AdoptedIsSettled(specs, obs, conds);
    assert Key(x.specs[0]) == "1" == Key(x.specs[1]);
    forall cycles | Cycles(gate, x, cycles)
      ensures !Synced(End(x, cycles)) && ShareACondition(End(x, cycles))
      ensures cycles != [] ==> Quiet(End(x, cycles))
    {
      SharedForGood(gate, x, cycles, 0, 1);
      if cycles != [] {
        SharersGoQuiet(gate, x, cycles);
      }
    }
  }

  /** An ID the server has not handed out yet: once it does, for another condition, two specs share it. */
  lemma IdNotYetHandedOut(gate: string, id: string, s: ConditionSpec, t: ConditionSpec)
    requires s.id == Some(id) && t.id == None && ServerId(id) && s.metric != t.metric && OperatorsDeclared([s, t])
    ensures var x := Scene([s, t], [], FRESH_SERVER);
            && Observed(x) && KeysDistinct(x.specs) && RivalFree(x.specs, x.remote.conditions)
            && forall n: nat :: !InSyncAfter(gate, x, n)
  {
    var x := Scene([s, t], [], FRESH_SERVER);
    PlaceholdersDistinct(t.metric, "");
    assert MayIssue(x.remote, x.specs[0].id.value) && Unmet(x.specs[1], x.remote.conditions);
    EventuallyInSyncExactly(gate, x);
  }

  // ---------- creations that meet a condition with their metric ----------

  /** A plan of nothing but creations can be worked off, and ends in a creation. */
  lemma EndsInCreation(gate: string, x: Scene) returns (steps: seq<Step>)
    requires Observed(x) && PlanFor(x).updates == {} && PlanFor(x).deletes == {} && PlanFor(x).creates != {}
    ensures Creates(gate, x.specs, x.obs, x.remote, steps) && |steps| == |PlanFor(x).creates|
  {
    var plan := PlanFor(x);
    PlanIsDoable(x.specs, x.obs, x.remote);
    steps := FinishRun(gate, x.specs, x.remote, plan, [], "GT", -1);
    RunSpendsPlan(gate, x.specs, x.remote, plan, steps);
    assert Due(gate, x.specs, Left(plan, Init(steps)), Last(steps));
    DoneAndLeftSplitPlan(gate, x.specs, x.remote, plan, Init(steps));
  }

  /** Each call of a plan without deletions is a creation, up to the last creation. */
  lemma MadeOnlyCreations(gate: string, x: Scene, steps: seq<Step>)
    requires Run(gate, x.specs, x.remote, PlanFor(x), steps) && AllOk(steps)
    requires PlanFor(x).deletes == {} && PlanFor(x).updates == {}
    ensures steps != [] <==> exists i :: i in Made(steps)
  {
    if steps != [] {
      assert Due(gate, x.specs, Left(PlanFor(x), Init(steps)), Last(steps));
      DoneAndLeftSplitPlan(gate, x.specs, x.remote, PlanFor(x), Init(steps));
      assert Last(steps).spec in Made(steps);
    }
  }

  /** The metric of condition "1" was edited away from "bugs", and a new condition on "bugs" declared. */
  function EditedAway(): Scene {
    var conds := map["1" := Condition("bugs", "10", "GT")];
    Scene([ConditionSpec(Some("1"), "coverage", "80", None), ConditionSpec(None, "bugs", "5", None)],
          [ConditionObservation("1", conds["1"])], Remote(conds, {"1"}))
  }

  lemma EditedAwayObserved()
    ensures var x := EditedAway(); Observed(x) && KeysDistinct(x.specs) && DistinctMetrics(x.specs)
  {
    var x := EditedAway();
    assert x.obs[0] in x.obs && Key(x.specs[1]) == "new:bugs";
  }

  lemma EditedAwayIsNamed()
    ensures NamedAtStart(EditedAway().specs, EditedAway().remote.conditions, "bugs")
  {
    var x := EditedAway();
    assert x.specs[0] in x.specs;
  }

  lemma EditedAwayDeletesNothing()
    ensures PlanFor(EditedAway()).deletes == {}
  {
    var x := EditedAway();
    EditedAwayObserved();
    PlanIsDoable(x.specs, x.obs, x.remote);
    PlanItems(x.specs, x.obs, x.remote, 0);
    assert HasValidId(x.specs[0], x.remote.conditions);
  }

  lemma EditedAwayCreates()
    ensures PlanFor(EditedAway()).creates == {1}
  {
    var x := EditedAway();
    EditedAwayObserved();
    PlanIsDoable(x.specs, x.obs, x.remote);
    PlanItems(x.specs, x.obs, x.remote, 0);
    PlanItems(x.specs, x.obs, x.remote, 1);
  }

  /** It is updated too late for the new one: every creation call meets it. */
  lemma EditedMetricIsMet(gate: string)
    ensures var x := EditedAway();
            && Observed(x) && KeysDistinct(x.specs) && DistinctMetrics(x.specs)
            && (exists steps :: Creates(gate, x.specs, x.obs, x.remote, steps))
            && forall steps | Creates(gate, x.specs, x.obs, x.remote, steps) :: MeetsItsMetric(x.remote, steps)
  {
    var x := EditedAway();
    EditedAwayObserved();
    EditedAwayIsNamed();
    EditedAwayDeletesNothing();
    EditedAwayCreates();
    var create := Step(1, CreateCall(CreateRequestFor(gate, x.specs[1]), "2", Picked(x.specs[1], "GT"), true));
    RunSnoc(gate, x.specs, x.remote, PlanFor(x), [], create);
    assert Creates(gate, x.specs, x.obs, x.remote, [] + [create]);
    forall steps | Creates(gate, x.specs, x.obs, x.remote, steps) ensures MeetsItsMetric(x.remote, steps) {
      AtCreation(gate, x.specs, x.obs, x.remote, steps);
      CreateMeetsMetricExactly(gate, x.specs, x.obs, x.remote, steps);
    }
  }

  /** Two stale IDs on one metric. */
  function StaleIds(metric: string, error: string, error': string, id: string, id': string): Scene {
    Scene([ConditionSpec(Some(id), metric, error, None), ConditionSpec(Some(id'), metric, error', None)], [],
          FRESH_SERVER)
  }

  lemma StaleIdsPlan(metric: string, error: string, error': string, id: string, id': string)
    requires id != id'
    ensures var x := StaleIds(metric, error, error', id, id');
            Observed(x) && KeysDistinct(x.specs) && PlanFor(x) == Plan({}, {0, 1}, {})
  {
    var x := StaleIds(metric, error, error', id, id');
    PlanItems(x.specs, [], FRESH_SERVER, 0);
    PlanItems(x.specs, [], FRESH_SERVER, 1);
    PlanIsDoable(x.specs, [], FRESH_SERVER);
    assert PlanFor(x).creates == {0, 1} && PlanFor(x).deletes == {} && PlanFor(x).updates == {};
  }

  lemma SpecOfCreation(gate: string, x: Scene, steps: seq<Step>)
    requires Observed(x) && Creates(gate, x.specs, x.obs, x.remote, steps)
    ensures Last(steps).spec < |x.specs| && Last(steps).call.create.metric == x.specs[Last(steps).spec].metric
  {
    AtCreation(gate, x.specs, x.obs, x.remote, steps);
  }

  lemma MadeOfSpecs(gate: string, x: Scene, steps: seq<Step>)
    requires Observed(x) && Creates(gate, x.specs, x.obs, x.remote, steps)
    ensures forall j <- Made(Init(steps)) :: j < |x.specs|
  {
    ConditionsAtCreation(gate, x.specs, x.obs, x.remote, steps);
  }

  lemma SecondCreationMeetsFirst(gate: string, x: Scene, steps: seq<Step>)
    requires Observed(x) && PlanFor(x) == Plan({}, {0, 1}, {}) && x.remote == FRESH_SERVER
    requires |x.specs| == 2 && x.specs[0].metric == x.specs[1].metric
    requires Creates(gate, x.specs, x.obs, x.remote, steps)
    ensures MeetsItsMetric(x.remote, steps) <==> |steps| > 1
  {
    SpecOfCreation(gate, x, steps);
    MadeOfSpecs(gate, x, steps);
    CreateMeetsMetricExactly(gate, x.specs, x.obs, x.remote, steps);
    MadeOnlyCreations(gate, x, Init(steps));
  }

  /** The first creation meets nothing, and the second one what the first created. */
  lemma StaleIdsMeetEachOther(gate: string, metric: string, error: string, error': string, id: string, id': string)
    requires id != id'
    ensures var x := StaleIds(metric, error, error', id, id');
            && Observed(x) && KeysDistinct(x.specs)
            && (exists steps :: Creates(gate, x.specs, x.obs, x.remote, steps) && |steps| == 2)
            && forall steps | Creates(gate, x.specs, x.obs, x.remote, steps) ::
                 MeetsItsMetric(x.remote, steps) <==> |steps| > 1
  {
    var x := StaleIds(metric, error, error', id, id');
    StaleIdsPlan(metric, error, error', id, id');
    var both := EndsInCreation(gate, x);
    forall steps | Creates(gate, x.specs, x.obs, x.remote, steps)
      ensures MeetsItsMetric(x.remote, steps) <==> |steps| > 1
    {
      SecondCreationMeetsFirst(gate, x, steps);
    }
  }
}
