/**
 * What the quality-gate reconciler guarantees over whole runs: convergence, progress under any
 * pattern of failures, independence of iteration order, and safety of the delete-create-update order.
 */
module QualityGateTheory {
  import opened Basics
  import opened Pairing
  import opened QualityGateModel
  import opened QualityGatePlan
  import opened QualityGateMismatch
  import opened QualityGateAdoption

  // ---------- convergence ----------

  /** Declared and remote conditions are in bijection through their IDs and agree. */
  ghost predicate InSync(specs: seq<ConditionSpec>, conds: map<string, Condition>) {
    && (forall s <- specs :: Held(s, conds))
    && (forall i, j :: 0 <= i < j < |specs| ==> specs[i].id != specs[j].id)
    && (forall id <- conds :: exists s <- specs :: s.id == Some(id))
  }

  /** The first observation left the specs with keys of their own and without rivals. */
  ghost predicate Reconcilable(specs: seq<ConditionSpec>, r: Remote) {
    && Environment(specs, r) && Settled(specs, r.conditions)
    && KeysDistinct(specs) && RivalFree(specs, r.conditions) && NoForetoldId(specs, r)
  }

  lemma NoMismatchIsInSync(specs: seq<ConditionSpec>, r: Remote)
    requires Reconcilable(specs, r)
    ensures Mismatch(specs, r.conditions) == NOTHING <==> InSync(specs, r.conditions)
  {
    var conds, plan := r.conditions, Mismatch(specs, r.conditions);
    DistinctKeysDistinctIds(specs, conds);
    SettledInv(specs, r);
    forall s | s in specs ensures HasValidId(s, conds) ==> Claims(s, conds, s.id.value) {}
    if plan == NOTHING {
      forall i: nat | i < |specs| ensures Held(specs[i], conds) {
        assert i !in plan.creates && i !in plan.updates && specs[i] in specs;
      }
      forall id <- conds ensures exists s <- specs :: s.id == Some(id) {
        assert id !in plan.deletes;
        var s :| s in specs && Claims(s, conds, id);
      }
    }
    if InSync(specs, conds) {
      forall id <- conds ensures !Unclaimed(specs, conds, id) {
        var s :| s in specs && s.id == Some(id);
        assert Claims(s, conds, id);
      }
      forall i: nat | i < |specs| ensures !Unmet(specs[i], conds) && !Outdated(specs[i], conds) {
        assert specs[i] in specs && Claims(specs[i], conds, specs[i].id.value);
      }
      assert plan.deletes == {} && plan.creates == {} && plan.updates == {};
    }
  }

  /**
   * The plan the next Observe computes is exactly what this sync left undone, whatever order it
   * worked in, wherever it failed, and whatever order the server lists conditions in.
   */
  lemma NextPlanIsWhatWasLeft(gate: string, specs: seq<ConditionSpec>, r: Remote, obs: seq<ConditionObservation>,
                              steps: seq<Step>, obs': seq<ConditionObservation>)
    requires Reconcilable(specs, r) && Lists(obs, r.conditions)
    requires Run(gate, specs, r, PlanOf(Associate(specs, obs)), steps)
    requires Lists(obs', Replay(r, steps).conditions)
    ensures Reconcilable(AdoptAll(specs, obs'), Replay(r, steps))
    ensures PlanOf(Associate(AdoptAll(specs, obs'), obs')) == Left(PlanOf(Associate(specs, obs)), steps)
  {
    var end, specs' := Replay(r, steps), AdoptAll(specs, obs');
    DistinctKeysDistinctIds(specs, r.conditions);
    SettledInv(specs, r);
    AssociationPlanIsMismatch(specs, obs, r);
    PlanIsMismatch(gate, specs, r, steps);
    AdoptionKeepsMismatch(specs, end, obs');
    AdoptionKeepsKeys(specs, end, obs');
    AdoptedIsSettled(specs, obs', end.conditions);
    AssociationPlanIsMismatch(specs', obs', end);
  }

  /**
   * Convergence, both ways: after Observe and Update, the next Observe finds all conditions up to
   * date if and only if the sync finished its plan, and then declared and remote conditions are in
   * bijection and no later observation of that state changes the spec or asks for a call.
   */
  lemma Convergence(gate: string, specs: seq<ConditionSpec>, r: Remote, obs: seq<ConditionObservation>,
                    steps: seq<Step>, obs': seq<ConditionObservation>, later: seq<ConditionObservation>)
    requires Reconcilable(specs, r) && Lists(obs, r.conditions)
    requires Run(gate, specs, r, PlanOf(Associate(specs, obs)), steps)
    requires Lists(obs', Replay(r, steps).conditions) && Lists(later, Replay(r, steps).conditions)
    ensures var conds, specs' := Replay(r, steps).conditions, AdoptAll(specs, obs');
            && (AllUpToDate(Associate(specs', obs')) <==> Left(PlanOf(Associate(specs, obs)), steps) == NOTHING)
            && (AllUpToDate(Associate(specs', obs')) <==> InSync(specs', conds))
            && AdoptAll(specs', later) == specs'
            && PlanOf(Associate(specs', later)) == PlanOf(Associate(specs', obs'))
  {
    var end, specs' := Replay(r, steps), AdoptAll(specs, obs');
    NextPlanIsWhatWasLeft(gate, specs, r, obs, steps, obs');
    VerdictIsEmptyPlan(specs', obs');
    NoMismatchIsInSync(specs', end);
    AssociationPlanIsMismatch(specs', obs', end);
    AssociationPlanIsMismatch(specs', later, end);
    SettledIsFixpoint(specs', later, end.conditions);
  }

  // ---------- progress ----------

  function Successes(steps: seq<Step>): nat {
    if steps == [] then 0 else Successes(Init(steps)) + if Last(steps).call.ok then 1 else 0
  }

  /**
   * Each successful call takes one item off the plan, and off any list of items that the plan is within; a
   * failed call takes none, and at most the last call failed.
   */
  lemma {:induction false} RunSpends(gate: string, specs: seq<ConditionSpec>, r: Remote, plan: Plan, all: Plan,
                                     steps: seq<Step>)
    requires Run(gate, specs, r, plan, steps) && Within(plan, all)
    ensures Within(Left(plan, steps), Left(all, steps))
    ensures Left(all, steps).Size() + Successes(steps) == all.Size()
  {
    if steps != [] {
      RunSpends(gate, specs, r, plan, all, Init(steps));
      assert Due(gate, specs, Left(plan, Init(steps)), Last(steps));
    }
  }

  /** Each successful call takes one item off the plan, a failed call takes none, and at most the last call failed. */
  lemma {:induction false} RunSpendsPlan(gate: string, specs: seq<ConditionSpec>, r: Remote, plan: Plan,
                                         steps: seq<Step>)
    requires Run(gate, specs, r, plan, steps)
    ensures Left(plan, steps).Size() + Successes(steps) == plan.Size()
    ensures AllOk(steps) ==> Successes(steps) == |steps|
    ensures Failed(steps) ==> Successes(steps) == |steps| - 1 && Left(plan, steps) != NOTHING
  {
    if steps != [] {
      RunSpendsPlan(gate, specs, r, plan, Init(steps));
      var left, step := Left(plan, Init(steps)), Last(steps);
      assert Due(gate, specs, left, step);
      assert steps == Init(steps) + [step];
    }
  }

  /** One Observe followed by the condition calls of one Update; no calls when Update was not run or failed early. */
  datatype Round = Round(obs: seq<ConditionObservation>, steps: seq<Step>)

  ghost predicate Session(gate: string, specs: seq<ConditionSpec>, r: Remote, rounds: seq<Round>)
    decreases rounds
  {
    rounds == [] ||
    var now := AdoptAll(specs, rounds[0].obs);
    && Lists(rounds[0].obs, r.conditions)
    && Run(gate, now, r, PlanOf(Associate(now, rounds[0].obs)), rounds[0].steps)
    && Session(gate, now, Replay(r, rounds[0].steps), rounds[1..])
  }

  function SessionEnd(specs: seq<ConditionSpec>, r: Remote, rounds: seq<Round>): (seq<ConditionSpec>, Remote)
    decreases rounds
  {
    if rounds == [] then (specs, r)
    else SessionEnd(AdoptAll(specs, rounds[0].obs), Replay(r, rounds[0].steps), rounds[1..])
  }

  function SessionSuccesses(rounds: seq<Round>): nat {
    if rounds == [] then 0 else Successes(rounds[0].steps) + SessionSuccesses(rounds[1..])
  }

  /**
   * Progress over any number of rounds, with failures anywhere: the distance to the declared state
   * plus the number of successful calls is constant, so the distance never rises and the successful
   * calls never exceed the distance at the start.
   */
  lemma {:induction false} SessionConservation(gate: string, specs: seq<ConditionSpec>, r: Remote, rounds: seq<Round>)
    requires Inv(specs, r) && Session(gate, specs, r, rounds)
    ensures var end := SessionEnd(specs, r, rounds);
            && Inv(end.0, end.1)
            && Mismatch(end.0, end.1.conditions).Size() + SessionSuccesses(rounds)
                == Mismatch(specs, r.conditions).Size()
    decreases rounds
  {
    if rounds != [] {
      var obs, steps := rounds[0].obs, rounds[0].steps;
      var now := AdoptAll(specs, obs);
      RoundConservation(gate, specs, r, obs, steps);
      SessionConservation(gate, now, Replay(r, steps), rounds[1..]);
    }
  }

  lemma RoundConservation(gate: string, specs: seq<ConditionSpec>, r: Remote, obs: seq<ConditionObservation>,
                          steps: seq<Step>)
    requires Inv(specs, r) && Lists(obs, r.conditions)
    requires var now := AdoptAll(specs, obs); Run(gate, now, r, PlanOf(Associate(now, obs)), steps)
    ensures var now, end := AdoptAll(specs, obs), Replay(r, steps);
            && Inv(now, end)
            && Mismatch(now, end.conditions).Size() + Successes(steps) == Mismatch(specs, r.conditions).Size()
  {
    var now := AdoptAll(specs, obs);
    var plan, amiss := PlanOf(Associate(now, obs)), Mismatch(now, r.conditions);
    AdoptionKeepsMismatch(specs, r, obs);
    AdoptedIsSettled(specs, obs, r.conditions);
    PlanWithinMismatch(now, obs, r);
    RunConserves(gate, now, r, plan, steps);
    RunSpends(gate, now, r, plan, amiss, steps);
  }

  // ---------- what a run does and leaves alone ----------

  ghost predicate Splits<T>(done: set<T>, left: set<T>, all: set<T>) {
    done !! left && done + left == all
  }

  /** The calls made and the calls left split the plan. */
  lemma {:induction false} DoneAndLeftSplitPlan(gate: string, specs: seq<ConditionSpec>, r: Remote, plan: Plan,
                                                steps: seq<Step>)
    requires Run(gate, specs, r, plan, steps)
    ensures var done, left := Done(steps), Left(plan, steps);
            && Splits(done.deletes, left.deletes, plan.deletes)
            && Splits(done.creates, left.creates, plan.creates)
            && Splits(done.updates, left.updates, plan.updates)
  {
    if steps != [] {
      DoneAndLeftSplitPlan(gate, specs, r, plan, Init(steps));
      assert Due(gate, specs, Left(plan, Init(steps)), Last(steps));
    }
  }

  /** A condition that already agreed with its spec is never touched. */
  lemma {:induction false} HeldIsUntouched(gate: string, specs: seq<ConditionSpec>, r: Remote, plan: Plan,
                                           steps: seq<Step>, i: nat)
    requires Inv(specs, r) && Within(plan, Mismatch(specs, r.conditions)) && Run(gate, specs, r, plan, steps)
    requires i < |specs| && Held(specs[i], r.conditions)
    ensures var conds := Replay(r, steps).conditions;
            Held(specs[i], conds) && conds[specs[i].id.value] == r.conditions[specs[i].id.value]
  {
    if steps != [] {
      var id, here, step := specs[i].id.value, Replay(r, Init(steps)), Last(steps);
      HeldIsUntouched(gate, specs, r, plan, Init(steps), i);
      RunConserves(gate, specs, r, plan, Init(steps));
      assert Due(gate, specs, Left(plan, Init(steps)), step) && Answered(here, step.call);
      assert Claims(specs[i], here.conditions, id) && specs[i] in specs;
      if step.call.ok && step.call.UpdateCall? {
        assert Outdated(specs[step.spec], here.conditions) && step.spec != i;
        assert Claims(specs[step.spec], here.conditions, specs[step.spec].id.value);
      }
    }
  }
}
