/**
 * The distance between declared and remote conditions, defined from the remote state alone, and its
 * conservation: along every run, what is left of the plan is the distance from where the server is.
 */
module QualityGateMismatch {
  import opened Basics
  import opened QualityGateModel
  import opened QualityGatePlan

  predicate HasValidId(s: ConditionSpec, conds: map<string, Condition>) {
    s.id.Some? && s.id.value in conds
  }

  /** The remote condition `id` belongs to `s`: by ID when the ID is valid, otherwise by content. */
  predicate Claims(s: ConditionSpec, conds: map<string, Condition>, id: string) {
    id in conds && if HasValidId(s, conds) then s.id.value == id else Matches(s, conds[id])
  }

  predicate Held(s: ConditionSpec, conds: map<string, Condition>) {
    HasValidId(s, conds) && Matches(s, conds[s.id.value])
  }

  predicate Unmet(s: ConditionSpec, conds: map<string, Condition>) {
    forall id <- conds :: !Claims(s, conds, id)
  }

  lemma UnmetHasNoValidId(s: ConditionSpec, conds: map<string, Condition>)
    ensures Unmet(s, conds) ==> !HasValidId(s, conds)
  {
  }

  predicate Unclaimed(specs: seq<ConditionSpec>, conds: map<string, Condition>, id: string) {
    forall s <- specs :: !Claims(s, conds, id)
  }

  predicate Outdated(s: ConditionSpec, conds: map<string, Condition>) {
    HasValidId(s, conds) && !Matches(s, conds[s.id.value])
  }

  /** The repair plan recomputed from scratch for the present remote state. */
  function Mismatch(specs: seq<ConditionSpec>, conds: map<string, Condition>): Plan {
    Plan(set id <- conds | Unclaimed(specs, conds, id),
         set i: nat | i < |specs| && Unmet(specs[i], conds),
         set i: nat | i < |specs| && Outdated(specs[i], conds))
  }

  /** Some server answer for `b` would also satisfy `a`. */
  predicate Compatible(a: ConditionSpec, b: ConditionSpec) {
    a.metric == b.metric && a.error == b.error && (a.op.None? || b.op.None? || a.op == b.op)
  }

  /** No condition still to be created could be mistaken for one that is still to be written. */
  ghost predicate RivalFree(specs: seq<ConditionSpec>, conds: map<string, Condition>) {
    forall i, j | 0 <= i < |specs| && 0 <= j < |specs| && i != j ::
      HasValidId(specs[i], conds) || Held(specs[j], conds) || !Compatible(specs[i], specs[j])
  }

  ghost predicate ValidIdsDistinct(specs: seq<ConditionSpec>, conds: map<string, Condition>) {
    forall i, j | 0 <= i < j < |specs| && HasValidId(specs[i], conds) && HasValidId(specs[j], conds) ::
        specs[i].id != specs[j].id
  }

  ghost predicate DistinctMetrics(specs: seq<ConditionSpec>) {
    forall i, j :: 0 <= i < j < |specs| ==> specs[i].metric != specs[j].metric
  }

  lemma DistinctMetricsAreRivalFree(specs: seq<ConditionSpec>, conds: map<string, Condition>)
    requires DistinctMetrics(specs)
    ensures RivalFree(specs, conds)
  {
  }

  /** The server has handed out the IDs of its conditions, and they are well formed. */
  ghost predicate Sane(r: Remote) {
    forall id <- r.conditions :: id in r.used && ServerId(id)
  }

  lemma {:induction false} RunStaysSane(gate: string, specs: seq<ConditionSpec>, r: Remote, plan: Plan,
                                        steps: seq<Step>)
    requires Sane(r) && Run(gate, specs, r, plan, steps)
    ensures Sane(Replay(r, steps)) && r.used <= Replay(r, steps).used
  {
    if steps != [] {
      RunStaysSane(gate, specs, r, plan, Init(steps));
    }
  }

  /** A declared operator is not the empty string: the API only admits LT and GT. */
  predicate OperatorsDeclared(specs: seq<ConditionSpec>) {
    forall s <- specs :: s.op != Some("")
  }

  ghost predicate Environment(specs: seq<ConditionSpec>, r: Remote) {
    Sane(r) && OperatorsDeclared(specs)
  }

  /** An ID the server has not handed out, but may. */
  predicate MayIssue(r: Remote, id: string) {
    ServerId(id) && id !in r.used
  }

  /** Nobody holds an ID that the server could give to a condition it creates for another spec. */
  ghost predicate NoForetoldId(specs: seq<ConditionSpec>, r: Remote) {
    forall i, j | 0 <= i < |specs| && 0 <= j < |specs| && i != j && specs[i].id.Some? ::
      !MayIssue(r, specs[i].id.value) || !Unmet(specs[j], r.conditions)
  }

  /** Every remote condition belongs to at most one declared one, and conversely. */
  ghost predicate ClaimsMatch(specs: seq<ConditionSpec>, conds: map<string, Condition>) {
    && (forall i, j, id | 0 <= i < j < |specs| :: !Claims(specs[i], conds, id) || !Claims(specs[j], conds, id))
    && (forall s, id, other | s in specs && Claims(s, conds, id) && Claims(s, conds, other) :: id == other)
  }

  ghost predicate Inv(specs: seq<ConditionSpec>, r: Remote) {
    && Environment(specs, r)
    && RivalFree(specs, r.conditions)
    && NoForetoldId(specs, r)
    && ClaimsMatch(specs, r.conditions)
  }

  /** `a` asks for nothing that `b` does not ask for. */
  predicate Within(a: Plan, b: Plan) {
    a.deletes <= b.deletes && a.creates <= b.creates && a.updates <= b.updates
  }

  // ---------- one call ----------

  /** The next call of a plan that asks only for what is amiss. */
  ghost predicate DueWithin(gate: string, specs: seq<ConditionSpec>, plan: Plan, r: Remote, step: Step) {
    Due(gate, specs, plan, step) && Within(plan, Mismatch(specs, r.conditions))
  }

  lemma DeleteStep(gate: string, specs: seq<ConditionSpec>, plan: Plan, r: Remote, step: Step)
    requires Inv(specs, r) && DueWithin(gate, specs, plan, r, step) && Answered(r, step.call)
    requires step.call.DeleteCall? && step.call.ok
    ensures var after := Apply(r, step.call);
            Inv(specs, after) && Strike(Mismatch(specs, r.conditions), step) == Mismatch(specs, after.conditions)
  {
    var after := Apply(r, step.call);
    assert Unclaimed(specs, r.conditions, step.call.id);
    forall s, id | s in specs ensures Claims(s, after.conditions, id) <==> Claims(s, r.conditions, id) {
      assert !Claims(s, r.conditions, step.call.id);
    }
    forall s <- specs ensures HasValidId(s, after.conditions) <==> HasValidId(s, r.conditions) {
      assert !Claims(s, r.conditions, step.call.id);
    }
    forall s <- specs ensures Unmet(s, after.conditions) <==> Unmet(s, r.conditions) {
      assert !Claims(s, r.conditions, step.call.id);
    }
  }

  /** After creating a condition for `i`, the new ID is claimed by `i` and nothing else changes hands. */
  lemma CreateClaims(gate: string, specs: seq<ConditionSpec>, plan: Plan, r: Remote, step: Step)
    requires Inv(specs, r) && DueWithin(gate, specs, plan, r, step) && Answered(r, step.call)
    requires step.call.CreateCall? && step.call.ok
    ensures var after := Apply(r, step.call).conditions;
            && (forall j | 0 <= j < |specs| :: HasValidId(specs[j], after) <==>
                  HasValidId(specs[j], r.conditions) || (j == step.spec && specs[j].id == Some(step.call.id)))
            && (forall j, x | 0 <= j < |specs| :: Claims(specs[j], after, x) <==>
                  Claims(specs[j], r.conditions, x) || (j == step.spec && x == step.call.id))
  {
  }

  lemma CreateKeepsInv(gate: string, specs: seq<ConditionSpec>, plan: Plan, r: Remote, step: Step)
    requires Inv(specs, r) && DueWithin(gate, specs, plan, r, step) && Answered(r, step.call)
    requires step.call.CreateCall? && step.call.ok
    ensures Inv(specs, Apply(r, step.call))
  {
    var after := Apply(r, step.call);
    CreateClaims(gate, specs, plan, r, step);
    assert Unmet(specs[step.spec], r.conditions);
    forall i, j, id | 0 <= i < j < |specs|
      ensures !Claims(specs[i], after.conditions, id) || !Claims(specs[j], after.conditions, id)
    {
      assert !Claims(specs[i], r.conditions, id) || !Claims(specs[j], r.conditions, id);
    }
  }

  lemma CreateStep(gate: string, specs: seq<ConditionSpec>, plan: Plan, r: Remote, step: Step)
    requires Inv(specs, r) && DueWithin(gate, specs, plan, r, step) && Answered(r, step.call)
    requires step.call.CreateCall? && step.call.ok
    ensures var after := Apply(r, step.call);
            Inv(specs, after) && Strike(Mismatch(specs, r.conditions), step) == Mismatch(specs, after.conditions)
  {
    var after := Apply(r, step.call);
    var before, now := Mismatch(specs, r.conditions), Mismatch(specs, after.conditions);
    CreateKeepsInv(gate, specs, plan, r, step);
    CreateClaims(gate, specs, plan, r, step);
    assert Claims(specs[step.spec], after.conditions, step.call.id);
    forall j: nat ensures j in now.creates <==> j in before.creates && j != step.spec {
    }
    forall x ensures x in now.deletes <==> x in before.deletes {
    }
    forall j: nat ensures j in now.updates <==> j in before.updates {
    }
  }

  /** Updating the condition held by `i` leaves every claim as it was. */
  lemma UpdateClaims(gate: string, specs: seq<ConditionSpec>, plan: Plan, r: Remote, step: Step)
    requires Inv(specs, r) && DueWithin(gate, specs, plan, r, step) && Answered(r, step.call)
    requires step.call.UpdateCall? && step.call.ok
    ensures var after := Apply(r, step.call).conditions;
            && (forall s <- specs :: HasValidId(s, after) <==> HasValidId(s, r.conditions))
            && (forall j, x | 0 <= j < |specs| :: Claims(specs[j], after, x) <==> Claims(specs[j], r.conditions, x))
            && (forall j | 0 <= j < |specs| :: Outdated(specs[j], after) <==>
                  Outdated(specs[j], r.conditions) && j != step.spec)
            && (forall j | 0 <= j < |specs| :: Held(specs[j], r.conditions) ==> Held(specs[j], after))
  {
    var i := step.spec;
    assert Outdated(specs[i], r.conditions) && specs[i] in specs;
    assert Matches(specs[i], step.call.stored);
    forall j | 0 <= j < |specs| && j != i && HasValidId(specs[j], r.conditions) ensures specs[j].id != specs[i].id {
      assert Claims(specs[j], r.conditions, specs[j].id.value) && Claims(specs[i], r.conditions, specs[i].id.value);
    }
  }

  lemma UpdateStep(gate: string, specs: seq<ConditionSpec>, plan: Plan, r: Remote, step: Step)
    requires Inv(specs, r) && DueWithin(gate, specs, plan, r, step) && Answered(r, step.call)
    requires step.call.UpdateCall? && step.call.ok
    ensures var after := Apply(r, step.call);
            Inv(specs, after) && Strike(Mismatch(specs, r.conditions), step) == Mismatch(specs, after.conditions)
  {
    UpdateClaims(gate, specs, plan, r, step);
    var after := Apply(r, step.call);
    assert after.conditions.Keys == r.conditions.Keys;
    forall j | 0 <= j < |specs| ensures Unmet(specs[j], after.conditions) <==> Unmet(specs[j], r.conditions) {
    }
    forall x ensures x in Mismatch(specs, after.conditions).deletes <==> x in Mismatch(specs, r.conditions).deletes {
    }
  }

  /**
   * Set-level conservation, for any plan that asks only for what is amiss: what is amiss at the state
   * reached is what was amiss at the start without what the calls struck off, and the plan left is still
   * within it.
   */
  lemma {:induction false} RunConserves(gate: string, specs: seq<ConditionSpec>, r: Remote, plan: Plan,
                                        steps: seq<Step>)
    requires Inv(specs, r) && Within(plan, Mismatch(specs, r.conditions)) && Run(gate, specs, r, plan, steps)
    ensures Inv(specs, Replay(r, steps))
    ensures Left(Mismatch(specs, r.conditions), steps) == Mismatch(specs, Replay(r, steps).conditions)
    ensures Within(Left(plan, steps), Mismatch(specs, Replay(r, steps).conditions))
  {
    if steps != [] {
      RunConserves(gate, specs, r, plan, Init(steps));
      var here, left, step := Replay(r, Init(steps)), Left(plan, Init(steps)), Last(steps);
      if step.call.ok {
        match step.call
        case DeleteCall(_, _) => DeleteStep(gate, specs, left, here, step);
        case CreateCall(_, _, _, _) => CreateStep(gate, specs, left, here, step);
        case UpdateCall(_, _, _) => UpdateStep(gate, specs, left, here, step);
      }
    }
  }

  /** For the plan of everything that is amiss: what is left of it is what is amiss at the state reached. */
  lemma PlanIsMismatch(gate: string, specs: seq<ConditionSpec>, r: Remote, steps: seq<Step>)
    requires Inv(specs, r) && Run(gate, specs, r, Mismatch(specs, r.conditions), steps)
    ensures Inv(specs, Replay(r, steps))
    ensures Left(Mismatch(specs, r.conditions), steps) == Mismatch(specs, Replay(r, steps).conditions)
  {
    RunConserves(gate, specs, r, Mismatch(specs, r.conditions), steps);
  }
}
