/**
 * What a run of condition calls leaves behind, in closed form, and why the order in which a map is
 * ranged over does not matter: for every list of declared conditions, sensible or not.
 */
module QualityGateOrder {
  import opened Basics
  import opened Pairing
  import opened QualityGateModel
  import opened QualityGatePlan
  import opened QualityGateMismatch
  import opened QualityGateAdoption
  import opened QualityGateTheory

  // ---------- plans read off a map ----------

  /** The plan does not depend on the order in which the server lists its conditions. */
  lemma ListingDoesNotMatter(specs: seq<ConditionSpec>, obs: seq<ConditionObservation>, obs': seq<ConditionObservation>,
                             conds: map<string, Condition>)
    requires Lists(obs, conds) && Lists(obs', conds) && forall id <- conds :: ServerId(id)
    ensures Associate(specs, obs) == Associate(specs, obs')
  {
    AssociationShape(specs, |specs|, obs, conds);
    AssociationShape(specs, |specs|, obs', conds);
  }

  /** The items of a plan are there to be called for, and no item stands in another's way. */
  ghost predicate Doable(specs: seq<ConditionSpec>, r: Remote, plan: Plan) {
    && plan.deletes <= r.conditions.Keys
    && plan.creates !! plan.updates
    && (forall i <- plan.creates :: i < |specs|)
    && (forall i <- plan.updates ::
          i < |specs| && HasValidId(specs[i], r.conditions) && specs[i].id.value !in plan.deletes)
    && (forall i, j | i in plan.updates && j in plan.updates && specs[i].id == specs[j].id :: i == j)
  }

  lemma PlanIsDoable(specs: seq<ConditionSpec>, obs: seq<ConditionObservation>, r: Remote)
    requires Sane(r) && Lists(obs, r.conditions)
    ensures Doable(specs, r, PlanOf(Associate(specs, obs)))
  {
    var m := Associate(specs, obs);
    AssociateSpecsFaithful(specs, |specs|, obs);
    AssociationShape(specs, |specs|, obs, r.conditions);
  }

  lemma KeyClasses(specs: seq<ConditionSpec>, obs: seq<ConditionObservation>, conds: map<string, Condition>)
    requires Lists(obs, conds) && forall id <- conds :: ServerId(id)
    ensures var m, keys := Associate(specs, obs), Keys(specs, |specs|);
            && NonExistingKeys(m) == keys - conds.Keys && MissingKeys(m) == conds.Keys - keys
  {
    var m, keys := Associate(specs, obs), Keys(specs, |specs|);
    AssociationShape(specs, |specs|, obs, conds);
    forall k <- m ensures m[k].spec.Some? <==> k in keys {
      WinnerIsLast(specs, |specs|, k);
      assert m[k] == Entry(specs, |specs|, conds, k);
    }
  }

  // ---------- the state a run ends in ----------

  function Names(made: map<nat, string>): set<string> {
    set i <- made :: made[i]
  }

  /** The IDs given to new conditions: never used before, and each to one spec. */
  ghost predicate FreshNames(r: Remote, made: map<nat, string>) {
    && (forall id <- Names(made) :: MayIssue(r, id))
    && (forall i, j | i in made && j in made && made[i] == made[j] :: i == j)
  }

  /** The IDs of the conditions that were updated. */
  function Rewritten(specs: seq<ConditionSpec>, done: Plan): set<string> {
    set i <- done.updates | i < |specs| && specs[i].id.Some? :: specs[i].id.value
  }

  /** Each spec that was created or updated got what was sent for it. */
  ghost predicate WrittenAsSent(specs: seq<ConditionSpec>, done: Plan, written: map<nat, Condition>) {
    && written.Keys == done.creates + done.updates
    && forall i <- written :: i < |specs| && Stores(specs[i].metric, specs[i].error, SentOp(specs[i]), written[i])
  }

  /** What was not deleted is still there beside the new conditions, and if it was not updated, it is untouched. */
  ghost predicate Remains(specs: seq<ConditionSpec>, r: Remote, done: Plan, made: map<nat, string>, end: Remote) {
    && end.used == r.used + Names(made)
    && end.conditions.Keys == r.conditions.Keys - done.deletes + Names(made)
    && (forall id <- r.conditions.Keys - done.deletes - Rewritten(specs, done) ::
          end.conditions[id] == r.conditions[id])
  }

  /** Every condition that was written is as it was written for its spec. */
  ghost predicate Holds(specs: seq<ConditionSpec>, done: Plan, made: map<nat, string>, written: map<nat, Condition>,
                        conds: map<string, Condition>)
    requires WrittenAsSent(specs, done, written)
  {
    && made.Keys == done.creates
    && (forall i <- made :: made[i] in conds && conds[made[i]] == written[i])
    && (forall i <- done.updates :: HasValidId(specs[i], conds) && conds[specs[i].id.value] == written[i])
  }

  /** The end of a run in terms of its start. */
  ghost predicate EndsAs(specs: seq<ConditionSpec>, r: Remote, done: Plan, made: map<nat, string>,
                         written: map<nat, Condition>, end: Remote)
  {
    && WrittenAsSent(specs, done, written) && FreshNames(r, made)
    && Remains(specs, r, done, made, end) && Holds(specs, done, made, written, end.conditions)
  }

  lemma {:induction false} RunEndsAs(gate: string, specs: seq<ConditionSpec>, r: Remote, plan: Plan, steps: seq<Step>)
    requires Sane(r) && Doable(specs, r, plan) && Run(gate, specs, r, plan, steps)
    ensures EndsAs(specs, r, Done(steps), Made(steps), Written(steps), Replay(r, steps))
  {
    if steps != [] {
      var before, step := Init(steps), Last(steps);
      RunEndsAs(gate, specs, r, plan, before);
      DoneAndLeftSplitPlan(gate, specs, r, plan, before);
      assert Due(gate, specs, Left(plan, before), step) && Answered(Replay(r, before), step.call);
      if step.call.ok {
        var done, made, written, here := Done(before), Made(before), Written(before), Replay(r, before);
        match step.call
        case DeleteCall(id, _) => EndsAsDelete(specs, r, done, made, written, here, id);
        case CreateCall(_, id, c, _) => EndsAsCreate(specs, r, done, made, written, here, step.spec, id, c);
        case UpdateCall(_, c, _) => EndsAsUpdate(specs, r, done, made, written, here, step.spec, c);
      }
    }
  }

  lemma EndsAsDelete(specs: seq<ConditionSpec>, r: Remote, done: Plan, made: map<nat, string>,
                     written: map<nat, Condition>, here: Remote, id: string)
    requires Sane(r) && EndsAs(specs, r, done, made, written, here) && id in r.conditions
    requires forall i <- done.updates :: specs[i].id != Some(id)
    ensures EndsAs(specs, r, done.(deletes := done.deletes + {id}), made, written,
                   here.(conditions := here.conditions - {id}))
  {
    assert id !in Names(made);
    forall i <- made ensures made[i] in Names(made) {}
  }

  lemma EndsAsCreate(specs: seq<ConditionSpec>, r: Remote, done: Plan, made: map<nat, string>,
                     written: map<nat, Condition>, here: Remote, i: nat, id: string, c: Condition)
    requires Sane(r) && EndsAs(specs, r, done, made, written, here) && MayIssue(here, id)
    requires i < |specs| && i !in done.creates && i !in done.updates
    requires Stores(specs[i].metric, specs[i].error, SentOp(specs[i]), c)
    ensures EndsAs(specs, r, done.(creates := done.creates + {i}), made[i := id], written[i := c],
                   Remote(here.conditions[id := c], here.used + {id}))
  {
    NamesGrow(made, i, id);
    CreateWrites(specs, done, written, i, c);
    CreateNames(r, made, here.used, i, id);
    CreateRemains(specs, r, done, made, here, i, id, c);
    CreateHolds(specs, done, made, written, here.conditions, i, id, c);
  }

  lemma CreateWrites(specs: seq<ConditionSpec>, done: Plan, written: map<nat, Condition>, i: nat, c: Condition)
    requires WrittenAsSent(specs, done, written)
    requires i < |specs| && Stores(specs[i].metric, specs[i].error, SentOp(specs[i]), c)
    ensures WrittenAsSent(specs, done.(creates := done.creates + {i}), written[i := c])
    ensures WrittenAsSent(specs, done.(updates := done.updates + {i}), written[i := c])
  {
  }

  lemma CreateNames(r: Remote, made: map<nat, string>, used: set<string>, i: nat, id: string)
    requires FreshNames(r, made) && used == r.used + Names(made) && id !in used && ServerId(id) && i !in made
    ensures FreshNames(r, made[i := id])
  {
    NamesGrow(made, i, id);
    forall j <- made ensures made[j] in Names(made) {}
  }

  lemma CreateRemains(specs: seq<ConditionSpec>, r: Remote, done: Plan, made: map<nat, string>, here: Remote,
                      i: nat, id: string, c: Condition)
    requires Sane(r) && Remains(specs, r, done, made, here) && id !in here.used && i !in made
    ensures Remains(specs, r, done.(creates := done.creates + {i}), made[i := id],
                    Remote(here.conditions[id := c], here.used + {id}))
  {
    NamesGrow(made, i, id);
    assert Rewritten(specs, done.(creates := done.creates + {i})) == Rewritten(specs, done);
  }

  lemma CreateHolds(specs: seq<ConditionSpec>, done: Plan, made: map<nat, string>, written: map<nat, Condition>,
                    conds: map<string, Condition>, i: nat, id: string, c: Condition)
    requires WrittenAsSent(specs, done, written) && Holds(specs, done, made, written, conds)
    requires id !in conds && i < |specs| && i !in done.creates && i !in done.updates
    requires WrittenAsSent(specs, done.(creates := done.creates + {i}), written[i := c])
    ensures Holds(specs, done.(creates := done.creates + {i}), made[i := id], written[i := c], conds[id := c])
  {
  }

  lemma NamesGrow(made: map<nat, string>, i: nat, id: string)
    requires i !in made
    ensures Names(made[i := id]) == Names(made) + {id}
  {
    var made' := made[i := id];
    assert made'[i] == id && forall j <- made :: made'[j] == made[j];
  }

  lemma EndsAsUpdate(specs: seq<ConditionSpec>, r: Remote, done: Plan, made: map<nat, string>,
                     written: map<nat, Condition>, here: Remote, i: nat, c: Condition)
    requires Sane(r) && EndsAs(specs, r, done, made, written, here)
    requires i < |specs| && i !in done.creates && HasValidId(specs[i], r.conditions)
             && specs[i].id.value !in done.deletes
    requires forall j <- done.updates :: specs[j].id == specs[i].id ==> j == i
    requires Stores(specs[i].metric, specs[i].error, SentOp(specs[i]), c)
    ensures EndsAs(specs, r, done.(updates := done.updates + {i}), made, written[i := c],
                   here.(conditions := here.conditions[specs[i].id.value := c]))
  {
    CreateWrites(specs, done, written, i, c);
    UpdateRemains(specs, r, done, made, here, i, c);
    assert specs[i].id.value !in Names(made);
    UpdateHolds(specs, done, made, written, here.conditions, i, c);
  }

  lemma UpdateRemains(specs: seq<ConditionSpec>, r: Remote, done: Plan, made: map<nat, string>, here: Remote, i: nat,
                      c: Condition)
    requires Remains(specs, r, done, made, here)
    requires i < |specs| && HasValidId(specs[i], r.conditions) && specs[i].id.value !in done.deletes
    ensures Remains(specs, r, done.(updates := done.updates + {i}), made,
                    here.(conditions := here.conditions[specs[i].id.value := c]))
  {
    assert Rewritten(specs, done.(updates := done.updates + {i})) == Rewritten(specs, done) + {specs[i].id.value};
  }

  lemma UpdateHolds(specs: seq<ConditionSpec>, done: Plan, made: map<nat, string>, written: map<nat, Condition>,
                    conds: map<string, Condition>, i: nat, c: Condition)
    requires WrittenAsSent(specs, done, written) && Holds(specs, done, made, written, conds)
    requires i < |specs| && i !in done.creates && specs[i].id.Some? && specs[i].id.value !in Names(made)
    requires forall j <- done.updates :: specs[j].id == specs[i].id ==> j == i
    requires WrittenAsSent(specs, done.(updates := done.updates + {i}), written[i := c])
    ensures Holds(specs, done.(updates := done.updates + {i}), made, written[i := c], conds[specs[i].id.value := c])
  {
    var id := specs[i].id.value;
    var conds' := conds[id := c];
    forall j <- made ensures conds'[made[j]] == conds[made[j]] {
      assert made[j] in Names(made);
    }
    forall j <- done.updates ensures j != i ==> conds'[specs[j].id.value] == conds[specs[j].id.value] {}
  }

  // ---------- order independence ----------

  /** An error-free sync of the plan that Update reads off its map. */
  ghost predicate Finished(gate: string, specs: seq<ConditionSpec>, obs: seq<ConditionObservation>, r: Remote,
                           steps: seq<Step>)
  {
    var plan := PlanOf(Associate(specs, obs));
    Run(gate, specs, r, plan, steps) && Left(plan, steps) == NOTHING
  }

  lemma FinishedEndsAs(gate: string, specs: seq<ConditionSpec>, obs: seq<ConditionObservation>, r: Remote,
                       steps: seq<Step>)
    requires Sane(r) && Lists(obs, r.conditions) && Finished(gate, specs, obs, r, steps)
    ensures var plan := PlanOf(Associate(specs, obs));
            && Doable(specs, r, plan) && Done(steps) == plan && |steps| == plan.Size()
            && EndsAs(specs, r, plan, Made(steps), Written(steps), Replay(r, steps))
  {
    PlanIsDoable(specs, obs, r);
    FinishedIsDone(gate, specs, r, PlanOf(Associate(specs, obs)), steps);
    RunEndsAs(gate, specs, r, PlanOf(Associate(specs, obs)), steps);
  }

  lemma FinishedIsDone(gate: string, specs: seq<ConditionSpec>, r: Remote, plan: Plan, steps: seq<Step>)
    requires Run(gate, specs, r, plan, steps) && Left(plan, steps) == NOTHING
    ensures Done(steps) == plan && |steps| == plan.Size()
  {
    DoneAndLeftSplitPlan(gate, specs, r, plan, steps);
    RunSpendsPlan(gate, specs, r, plan, steps);
    RunEndsOk(gate, specs, r, plan, steps);
  }

  lemma RunEndsOk(gate: string, specs: seq<ConditionSpec>, r: Remote, plan: Plan, steps: seq<Step>)
    requires Run(gate, specs, r, plan, steps) && Left(plan, steps) == NOTHING
    ensures AllOk(steps)
  {
    RunSpendsPlan(gate, specs, r, plan, steps);
    if steps != [] {
      assert steps == Init(steps) + [Last(steps)];
    }
  }

  /** The server stored the same for a spec in both runs. */
  ghost predicate AnsweredAlike(a: seq<Step>, b: seq<Step>) {
    forall i | i in Written(a) && i in Written(b) :: Written(a)[i] == Written(b)[i]
  }

  /**
   * The gates are the same at every ID the server had handed out before, and hold the same new condition
   * for each spec.
   */
  ghost predicate SameUpToNames(r: Remote, madeA: map<nat, string>, a: map<string, Condition>,
                                madeB: map<nat, string>, b: map<string, Condition>)
  {
    && FreshNames(r, madeA) && FreshNames(r, madeB) && madeA.Keys == madeB.Keys
    && (forall i <- madeA :: madeA[i] in a && madeB[i] in b && a[madeA[i]] == b[madeB[i]])
    && a.Keys <= r.conditions.Keys + Names(madeA) && b.Keys <= r.conditions.Keys + Names(madeB)
    && (forall id <- r.conditions :: (id in a <==> id in b) && (id in a ==> a[id] == b[id]))
  }

  /**
   * For every list of declared conditions, colliding keys, rivals and IDs of any shape included: two
   * error-free syncs in any two iteration orders delete the same IDs and create and update the same specs,
   * in equally many calls. So iteration order never decides which declaration wins.
   */
  lemma SameWorkInAnyOrder(gate: string, specs: seq<ConditionSpec>, obs: seq<ConditionObservation>, r: Remote,
                           a: seq<Step>, b: seq<Step>)
    requires Finished(gate, specs, obs, r, a) && Finished(gate, specs, obs, r, b)
    ensures Done(a) == Done(b) == PlanOf(Associate(specs, obs)) && |a| == |b|
  {
    FinishedIsDone(gate, specs, r, PlanOf(Associate(specs, obs)), a);
    FinishedIsDone(gate, specs, r, PlanOf(Associate(specs, obs)), b);
  }

  /** And against a server that stores alike they end in the same gate, up to the names of the new conditions. */
  lemma OrderIndependence(gate: string, specs: seq<ConditionSpec>, obs: seq<ConditionObservation>, r: Remote,
                          a: seq<Step>, b: seq<Step>)
    requires Sane(r) && Lists(obs, r.conditions) && AnsweredAlike(a, b)
    requires Finished(gate, specs, obs, r, a) && Finished(gate, specs, obs, r, b)
    ensures SameUpToNames(r, Made(a), Replay(r, a).conditions, Made(b), Replay(r, b).conditions)
    ensures Made(a).Keys == PlanOf(Associate(specs, obs)).creates
  {
    FinishedEndsAs(gate, specs, obs, r, a);
    FinishedEndsAs(gate, specs, obs, r, b);
    SameEnds(specs, r, Done(a), Made(a), Written(a), Replay(r, a), Made(b), Written(b), Replay(r, b));
  }

  lemma SameEnds(specs: seq<ConditionSpec>, r: Remote, done: Plan, madeA: map<nat, string>,
                 written: map<nat, Condition>, a: Remote, madeB: map<nat, string>, written': map<nat, Condition>,
                 b: Remote)
    requires Sane(r) && EndsAs(specs, r, done, madeA, written, a) && EndsAs(specs, r, done, madeB, written', b)
    requires forall i | i in written && i in written' :: written[i] == written'[i]
    ensures SameUpToNames(r, madeA, a.conditions, madeB, b.conditions)
  {
    forall id <- r.conditions
      ensures id in a.conditions <==> id in b.conditions
      ensures id in a.conditions ==> a.conditions[id] == b.conditions[id]
    {
      if id in Rewritten(specs, done) {
        var i :| i in done.updates && i < |specs| && specs[i].id == Some(id);
      }
    }
  }
}
