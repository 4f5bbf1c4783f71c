/**
 * Exactly when repeated error-free reconciles bring a quality gate to its declared state, and in how
 * many rounds; with servers that answer badly where it is not certain.
 */
module QualityGateConvergence {
  import opened Basics
  import opened Pairing
  import opened QualityGateModel
  import opened QualityGatePlan
  import opened QualityGateMismatch
  import opened QualityGateAdoption
  import opened QualityGateTheory
  import opened QualityGateOrder
  import opened QualityGateRounds

  // ---------- when rounds are enough ----------

  /** When nothing waits any more, declared and remote conditions are in bijection. */
  lemma RoundSynced(gate: string, x: Scene, c: Cycle)
    requires Observed(x) && Clear(x.specs, x.remote, PlanFor(x)) && IsCycle(gate, x, c)
    ensures Synced(Next(x, c)) <==> forall k :: Waiting(Next(x, c), k) == {}
  {
    var y := Next(x, c);
    NextIdsDistinct(gate, x, c);
    forall i: nat | i < |x.specs| ensures Held(y.specs[i], y.remote.conditions) <==> i !in Waiting(y, Key(y.specs[i])) {
      CycleSettles(gate, x, c, i);
      assert Held(y.specs[i], y.remote.conditions) ==> Claims(y.specs[i], y.remote.conditions, y.specs[i].id.value);
    }
    if forall k :: Waiting(y, k) == {} {
      forall i: nat | i < |x.specs| ensures Held(y.specs[i], y.remote.conditions) {}
      forall id <- y.remote.conditions ensures exists s <- y.specs :: s.id == Some(id) {
        var i := OwnerAfter(gate, x, c, id);
        assert y.specs[i] in y.specs;
      }
    } else {
      var k :| Waiting(y, k) != {};
      var i :| i in Waiting(y, k);
      assert y.specs[i] in y.specs && !Held(y.specs[i], y.remote.conditions);
    }
  }

  /** A condition left by a run was created for a spec, or was there before under the key of one. */
  lemma OriginAfter(specs: seq<ConditionSpec>, obs: seq<ConditionObservation>, r: Remote, made: map<nat, string>,
                    written: map<nat, Condition>, end: Remote, id: string) returns (i: nat)
    requires Sane(r) && Lists(obs, r.conditions) && id in end.conditions
    requires EndsAs(specs, r, PlanOf(Associate(specs, obs)), made, written, end)
    ensures i < |specs| && ((i in made && made[i] == id) || (id in r.conditions && specs[i].id == Some(id)))
  {
    KeyClasses(specs, obs, r.conditions);
    if id in Names(made) {
      i :| i in made && made[i] == id;
    } else {
      assert id in Keys(specs, |specs|);
      var n :| 0 <= n < |specs| && Key(specs[n]) == id;
      i := n;
      PlaceholdersDistinct(specs[i].metric, "");
    }
  }

  /** Every condition left by a round belongs to some spec. */
  lemma OwnerAfter(gate: string, x: Scene, c: Cycle, id: string) returns (i: nat)
    requires Observed(x) && Clear(x.specs, x.remote, PlanFor(x)) && IsCycle(gate, x, c)
    requires id in Next(x, c).remote.conditions
    ensures i < |x.specs| && Next(x, c).specs[i].id == Some(id)
  {
    FinishedEndsAs(gate, x.specs, x.obs, x.remote, c.steps);
    i := OriginAfter(x.specs, x.obs, x.remote, Made(c.steps), Written(c.steps), Replay(x.remote, c.steps), id);
    CycleSettles(gate, x, c, i);
  }

  /** Each round takes one spec off those that wait under a key. */
  lemma {:induction false} WaitingAfter(gate: string, x: Scene, cycles: seq<Cycle>, k: string)
    requires Observed(x) && Untangled(x) && Cycles(gate, x, cycles)
    ensures var y := End(x, cycles);
            && Observed(y) && Untangled(y)
            && |Waiting(y, k)| == if |Waiting(x, k)| <= |cycles| then 0 else |Waiting(x, k)| - |cycles|
    decreases cycles
  {
    if cycles != [] {
      ClearScene(x);
      NextObserved(gate, x, cycles[0]);
      NextUntangled(gate, x, cycles[0]);
      NextWaiting(gate, x, cycles[0], k);
      WaitingAfter(gate, Next(x, cycles[0]), cycles[1..], k);
    }
  }

  lemma {:induction false} SyncedAfter(gate: string, x: Scene, cycles: seq<Cycle>)
    requires Observed(x) && Untangled(x) && Cycles(gate, x, cycles) && cycles != []
    ensures Synced(End(x, cycles)) <==> forall k :: |Waiting(x, k)| <= |cycles|
    decreases cycles
  {
    var c, rest := cycles[0], cycles[1..];
    var y := Next(x, c);
    ClearScene(x);
    NextObserved(gate, x, c);
    NextUntangled(gate, x, c);
    forall k ensures |Waiting(y, k)| <= |rest| <==> |Waiting(x, k)| <= |cycles| {
      NextWaiting(gate, x, c, k);
    }
    if rest == [] {
      RoundSynced(gate, x, c);
      assert forall k :: Waiting(y, k) == {} <==> |Waiting(y, k)| <= 0;
    } else {
      SyncedAfter(gate, y, rest);
    }
  }

  lemma SyncedEntry(x: Scene, k: string)
    requires Observed(x) && Synced(x) && k in Associate(x.specs, x.obs)
    ensures Associate(x.specs, x.obs)[k].upToDate
  {
    var conds := x.remote.conditions;
    AssociationShape(x.specs, |x.specs|, x.obs, conds);
    WinnerIsLast(x.specs, |x.specs|, k);
    assert Associate(x.specs, x.obs)[k] == Entry(x.specs, |x.specs|, conds, k);
    if k in conds {
      var s :| s in x.specs && s.id == Some(k);
      var i :| 0 <= i < |x.specs| && x.specs[i] == s;
      assert Key(x.specs[i]) == k;
    }
    var w := Winner(x.specs, |x.specs|, k).value;
    assert x.specs[w] in x.specs && Held(x.specs[w], conds);
  }

  /** Observe finds nothing to do for the conditions. */
  ghost predicate Quiet(x: Scene) {
    AllUpToDate(Associate(x.specs, x.obs))
  }

  lemma SyncedIsUpToDate(x: Scene)
    requires Observed(x) && Synced(x)
    ensures Quiet(x)
  {
    forall k <- Associate(x.specs, x.obs) ensures Associate(x.specs, x.obs)[k].upToDate {
      SyncedEntry(x, k);
    }
  }

  /** Once in sync, a round makes no call and changes nothing, in whatever order the server lists its conditions. */
  lemma SyncedIsFixpoint(gate: string, x: Scene, c: Cycle)
    requires Observed(x) && Synced(x) && IsCycle(gate, x, c)
    ensures c.steps == [] && Next(x, c) == x.(obs := c.obs) && Synced(Next(x, c))
  {
    SyncedIsUpToDate(x);
    VerdictIsEmptyPlan(x.specs, x.obs);
    RunSpendsPlan(gate, x.specs, x.remote, PlanFor(x), c.steps);
    RunEndsOk(gate, x.specs, x.remote, PlanFor(x), c.steps);
    SettledIsFixpoint(x.specs, c.obs, x.remote.conditions);
  }

  // ---------- every gate goes quiet ----------

  /** The specs without a remote condition. */
  function Unmets(x: Scene): set<nat> {
    set i: nat | i < |x.specs| && Unmet(x.specs[i], x.remote.conditions)
  }

  /** After a round a spec is without a condition only if it was before and was not created. */
  lemma RoundMeets(gate: string, x: Scene, c: Cycle, i: nat)
    requires Observed(x) && IsCycle(gate, x, c) && i in Unmets(Next(x, c))
    ensures i in Unmets(x) && !Wins(x.specs, i)
  {
    var end, s := Replay(x.remote, c.steps), x.specs[i];
    FinishedEndsAs(gate, x.specs, x.obs, x.remote, c.steps);
    PlanItems(x.specs, x.obs, x.remote, i);
    assert s in x.specs;
    if i in Made(c.steps) {
      StoredIsCompatible(s, s, Written(c.steps)[i]);
      assert HasValidId(s, end.conditions) || Claims(s, end.conditions, Made(c.steps)[i]);
    }
    AdoptIsClaim(s, c.obs, end.conditions);
    UnmetHasNoValidId(Adopt(s, c.obs), end.conditions);
  }

  /** As long as specs are without a condition, every round leaves fewer of them. */
  lemma FewerUnmet(gate: string, x: Scene, c: Cycle)
    requires Observed(x) && IsCycle(gate, x, c)
    ensures Unmets(Next(x, c)) <= Unmets(x)
    ensures Unmets(x) != {} ==> |Unmets(Next(x, c))| < |Unmets(x)|
  {
    var y := Next(x, c);
    forall i <- Unmets(y) ensures i in Unmets(x) && !Wins(x.specs, i) {
      RoundMeets(gate, x, c, i);
    }
    if i: nat :| i in Unmets(x) {
      var w := WaitingWinner(x, Key(x.specs[i]), i);
      assert w in Unmets(x) && w !in Unmets(y);
      SubsetSize(Unmets(y), Unmets(x) - {w});
    }
  }

  lemma HeldUnlessRewritten(specs: seq<ConditionSpec>, r: Remote, plan: Plan, made: map<nat, string>,
                            written: map<nat, Condition>, end: Remote, i: nat)
    requires Environment(specs, r) && EndsAs(specs, r, plan, made, written, end)
    requires i < |specs| && HasValidId(specs[i], r.conditions) && specs[i].id.value !in plan.deletes
    requires Outdated(specs[i], r.conditions) ==> i in plan.updates
    requires forall k <- plan.updates :: k < |specs| && (specs[k].id == specs[i].id ==> k == i)
    ensures Held(specs[i], end.conditions)
  {
    assert specs[i] in specs;
    if i in plan.updates {
      StoredIsCompatible(specs[i], specs[i], written[i]);
    } else {
      assert specs[i].id.value !in Rewritten(specs, plan);
    }
  }

  lemma OneUpdatePerId(x: Scene, i: nat, k: nat)
    requires Observed(x) && i < |x.specs| && HasValidId(x.specs[i], x.remote.conditions) && Wins(x.specs, i)
    requires k in PlanFor(x).updates
    ensures k < |x.specs| && (x.specs[k].id == x.specs[i].id ==> k == i)
  {
    PlanIsDoable(x.specs, x.obs, x.remote);
    PlanItems(x.specs, x.obs, x.remote, k);
  }

  /** A spec that wins its key, and had a valid ID, agrees with its condition after a round. */
  lemma WinnerEndsHeld(gate: string, x: Scene, c: Cycle, i: nat)
    requires Observed(x) && IsCycle(gate, x, c) && i < |x.specs|
    requires HasValidId(x.specs[i], x.remote.conditions) && Wins(x.specs, i)
    ensures Held(x.specs[i], Replay(x.remote, c.steps).conditions)
  {
    FinishedEndsAs(gate, x.specs, x.obs, x.remote, c.steps);
    PlanItems(x.specs, x.obs, x.remote, i);
    forall k <- PlanFor(x).updates ensures k < |x.specs| && (x.specs[k].id == x.specs[i].id ==> k == i) {
      OneUpdatePerId(x, i, k);
    }
    var end := Replay(x.remote, c.steps);
    HeldUnlessRewritten(x.specs, x.remote, PlanFor(x), Made(c.steps), Written(c.steps), end, i);
  }

  /** A round in which every spec has its condition leaves the specs alone and nothing to do. */
  lemma LastRound(gate: string, x: Scene, c: Cycle)
    requires Observed(x) && IsCycle(gate, x, c) && Unmets(x) == {}
    ensures Next(x, c).specs == x.specs && Quiet(Next(x, c))
  {
    var y := Next(x, c);
    NextObserved(gate, x, c);
    forall i: nat | i < |x.specs| ensures HasValidId(x.specs[i], x.remote.conditions) && y.specs[i] == x.specs[i] {
      KeepsItsId(gate, x, c, i);
    }
    PlanIsDoable(y.specs, y.obs, y.remote);
    forall i: nat | i < |x.specs| ensures i !in PlanFor(y).creates && i !in PlanFor(y).updates {
      NothingToWrite(gate, x, c, i);
    }
    NothingUndeclaredLeft(gate, x, c);
    assert PlanFor(y).creates == {} && PlanFor(y).updates == {};
    VerdictIsEmptyPlan(y.specs, y.obs);
  }

  lemma KeepsItsId(gate: string, x: Scene, c: Cycle, i: nat)
    requires Observed(x) && IsCycle(gate, x, c) && i < |x.specs| && i !in Unmets(x)
    ensures HasValidId(x.specs[i], x.remote.conditions) && HasValidId(x.specs[i], Next(x, c).remote.conditions)
    ensures Next(x, c).specs[i] == x.specs[i]
  {
    var end := Replay(x.remote, c.steps);
    assert x.specs[i] in x.specs;
    FinishedEndsAs(gate, x.specs, x.obs, x.remote, c.steps);
    PlanItems(x.specs, x.obs, x.remote, i);
    AdoptIsClaim(x.specs[i], c.obs, end.conditions);
  }

  lemma NothingToWrite(gate: string, x: Scene, c: Cycle, i: nat)
    requires Observed(x) && IsCycle(gate, x, c) && Next(x, c).specs == x.specs
    requires i < |x.specs| && i !in Unmets(x)
    ensures i !in PlanFor(Next(x, c)).creates && i !in PlanFor(Next(x, c)).updates
  {
    var y := Next(x, c);
    NextObserved(gate, x, c);
    KeepsItsId(gate, x, c, i);
    PlanItems(y.specs, y.obs, y.remote, i);
    if Wins(x.specs, i) {
      WinnerEndsHeld(gate, x, c, i);
    }
    UnmetHasNoValidId(y.specs[i], y.remote.conditions);
  }

  lemma QuietPlansNothing(x: Scene)
    requires Observed(x) && Quiet(x)
    ensures PlanFor(x) == NOTHING && Unmets(x) == {}
  {
    VerdictIsEmptyPlan(x.specs, x.obs);
    if i: nat :| i in Unmets(x) {
      var w := WaitingWinner(x, Key(x.specs[i]), i);
      PlanItems(x.specs, x.obs, x.remote, w);
    }
  }

  /** Once Observe finds nothing to do for the conditions, a round makes no call and leaves it so. */
  lemma QuietStays(gate: string, x: Scene, c: Cycle)
    requires Observed(x) && IsCycle(gate, x, c) && Quiet(x)
    ensures c.steps == [] && Next(x, c) == x.(obs := c.obs) && Quiet(Next(x, c))
  {
    QuietPlansNothing(x);
    RunSpendsPlan(gate, x.specs, x.remote, PlanFor(x), c.steps);
    RunEndsOk(gate, x.specs, x.remote, PlanFor(x), c.steps);
    LastRound(gate, x, c);
  }

  lemma NothingUndeclaredLeft(gate: string, x: Scene, c: Cycle)
    requires Observed(x) && IsCycle(gate, x, c) && Next(x, c).specs == x.specs
    requires forall i: nat | i < |x.specs| :: HasValidId(x.specs[i], x.remote.conditions)
    ensures PlanFor(Next(x, c)).deletes == {}
  {
    var y := Next(x, c);
    NextObserved(gate, x, c);
    KeyClasses(y.specs, y.obs, y.remote.conditions);
    forall id <- y.remote.conditions ensures id in Keys(y.specs, |y.specs|) {
      FinishedEndsAs(gate, x.specs, x.obs, x.remote, c.steps);
      var i := OriginAfter(x.specs, x.obs, x.remote, Made(c.steps), Written(c.steps), Replay(x.remote, c.steps), id);
      PlanItems(x.specs, x.obs, x.remote, i);
      UnmetHasNoValidId(x.specs[i], x.remote.conditions);
      assert Key(x.specs[i]) == id;
    }
  }

  /**
   * For every list of declared conditions, tangled or not: with one round more than there are specs
   * without a condition, every spec has one and Observe finds everything up to date. The gate is then in
   * sync if and only if the keys are distinct; if they are not, two declarations share a condition and
   * nothing is reported.
   */
  lemma {:induction false} GoesQuiet(gate: string, x: Scene, cycles: seq<Cycle>)
    requires Observed(x) && Cycles(gate, x, cycles) && |cycles| > |Unmets(x)|
    ensures var y := End(x, cycles);
            && Observed(y) && Unmets(y) == {} && Quiet(y)
            && (Synced(y) <==> KeysDistinct(y.specs))
    decreases cycles
  {
    var c, rest := cycles[0], cycles[1..];
    var y := Next(x, c);
    NextObserved(gate, x, c);
    FewerUnmet(gate, x, c);
    if rest == [] {
      assert Unmets(x) == {};
      LastRound(gate, x, c);
      SyncedExactly(y);
    } else {
      assert Unmets(x) == {} ==> Unmets(y) == {};
      GoesQuiet(gate, y, rest);
    }
  }

  /**
   * Observe's verdict on the conditions, exactly: they are in sync if and only if it is satisfied and the
   * keys are distinct.
   */
  lemma SyncedExactly(x: Scene)
    requires Observed(x)
    ensures Synced(x) <==> Quiet(x) && KeysDistinct(x.specs)
  {
    if Synced(x) {
      SyncedIsUpToDate(x);
      forall i, j | 0 <= i < j < |x.specs| ensures Key(x.specs[i]) != Key(x.specs[j]) {
        assert x.specs[i] in x.specs && x.specs[j] in x.specs;
      }
    }
    if Quiet(x) && KeysDistinct(x.specs) {
      VerdictIsEmptyPlan(x.specs, x.obs);
      KeyClasses(x.specs, x.obs, x.remote.conditions);
      forall i: nat | i < |x.specs| ensures Held(x.specs[i], x.remote.conditions) {
        PlanItems(x.specs, x.obs, x.remote, i);
        assert x.specs[i] in x.specs;
      }
      forall i, j | 0 <= i < j < |x.specs| ensures x.specs[i].id != x.specs[j].id {
        assert Key(x.specs[i]) != Key(x.specs[j]);
      }
      forall id <- x.remote.conditions ensures exists s <- x.specs :: s.id == Some(id) {
        KeptIsKeyed(x, id);
      }
    }
  }

  lemma KeptIsKeyed(x: Scene, id: string)
    requires Observed(x) && id in x.remote.conditions && id !in PlanFor(x).deletes
    ensures exists s <- x.specs :: s.id == Some(id)
  {
    KeyClasses(x.specs, x.obs, x.remote.conditions);
    var i :| 0 <= i < |x.specs| && Key(x.specs[i]) == id;
    PlaceholdersDistinct(x.specs[i].metric, "");
    assert x.specs[i] in x.specs;
  }

  // ---------- servers that answer as we please ----------

  /** What a server stores for `s` that uses operator `op` where none was sent. */
  function Picked(s: ConditionSpec, op: string): Condition {
    Condition(s.metric, s.error, if SentOp(s) == "" then op else SentOp(s))
  }

  ghost predicate PicksOp(specs: seq<ConditionSpec>, steps: seq<Step>, op: string) {
    forall i <- Written(steps) :: i < |specs| && Written(steps)[i] == Picked(specs[i], op)
  }

  /** No new condition but the one of `but` got an ID that is declared. */
  ghost predicate AvoidsDeclared(specs: seq<ConditionSpec>, steps: seq<Step>, but: int) {
    forall i <- Made(steps) :: i == but || forall s <- specs :: s.id != Some(Made(steps)[i])
  }

  function DeclaredIds(specs: seq<ConditionSpec>): set<string> {
    set s <- specs | s.id.Some? :: s.id.value
  }

  /** The next call of a plan, answered with operator `op` and with an ID nobody declares. */
  lemma NextStep(gate: string, specs: seq<ConditionSpec>, r: Remote, plan: Plan, op: string) returns (step: Step)
    requires Doable(specs, r, plan) && plan != NOTHING
    ensures step.call.ok && Due(gate, specs, plan, step) && Answered(r, step.call)
    ensures step.call.UpdateCall? || step.call.CreateCall? ==>
              step.spec < |specs| && step.call.stored == Picked(specs[step.spec], op)
    ensures step.call.CreateCall? ==> forall s <- specs :: s.id != Some(step.call.id)
    ensures Doable(specs, Apply(r, step.call), Strike(plan, step))
  {
    if id :| id in plan.deletes {
      step := Step(0, DeleteCall(id, true));
    } else if i :| i in plan.creates {
      var id := UnusedId(r.used + DeclaredIds(specs), "1");
      assert forall s <- specs :: s.id.Some? ==> s.id.value in DeclaredIds(specs);
      step := Step(i, CreateCall(CreateRequestFor(gate, specs[i]), id, Picked(specs[i], op), true));
    } else {
      var i :| i in plan.updates;
      step := Step(i, UpdateCall(UpdateRequestFor(specs[i].id.value, specs[i]), Picked(specs[i], op), true));
    }
  }

  /**
   * A run answered with `op`, none of whose new IDs but that of `but` is declared, and the rest of its
   * plan can be called for.
   */
  ghost predicate Begun(gate: string, specs: seq<ConditionSpec>, r: Remote, plan: Plan, steps: seq<Step>, op: string,
                        but: int)
  {
    && Run(gate, specs, r, plan, steps) && AllOk(steps) && Doable(specs, Replay(r, steps), Left(plan, steps))
    && PicksOp(specs, steps, op) && AvoidsDeclared(specs, steps, but)
  }

  /** `b` keeps the names `a` gave, but for specs still to be created. */
  ghost predicate KeepsNames(left: Plan, a: seq<Step>, b: seq<Step>) {
    forall i <- Made(a) | i !in left.creates :: i in Made(b) && Made(b)[i] == Made(a)[i]
  }

  lemma ExtendRun(gate: string, specs: seq<ConditionSpec>, r: Remote, plan: Plan, begun: seq<Step>, op: string,
                  but: int)
    returns (longer: seq<Step>)
    requires Begun(gate, specs, r, plan, begun, op, but) && Left(plan, begun) != NOTHING
    ensures Begun(gate, specs, r, plan, longer, op, but)
    ensures Left(plan, longer).Size() < Left(plan, begun).Size()
    ensures KeepsNames(Left(plan, begun), begun, longer) && Left(plan, longer).creates <= Left(plan, begun).creates
  {
    var step := NextStep(gate, specs, Replay(r, begun), Left(plan, begun), op);
    RunSnoc(gate, specs, r, plan, begun, step);
    SnocParts(begun, step);
    longer := begun + [step];
    RunSpendsPlan(gate, specs, r, plan, begun);
    RunSpendsPlan(gate, specs, r, plan, longer);
  }

  /** Every unfinished run can be finished. */
  lemma {:induction false} FinishRun(gate: string, specs: seq<ConditionSpec>, r: Remote, plan: Plan, begun: seq<Step>,
                                     op: string, but: int)
    returns (steps: seq<Step>)
    requires Begun(gate, specs, r, plan, begun, op, but)
    ensures Begun(gate, specs, r, plan, steps, op, but) && Left(plan, steps) == NOTHING
    ensures KeepsNames(Left(plan, begun), begun, steps)
    decreases Left(plan, begun).Size()
  {
    steps := begun;
    if Left(plan, begun) != NOTHING {
      var longer := ExtendRun(gate, specs, r, plan, begun, op, but);
      steps := FinishRun(gate, specs, r, plan, longer, op, but);
    }
  }

  /** The deletions of a plan can all be made first. */
  lemma {:induction false} DeleteFirst(gate: string, specs: seq<ConditionSpec>, r: Remote, plan: Plan, begun: seq<Step>)
    returns (steps: seq<Step>)
    requires Run(gate, specs, r, plan, begun) && AllOk(begun) && Doable(specs, Replay(r, begun), Left(plan, begun))
    requires Made(begun) == map[] && Written(begun) == map[] && Replay(r, begun).used == r.used
    requires Left(plan, begun) == plan.(deletes := Left(plan, begun).deletes)
    ensures Run(gate, specs, r, plan, steps) && AllOk(steps) && Doable(specs, Replay(r, steps), Left(plan, steps))
    ensures Made(steps) == map[] && Written(steps) == map[] && Replay(r, steps).used == r.used
    ensures Left(plan, steps) == plan.(deletes := {})
    decreases Left(plan, begun).deletes
  {
    steps := begun;
    if id :| id in Left(plan, begun).deletes {
      var step := Step(0, DeleteCall(id, true));
      RunSnoc(gate, specs, r, plan, begun, step);
      SnocParts(begun, step);
      steps := DeleteFirst(gate, specs, r, plan, begun + [step]);
    }
  }

  lemma {:induction false} ListingOf(conds: map<string, Condition>) returns (obs: seq<ConditionObservation>)
    ensures Lists(obs, conds)
    decreases |conds|
  {
    obs := [];
    if conds != map[] {
      var id :| id in conds;
      obs := ListingFrom(conds, id);
    }
  }

  /** The server may list any condition first. */
  lemma {:induction false} ListingFrom(conds: map<string, Condition>, first: string)
    returns (obs: seq<ConditionObservation>)
    requires first in conds
    ensures Lists(obs, conds) && obs != [] && obs[0] == ConditionObservation(first, conds[first])
    decreases |conds|, 0
  {
    assert (conds - {first}).Keys == conds.Keys - {first};
    var rest := ListingOf(conds - {first});
    var o := ConditionObservation(first, conds[first]);
    obs := [o] + rest;
    forall x <- obs ensures x.id in conds && conds[x.id] == x.condition {
      assert x == o || x in rest;
    }
    assert Ids(obs) == Ids(rest) + {first} by {
      assert o in obs;
    }
  }

  lemma SomeCycle(gate: string, x: Scene) returns (c: Cycle)
    requires Observed(x)
    ensures IsCycle(gate, x, c)
  {
    PlanIsDoable(x.specs, x.obs, x.remote);
    var steps := FinishRun(gate, x.specs, x.remote, PlanFor(x), [], "LT", -1);
    var obs := ListingOf(Replay(x.remote, steps).conditions);
    c := Cycle(steps, obs);
  }

  lemma {:induction false} SomeCycles(gate: string, x: Scene, n: nat) returns (cycles: seq<Cycle>)
    requires Observed(x)
    ensures |cycles| == n && Cycles(gate, x, cycles)
    decreases n
  {
    cycles := [];
    if n > 0 {
      var c := SomeCycle(gate, x);
      NextObserved(gate, x, c);
      var rest := SomeCycles(gate, Next(x, c), n - 1);
      cycles := [c] + rest;
      assert cycles[1..] == rest;
    }
  }

  // ---------- when they are not ----------

  /** Two specs that hold one valid ID hold it for good. */
  lemma {:induction false} SharedForGood(gate: string, x: Scene, cycles: seq<Cycle>, i: nat, j: nat)
    requires Observed(x) && Cycles(gate, x, cycles)
    requires i < j < |x.specs| && HasValidId(x.specs[i], x.remote.conditions) && x.specs[i].id == x.specs[j].id
    ensures var y := End(x, cycles);
            && |y.specs| == |x.specs| && HasValidId(y.specs[i], y.remote.conditions)
            && y.specs[i].id == y.specs[j].id && !Synced(y)
    decreases cycles
  {
    if cycles != [] {
      var c := cycles[0];
      FinishedEndsAs(gate, x.specs, x.obs, x.remote, c.steps);
      PlanItems(x.specs, x.obs, x.remote, i);
      var end := Replay(x.remote, c.steps);
      assert x.specs[i].id.value in end.conditions;
      AdoptIsClaim(x.specs[i], c.obs, end.conditions);
      AdoptIsClaim(x.specs[j], c.obs, end.conditions);
      NextObserved(gate, x, c);
      SharedForGood(gate, Next(x, c), cycles[1..], i, j);
    }
  }

  /** The specs end up with one ID: one had it before or after, the other finds it first in the listing. */
  lemma ShareAfter(x: Scene, end: Remote, id: string, i: nat, k: nat) returns (obs': seq<ConditionObservation>)
    requires i < |x.specs| && k < |x.specs| && i != k && id in end.conditions
    requires forall n | n == i || n == k ::
               || x.specs[n].id == Some(id)
               || (!HasValidId(x.specs[n], end.conditions) && Matches(x.specs[n], end.conditions[id]))
    ensures Lists(obs', end.conditions)
    ensures !ValidIdsDistinct(AdoptAll(x.specs, obs'), end.conditions)
  {
    obs' := ListingFrom(end.conditions, id);
    assert obs'[0] in obs' && id in Ids(obs');
    var after := AdoptAll(x.specs, obs');
    forall n | n == i || n == k ensures after[n].id == Some(id) {
      if x.specs[n].id != Some(id) {
        assert FirstMatch(x.specs[n], obs') == Some(id);
      }
    }
    var a, b := if i < k then i else k, if i < k then k else i;
    assert HasValidId(after[a], end.conditions) && HasValidId(after[b], end.conditions) && after[a].id == after[b].id;
  }

  /** The server may give any unused ID to any spec that is to be created. */
  lemma RunGiving(gate: string, x: Scene, k: nat, id: string) returns (steps: seq<Step>)
    requires Observed(x) && k in PlanFor(x).creates && MayIssue(x.remote, id)
    ensures Finished(gate, x.specs, x.obs, x.remote, steps)
    ensures k in Made(steps) && Made(steps)[k] == id
    ensures PicksOp(x.specs, steps, "LT") && AvoidsDeclared(x.specs, steps, k)
  {
    var specs, r, plan := x.specs, x.remote, PlanFor(x);
    PlanIsDoable(specs, x.obs, r);
    var deletes := DeleteFirst(gate, specs, r, plan, []);
    var step := Step(k, CreateCall(CreateRequestFor(gate, specs[k]), id, Picked(specs[k], "LT"), true));
    RunSnoc(gate, specs, r, plan, deletes, step);
    SnocParts(deletes, step);
    steps := FinishRun(gate, specs, r, plan, deletes + [step], "LT", k);
  }

  /** An ID that a spec already holds is given to another one. */
  lemma ForetoldTangles(gate: string, x: Scene, h: nat, k: nat) returns (c: Cycle)
    requires Observed(x) && h < |x.specs| && h != k && k in PlanFor(x).creates
    requires x.specs[h].id.Some? && MayIssue(x.remote, x.specs[h].id.value)
    ensures IsCycle(gate, x, c) && !ValidIdsDistinct(Next(x, c).specs, Next(x, c).remote.conditions)
  {
    var id := x.specs[h].id.value;
    PlanIsDoable(x.specs, x.obs, x.remote);
    var steps := RunGiving(gate, x, k, id);
    var end := Replay(x.remote, steps);
    FinishedEndsAs(gate, x.specs, x.obs, x.remote, steps);
    PlanItems(x.specs, x.obs, x.remote, k);
    UnmetHasNoValidId(x.specs[k], x.remote.conditions);
    if HasValidId(x.specs[k], end.conditions) {
      NewIdIsOwn(x.specs, x.remote, steps, end, k, k);
    }
    var obs' := ShareAfter(x, end, id, h, k);
    c := Cycle(steps, obs');
  }

  /**
   * With IDs nobody declares, a spec that had no valid ID has none afterwards, but for the one that was
   * given its own.
   */
  lemma NewIdIsOwn(specs: seq<ConditionSpec>, r: Remote, steps: seq<Step>, end: Remote, but: int, i: nat)
    requires AvoidsDeclared(specs, steps, but) && i < |specs| && HasValidId(specs[i], end.conditions)
    requires !HasValidId(specs[i], r.conditions) && end.conditions.Keys <= r.conditions.Keys + Names(Made(steps))
    ensures 0 <= but && but in Made(steps) && specs[i].id == Some(Made(steps)[but])
  {
    var n :| n in Made(steps) && Made(steps)[n] == specs[i].id.value;
    assert specs[i] in specs;
  }

  /** What is written for one spec is taken for the condition of another. */
  lemma RivalTangles(gate: string, x: Scene, i: nat, k: nat) returns (c: Cycle)
    requires Observed(x) && i < |x.specs| && k < |x.specs| && i != k && Compatible(x.specs[i], x.specs[k])
    requires !HasValidId(x.specs[i], x.remote.conditions) && k in PlanFor(x).creates + PlanFor(x).updates
    ensures IsCycle(gate, x, c) && !ValidIdsDistinct(Next(x, c).specs, Next(x, c).remote.conditions)
  {
    var specs, r, plan, op := x.specs, x.remote, PlanFor(x), SentOp(x.specs[i]);
    PlanIsDoable(specs, x.obs, r);
    var steps := FinishRun(gate, specs, r, plan, [], op, -1);
    FinishedEndsAs(gate, specs, x.obs, r, steps);
    var end := Replay(r, steps);
    assert specs[i] in specs && specs[k] in specs;
    PlanItems(specs, x.obs, r, k);
    UnmetHasNoValidId(specs[k], r.conditions);
    if HasValidId(specs[i], end.conditions) {
      NewIdIsOwn(specs, r, steps, end, -1, i);
    }
    var id := if k in plan.updates then specs[k].id.value else Made(steps)[k];
    if k in plan.creates && HasValidId(specs[k], end.conditions) {
      NewIdIsOwn(specs, r, steps, end, -1, k);
    }
    assert end.conditions[id] == Picked(specs[k], op);
    var obs' := ShareAfter(x, end, id, i, k);
    c := Cycle(steps, obs');
  }

  /** However many rounds, a server can keep a tangled gate from its declared state. */
  lemma {:induction false} Tangles(gate: string, x: Scene, n: nat) returns (cycles: seq<Cycle>)
    requires Observed(x) && !Untangled(x)
    ensures |cycles| == n && Cycles(gate, x, cycles) && !Synced(End(x, cycles))
    decreases n
  {
    if !ValidIdsDistinct(x.specs, x.remote.conditions) {
      cycles := SomeCycles(gate, x, n);
      SharedSomewhere(gate, x, cycles);
    } else if n == 0 {
      cycles := [];
      UnsyncedIfTangled(x);
    } else if !NoForetoldId(x.specs, x.remote) {
      var h, k := ForetoldPair(x);
      var c := ForetoldTangles(gate, x, h, k);
      cycles := TangledOn(gate, x, c, n - 1);
    } else if !WritesUnrivalled(x.specs, x.remote.conditions, PlanFor(x)) {
      var i: nat, k: nat :| i < |x.specs| && k < |x.specs| && i != k && k in PlanFor(x).creates + PlanFor(x).updates
        && !HasValidId(x.specs[i], x.remote.conditions) && Compatible(x.specs[i], x.specs[k]);
      var c := RivalTangles(gate, x, i, k);
      cycles := TangledOn(gate, x, c, n - 1);
    } else {
      var c := SomeCycle(gate, x);
      NextObserved(gate, x, c);
      RivalsStay(gate, x, c);
      var rest := Tangles(gate, Next(x, c), n - 1);
      cycles := [c] + rest;
      assert cycles[1..] == rest;
    }
  }

  lemma SharedSomewhere(gate: string, x: Scene, cycles: seq<Cycle>)
    requires Observed(x) && Cycles(gate, x, cycles) && !ValidIdsDistinct(x.specs, x.remote.conditions)
    ensures !Synced(End(x, cycles))
  {
    var i: nat, j: nat :| i < j < |x.specs| && HasValidId(x.specs[i], x.remote.conditions)
      && x.specs[i].id == x.specs[j].id;
    SharedForGood(gate, x, cycles, i, j);
  }

  lemma TangledOn(gate: string, x: Scene, c: Cycle, n: nat) returns (cycles: seq<Cycle>)
    requires Observed(x) && IsCycle(gate, x, c) && !ValidIdsDistinct(Next(x, c).specs, Next(x, c).remote.conditions)
    ensures |cycles| == n + 1 && Cycles(gate, x, cycles) && !Synced(End(x, cycles))
  {
    NextObserved(gate, x, c);
    var rest := SomeCycles(gate, Next(x, c), n);
    SharedSomewhere(gate, Next(x, c), rest);
    cycles := [c] + rest;
    assert cycles[1..] == rest;
  }

  lemma UnsyncedIfTangled(x: Scene)
    requires Observed(x) && !Untangled(x)
    ensures !Synced(x)
  {
    if Synced(x) {
      forall i | 0 <= i < |x.specs|
        ensures Held(x.specs[i], x.remote.conditions) && !Unmet(x.specs[i], x.remote.conditions) {
        assert x.specs[i] in x.specs;
        UnmetHasNoValidId(x.specs[i], x.remote.conditions);
      }
      assert Untangled(x);
    }
  }

  /** Someone holds an ID that another spec's creation in this very round may bring. */
  lemma ForetoldPair(x: Scene) returns (h: nat, k: nat)
    requires Observed(x) && !NoForetoldId(x.specs, x.remote)
    ensures h < |x.specs| && h != k && k in PlanFor(x).creates
    ensures x.specs[h].id.Some? && MayIssue(x.remote, x.specs[h].id.value)
  {
    var i: nat, j: nat :| i < |x.specs| && j < |x.specs| && i != j && x.specs[i].id.Some?
      && MayIssue(x.remote, x.specs[i].id.value) && Unmet(x.specs[j], x.remote.conditions);
    k := WaitingWinner(x, Key(x.specs[j]), j);
    PlanItems(x.specs, x.obs, x.remote, k);
    PlaceholdersDistinct(x.specs[j].metric, "");
    h := if k == i then j else i;
  }

  /** If nothing that is written has a rival, rivals are two waiting specs neither of which is created now. */
  lemma WaitingRivals(x: Scene) returns (i: nat, j: nat)
    requires Observed(x) && ValidIdsDistinct(x.specs, x.remote.conditions)
    requires !RivalFree(x.specs, x.remote.conditions) && WritesUnrivalled(x.specs, x.remote.conditions, PlanFor(x))
    ensures i < |x.specs| && j < |x.specs| && i != j && Compatible(x.specs[i], x.specs[j])
    ensures forall n | n == i || n == j :: !HasValidId(x.specs[n], x.remote.conditions) && n !in PlanFor(x).creates
  {
    var conds := x.remote.conditions;
    i, j :| i < |x.specs| && j < |x.specs| && i != j
      && !HasValidId(x.specs[i], conds) && !Held(x.specs[j], conds) && Compatible(x.specs[i], x.specs[j]);
    assert Compatible(x.specs[j], x.specs[i]);
    if HasValidId(x.specs[j], conds) {
      ValidWins(x, j);
      PlanItems(x.specs, x.obs, x.remote, j);
    }
  }

  /** Rivals neither of which is written stay rivals. */
  lemma RivalsStay(gate: string, x: Scene, c: Cycle)
    requires Observed(x) && ValidIdsDistinct(x.specs, x.remote.conditions) && NoForetoldId(x.specs, x.remote)
    requires !RivalFree(x.specs, x.remote.conditions) && WritesUnrivalled(x.specs, x.remote.conditions, PlanFor(x))
    requires IsCycle(gate, x, c)
    ensures !RivalFree(Next(x, c).specs, Next(x, c).remote.conditions)
  {
    ClearScene(x);
    FinishedMakes(gate, x, c);
    var i, j := WaitingRivals(x);
    CycleSettles(gate, x, c, i);
    CycleSettles(gate, x, c, j);
    UnmetHasNoValidId(x.specs[i], Next(x, c).remote.conditions);
    UnmetHasNoValidId(x.specs[j], Next(x, c).remote.conditions);
    assert Next(x, c).specs[i] == x.specs[i] && Next(x, c).specs[j] == x.specs[j];
  }

  // ---------- exactly when it converges ----------

  /**
   * After `n` error-free rounds, however the server answers and in whatever orders, declared and remote
   * conditions are in bijection.
   */
  ghost predicate InSyncAfter(gate: string, x: Scene, n: nat) {
    forall cycles | |cycles| == n && Cycles(gate, x, cycles) :: Synced(End(x, cycles))
  }

  /**
   * Convergence, exactly, for every list of declared conditions an Observe can leave: `n` rounds are
   * certain to do if and only if no two specs can be taken for one condition, and no more than `n`
   * specs wait under one key.
   */
  lemma InSyncAfterExactly(gate: string, x: Scene, n: nat)
    requires Observed(x) && n > 0
    ensures InSyncAfter(gate, x, n) <==> Untangled(x) && forall k :: |Waiting(x, k)| <= n
  {
    if Untangled(x) {
      var some := SomeCycles(gate, x, n);
      SyncedAfter(gate, x, some);
      forall cycles | |cycles| == n && Cycles(gate, x, cycles)
        ensures Synced(End(x, cycles)) <==> forall k :: |Waiting(x, k)| <= n
      {
        SyncedAfter(gate, x, cycles);
      }
    } else {
      var bad := Tangles(gate, x, n);
    }
  }

  /** Some number of rounds is certain to do if and only if no two specs can be taken for one condition. */
  lemma EventuallyInSyncExactly(gate: string, x: Scene)
    requires Observed(x)
    ensures (exists n: nat :: InSyncAfter(gate, x, n)) <==> Untangled(x)
  {
    if Untangled(x) {
      var n := |x.specs| + 1;
      forall k ensures |Waiting(x, k)| <= n {
        AtMostAll(|x.specs|, Waiting(x, k));
      }
      InSyncAfterExactly(gate, x, n);
    } else {
      forall n: nat ensures !InSyncAfter(gate, x, n) {
        var bad := Tangles(gate, x, n);
      }
    }
  }

  lemma {:induction false} AtMostAll(n: nat, s: set<nat>)
    requires forall i <- s :: i < n
    ensures |s| <= n
  {
    if n > 0 {
      AtMostAll(n - 1, s - {n - 1});
    } else {
      assert s == {};
    }
  }

  /** The association keys are distinct exactly when no two valid IDs are equal and no two specs wait under one key. */
  lemma KeysDistinctExactly(x: Scene)
    requires Observed(x)
    ensures KeysDistinct(x.specs) <==>
              ValidIdsDistinct(x.specs, x.remote.conditions) && forall k :: |Waiting(x, k)| <= 1
  {
    if KeysDistinct(x.specs) {
      forall k ensures |Waiting(x, k)| <= 1 {
        if i: nat :| i in Waiting(x, k) {
          assert Waiting(x, k) == {i};
        }
      }
    } else {
      var i: nat, j: nat :| i < j < |x.specs| && Key(x.specs[i]) == Key(x.specs[j]);
      SameKey(x, i, j);
      if i in Waiting(x, Key(x.specs[i])) {
        SubsetSize({i, j}, Waiting(x, Key(x.specs[i])));
      }
    }
  }

  lemma SameKey(x: Scene, i: nat, j: nat)
    requires Observed(x) && i < |x.specs| && j < |x.specs| && Key(x.specs[i]) == Key(x.specs[j])
    ensures (HasValidId(x.specs[i], x.remote.conditions) && x.specs[i].id == x.specs[j].id)
            || (i in Waiting(x, Key(x.specs[i])) && j in Waiting(x, Key(x.specs[i])))
  {
    assert x.specs[i] in x.specs && x.specs[j] in x.specs;
    PlaceholdersDistinct(x.specs[i].metric, x.specs[j].metric);
  }

  /**
   * One round is certain to do if and only if the association keys are distinct and no two specs can be
   * taken for one condition.
   */
  lemma ConvergesExactly(gate: string, x: Scene)
    requires Observed(x)
    ensures InSyncAfter(gate, x, 1) <==>
              KeysDistinct(x.specs) && RivalFree(x.specs, x.remote.conditions) && NoForetoldId(x.specs, x.remote)
  {
    InSyncAfterExactly(gate, x, 1);
    KeysDistinctExactly(x);
  }

  lemma SubsetSize<T>(a: set<T>, b: set<T>)
    requires a <= b
    ensures |a| <= |b|
  {
    assert b == a + (b - a);
  }
}
