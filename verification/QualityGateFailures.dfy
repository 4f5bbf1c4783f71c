/** Reconciles of a quality gate of which some stop at a failed call, in any places. */
module QualityGateFailures {
  import opened Basics
  import opened QualityGateModel
  import opened QualityGatePlan
  import opened QualityGateMismatch
  import opened QualityGateAdoption
  import opened QualityGateTheory
  import opened QualityGateRounds
  import opened QualityGateConvergence

  /** A round that may stop anywhere, at a failed call or before the first one, and the next Observe. */
  ghost predicate IsAttempt(gate: string, x: Scene, c: Cycle) {
    Run(gate, x.specs, x.remote, PlanFor(x), c.steps) && Lists(c.obs, Replay(x.remote, c.steps).conditions)
  }

  ghost predicate Attempts(gate: string, x: Scene, cycles: seq<Cycle>)
    decreases cycles
  {
    cycles == [] || (IsAttempt(gate, x, cycles[0]) && Attempts(gate, Next(x, cycles[0]), cycles[1..]))
  }

  /** How many of the rounds left nothing of their plan. */
  ghost function Completed(gate: string, x: Scene, cycles: seq<Cycle>): nat
    decreases cycles
  {
    if cycles == [] then 0
    else (if IsCycle(gate, x, cycles[0]) then 1 else 0) + Completed(gate, Next(x, cycles[0]), cycles[1..])
  }

  // ---------- one attempt ----------

  /** Specs that no two can be taken for one condition satisfy the invariant of single calls. */
  lemma UntangledInv(x: Scene)
    requires Observed(x) && Untangled(x)
    ensures Inv(x.specs, x.remote)
  {
    forall i | 0 <= i < |x.specs|
      ensures HasValidId(x.specs[i], x.remote.conditions) || Unmet(x.specs[i], x.remote.conditions)
    {
      assert x.specs[i] in x.specs;
    }
  }

  lemma InvUntangled(x: Scene)
    requires Inv(x.specs, x.remote)
    ensures Untangled(x)
  {
    forall i | 0 <= i < |x.specs| && HasValidId(x.specs[i], x.remote.conditions)
      ensures Claims(x.specs[i], x.remote.conditions, x.specs[i].id.value)
    {
    }
  }

  /** Wherever a round stops, no two specs come to fit one condition, and what is amiss is some of what was. */
  lemma AttemptKeeps(gate: string, x: Scene, c: Cycle)
    requires Observed(x) && Untangled(x) && IsAttempt(gate, x, c)
    ensures Observed(Next(x, c)) && Untangled(Next(x, c))
    ensures Mismatch(Next(x, c).specs, Next(x, c).remote.conditions) ==
            Left(Mismatch(x.specs, x.remote.conditions), c.steps)
  {
    var end := Replay(x.remote, c.steps);
    UntangledInv(x);
    PlanWithinMismatch(x.specs, x.obs, x.remote);
    RunConserves(gate, x.specs, x.remote, PlanFor(x), c.steps);
    AdoptionKeepsMismatch(x.specs, end, c.obs);
    InvUntangled(Next(x, c));
    AdoptedIsSettled(x.specs, c.obs, end.conditions);
  }

  lemma {:induction false} LeftShrinks(plan: Plan, steps: seq<Step>)
    ensures Within(Left(plan, steps), plan)
  {
    if steps != [] {
      LeftShrinks(plan, Init(steps));
    }
  }

  /** Nor does a spec come to wait that did not. */
  lemma AttemptWaiting(gate: string, x: Scene, c: Cycle, k: string)
    requires Observed(x) && Untangled(x) && IsAttempt(gate, x, c)
    ensures Waiting(Next(x, c), k) <= Waiting(x, k)
  {
    var y := Next(x, c);
    AttemptKeeps(gate, x, c);
    LeftShrinks(Mismatch(x.specs, x.remote.conditions), c.steps);
    forall i <- Waiting(y, k) ensures i in Waiting(x, k) {
      assert i in Mismatch(y.specs, y.remote.conditions).creates;
      AdoptIsClaim(x.specs[i], c.obs, y.remote.conditions);
      UnmetHasNoValidId(y.specs[i], y.remote.conditions);
    }
  }

  lemma SyncedAttempt(gate: string, x: Scene, c: Cycle)
    requires Observed(x) && Synced(x) && IsAttempt(gate, x, c)
    ensures c.steps == [] && Observed(Next(x, c)) && Synced(Next(x, c))
  {
    SyncedIsUpToDate(x);
    QuietPlansNothing(x);
    RunSpendsPlan(gate, x.specs, x.remote, PlanFor(x), c.steps);
    assert IsCycle(gate, x, c);
    SyncedIsFixpoint(gate, x, c);
    NextObserved(gate, x, c);
  }

  // ---------- any number of attempts ----------

  lemma {:induction false} StaysSynced(gate: string, x: Scene, cycles: seq<Cycle>)
    requires Observed(x) && Synced(x) && Attempts(gate, x, cycles)
    ensures Synced(End(x, cycles))
    decreases cycles
  {
    if cycles != [] {
      SyncedAttempt(gate, x, cycles[0]);
      StaysSynced(gate, Next(x, cycles[0]), cycles[1..]);
    }
  }

  /** Any number of rounds that stop anywhere: specs stay apart, and no more wait under a key than before. */
  lemma {:induction false} AttemptsKeep(gate: string, x: Scene, cycles: seq<Cycle>, k: string)
    requires Observed(x) && Untangled(x) && Attempts(gate, x, cycles)
    ensures var y := End(x, cycles); Observed(y) && Untangled(y) && Waiting(y, k) <= Waiting(x, k)
    decreases cycles
  {
    if cycles != [] {
      AttemptKeeps(gate, x, cycles[0]);
      AttemptWaiting(gate, x, cycles[0], k);
      AttemptsKeep(gate, Next(x, cycles[0]), cycles[1..], k);
    }
  }

  lemma WaitingShrinks(gate: string, x: Scene, c: Cycle, n: nat)
    requires Observed(x) && Untangled(x) && IsAttempt(gate, x, c) && forall k :: |Waiting(x, k)| <= n
    ensures forall k :: |Waiting(Next(x, c), k)| <= n
    ensures IsCycle(gate, x, c) && n > 0 ==> forall k :: |Waiting(Next(x, c), k)| <= n - 1
  {
    ClearScene(x);
    forall k
      ensures |Waiting(Next(x, c), k)| <= n
      ensures IsCycle(gate, x, c) && n > 0 ==> |Waiting(Next(x, c), k)| <= n - 1
    {
      AttemptWaiting(gate, x, c, k);
      SubsetSize(Waiting(Next(x, c), k), Waiting(x, k));
      if IsCycle(gate, x, c) {
        NextWaiting(gate, x, c, k);
      }
    }
  }

  /**
   * Failures cost nothing but their own round: whatever stops in between, and wherever, as many completed
   * rounds as specs wait under one key bring the gate in sync, and it stays so.
   */
  lemma {:induction false} InSyncDespiteFailures(gate: string, x: Scene, cycles: seq<Cycle>, n: nat)
    requires Observed(x) && Untangled(x) && Attempts(gate, x, cycles)
    requires 0 < n <= Completed(gate, x, cycles) && forall k :: |Waiting(x, k)| <= n
    ensures Synced(End(x, cycles))
    decreases cycles
  {
    var c, y := cycles[0], Next(x, cycles[0]);
    AttemptKeeps(gate, x, c);
    WaitingShrinks(gate, x, c, n);
    if !IsCycle(gate, x, c) {
      InSyncDespiteFailures(gate, y, cycles[1..], n);
    } else if n > 1 {
      InSyncDespiteFailures(gate, y, cycles[1..], n - 1);
    } else {
      ClearScene(x);
      assert forall k :: |Waiting(y, k)| <= 0;
      RoundSynced(gate, x, c);
      StaysSynced(gate, y, cycles[1..]);
    }
  }
}
