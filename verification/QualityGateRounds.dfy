/**
 * Repeated reconciles, each an error-free Update and the Observe after it: what one of them does to
 * every declared condition, and how the rest of the work shrinks from one to the next.
 */
module QualityGateRounds {
  import opened Basics
  import opened QualityGateModel
  import opened QualityGatePlan
  import opened QualityGateMismatch
  import opened QualityGateAdoption
  import opened QualityGateTheory
  import opened QualityGateOrder

  // ---------- one round ----------

  /** Nothing that is written now could be mistaken for a condition of a spec without one. */
  ghost predicate WritesUnrivalled(specs: seq<ConditionSpec>, conds: map<string, Condition>, plan: Plan) {
    forall i, k: nat | 0 <= i < |specs| && k < |specs| && i != k && k in plan.creates + plan.updates ::
      HasValidId(specs[i], conds) || !Compatible(specs[i], specs[k])
  }

  /** What an error-free sync starts from. */
  ghost predicate Clear(specs: seq<ConditionSpec>, r: Remote, plan: Plan) {
    && Environment(specs, r) && Settled(specs, r.conditions) && ValidIdsDistinct(specs, r.conditions)
    && NoForetoldId(specs, r) && WritesUnrivalled(specs, r.conditions, plan)
    && (forall i: nat | i < |specs| ::
          && (i in plan.creates <==> Unmet(specs[i], r.conditions) && Wins(specs, i))
          && (i in plan.updates <==> Outdated(specs[i], r.conditions) && Wins(specs, i))
          && (HasValidId(specs[i], r.conditions) ==> specs[i].id.value !in plan.deletes))
  }

  lemma StoredIsCompatible(a: ConditionSpec, b: ConditionSpec, c: Condition)
    requires a.op != Some("") && b.op != Some("") && Stores(b.metric, b.error, SentOp(b), c)
    ensures Matches(b, c)
    ensures Matches(a, c) ==> Compatible(a, b)
  {
  }

  /** A spec without a valid ID finds itself in nothing but the condition created for it. */
  lemma OnlyItsOwn(specs: seq<ConditionSpec>, r: Remote, plan: Plan, made: map<nat, string>,
                   written: map<nat, Condition>, end: Remote, i: nat, id: string)
    requires Clear(specs, r, plan) && EndsAs(specs, r, plan, made, written, end)
    requires i < |specs| && !HasValidId(specs[i], r.conditions) && id in end.conditions
    requires Matches(specs[i], end.conditions[id]) || specs[i].id == Some(id)
    ensures i in made && id == made[i]
  {
    assert specs[i] in specs && Unmet(specs[i], r.conditions);
    assert id in r.conditions ==> !Claims(specs[i], r.conditions, id);
    if id in Names(made) {
      var k :| k in made && made[k] == id;
      assert specs[k] in specs;
      StoredIsCompatible(specs[i], specs[k], written[k]);
    } else if id in Rewritten(specs, plan) {
      var k :| k in plan.updates && k < |specs| && specs[k].id == Some(id);
      assert specs[k] in specs;
      StoredIsCompatible(specs[i], specs[k], written[k]);
    }
  }

  /** A valid ID stays, and its condition agrees with the spec in the end. */
  lemma ValidEndsHeld(specs: seq<ConditionSpec>, r: Remote, plan: Plan, made: map<nat, string>,
                      written: map<nat, Condition>, end: Remote, i: nat)
    requires Clear(specs, r, plan) && EndsAs(specs, r, plan, made, written, end)
    requires i < |specs| && HasValidId(specs[i], r.conditions)
    ensures Held(specs[i], end.conditions)
  {
    var id := specs[i].id.value;
    assert specs[i] in specs;
    if Outdated(specs[i], r.conditions) {
      forall j | i < j < |specs| ensures Key(specs[j]) != Key(specs[i]) {
        PlaceholdersDistinct(specs[j].metric, "");
      }
      StoredIsCompatible(specs[i], specs[i], written[i]);
    } else if id in Rewritten(specs, plan) {
      var k :| k in plan.updates && k < |specs| && specs[k].id == Some(id);
      assert k != i && HasValidId(specs[k], r.conditions);
      assert false;
    }
  }

  /**
   * What one round leaves of spec `s`: its ID stays, it gets the ID of the condition created for it, or
   * nothing happens.
   */
  ghost predicate Settles(s: ConditionSpec, after: ConditionSpec, r: Remote, made: Option<string>, end: Remote) {
    if HasValidId(s, r.conditions) then after == s && Held(s, end.conditions)
    else if made.Some? then after == s.(id := made) && Held(after, end.conditions)
    else after == s && Unmet(s, end.conditions)
  }

  function MadeFor(made: map<nat, string>, i: nat): Option<string> {
    if i in made then Some(made[i]) else None
  }

  lemma RoundSettles(specs: seq<ConditionSpec>, r: Remote, plan: Plan, made: map<nat, string>,
                     written: map<nat, Condition>, end: Remote, obs': seq<ConditionObservation>, i: nat)
    requires Clear(specs, r, plan) && EndsAs(specs, r, plan, made, written, end) && Lists(obs', end.conditions)
    requires i < |specs|
    ensures Settles(specs[i], Adopt(specs[i], obs'), r, MadeFor(made, i), end)
  {
    var s, a := specs[i], Adopt(specs[i], obs');
    assert s in specs;
    AdoptIsClaim(s, obs', end.conditions);
    if HasValidId(s, r.conditions) {
      ValidEndsHeld(specs, r, plan, made, written, end, i);
    } else if i in made {
      StoredIsCompatible(s, s, written[i]);
      if HasValidId(s, end.conditions) {
        OnlyItsOwn(specs, r, plan, made, written, end, i, s.id.value);
      } else {
        assert Claims(s, end.conditions, made[i]);
        OnlyItsOwn(specs, r, plan, made, written, end, i, a.id.value);
      }
    } else {
      forall id <- end.conditions ensures !Claims(s, end.conditions, id) {
        if Claims(s, end.conditions, id) {
          OnlyItsOwn(specs, r, plan, made, written, end, i, id);
        }
      }
    }
  }

  // ---------- rounds ----------

  /**
   * A gate as an Observe leaves it: the late-initialised specs, the listing they were compared with, and
   * the server.
   */
  datatype Scene = Scene(specs: seq<ConditionSpec>, obs: seq<ConditionObservation>, remote: Remote)

  /** One error-free Update and the listing the next Observe gets. */
  datatype Cycle = Cycle(steps: seq<Step>, obs: seq<ConditionObservation>)

  ghost predicate Observed(x: Scene) {
    Environment(x.specs, x.remote) && Lists(x.obs, x.remote.conditions) && Settled(x.specs, x.remote.conditions)
  }

  ghost predicate IsCycle(gate: string, x: Scene, c: Cycle) {
    Finished(gate, x.specs, x.obs, x.remote, c.steps) && Lists(c.obs, Replay(x.remote, c.steps).conditions)
  }

  function Next(x: Scene, c: Cycle): Scene {
    Scene(AdoptAll(x.specs, c.obs), c.obs, Replay(x.remote, c.steps))
  }

  ghost predicate Cycles(gate: string, x: Scene, cycles: seq<Cycle>)
    decreases cycles
  {
    cycles == [] || (IsCycle(gate, x, cycles[0]) && Cycles(gate, Next(x, cycles[0]), cycles[1..]))
  }

  function End(x: Scene, cycles: seq<Cycle>): Scene
    decreases cycles
  {
    if cycles == [] then x else End(Next(x, cycles[0]), cycles[1..])
  }

  ghost predicate Synced(x: Scene) {
    InSync(x.specs, x.remote.conditions)
  }

  /** No two declared conditions are, or can come to be, taken for the same remote condition. */
  ghost predicate Untangled(x: Scene) {
    && ValidIdsDistinct(x.specs, x.remote.conditions)
    && RivalFree(x.specs, x.remote.conditions) && NoForetoldId(x.specs, x.remote)
  }

  /** The specs without a remote condition that share the key `k`: one of them is created per round. */
  function Waiting(x: Scene, k: string): set<nat> {
    set i: nat | i < |x.specs| && Unmet(x.specs[i], x.remote.conditions) && Key(x.specs[i]) == k
  }

  function PlanFor(x: Scene): Plan {
    PlanOf(Associate(x.specs, x.obs))
  }

  lemma ClearScene(x: Scene)
    requires Observed(x) && ValidIdsDistinct(x.specs, x.remote.conditions) && NoForetoldId(x.specs, x.remote)
    ensures WritesUnrivalled(x.specs, x.remote.conditions, PlanFor(x)) ==> Clear(x.specs, x.remote, PlanFor(x))
    ensures RivalFree(x.specs, x.remote.conditions) ==> WritesUnrivalled(x.specs, x.remote.conditions, PlanFor(x))
  {
    forall i: nat | i < |x.specs|
      ensures i in PlanFor(x).creates <==> Unmet(x.specs[i], x.remote.conditions) && Wins(x.specs, i)
      ensures i in PlanFor(x).updates <==> Outdated(x.specs[i], x.remote.conditions) && Wins(x.specs, i)
      ensures HasValidId(x.specs[i], x.remote.conditions) ==> x.specs[i].id.value !in PlanFor(x).deletes
    {
      PlanItems(x.specs, x.obs, x.remote, i);
    }
  }

  lemma CycleSettles(gate: string, x: Scene, c: Cycle, i: nat)
    requires Observed(x) && IsCycle(gate, x, c) && Clear(x.specs, x.remote, PlanFor(x)) && i < |x.specs|
    ensures Settles(x.specs[i], Next(x, c).specs[i], x.remote, MadeFor(Made(c.steps), i), Next(x, c).remote)
  {
    var end := Replay(x.remote, c.steps);
    FinishedEndsAs(gate, x.specs, x.obs, x.remote, c.steps);
    RoundSettles(x.specs, x.remote, PlanFor(x), Made(c.steps), Written(c.steps), end, c.obs, i);
  }

  /** What a round needs of the scene it starts from, but for distinct IDs and rivals, it leaves. */
  lemma NextObserved(gate: string, x: Scene, c: Cycle)
    requires Observed(x) && IsCycle(gate, x, c)
    ensures Observed(Next(x, c)) && |Next(x, c).specs| == |x.specs| && x.remote.used <= Next(x, c).remote.used
  {
    var end := Replay(x.remote, c.steps);
    RunStaysSane(gate, x.specs, x.remote, PlanFor(x), c.steps);
    AdoptedEnvironment(x.specs, end, c.obs);
    AdoptedIsSettled(x.specs, c.obs, end.conditions);
  }

  lemma NextIdsDistinct(gate: string, x: Scene, c: Cycle)
    requires Observed(x) && IsCycle(gate, x, c) && Clear(x.specs, x.remote, PlanFor(x))
    ensures ValidIdsDistinct(Next(x, c).specs, Next(x, c).remote.conditions)
  {
    FinishedEndsAs(gate, x.specs, x.obs, x.remote, c.steps);
    var y, made := Next(x, c), Made(c.steps);
    forall i, j | 0 <= i < j < |y.specs| && HasValidId(y.specs[i], y.remote.conditions)
      && HasValidId(y.specs[j], y.remote.conditions)
      ensures y.specs[i].id != y.specs[j].id
    {
      CycleSettles(gate, x, c, i);
      CycleSettles(gate, x, c, j);
      UnmetHasNoValidId(y.specs[i], y.remote.conditions);
      UnmetHasNoValidId(y.specs[j], y.remote.conditions);
      assert i in made ==> made[i] in Names(made);
      assert j in made ==> made[j] in Names(made);
    }
  }

  lemma NextUntangled(gate: string, x: Scene, c: Cycle)
    requires Observed(x) && Untangled(x) && IsCycle(gate, x, c)
    ensures Untangled(Next(x, c))
  {
    ClearScene(x);
    NextIdsDistinct(gate, x, c);
    NextObserved(gate, x, c);
    var y := Next(x, c);
    forall i | 0 <= i < |x.specs|
      ensures HasValidId(y.specs[i], y.remote.conditions) ==> Held(y.specs[i], y.remote.conditions)
      ensures !HasValidId(y.specs[i], y.remote.conditions) ==>
                y.specs[i] == x.specs[i] && !HasValidId(x.specs[i], x.remote.conditions)
    {
      CycleSettles(gate, x, c, i);
      UnmetHasNoValidId(y.specs[i], y.remote.conditions);
    }
    RivalsRemain(x, y);
    ForetoldRemain(x, y);
  }

  /** Specs change only by getting a condition of their own that agrees. */
  ghost predicate Advances(x: Scene, y: Scene) {
    && |y.specs| == |x.specs|
    && forall i | 0 <= i < |x.specs| ::
         Held(y.specs[i], y.remote.conditions)
         || (y.specs[i] == x.specs[i] && !HasValidId(x.specs[i], x.remote.conditions)
             && !HasValidId(y.specs[i], y.remote.conditions))
  }

  lemma RivalsRemain(x: Scene, y: Scene)
    requires Advances(x, y) && RivalFree(x.specs, x.remote.conditions)
    ensures RivalFree(y.specs, y.remote.conditions)
  {
  }

  lemma ForetoldRemain(x: Scene, y: Scene)
    requires Advances(x, y) && NoForetoldId(x.specs, x.remote) && Observed(x) && Observed(y)
             && x.remote.used <= y.remote.used
    ensures NoForetoldId(y.specs, y.remote)
  {
    forall i, j | 0 <= i < |y.specs| && 0 <= j < |y.specs| && i != j && y.specs[i].id.Some?
      ensures !MayIssue(y.remote, y.specs[i].id.value) || !Unmet(y.specs[j], y.remote.conditions)
    {
      UnmetHasNoValidId(y.specs[j], y.remote.conditions);
      assert x.specs[j] in x.specs;
    }
  }

  /** Exactly one of the specs waiting under a key wins it. */
  lemma WaitingWinner(x: Scene, k: string, i: nat) returns (w: nat)
    requires Observed(x) && i in Waiting(x, k)
    ensures w in Waiting(x, k) && Wins(x.specs, w)
    ensures forall j <- Waiting(x, k) :: Wins(x.specs, j) ==> j == w
  {
    WinnerIsLast(x.specs, |x.specs|, k);
    w := Winner(x.specs, |x.specs|, k).value;
    assert x.specs[w] in x.specs && Key(x.specs[w]) == k;
    UnmetHasNoValidId(x.specs[i], x.remote.conditions);
    PlaceholdersDistinct(x.specs[i].metric, x.specs[w].metric);
  }

  lemma StillWaiting(gate: string, x: Scene, c: Cycle, i: nat)
    requires Observed(x) && Clear(x.specs, x.remote, PlanFor(x)) && IsCycle(gate, x, c) && i < |x.specs|
    ensures var s, after := x.specs[i], Next(x, c).specs[i];
            Unmet(after, Next(x, c).remote.conditions) <==> Unmet(s, x.remote.conditions) && !Wins(x.specs, i)
    ensures Unmet(Next(x, c).specs[i], Next(x, c).remote.conditions) ==> Next(x, c).specs[i] == x.specs[i]
  {
    var s, after, conds := x.specs[i], Next(x, c).specs[i], Next(x, c).remote.conditions;
    CycleSettles(gate, x, c, i);
    FinishedMakes(gate, x, c);
    UnmetHasNoValidId(s, x.remote.conditions);
    assert Held(after, conds) ==> Claims(after, conds, after.id.value);
    assert s in x.specs;
  }

  lemma FinishedMakes(gate: string, x: Scene, c: Cycle)
    requires Observed(x) && IsCycle(gate, x, c)
    ensures Made(c.steps).Keys == PlanFor(x).creates
  {
    FinishedEndsAs(gate, x.specs, x.obs, x.remote, c.steps);
  }

  /** A round takes the winner off the waiting specs of each key, and adds none. */
  lemma NextWaiting(gate: string, x: Scene, c: Cycle, k: string)
    requires Observed(x) && Clear(x.specs, x.remote, PlanFor(x)) && IsCycle(gate, x, c)
    ensures |Waiting(Next(x, c), k)| == if Waiting(x, k) == {} then 0 else |Waiting(x, k)| - 1
  {
    var y := Next(x, c);
    forall i: nat | i < |x.specs| ensures i in Waiting(y, k) <==> i in Waiting(x, k) && !Wins(x.specs, i) {
      StillWaiting(gate, x, c, i);
    }
    if i: nat :| i in Waiting(x, k) {
      var w := WaitingWinner(x, k, i);
      assert Waiting(y, k) == Waiting(x, k) - {w};
    } else {
      assert Waiting(y, k) == {};
    }
  }

  // ---------- order independence, spec by spec ----------

  /**
   * After two error-free rounds from one scene, in any two orders, the same specs hold a condition, and
   * it is the same condition wherever the declared operator, the start or a server that stores alike
   * decides; only new IDs may differ.
   */
  lemma OrderIndependenceBySpec(gate: string, x: Scene, a: Cycle, b: Cycle, i: nat)
    requires Observed(x) && Untangled(x) && IsCycle(gate, x, a) && IsCycle(gate, x, b) && i < |x.specs|
    ensures var s, p, q, condsA, condsB :=
              x.specs[i], Next(x, a).specs[i], Next(x, b).specs[i],
              Next(x, a).remote.conditions, Next(x, b).remote.conditions;
            && (Held(p, condsA) <==> Held(q, condsB))
            && (HasValidId(s, x.remote.conditions) || !Held(p, condsA) ==> p == s == q)
            && (Held(p, condsA) && (s.op.Some? || Held(s, x.remote.conditions) || AnsweredAlike(a.steps, b.steps)) ==>
                  condsA[p.id.value] == condsB[q.id.value])
  {
    ClearScene(x);
    CycleSettles(gate, x, a, i);
    CycleSettles(gate, x, b, i);
    FinishedMakes(gate, x, a);
    FinishedMakes(gate, x, b);
    UnmetHasNoValidId(x.specs[i], Next(x, a).remote.conditions);
    UnmetHasNoValidId(x.specs[i], Next(x, b).remote.conditions);
    if Held(Next(x, a).specs[i], Next(x, a).remote.conditions) {
      EndsWith(gate, x, a, i);
      EndsWith(gate, x, b, i);
    }
  }

  /** The condition a spec holds after a round: the one it had, if that agreed, or what was written for it. */
  lemma EndsWith(gate: string, x: Scene, c: Cycle, i: nat)
    requires Observed(x) && Clear(x.specs, x.remote, PlanFor(x)) && IsCycle(gate, x, c) && i < |x.specs|
    requires Held(Next(x, c).specs[i], Next(x, c).remote.conditions)
    ensures var id, conds := Next(x, c).specs[i].id.value, Next(x, c).remote.conditions;
            if Held(x.specs[i], x.remote.conditions) then conds[id] == x.remote.conditions[x.specs[i].id.value]
            else i in Written(c.steps) && conds[id] == Written(c.steps)[i]
  {
    CycleSettles(gate, x, c, i);
    FinishedEndsAs(gate, x.specs, x.obs, x.remote, c.steps);
    UnmetHasNoValidId(x.specs[i], Next(x, c).remote.conditions);
    if Held(x.specs[i], x.remote.conditions) {
      HeldIsNotRewritten(x, i);
    } else if Outdated(x.specs[i], x.remote.conditions) {
      ValidWins(x, i);
    }
  }

  lemma HeldIsNotRewritten(x: Scene, i: nat)
    requires Observed(x) && Clear(x.specs, x.remote, PlanFor(x)) && i < |x.specs|
             && Held(x.specs[i], x.remote.conditions)
    ensures x.specs[i].id.value !in Rewritten(x.specs, PlanFor(x))
  {
  }

  lemma ValidWins(x: Scene, j: nat)
    requires Observed(x) && ValidIdsDistinct(x.specs, x.remote.conditions)
    requires j < |x.specs| && HasValidId(x.specs[j], x.remote.conditions)
    ensures Wins(x.specs, j)
  {
    forall i | j < i < |x.specs| ensures Key(x.specs[i]) != Key(x.specs[j]) {
      PlaceholdersDistinct(x.specs[i].metric, "");
    }
  }
}
