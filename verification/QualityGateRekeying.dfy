/**
 * What the creation phase does to the association map: entries of created conditions move from their
 * placeholder or stale key to the ID the server assigned. Holds of every map the generator builds,
 * whatever IDs are declared.
 */
module QualityGateRekeying {
  import opened Basics
  import opened Pairing
  import opened QualityGateModel
  import opened QualityGatePlan
  import opened QualityGateOrder
  import opened QualityGateExact

  /** The entry leaves the map when its condition is created; the empty key stands for no key and stays. */
  predicate Replaced(m: Associations, made: map<nat, string>, k: string)
    requires k in m
  {
    k != "" && IsNonExisting(m[k]) && m[k].spec.value in made
  }

  function StayingKeys(m: Associations, made: map<nat, string>): set<string> {
    set k <- m | !Replaced(m, made, k)
  }

  /** The entry of a created condition: up to date, with what the server answered as its observation. */
  ghost predicate NewEntry(made: map<nat, string>, written: map<nat, Condition>, r: Associations, i: nat)
    requires i in made
  {
    && i in written && made[i] in r
    && r[made[i]] == Association(Some(ConditionObservation(made[i], written[i])), Some(i), true)
  }

  /**
   * `r` is `m` with the entries of the created conditions under their new IDs. A new ID may take the key
   * of an entry that was waiting under that very ID.
   */
  ghost predicate Rekeyed(m: Associations, made: map<nat, string>, written: map<nat, Condition>, r: Associations) {
    && r.Keys == Names(made) + StayingKeys(m, made)
    && (forall i <- made :: NewEntry(made, written, r, i))
    && (forall k <- r :: k !in Names(made) ==> k in m && r[k] == m[k])
  }

  lemma EntryOf(m: Associations, specs: seq<ConditionSpec>, made: map<nat, string>, written: map<nat, Condition>,
                r: Associations, i: nat, key: string)
    returns (home: string)
    requires Faithful(m, specs) && PointersOnce(m) && Rekeyed(m, made, written, r)
    requires i in PlanOf(m).creates && i !in made && FoundKey(r, i, key)
    ensures home in m && IsNonExisting(m[home]) && m[home].spec == Some(i)
    ensures forall k <- m :: m[k].spec == Some(i) ==> k == home
    ensures key == if home in Names(made) then "" else home
  {
    home :| home in m && IsNonExisting(m[home]) && m[home].spec.value == i;
    assert forall k <- r :: r[k].spec == Some(i) ==> k == home && k !in Names(made);
    if home !in Names(made) {
      assert home in r && r[home].spec == Some(i);
    }
  }

  lemma RekeyKeys(m: Associations, made: map<nat, string>, keys: set<string>, i: nat, home: string, key: string,
                  id: string)
    requires i !in made && home in m && IsNonExisting(m[home]) && m[home].spec == Some(i)
    requires forall k <- m :: m[k].spec == Some(i) ==> k == home
    requires keys == Names(made) + StayingKeys(m, made) && key == if home in Names(made) then "" else home
    ensures (if key != "" then keys - {key} else keys) + {id} == Names(made[i := id]) + StayingKeys(m, made[i := id])
  {
    NamesGrow(made, i, id);
    forall k <- m ensures Replaced(m, made[i := id], k) <==> Replaced(m, made, k) || (k == home && k != "") {}
    assert StayingKeys(m, made[i := id]) == StayingKeys(m, made) - (if home != "" then {home} else {});
  }

  /** One creation, as the phase does it: drop the key that was found, add the new one. */
  lemma RekeyStep(m: Associations, specs: seq<ConditionSpec>, made: map<nat, string>, written: map<nat, Condition>,
                  r: Associations, i: nat, key: string, id: string, c: Condition)
    requires Faithful(m, specs) && PointersOnce(m) && Rekeyed(m, made, written, r)
    requires i in PlanOf(m).creates && i !in made && FoundKey(r, i, key) && ServerId(id) && id !in Names(made)
    ensures var rest := if key != "" then r - {key} else r;
            Rekeyed(m, made[i := id], written[i := c],
                    rest[id := Association(Some(ConditionObservation(id, c)), Some(i), true)])
  {
    var home := EntryOf(m, specs, made, written, r, i, key);
    RekeyKeys(m, made, r.Keys, i, home, key, id);
    NamesGrow(made, i, id);
    var rest := if key != "" then r - {key} else r;
    var r' := rest[id := Association(Some(ConditionObservation(id, c)), Some(i), true)];
    assert r'.Keys == (if key != "" then r.Keys - {key} else r.Keys) + {id};
    var made' := made[i := id];
    forall j | j in made' ensures NewEntry(made', written[i := c], r', j) {
      assert j != i ==> made[j] in Names(made) && NewEntry(made, written, r, j);
    }
  }

  // ---------- the creation phase ----------

  /** What the creation phase promises: a run of the creations, and a map re-keyed to match. */
  ghost predicate CreationPhase(gate: string, specs: seq<ConditionSpec>, b: World, m: Associations, steps: seq<Step>,
                                c: World, r: Associations, err: Option<SyncError>)
  {
    var left := Left(PlanOf(m), steps);
    && Phase(gate, specs, b, PlanOf(m), steps, c, left, err)
    && FreshNames(b.remote, Made(steps)) && Rekeyed(m, Made(steps), Written(steps), r)
    && (err.None? ==> left == PlanOf(m).(creates := {}) && Made(steps).Keys == PlanOf(m).creates)
  }

  /** The calls so far have created the first `n` specs of the work list, under new IDs. */
  ghost predicate CreatingTrace(gate: string, specs: seq<ConditionSpec>, start: World, plan: Plan, todo: seq<nat>,
                                n: nat, steps: seq<Step>, here: World)
    requires n <= |todo|
  {
    && Phase(gate, specs, start, plan, steps, here, Left(plan, steps), None)
    && Left(plan, steps) == plan.(creates := Elements(todo[n..])) && Made(steps).Keys == Elements(todo[..n])
    && FreshNames(start.remote, Made(steps)) && here.remote.used == start.remote.used + Names(Made(steps))
  }

  /** And the map has been re-keyed accordingly. */
  ghost predicate Creating(gate: string, specs: seq<ConditionSpec>, start: World, m: Associations, todo: seq<nat>,
                           n: nat, steps: seq<Step>, here: World, r: Associations)
    requires n <= |todo|
  {
    CreatingTrace(gate, specs, start, PlanOf(m), todo, n, steps, here) && Rekeyed(m, Made(steps), Written(steps), r)
  }

  lemma CreatingNothing(gate: string, specs: seq<ConditionSpec>, start: World, m: Associations, todo: seq<nat>)
    requires CreationList(specs, PlanOf(m), todo)
    ensures Creating(gate, specs, start, m, todo, 0, [], start, m)
  {
    assert todo[0..] == todo && Calls([]) == [];
  }

  /** The specs to create conditions for, each once. */
  ghost predicate CreationList(specs: seq<ConditionSpec>, plan: Plan, todo: seq<nat>) {
    plan.deletes == {} && Elements(todo) == plan.creates && Distinct(todo) && forall i <- todo :: i < |specs|
  }

  /** The call that creates the condition of the spec whose turn it is. */
  ghost predicate CreatesNext(gate: string, specs: seq<ConditionSpec>, plan: Plan, todo: seq<nat>, n: nat,
                              here: World, call: Call)
  {
    && CreationList(specs, plan, todo) && n < |todo| && todo[n] < |specs| && Answered(here.remote, call)
    && call.CreateCall? && call.create == CreateRequestFor(gate, specs[todo[n]])
  }

  lemma CreatingFailed(gate: string, specs: seq<ConditionSpec>, start: World, m: Associations, todo: seq<nat>, n: nat,
                       steps: seq<Step>, here: World, r: Associations, call: Call, after: World)
    requires CreatesNext(gate, specs, PlanOf(m), todo, n, here, call) && !call.ok
    requires Creating(gate, specs, start, m, todo, n, steps, here, r) && after == World(here.remote, here.log + [call])
    ensures CreationPhase(gate, specs, start, m, steps + [Step(todo[n], call)], after, r, Some(CannotCreate(gate)))
  {
    WorkListStep(todo, n);
    PhaseSnoc(gate, specs, start, PlanOf(m), steps, here, Left(PlanOf(m), steps), Step(todo[n], call));
    SnocParts(steps, Step(todo[n], call));
  }

  lemma CreatingTraceStep(gate: string, specs: seq<ConditionSpec>, start: World, plan: Plan, todo: seq<nat>, n: nat,
                          steps: seq<Step>, here: World, call: Call)
    requires CreatesNext(gate, specs, plan, todo, n, here, call) && call.ok
    requires CreatingTrace(gate, specs, start, plan, todo, n, steps, here)
    ensures CreatingTrace(gate, specs, start, plan, todo, n + 1, steps + [Step(todo[n], call)],
                          World(Apply(here.remote, call), here.log + [call]))
  {
    var spec, made, step := todo[n], Made(steps), Step(todo[n], call);
    WorkListStep(todo, n);
    PhaseSnoc(gate, specs, start, plan, steps, here, Left(plan, steps), step);
    SnocParts(steps, step);
    assert todo[..n + 1] == todo[..n] + [spec];
    assert forall k | 0 <= k < n :: todo[..n][k] == todo[k] != spec;
    NamesGrow(made, spec, call.id);
    CreateNames(start.remote, made, here.remote.used, spec, call.id);
  }

  lemma CreatingStep(gate: string, specs: seq<ConditionSpec>, start: World, m: Associations, todo: seq<nat>, n: nat,
                     steps: seq<Step>, here: World, r: Associations, key: string, call: Call, after: World,
                     r': Associations)
    requires Faithful(m, specs) && PointersOnce(m) && CreatesNext(gate, specs, PlanOf(m), todo, n, here, call)
             && call.ok
    requires Creating(gate, specs, start, m, todo, n, steps, here, r) && FoundKey(r, todo[n], key)
    requires after == World(Apply(here.remote, call), here.log + [call])
    requires r' == (if key != "" then r - {key} else r)
                     [call.id := Association(Some(ConditionObservation(call.id, call.stored)), Some(todo[n]), true)]
    ensures Creating(gate, specs, start, m, todo, n + 1, steps + [Step(todo[n], call)], after, r')
  {
    CreatingTraceStep(gate, specs, start, PlanOf(m), todo, n, steps, here, call);
    SnocParts(steps, Step(todo[n], call));
    NotYetMade(todo, n);
    RekeyStep(m, specs, Made(steps), Written(steps), r, todo[n], key, call.id, call.stored);
  }

  lemma NotYetMade(todo: seq<nat>, n: nat)
    requires Distinct(todo) && n < |todo|
    ensures todo[n] !in Elements(todo[..n]) && todo[n] in Elements(todo)
  {
    assert forall k | 0 <= k < n :: todo[..n][k] == todo[k] != todo[n];
  }

  lemma CreatingAll(gate: string, specs: seq<ConditionSpec>, start: World, m: Associations, todo: seq<nat>,
                    steps: seq<Step>, here: World, r: Associations)
    requires Creating(gate, specs, start, m, todo, |todo|, steps, here, r) && CreationList(specs, PlanOf(m), todo)
    ensures CreationPhase(gate, specs, start, m, steps, here, r, None)
  {
    assert todo[|todo|..] == [] && todo[..|todo|] == todo;
  }

  // ---------- what the later phases rely on ----------

  /** Outdated specs whose entry a new condition took over, because the server reused the ID of an observed one. */
  function Overtaken(specs: seq<ConditionSpec>, updates: set<nat>, made: map<nat, string>): set<nat> {
    set i <- updates | i < |specs| && specs[i].id.Some? && specs[i].id.value in Names(made)
  }

  /** Re-keying touches neither the entries to be deleted nor, unless they are overtaken, those to be updated. */
  lemma RekeyedPlan(m: Associations, specs: seq<ConditionSpec>, made: map<nat, string>, written: map<nat, Condition>,
                    r: Associations)
    requires Faithful(m, specs) && Rekeyed(m, made, written, r)
    requires PlanOf(m).deletes == {} && made.Keys <= PlanOf(m).creates
    ensures Faithful(r, specs) && PlanOf(r).deletes == {}
    ensures PlanOf(r).updates == PlanOf(m).updates - Overtaken(specs, PlanOf(m).updates, made)
  {
    forall k <- r
      ensures FaithfulEntry(k, r[k], specs) && !IsMissing(r[k]) && (IsOutdated(r[k]) ==> k !in Names(made)) {
      if k in Names(made) {
        var j :| j in made && made[j] == k;
        var k' :| k' in m && IsNonExisting(m[k']) && m[k'].spec.value == j;
      } else {
        assert k !in MissingKeys(m);
      }
    }
    forall i ensures i in PlanOf(r).updates <==> i in PlanOf(m).updates - Overtaken(specs, PlanOf(m).updates, made) {
      if i in PlanOf(m).updates {
        var k :| k in m && IsOutdated(m[k]) && m[k].spec.value == i;
        assert k !in Names(made) ==> k in r;
      }
    }
  }

  /** When the phase has finished, no entry lacks an observation, but for one under the empty key. */
  lemma RekeyedComplete(m: Associations, specs: seq<ConditionSpec>, made: map<nat, string>,
                        written: map<nat, Condition>, r: Associations)
    requires Faithful(m, specs) && Rekeyed(m, made, written, r) && made.Keys == PlanOf(m).creates
    ensures forall k <- r :: r[k].observation.None? ==> k == ""
  {
    forall k <- r | r[k].observation.None? ensures k == "" {
      assert k !in Names(made);
      assert m[k].spec.value in PlanOf(m).creates;
    }
  }

  /** Creation preserves the number of entries, unless someone declares the empty ID. */
  lemma RekeyedCount(m: Associations, specs: seq<ConditionSpec>, made: map<nat, string>, written: map<nat, Condition>,
                     r: Associations)
    requires Faithful(m, specs) && PointersOnce(m) && Rekeyed(m, made, written, r) && made.Keys == PlanOf(m).creates
    requires forall i, j | i in made && j in made && made[i] == made[j] :: i == j
    requires Names(made) !! m.Keys - NonExistingKeys(m) && "" !in Names(made)
    ensures |r| == |m| + if "" in NonExistingKeys(m) then 1 else 0
  {
    CreatesCounted(m);
    InjectiveImageSize(made.Keys, made);
    assert Names(made) == Image(made.Keys, made);
    StayingWhenAllMade(m, made);
    KeysCounted(m.Keys, NonExistingKeys(m), Names(made));
    assert |r| == |r.Keys| && |m| == |m.Keys|;
  }

  lemma KeysCounted(keys: set<string>, waiting: set<string>, names: set<string>)
    requires waiting <= keys && |names| == |waiting| && names !! keys - waiting && "" !in names
    ensures |names + ((keys - waiting) + waiting * {""})| == |keys| + if "" in waiting then 1 else 0
  {
    var rest, nameless := keys - waiting, waiting * {""};
    assert keys == waiting + rest && |keys| == |waiting| + |rest|;
    assert nameless == if "" in waiting then {""} else {};
    assert names + (rest + nameless) == (names + rest) + nameless;
    assert |names + rest| == |names| + |rest| && (names + rest) !! nameless;
  }

  lemma StayingWhenAllMade(m: Associations, made: map<nat, string>)
    requires made.Keys == PlanOf(m).creates
    ensures StayingKeys(m, made) == (m.Keys - NonExistingKeys(m)) + NonExistingKeys(m) * {""}
  {
    forall k <- m ensures IsNonExisting(m[k]) ==> m[k].spec.value in made {}
  }

  // ---------- the phases together ----------

  /**
   * What a sync promises: one run of the plan, whatever fails; new conditions under new IDs; and without
   * error nothing left to do but what was overtaken.
   */
  ghost predicate SyncRun(gate: string, specs: seq<ConditionSpec>, a: World, plan: Plan, steps: seq<Step>, d: World,
                          err: Option<SyncError>)
  {
    && Phase(gate, specs, a, plan, steps, d, Left(plan, steps), err)
    && FreshNames(a.remote, Made(steps)) && err != Some(NoExternalName)
    && (err.None? ==> Left(plan, steps) == NOTHING.(updates := Overtaken(specs, plan.updates, Made(steps))))
  }

  /** What the deletion phase promises: a run of the deletions, and a map without the deleted entries. */
  ghost predicate DeletionPhase(gate: string, specs: seq<ConditionSpec>, a: World, m: Associations, steps: seq<Step>,
                                b: World, r: Associations, err: Option<SyncError>)
  {
    && Phase(gate, specs, a, PlanOf(m), steps, b, PlanOf(r), err) && Made(steps) == map[]
      && b.remote.used == a.remote.used
    && r == m - Done(steps).deletes && Faithful(r, specs) && (PointersOnce(m) ==> PointersOnce(r))
    && (err.None? ==> PlanOf(r) == PlanOf(m).(deletes := {}))
  }

  /** What the update phase promises: a run of the updates, without error all of those in the map. */
  ghost predicate UpdatePhase(gate: string, specs: seq<ConditionSpec>, c: World, plan: Plan, updates: set<nat>,
                              steps: seq<Step>, d: World, err: Option<SyncError>)
  {
    && Phase(gate, specs, c, plan, steps, d, Left(plan, steps), err) && Made(steps) == map[]
    && (err.None? ==> Left(plan, steps) == plan.(updates := plan.updates - updates))
  }

  /** Deletions and creations have been made; the updates left in the map are those that were not overtaken. */
  ghost predicate BeforeUpdates(gate: string, specs: seq<ConditionSpec>, a: World, plan: Plan, steps: seq<Step>,
                                c: World, r: Associations)
  {
    && Phase(gate, specs, a, plan, steps, c, plan.(deletes := {}, creates := {}), None)
    && FreshNames(a.remote, Made(steps)) && Faithful(r, specs)
    && PlanOf(r).updates == plan.updates - Overtaken(specs, plan.updates, Made(steps))
  }

  lemma DeletionsFailed(gate: string, specs: seq<ConditionSpec>, a: World, m: Associations, steps: seq<Step>,
                        b: World, r: Associations, err: Option<SyncError>)
    requires DeletionPhase(gate, specs, a, m, steps, b, r, err) && err.Some?
    ensures SyncRun(gate, specs, a, PlanOf(m), steps, b, err)
  {
  }

  lemma PhasesMake(gate: string, specs: seq<ConditionSpec>, a: World, plan: Plan, first: seq<Step>, b: World,
                   left: Plan, second: seq<Step>, c: World, rest: Plan, err: Option<SyncError>)
    requires Phase(gate, specs, a, plan, first, b, left, None) && Phase(gate, specs, b, left, second, c, rest, err)
    ensures Phase(gate, specs, a, plan, first + second, c, rest, err)
    ensures Made(first + second) == Made(first) + Made(second)
  {
    PhaseConcat(gate, specs, a, plan, first, b, left, second, c, rest, err);
    MadeConcat(first, second);
  }

  lemma CreationsContinue(gate: string, specs: seq<ConditionSpec>, a: World, plan: Plan, first: seq<Step>, b: World,
                          left: Plan, second: seq<Step>, c: World, rest: Plan, err: Option<SyncError>)
    requires Phase(gate, specs, a, plan, first, b, left, None) && Made(first) == map[] && b.remote.used == a.remote.used
    requires Phase(gate, specs, b, left, second, c, rest, err) && FreshNames(b.remote, Made(second))
    ensures Phase(gate, specs, a, plan, first + second, c, rest, err)
    ensures Made(first + second) == Made(second) && FreshNames(a.remote, Made(second))
  {
    PhasesMake(gate, specs, a, plan, first, b, left, second, c, rest, err);
  }

  /** The deletions and creations of a sync as one run. */
  lemma CreationsDone(gate: string, specs: seq<ConditionSpec>, a: World, m: Associations, first: seq<Step>, b: World,
                      rest: Associations, second: seq<Step>, c: World, r: Associations, err: Option<SyncError>)
    requires DeletionPhase(gate, specs, a, m, first, b, rest, None)
             && CreationPhase(gate, specs, b, rest, second, c, r, err)
    ensures if err.Some? then SyncRun(gate, specs, a, PlanOf(m), first + second, c, err)
            else BeforeUpdates(gate, specs, a, PlanOf(m), first + second, c, r)
  {
    CreationsContinue(gate, specs, a, PlanOf(m), first, b, PlanOf(rest), second, c, Left(PlanOf(rest), second), err);
    if err.None? {
      RekeyedPlan(rest, specs, Made(second), Written(second), r);
    }
  }

  /** The updates continue it, and leave undone only what was overtaken. */
  lemma UpdatesDone(gate: string, specs: seq<ConditionSpec>, a: World, m: Associations, steps: seq<Step>, c: World,
                    r: Associations, third: seq<Step>, d: World, err: Option<SyncError>)
    requires BeforeUpdates(gate, specs, a, PlanOf(m), steps, c, r)
    requires UpdatePhase(gate, specs, c, PlanOf(m).(deletes := {}, creates := {}), PlanOf(r).updates, third, d, err)
    ensures SyncRun(gate, specs, a, PlanOf(m), steps + third, d, err)
  {
    var plan, left := PlanOf(m), PlanOf(m).(deletes := {}, creates := {});
    PhasesMake(gate, specs, a, plan, steps, c, left, third, d, Left(left, third), err);
    assert plan.updates - PlanOf(r).updates == Overtaken(specs, plan.updates, Made(steps));
  }
}
