/** The reconcile loop around the external client, end to end on the heap. */
module QualityGateReconcile {
  import opened Basics
  import opened QualityGateModel
  import opened QualityGatePlan
  import opened QualityGateMismatch
  import opened QualityGateAdoption
  import opened QualityGateTheory
  import opened QualityGateOrder
  import opened QualityGateRounds
  import opened QualityGateConvergence
  import opened QualityGateRekeying
  import opened QualityGateServer
  import opened QualityGateController

  /**
   * The verdict on a gate whose conditions are in sync: a changed name or a default that cannot be unset
   * keeps it out of date.
   */
  predicate FieldsSettle(held: GateParameters, name: string, isDefault: bool) {
    held.name == name && !(held.default == Some(false) && isDefault)
  }

  function SceneOf(mg: QualityGate, server: Server): Scene
    reads mg, server
  {
    Scene(mg.spec.conditions, mg.status.conditions, server.State())
  }

  /** No call after the first `n` failed. */
  ghost predicate NoFailure(log: seq<Call>, n: nat) {
    forall i | n <= i < |log| :: log[i].ok
  }

  /** An Observe that saw the gate, as the rounds that follow need it. */
  ghost predicate Seen(mg: QualityGate, server: Server, o: ExternalObservation)
    reads mg, server
  {
    && server.Valid() && Observed(SceneOf(mg, server)) && mg.spec.default.Some?
    && mg.externalName != "" && server.gate == Some(mg.externalName)
    && mg.status.name == mg.externalName && mg.status.isDefault == server.isDefault
    && o.upToDate == IsGateUpToDate(mg.spec, mg.status, Associate(mg.spec.conditions, mg.status.conditions))
  }

  /**
   * Observe, with Create and another Observe when the gate is not there. The gate is seen unless some
   * call failed.
   */
  method ObserveOrCreate(c: External, mg: QualityGate) returns (o: ExternalObservation, err: Option<SyncError>)
    requires c.server.Valid() && OperatorsDeclared(mg.spec.conditions)
    modifies mg, c.server
    ensures c.server.Valid() && old(c.server.log) <= c.server.log
    ensures NoFailure(c.server.log, |old(c.server.log)|) ==> o.resourceExists
    ensures o.resourceExists ==>
              && err.None? && Seen(mg, c.server, o) && mg.spec == LateInitialized(old(mg.spec), mg.status)
              && if mg.externalName == old(mg.externalName) && old(c.server.gate) == Some(mg.externalName) then
                   && c.server.State() == old(c.server.State()) && c.server.isDefault == old(c.server.isDefault)
                   && c.server.log == old(c.server.log) + [ShowCall(mg.externalName, true)]
                 else
                   mg.externalName == mg.spec.name && c.server.isDefault == (old(mg.spec.default) == Some(true))
  {
    ghost var specs, up := mg.spec.conditions, true;
    err := None;
    o, up := c.Observe(mg);
    assert up || !Last(c.server.log).ok;
    if !o.resourceExists {
      err := c.Create(mg);
      assert err.Some? ==> !Last(c.server.log).ok;
      if err.None? {
        o, up := c.Observe(mg);
        assert up || !Last(c.server.log).ok;
      }
    }
    if o.resourceExists {
      SeenIsObserved(specs, mg.status.conditions, c.server.State());
    }
  }

  lemma SeenIsObserved(specs: seq<ConditionSpec>, obs: seq<ConditionObservation>, r: Remote)
    requires Sane(r) && OperatorsDeclared(specs) && Lists(obs, r.conditions)
    ensures Observed(Scene(AdoptAll(specs, obs), obs, r))
  {
    AdoptedEnvironment(specs, r, obs);
    AdoptedIsSettled(specs, obs, r.conditions);
  }

  // ---------- rounds on the heap ----------

  lemma {:induction false} CyclesSnoc(gate: string, x: Scene, cycles: seq<Cycle>, c: Cycle)
    requires Cycles(gate, x, cycles) && IsCycle(gate, End(x, cycles), c)
    ensures Cycles(gate, x, cycles + [c]) && End(x, cycles + [c]) == Next(End(x, cycles), c)
    decreases cycles
  {
    if cycles == [] {
      assert ([c] + [])[1..] == [];
    } else {
      assert (cycles + [c])[1..] == cycles[1..] + [c];
      CyclesSnoc(gate, Next(x, cycles[0]), cycles[1..], c);
    }
  }

  /** What the rounds follow: the spec, the default flag, the conditions, and the calls so far. */
  datatype View = View(spec: GateParameters, isDefault: bool, scene: Scene, log: seq<Call>)

  ghost function ViewOf(mg: QualityGate, server: Server): View
    reads mg, server
  {
    View(mg.spec, server.isDefault, SceneOf(mg, server), server.log)
  }

  /** Observe has nothing to report. */
  ghost predicate Satisfied(gate: string, v: View) {
    v.spec.name == gate && v.spec.default == Some(v.isDefault) && Quiet(v.scene)
  }

  /** The calls of one reconcile with the condition calls `steps`; the default is set whenever it is needed. */
  ghost function UpdateCalls(gate: string, v: View, steps: seq<Step>): seq<Call> {
    (if Satisfied(gate, v) || v.spec.default != Some(true) then [] else [SetDefaultCall(v.spec.name, true)]) +
    Calls(steps)
  }

  predicate SameParameters(held: GateParameters, spec: GateParameters) {
    spec.name == held.name && spec.default == held.default
  }

  /** A reconcile makes the gate the default if that is declared, and its name that of the spec. */
  function DefaultAfter(gate: string, v: View): bool {
    if v.spec.default == Some(true) then v.spec.name == gate else v.isDefault
  }

  /** One round without a failed call, and the Observe after it. */
  ghost predicate OneRound(gate: string, v: View, c: Cycle, w: View) {
    && IsCycle(gate, v.scene, c) && w.scene == Next(v.scene, c)
    && SameParameters(v.spec, w.spec) && w.isDefault == DefaultAfter(gate, v)
    && w.log == v.log + UpdateCalls(gate, v, c.steps) + [ShowCall(gate, true)]
  }

  /** A reconcile without a failed call led from `v` to this server state, default flag and calls. */
  ghost predicate Updated(gate: string, v: View, steps: seq<Step>, remote: Remote, isDefault: bool, log: seq<Call>) {
    && Finished(gate, v.scene.specs, v.scene.obs, v.scene.remote, steps) && remote == Replay(v.scene.remote, steps)
    && isDefault == DefaultAfter(gate, v) && log == v.log + UpdateCalls(gate, v, steps)
  }

  lemma NothingToUpdate(gate: string, v: View)
    requires Satisfied(gate, v)
    ensures Updated(gate, v, [], v.scene.remote, v.isDefault, v.log)
  {
    VerdictIsEmptyPlan(v.scene.specs, v.scene.obs);
  }

  lemma UpdateDone(gate: string, v: View, steps: seq<Step>, end: World, isDefault: bool)
    requires !Satisfied(gate, v) && isDefault == DefaultAfter(gate, v)
    requires var first := if v.spec.default == Some(true) then [SetDefaultCall(v.spec.name, true)] else [];
             SyncRun(gate, v.scene.specs, World(v.scene.remote, v.log + first), PlanFor(v.scene), steps, end, None)
    requires Left(PlanFor(v.scene), steps) == NOTHING
    ensures Updated(gate, v, steps, end.remote, isDefault, end.log)
  {
    assert end.log == v.log + UpdateCalls(gate, v, steps);
  }

  lemma RoundDone(gate: string, v: View, steps: seq<Step>, log: seq<Call>, status: GateObservation, w: View)
    requires v.spec.conditions == v.scene.specs && v.spec.default.Some?
    requires Updated(gate, v, steps, w.scene.remote, w.isDefault, log) && w.log == log + [ShowCall(gate, true)]
    requires w.spec == LateInitialized(v.spec, status) && Lists(status.conditions, w.scene.remote.conditions)
    requires w.scene.specs == w.spec.conditions && w.scene.obs == status.conditions
    ensures OneRound(gate, v, Cycle(steps, status.conditions), w)
  {
  }

  /**
   * One reconcile of a gate that was seen, and the next Observe: an error-free Update, or none when the
   * gate was up to date, is one round. Without a failed call the gate is seen again.
   */
  method Round(c: External, mg: QualityGate, o: ExternalObservation)
    returns (next: ExternalObservation, err: Option<SyncError>, ghost cycle: Cycle)
    requires Seen(mg, c.server, o)
    modifies mg, c.server
    ensures c.server.Valid() && old(c.server.log) <= c.server.log && mg.externalName == old(mg.externalName)
    ensures NoFailure(c.server.log, |old(c.server.log)|) ==> err.None? && next.resourceExists
    ensures err.None? && next.resourceExists ==>
              && Seen(mg, c.server, next)
              && OneRound(mg.externalName, old(ViewOf(mg, c.server)), cycle, ViewOf(mg, c.server))
              && (next.lateInitialized <==> mg.spec != old(mg.spec))
  {
    err, next := None, o;
    ghost var v, steps: seq<Step> := ViewOf(mg, c.server), [];
    assert Observed(v.scene);
    if o.upToDate {
      NothingToUpdate(mg.externalName, v);
    } else {
      err, steps := c.Update(mg);
      if err.Some? {
        return next, err, Cycle([], []);
      }
      UpdateDone(mg.externalName, v, steps, c.server.Snapshot(), c.server.isDefault);
    }
    assert Updated(mg.externalName, v, steps, c.server.State(), c.server.isDefault, c.server.log);
    ghost var log, up := c.server.log, false;
    next, up := c.Observe(mg);
    assert up || !Last(c.server.log).ok;
    cycle := Cycle(steps, mg.status.conditions);
    if next.resourceExists {
      RoundDone(mg.externalName, v, steps, log, mg.status, ViewOf(mg, c.server));
      NextObserved(mg.externalName, v.scene, cycle);
    }
  }

  /** The scene before the last round. */
  function BeforeLast(x: Scene, cycles: seq<Cycle>): Scene
    requires cycles != []
  {
    End(x, Init(cycles))
  }

  /** The view after some rounds, before its log is extended by them. */
  function Ahead(gate: string, v: View, cycles: seq<Cycle>): View {
    v.(isDefault := if cycles == [] then v.isDefault else DefaultAfter(gate, v), scene := End(v.scene, cycles))
  }

  /** The calls of all rounds. */
  ghost function CallsOver(gate: string, v: View, cycles: seq<Cycle>): seq<Call> {
    if cycles == [] then []
    else
      CallsOver(gate, v, Init(cycles)) + UpdateCalls(gate, Ahead(gate, v, Init(cycles)), Last(cycles).steps) +
      [ShowCall(gate, true)]
  }

  /** Rounds without a failed call lead from `v` to `w`. */
  ghost predicate AllRounds(gate: string, v: View, cycles: seq<Cycle>, w: View) {
    && Cycles(gate, v.scene, cycles) && w.scene == End(v.scene, cycles)
    && SameParameters(v.spec, w.spec) && w.isDefault == Ahead(gate, v, cycles).isDefault
    && w.log == v.log + CallsOver(gate, v, cycles)
  }

  /** Only name and default decide what an Update does to the default, and by which call. */
  lemma SameUpdate(gate: string, v: View, w: View, steps: seq<Step>)
    requires SameParameters(v.spec, w.spec) && w.isDefault == v.isDefault && w.scene == v.scene
    ensures UpdateCalls(gate, v, steps) == UpdateCalls(gate, w, steps) && DefaultAfter(gate, v) == DefaultAfter(gate, w)
  {
  }

  lemma CallsSnoc(gate: string, v: View, cycles: seq<Cycle>, c: Cycle)
    ensures CallsOver(gate, v, cycles + [c]) ==
            CallsOver(gate, v, cycles) + UpdateCalls(gate, Ahead(gate, v, cycles), c.steps) + [ShowCall(gate, true)]
    ensures DefaultAfter(gate, Ahead(gate, v, cycles)) == DefaultAfter(gate, v)
  {
    SnocParts(cycles, c);
  }

  lemma OneRoundMore(gate: string, v: View, cycles: seq<Cycle>, w: View, c: Cycle, w': View)
    requires AllRounds(gate, v, cycles, w) && OneRound(gate, w, c, w')
    ensures AllRounds(gate, v, cycles + [c], w')
  {
    CyclesSnoc(gate, v.scene, cycles, c);
    CallsSnoc(gate, v, cycles, c);
    SameUpdate(gate, Ahead(gate, v, cycles), w, c.steps);
    Regrouped(v.log, CallsOver(gate, v, cycles), UpdateCalls(gate, w, c.steps), [ShowCall(gate, true)]);
  }

  function Shows(gate: string, n: nat): seq<Call> {
    seq(n, _ => ShowCall(gate, true))
  }

  lemma ShowsSnoc(gate: string, n: nat)
    ensures Shows(gate, n + 1) == Shows(gate, n) + [ShowCall(gate, true)]
  {
  }

  lemma SatisfiedRound(gate: string, v: View, c: Cycle)
    requires Observed(v.scene) && IsCycle(gate, v.scene, c) && Satisfied(gate, v)
    ensures UpdateCalls(gate, v, c.steps) == [] && DefaultAfter(gate, v) == v.isDefault
    ensures Observed(Next(v.scene, c)) && Quiet(Next(v.scene, c))
  {
    NextObserved(gate, v.scene, c);
    QuietStays(gate, v.scene, c);
  }

  /** A gate that Observe is satisfied with gets no call but the next Observe's, for good. */
  lemma {:induction false} OnlyShows(gate: string, v: View, cycles: seq<Cycle>)
    requires Observed(v.scene) && Cycles(gate, v.scene, cycles) && Satisfied(gate, v)
    ensures Observed(End(v.scene, cycles)) && Satisfied(gate, Ahead(gate, v, cycles))
    ensures CallsOver(gate, v, cycles) == Shows(gate, |cycles|)
  {
    if cycles != [] {
      var earlier := Init(cycles);
      CyclesPrefix(gate, v.scene, cycles);
      OnlyShows(gate, v, earlier);
      assert Ahead(gate, v, earlier) == v.(scene := End(v.scene, earlier));
      SatisfiedRound(gate, Ahead(gate, v, earlier), Last(cycles));
      ShowsSnoc(gate, |earlier|);
    }
  }

  /** `n` reconciles of a gate that was seen: without a failed call it gets to the end. */
  method Rounds(c: External, mg: QualityGate, first: ExternalObservation, n: nat)
    returns (done: bool, last: ExternalObservation, ghost cycles: seq<Cycle>)
    requires Seen(mg, c.server, first)
    modifies mg, c.server
    ensures c.server.Valid() && old(c.server.log) <= c.server.log && mg.externalName == old(mg.externalName)
    ensures NoFailure(c.server.log, |old(c.server.log)|) ==> done
    ensures done ==>
              && Seen(mg, c.server, last) && |cycles| == n
              && AllRounds(mg.externalName, old(ViewOf(mg, c.server)), cycles, ViewOf(mg, c.server))
    ensures done && n > 0 ==>
              (last.lateInitialized <==> mg.spec.conditions != BeforeLast(old(SceneOf(mg, c.server)), cycles).specs)
  {
    done, last, cycles := false, first, [];
    ghost var v, gate := ViewOf(mg, c.server), mg.externalName;
    for k := 0 to n
      invariant c.server.Valid() && old(c.server.log) <= c.server.log && mg.externalName == gate
      invariant Seen(mg, c.server, last) && |cycles| == k && AllRounds(gate, v, cycles, ViewOf(mg, c.server))
      invariant k > 0 ==> (last.lateInitialized <==> mg.spec.conditions != BeforeLast(v.scene, cycles).specs)
    {
      ghost var w, cycle := ViewOf(mg, c.server), Cycle([], []);
      var err;
      last, err, cycle := Round(c, mg, last);
      if err.Some? || !last.resourceExists {
        return;
      }
      OneRoundMore(gate, v, cycles, w, cycle, ViewOf(mg, c.server));
      SnocParts(cycles, cycle);
      cycles := cycles + [cycle];
    }
    done := true;
  }

  /**
   * Calls about this gate only: it is shown under its external name, conditions are created in it, and the
   * default is set under the declared name.
   */
  predicate IsAbout(gate: string, spec: GateParameters, call: Call) {
    match call
    case ShowCall(name, _) => name == gate
    case CreateCall(q, _, _, _) => q.gate == gate
    case SetDefaultCall(name, _) => name == spec.name
    case CreateGateCall(name, _) => name == spec.name
    case _ => true
  }

  predicate OnlyAbout(gate: string, spec: GateParameters, calls: seq<Call>) {
    forall call <- calls :: IsAbout(gate, spec, call)
  }

  lemma {:induction false} RoundsAreAbout(gate: string, v: View, cycles: seq<Cycle>)
    requires Cycles(gate, v.scene, cycles)
    ensures OnlyAbout(gate, v.spec, CallsOver(gate, v, cycles))
  {
    if cycles != [] {
      var earlier := Init(cycles);
      CyclesPrefix(gate, v.scene, cycles);
      RoundsAreAbout(gate, v, earlier);
      UpdateIsAbout(gate, Ahead(gate, v, earlier), Last(cycles));
    }
  }

  lemma UpdateIsAbout(gate: string, v: View, c: Cycle)
    requires IsCycle(gate, v.scene, c)
    ensures OnlyAbout(gate, v.spec, UpdateCalls(gate, v, c.steps))
  {
    RunSendsSpecs(gate, v.scene.specs, v.scene.remote, PlanFor(v.scene), c.steps);
    forall call <- Calls(c.steps) ensures IsAbout(gate, v.spec, call) {
      var n :| 0 <= n < |c.steps| && Calls(c.steps)[n] == call;
      assert c.steps[n] in c.steps;
    }
  }

  /**
   * A declared default is kept in the spec, and a nil one filled in by what was observed. The gate's flag
   * then stays so through all rounds, but for a gate that was the default and is declared under another
   * name: the first Update makes the default what has that name.
   */
  predicate DefaultFilledIn(declared: Option<bool>, gate: string, v: View, n: nat, isDefault: bool) {
    if declared.Some? then v.spec.default == declared
    else
      && v.spec.default == Some(v.isDefault)
      && (isDefault <==> v.isDefault && (n == 0 || v.spec.name == gate))
  }

  /**
   * What `n` rounds without a failed call come to: conditions are in sync after as many rounds as specs
   * wait under one key, and stay so. On any list the verdict is about the name and the default alone after
   * one round more than there are specs without a condition; a changed name, or a default that cannot be
   * unset, keeps the gate out of date however many rounds there are. All calls are about this gate, and one
   * that is up to date gets no call but Observe's.
   */
  ghost predicate Concluded(gate: string, v: View, n: nat, w: View, o: ExternalObservation) {
    && (n > 0 && Untangled(v.scene) && (forall k :: |Waiting(v.scene, k)| <= n) ==>
          && InSync(w.spec.conditions, w.scene.remote.conditions)
          && (o.upToDate <==> FieldsSettle(v.spec, gate, v.isDefault)))
    && (n > 1 && Untangled(v.scene) && (forall k :: |Waiting(v.scene, k)| < n) ==> !o.lateInitialized)
    && (n > |Unmets(v.scene)| ==> (o.upToDate <==> FieldsSettle(v.spec, gate, v.isDefault)))
    && (!FieldsSettle(v.spec, gate, v.isDefault) ==> !o.upToDate)
    && v.log <= w.log && OnlyAbout(gate, v.spec, w.log[|v.log|..])
    && (Satisfied(gate, v) ==> o.upToDate && w.log == v.log + Shows(gate, n))
  }

  /**
   * `n` reconciles with nobody else at the server, a creation included when the gate is not there, and the
   * Observe after each; `v` is what the first Observe that saw the gate left. Without a failed call it
   * gets to the end, and concludes as above.
   */
  method ReconcileAndObserve(c: External, mg: QualityGate, n: nat)
    returns (done: bool, last: ExternalObservation, ghost v: View, ghost cycles: seq<Cycle>)
    requires c.server.Valid() && OperatorsDeclared(mg.spec.conditions)
    modifies mg, c.server
    ensures c.server.Valid() && old(c.server.log) <= c.server.log
    ensures NoFailure(c.server.log, |old(c.server.log)|) ==> done
    ensures done ==>
              && v.spec.name == old(mg.spec.name) && v.spec.conditions == v.scene.specs && Observed(v.scene)
              && old(c.server.log) <= v.log
              && if mg.externalName == old(mg.externalName) && old(c.server.gate) == Some(mg.externalName) then
                   && v.scene.remote == old(c.server.State()) && v.isDefault == old(c.server.isDefault)
                   && v.log == old(c.server.log) + [ShowCall(mg.externalName, true)]
                 else
                   mg.externalName == v.spec.name && v.isDefault == (old(mg.spec.default) == Some(true))
    ensures done ==>
              && Seen(mg, c.server, last) && |cycles| == n
              && AllRounds(mg.externalName, v, cycles, ViewOf(mg, c.server))
    ensures done ==>
              && v.spec == LateInitialized(old(mg.spec),
                                           GateObservation(mg.externalName, v.isDefault, v.scene.obs))
              && DefaultFilledIn(old(mg.spec.default), mg.externalName, v, n, c.server.isDefault)
    ensures done ==> Concluded(mg.externalName, v, n, ViewOf(mg, c.server), last)
  {
    done, cycles := false, [];
    var err;
    last, err := ObserveOrCreate(c, mg);
    v := ViewOf(mg, c.server);
    if !last.resourceExists {
      return;
    }
    done, last, cycles := Rounds(c, mg, last, n);
    if done {
      FinalDefault(mg.externalName, v, cycles, ViewOf(mg, c.server), old(mg.spec.default));
      Conclude(mg.externalName, v, cycles, ViewOf(mg, c.server), last);
    }
  }

  lemma FinalDefault(gate: string, v: View, cycles: seq<Cycle>, w: View, declared: Option<bool>)
    requires AllRounds(gate, v, cycles, w)
    requires v.spec.default == if declared.Some? then declared else Some(v.isDefault)
    ensures DefaultFilledIn(declared, gate, v, |cycles|, w.isDefault)
  {
  }

  lemma Conclude(gate: string, v: View, cycles: seq<Cycle>, w: View, o: ExternalObservation)
    requires AllRounds(gate, v, cycles, w) && Observed(v.scene) && v.spec.default.Some?
    requires w.spec.conditions == w.scene.specs && (o.upToDate <==> Satisfied(gate, w))
    requires cycles != [] ==> (o.lateInitialized <==> w.spec.conditions != BeforeLast(v.scene, cycles).specs)
    ensures Concluded(gate, v, |cycles|, w, o)
  {
    AfterRounds(gate, v.scene, cycles);
    FinalVerdict(gate, v, cycles, w);
    FinalCalls(gate, v, cycles, w);
    if Satisfied(gate, v) {
      OnlyShows(gate, v, cycles);
    }
  }

  lemma FinalCalls(gate: string, v: View, cycles: seq<Cycle>, w: View)
    requires AllRounds(gate, v, cycles, w)
    ensures OnlyAbout(gate, v.spec, w.log[|v.log|..])
  {
    RoundsAreAbout(gate, v, cycles);
    assert w.log[|v.log|..] == CallsOver(gate, v, cycles);
  }

  lemma FinalVerdict(gate: string, v: View, cycles: seq<Cycle>, w: View)
    requires AllRounds(gate, v, cycles, w) && v.spec.default.Some?
    ensures Satisfied(gate, w) ==> FieldsSettle(v.spec, gate, v.isDefault)
    ensures cycles != [] && Quiet(w.scene) ==> (Satisfied(gate, w) <==> FieldsSettle(v.spec, gate, v.isDefault))
    ensures Satisfied(gate, w) <==> Satisfied(gate, Ahead(gate, v, cycles))
  {
    var want := v.spec.default.value;
    assert w.spec.default == Some(want);
    assert w.spec.default == Some(w.isDefault) <==> want == w.isDefault;
    assert cycles != [] ==> w.isDefault == if want then v.spec.name == gate else v.isDefault;
  }

  lemma {:induction false} CyclesPrefix(gate: string, x: Scene, cycles: seq<Cycle>)
    requires Cycles(gate, x, cycles) && cycles != []
    ensures Cycles(gate, x, Init(cycles)) && IsCycle(gate, BeforeLast(x, cycles), Last(cycles))
    ensures End(x, cycles) == Next(BeforeLast(x, cycles), Last(cycles))
    decreases cycles
  {
    if |cycles| > 1 {
      CyclesPrefix(gate, Next(x, cycles[0]), cycles[1..]);
      assert Init(cycles)[1..] == Init(cycles[1..]) && Init(cycles)[0] == cycles[0];
    } else {
      assert Init(cycles) == [] && cycles[1..] == [];
    }
  }

  lemma {:induction false} StaysObserved(gate: string, x: Scene, cycles: seq<Cycle>)
    requires Observed(x) && Cycles(gate, x, cycles)
    ensures Observed(End(x, cycles))
    decreases cycles
  {
    if cycles != [] {
      NextObserved(gate, x, cycles[0]);
      StaysObserved(gate, Next(x, cycles[0]), cycles[1..]);
    }
  }

  /** What holds after some rounds: how far the conditions have got, and when they have stopped changing. */
  lemma AfterRounds(gate: string, x: Scene, cycles: seq<Cycle>)
    requires Observed(x) && Cycles(gate, x, cycles)
    ensures cycles != [] && Untangled(x) && (forall k :: |Waiting(x, k)| <= |cycles|) ==>
              Synced(End(x, cycles)) && Quiet(End(x, cycles))
    ensures |cycles| > 1 && Untangled(x) && (forall k :: |Waiting(x, k)| < |cycles|) ==>
              End(x, cycles).specs == BeforeLast(x, cycles).specs
    ensures |cycles| > |Unmets(x)| ==> Quiet(End(x, cycles))
  {
    if cycles != [] && Untangled(x) {
      SyncedAfter(gate, x, cycles);
      StaysObserved(gate, x, cycles);
      if Synced(End(x, cycles)) {
        SyncedIsUpToDate(End(x, cycles));
      }
      if |cycles| > 1 && forall k :: |Waiting(x, k)| < |cycles| {
        LastRoundIsQuiet(gate, x, cycles);
      }
    }
    if |cycles| > |Unmets(x)| {
      GoesQuiet(gate, x, cycles);
    }
  }

  lemma LastRoundIsQuiet(gate: string, x: Scene, cycles: seq<Cycle>)
    requires Observed(x) && Untangled(x) && Cycles(gate, x, cycles) && |cycles| > 1
    requires forall k :: |Waiting(x, k)| < |cycles|
    ensures End(x, cycles).specs == BeforeLast(x, cycles).specs
  {
    CyclesPrefix(gate, x, cycles);
    SyncedAfter(gate, x, Init(cycles));
    StaysObserved(gate, x, Init(cycles));
    SyncedIsFixpoint(gate, BeforeLast(x, cycles), Last(cycles));
  }
}
