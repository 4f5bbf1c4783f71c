/** The quality-gate external client: Observe, Create, Update and the three phases of the condition sync. */
module QualityGateController {
  import opened Basics
  import opened Pairing
  import opened QualityGateModel
  import opened QualityGatePlan
  import opened QualityGateAdoption
  import opened QualityGateServer
  import opened QualityGateClient
  import opened QualityGateOrder
  import opened QualityGateRekeying

  /** The managed resource. An empty external name is one that was never set. */
  class QualityGate {
    var externalName: string
    var spec: GateParameters
    var status: GateObservation

    constructor (spec: GateParameters)
      ensures this.spec == spec && externalName == ""
    {
      this.spec := spec;
      externalName := "";
      status := GateObservation("", false, []);
    }
  }

  datatype ExternalObservation = ExternalObservation(resourceExists: bool, upToDate: bool, lateInitialized: bool)

  /** `LateInitializeQualityGate`, writing through the spec in place. */
  method LateInitialize(mg: QualityGate)
    modifies mg`spec
    ensures mg.spec == LateInitialized(old(mg.spec), mg.status)
  {
    if mg.spec.default.None? {
      mg.spec := mg.spec.(default := Some(mg.status.isDefault));
    }
    var ids := BuildObservationIdSet(mg.status.conditions);
    ghost var declared, obs := mg.spec, mg.status.conditions;
    AdoptedAll(declared.conditions, obs);
    for i := 0 to |mg.spec.conditions|
      invariant mg.spec == declared.(conditions := AdoptedFirst(declared.conditions, obs, i))
    {
      AdoptedOneMore(declared.conditions, obs, i);
      var s := mg.spec.conditions[i];
      var hasValidId := s.id.Some? && s.id.value in ids && ids[s.id.value];
      if !hasValidId {
        var matching := FindMatchingObservationId(s, mg.status.conditions);
        if matching.Some? {
          mg.spec := mg.spec.(conditions := mg.spec.conditions[i := s.(id := matching)]);
        }
      }
    }
  }

  /** The conditions when the first `n` have been late-initialised. */
  function AdoptedFirst(specs: seq<ConditionSpec>, obs: seq<ConditionObservation>, n: nat): seq<ConditionSpec> {
    seq(|specs|, i requires 0 <= i < |specs| => if i < n then Adopt(specs[i], obs) else specs[i])
  }

  lemma AdoptedAll(specs: seq<ConditionSpec>, obs: seq<ConditionObservation>)
    ensures AdoptedFirst(specs, obs, 0) == specs && AdoptedFirst(specs, obs, |specs|) == AdoptAll(specs, obs)
  {
  }

  lemma AdoptedOneMore(specs: seq<ConditionSpec>, obs: seq<ConditionObservation>, i: nat)
    requires i < |specs|
    ensures AdoptedFirst(specs, obs, i)[i] == specs[i]
    ensures AdoptedFirst(specs, obs, i)[i := Adopt(specs[i], obs)] == AdoptedFirst(specs, obs, i + 1)
    ensures Adopt(specs[i], obs) == specs[i] ==> AdoptedFirst(specs, obs, i) == AdoptedFirst(specs, obs, i + 1)
  {
  }

  class External {
    const server: Server

    constructor (server: Server)
      ensures this.server == server
    {
      this.server := server;
    }

    /** Deletes remote conditions nobody declares; stops at the first failure. */
    method DeleteUnwantedConditions(assocs: AssociationMap<ConditionObservation>, ghost gate: string,
                                    ghost specs: seq<ConditionSpec>)
      returns (err: Option<SyncError>, ghost steps: seq<Step>)
      requires server.Valid() && Faithful(assocs.entries, specs)
      modifies assocs, server`conditions, server`log
      ensures server.Valid()
      ensures DeletionPhase(gate, specs, old(server.Snapshot()), old(assocs.entries), steps, server.Snapshot(),
                            assocs.entries, err)
    {
      steps, err := [], None;
      var missing := FindMissing(assocs.entries);
      ghost var order :| Enumerates(order, MissingKeys(assocs.entries))
        && ObservationsAt(assocs.entries, order, missing);
      ghost var plan := PlanOf(assocs.entries);
      for n := 0 to |missing|
        invariant server.Valid()
        invariant Phase(gate, specs, old(server.Snapshot()), plan, steps, server.Snapshot(), PlanOf(assocs.entries),
                        None)
        invariant PlanOf(assocs.entries) == plan.(deletes := Elements(order[n..]))
        invariant assocs.entries == old(assocs.entries) - Done(steps).deletes && Made(steps) == map[]
      {
        var id := missing[n].id;
        assert order[n] in old(assocs.entries) && FaithfulEntry(order[n], old(assocs.entries)[order[n]], specs);
        WorkListStep(order, n);
        label Sent:
        var ok := server.DeleteCondition(id);
        ghost var step := Step(0, DeleteCall(id, ok));
        PhaseSnoc(gate, specs, old(server.Snapshot()), plan, steps, old@Sent(server.Snapshot()), PlanOf(assocs.entries),
                  step);
        SnocParts(steps, step);
        steps := steps + [step];
        if !ok {
          return Some(CannotDelete(id)), steps;
        }
        PlanAfterDelete(assocs.entries, id);
        assocs.entries := assocs.entries - {id};
      }
      assert order[|missing|..] == [];
    }

    /**
     * Creates declared conditions that do not exist and re-keys their entries from the placeholder
     * or stale key to the ID the server assigned.
     */
    method CreateMissingConditions(assocs: AssociationMap<ConditionObservation>, gate: string,
                                   specs: seq<ConditionSpec>)
      returns (err: Option<SyncError>, ghost steps: seq<Step>)
      requires server.Valid() && Faithful(assocs.entries, specs) && PointersOnce(assocs.entries)
      requires PlanOf(assocs.entries).deletes == {}
      modifies assocs, server`conditions, server`used, server`log
      ensures server.Valid()
      ensures CreationPhase(gate, specs, old(server.Snapshot()), old(assocs.entries), steps, server.Snapshot(),
                            assocs.entries, err)
    {
      steps, err := [], None;
      var todo := FindNonExisting(assocs.entries);
      ghost var m, start := assocs.entries, server.Snapshot();
      CreationWorkList(m, specs, todo);
      CreatingNothing(gate, specs, start, m, todo);
      for n := 0 to |todo|
        invariant server.Valid() && Creating(gate, specs, start, m, todo, n, steps, server.Snapshot(), assocs.entries)
      {
        var spec := todo[n];
        InWorkList(specs, PlanOf(m), todo, n);
        var oldKey := FindKeyOf(assocs.entries, spec);
        ghost var here, entries := server.Snapshot(), assocs.entries;
        var ok, id, stored := server.CreateCondition(CreateRequestFor(gate, specs[spec]));
        ghost var call := CreateCall(CreateRequestFor(gate, specs[spec]), id, stored, ok);
        if !ok {
          CreatingFailed(gate, specs, start, m, todo, n, steps, here, entries, call, server.Snapshot());
          return Some(CannotCreate(gate)), steps + [Step(spec, call)];
        }
        if oldKey != "" {
          assocs.entries := assocs.entries - {oldKey};
        }
        assocs.entries := assocs.entries[id := Association(Some(ConditionObservation(id, stored)), Some(spec), true)];
        CreatingStep(gate, specs, start, m, todo, n, steps, here, entries, oldKey, call, server.Snapshot(),
                     assocs.entries);
        steps := steps + [Step(spec, call)];
      }
      CreatingAll(gate, specs, start, m, todo, steps, server.Snapshot(), assocs.entries);
    }

    /** Updates conditions that differ from their spec; the map is left alone. */
    method UpdateOutdatedConditions(assocs: AssociationMap<ConditionObservation>, ghost gate: string,
                                    specs: seq<ConditionSpec>, ghost plan: Plan)
      returns (err: Option<SyncError>, ghost steps: seq<Step>)
      requires server.Valid() && Faithful(assocs.entries, specs)
      requires plan.deletes == {} && plan.creates == {} && PlanOf(assocs.entries).updates <= plan.updates
      modifies server`conditions, server`log
      ensures server.Valid()
      ensures UpdatePhase(gate, specs, old(server.Snapshot()), plan, PlanOf(assocs.entries).updates, steps,
                          server.Snapshot(), err)
    {
      steps, err := [], None;
      var todo := FindNotUpToDate(assocs.entries);
      ghost var order :| Enumerates(order, OutdatedKeys(assocs.entries)) && EntriesAt(assocs.entries, order, todo);
      ghost var updates := PlanOf(assocs.entries).updates;
      ghost var ids := UpdateWorkList(assocs.entries, specs, todo, order);
      for n := 0 to |todo|
        invariant server.Valid() && Made(steps) == map[]
        invariant Left(plan, steps) == plan.(updates := plan.updates - updates + Elements(ids[n..]))
        invariant Phase(gate, specs, old(server.Snapshot()), plan, steps, server.Snapshot(), Left(plan, steps), None)
      {
        var spec, id := todo[n].spec.value, todo[n].observation.value.id;
        WorkListStep(ids, n);
        label Sent:
        var ok, stored := server.UpdateCondition(UpdateRequestFor(id, specs[spec]));
        ghost var step := Step(spec, UpdateCall(UpdateRequestFor(id, specs[spec]), stored, ok));
        PhaseSnoc(gate, specs, old(server.Snapshot()), plan, steps, old@Sent(server.Snapshot()), Left(plan, steps),
                  step);
        SnocParts(steps, step);
        steps := steps + [step];
        if !ok {
          return Some(CannotUpdate(specs[spec].id.value)), steps;
        }
      }
    }

    /** Deletes, then creates, then updates; the first failed call ends the sync. */
    method SyncConditions(externalName: string, specs: seq<ConditionSpec>, assocs: AssociationMap<ConditionObservation>)
      returns (err: Option<SyncError>, ghost steps: seq<Step>)
      requires server.Valid() && Faithful(assocs.entries, specs) && PointersOnce(assocs.entries)
      modifies assocs, server`conditions, server`used, server`log
      ensures server.Valid()
      ensures err == Some(NoExternalName) <==> externalName == "" && old(assocs.entries) != map[]
      ensures err == Some(NoExternalName) ==> steps == [] && server.Snapshot() == old(server.Snapshot())
      ensures err != Some(NoExternalName) ==>
                SyncRun(externalName, specs, old(server.Snapshot()), old(PlanOf(assocs.entries)), steps,
                        server.Snapshot(), err)
    {
      steps, err := [], None;
      if |assocs.entries| == 0 {
        return;
      }
      if externalName == "" {
        return Some(NoExternalName), steps;
      }
      ghost var m, a := assocs.entries, server.Snapshot();
      err, steps := DeleteUnwantedConditions(assocs, externalName, specs);
      ghost var first, b, rest := steps, server.Snapshot(), assocs.entries;
      if err.Some? {
        DeletionsFailed(externalName, specs, a, m, first, b, rest, err);
        return;
      }
      ghost var more;
      err, more := CreateMissingConditions(assocs, externalName, specs);
      steps := first + more;
      ghost var c := server.Snapshot();
      CreationsDone(externalName, specs, a, m, first, b, rest, more, c, assocs.entries, err);
      if err.Some? {
        return;
      }
      err, more := UpdateOutdatedConditions(assocs, externalName, specs, PlanOf(m).(deletes := {}, creates := {}));
      UpdatesDone(externalName, specs, a, m, steps, c, assocs.entries, more, server.Snapshot(), err);
      steps := steps + more;
    }

    /**
     * Reads the remote gate into the status, late-initialises the spec from it and compares. A gate
     * without external name is absent; otherwise the server is asked, and any error reads as a gate that
     * does not exist.
     */
    method Observe(mg: QualityGate) returns (o: ExternalObservation, ghost up: bool)
      requires server.Valid()
      modifies mg`spec, mg`status, server`log
      ensures server.Valid()
      ensures server.log == old(server.log) + if mg.externalName == "" then [] else [ShowCall(mg.externalName, up)]
      ensures mg.externalName == "" ==> up
      ensures o.resourceExists <==> mg.externalName != "" && up && server.gate == Some(mg.externalName)
      ensures !o.resourceExists ==>
                mg.spec == old(mg.spec) && mg.status == old(mg.status) && !o.upToDate && !o.lateInitialized
      ensures o.resourceExists ==>
                && mg.status.name == mg.externalName && mg.status.isDefault == server.isDefault
                && Lists(mg.status.conditions, server.conditions)
                && mg.spec == LateInitialized(old(mg.spec), mg.status)
                && o.upToDate == IsGateUpToDate(mg.spec, mg.status, Associate(mg.spec.conditions, mg.status.conditions))
                && (o.lateInitialized <==> mg.spec != old(mg.spec))
    {
      up := true;
      if mg.externalName == "" {
        return ExternalObservation(false, false, false), up;
      }
      var shown;
      shown, up := server.Show(mg.externalName);
      if shown.None? {
        return ExternalObservation(false, false, false), up;
      }
      mg.status := shown.value;
      var current := mg.spec;
      LateInitialize(mg);
      var associations := GenerateConditionsAssociation(mg.spec.conditions, mg.status.conditions);
      var conditionsLateInitialized := WereConditionsLateInitialized(current.conditions, mg.spec.conditions);
      LateInitializationVisible(current, mg.status);
      var conditionsUpToDate := AreAllUpToDate(associations);
      var upToDate := mg.spec.name == mg.status.name
        && (mg.spec.default.None? || mg.spec.default.value == mg.status.isDefault)
        && conditionsUpToDate;
      var changed := current.name != mg.spec.name || current.default != mg.spec.default || conditionsLateInitialized;
      return ExternalObservation(true, upToDate, changed), up;
    }

    /** The external name is set before the default is, so a failure to set the default keeps it. */
    method Create(mg: QualityGate) returns (err: Option<SyncError>)
      requires server.Valid()
      modifies mg`externalName, server
      ensures server.Valid() && old(server.used) <= server.used
      ensures err.Some? ==> err.value in {CannotCreateGate, CannotSetDefault}
      ensures err == Some(CannotSetDefault) ==> mg.spec.default == Some(true)
      ensures server.log == old(server.log) + [CreateGateCall(mg.spec.name, err != Some(CannotCreateGate))] +
                            if err == Some(CannotCreateGate) || mg.spec.default != Some(true) then []
                            else [SetDefaultCall(mg.spec.name, err.None?)]
      ensures err == Some(CannotCreateGate) ==>
                && mg.externalName == old(mg.externalName) && server.gate == old(server.gate)
                && server.isDefault == old(server.isDefault) && server.State() == old(server.State())
      ensures err != Some(CannotCreateGate) ==>
                && mg.externalName == mg.spec.name != "" && server.gate == Some(mg.spec.name) != old(server.gate)
                && server.isDefault == (err.None? && mg.spec.default == Some(true))
    {
      var created := server.CreateGate(mg.spec.name);
      if created.None? {
        return Some(CannotCreateGate);
      }
      mg.externalName := created.value;
      if mg.spec.default == Some(true) {
        var ok := server.SetAsDefault(created.value);
        if !ok {
          return Some(CannotSetDefault);
        }
      }
      return None;
    }

    /**
     * Works from the spec and the last observed status; the default is set under the spec's own name.
     * Without error the plan is finished, provided the status lists IDs the server has handed out.
     */
    method Update(mg: QualityGate) returns (err: Option<SyncError>, ghost steps: seq<Step>)
      requires server.Valid()
      modifies server`conditions, server`used, server`isDefault, server`log
      ensures server.Valid()
      ensures err == Some(NoExternalName) <==> mg.externalName == ""
      ensures mg.externalName == "" ==>
                server.Snapshot() == old(server.Snapshot()) && server.isDefault == old(server.isDefault)
      ensures mg.externalName != "" ==>
                var refused := mg.spec.default == Some(true) && err == Some(CannotSetDefault);
                var calls := if mg.spec.default == Some(true) then [SetDefaultCall(mg.spec.name, !refused)] else [];
                var start := World(old(server.State()), old(server.log) + calls);
                var specs, plan := mg.spec.conditions, PlanOf(Associate(mg.spec.conditions, mg.status.conditions));
                && server.isDefault == (if mg.spec.default != Some(true) || refused then old(server.isDefault)
                                        else server.gate == Some(mg.spec.name))
                && (refused ==> server.Snapshot() == start)
                && (!refused ==> SyncRun(mg.externalName, specs, start, plan, steps, server.Snapshot(), err))
                && (err.None? && Ids(mg.status.conditions) <= old(server.used) ==> Left(plan, steps) == NOTHING)
                && (err.Some? ==> EndsFailed(old(server.log), server.log))
    {
      steps := [];
      if mg.externalName == "" {
        return Some(NoExternalName), steps;
      }
      if mg.spec.default == Some(true) {
        var ok := server.SetAsDefault(mg.spec.name);
        if !ok {
          return Some(CannotSetDefault), steps;
        }
      }
      var m := GenerateConditionsAssociation(mg.spec.conditions, mg.status.conditions);
      GeneratedMap(mg.spec.conditions, mg.status.conditions);
      var assocs := new AssociationMap(m);
      err, steps := SyncConditions(mg.externalName, mg.spec.conditions, assocs);
      NothingOvertaken(mg.spec.conditions, mg.status.conditions, old(server.State()), Made(steps));
      FailureLogged(mg.externalName, err, steps);
    }
  }

  /** Calls have been made, and the last of them failed. */
  ghost predicate EndsFailed(before: seq<Call>, after: seq<Call>) {
    before < after && !Last(after).ok
  }

  lemma FailureLogged(gate: string, err: Option<SyncError>, steps: seq<Step>)
    ensures Outcome(gate, err, steps) && err.Some? ==> Calls(steps) != [] && !Last(Calls(steps)).ok
  {
  }

  /** Late initialisation leaves a trace in the fields Observe compares whenever it changes anything. */
  lemma LateInitializationVisible(before: GateParameters, o: GateObservation)
    ensures var after := LateInitialized(before, o);
            after != before <==>
              before.default != after.default ||
              exists i :: 0 <= i < |before.conditions| &&
                          (before.conditions[i].id != after.conditions[i].id
                           || before.conditions[i].op != after.conditions[i].op)
  {
  }

  lemma GeneratedMap(specs: seq<ConditionSpec>, obs: seq<ConditionObservation>)
    ensures Faithful(Associate(specs, obs), specs) && PointersOnce(Associate(specs, obs))
  {
    AssociateSpecsFaithful(specs, |specs|, obs);
  }

  /** Nothing is overtaken when the status lists IDs the server had handed out. */
  lemma NothingOvertaken(specs: seq<ConditionSpec>, obs: seq<ConditionObservation>, r: Remote, made: map<nat, string>)
    ensures FreshNames(r, made) && Ids(obs) <= r.used ==>
              Overtaken(specs, PlanOf(Associate(specs, obs)).updates, made) == {}
  {
    AssociateSpecsFaithful(specs, |specs|, obs);
    ObservedIds(specs, |specs|, obs);
  }

  lemma {:induction false} ObservedIds(specs: seq<ConditionSpec>, n: nat, obs: seq<ConditionObservation>)
    requires n <= |specs|
    ensures var m := AssociateSpecs(AssociateObservations(obs), specs, n);
            forall k <- m :: m[k].observation.Some? ==> k in Ids(obs)
  {
    if n == 0 {
      AssociateObservationsFaithful(obs, specs);
    } else {
      ObservedIds(specs, n - 1, obs);
    }
  }

  lemma InWorkList(specs: seq<ConditionSpec>, plan: Plan, todo: seq<nat>, n: nat)
    requires CreationList(specs, plan, todo) && n < |todo|
    ensures todo[n] < |specs|
  {
    assert todo[n] in todo;
  }

  lemma CreationWorkList(m: Associations, specs: seq<ConditionSpec>, todo: seq<nat>)
    requires Faithful(m, specs) && PointersOnce(m) && PlanOf(m).deletes == {}
    requires exists order :: Enumerates(order, NonExistingKeys(m)) && SpecsAt(m, order, todo)
    ensures CreationList(specs, PlanOf(m), todo)
  {
    var order :| Enumerates(order, NonExistingKeys(m)) && SpecsAt(m, order, todo);
    forall k <- NonExistingKeys(m) ensures m[k].spec.value in todo {
      var n :| 0 <= n < |order| && order[n] == k;
      assert todo[n] in todo;
    }
    forall n | 0 <= n < |todo| ensures todo[n] in PlanOf(m).creates {
      assert order[n] in NonExistingKeys(m);
    }
  }

  lemma PlanAfterDelete(m: Associations, id: string)
    requires id in m && IsMissing(m[id])
    ensures PlanOf(m - {id}) == PlanOf(m).(deletes := PlanOf(m).deletes - {id})
  {
    var r := m - {id};
    forall i ensures i in PlanOf(r).creates <==> i in PlanOf(m).creates {
      if i in PlanOf(m).creates {
        var k :| k in m && IsNonExisting(m[k]) && m[k].spec.value == i;
        assert k in r;
      }
    }
    forall i ensures i in PlanOf(r).updates <==> i in PlanOf(m).updates {
      if i in PlanOf(m).updates {
        var k :| k in m && IsOutdated(m[k]) && m[k].spec.value == i;
        assert k in r;
      }
    }
  }

  /** The specs of the outdated entries, without repetition, each with the ID its entry is stored under. */
  lemma UpdateWorkList(m: Associations, specs: seq<ConditionSpec>, todo: seq<Association<ConditionObservation>>,
                       order: seq<string>)
    returns (ids: seq<nat>)
    requires Faithful(m, specs) && Enumerates(order, OutdatedKeys(m)) && EntriesAt(m, order, todo)
    ensures |ids| == |todo| && Distinct(ids) && Elements(ids) == PlanOf(m).updates
    ensures forall n | 0 <= n < |todo| ::
              && IsOutdated(todo[n]) && todo[n].spec == Some(ids[n]) && ids[n] < |specs|
              && specs[ids[n]].id == Some(todo[n].observation.value.id)
  {
    forall n | 0 <= n < |todo| ensures IsOutdated(todo[n]) && FaithfulEntry(order[n], todo[n], specs) {
      assert order[n] in OutdatedKeys(m);
    }
    ids := seq(|todo|, n requires 0 <= n < |todo| => todo[n].spec.value);
    forall k <- OutdatedKeys(m) ensures m[k].spec.value in ids {
      var n :| 0 <= n < |order| && order[n] == k;
      assert ids[n] in ids;
    }
    forall n | 0 <= n < |ids| ensures ids[n] in PlanOf(m).updates {
      assert order[n] in OutdatedKeys(m);
    }
  }
}
