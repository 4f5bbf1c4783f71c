/**
 * The remote side: a server, as far as one quality gate is concerned. Every call may fail, a failed call
 * changes nothing, and every call is logged with its outcome.
 */
module QualityGateServer {
  import opened Basics
  import opened QualityGateModel
  import opened QualityGatePlan
  import opened QualityGateAdoption

  class Server {
    var gate: Option<string>
    var isDefault: bool
    var conditions: map<string, Condition>
    var used: set<string>
    ghost var log: seq<Call>

    ghost predicate Valid()
      reads this
    {
      (forall id <- conditions :: id in used) && forall id <- used :: ServerId(id)
    }

    function State(): Remote
      reads this
    {
      Remote(conditions, used)
    }

    ghost function Snapshot(): World
      reads this
    {
      World(State(), log)
    }

    constructor ()
      ensures Valid() && gate == None
    {
      gate := None;
      isDefault := false;
      conditions := map[];
      used := {};
      log := [];
    }

    /**
     * Lists the conditions in an arbitrary order. None stands for any error: the server is not `up`, or
     * there is no such gate.
     */
    method Show(name: string) returns (shown: Option<GateObservation>, ghost up: bool)
      requires Valid()
      modifies this`log
      ensures Valid() && log == old(log) + [ShowCall(name, up)]
      ensures shown.Some? <==> up && gate == Some(name)
      ensures shown.Some? ==> shown.value.name == name && shown.value.isDefault == isDefault
                              && Lists(shown.value.conditions, conditions)
    {
      var ok := *;
      up := ok;
      log := log + [ShowCall(name, up)];
      if !ok || gate != Some(name) {
        return None, up;
      }
      var listed: seq<ConditionObservation> := [];
      var rest := conditions.Keys;
      while rest != {}
        invariant rest <= conditions.Keys && log == old(log) + [ShowCall(name, up)]
        invariant Ids(listed) == conditions.Keys - rest
        invariant forall o <- listed :: o.id in conditions && conditions[o.id] == o.condition
        decreases |rest|
      {
        var id :| id in rest;
        rest := rest - {id};
        IdsSnoc(listed, ConditionObservation(id, conditions[id]));
        listed := listed + [ConditionObservation(id, conditions[id])];
      }
      return Some(GateObservation(name, isDefault, listed)), up;
    }

    /**
     * A name that is empty or taken is refused. A new gate may come with conditions of the server's choosing, but
     * is not the default.
     */
    method CreateGate(name: string) returns (created: Option<string>)
      requires Valid()
      modifies this
      ensures Valid() && log == old(log) + [CreateGateCall(name, created.Some?)] && old(used) <= used
      ensures created.Some? ==>
                created.value == name && name != "" && gate == Some(name) && old(gate) != gate && !isDefault
      ensures created.None? ==> gate == old(gate) && isDefault == old(isDefault) && State() == old(State())
    {
      var ok := *;
      if !ok || name == "" || gate == Some(name) {
        log := log + [CreateGateCall(name, false)];
        return None;
      }
      gate, isDefault, conditions := Some(name), false, map[];
      log := log + [CreateGateCall(name, true)];
      return Some(name);
    }

    /** Making another gate the default takes the default away from this one. */
    method SetAsDefault(name: string) returns (ok: bool)
      requires Valid()
      modifies this`isDefault, this`log
      ensures log == old(log) + [SetDefaultCall(name, ok)]
      ensures isDefault == if ok then gate == Some(name) else old(isDefault)
    {
      ok := *;
      if ok {
        isDefault := gate == Some(name);
      }
      log := log + [SetDefaultCall(name, ok)];
    }

    method DeleteCondition(id: string) returns (ok: bool)
      requires Valid()
      modifies this`conditions, this`log
      ensures Valid()
      ensures var call := DeleteCall(id, ok);
              log == old(log) + [call] && Answered(old(State()), call) && State() == Apply(old(State()), call)
    {
      ok := *;
      if id !in conditions {
        ok := false;
      }
      if ok {
        conditions := conditions - {id};
      }
      log := log + [DeleteCall(id, ok)];
    }

    method CreateCondition(q: CreateRequest) returns (ok: bool, id: string, stored: Condition)
      requires Valid()
      modifies this`conditions, this`used, this`log
      ensures Valid()
      ensures var call := CreateCall(q, id, stored, ok);
              log == old(log) + [call] && Answered(old(State()), call) && State() == Apply(old(State()), call)
    {
      var op := *;
      stored := Condition(q.metric, q.error, if q.op == "" then op else q.op);
      id := UnusedId(used, "1");
      ok := *;
      if ok {
        conditions := conditions[id := stored];
        used := used + {id};
      }
      log := log + [CreateCall(q, id, stored, ok)];
    }

    method UpdateCondition(q: UpdateRequest) returns (ok: bool, ghost stored: Condition)
      requires Valid()
      modifies this`conditions, this`log
      ensures Valid()
      ensures var call := UpdateCall(q, stored, ok);
              log == old(log) + [call] && Answered(old(State()), call) && State() == Apply(old(State()), call)
    {
      var op := *;
      var written := Condition(q.metric, q.error, if q.op == "" then op else q.op);
      stored := written;
      ok := *;
      if q.id !in conditions {
        ok := false;
      }
      if ok {
        conditions := conditions[q.id := written];
      }
      log := log + [UpdateCall(q, stored, ok)];
    }
  }
}
