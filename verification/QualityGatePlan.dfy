/**
 * Traces of condition calls: what the server does on each call, and which calls a repair plan
 * allows. The controller's sync phases refine `Run`; everything the reconciler promises about the
 * remote gate is proved about `Run`.
 */
module QualityGatePlan {
  import opened Basics
  import opened QualityGateModel

  /** The remote gate's conditions and every condition ID the server has ever handed out. */
  datatype Remote = Remote(conditions: map<string, Condition>, used: set<string>)

  /**
   * `id` and `stored` are the server's answer to a call that succeeds. A show succeeds when the server
   * answers, be it that there is no such gate.
   */
  datatype Call =
    | DeleteCall(id: string, ok: bool)
    | CreateCall(create: CreateRequest, id: string, stored: Condition, ok: bool)
    | UpdateCall(update: UpdateRequest, stored: Condition, ok: bool)
    | SetDefaultCall(name: string, ok: bool)
    | ShowCall(name: string, ok: bool)
    | CreateGateCall(name: string, ok: bool)

  /** One call of the sync, with the declared condition it was issued for (unused by deletions). */
  datatype Step = Step(spec: nat, call: Call)

  // ---------- the server ----------

  /** A server-assigned ID: not empty, and not shaped like a placeholder key. */
  predicate ServerId(id: string) {
    id != "" && !(NEW_PREFIX <= id)
  }

  /** An ID outside `used`: the candidate, or the candidate with more digits. */
  function UnusedId(used: set<string>, candidate: string): (id: string)
    requires candidate != "" && candidate[0] == '1'
    ensures id !in used && |id| >= |candidate| && id[0] == '1' && ServerId(id)
    decreases |used|
  {
    if candidate in used then UnusedId(used - {candidate}, candidate + "1") else candidate
  }

  /** The server keeps what was sent and picks an operator only when none was sent. */
  predicate Stores(metric: string, error: string, op: string, c: Condition) {
    c.metric == metric && c.error == error && (op != "" ==> c.op == op)
  }

  /** The outcomes the server may give a call; a failed call is always possible. */
  ghost predicate Answered(r: Remote, call: Call) {
    call.ok ==>
      match call
      case DeleteCall(id, _) => id in r.conditions
      case CreateCall(q, id, stored, _) => id !in r.used && ServerId(id) && Stores(q.metric, q.error, q.op, stored)
      case UpdateCall(q, stored, _) => q.id in r.conditions && Stores(q.metric, q.error, q.op, stored)
      case _ => true
  }

  function Apply(r: Remote, call: Call): Remote {
    if !call.ok then r else
    match call
    case DeleteCall(id, _) => r.(conditions := r.conditions - {id})
    case CreateCall(_, id, stored, _) => Remote(r.conditions[id := stored], r.used + {id})
    case UpdateCall(q, stored, _) => r.(conditions := r.conditions[q.id := stored])
    case _ => r
  }

  function Replay(r: Remote, steps: seq<Step>): Remote {
    if steps == [] then r else Apply(Replay(r, Init(steps)), Last(steps).call)
  }

  // ---------- the plan ----------

  /** `step` is the next kind of work the plan asks for: deletions first, then creations, then updates. */
  ghost predicate Due(gate: string, specs: seq<ConditionSpec>, plan: Plan, step: Step) {
    match step.call
    case DeleteCall(id, _) => id in plan.deletes
    case CreateCall(q, _, _, _) =>
      && plan.deletes == {} && step.spec in plan.creates && step.spec < |specs|
      && q == CreateRequestFor(gate, specs[step.spec])
    case UpdateCall(q, _, _) =>
      && plan.deletes == {} && plan.creates == {} && step.spec in plan.updates && step.spec < |specs|
      && specs[step.spec].id.Some? && q == UpdateRequestFor(specs[step.spec].id.value, specs[step.spec])
    case _ => false
  }

  /** A successful call strikes its item off the plan. */
  function Strike(plan: Plan, step: Step): Plan {
    if !step.call.ok then plan else
    match step.call
    case DeleteCall(id, _) => plan.(deletes := plan.deletes - {id})
    case CreateCall(_, _, _, _) => plan.(creates := plan.creates - {step.spec})
    case UpdateCall(_, _, _) => plan.(updates := plan.updates - {step.spec})
    case _ => plan
  }

  function Left(plan: Plan, steps: seq<Step>): Plan {
    if steps == [] then plan else Strike(Left(plan, Init(steps)), Last(steps))
  }

  /** What the successful calls of a trace did: IDs deleted, specs created for, specs updated for. */
  function Done(steps: seq<Step>): Plan {
    if steps == [] then NOTHING
    else
      var before, s := Done(Init(steps)), Last(steps);
      if !s.call.ok then before else
      match s.call
      case DeleteCall(id, _) => before.(deletes := before.deletes + {id})
      case CreateCall(_, _, _, _) => before.(creates := before.creates + {s.spec})
      case UpdateCall(_, _, _) => before.(updates := before.updates + {s.spec})
      case _ => before
  }

  /** The ID under which the server created each spec's condition. */
  function Made(steps: seq<Step>): map<nat, string> {
    if steps == [] then map[]
    else
      var before, s := Made(Init(steps)), Last(steps);
      if s.call.ok && s.call.CreateCall? then before[s.spec := s.call.id] else before
  }

  /** What the server stored for each spec that was created or updated. */
  function Written(steps: seq<Step>): map<nat, Condition> {
    if steps == [] then map[]
    else
      var before, s := Written(Init(steps)), Last(steps);
      if s.call.ok && (s.call.CreateCall? || s.call.UpdateCall?) then before[s.spec := s.call.stored] else before
  }

  ghost predicate AllOk(steps: seq<Step>) {
    forall s <- steps :: s.call.ok
  }

  /** `steps` works through `plan` against a server that starts at `r`, and stops at the first failure. */
  ghost predicate Run(gate: string, specs: seq<ConditionSpec>, r: Remote, plan: Plan, steps: seq<Step>) {
    steps == [] ||
    (&& Run(gate, specs, r, plan, Init(steps))
     && AllOk(Init(steps))
     && Due(gate, specs, Left(plan, Init(steps)), Last(steps))
     && Answered(Replay(r, Init(steps)), Last(steps).call))
  }

  function Calls(steps: seq<Step>): seq<Call> {
    seq(|steps|, k requires 0 <= k < |steps| => steps[k].call)
  }

  ghost predicate Failed(steps: seq<Step>) {
    steps != [] && !Last(steps).call.ok
  }

  lemma RunSnoc(gate: string, specs: seq<ConditionSpec>, r: Remote, plan: Plan, steps: seq<Step>, s: Step)
    requires Run(gate, specs, r, plan, steps) && AllOk(steps)
    requires Due(gate, specs, Left(plan, steps), s) && Answered(Replay(r, steps), s.call)
    ensures Run(gate, specs, r, plan, steps + [s])
    ensures Replay(r, steps + [s]) == Apply(Replay(r, steps), s.call)
    ensures Left(plan, steps + [s]) == Strike(Left(plan, steps), s)
    ensures Calls(steps + [s]) == Calls(steps) + [s.call]
    ensures s.call.ok ==> AllOk(steps + [s])
    ensures Failed(steps + [s]) <==> !s.call.ok
  {
  }

  /** Phases compose: a run of what an error-free run left over continues it. */
  lemma {:induction false} RunConcat(gate: string, specs: seq<ConditionSpec>, r: Remote, plan: Plan, first: seq<Step>,
                                     second: seq<Step>)
    requires Run(gate, specs, r, plan, first) && AllOk(first)
    requires Run(gate, specs, Replay(r, first), Left(plan, first), second)
    ensures Run(gate, specs, r, plan, first + second)
    ensures Replay(r, first + second) == Replay(Replay(r, first), second)
    ensures Left(plan, first + second) == Left(Left(plan, first), second)
  {
    if second == [] {
      assert first + second == first;
    } else {
      var front, last := first + Init(second), Last(second);
      RunConcat(gate, specs, r, plan, first, Init(second));
      assert first + second == front + [last];
      SnocParts(front, last);
      RunSnoc(gate, specs, r, plan, front, last);
    }
  }

  lemma {:induction false} MadeConcat(first: seq<Step>, second: seq<Step>)
    ensures Made(first + second) == Made(first) + Made(second)
  {
    if second == [] {
      assert first + second == first;
    } else {
      MadeConcat(first, Init(second));
      assert first + second == (first + Init(second)) + [Last(second)];
      SnocParts(first + Init(second), Last(second));
    }
  }

  // ---------- what the calls say ----------

  /** The operator that is sent: the declared one, and none when it is nil. */
  predicate SendsOp(op: string, s: ConditionSpec) {
    if s.op.Some? then op == s.op.value else op == ""
  }

  /** The call carries its spec: a creation to this gate, an update to the condition the spec's ID names. */
  predicate SendsSpec(gate: string, specs: seq<ConditionSpec>, step: Step) {
    match step.call
    case CreateCall(q, _, _, _) =>
      && step.spec < |specs| && q.gate == gate && q.metric == specs[step.spec].metric
      && q.error == specs[step.spec].error && SendsOp(q.op, specs[step.spec])
    case UpdateCall(q, _, _) =>
      && step.spec < |specs| && specs[step.spec].id == Some(q.id) && q.metric == specs[step.spec].metric
      && q.error == specs[step.spec].error && SendsOp(q.op, specs[step.spec])
    case DeleteCall(_, _) => true
    case _ => false
  }

  /** Every call of a run, failed or not, carries the spec it was issued for. */
  lemma {:induction false} RunSendsSpecs(gate: string, specs: seq<ConditionSpec>, r: Remote, plan: Plan,
                                         steps: seq<Step>)
    requires Run(gate, specs, r, plan, steps)
    ensures forall s <- steps :: SendsSpec(gate, specs, s)
  {
    if steps != [] {
      RunSendsSpecs(gate, specs, r, plan, Init(steps));
      assert steps == Init(steps) + [Last(steps)];
    }
  }

  // ---------- what a phase reports ----------

  datatype SyncError =
    | NoExternalName
    | CannotCreateGate
    | CannotSetDefault
    | CannotDelete(id: string)
    | CannotCreate(gate: string)
    | CannotUpdate(id: string)

  /** The error a failed call is reported as. */
  function ErrorOf(gate: string, call: Call): SyncError {
    match call
    case DeleteCall(id, _) => CannotDelete(id)
    case CreateCall(_, _, _, _) => CannotCreate(gate)
    case UpdateCall(q, _, _) => CannotUpdate(q.id)
    case SetDefaultCall(_, _) => CannotSetDefault
    case _ => CannotCreateGate
  }

  /** The error of a condition call tells its kind, and the condition or the gate it was about. */
  lemma ErrorNamesCall(gate: string, specs: seq<ConditionSpec>, step: Step, e: SyncError)
    requires SendsSpec(gate, specs, step) && e == ErrorOf(gate, step.call)
    ensures e.CannotDelete? <==> step.call.DeleteCall?
    ensures e.CannotCreate? <==> step.call.CreateCall?
    ensures e.CannotUpdate? <==> step.call.UpdateCall?
    ensures e.CannotDelete? ==> e.id == step.call.id
    ensures e.CannotCreate? ==> e.gate == gate
    ensures e.CannotUpdate? ==> step.spec < |specs| && specs[step.spec].id == Some(e.id)
  {
  }

  /** A phase ended: without error every call succeeded, otherwise the last one failed and is what is reported. */
  ghost predicate Outcome(gate: string, err: Option<SyncError>, steps: seq<Step>) {
    if err.None? then AllOk(steps) else Failed(steps) && err.value == ErrorOf(gate, Last(steps).call)
  }

  /** What a phase reads and writes outside the association map: the remote state and the call log. */
  datatype World = World(remote: Remote, log: seq<Call>)

  /**
   * The contract of every phase: a run of `plan` from `before` that reaches `after`, logs exactly
   * its calls, leaves `left` to be done, and reports `err`.
   */
  ghost predicate Phase(gate: string, specs: seq<ConditionSpec>, before: World, plan: Plan,
                        steps: seq<Step>, after: World, left: Plan, err: Option<SyncError>) {
    && Run(gate, specs, before.remote, plan, steps)
    && after == World(Replay(before.remote, steps), before.log + Calls(steps))
    && left == Left(plan, steps)
    && Outcome(gate, err, steps)
  }

  lemma PhaseSnoc(gate: string, specs: seq<ConditionSpec>, before: World, plan: Plan,
                  steps: seq<Step>, here: World, left: Plan, s: Step)
    requires Phase(gate, specs, before, plan, steps, here, left, None)
    requires Due(gate, specs, left, s) && Answered(here.remote, s.call)
    ensures Phase(gate, specs, before, plan, steps + [s],
                  World(Apply(here.remote, s.call), here.log + [s.call]), Strike(left, s),
                  if s.call.ok then None else Some(ErrorOf(gate, s.call)))
  {
  }

  lemma PhaseConcat(gate: string, specs: seq<ConditionSpec>, a: World, plan: Plan, first: seq<Step>, b: World,
                    left: Plan, second: seq<Step>, c: World, rest: Plan, err: Option<SyncError>)
    requires Phase(gate, specs, a, plan, first, b, left, None) && Phase(gate, specs, b, left, second, c, rest, err)
    ensures Phase(gate, specs, a, plan, first + second, c, rest, err)
  {
    RunConcat(gate, specs, a.remote, plan, first, second);
    assert Calls(first + second) == Calls(first) + Calls(second);
  }
}
