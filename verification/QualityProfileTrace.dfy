/**
 * Traces of rule calls: what each call does to the server and to the association map, and what a
 * whole sync leaves behind, rule by rule.
 */
module QualityProfileTrace {
  import opened Basics
  import opened Pairing
  import opened QualityProfileRules
  import opened QualityProfileModel

  /** What was sent is stored; whatever was not sent the server may fill in as it likes. */
  predicate Completes(q: ActivateRequest, stored: Active) {
    && stored.prioritized == q.prioritized
    && (q.impacts != map[] ==> stored.impacts == q.impacts)
    && (q.severity != "" ==> stored.severity == q.severity)
    && (q.params != map[] ==> stored.params == q.params)
  }

  /** A show succeeds when the server answers, be it that there is no such profile. */
  datatype ProfileCall =
    | ShowCall(profile: string, ok: bool)
    | CreateCall(name: string, language: string, ok: bool)
    | DefaultCall(name: string, language: string, ok: bool)
    | RenameCall(profile: string, name: string, ok: bool)
    | DeactivateCall(profile: string, rule: string, ok: bool)
    | ActivateCall(request: ActivateRequest, ok: bool)

  /** One call of the sync, the rule it was issued for, and what the server stores if an activation succeeds. */
  datatype RuleStep = RuleStep(rule: string, call: ProfileCall, stored: Active)

  const NO_RULE := Active("", false, map[], map[])

  function Rules(steps: seq<RuleStep>): seq<string> {
    seq(|steps|, n requires 0 <= n < |steps| => steps[n].rule)
  }

  function RuleCalls(steps: seq<RuleStep>): seq<ProfileCall> {
    seq(|steps|, n requires 0 <= n < |steps| => steps[n].call)
  }

  function Errors(steps: seq<RuleStep>): nat {
    if steps == [] then 0 else Errors(Init(steps)) + if Last(steps).call.ok then 0 else 1
  }

  /** The server's active rules after the calls. */
  function ActiveAfter(a: map<string, Active>, steps: seq<RuleStep>): map<string, Active> {
    if steps == [] then a
    else
      var before, s := ActiveAfter(a, Init(steps)), Last(steps);
      if !s.call.ok then before
      else if s.call.DeactivateCall? then before - {s.rule}
      else before[s.rule := s.stored]
  }

  /** The association map after the calls: deactivated rules leave it, activated ones are marked up to date. */
  function EntriesAfter(m: RuleAssociations, steps: seq<RuleStep>): RuleAssociations {
    if steps == [] then m
    else
      var before, s := EntriesAfter(m, Init(steps)), Last(steps);
      if !s.call.ok || s.rule !in before then before
      else if s.call.DeactivateCall? then before - {s.rule}
      else before[s.rule := before[s.rule].(upToDate := true)]
  }

  /** `step` is the call the map asks for on its rule: deactivate what is not declared, activate the rest. */
  ghost predicate CallFor(profile: string, specs: seq<RuleSpec>, m: RuleAssociations, step: RuleStep) {
    && step.rule in m && !m[step.rule].upToDate
    && if m[step.rule].spec.None? then
         step.call == DeactivateCall(profile, step.rule, step.call.ok)
       else
         && m[step.rule].spec.value < |specs|
         && step.call == ActivateCall(RequestFor(profile, specs[m[step.rule].spec.value]), step.call.ok)
         && Completes(step.call.request, step.stored)
  }

  ghost predicate Calls(profile: string, specs: seq<RuleSpec>, m: RuleAssociations, steps: seq<RuleStep>) {
    forall s <- steps :: CallFor(profile, specs, m, s)
  }

  /**
   * Every call is about the profile and its own rule: it deactivates a rule that has no spec, or activates
   * the rule of the spec the map points at.
   */
  lemma CallsAreAbout(profile: string, specs: seq<RuleSpec>, m: RuleAssociations, s: RuleStep)
    requires Generated(m, specs) && CallFor(profile, specs, m, s)
    ensures s.call.DeactivateCall? <==> m[s.rule].spec.None?
    ensures s.call.DeactivateCall? ==> s.call.profile == profile && s.call.rule == s.rule
    ensures !s.call.DeactivateCall? ==>
              s.call.ActivateCall? && s.call.request.profile == profile && s.call.request.rule == s.rule
  {
  }

  /** Some calls of a phase have been made, for the rules in `order`. */
  ghost predicate Progress(profile: string, specs: seq<RuleSpec>, m: RuleAssociations, a: map<string, Active>,
                           log: seq<ProfileCall>, order: seq<string>, steps: seq<RuleStep>, m': RuleAssociations,
                           a': map<string, Active>, log': seq<ProfileCall>)
  {
    && Calls(profile, specs, m, steps) && Rules(steps) == order
    && m' == EntriesAfter(m, steps) && a' == ActiveAfter(a, steps) && log' == log + RuleCalls(steps)
  }

  /** The contract of every phase: one call for each key in `keys`, in some order, whatever fails. */
  ghost predicate Phase(profile: string, specs: seq<RuleSpec>, m: RuleAssociations, a: map<string, Active>,
                        log: seq<ProfileCall>, keys: set<string>, steps: seq<RuleStep>, m': RuleAssociations,
                        a': map<string, Active>, log': seq<ProfileCall>)
  {
    Progress(profile, specs, m, a, log, Rules(steps), steps, m', a', log') && Enumerates(Rules(steps), keys)
  }

  lemma CallsSnoc(profile: string, specs: seq<RuleSpec>, m: RuleAssociations, steps: seq<RuleStep>, s: RuleStep)
    requires Calls(profile, specs, m, steps) && CallFor(profile, specs, m, s)
    ensures Calls(profile, specs, m, steps + [s])
    ensures Rules(steps + [s]) == Rules(steps) + [s.rule] && RuleCalls(steps + [s]) == RuleCalls(steps) + [s.call]
    ensures Init(steps + [s]) == steps && Last(steps + [s]) == s
  {
  }

  lemma {:induction false} ActiveConcat(a: map<string, Active>, first: seq<RuleStep>, second: seq<RuleStep>)
    ensures ActiveAfter(a, first + second) == ActiveAfter(ActiveAfter(a, first), second)
  {
    if second == [] {
      assert first + second == first;
    } else {
      ActiveConcat(a, first, Init(second));
      SnocConcat(first, second);
    }
  }

  lemma {:induction false} EntriesConcat(m: RuleAssociations, first: seq<RuleStep>, second: seq<RuleStep>)
    ensures EntriesAfter(m, first + second) == EntriesAfter(EntriesAfter(m, first), second)
  {
    if second == [] {
      assert first + second == first;
    } else {
      EntriesConcat(m, first, Init(second));
      SnocConcat(first, second);
    }
  }

  lemma {:induction false} ErrorsConcat(first: seq<RuleStep>, second: seq<RuleStep>)
    ensures Errors(first + second) == Errors(first) + Errors(second)
  {
    if second == [] {
      assert first + second == first;
    } else {
      ErrorsConcat(first, Init(second));
      SnocConcat(first, second);
    }
  }

  lemma SnocConcat<T>(first: seq<T>, second: seq<T>)
    requires second != []
    ensures first + second != [] && Init(first + second) == first + Init(second) && Last(first + second) == Last(second)
  {
  }

  function Get<V>(m: map<string, V>, k: string): Option<V> {
    if k in m then Some(m[k]) else None
  }

  /** What one call leaves at its own rule. */
  function ActiveAt(s: RuleStep, before: Option<Active>): Option<Active> {
    if !s.call.ok then before else if s.call.DeactivateCall? then None else Some(s.stored)
  }

  function EntryAt(s: RuleStep, before: Option<Association<RuleObservation>>): Option<Association<RuleObservation>> {
    if !s.call.ok || before.None? then before
    else if s.call.DeactivateCall? then None
    else Some(before.value.(upToDate := true))
  }

  lemma {:induction false} Untouched(a: map<string, Active>, m: RuleAssociations, steps: seq<RuleStep>, k: string)
    requires k !in Rules(steps)
    ensures Get(ActiveAfter(a, steps), k) == Get(a, k) && Get(EntriesAfter(m, steps), k) == Get(m, k)
  {
    if steps != [] {
      assert Rules(steps) == Rules(Init(steps)) + [Last(steps).rule];
      Untouched(a, m, Init(steps), k);
    }
  }

  /** With one call per rule, a whole trace leaves at each rule just what that rule's call leaves. */
  lemma {:induction false} OneCallPerRule(a: map<string, Active>, m: RuleAssociations, steps: seq<RuleStep>, n: nat)
    requires Distinct(Rules(steps)) && n < |steps|
    ensures Get(ActiveAfter(a, steps), steps[n].rule) == ActiveAt(steps[n], Get(a, steps[n].rule))
    ensures Get(EntriesAfter(m, steps), steps[n].rule) == EntryAt(steps[n], Get(m, steps[n].rule))
  {
    var before, k := Init(steps), steps[n].rule;
    assert Rules(steps) == Rules(before) + [Last(steps).rule];
    assert forall i | 0 <= i < |before| :: Rules(steps)[i] == before[i].rule == Rules(before)[i];
    if n < |before| {
      assert Rules(steps)[n] != Rules(steps)[|before|];
      OneCallPerRule(a, m, before, n);
    } else {
      assert forall i | 0 <= i < |before| :: Rules(steps)[i] != Rules(steps)[n];
      Untouched(a, m, before, k);
    }
  }

  /** What every phase may rely on: pointers and observations carry the key they are stored under. */
  predicate Keyed(m: RuleAssociations, specs: seq<RuleSpec>) {
    forall k <- m ::
      && (m[k].observation.Some? || m[k].spec.Some?)
      && (m[k].observation.Some? ==> m[k].observation.value.key == k)
      && (m[k].spec.Some? ==> m[k].spec.value < |specs| && specs[m[k].spec.value].rule == k)
      && (m[k].spec.None? ==> !m[k].upToDate)
  }

  lemma GeneratedIsKeyed(m: RuleAssociations, specs: seq<RuleSpec>)
    requires Generated(m, specs)
    ensures Keyed(m, specs) && forall k <- NonExistingKeys(m) :: !m[k].upToDate
  {
  }

  lemma {:induction false} EntriesStayKeyed(profile: string, specs: seq<RuleSpec>, m: RuleAssociations,
                                            steps: seq<RuleStep>)
    requires Keyed(m, specs) && Calls(profile, specs, m, steps) && Distinct(Rules(steps))
    ensures Keyed(EntriesAfter(m, steps), specs)
  {
    var r := EntriesAfter(m, steps);
    forall k <- r
      ensures k in m && m[k].observation == r[k].observation && m[k].spec == r[k].spec
      ensures r[k].upToDate ==> m[k].upToDate || m[k].spec.Some?
    {
      if k in Rules(steps) {
        var n :| 0 <= n < |steps| && steps[n].rule == k;
        OneCallPerRule(map[], m, steps, n);
        assert CallFor(profile, specs, m, steps[n]);
      } else {
        Untouched(map[], m, steps, k);
      }
    }
  }

  /** A phase keeps the entries it was not about, and keeps the sides of those it was. */
  lemma PhaseKeeps(m: RuleAssociations, steps: seq<RuleStep>, keys: set<string>, k: string)
    requires Enumerates(Rules(steps), keys)
    ensures var r := EntriesAfter(m, steps);
            && (k in r ==> k in m && r[k].spec == m[k].spec && r[k].observation == m[k].observation)
            && (k in m && k !in keys ==> k in r && r[k] == m[k])
  {
    EntriesShrink(m, steps);
    if k !in keys {
      Untouched(map[], m, steps, k);
      assert Get(EntriesAfter(m, steps), k) == Get(m, k);
    }
  }

  /** Deactivation leaves the work of the later phases as it was. */
  lemma AfterDeactivation(profile: string, specs: seq<RuleSpec>, m: RuleAssociations, steps: seq<RuleStep>)
    requires Generated(m, specs) && Calls(profile, specs, m, steps) && Enumerates(Rules(steps), MissingKeys(m))
    ensures var r := EntriesAfter(m, steps);
            && Keyed(r, specs) && NonExistingKeys(r) == NonExistingKeys(m) && OutdatedKeys(r) == OutdatedKeys(m)
            && (forall k <- NonExistingKeys(m) + OutdatedKeys(m) :: k in r && r[k] == m[k] && !m[k].upToDate)
  {
    var r := EntriesAfter(m, steps);
    GeneratedIsKeyed(m, specs);
    EntriesStayKeyed(profile, specs, m, steps);
    forall k
      ensures (k in NonExistingKeys(r) <==> k in NonExistingKeys(m)) && (k in OutdatedKeys(r) <==> k in OutdatedKeys(m))
      ensures k in NonExistingKeys(m) + OutdatedKeys(m) ==> k in r && r[k] == m[k] && !m[k].upToDate
    {
      PhaseKeeps(m, steps, MissingKeys(m), k);
    }
  }

  lemma AfterActivation(profile: string, specs: seq<RuleSpec>, m: RuleAssociations, steps: seq<RuleStep>)
    requires Keyed(m, specs) && Calls(profile, specs, m, steps) && Enumerates(Rules(steps), NonExistingKeys(m))
    ensures var r := EntriesAfter(m, steps);
            && Keyed(r, specs) && OutdatedKeys(r) == OutdatedKeys(m)
            && (forall k <- OutdatedKeys(m) :: k in r && r[k] == m[k])
  {
    var r := EntriesAfter(m, steps);
    EntriesStayKeyed(profile, specs, m, steps);
    forall k
      ensures k in OutdatedKeys(r) <==> k in OutdatedKeys(m)
      ensures k in OutdatedKeys(m) ==> k in r && r[k] == m[k]
    {
      PhaseKeeps(m, steps, NonExistingKeys(m), k);
    }
  }

  /** Calls never add an entry, and never change the two sides of one. */
  lemma {:induction false} EntriesShrink(m: RuleAssociations, steps: seq<RuleStep>)
    ensures forall k <- EntriesAfter(m, steps) :: k in m && EntriesAfter(m, steps)[k] in {m[k], m[k].(upToDate := true)}
  {
    if steps != [] {
      EntriesShrink(m, Init(steps));
    }
  }

  /** The association map, the server's active rules and the call log at one moment of a sync. */
  datatype Moment = Moment(entries: RuleAssociations, active: map<string, Active>, log: seq<ProfileCall>)

  ghost predicate PhaseBetween(profile: string, specs: seq<RuleSpec>, x: Moment, keys: set<string>,
                               steps: seq<RuleStep>, y: Moment)
  {
    Phase(profile, specs, x.entries, x.active, x.log, keys, steps, y.entries, y.active, y.log)
  }

  /** The three phases together make exactly one call for each entry that was not up to date. */
  lemma SyncIsOneTrace(profile: string, specs: seq<RuleSpec>, x: Moment, first: seq<RuleStep>, y: Moment,
                       second: seq<RuleStep>, z: Moment, third: seq<RuleStep>, end: Moment)
    requires Generated(x.entries, specs)
    requires PhaseBetween(profile, specs, x, MissingKeys(x.entries), first, y)
    requires PhaseBetween(profile, specs, y, NonExistingKeys(y.entries), second, z)
    requires PhaseBetween(profile, specs, z, OutdatedKeys(z.entries), third, end)
    ensures PhaseBetween(profile, specs, x, NotUpToDate(x.entries), first + second + third, end)
    ensures Errors(first + second + third) == Errors(first) + Errors(second) + Errors(third)
  {
    var m := x.entries;
    AfterDeactivation(profile, specs, m, first);
    AfterActivation(profile, specs, y.entries, second);
    RepairsPartition(m, specs);
    PhasesCompose(profile, specs, x, MissingKeys(m), first, y, NonExistingKeys(m), second, z);
    PhasesCompose(profile, specs, x, MissingKeys(m) + NonExistingKeys(m), first + second, z, OutdatedKeys(m), third,
                  end);
  }

  /** A phase about other entries than the one before it continues it. */
  lemma PhasesCompose(profile: string, specs: seq<RuleSpec>, x: Moment, a: set<string>, first: seq<RuleStep>, y: Moment,
                      b: set<string>, second: seq<RuleStep>, z: Moment)
    requires PhaseBetween(profile, specs, x, a, first, y) && PhaseBetween(profile, specs, y, b, second, z)
    requires a !! b && forall k <- b :: k in x.entries && k in y.entries && y.entries[k] == x.entries[k]
    ensures PhaseBetween(profile, specs, x, a + b, first + second, z)
    ensures Errors(first + second) == Errors(first) + Errors(second)
  {
    CallsOnOriginal(profile, specs, x.entries, y.entries, second);
    AllCalls(profile, specs, x.entries, first, second);
    RulesConcat(first, second);
    EnumeratesConcat(Rules(first), a, Rules(second), b);
    EffectsCompose(x, first, y, second, z);
    ErrorsConcat(first, second);
  }

  lemma EffectsCompose(x: Moment, first: seq<RuleStep>, y: Moment, second: seq<RuleStep>, z: Moment)
    requires Effect(x, first, y) && Effect(y, second, z)
    ensures Effect(x, first + second, z)
  {
    ActiveConcat(x.active, first, second);
    EntriesConcat(x.entries, first, second);
    RulesConcat(first, second);
    assert (x.log + RuleCalls(first)) + RuleCalls(second) == x.log + (RuleCalls(first) + RuleCalls(second));
  }

  /** What the calls do to the map, the server and the log. */
  ghost predicate Effect(x: Moment, steps: seq<RuleStep>, y: Moment) {
    y == Moment(EntriesAfter(x.entries, steps), ActiveAfter(x.active, steps), x.log + RuleCalls(steps))
  }

  lemma AllCalls(profile: string, specs: seq<RuleSpec>, m: RuleAssociations, first: seq<RuleStep>,
                 second: seq<RuleStep>)
    requires Calls(profile, specs, m, first) && Calls(profile, specs, m, second)
    ensures Calls(profile, specs, m, first + second)
  {
  }

  lemma RulesConcat(first: seq<RuleStep>, second: seq<RuleStep>)
    ensures Rules(first + second) == Rules(first) + Rules(second)
    ensures RuleCalls(first + second) == RuleCalls(first) + RuleCalls(second)
  {
  }

  lemma CallsOnOriginal(profile: string, specs: seq<RuleSpec>, m: RuleAssociations, r: RuleAssociations,
                        steps: seq<RuleStep>)
    requires Calls(profile, specs, r, steps) && forall k <- Rules(steps) :: k in m && k in r && r[k] == m[k]
    ensures Calls(profile, specs, m, steps)
  {
    forall s <- steps ensures CallFor(profile, specs, m, s) {
      RuleOfStep(steps, s);
    }
  }

  lemma DeactivationDone(profile: string, specs: seq<RuleSpec>, x: Moment, steps: seq<RuleStep>, y: Moment)
    requires Generated(x.entries, specs) && PhaseBetween(profile, specs, x, MissingKeys(x.entries), steps, y)
    ensures Keyed(y.entries, specs) && forall k <- NonExistingKeys(y.entries) :: !y.entries[k].upToDate
  {
    AfterDeactivation(profile, specs, x.entries, steps);
  }

  lemma ActivationDone(profile: string, specs: seq<RuleSpec>, x: Moment, steps: seq<RuleStep>, y: Moment)
    requires Keyed(x.entries, specs) && PhaseBetween(profile, specs, x, NonExistingKeys(x.entries), steps, y)
    ensures Keyed(y.entries, specs)
  {
    AfterActivation(profile, specs, x.entries, steps);
  }

  lemma RuleOfStep(steps: seq<RuleStep>, s: RuleStep)
    requires s in steps
    ensures s.rule in Rules(steps)
  {
    var n :| 0 <= n < |steps| && steps[n] == s;
    assert Rules(steps)[n] == s.rule;
  }

  lemma EnumeratesConcat(xs: seq<string>, a: set<string>, ys: seq<string>, b: set<string>)
    requires Enumerates(xs, a) && Enumerates(ys, b) && a !! b
    ensures Enumerates(xs + ys, a + b)
  {
    var all := xs + ys;
    forall i, j | 0 <= i < j < |all| ensures all[i] != all[j] {
      assert i < |xs| ==> all[i] in a;
      assert j >= |xs| ==> all[j] == ys[j - |xs|] && all[j] in b;
      assert i >= |xs| ==> all[i] == ys[i - |xs|];
    }
  }
}
