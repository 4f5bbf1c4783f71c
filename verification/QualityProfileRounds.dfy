/**
 * Repeated reconciles of the rules of a profile, with failing calls anywhere: what stays out of date
 * after any number of them, and exactly which rules are certain to be repaired.
 */
module QualityProfileRounds {
  import opened Basics
  import opened Pairing
  import opened QualityProfileRules
  import opened QualityProfileModel
  import opened QualityProfileTrace
  import opened QualityProfileTheory
  import opened QualityProfileConvergence

  /** A profile's rules as an Observe leaves them: the late-initialised specs, the observations, the server. */
  datatype Scene = Scene(specs: seq<RuleSpec>, obs: seq<RuleObservation>, active: map<string, Active>)

  /** The rule calls of one Update, and the observations the next Observe makes. */
  datatype Cycle = Cycle(steps: seq<RuleStep>, obs: seq<RuleObservation>)

  function MapFor(x: Scene): RuleAssociations {
    AssociateRules(x.specs, x.obs)
  }

  ghost predicate Observed(x: Scene) {
    Reports(x.obs, x.active) && LateInitRules(x.specs, MapFor(x)) == x.specs
  }

  /** One call for each entry that is not up to date, in some order and whichever fail, and a new Observe. */
  ghost predicate IsCycle(profile: string, x: Scene, c: Cycle) {
    && Calls(profile, x.specs, MapFor(x), c.steps) && Enumerates(Rules(c.steps), NotUpToDate(MapFor(x)))
    && Reports(c.obs, ActiveAfter(x.active, c.steps))
  }

  function Next(x: Scene, c: Cycle): Scene {
    Scene(LateInitRules(x.specs, AssociateRules(x.specs, c.obs)), c.obs, ActiveAfter(x.active, c.steps))
  }

  ghost predicate Cycles(profile: string, x: Scene, cycles: seq<Cycle>)
    decreases cycles
  {
    cycles == [] || (IsCycle(profile, x, cycles[0]) && Cycles(profile, Next(x, cycles[0]), cycles[1..]))
  }

  function End(x: Scene, cycles: seq<Cycle>): Scene
    decreases cycles
  {
    if cycles == [] then x else End(Next(x, cycles[0]), cycles[1..])
  }

  predicate AllErrorFree(cycles: seq<Cycle>) {
    forall c <- cycles :: Errors(c.steps) == 0
  }

  /** The rules that are not as declared. */
  function Stale(x: Scene): set<string> {
    NotUpToDate(MapFor(x))
  }

  /** Declared rules still to be written whose spec declares something that is not sent. */
  function Undeclarable(specs: seq<RuleSpec>, m: RuleAssociations): set<string> {
    set k <- m | WritesSpec(specs, m, k) && !Declarable(specs[m[k].spec.value])
  }

  function Stuck(x: Scene): set<string> {
    Undeclarable(x.specs, MapFor(x))
  }

  lemma NothingStale(x: Scene)
    ensures AllUpToDate(MapFor(x)) <==> Stale(x) == {}
  {
    AssociateRulesIsGenerated(x.specs, x.obs);
    RepairsPartition(MapFor(x), x.specs);
  }

  lemma {:induction false} CyclesSnoc(profile: string, x: Scene, cycles: seq<Cycle>, c: Cycle)
    requires Cycles(profile, x, cycles) && IsCycle(profile, End(x, cycles), c)
    ensures Cycles(profile, x, cycles + [c]) && End(x, cycles + [c]) == Next(End(x, cycles), c)
    decreases cycles
  {
    if cycles == [] {
      assert ([c] + [])[1..] == [];
    } else {
      assert (cycles + [c])[1..] == cycles[1..] + [c];
      CyclesSnoc(profile, Next(x, cycles[0]), cycles[1..], c);
    }
  }

  lemma {:induction false} CyclesPrefix(profile: string, x: Scene, cycles: seq<Cycle>)
    requires Cycles(profile, x, cycles) && cycles != []
    ensures Cycles(profile, x, Init(cycles)) && IsCycle(profile, End(x, Init(cycles)), Last(cycles))
    ensures End(x, cycles) == Next(End(x, Init(cycles)), Last(cycles))
    decreases cycles
  {
    if |cycles| > 1 {
      CyclesPrefix(profile, Next(x, cycles[0]), cycles[1..]);
      assert Init(cycles)[1..] == Init(cycles[1..]) && Init(cycles)[0] == cycles[0];
    } else {
      assert Init(cycles) == [] && cycles[1..] == [];
    }
  }

  // ---------- one round ----------

  function Before(x: Scene): Moment {
    Moment(MapFor(x), x.active, [])
  }

  function After(x: Scene, c: Cycle): Moment {
    Moment(EntriesAfter(MapFor(x), c.steps), ActiveAfter(x.active, c.steps), [] + RuleCalls(c.steps))
  }

  lemma CycleIsSync(profile: string, x: Scene, c: Cycle)
    requires Observed(x) && IsCycle(profile, x, c)
    ensures Sync(profile, x.specs, Before(x), c.steps, After(x, c))
    ensures MapFor(Next(x, c)) == AssociateRules(x.specs, c.obs)
  {
    AssociateRulesIsGenerated(x.specs, x.obs);
    FlagsSurviveLateInit(x.specs, c.obs);
  }

  lemma LateInitSettles(specs: seq<RuleSpec>, obs: seq<RuleObservation>)
    ensures var late := LateInitRules(specs, AssociateRules(specs, obs));
            LateInitRules(late, AssociateRules(late, obs)) == late
  {
    var m := AssociateRules(specs, obs);
    var late := LateInitRules(specs, m);
    FlagsSurviveLateInit(specs, obs);
    forall i | 0 <= i < |specs| ensures LateInitSpec(late, i, m) == late[i] {
      var k := specs[i].rule;
      if k in m && m[k].spec == Some(i) && m[k].observation.Some? {
        LateInitKeepsVerdict(specs[i], m[k].observation.value);
      }
    }
  }

  lemma NextObserved(profile: string, x: Scene, c: Cycle)
    requires Observed(x) && IsCycle(profile, x, c)
    ensures Observed(Next(x, c))
  {
    LateInitSettles(x.specs, c.obs);
  }

  /** What is out of date after a round failed in it, or declares something that is not sent. */
  lemma StaleNext(profile: string, x: Scene, c: Cycle)
    requires Observed(x) && IsCycle(profile, x, c)
    ensures Stale(Next(x, c)) <= Stuck(x) + FailedRules(c.steps)
  {
    CycleIsSync(profile, x, c);
    var m := MapFor(x);
    forall k <- Stale(Next(x, c)) ensures k in Stuck(x) + FailedRules(c.steps) {
      if k !in Rules(c.steps) {
        OtherEntry(profile, x.specs, x.obs, Before(x), c.steps, After(x, c), c.obs, k);
      } else {
        var n :| 0 <= n < |c.steps| && Rules(c.steps)[n] == k;
        NextEntry(profile, x.specs, x.obs, Before(x), c.steps, After(x, c), c.obs, n);
        assert c.steps[n] in c.steps && CallFor(profile, x.specs, m, c.steps[n]);
        if c.steps[n].call.ok {
          ActivationRoundTripExactly(profile, x.specs[m[k].spec.value]);
        }
      }
    }
  }

  lemma LateInitAgain(s: RuleSpec, o: RuleObservation, o': RuleObservation, a: Active)
    requires Shows(o, a) && Shows(o', a) && LateInitRule(s, o) == s
    ensures LateInitRule(s, o') == s
  {
    ImpactMapEmpty(o.impacts);
    ImpactMapEmpty(o'.impacts);
  }

  /** The spec of an entry after a round: late-initialised by what is observed then. */
  lemma SpecNext(profile: string, x: Scene, c: Cycle, k: string)
    requires Observed(x) && IsCycle(profile, x, c) && k in MapFor(Next(x, c)) && MapFor(Next(x, c))[k].spec.Some?
    ensures var m, m' := MapFor(x), MapFor(Next(x, c));
            && k in m && m[k].spec == m'[k].spec && m'[k].spec.value < |x.specs|
            && var s, after := x.specs[m[k].spec.value], Next(x, c).specs[m[k].spec.value];
               && (m'[k].observation.None? ==> after == s)
               && (m'[k].observation.Some? ==> after == LateInitRule(s, m'[k].observation.value))
  {
    CycleIsSync(profile, x, c);
    RuleEntries(x.specs, |x.specs|, x.obs, k);
    RuleEntries(x.specs, |x.specs|, c.obs, k);
  }

  /** Late initialisation never makes a spec declarable. */
  lemma StuckStays(profile: string, x: Scene, c: Cycle, k: string)
    requires Observed(x) && IsCycle(profile, x, c) && k in Stuck(x) && k in Stale(Next(x, c))
    ensures k in Stuck(Next(x, c))
  {
    CycleIsSync(profile, x, c);
    RuleEntries(x.specs, |x.specs|, x.obs, k);
    RuleEntries(x.specs, |x.specs|, c.obs, k);
    SpecNext(profile, x, c, k);
  }

  /** A round gets no rule stuck. */
  lemma NoneGetsStuck(profile: string, x: Scene, c: Cycle)
    requires Observed(x) && IsCycle(profile, x, c)
    ensures Stuck(Next(x, c)) <= Stuck(x)
  {
    StaleNext(profile, x, c);
    forall k <- Stuck(Next(x, c)) ensures k in Stuck(x) {
      assert k in Stale(Next(x, c));
      if k in FailedRules(c.steps) {
        FailedKeepsSpec(profile, x, c, k);
      }
    }
  }

  lemma FailedKeepsSpec(profile: string, x: Scene, c: Cycle, k: string)
    requires Observed(x) && IsCycle(profile, x, c) && k in FailedRules(c.steps) && k in Stuck(Next(x, c))
    ensures k in Stuck(x)
  {
    var s :| s in c.steps && !s.call.ok && s.rule == k;
    var n :| 0 <= n < |c.steps| && c.steps[n] == s;
    var m, m' := MapFor(x), MapFor(Next(x, c));
    assert CallFor(profile, x.specs, m, s);
    CycleIsSync(profile, x, c);
    OneCallPerRule(x.active, m, c.steps, n);
    assert Get(ActiveAfter(x.active, c.steps), k) == Get(x.active, k);
    SpecNext(profile, x, c, k);
    ObservationShown(x.specs, x.obs, x.active, k);
    ObservationShown(x.specs, c.obs, Next(x, c).active, k);
    var w := m[k].spec.value;
    RuleEntries(x.specs, |x.specs|, x.obs, k);
    assert x.specs[w] == LateInitSpec(x.specs, w, m);
    if m'[k].observation.Some? {
      LateInitAgain(x.specs[w], m[k].observation.value, m'[k].observation.value, x.active[k]);
    }
  }

  lemma ObservationShown(specs: seq<RuleSpec>, obs: seq<RuleObservation>, active: map<string, Active>, k: string)
    requires Reports(obs, active) && k in AssociateRules(specs, obs)
    ensures var o := AssociateRules(specs, obs)[k].observation;
            (o.Some? <==> k in active) && (o.Some? ==> Shows(o.value, active[k]))
  {
    EntryVerdict(specs, obs, active, k);
    RuleEntries(specs, |specs|, obs, k);
    RuleObservationEntries(obs, k);
  }

  /** Once every rule is as declared, a round makes no call and leaves it so. */
  lemma UpToDateStays(profile: string, x: Scene, c: Cycle)
    requires Observed(x) && IsCycle(profile, x, c) && AllUpToDate(MapFor(x))
    ensures c.steps == [] && AllUpToDate(MapFor(Next(x, c)))
  {
    NothingStale(x);
    EnumerationSize(Rules(c.steps), Stale(x));
    StaleNext(profile, x, c);
    NothingStale(Next(x, c));
  }

  // ---------- any number of rounds ----------

  /**
   * With failures anywhere: what is out of date after some rounds was stuck at the start, or failed in
   * the last of them. A declarable rule is repaired by the first round that does not fail on it.
   */
  lemma {:induction false} StaleAfter(profile: string, x: Scene, cycles: seq<Cycle>)
    requires Observed(x) && Cycles(profile, x, cycles) && cycles != []
    ensures Observed(End(x, cycles)) && Stuck(End(x, cycles)) <= Stuck(x)
    ensures Stale(End(x, cycles)) <= Stuck(x) + FailedRules(Last(cycles).steps)
    decreases cycles
  {
    NextObserved(profile, x, cycles[0]);
    StaleNext(profile, x, cycles[0]);
    NoneGetsStuck(profile, x, cycles[0]);
    if |cycles| > 1 {
      StaleAfter(profile, Next(x, cycles[0]), cycles[1..]);
    } else {
      assert cycles[1..] == [];
    }
  }

  lemma NoFailedRules(steps: seq<RuleStep>)
    ensures Errors(steps) == 0 ==> FailedRules(steps) == {}
  {
    NoErrorsAllOk(steps);
  }

  /** A round without errors that leaves a stuck rule as it is. */
  lemma StuckRound(profile: string, x: Scene, k: string) returns (c: Cycle)
    requires Observed(x) && k in Stuck(x)
    ensures IsCycle(profile, x, c) && Errors(c.steps) == 0 && k in Stuck(Next(x, c))
  {
    var m, s := MapFor(x), x.specs[MapFor(x)[k].spec.value];
    var answer := BadAnswer(profile, s);
    AssociateRulesIsGenerated(x.specs, x.obs);
    var steps, y := SomeSync(profile, x.specs, Before(x), k, answer);
    var obs' := SomeReport(y.active);
    c := Cycle(steps, obs');
    var n :| 0 <= n < |steps| && steps[n] == StepFor(profile, x.specs, m, k, k, answer);
    CycleIsSync(profile, x, c);
    NextEntry(profile, x.specs, x.obs, Before(x), steps, After(x, c), obs', n);
    StuckStays(profile, x, c, k);
  }

  lemma {:induction false} StuckRounds(profile: string, x: Scene, k: string, n: nat) returns (cycles: seq<Cycle>)
    requires Observed(x) && k in Stuck(x)
    ensures Cycles(profile, x, cycles) && |cycles| == n && AllErrorFree(cycles) && k in Stale(End(x, cycles))
    decreases n
  {
    cycles := [];
    if n > 0 {
      var c := StuckRound(profile, x, k);
      NextObserved(profile, x, c);
      var rest := StuckRounds(profile, Next(x, c), k, n - 1);
      cycles := [c] + rest;
      assert cycles[1..] == rest;
    }
  }

  /** However the server fills in what it was not sent, `n` error-free rounds leave rule `k` as declared. */
  ghost predicate RepairedAfter(profile: string, x: Scene, n: nat, k: string) {
    forall cycles | Cycles(profile, x, cycles) && |cycles| == n && AllErrorFree(cycles) :: k !in Stale(End(x, cycles))
  }

  /** Rule by rule, exactly: any number of rounds is certain to repair what is not stuck, and nothing else. */
  lemma RepairedExactly(profile: string, x: Scene, n: nat, k: string)
    requires Observed(x) && n > 0
    ensures RepairedAfter(profile, x, n, k) <==> k !in Stuck(x)
  {
    if k in Stuck(x) {
      var cycles := StuckRounds(profile, x, k, n);
    } else {
      forall cycles | Cycles(profile, x, cycles) && |cycles| == n && AllErrorFree(cycles)
        ensures k !in Stale(End(x, cycles))
      {
        StaleAfter(profile, x, cycles);
        assert Last(cycles) in cycles;
        NoFailedRules(Last(cycles).steps);
      }
    }
  }

  /** However the server fills in what it was not sent, `n` error-free rounds leave every rule as declared. */
  ghost predicate UpToDateAfter(profile: string, x: Scene, n: nat) {
    forall cycles | Cycles(profile, x, cycles) && |cycles| == n && AllErrorFree(cycles) ::
      AllUpToDate(MapFor(End(x, cycles)))
  }

  /** The first round is certain to do if and only if any number of rounds is: when no rule is stuck. */
  lemma UpToDateAfterExactly(profile: string, x: Scene, n: nat)
    requires Observed(x) && n > 0
    ensures UpToDateAfter(profile, x, n) <==> Stuck(x) == {}
  {
    if k :| k in Stuck(x) {
      var cycles := StuckRounds(profile, x, k, n);
      assert k in Stale(End(x, cycles));
    } else {
      forall cycles | Cycles(profile, x, cycles) && |cycles| == n && AllErrorFree(cycles)
        ensures AllUpToDate(MapFor(End(x, cycles)))
      {
        StaleAfter(profile, x, cycles);
        assert Last(cycles) in cycles;
        NoFailedRules(Last(cycles).steps);
        NothingStale(End(x, cycles));
      }
    }
  }
}
