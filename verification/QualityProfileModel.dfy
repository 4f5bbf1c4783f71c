/**
 * Declared rules of a quality profile: comparison with observed rules, late initialisation, the
 * activation request, and the association map keyed by rule.
 */
module QualityProfileModel {
  import opened Basics
  import opened Pairing
  import opened QualityProfileRules

  /** A nil map and an empty map compare equal in the source; both are the empty map here. */
  type StringMap = map<string, string>

  datatype RuleSpec = RuleSpec(rule: string, severity: Option<string>, prioritized: Option<bool>,
                               impacts: Option<StringMap>, params: Option<StringMap>)

  datatype ProfileParameters =
    ProfileParameters(name: string, language: string, default: Option<bool>, rules: seq<RuleSpec>)

  datatype ProfileObservation =
    ProfileObservation(key: string, name: string, language: string, isDefault: bool, rules: seq<RuleObservation>)

  /** What the server stores for an active rule. */
  datatype Active = Active(severity: string, prioritized: bool, impacts: StringMap, params: StringMap)

  /** Empty fields are fields that are not sent. */
  datatype ActivateRequest = ActivateRequest(profile: string, rule: string, prioritized: bool,
                                             impacts: StringMap, severity: string, params: StringMap)

  type RuleAssociations = Paired<RuleObservation>

  predicate Accepts<T(==)>(declared: Option<T>, value: T) {
    declared.None? || declared.value == value
  }

  predicate IsRuleUpToDate(s: RuleSpec, o: RuleObservation) {
    && s.rule == o.key
    && Accepts(s.severity, o.severity)
    && Accepts(s.prioritized, o.prioritized)
    && Accepts(s.impacts, ImpactMap(o.impacts))
    && Accepts(s.params, o.params)
  }

  predicate WantsDefault(spec: ProfileParameters) {
    spec.default.Some? && spec.default.value
  }

  /** Impacts take precedence over severity; prioritized is always sent, and nil counts as false. */
  function RequestFor(profile: string, s: RuleSpec): ActivateRequest {
    var impacts := if s.impacts.Some? then s.impacts.value else map[];
    ActivateRequest(profile, s.rule,
                    s.prioritized.Some? && s.prioritized.value,
                    impacts,
                    if impacts == map[] && s.severity.Some? then s.severity.value else "",
                    if s.params.Some? then s.params.value else map[])
  }

  // ---------- late initialisation ----------

  function LateInitRule(s: RuleSpec, o: RuleObservation): RuleSpec {
    s.(severity := if s.severity.None? then Some(o.severity) else s.severity,
       prioritized := if s.prioritized.None? then Some(o.prioritized) else s.prioritized,
       impacts := if s.impacts.None? && o.impacts != [] then Some(ImpactMap(o.impacts)) else s.impacts)
  }

  /** Late initialisation writes through the pointers the map holds, so only a spec that won its entry changes. */
  function LateInitSpec(specs: seq<RuleSpec>, i: nat, m: RuleAssociations): RuleSpec
    requires i < |specs|
  {
    var k := specs[i].rule;
    if k in m && m[k].spec == Some(i) && m[k].observation.Some? then LateInitRule(specs[i], m[k].observation.value)
    else specs[i]
  }

  function LateInitRules(specs: seq<RuleSpec>, m: RuleAssociations): seq<RuleSpec> {
    seq(|specs|, i requires 0 <= i < |specs| => LateInitSpec(specs, i, m))
  }

  /** The verdict on a rule is the same before and after its late initialisation. */
  lemma LateInitKeepsVerdict(s: RuleSpec, o: RuleObservation)
    ensures IsRuleUpToDate(LateInitRule(s, o), o) <==> IsRuleUpToDate(s, o)
    ensures LateInitRule(LateInitRule(s, o), o) == LateInitRule(s, o)
  {
  }

  /**
   * Nil severity and prioritized become those observed; nil impacts become those observed if there are
   * any; what is declared, and the parameters, stay.
   */
  lemma LateInitFillsExactly(s: RuleSpec, o: RuleObservation)
    ensures var t := LateInitRule(s, o);
            && t.rule == s.rule && t.params == s.params
            && t.severity == Some(if s.severity.Some? then s.severity.value else o.severity)
            && t.prioritized == Some(if s.prioritized.Some? then s.prioritized.value else o.prioritized)
            && (s.impacts.Some? || o.impacts == [] ==> t.impacts == s.impacts)
            && (s.impacts.None? && o.impacts != [] ==> t.impacts == Some(ImpactMap(o.impacts)))
  {
  }

  // ---------- association map ----------

  function AssociateRuleObservations(obs: seq<RuleObservation>): RuleAssociations {
    if obs == [] then map[]
    else AssociateRuleObservations(Init(obs))[Last(obs).key := Association(Some(Last(obs)), None, false)]
  }

  function AssociateRule(m: RuleAssociations, specs: seq<RuleSpec>, i: nat): RuleAssociations
    requires i < |specs|
  {
    var k := specs[i].rule;
    var o := if k in m then m[k].observation else None;
    m[k := Association(o, Some(i), o.Some? && IsRuleUpToDate(specs[i], o.value))]
  }

  function AssociateRuleSpecs(m: RuleAssociations, specs: seq<RuleSpec>, n: nat): RuleAssociations
    requires n <= |specs|
  {
    if n == 0 then m else AssociateRule(AssociateRuleSpecs(m, specs, n - 1), specs, n - 1)
  }

  function AssociateRules(specs: seq<RuleSpec>, obs: seq<RuleObservation>): RuleAssociations {
    AssociateRuleSpecs(AssociateRuleObservations(obs), specs, |specs|)
  }

  predicate IsProfileUpToDate(spec: ProfileParameters, o: ProfileObservation, m: RuleAssociations) {
    && spec.name == o.name && spec.language == o.language
    && Accepts(spec.default, o.isDefault)
    && AllUpToDate(m)
  }

  function NotUpToDate(m: RuleAssociations): set<string> { set k <- m | !m[k].upToDate }

  /**
   * What every generated entry satisfies: it has a side, its sides carry its key, and it is up to date
   * only with both.
   */
  predicate GeneratedEntry(k: string, a: Association<RuleObservation>, specs: seq<RuleSpec>) {
    && (a.observation.Some? || a.spec.Some?)
    && (a.observation.Some? ==> a.observation.value.key == k)
    && (a.spec.Some? ==> a.spec.value < |specs| && specs[a.spec.value].rule == k)
    && (a.upToDate <==> a.spec.Some? && a.observation.Some? && IsRuleUpToDate(specs[a.spec.value], a.observation.value))
  }

  predicate Generated(m: RuleAssociations, specs: seq<RuleSpec>) {
    forall k <- m :: GeneratedEntry(k, m[k], specs)
  }

  function ObservedKeys(obs: seq<RuleObservation>): set<string> {
    set o <- obs :: o.key
  }

  /** The entry keeps the last observation with its key. */
  function LastObserved(obs: seq<RuleObservation>, k: string): Option<RuleObservation> {
    if obs == [] then None else if Last(obs).key == k then Some(Last(obs)) else LastObserved(Init(obs), k)
  }

  /** The entry points at the last spec with its key. */
  function LastDeclared(specs: seq<RuleSpec>, n: nat, k: string): Option<nat>
    requires n <= |specs|
  {
    if n == 0 then None else if specs[n - 1].rule == k then Some(n - 1) else LastDeclared(specs, n - 1, k)
  }

  lemma {:induction false} RuleObservationEntries(obs: seq<RuleObservation>, k: string)
    ensures var m := AssociateRuleObservations(obs);
            && (k in m <==> LastObserved(obs, k).Some?)
            && (k in m ==> m[k] == Association(LastObserved(obs, k), None, false) && LastObserved(obs, k).value.key == k
                           && LastObserved(obs, k).value in obs)
    ensures (exists o <- obs :: o.key == k) ==> LastObserved(obs, k).Some?
  {
    if obs != [] {
      RuleObservationEntries(Init(obs), k);
      assert obs == Init(obs) + [Last(obs)];
    }
  }

  /** Entry `k` in closed form, on every input, repeated rules and repeated observations included. */
  lemma {:induction false} RuleEntries(specs: seq<RuleSpec>, n: nat, obs: seq<RuleObservation>, k: string)
    requires n <= |specs|
    ensures var m := AssociateRuleSpecs(AssociateRuleObservations(obs), specs, n);
            var w, o := LastDeclared(specs, n, k), LastObserved(obs, k);
            && (k in m <==> o.Some? || w.Some?)
            && (w.Some? ==> w.value < n && specs[w.value].rule == k)
            && (k in m ==> m[k] == Association(o, w, w.Some? && o.Some? && IsRuleUpToDate(specs[w.value], o.value)))
  {
    if n == 0 {
      RuleObservationEntries(obs, k);
    } else {
      RuleEntries(specs, n - 1, obs, k);
      RuleEntries(specs, n - 1, obs, specs[n - 1].rule);
      RuleObservationEntries(obs, k);
    }
  }

  lemma AssociateRulesIsGenerated(specs: seq<RuleSpec>, obs: seq<RuleObservation>)
    ensures Generated(AssociateRules(specs, obs), specs)
  {
    var m := AssociateRules(specs, obs);
    forall k <- m ensures GeneratedEntry(k, m[k], specs) {
      RuleEntries(specs, |specs|, obs, k);
      RuleObservationEntries(obs, k);
    }
  }

  /**
   * Observe reads its verdict off a map built before late initialisation. Rebuilding the map from the
   * late-initialised specs gives the same map, so the verdict is the one Update will act on.
   */
  lemma FlagsSurviveLateInit(specs: seq<RuleSpec>, obs: seq<RuleObservation>)
    ensures var m := AssociateRules(specs, obs); AssociateRules(LateInitRules(specs, m), obs) == m
  {
    var m := AssociateRules(specs, obs);
    var late := LateInitRules(specs, m);
    var m' := AssociateRules(late, obs);
    forall k ensures (k in m <==> k in m') && (k in m ==> m'[k] == m[k]) {
      RuleEntries(specs, |specs|, obs, k);
      RuleEntries(late, |specs|, obs, k);
      SameRulesSameWinner(specs, late, |specs|, k);
      if k in m && m[k].spec.Some? && m[k].observation.Some? {
        LateInitKeepsVerdict(specs[m[k].spec.value], m[k].observation.value);
      }
    }
  }

  lemma {:induction false} SameRulesSameWinner(a: seq<RuleSpec>, b: seq<RuleSpec>, n: nat, k: string)
    requires |a| == |b| && n <= |a| && forall i | 0 <= i < |a| :: a[i].rule == b[i].rule
    ensures LastDeclared(a, n, k) == LastDeclared(b, n, k)
  {
    if n != 0 {
      SameRulesSameWinner(a, b, n - 1, k);
    }
  }

  /** On a generated map the three kinds of repair are disjoint and together are what is not up to date. */
  lemma RepairsPartition(m: RuleAssociations, specs: seq<RuleSpec>)
    requires Generated(m, specs)
    ensures MissingKeys(m) !! NonExistingKeys(m) !! OutdatedKeys(m)
    ensures NotUpToDate(m) == MissingKeys(m) + NonExistingKeys(m) + OutdatedKeys(m)
    ensures |NotUpToDate(m)| == |MissingKeys(m)| + |NonExistingKeys(m)| + |OutdatedKeys(m)|
    ensures AllUpToDate(m) <==> NotUpToDate(m) == {}
  {
    forall k <- m ensures GeneratedEntry(k, m[k], specs) {}
    assert |MissingKeys(m) + NonExistingKeys(m)| == |MissingKeys(m)| + |NonExistingKeys(m)|;
    if !AllUpToDate(m) {
      var k :| k in m && !m[k].upToDate;
      assert k in NotUpToDate(m);
    }
  }

  // ---------- what late initialisation reports ----------

  lemma {:induction false} LastDeclaredBound(specs: seq<RuleSpec>, n: nat, k: string)
    requires n <= |specs|
    ensures var w := LastDeclared(specs, n, k); w.Some? ==> w.value < n && specs[w.value].rule == k
  {
    if n != 0 {
      LastDeclaredBound(specs, n - 1, k);
    }
  }

  predicate RuleReported(original: seq<RuleSpec>, s: RuleSpec) {
    var w := LastDeclared(original, |original|, s.rule);
    w.None? || w.value >= |original| || original[w.value].severity != s.severity
      || original[w.value].prioritized != s.prioritized
  }

  predicate RulesReported(original: seq<RuleSpec>, updated: seq<RuleSpec>) {
    |original| != |updated| || exists i | 0 <= i < |updated| :: RuleReported(original, updated[i])
  }

  ghost predicate DistinctRules(specs: seq<RuleSpec>) {
    forall i, j :: 0 <= i < j < |specs| ==> specs[i].rule != specs[j].rule
  }

  lemma {:induction false} DistinctRulesWin(specs: seq<RuleSpec>, n: nat, i: nat)
    requires DistinctRules(specs) && i < n <= |specs|
    ensures LastDeclared(specs, n, specs[i].rule) == Some(i)
  {
    if i < n - 1 {
      DistinctRulesWin(specs, n - 1, i);
    }
  }

  /**
   * With distinct rules, late initialisation is reported exactly when a severity or a prioritized
   * flag was filled in: impacts alone go unreported.
   */
  lemma ReportedExactly(specs: seq<RuleSpec>, obs: seq<RuleObservation>)
    requires DistinctRules(specs)
    ensures RulesReported(specs, LateInitRules(specs, AssociateRules(specs, obs))) <==>
            exists s <- specs :: LastObserved(obs, s.rule).Some? && (s.severity.None? || s.prioritized.None?)
  {
    var m := AssociateRules(specs, obs);
    var late := LateInitRules(specs, m);
    forall i: nat | i < |specs|
      ensures RuleReported(specs, late[i]) <==>
                LastObserved(obs, specs[i].rule).Some? && (specs[i].severity.None? || specs[i].prioritized.None?)
      ensures specs[i] in specs
    {
      DistinctRulesWin(specs, |specs|, i);
      RuleEntries(specs, |specs|, obs, specs[i].rule);
    }
  }
}
