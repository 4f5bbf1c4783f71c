/**
 * What the quality-profile reconciler guarantees: conservation of errors under any failures,
 * independence of iteration order, and exactly which declared rules a server can be brought to match.
 */
module QualityProfileTheory {
  import opened Basics
  import opened Pairing
  import opened QualityProfileRules
  import opened QualityProfileModel
  import opened QualityProfileTrace

  /** A finished sync of a generated map: one call per entry that was not up to date. */
  ghost predicate Sync(profile: string, specs: seq<RuleSpec>, x: Moment, steps: seq<RuleStep>, y: Moment) {
    Generated(x.entries, specs) && PhaseBetween(profile, specs, x, NotUpToDate(x.entries), steps, y)
  }

  // ---------- error conservation ----------

  function FailedRules(steps: seq<RuleStep>): set<string> {
    set s <- steps | !s.call.ok :: s.rule
  }

  lemma {:induction false} ErrorsCountFailedRules(steps: seq<RuleStep>)
    requires Distinct(Rules(steps))
    ensures Errors(steps) == |FailedRules(steps)| && forall k <- FailedRules(steps) :: k in Rules(steps)
  {
    if steps != [] {
      var before, last := Init(steps), Last(steps);
      assert steps == before + [last];
      DistinctSnoc(before, last);
      ErrorsCountFailedRules(before);
      FailedSnoc(before, last);
    }
  }

  lemma DistinctSnoc(steps: seq<RuleStep>, s: RuleStep)
    requires Distinct(Rules(steps + [s]))
    ensures Distinct(Rules(steps)) && s.rule !in Rules(steps) && Rules(steps + [s]) == Rules(steps) + [s.rule]
  {
    var all := Rules(steps + [s]);
    assert all == Rules(steps) + [s.rule];
    forall i | 0 <= i < |steps| ensures Rules(steps)[i] == all[i] != all[|steps|] {
    }
  }

  lemma FailedSnoc(steps: seq<RuleStep>, s: RuleStep)
    ensures FailedRules(steps + [s]) == FailedRules(steps) + if s.call.ok then {} else {s.rule}
  {
  }

  /**
   * Whatever fails: as many calls as entries that were not up to date, as many errors as entries that
   * still are not, and no error exactly when the final map passes the up-to-date check.
   */
  lemma ErrorConservation(profile: string, specs: seq<RuleSpec>, x: Moment, steps: seq<RuleStep>, y: Moment)
    requires Sync(profile, specs, x, steps, y)
    ensures |y.log| == |x.log| + |NotUpToDate(x.entries)|
    ensures NotUpToDate(y.entries) == FailedRules(steps) && |NotUpToDate(y.entries)| == Errors(steps)
    ensures AllUpToDate(y.entries) <==> Errors(steps) == 0
  {
    EnumerationSize(Rules(steps), NotUpToDate(x.entries));
    ErrorsCountFailedRules(steps);
    forall k ensures k in NotUpToDate(y.entries) <==> k in FailedRules(steps) {
      if k in Rules(steps) {
        var n :| 0 <= n < |steps| && Rules(steps)[n] == k;
        OneCallPerRule(x.active, x.entries, steps, n);
        assert CallFor(profile, specs, x.entries, steps[n])
               && Get(y.entries, k) == EntryAt(steps[n], Get(x.entries, k));
        OnlyFailureOfRule(steps, n);
      } else {
        Untouched(x.active, x.entries, steps, k);
        assert Get(y.entries, k) == Get(x.entries, k);
      }
    }
    if !AllUpToDate(y.entries) {
      var k :| k in y.entries && !y.entries[k].upToDate;
      assert k in NotUpToDate(y.entries);
    }
  }

  lemma OnlyFailureOfRule(steps: seq<RuleStep>, n: nat)
    requires Distinct(Rules(steps)) && n < |steps|
    ensures steps[n].rule in FailedRules(steps) <==> !steps[n].call.ok
  {
    if s :| s in steps && !s.call.ok && s.rule == steps[n].rule {
      var i :| 0 <= i < |steps| && steps[i] == s;
      assert Rules(steps)[i] == Rules(steps)[n];
    }
  }

  // ---------- order independence ----------

  /** The server answered both traces alike, rule by rule. */
  ghost predicate AnsweredAlike(a: seq<RuleStep>, b: seq<RuleStep>) {
    forall s, t | s in a && t in b && s.rule == t.rule :: s.call == t.call && s.stored == t.stored
  }

  /** In any two orders, against a server that answers alike, the server and the map end up exactly the same. */
  lemma OrderIndependence(profile: string, specs: seq<RuleSpec>, x: Moment, a: seq<RuleStep>, y: Moment,
                          b: seq<RuleStep>, z: Moment)
    requires Sync(profile, specs, x, a, y) && Sync(profile, specs, x, b, z) && AnsweredAlike(a, b)
    ensures y.active == z.active && y.entries == z.entries
    ensures Elements(RuleCalls(a)) == Elements(RuleCalls(b)) && |a| == |b|
  {
    forall k ensures Get(y.active, k) == Get(z.active, k) && Get(y.entries, k) == Get(z.entries, k) {
      if k in NotUpToDate(x.entries) {
        var i :| 0 <= i < |a| && Rules(a)[i] == k;
        var j :| 0 <= j < |b| && Rules(b)[j] == k;
        assert a[i] in a && b[j] in b;
        OneCallPerRule(x.active, x.entries, a, i);
        OneCallPerRule(x.active, x.entries, b, j);
      } else {
        Untouched(x.active, x.entries, a, k);
        Untouched(x.active, x.entries, b, k);
      }
    }
    SameMap(y.active, z.active);
    SameMap(y.entries, z.entries);
    EnumerationSize(Rules(a), NotUpToDate(x.entries));
    EnumerationSize(Rules(b), NotUpToDate(x.entries));
    CallsIncluded(a, b);
    CallsIncluded(b, a);
  }

  lemma CallsIncluded(a: seq<RuleStep>, b: seq<RuleStep>)
    requires AnsweredAlike(a, b) || AnsweredAlike(b, a)
    requires forall k <- Rules(a) :: k in Rules(b)
    ensures Elements(RuleCalls(a)) <= Elements(RuleCalls(b))
  {
    forall c <- RuleCalls(a) ensures c in RuleCalls(b) {
      var i :| 0 <= i < |a| && RuleCalls(a)[i] == c;
      assert Rules(a)[i] in Rules(a);
      var j :| 0 <= j < |b| && Rules(b)[j] == Rules(a)[i];
      assert a[i] in a && b[j] in b;
      assert RuleCalls(b)[j] == c;
    }
  }

  lemma SameMap<V>(a: map<string, V>, b: map<string, V>)
    requires forall k :: Get(a, k) == Get(b, k)
    ensures a == b
  {
    forall k ensures (k in a <==> k in b) && (k in a ==> a[k] == b[k]) {
      assert Get(a, k) == Get(b, k);
    }
  }

  // ---------- what a server reports ----------

  /** The observation shows what the server stores for its rule. */
  predicate Shows(o: RuleObservation, a: Active) {
    o.severity == a.severity && o.prioritized == a.prioritized && ImpactMap(o.impacts) == a.impacts
      && o.params == a.params
  }

  /** The observations report exactly the server's active rules. */
  predicate Reports(obs: seq<RuleObservation>, active: map<string, Active>) {
    ObservedKeys(obs) == active.Keys && forall o <- obs :: Shows(o, active[o.key])
  }

  /** The list carries the pairs of the map and no others, in any order. */
  ghost predicate ListsParams(params: seq<Param>, m: map<string, string>) {
    && (forall k :: k in m <==> exists p <- params :: p.key == k)
    && (forall p <- params :: p.key in m && m[p.key] == p.value)
  }

  ghost predicate ListsImpacts(impacts: seq<Impact>, m: map<string, string>) {
    && (forall k :: k in m <==> exists p <- impacts :: p.quality == k)
    && (forall p <- impacts :: p.quality in m && m[p.quality] == p.severity)
  }

  lemma {:induction false} ParamMapEntries(params: seq<Param>, m: map<string, string>)
    requires forall p <- params :: p.key in m && m[p.key] == p.value
    ensures forall k :: k in ParamMap(params) <==> exists p <- params :: p.key == k
    ensures forall k <- ParamMap(params) :: k in m && ParamMap(params)[k] == m[k]
  {
    if params != [] {
      assert params == Init(params) + [Last(params)];
      ParamMapEntries(Init(params), m);
    }
  }

  lemma {:induction false} ImpactMapEntries(impacts: seq<Impact>, m: map<string, string>)
    requires forall p <- impacts :: p.quality in m && m[p.quality] == p.severity
    ensures forall k :: k in ImpactMap(impacts) <==> exists p <- impacts :: p.quality == k
    ensures forall k <- ImpactMap(impacts) :: k in m && ImpactMap(impacts)[k] == m[k]
  {
    if impacts != [] {
      assert impacts == Init(impacts) + [Last(impacts)];
      ImpactMapEntries(Init(impacts), m);
    }
  }

  ghost predicate Carries(x: Activation, profile: string, a: Active) {
    && x.profile == profile && x.severity == a.severity && x.prioritized == a.prioritized
    && ListsImpacts(x.impacts, a.impacts) && ListsParams(x.params, a.params)
  }

  /** The search lists the profile's own activation of a rule, with other profiles' activations around it. */
  ghost predicate ListsActivation(profile: string, activations: seq<Activation>, a: Active) {
    exists n | 0 <= n < |activations| ::
      Carries(activations[n], profile, a) && forall i | 0 <= i < n :: activations[i].profile != profile
  }

  /** Listing active rules and reading the listing back loses nothing. */
  lemma ListingReports(profile: string, rules: seq<RuleDetails>, actives: Actives, active: map<string, Active>)
    requires forall k :: k in active <==> exists r <- rules :: r.key == k
    requires forall k <- active :: k in actives && ListsActivation(profile, actives[k], active[k])
    ensures Reports(ObserveRules(profile, rules, actives), active)
  {
    var obs := ObserveRules(profile, rules, actives);
    forall i | 0 <= i < |rules|
      ensures obs[i].key == rules[i].key && rules[i].key in active && Shows(obs[i], active[rules[i].key]) {
      assert rules[i] in rules && rules[i].key in active;
      ActivationReadBack(profile, actives[rules[i].key], active[rules[i].key]);
    }
    forall k <- active ensures k in ObservedKeys(obs) {
      var r :| r in rules && r.key == k;
      var i :| 0 <= i < |rules| && rules[i] == r;
      assert obs[i] in obs;
    }
  }

  lemma ActivationReadBack(profile: string, activations: seq<Activation>, a: Active)
    requires ListsActivation(profile, activations, a)
    ensures var own := OwnActivation(profile, activations);
            && own.Some? && own.value.severity == a.severity && own.value.prioritized == a.prioritized
            && ImpactMap(own.value.impacts) == a.impacts && ParamMap(own.value.params) == a.params
  {
    var n :| 0 <= n < |activations| && Carries(activations[n], profile, a)
      && (forall i | 0 <= i < n :: activations[i].profile != profile);
    OwnActivationIsFirst(profile, activations, n);
    ParamsReadBack(activations[n].params, a.params);
    ImpactsReadBack(activations[n].impacts, a.impacts);
  }

  lemma ParamsReadBack(params: seq<Param>, m: map<string, string>)
    requires ListsParams(params, m)
    ensures ParamMap(params) == m
  {
    ParamMapEntries(params, m);
  }

  lemma ImpactsReadBack(impacts: seq<Impact>, m: map<string, string>)
    requires ListsImpacts(impacts, m)
    ensures ImpactMap(impacts) == m
  {
    ImpactMapEntries(impacts, m);
  }

  // ---------- which declared rules can be matched ----------

  predicate Agrees(s: RuleSpec, a: Active) {
    Accepts(s.severity, a.severity) && Accepts(s.prioritized, a.prioritized) && Accepts(s.impacts, a.impacts)
      && Accepts(s.params, a.params)
  }

  /** No declared field is left unsent: no severity beside impacts, and no empty severity, impacts or parameters. */
  predicate Declarable(s: RuleSpec) {
    && (s.severity.Some? ==> s.severity.value != "" && s.impacts.None?)
    && s.impacts != Some(map[])
    && s.params != Some(map[])
  }

  /**
   * What a server may store for an activation, exactly: prioritized only if that is declared, the declared
   * impacts, the declared severity unless there are impacts, the declared parameters, and anything in a
   * field that is not declared or declared empty.
   */
  lemma AnswersExactly(profile: string, s: RuleSpec, a: Active)
    ensures Completes(RequestFor(profile, s), a) <==>
              && (a.prioritized <==> s.prioritized == Some(true))
              && (s.impacts.Some? && s.impacts.value != map[] ==> a.impacts == s.impacts.value)
              && (s.severity.Some? && s.severity.value != "" && (s.impacts.None? || s.impacts.value == map[]) ==>
                    a.severity == s.severity.value)
              && (s.params.Some? && s.params.value != map[] ==> a.params == s.params.value)
    ensures RequestFor(profile, s).profile == profile && RequestFor(profile, s).rule == s.rule
  {
  }

  /**
   * Activation round trip, exactly: every answer of the server satisfies the spec if and only if every
   * declared field is sent.
   */
  lemma ActivationRoundTripExactly(profile: string, s: RuleSpec)
    ensures Declarable(s) <==> forall a :: Completes(RequestFor(profile, s), a) ==> Agrees(s, a)
  {
    if !Declarable(s) {
      var a := BadAnswer(profile, s);
      assert Completes(RequestFor(profile, s), a) && !Agrees(s, a);
    } else {
      forall a | Completes(RequestFor(profile, s), a) ensures Agrees(s, a) {
      }
    }
  }

  /** For a spec with an unsent declared field, an answer that differs in that field. */
  lemma BadAnswer(profile: string, s: RuleSpec) returns (a: Active)
    requires !Declarable(s)
    ensures Completes(RequestFor(profile, s), a) && !Agrees(s, a)
  {
    var q := RequestFor(profile, s);
    var other: StringMap := map["MAINTAINABILITY" := "LOW"];
    a := Active(if q.severity != "" then q.severity else if s.severity.Some? then s.severity.value + "?" else "",
                q.prioritized,
                if q.impacts != map[] then q.impacts else other,
                if q.params != map[] then q.params else other);
    assert "MAINTAINABILITY" in other && other != map[];
    if s.severity.Some? {
      assert |s.severity.value + "?"| == |s.severity.value| + 1;
    }
  }

  /**
   * An existing rule is re-activated with its late-initialised spec. That spec can be matched for
   * certain exactly when neither side has impacts: observed impacts, once filled in, silence severity.
   */
  lemma RepairableExactly(s: RuleSpec, o: RuleObservation)
    ensures Declarable(LateInitRule(s, o)) <==>
            s.impacts.None? && o.impacts == [] && LateInitRule(s, o).severity != Some("") && s.params != Some(map[])
  {
  }

  /** A server that keeps the stored value of every field that is not sent. */
  function Kept(q: ActivateRequest, before: Active): Active {
    Active(if q.severity != "" then q.severity else before.severity, q.prioritized,
           if q.impacts != map[] then q.impacts else before.impacts,
           if q.params != map[] then q.params else before.params)
  }

  /**
   * Even then, severity drift of a rule that has impacts is never repaired, nor is a declared empty map
   * over a stored one.
   */
  lemma KeepingServerRepairsExactly(profile: string, s: RuleSpec, o: RuleObservation, before: Active)
    requires Shows(o, before)
    ensures var t := LateInitRule(s, o);
            Agrees(t, Kept(RequestFor(profile, t), before)) <==>
              && (s.severity.Some? && s.severity.value != before.severity ==>
                    s.severity.value != "" && (s.impacts == Some(map[]) || (s.impacts.None? && o.impacts == [])))
              && (s.impacts == Some(map[]) ==> before.impacts == map[])
              && (s.params == Some(map[]) ==> before.params == map[])
  {
    ImpactMapEmpty(o.impacts);
    var t := LateInitRule(s, o);
    var q := RequestFor(profile, t);
    assert q.impacts == map[] <==> s.impacts == Some(map[]) || (s.impacts.None? && o.impacts == []);
    assert q.params == map[] <==> s.params.None? || s.params == Some(map[]);
  }

  lemma {:induction false} ImpactMapEmpty(impacts: seq<Impact>)
    ensures ImpactMap(impacts) == map[] <==> impacts == []
  {
    if impacts != [] {
      assert Last(impacts).quality in ImpactMap(impacts);
    }
  }
}
