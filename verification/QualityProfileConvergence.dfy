/**
 * Observe, Update, Observe for profile rules: what the second Observe finds after any sync, and
 * exactly when it is certain to find every rule up to date.
 */
module QualityProfileConvergence {
  import opened Basics
  import opened Pairing
  import opened QualityProfileRules
  import opened QualityProfileModel
  import opened QualityProfileTrace
  import opened QualityProfileTheory

  /** The verdict on one rule, in terms of what the server stores. */
  lemma EntryVerdict(specs: seq<RuleSpec>, obs: seq<RuleObservation>, active: map<string, Active>, k: string)
    requires Reports(obs, active)
    ensures var m, w := AssociateRules(specs, obs), LastDeclared(specs, |specs|, k);
            && (k in m <==> k in active || w.Some?)
            && (k in m ==>
                  && m[k].spec == w && (m[k].observation.Some? <==> k in active)
                  && (w.Some? ==> w.value < |specs|)
                  && (m[k].upToDate <==> w.Some? && k in active && Agrees(specs[w.value], active[k])))
  {
    RuleEntries(specs, |specs|, obs, k);
    RuleObservationEntries(obs, k);
    if LastObserved(obs, k).Some? {
      assert k in ObservedKeys(obs);
    }
  }

  /** The one call made for `k` failed, or wrote something the spec does not accept. */
  ghost predicate LeftOutOfDate(specs: seq<RuleSpec>, m: RuleAssociations, s: RuleStep) {
    !s.call.ok || (s.call.ActivateCall? && s.rule in m && m[s.rule].spec.Some? && m[s.rule].spec.value < |specs| &&
                   !Agrees(specs[m[s.rule].spec.value], s.stored))
  }

  lemma NextEntry(profile: string, specs: seq<RuleSpec>, obs: seq<RuleObservation>, x: Moment, steps: seq<RuleStep>,
                  y: Moment, obs': seq<RuleObservation>, n: nat)
    requires x.entries == AssociateRules(specs, obs) && Reports(obs, x.active) && Sync(profile, specs, x, steps, y)
             && Reports(obs', y.active)
    requires n < |steps|
    ensures var m', k := AssociateRules(specs, obs'), steps[n].rule;
            (k in m' && !m'[k].upToDate) <==> LeftOutOfDate(specs, x.entries, steps[n])
  {
    var k := steps[n].rule;
    EntryVerdict(specs, obs, x.active, k);
    EntryVerdict(specs, obs', y.active, k);
    OneCallPerRule(x.active, x.entries, steps, n);
    assert CallFor(profile, specs, x.entries, steps[n]);
    assert Get(y.active, k) == ActiveAt(steps[n], Get(x.active, k));
  }

  lemma OtherEntry(profile: string, specs: seq<RuleSpec>, obs: seq<RuleObservation>, x: Moment, steps: seq<RuleStep>,
                   y: Moment, obs': seq<RuleObservation>, k: string)
    requires x.entries == AssociateRules(specs, obs) && Reports(obs, x.active) && Sync(profile, specs, x, steps, y)
             && Reports(obs', y.active)
    requires k !in Rules(steps)
    ensures k in AssociateRules(specs, obs') ==> AssociateRules(specs, obs')[k].upToDate
  {
    EntryVerdict(specs, obs, x.active, k);
    EntryVerdict(specs, obs', y.active, k);
    Untouched(x.active, x.entries, steps, k);
    assert Get(y.active, k) == Get(x.active, k);
  }

  /** After any sync, the next Observe is satisfied exactly when no call failed and every answer satisfied its spec. */
  lemma NextVerdictExactly(profile: string, specs: seq<RuleSpec>, obs: seq<RuleObservation>, x: Moment,
                           steps: seq<RuleStep>, y: Moment, obs': seq<RuleObservation>)
    requires x.entries == AssociateRules(specs, obs) && Reports(obs, x.active) && Sync(profile, specs, x, steps, y)
             && Reports(obs', y.active)
    ensures AllUpToDate(AssociateRules(specs, obs')) <==> forall s <- steps :: !LeftOutOfDate(specs, x.entries, s)
  {
    var m' := AssociateRules(specs, obs');
    if s :| s in steps && LeftOutOfDate(specs, x.entries, s) {
      var n :| 0 <= n < |steps| && steps[n] == s;
      NextEntry(profile, specs, obs, x, steps, y, obs', n);
      assert !m'[steps[n].rule].upToDate;
    } else {
      forall k <- m' ensures m'[k].upToDate {
        if k in Rules(steps) {
          var n :| 0 <= n < |steps| && Rules(steps)[n] == k;
          NextEntry(profile, specs, obs, x, steps, y, obs', n);
          assert steps[n] in steps;
        } else {
          OtherEntry(profile, specs, obs, x, steps, y, obs', k);
        }
      }
    }
  }

  // ---------- exactly when it converges ----------

  /** However a server fills in what it was not sent, an error-free sync satisfies the next Observe. */
  ghost predicate AlwaysConverges(profile: string, specs: seq<RuleSpec>, obs: seq<RuleObservation>, x: Moment) {
    forall steps, y, obs' | Sync(profile, specs, x, steps, y) && Errors(steps) == 0 && Reports(obs', y.active) ::
      AllUpToDate(AssociateRules(specs, obs'))
  }

  lemma {:induction false} NoErrorsAllOk(steps: seq<RuleStep>)
    ensures Errors(steps) == 0 <==> forall s <- steps :: s.call.ok
  {
    if steps != [] {
      NoErrorsAllOk(Init(steps));
      assert steps == Init(steps) + [Last(steps)];
    }
  }

  function StepFor(profile: string, specs: seq<RuleSpec>, m: RuleAssociations, k: string, bad: string,
                   answer: Active): RuleStep
    requires k in m && (m[k].spec.Some? ==> m[k].spec.value < |specs|)
  {
    if m[k].spec.None? then RuleStep(k, DeactivateCall(profile, k, true), NO_RULE)
    else
      var q := RequestFor(profile, specs[m[k].spec.value]);
      RuleStep(k, ActivateCall(q, true), if k == bad then answer else Kept(q, NO_RULE))
  }

  lemma {:induction false} SomeOrder(keys: set<string>) returns (order: seq<string>)
    ensures Enumerates(order, keys)
  {
    order := [];
    if keys != {} {
      var k :| k in keys;
      order := SomeOrder(keys - {k});
      order := order + [k];
    }
  }

  lemma {:induction false} SomeImpacts(m: map<string, string>) returns (impacts: seq<Impact>)
    ensures ImpactMap(impacts) == m
  {
    impacts := [];
    if m != map[] {
      var k :| k in m;
      assert (m - {k}).Keys == m.Keys - {k};
      impacts := SomeImpacts(m - {k});
      SnocParts(impacts, Impact(k, m[k]));
      impacts := impacts + [Impact(k, m[k])];
    }
  }

  lemma {:induction false} SomeReport(active: map<string, Active>) returns (obs: seq<RuleObservation>)
    ensures Reports(obs, active)
  {
    obs := [];
    if active != map[] {
      var k :| k in active;
      assert (active - {k}).Keys == active.Keys - {k};
      var rest := SomeReport(active - {k});
      var impacts := SomeImpacts(active[k].impacts);
      var o := RuleObservation(k, active[k].severity, active[k].prioritized, impacts, active[k].params);
      obs := rest + [o];
      assert o in obs && ObservedKeys(obs) == ObservedKeys(rest) + {k};
    }
  }

  lemma StepForIsCall(profile: string, specs: seq<RuleSpec>, m: RuleAssociations, k: string, bad: string,
                      answer: Active)
    requires Generated(m, specs) && k in NotUpToDate(m)
    requires k == bad && m[k].spec.Some? ==> Completes(RequestFor(profile, specs[m[k].spec.value]), answer)
    ensures CallFor(profile, specs, m, StepFor(profile, specs, m, k, bad, answer))
  {
  }

  /** An error-free sync in which the server answers one rule as it pleases. */
  lemma SomeSync(profile: string, specs: seq<RuleSpec>, x: Moment, bad: string, answer: Active)
    returns (steps: seq<RuleStep>, y: Moment)
    requires Generated(x.entries, specs) && bad in NotUpToDate(x.entries) && x.entries[bad].spec.Some?
    requires Completes(RequestFor(profile, specs[x.entries[bad].spec.value]), answer)
    ensures Sync(profile, specs, x, steps, y) && Errors(steps) == 0
    ensures StepFor(profile, specs, x.entries, bad, bad, answer) in steps
  {
    var m := x.entries;
    var order := SomeOrder(NotUpToDate(m));
    forall n | 0 <= n < |order|
      ensures order[n] in m && CallFor(profile, specs, m, StepFor(profile, specs, m, order[n], bad, answer))
    {
      assert order[n] in order;
      StepForIsCall(profile, specs, m, order[n], bad, answer);
    }
    steps := seq(|order|, n requires 0 <= n < |order| => StepFor(profile, specs, m, order[n], bad, answer));
    assert Rules(steps) == order;
    y := Moment(EntriesAfter(m, steps), ActiveAfter(x.active, steps), x.log + RuleCalls(steps));
    NoErrorsAllOk(steps);
    var n :| 0 <= n < |order| && order[n] == bad;
    assert steps[n] in steps;
  }

  /** The sync has to write the rule declared under `k`. */
  predicate WritesSpec(specs: seq<RuleSpec>, m: RuleAssociations, k: string)
    requires k in m
  {
    !m[k].upToDate && m[k].spec.Some? && m[k].spec.value < |specs|
  }

  /**
   * The rule sync converges for every server exactly when each declared rule it has to write sends
   * all it declares.
   */
  lemma ConvergesExactly(profile: string, specs: seq<RuleSpec>, obs: seq<RuleObservation>, x: Moment)
    requires x.entries == AssociateRules(specs, obs) && Reports(obs, x.active)
    ensures AlwaysConverges(profile, specs, obs, x) <==>
            forall k <- x.entries :: WritesSpec(specs, x.entries, k) ==> Declarable(specs[x.entries[k].spec.value])
  {
    var m := x.entries;
    AssociateRulesIsGenerated(specs, obs);
    if k :| k in m && WritesSpec(specs, m, k) && !Declarable(specs[m[k].spec.value]) {
      var answer := BadAnswer(profile, specs[m[k].spec.value]);
      var steps, y := SomeSync(profile, specs, x, k, answer);
      var obs' := SomeReport(y.active);
      NextVerdictExactly(profile, specs, obs, x, steps, y, obs');
      assert LeftOutOfDate(specs, m, StepFor(profile, specs, m, k, k, answer));
    } else {
      forall steps, y, obs' | Sync(profile, specs, x, steps, y) && Errors(steps) == 0 && Reports(obs', y.active)
        ensures AllUpToDate(AssociateRules(specs, obs'))
      {
        NoErrorsAllOk(steps);
        NextVerdictExactly(profile, specs, obs, x, steps, y, obs');
        forall s <- steps ensures !LeftOutOfDate(specs, m, s) {
          assert CallFor(profile, specs, m, s);
          if m[s.rule].spec.Some? {
            ActivationRoundTripExactly(profile, specs[m[s.rule].spec.value]);
          }
        }
      }
    }
  }
}
