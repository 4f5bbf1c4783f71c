/** The quality-profile external client: Observe, Create, Update and the error-aggregating rule sync. */
module QualityProfileController {
  import opened Basics
  import opened Pairing
  import opened QualityProfileRules
  import opened QualityProfileModel
  import opened QualityProfileTrace
  import opened QualityProfileTheory
  import opened QualityProfileServer

  class QualityProfile {
    var externalName: string
    var spec: ProfileParameters
    var status: ProfileObservation

    constructor (spec: ProfileParameters)
      ensures this.spec == spec && externalName == ""
    {
      this.spec := spec;
      externalName := "";
      status := ProfileObservation("", "", "", false, []);
    }
  }

  function DefaultOr(declared: Option<bool>, observed: bool): Option<bool> {
    if declared.None? then Some(observed) else declared
  }

  /** The spec after late initialisation; the rules through the map built before it. */
  function LateInitialized(spec: ProfileParameters, o: ProfileObservation): ProfileParameters {
    spec.(default := DefaultOr(spec.default, o.isDefault),
          rules := LateInitRules(spec.rules, AssociateRules(spec.rules, o.rules)))
  }

  /** The status after a search that stopped at page `last`. */
  function ObservationOf(profile: string, shown: ProfileShown, respond: nat -> Response,
                         last: nat): ProfileObservation
  {
    ProfileObservation(profile, shown.name, shown.language, shown.isDefault,
                       ObserveRules(profile, RulesUpTo(respond, last), ActivesUpTo(respond, last)))
  }

  datatype ExternalObservation = ExternalObservation(resourceExists: bool, upToDate: bool, lateInitialized: bool)

  datatype UpdateError =
    | NoExternalName
    | CannotCreateProfile
    | CannotSetDefault
    | CannotRename
    | RulesFailed(count: nat)

  datatype RuleErrorKind = CannotDeactivate | CannotActivate | CannotUpdate

  datatype RuleError = RuleError(kind: RuleErrorKind, rule: string)

  // ---------- client helpers ----------

  method GenerateRulesAssociation(specs: seq<RuleSpec>, obs: seq<RuleObservation>) returns (m: RuleAssociations)
    ensures m == AssociateRules(specs, obs)
  {
    m := map[];
    for i := 0 to |obs|
      invariant m == AssociateRuleObservations(obs[..i])
    {
      m := m[obs[i].key := Association(Some(obs[i]), None, false)];
      assert Init(obs[..i + 1]) == obs[..i];
    }
    assert obs[..|obs|] == obs;
    for i := 0 to |specs|
      invariant m == AssociateRuleSpecs(AssociateRuleObservations(obs), specs, i)
    {
      var key := specs[i].rule;
      if key in m {
        var assoc := m[key].(spec := Some(i));
        assoc := assoc.(upToDate := assoc.observation.Some? && IsRuleUpToDate(specs[i], assoc.observation.value));
        m := m[key := assoc];
      } else {
        m := m[key := Association(None, Some(i), false)];
      }
    }
  }

  // ---------- the sync ----------

  /**
   * One call for each entry that was not up to date, and an error that counts those that still are not: it
   * is nil exactly when the final map is up to date.
   */
  ghost predicate SyncRun(profile: string, specs: seq<RuleSpec>, x: Moment, steps: seq<RuleStep>, y: Moment,
                          err: Option<UpdateError>)
  {
    && PhaseBetween(profile, specs, x, NotUpToDate(x.entries), steps, y)
    && err == (if Errors(steps) == 0 then None else Some(RulesFailed(Errors(steps))))
    && (err.None? <==> AllUpToDate(y.entries)) && |NotUpToDate(y.entries)| == Errors(steps)
    && |y.log| == |x.log| + |NotUpToDate(x.entries)|
  }

  lemma SyncDone(profile: string, specs: seq<RuleSpec>, x: Moment, first: seq<RuleStep>, y: Moment,
                 second: seq<RuleStep>, z: Moment, third: seq<RuleStep>, end: Moment, errors: nat)
    requires Generated(x.entries, specs)
    requires PhaseBetween(profile, specs, x, MissingKeys(x.entries), first, y)
    requires PhaseBetween(profile, specs, y, NonExistingKeys(y.entries), second, z)
    requires PhaseBetween(profile, specs, z, OutdatedKeys(z.entries), third, end)
    requires errors == Errors(first) + Errors(second) + Errors(third)
    ensures SyncRun(profile, specs, x, first + second + third, end,
                    if errors == 0 then None else Some(RulesFailed(errors)))
  {
    SyncIsOneTrace(profile, specs, x, first, y, second, z, third, end);
    ErrorConservation(profile, specs, x, first + second + third, end);
  }

  /** One error for each call that failed, and it names the rule. */
  ghost predicate Reported(errs: seq<RuleError>, kind: RuleErrorKind, steps: seq<RuleStep>) {
    |errs| == Errors(steps) && forall e :: e in errs <==> e.kind == kind && e.rule in FailedRules(steps)
  }

  lemma ReportedSnoc(errs: seq<RuleError>, kind: RuleErrorKind, steps: seq<RuleStep>, s: RuleStep)
    requires Reported(errs, kind, steps)
    ensures Reported(if s.call.ok then errs else errs + [RuleError(kind, s.rule)], kind, steps + [s])
  {
    FailedSnoc(steps, s);
    assert Init(steps + [s]) == steps;
  }

  class External {
    const server: ProfileServer
    const rules: RulesClient

    constructor (server: ProfileServer, rules: RulesClient)
      ensures this.server == server && this.rules == rules
    {
      this.server, this.rules := server, rules;
    }

    ghost function Now(assocs: AssociationMap<RuleObservation>): Moment
      reads assocs, server
    {
      Moment(assocs.entries, server.active, server.log)
    }

    /** Deactivates active rules nobody declares; a failure is recorded and the phase goes on. */
    method DeactivateUnwantedRules(profile: string, assocs: AssociationMap<RuleObservation>, ghost specs: seq<RuleSpec>)
      returns (errs: seq<RuleError>, ghost steps: seq<RuleStep>)
      requires Keyed(assocs.entries, specs)
      modifies assocs, server`active, server`log
      ensures PhaseBetween(profile, specs, old(Now(assocs)), MissingKeys(old(assocs.entries)), steps, Now(assocs))
              && Reported(errs, CannotDeactivate, steps)
    {
      errs, steps := [], [];
      var missing := FindMissing(assocs.entries);
      ghost var m := assocs.entries;
      ghost var order :| Enumerates(order, MissingKeys(m)) && ObservationsAt(m, order, missing);
      for n := 0 to |missing|
        invariant Progress(profile, specs, m, old(server.active), old(server.log), order[..n], steps, assocs.entries,
                           server.active, server.log)
        invariant Reported(errs, CannotDeactivate, steps)
      {
        var rule := missing[n].key;
        assert order[n] in MissingKeys(m) && order[..n + 1] == order[..n] + [rule];
        var ok := server.DeactivateRule(profile, rule);
        ghost var step := RuleStep(rule, DeactivateCall(profile, rule, ok), NO_RULE);
        CallsSnoc(profile, specs, m, steps, step);
        ReportedSnoc(errs, CannotDeactivate, steps, step);
        steps := steps + [step];
        if !ok {
          errs := errs + [RuleError(CannotDeactivate, rule)];
          continue;
        }
        assocs.entries := assocs.entries - {rule};
      }
      assert order[..|missing|] == order;
    }

    /** Activates declared rules that are not active; the observation is left for the next Observe. */
    method ActivateMissingRules(profile: string, assocs: AssociationMap<RuleObservation>, specs: seq<RuleSpec>)
      returns (errs: seq<RuleError>, ghost steps: seq<RuleStep>)
      requires Keyed(assocs.entries, specs)
      requires forall k <- NonExistingKeys(assocs.entries) :: !assocs.entries[k].upToDate
      modifies assocs, server`active, server`log
      ensures PhaseBetween(profile, specs, old(Now(assocs)), NonExistingKeys(old(assocs.entries)), steps, Now(assocs))
              && Reported(errs, CannotActivate, steps)
    {
      errs, steps := [], [];
      var missing := FindNonExisting(assocs.entries);
      ghost var m := assocs.entries;
      ghost var order :| Enumerates(order, NonExistingKeys(m)) && SpecsAt(m, order, missing);
      for n := 0 to |missing|
        invariant Progress(profile, specs, m, old(server.active), old(server.log), order[..n], steps, assocs.entries,
                           server.active, server.log)
        invariant Reported(errs, CannotActivate, steps)
      {
        assert order[n] in NonExistingKeys(m);
        var spec := missing[n];
        var rule := specs[spec].rule;
        assert order[..n + 1] == order[..n] + [rule];
        StillThere(m, steps, order, n);
        var ok, stored := server.ActivateRule(RequestFor(profile, specs[spec]));
        ghost var step := RuleStep(rule, ActivateCall(RequestFor(profile, specs[spec]), ok), stored);
        CallsSnoc(profile, specs, m, steps, step);
        ReportedSnoc(errs, CannotActivate, steps, step);
        steps := steps + [step];
        if !ok {
          errs := errs + [RuleError(CannotActivate, rule)];
          continue;
        }
        assocs.entries := assocs.entries[rule := Association(None, Some(spec), true)];
      }
      assert order[..|missing|] == order;
    }

    /** Re-activates rules whose observation differs from the spec. */
    method UpdateOutdatedRules(profile: string, assocs: AssociationMap<RuleObservation>, specs: seq<RuleSpec>)
      returns (errs: seq<RuleError>, ghost steps: seq<RuleStep>)
      requires Keyed(assocs.entries, specs)
      modifies assocs, server`active, server`log
      ensures PhaseBetween(profile, specs, old(Now(assocs)), OutdatedKeys(old(assocs.entries)), steps, Now(assocs))
              && Reported(errs, CannotUpdate, steps)
    {
      errs, steps := [], [];
      var outdated := FindNotUpToDate(assocs.entries);
      ghost var m := assocs.entries;
      ghost var order :| Enumerates(order, OutdatedKeys(m)) && EntriesAt(m, order, outdated);
      for n := 0 to |outdated|
        invariant Progress(profile, specs, m, old(server.active), old(server.log), order[..n], steps, assocs.entries,
                           server.active, server.log)
        invariant Reported(errs, CannotUpdate, steps)
      {
        assert order[n] in OutdatedKeys(m);
        var assoc := outdated[n];
        var rule := specs[assoc.spec.value].rule;
        assert order[..n + 1] == order[..n] + [rule];
        StillThere(m, steps, order, n);
        var ok, stored := server.ActivateRule(RequestFor(profile, specs[assoc.spec.value]));
        ghost var step := RuleStep(rule, ActivateCall(RequestFor(profile, specs[assoc.spec.value]), ok), stored);
        CallsSnoc(profile, specs, m, steps, step);
        ReportedSnoc(errs, CannotUpdate, steps, step);
        steps := steps + [step];
        if !ok {
          errs := errs + [RuleError(CannotUpdate, rule)];
          continue;
        }
        assocs.entries := assocs.entries[rule := Association(assoc.observation, assoc.spec, true)];
      }
      assert order[..|outdated|] == order;
    }

    /** Runs all three phases whatever fails, and reports how many calls failed. */
    method SyncRules(externalName: string, specs: seq<RuleSpec>, assocs: AssociationMap<RuleObservation>)
      returns (err: Option<UpdateError>, ghost steps: seq<RuleStep>)
      requires Generated(assocs.entries, specs)
      modifies assocs, server`active, server`log
      ensures err == Some(NoExternalName) <==> externalName == "" && old(assocs.entries) != map[]
      ensures err != Some(NoExternalName) ==>
                SyncRun(externalName, specs, old(Now(assocs)), steps, Now(assocs), err)
    {
      err, steps := None, [];
      if |assocs.entries| == 0 {
        return;
      }
      if externalName == "" {
        return Some(NoExternalName), steps;
      }
      ghost var x := Now(assocs);
      GeneratedIsKeyed(x.entries, specs);
      var deactivateErrors, first := DeactivateUnwantedRules(externalName, assocs, specs);
      ghost var y := Now(assocs);
      DeactivationDone(externalName, specs, x, first, y);
      var activateErrors, second := ActivateMissingRules(externalName, assocs, specs);
      ghost var z := Now(assocs);
      ActivationDone(externalName, specs, y, second, z);
      var updateErrors, third := UpdateOutdatedRules(externalName, assocs, specs);
      var aggregated := deactivateErrors + activateErrors + updateErrors;
      SyncDone(externalName, specs, x, first, y, second, z, third, Now(assocs), |aggregated|);
      steps := first + second + third;
      if |aggregated| > 0 {
        err := Some(RulesFailed(|aggregated|));
      }
    }

    /** Fills in nil fields of the declared rules through the pointers the map holds. */
    method LateInitializeRules(mg: QualityProfile, m: RuleAssociations)
      requires Generated(m, mg.spec.rules)
      modifies mg`spec
      ensures mg.spec == old(mg.spec).(rules := LateInitRules(old(mg.spec.rules), m))
    {
      ghost var before := mg.spec.rules;
      var rest := m.Keys;
      while rest != {}
        invariant rest <= m.Keys
        invariant mg.spec == old(mg.spec).(rules := mg.spec.rules) && |mg.spec.rules| == |before|
        invariant forall i | 0 <= i < |before| ::
                    mg.spec.rules[i] == if before[i].rule in rest then before[i] else LateInitSpec(before, i, m)
        decreases |rest|
      {
        var k :| k in rest;
        rest := rest - {k};
        var assoc := m[k];
        assert GeneratedEntry(k, assoc, before);
        if assoc.spec.Some? && assoc.observation.Some? {
          var i := assoc.spec.value;
          mg.spec := mg.spec.(rules := mg.spec.rules[i := LateInitRule(mg.spec.rules[i], assoc.observation.value)]);
        }
      }
      assert mg.spec.rules == LateInitRules(before, m);
    }

    /**
     * A profile without external name is absent; otherwise the server is asked, any error reads as a
     * profile that does not exist, and only then its rules are fetched. `failed` is an error of that fetch.
     */
    method Observe(mg: QualityProfile) returns (o: ExternalObservation, failed: bool, ghost up: bool, ghost last: nat)
      requires exists p :: Stops(rules.respond, p)
      modifies mg`spec, mg`status, rules`log, server`log
      ensures server.log == old(server.log) + if mg.externalName == "" then [] else [ShowCall(mg.externalName, up)]
      ensures mg.externalName == "" ==> up
      ensures var found := mg.externalName != "" && up && server.key == Some(mg.externalName);
              && (failed <==> found && rules.respond(last).Error?) && (o.resourceExists <==> found && !failed)
              && (found ==>
                    StopsFirstAt(rules.respond, last) && rules.log
                        == old(rules.log) + Searches(mg.externalName, rules.respond, last))
              && (!found ==> rules.log == old(rules.log))
      ensures !o.resourceExists ==>
                mg.spec == old(mg.spec) && mg.status == old(mg.status) && !o.upToDate && !o.lateInitialized
      ensures o.resourceExists ==>
                && mg.status == ObservationOf(mg.externalName, server.shown, rules.respond, last)
                && mg.status.key == mg.externalName && mg.status.name == server.shown.name
                && mg.status.language == server.shown.language && mg.status.isDefault == server.shown.isDefault
                && mg.spec == LateInitialized(old(mg.spec), mg.status)
                && mg.spec.name == old(mg.spec.name) && mg.spec.language == old(mg.spec.language)
                && mg.spec.default == Some(if old(mg.spec.default).Some? then old(mg.spec.default).value
                                           else server.shown.isDefault)
                && o.upToDate == IsProfileUpToDate(mg.spec, mg.status,
                                                   AssociateRules(old(mg.spec.rules), mg.status.rules))
                && o.lateInitialized == (mg.spec.default != old(mg.spec.default)
                                         || RulesReported(old(mg.spec.rules), mg.spec.rules))
    {
      failed, up, last := false, true, 0;
      o := ExternalObservation(false, false, false);
      if mg.externalName == "" {
        return;
      }
      var shown;
      shown, up := server.Show(mg.externalName);
      if shown.None? {
        return;
      }
      var search;
      search, last := FetchAllQualityProfileRules(rules, mg.externalName);
      if search.None? {
        failed := true;
        return;
      }
      var observed := GenerateRulesObservation(mg.externalName, search.value);
      mg.status := ProfileObservation(mg.externalName, shown.value.name, shown.value.language, shown.value.isDefault,
                                      observed);
      var current := mg.spec;
      var m := GenerateRulesAssociation(mg.spec.rules, mg.status.rules);
      AssociateRulesIsGenerated(mg.spec.rules, mg.status.rules);
      if mg.spec.default.None? {
        mg.spec := mg.spec.(default := Some(mg.status.isDefault));
      }
      LateInitializeRules(mg, m);
      var rulesLateInitialized := WereRulesLateInitialized(current.rules, mg.spec.rules);
      var rulesUpToDate := AreAllUpToDate(m);
      var upToDate := mg.spec.name == mg.status.name && mg.spec.language == mg.status.language
        && Accepts(mg.spec.default, mg.status.isDefault) && rulesUpToDate;
      o := ExternalObservation(true, upToDate, current.default != mg.spec.default || rulesLateInitialized);
    }

    method Create(mg: QualityProfile) returns (err: Option<UpdateError>)
      modifies mg`externalName, server
      ensures err.Some? ==> err.value in {CannotCreateProfile, CannotSetDefault}
      ensures err == Some(CannotSetDefault) ==> WantsDefault(mg.spec)
      ensures server.log == old(server.log) +
                            [CreateCall(mg.spec.name, mg.spec.language, err != Some(CannotCreateProfile))] +
                            if err == Some(CannotCreateProfile) || !WantsDefault(mg.spec) then []
                            else [DefaultCall(mg.spec.name, mg.spec.language, err.None?)]
      ensures err == Some(CannotCreateProfile) ==>
                && mg.externalName == old(mg.externalName) && server.key == old(server.key)
                && server.shown == old(server.shown) && server.active == old(server.active)
      ensures err != Some(CannotCreateProfile) ==>
                && mg.externalName != "" && server.key == Some(mg.externalName) != old(server.key)
                && server.shown == ProfileShown(mg.spec.name, mg.spec.language, err.None? && WantsDefault(mg.spec))
    {
      var created := server.CreateProfile(mg.spec.name, mg.spec.language);
      if created.None? {
        return Some(CannotCreateProfile);
      }
      mg.externalName := created.value;
      if WantsDefault(mg.spec) {
        var ok := server.SetDefault(mg.spec.name, mg.spec.language);
        if !ok {
          return Some(CannotSetDefault);
        }
      }
      return None;
    }

    /**
     * The default is set under the declared name before the profile is renamed to it, and both before
     * the rules are synced; the first of these that fails ends the update.
     */
    method Update(mg: QualityProfile) returns (err: Option<UpdateError>, ghost steps: seq<RuleStep>)
      modifies server`shown, server`active, server`log
      ensures err == Some(NoExternalName) <==> mg.externalName == ""
      ensures err != Some(CannotCreateProfile)
      ensures mg.externalName == "" ==>
                && server.shown == old(server.shown) && server.active == old(server.active)
                && server.log == old(server.log)
      ensures err == Some(CannotSetDefault) ==>
                && server.shown == old(server.shown) && server.active == old(server.active)
                && server.log == old(server.log) + [DefaultCall(mg.spec.name, mg.spec.language, false)]
      ensures err == Some(CannotRename) ==>
                && server.shown == Defaulted(old(server.shown), mg.spec) && server.active == old(server.active)
                && server.log == old(server.log) + FieldCalls(mg.externalName, mg.spec, mg.status.name, false)
      ensures err.None? || err.value.RulesFailed? ==>
                var m := AssociateRules(mg.spec.rules, mg.status.rules);
                var log := old(server.log) + FieldCalls(mg.externalName, mg.spec, mg.status.name, true);
                && server.shown == ShownAfterUpdate(old(server.shown), mg.spec, mg.status.name)
                && SyncRun(mg.externalName, mg.spec.rules, Moment(m, old(server.active), log), steps,
                           Moment(EntriesAfter(m, steps), server.active, server.log), err)
      ensures err == Some(CannotSetDefault) ==> WantsDefault(mg.spec)
      ensures err == Some(CannotRename) ==> mg.spec.name != mg.status.name
    {
      steps := [];
      if mg.externalName == "" {
        return Some(NoExternalName), steps;
      }
      if WantsDefault(mg.spec) {
        var ok := server.SetDefault(mg.spec.name, mg.spec.language);
        if !ok {
          return Some(CannotSetDefault), steps;
        }
      }
      if mg.spec.name != mg.status.name {
        var ok := server.Rename(mg.externalName, mg.spec.name);
        if !ok {
          return Some(CannotRename), steps;
        }
      }
      var m := GenerateRulesAssociation(mg.spec.rules, mg.status.rules);
      AssociateRulesIsGenerated(mg.spec.rules, mg.status.rules);
      var assocs := new AssociationMap(m);
      ghost var x := Now(assocs);
      assert x.log == old(server.log) + FieldCalls(mg.externalName, mg.spec, mg.status.name, true);
      err, steps := SyncRules(mg.externalName, mg.spec.rules, assocs);
      assert SyncRun(mg.externalName, mg.spec.rules, x, steps, Now(assocs), err);
    }
  }

  /** The profile's own fields once the default is set, under the declared name. */
  function Defaulted(before: ProfileShown, spec: ProfileParameters): ProfileShown {
    if WantsDefault(spec) && spec.language == before.language then before.(isDefault := spec.name == before.name)
    else before
  }

  /** The profile's own fields after an Update none of whose profile calls failed. */
  function ShownAfterUpdate(before: ProfileShown, spec: ProfileParameters, observedName: string): ProfileShown {
    if spec.name != observedName then Defaulted(before, spec).(name := spec.name) else Defaulted(before, spec)
  }

  /** The calls of an Update about the profile itself, once the default is set if it has to be. */
  function FieldCalls(profile: string, spec: ProfileParameters, observedName: string, renamed: bool): seq<ProfileCall> {
    (if WantsDefault(spec) then [DefaultCall(spec.name, spec.language, true)] else []) +
    (if spec.name != observedName then [RenameCall(profile, spec.name, renamed)] else [])
  }

  /**
   * The default is set, if at all, under the declared name and language; a rename is of this profile to
   * the declared name.
   */
  lemma FieldCallsAreAbout(profile: string, spec: ProfileParameters, observedName: string, renamed: bool)
    ensures var calls := FieldCalls(profile, spec, observedName, renamed);
            && (DefaultCall(spec.name, spec.language, true) in calls <==> spec.default == Some(true))
            && (RenameCall(profile, spec.name, renamed) in calls <==> spec.name != observedName)
            && (forall c <- calls :: c in {DefaultCall(spec.name, spec.language, true),
                                           RenameCall(profile, spec.name, renamed)})
  {
  }

  /**
   * Severity and prioritized are compared with those of the original rule of the same key, the last one if
   * several share it.
   */
  method WereRulesLateInitialized(original: seq<RuleSpec>, updated: seq<RuleSpec>) returns (changed: bool)
    ensures changed == RulesReported(original, updated)
  {
    if |original| != |updated| {
      return true;
    }
    var byRule: map<string, nat> := map[];
    for i := 0 to |original|
      invariant forall k :: Get(byRule, k) == LastDeclared(original, i, k)
    {
      byRule := byRule[original[i].rule := i];
    }
    for i := 0 to |updated|
      invariant forall k | 0 <= k < i :: !RuleReported(original, updated[k])
    {
      LastDeclaredBound(original, |original|, updated[i].rule);
      assert Get(byRule, updated[i].rule) == LastDeclared(original, |original|, updated[i].rule);
      if updated[i].rule !in byRule {
        return true;
      }
      var origin := original[byRule[updated[i].rule]];
      if origin.severity != updated[i].severity {
        return true;
      }
      if origin.prioritized != updated[i].prioritized {
        return true;
      }
    }
    return false;
  }

  /** The entry whose turn it is has not been touched by the calls before it. */
  lemma StillThere(m: RuleAssociations, steps: seq<RuleStep>, order: seq<string>, n: nat)
    requires n < |order| && Rules(steps) == order[..n] && Distinct(order)
    ensures Get(EntriesAfter(m, steps), order[n]) == Get(m, order[n])
  {
    Untouched(map[], m, steps, order[n]);
  }
}
