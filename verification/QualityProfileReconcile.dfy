/** The reconcile loop around the quality-profile client, end to end on the heap. */
module QualityProfileReconcile {
  import opened Basics
  import opened Pairing
  import opened QualityProfileRules
  import opened QualityProfileModel
  import opened QualityProfileTrace
  import opened QualityProfileTheory
  import opened QualityProfileConvergence
  import opened QualityProfileRounds
  import opened QualityProfileServer
  import opened QualityProfileController

  // ---------- the profile's own fields ----------

  /** Name, language and default agree. */
  predicate FieldsAgree(spec: ProfileParameters, shown: ProfileShown) {
    spec.name == shown.name && spec.language == shown.language && Accepts(spec.default, shown.isDefault)
  }

  predicate DefaultCanBeUnset(spec: ProfileParameters, shown: ProfileShown) {
    spec.default.Some? && !spec.default.value ==> !shown.isDefault
  }

  /**
   * The profile's own fields after one error-free Update, exactly: a wrong language stays wrong, a
   * default cannot be unset, and a profile that is renamed in the same Update does not become the
   * default, because the default was set under the new name first. A server may refuse that call, as no
   * profile of this name need exist yet; Update then ends there, before the rename.
   */
  lemma FieldsAfterUpdateExactly(spec: ProfileParameters, before: ProfileShown)
    ensures FieldsAgree(spec, ShownAfterUpdate(before, spec, before.name)) <==>
              && spec.language == before.language
              && (WantsDefault(spec) ==> spec.name == before.name)
              && DefaultCanBeUnset(spec, before)
  {
  }

  /** The fields after `n` error-free Updates, each after an Observe. */
  function ShownAfter(before: ProfileShown, spec: ProfileParameters, n: nat): ProfileShown {
    if n == 0 then before
    else var last := ShownAfter(before, spec, n - 1); ShownAfterUpdate(last, spec, last.name)
  }

  /** A second Update repairs the default of a renamed profile, and no further one changes anything. */
  lemma {:induction false} FieldsAfterUpdatesExactly(spec: ProfileParameters, before: ProfileShown, n: nat)
    requires n >= 2
    ensures FieldsAgree(spec, ShownAfter(before, spec, n)) <==>
              spec.language == before.language && DefaultCanBeUnset(spec, before)
    ensures ShownAfter(before, spec, n) == ShownAfter(before, spec, 2)
  {
    if n == 2 {
      assert ShownAfter(before, spec, 1) == ShownAfterUpdate(before, spec, before.name);
    } else {
      FieldsAfterUpdatesExactly(spec, before, n - 1);
    }
  }

  lemma ShownUnchanged(spec: ProfileParameters, shown: ProfileShown)
    requires FieldsAgree(spec, shown)
    ensures ShownAfterUpdate(shown, spec, shown.name) == shown
  {
  }

  // ---------- one round ----------

  function SceneOf(mg: QualityProfile, server: ProfileServer): Scene
    reads mg, server
  {
    Scene(mg.spec.rules, mg.status.rules, server.active)
  }

  /** Observe has nothing to report. */
  predicate Satisfied(spec: ProfileParameters, shown: ProfileShown, x: Scene) {
    FieldsAgree(spec, shown) && AllUpToDate(MapFor(x))
  }

  /** No profile call after the first `n` and no search call after the first `s` failed. */
  ghost predicate NoFailure(calls: seq<ProfileCall>, n: nat, searches: seq<Searched>, s: nat) {
    && (forall i | n <= i < |calls| :: calls[i].ok)
    && (forall i | s <= i < |searches| :: searches[i].response.Answer?)
  }

  /** The calls made and their outcomes; later logs extend earlier ones. */
  ghost predicate Extends(calls: seq<ProfileCall>, searches: seq<Searched>, calls': seq<ProfileCall>,
                          searches': seq<Searched>)
  {
    calls <= calls' && searches <= searches'
  }

  /** An Observe that saw the profile: the status reports what the server has, and the spec is complete. */
  ghost predicate Seen(mg: QualityProfile, server: ProfileServer, o: ExternalObservation)
    reads mg, server
  {
    && mg.externalName != "" && server.key == Some(mg.externalName) && mg.spec.default.Some?
    && mg.status.name == server.shown.name && mg.status.language == server.shown.language
    && mg.status.isDefault == server.shown.isDefault && Observed(SceneOf(mg, server))
    && o.upToDate == Satisfied(mg.spec, server.shown, SceneOf(mg, server))
  }

  /** The search answers what is active at this moment, as far as its pages do not fail. */
  method ObserveNow(c: External, mg: QualityProfile) returns (o: ExternalObservation)
    modifies mg`spec, mg`status, c.rules, c.server`log
    ensures Extends(old(c.server.log), old(c.rules.log), c.server.log, c.rules.log)
    ensures NoFailure(c.server.log, |old(c.server.log)|, c.rules.log, |old(c.rules.log)|) ==>
              (o.resourceExists <==> mg.externalName != "" && c.server.key == Some(mg.externalName))
    ensures !o.resourceExists ==> mg.spec == old(mg.spec)
    ensures o.resourceExists ==>
              && Seen(mg, c.server, o)
              && mg.spec == LateInitialized(old(mg.spec), mg.status)
              && mg.spec.default == Some(if old(mg.spec.default).Some? then old(mg.spec.default).value
                                         else c.server.shown.isDefault)
              && c.server.log == old(c.server.log) + [ShowCall(mg.externalName, true)]
  {
    var respond := c.server.Listing(mg.externalName);
    ListingStops(respond, mg.externalName, c.server.active);
    c.rules.respond := respond;
    ghost var specs, searched := mg.spec.rules, c.rules.log;
    var failed;
    ghost var up, last;
    o, failed, up, last := c.Observe(mg);
    if failed {
      LastSearched(mg.externalName, respond, last);
      assert c.rules.log[|c.rules.log| - 1].response.Error?;
    }
    assert up || !Last(c.server.log).ok;
    if o.resourceExists {
      ListingIsObserved(respond, mg.externalName, c.server.active, last);
      FlagsSurviveLateInit(specs, mg.status.rules);
      LateInitSettles(specs, mg.status.rules);
    }
  }

  lemma LastSearched(profile: string, respond: nat -> Response, last: nat)
    requires last >= 1
    ensures Searches(profile, respond, last) != []
            && Last(Searches(profile, respond, last)) == Searched(SearchFor(profile, last), respond(last))
  {
  }

  /**
   * Observe, with Create and another Observe when the profile is not there. The profile is seen unless
   * some call failed.
   */
  method ObserveOrCreate(c: External, mg: QualityProfile) returns (o: ExternalObservation)
    modifies mg, c.rules, c.server
    ensures Extends(old(c.server.log), old(c.rules.log), c.server.log, c.rules.log)
    ensures NoFailure(c.server.log, |old(c.server.log)|, c.rules.log, |old(c.rules.log)|) ==> o.resourceExists
    ensures o.resourceExists ==>
              && Seen(mg, c.server, o) && mg.spec.name == old(mg.spec.name) && mg.spec.language == old(mg.spec.language)
              && mg.spec.default == Some(if old(mg.spec.default).Some? then old(mg.spec.default).value
                                         else c.server.shown.isDefault)
              && if mg.externalName == old(mg.externalName) && old(c.server.key) == Some(mg.externalName) then
                   c.server.shown == old(c.server.shown) && c.server.active == old(c.server.active)
                   && c.server.log == old(c.server.log) + [ShowCall(mg.externalName, true)]
                 else
                   c.server.shown == ProfileShown(mg.spec.name, mg.spec.language, old(WantsDefault(mg.spec)))
  {
    o := ObserveNow(c, mg);
    if !o.resourceExists {
      var err := c.Create(mg);
      assert err.Some? ==> !Last(c.server.log).ok;
      if err.None? {
        o := ObserveNow(c, mg);
      }
    }
  }

  lemma FailedStep(log: seq<ProfileCall>, steps: seq<RuleStep>)
    ensures Errors(steps) > 0 ==> exists i :: |log| <= i < |log + RuleCalls(steps)| && !(log + RuleCalls(steps))[i].ok
  {
    NoErrorsAllOk(steps);
    if Errors(steps) > 0 {
      var s :| s in steps && !s.call.ok;
      var n :| 0 <= n < |steps| && steps[n] == s;
      assert (log + RuleCalls(steps))[|log| + n] == RuleCalls(steps)[n];
    }
  }

  /** What the rounds follow: the spec, the profile's fields, its rules, and the calls so far. */
  datatype View = View(spec: ProfileParameters, shown: ProfileShown, rules: Scene, log: seq<ProfileCall>)

  ghost function ViewOf(mg: QualityProfile, server: ProfileServer): View
    reads mg, server
  {
    View(mg.spec, server.shown, SceneOf(mg, server), server.log)
  }

  /** The calls of one reconcile with the rule calls `steps`: those about the fields only if it was needed. */
  function UpdateCalls(profile: string, v: View, steps: seq<RuleStep>): seq<ProfileCall> {
    (if Satisfied(v.spec, v.shown, v.rules) then [] else FieldCalls(profile, v.spec, v.shown.name, true)) +
    RuleCalls(steps)
  }

  /** A reconcile without a failed call led from `v` to these fields, active rules and calls. */
  ghost predicate Updated(profile: string, v: View, steps: seq<RuleStep>, shown: ProfileShown,
                          active: map<string, Active>, log: seq<ProfileCall>)
  {
    && Calls(profile, v.rules.specs, MapFor(v.rules), steps) && Enumerates(Rules(steps), Stale(v.rules))
    && Errors(steps) == 0
    && shown == ShownAfterUpdate(v.shown, v.spec, v.shown.name) && active == ActiveAfter(v.rules.active, steps)
    && log == v.log + UpdateCalls(profile, v, steps)
  }

  lemma NothingToUpdate(profile: string, v: View)
    requires Satisfied(v.spec, v.shown, v.rules)
    ensures Updated(profile, v, [], v.shown, v.rules.active, v.log)
  {
    ShownUnchanged(v.spec, v.shown);
    NothingStale(v.rules);
  }

  lemma UpdateDone(profile: string, v: View, steps: seq<RuleStep>, shown: ProfileShown, x: Moment, y: Moment)
    requires !Satisfied(v.spec, v.shown, v.rules) && shown == ShownAfterUpdate(v.shown, v.spec, v.shown.name)
    requires x == Moment(MapFor(v.rules), v.rules.active, v.log + FieldCalls(profile, v.spec, v.shown.name, true))
    requires SyncRun(profile, v.rules.specs, x, steps, y, None)
    ensures Updated(profile, v, steps, shown, y.active, y.log)
  {
    assert y.log == v.log + (FieldCalls(profile, v.spec, v.shown.name, true) + RuleCalls(steps));
  }

  predicate SameParameters(held: ProfileParameters, spec: ProfileParameters) {
    spec.name == held.name && spec.language == held.language && spec.default == held.default
  }

  /** One round without a failed call, and the Observe after it. */
  ghost predicate OneRound(profile: string, v: View, c: Cycle, w: View) {
    && IsCycle(profile, v.rules, c) && Errors(c.steps) == 0 && w.rules == Next(v.rules, c)
    && SameParameters(v.spec, w.spec) && w.shown == ShownAfterUpdate(v.shown, v.spec, v.shown.name)
    && w.log == v.log + UpdateCalls(profile, v, c.steps) + [ShowCall(profile, true)]
  }

  lemma RoundDone(profile: string, v: View, steps: seq<RuleStep>, shown: ProfileShown, active: map<string, Active>,
                  log: seq<ProfileCall>, status: ProfileObservation, w: View)
    requires v.spec.rules == v.rules.specs && v.spec.default.Some? && Updated(profile, v, steps, shown, active, log)
    requires w == View(LateInitialized(v.spec, status), shown, Scene(w.spec.rules, status.rules, active),
                       log + [ShowCall(profile, true)])
    requires Reports(status.rules, active)
    ensures OneRound(profile, v, Cycle(steps, status.rules), w)
  {
  }

  /**
   * One reconcile of a profile that was seen, and the next Observe: the calls of a sync, or none when the
   * profile was up to date. Without a failed call the profile is seen again, its fields are those an
   * Update leaves, and the rules out of date are at most those that declare something that is not sent.
   */
  method Round(c: External, mg: QualityProfile, o: ExternalObservation)
    returns (next: ExternalObservation, err: Option<UpdateError>, ghost cycle: Cycle)
    requires Seen(mg, c.server, o)
    modifies mg`spec, mg`status, c.rules, c.server
    ensures Extends(old(c.server.log), old(c.rules.log), c.server.log, c.rules.log)
    ensures NoFailure(c.server.log, |old(c.server.log)|, c.rules.log, |old(c.rules.log)|) ==>
              err.None? && next.resourceExists
    ensures err.None? && next.resourceExists ==>
              && Seen(mg, c.server, next)
              && OneRound(mg.externalName, old(ViewOf(mg, c.server)), cycle, ViewOf(mg, c.server))
              && Stale(SceneOf(mg, c.server)) <= Stuck(old(SceneOf(mg, c.server)))
  {
    err, next, cycle := None, o, Cycle([], []);
    ghost var v, steps: seq<RuleStep> := ViewOf(mg, c.server), [];
    if o.upToDate {
      NothingToUpdate(mg.externalName, v);
    } else {
      ghost var x := Moment(MapFor(v.rules), v.rules.active,
                            v.log + FieldCalls(mg.externalName, mg.spec, mg.status.name, true));
      err, steps := c.Update(mg);
      if err.Some? {
        if err.value.RulesFailed? {
          FailedStep(x.log, steps);
        } else {
          assert !Last(c.server.log).ok;
        }
        return;
      }
      UpdateDone(mg.externalName, v, steps, c.server.shown, x,
                 Moment(EntriesAfter(x.entries, steps), c.server.active, c.server.log));
    }
    ghost var log := c.server.log;
    next := ObserveNow(c, mg);
    cycle := Cycle(steps, mg.status.rules);
    if next.resourceExists {
      RoundDone(mg.externalName, v, steps, c.server.shown, c.server.active, log, mg.status, ViewOf(mg, c.server));
      NoFailedRules(steps);
      StaleNext(mg.externalName, v.rules, cycle);
    }
  }

  // ---------- any number of rounds ----------

  /** The view after some rounds, before its log is extended by them. */
  function Ahead(v: View, cycles: seq<Cycle>): View {
    v.(shown := ShownAfter(v.shown, v.spec, |cycles|), rules := End(v.rules, cycles))
  }

  /** The calls of all rounds. */
  function CallsOver(profile: string, v: View, cycles: seq<Cycle>): seq<ProfileCall> {
    if cycles == [] then []
    else
      CallsOver(profile, v, Init(cycles)) + UpdateCalls(profile, Ahead(v, Init(cycles)), Last(cycles).steps) +
      [ShowCall(profile, true)]
  }

  /** Rounds without a failed call lead from `v` to `w`. */
  ghost predicate AllRounds(profile: string, v: View, cycles: seq<Cycle>, w: View) {
    && Cycles(profile, v.rules, cycles) && AllErrorFree(cycles) && w.rules == End(v.rules, cycles)
    && SameParameters(v.spec, w.spec) && w.shown == ShownAfter(v.shown, v.spec, |cycles|)
    && w.log == v.log + CallsOver(profile, v, cycles)
  }

  /** Only name, language and default decide what an Update does to the fields, and by which calls. */
  lemma SameUpdate(profile: string, v: View, w: View, steps: seq<RuleStep>)
    requires SameParameters(v.spec, w.spec) && w.shown == v.shown && w.rules == v.rules
    ensures UpdateCalls(profile, v, steps) == UpdateCalls(profile, w, steps)
    ensures ShownAfterUpdate(v.shown, v.spec, v.shown.name) == ShownAfterUpdate(w.shown, w.spec, w.shown.name)
  {
  }

  lemma CallsSnoc(profile: string, v: View, cycles: seq<Cycle>, c: Cycle)
    ensures CallsOver(profile, v, cycles + [c]) ==
            CallsOver(profile, v, cycles) + UpdateCalls(profile, Ahead(v, cycles), c.steps) + [ShowCall(profile, true)]
    ensures ShownAfter(v.shown, v.spec, |cycles + [c]|) ==
            ShownAfterUpdate(Ahead(v, cycles).shown, v.spec, Ahead(v, cycles).shown.name)
  {
    SnocParts(cycles, c);
  }

  lemma OneRoundMore(profile: string, v: View, cycles: seq<Cycle>, w: View, c: Cycle, w': View)
    requires AllRounds(profile, v, cycles, w) && OneRound(profile, w, c, w')
    ensures AllRounds(profile, v, cycles + [c], w')
  {
    CyclesSnoc(profile, v.rules, cycles, c);
    CallsSnoc(profile, v, cycles, c);
    SameUpdate(profile, Ahead(v, cycles), w, c.steps);
    Regrouped(v.log, CallsOver(profile, v, cycles), UpdateCalls(profile, w, c.steps), [ShowCall(profile, true)]);
    AllErrorFreeSnoc(cycles, c);
  }

  lemma AllErrorFreeSnoc(cycles: seq<Cycle>, c: Cycle)
    requires AllErrorFree(cycles) && Errors(c.steps) == 0
    ensures AllErrorFree(cycles + [c])
  {
  }

  function Shows(profile: string, n: nat): seq<ProfileCall> {
    seq(n, _ => ShowCall(profile, true))
  }

  lemma ShowsSnoc(profile: string, n: nat)
    ensures Shows(profile, n + 1) == Shows(profile, n) + [ShowCall(profile, true)]
  {
  }

  lemma SatisfiedCalls(profile: string, v: View, c: Cycle)
    requires Observed(v.rules) && IsCycle(profile, v.rules, c) && Satisfied(v.spec, v.shown, v.rules)
    ensures UpdateCalls(profile, v, c.steps) == []
  {
    UpToDateStays(profile, v.rules, c);
  }

  lemma {:induction false} StaysUpToDate(profile: string, x: Scene, cycles: seq<Cycle>)
    requires Observed(x) && Cycles(profile, x, cycles) && AllUpToDate(MapFor(x))
    ensures Observed(End(x, cycles)) && AllUpToDate(MapFor(End(x, cycles)))
    decreases cycles
  {
    if cycles != [] {
      NextObserved(profile, x, cycles[0]);
      UpToDateStays(profile, x, cycles[0]);
      StaysUpToDate(profile, Next(x, cycles[0]), cycles[1..]);
    }
  }

  lemma {:induction false} FieldsStay(spec: ProfileParameters, shown: ProfileShown, n: nat)
    requires FieldsAgree(spec, shown)
    ensures ShownAfter(shown, spec, n) == shown
  {
    if n > 0 {
      FieldsStay(spec, shown, n - 1);
      ShownUnchanged(spec, shown);
    }
  }

  lemma {:induction false} CallsOnlyShow(profile: string, v: View, cycles: seq<Cycle>)
    requires Observed(v.rules) && Cycles(profile, v.rules, cycles) && Satisfied(v.spec, v.shown, v.rules)
    ensures CallsOver(profile, v, cycles) == Shows(profile, |cycles|)
  {
    if cycles != [] {
      var earlier, c := Init(cycles), Last(cycles);
      CyclesPrefix(profile, v.rules, cycles);
      CallsOnlyShow(profile, v, earlier);
      SatisfiedAhead(profile, v, earlier);
      SatisfiedCalls(profile, Ahead(v, earlier), c);
      assert cycles == earlier + [c];
      CallsSnoc(profile, v, earlier, c);
      ShowsSnoc(profile, |earlier|);
    }
  }

  lemma SatisfiedAhead(profile: string, v: View, cycles: seq<Cycle>)
    requires Observed(v.rules) && Cycles(profile, v.rules, cycles) && Satisfied(v.spec, v.shown, v.rules)
    ensures var w := Ahead(v, cycles); Observed(w.rules) && Satisfied(w.spec, w.shown, w.rules)
  {
    FieldsStay(v.spec, v.shown, |cycles|);
    StaysUpToDate(profile, v.rules, cycles);
  }

  /** A profile that Observe is satisfied with gets no call but the next Observe's, for good. */
  lemma OnlyShows(profile: string, v: View, cycles: seq<Cycle>)
    requires Observed(v.rules) && Cycles(profile, v.rules, cycles) && Satisfied(v.spec, v.shown, v.rules)
    ensures Satisfied(v.spec, ShownAfter(v.shown, v.spec, |cycles|), End(v.rules, cycles))
    ensures CallsOver(profile, v, cycles) == Shows(profile, |cycles|)
  {
    SatisfiedAhead(profile, v, cycles);
    CallsOnlyShow(profile, v, cycles);
  }

  /**
   * Calls about this profile only: shown, renamed and its rules changed under its key, the default set under
   * the declared name and language.
   */
  predicate IsAbout(profile: string, spec: ProfileParameters, call: ProfileCall) {
    match call
    case ShowCall(key, _) => key == profile
    case CreateCall(name, language, _) => name == spec.name && language == spec.language
    case DefaultCall(name, language, _) => name == spec.name && language == spec.language
    case RenameCall(key, name, _) => key == profile && name == spec.name
    case DeactivateCall(key, _, _) => key == profile
    case ActivateCall(q, _) => q.profile == profile
  }

  predicate OnlyAbout(profile: string, spec: ProfileParameters, calls: seq<ProfileCall>) {
    forall call <- calls :: IsAbout(profile, spec, call)
  }

  lemma UpdateIsAbout(profile: string, v: View, c: Cycle)
    requires IsCycle(profile, v.rules, c)
    ensures OnlyAbout(profile, v.spec, UpdateCalls(profile, v, c.steps))
  {
    FieldCallsAreAbout(profile, v.spec, v.shown.name, true);
    AssociateRulesIsGenerated(v.rules.specs, v.rules.obs);
    forall call <- RuleCalls(c.steps) ensures IsAbout(profile, v.spec, call) {
      var n :| 0 <= n < |c.steps| && RuleCalls(c.steps)[n] == call;
      CallsAreAbout(profile, v.rules.specs, MapFor(v.rules), c.steps[n]);
    }
  }

  lemma {:induction false} RoundsAreAbout(profile: string, v: View, cycles: seq<Cycle>)
    requires Cycles(profile, v.rules, cycles)
    ensures OnlyAbout(profile, v.spec, CallsOver(profile, v, cycles))
  {
    if cycles != [] {
      var earlier := Init(cycles);
      CyclesPrefix(profile, v.rules, cycles);
      RoundsAreAbout(profile, v, earlier);
      UpdateIsAbout(profile, Ahead(v, earlier), Last(cycles));
    }
  }

  lemma FinalCalls(profile: string, v: View, cycles: seq<Cycle>, w: View)
    requires AllRounds(profile, v, cycles, w)
    ensures v.log <= w.log && OnlyAbout(profile, v.spec, w.log[|v.log|..])
  {
    RoundsAreAbout(profile, v, cycles);
    assert w.log[|v.log|..] == CallsOver(profile, v, cycles);
  }

  /**
   * A nil default was filled in by the observed flag. The flag then stays so, but for a default profile that
   * is renamed: the first Update makes the default what has the new name, and the second this profile.
   */
  lemma {:induction false} FilledInDefaultExactly(spec: ProfileParameters, before: ProfileShown, n: nat)
    requires spec.default == Some(before.isDefault)
    ensures ShownAfter(before, spec, n).isDefault <==>
              before.isDefault && !(n == 1 && spec.language == before.language && spec.name != before.name)
    ensures n > 0 ==> ShownAfter(before, spec, n).name == spec.name
    ensures ShownAfter(before, spec, n).language == before.language
  {
    if n > 0 {
      FilledInDefaultExactly(spec, before, n - 1);
    }
  }

  /** `n` reconciles of a profile that was seen: without a failed call it gets to the end. */
  method Rounds(c: External, mg: QualityProfile, first: ExternalObservation, n: nat)
    returns (done: bool, last: ExternalObservation, ghost cycles: seq<Cycle>)
    requires Seen(mg, c.server, first)
    modifies mg`spec, mg`status, c.rules, c.server
    ensures Extends(old(c.server.log), old(c.rules.log), c.server.log, c.rules.log)
    ensures NoFailure(c.server.log, |old(c.server.log)|, c.rules.log, |old(c.rules.log)|) ==> done
    ensures done ==>
              && Seen(mg, c.server, last) && |cycles| == n
              && AllRounds(mg.externalName, old(ViewOf(mg, c.server)), cycles, ViewOf(mg, c.server))
  {
    done, last, cycles := false, first, [];
    ghost var v, profile := ViewOf(mg, c.server), mg.externalName;
    for k := 0 to n
      invariant Extends(old(c.server.log), old(c.rules.log), c.server.log, c.rules.log)
      invariant Seen(mg, c.server, last) && |cycles| == k && AllRounds(profile, v, cycles, ViewOf(mg, c.server))
    {
      ghost var w, cycle := ViewOf(mg, c.server), Cycle([], []);
      var err;
      last, err, cycle := Round(c, mg, last);
      if err.Some? || !last.resourceExists {
        return;
      }
      OneRoundMore(profile, v, cycles, w, cycle, ViewOf(mg, c.server));
      cycles := cycles + [cycle];
    }
    done := true;
  }

  /** A declared default is kept in the spec; a nil one is filled in, and what then becomes of the flag. */
  predicate DefaultFilledIn(declared: Option<bool>, v: View, n: nat, isDefault: bool) {
    if declared.Some? then v.spec.default == declared
    else
      && v.spec.default == Some(v.shown.isDefault)
      && (isDefault <==>
            v.shown.isDefault && !(n == 1 && v.spec.language == v.shown.language && v.spec.name != v.shown.name))
  }

  /**
   * What `n` rounds without a failed call come to: the rules out of date after the first are at most those
   * stuck at the start; a wrong language and a default that cannot be unset stay, and a renamed default
   * profile needs two rounds. All calls are about this profile, and one that is up to date gets no call but
   * Observe's.
   */
  ghost predicate Concluded(profile: string, v: View, n: nat, w: View, o: ExternalObservation) {
    && (n > 0 ==> Stale(w.rules) <= Stuck(v.rules))
    && (n > 0 && Stuck(v.rules) == {} ==>
          && (o.upToDate <==> FieldsAgree(v.spec, w.shown))
          && (n > 1 ==> (o.upToDate <==>
                           v.spec.language == v.shown.language && DefaultCanBeUnset(v.spec, v.shown))))
    && v.log <= w.log && OnlyAbout(profile, v.spec, w.log[|v.log|..])
    && (Satisfied(v.spec, v.shown, v.rules) ==> o.upToDate && w.log == v.log + Shows(profile, n))
  }

  /**
   * `n` reconciles with nobody else at the server, a creation included when the profile is not there,
   * and the Observe after each; `v` is what the first Observe that saw the profile left. Without a failed
   * call it gets to the end, and concludes as above.
   */
  method ReconcileAndObserve(c: External, mg: QualityProfile, n: nat)
    returns (done: bool, last: ExternalObservation, ghost v: View, ghost cycles: seq<Cycle>)
    modifies mg, c.rules, c.server
    ensures Extends(old(c.server.log), old(c.rules.log), c.server.log, c.rules.log)
    ensures NoFailure(c.server.log, |old(c.server.log)|, c.rules.log, |old(c.rules.log)|) ==> done
    ensures done ==>
              && v.spec.name == old(mg.spec.name) && v.spec.language == old(mg.spec.language)
              && v.spec.rules == v.rules.specs && Observed(v.rules) && old(c.server.log) <= v.log
              && if mg.externalName == old(mg.externalName) && old(c.server.key) == Some(mg.externalName) then
                   && v.shown == old(c.server.shown) && v.rules.active == old(c.server.active)
                   && v.log == old(c.server.log) + [ShowCall(mg.externalName, true)]
                 else
                   v.shown == ProfileShown(v.spec.name, v.spec.language, old(WantsDefault(mg.spec)))
    ensures done ==>
              && Seen(mg, c.server, last) && |cycles| == n
              && AllRounds(mg.externalName, v, cycles, ViewOf(mg, c.server))
    ensures done ==> DefaultFilledIn(old(mg.spec.default), v, n, c.server.shown.isDefault)
    ensures done ==> Concluded(mg.externalName, v, n, ViewOf(mg, c.server), last)
  {
    done, cycles := false, [];
    last := ObserveOrCreate(c, mg);
    v := ViewOf(mg, c.server);
    if !last.resourceExists {
      return;
    }
    done, last, cycles := Rounds(c, mg, last, n);
    if done {
      FinalDefault(old(mg.spec.default), v, n);
      Conclude(mg.externalName, v, cycles, ViewOf(mg, c.server), last);
    }
  }

  lemma FinalDefault(declared: Option<bool>, v: View, n: nat)
    requires v.spec.default == Some(if declared.Some? then declared.value else v.shown.isDefault)
    ensures DefaultFilledIn(declared, v, n, ShownAfter(v.shown, v.spec, n).isDefault)
  {
    if declared.None? {
      FilledInDefaultExactly(v.spec, v.shown, n);
    }
  }

  lemma Conclude(profile: string, v: View, cycles: seq<Cycle>, w: View, o: ExternalObservation)
    requires AllRounds(profile, v, cycles, w) && Observed(v.rules)
    requires o.upToDate <==> Satisfied(w.spec, w.shown, w.rules)
    ensures Concluded(profile, v, |cycles|, w, o)
  {
    FinalRules(profile, v.rules, cycles);
    FinalCalls(profile, v, cycles, w);
    if |cycles| > 1 {
      FieldsAfterUpdatesExactly(v.spec, v.shown, |cycles|);
    }
    if Satisfied(v.spec, v.shown, v.rules) {
      OnlyShows(profile, v, cycles);
    }
  }

  lemma FinalRules(profile: string, x: Scene, cycles: seq<Cycle>)
    requires Observed(x) && Cycles(profile, x, cycles) && AllErrorFree(cycles)
    ensures cycles != [] ==> Stale(End(x, cycles)) <= Stuck(x)
    ensures cycles != [] && Stuck(x) == {} ==> AllUpToDate(MapFor(End(x, cycles)))
  {
    if cycles != [] {
      StaleAfter(profile, x, cycles);
      assert Last(cycles) in cycles;
      NoFailedRules(Last(cycles).steps);
      NothingStale(End(x, cycles));
    }
  }
}
