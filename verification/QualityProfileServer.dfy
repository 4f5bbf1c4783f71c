/** The remote side: a server, as far as one quality profile is concerned. */
module QualityProfileServer {
  import opened Basics
  import opened QualityProfileRules
  import opened QualityProfileModel
  import opened QualityProfileTrace
  import opened QualityProfileTheory

  datatype ProfileShown = ProfileShown(name: string, language: string, isDefault: bool)

  /** A server that owns one profile. Every call may fail, and a failed call changes nothing. */
  class ProfileServer {
    var key: Option<string>
    var shown: ProfileShown
    var active: map<string, Active>
    ghost var log: seq<ProfileCall>

    constructor ()
      ensures key == None && log == []
    {
      key, shown, active, log := None, ProfileShown("", "", false), map[], [];
    }

    /** None stands for any error: the server is not `up`, or there is no such profile. */
    method Show(profile: string) returns (r: Option<ProfileShown>, ghost up: bool)
      modifies this`log
      ensures log == old(log) + [ShowCall(profile, up)]
      ensures r == if up && key == Some(profile) then Some(shown) else None
    {
      var ok := *;
      up := ok;
      log := log + [ShowCall(profile, up)];
      return if ok && key == Some(profile) then Some(shown) else None, up;
    }

    /** The key is the server's choice; a new profile may come with rules, but is not the default. */
    method CreateProfile(name: string, language: string) returns (created: Option<string>)
      modifies this
      ensures log == old(log) + [CreateCall(name, language, created.Some?)]
      ensures created.Some? ==>
                key == created != old(key) && created.value != "" && shown == ProfileShown(name, language, false)
      ensures created.None? ==> key == old(key) && shown == old(shown) && active == old(active)
    {
      var ok := *;
      log := log + [CreateCall(name, language, ok)];
      if !ok {
        return None;
      }
      var newKey := if key == Some("profile") then "profile+" else "profile";
      key, shown := Some(newKey), ProfileShown(name, language, false);
      return key;
    }

    /** Making another profile of the language the default takes the default away from this one. */
    method SetDefault(name: string, language: string) returns (ok: bool)
      modifies this`shown, this`log
      ensures log == old(log) + [DefaultCall(name, language, ok)]
      ensures shown == if ok && language == old(shown).language
                then old(shown).(isDefault := name == old(shown).name) else old(shown)
    {
      ok := *;
      log := log + [DefaultCall(name, language, ok)];
      if ok && language == shown.language {
        shown := shown.(isDefault := name == shown.name);
      }
    }

    method Rename(profile: string, name: string) returns (ok: bool)
      modifies this`shown, this`log
      ensures log == old(log) + [RenameCall(profile, name, ok)]
      ensures shown == if ok then old(shown).(name := name) else old(shown)
    {
      ok := *;
      log := log + [RenameCall(profile, name, ok)];
      if ok {
        shown := shown.(name := name);
      }
    }

    method DeactivateRule(profile: string, rule: string) returns (ok: bool)
      modifies this`active, this`log
      ensures log == old(log) + [DeactivateCall(profile, rule, ok)]
      ensures active == if ok then old(active) - {rule} else old(active)
    {
      ok := *;
      if ok {
        active := active - {rule};
      }
      log := log + [DeactivateCall(profile, rule, ok)];
    }

    method ActivateRule(q: ActivateRequest) returns (ok: bool, ghost stored: Active)
      modifies this`active, this`log
      ensures log == old(log) + [ActivateCall(q, ok)] && Completes(q, stored)
      ensures active == if ok then old(active)[q.rule := stored] else old(active)
    {
      var filled: Active := *;
      var written := Active(if q.severity != "" then q.severity else filled.severity, q.prioritized,
                            if q.impacts != map[] then q.impacts else filled.impacts,
                            if q.params != map[] then q.params else filled.params);
      stored := written;
      ok := *;
      if ok {
        active := active[q.rule := written];
      }
      log := log + [ActivateCall(q, ok)];
    }

    /**
     * What a rule search of this moment answers, page by page: the active rules of the profile, and for
     * some pages an error.
     */
    method Listing(profile: string) returns (respond: nat -> Response)
      ensures ListsInPages(respond, profile, active)
    {
      var all, actives := ListActive(profile, active);
      var down: set<nat> := *;
      respond := (p: nat) => if p in down then Error else PageOf(all, actives, p);
      ghost var whole := (p: nat) => PageOf(all, actives, p);
      PagesOfAll(all, actives, whole);
      assert ListsWhole(whole, all, actives, profile, active);
    }
  }

  method ListActive(profile: string, active: map<string, Active>) returns (all: seq<RuleDetails>, actives: Actives)
    ensures RuleKeys(all) == active.Keys && ListsActive(profile, actives, active, active.Keys)
  {
    all, actives := [], map[];
    var rest := active.Keys;
    while rest != {}
      invariant rest <= active.Keys && RuleKeys(all) == active.Keys - rest
      invariant ListsActive(profile, actives, active, active.Keys - rest)
      decreases |rest|
    {
      var k :| k in rest;
      rest := rest - {k};
      var own := ListActivation(profile, active[k]);
      var rule := RuleDetails(k, active[k].severity, []);
      RuleKeysSnoc(all, rule);
      ListsActiveSnoc(profile, actives, active, active.Keys - rest - {k}, k, own);
      all, actives := all + [rule], actives[k := own];
      assert active.Keys - rest - {k} + {k} == active.Keys - rest;
    }
    assert active.Keys - rest == active.Keys;
  }

  /** The activations of the rules in `keys`, and of no others, are as the server has them. */
  ghost predicate ListsActive(profile: string, actives: Actives, active: map<string, Active>, keys: set<string>) {
    && actives.Keys == keys && keys <= active.Keys
    && forall k <- keys :: ListsActivation(profile, actives[k], active[k])
  }

  lemma ListsActiveSnoc(profile: string, actives: Actives, active: map<string, Active>, keys: set<string>, k: string,
                        own: seq<Activation>)
    requires ListsActive(profile, actives, active, keys) && k in active && k !in keys
             && ListsActivation(profile, own, active[k])
    ensures ListsActive(profile, actives[k := own], active, keys + {k})
  {
  }

  function PageOf(all: seq<RuleDetails>, actives: Actives, p: nat): Response {
    if p == 0 then Error else Answer(Page(Some(Chunk(all, p)), actives, |all|))
  }

  lemma PagesOfAll(all: seq<RuleDetails>, actives: Actives, whole: nat -> Response)
    requires forall p: nat :: whole(p) == PageOf(all, actives, p)
    requires RuleKeys(all) == actives.Keys
    ensures ServesList(whole, all, |all|) && CarriesOwnActivations(whole, actives)
  {
  }

  /** The pages of a fixed rule list, with the activations of the profile's active rules and of no others. */
  ghost predicate ListsWhole(respond: nat -> Response, all: seq<RuleDetails>, actives: Actives, profile: string,
                             active: map<string, Active>)
  {
    && ServesList(respond, all, |all|) && CarriesOwnActivations(respond, actives)
    && RuleKeys(all) == active.Keys && ListsActive(profile, actives, active, active.Keys)
  }

  /** The pages answer as those of the whole search do, or fail. */
  ghost predicate FailsAtMost(respond: nat -> Response, whole: nat -> Response) {
    forall p: nat :: respond(p) == whole(p) || respond(p).Error?
  }

  /** A search over what is active, in which some pages may fail. */
  ghost predicate ListsInPages(respond: nat -> Response, profile: string, active: map<string, Active>) {
    exists whole: nat -> Response, all, actives ::
      ListsWhole(whole, all, actives, profile, active) && FailsAtMost(respond, whole)
  }

  function RuleKeys(all: seq<RuleDetails>): set<string> {
    set r <- all :: r.key
  }

  lemma RuleKeysSnoc(all: seq<RuleDetails>, r: RuleDetails)
    ensures RuleKeys(all + [r]) == RuleKeys(all) + {r.key}
  {
  }

  method ListActivation(profile: string, a: Active) returns (own: seq<Activation>)
    ensures ListsActivation(profile, own, a)
  {
    var impacts := ListImpacts(a.impacts);
    var params := ListParams(a.params);
    own := [Activation(profile, a.severity, a.prioritized, impacts, params)];
    assert Carries(own[0], profile, a);
  }

  method ListImpacts(m: map<string, string>) returns (impacts: seq<Impact>)
    ensures ListsImpacts(impacts, m)
  {
    impacts := [];
    var rest := m.Keys;
    while rest != {}
      invariant rest <= m.Keys
      invariant forall p <- impacts :: p.quality in m && m[p.quality] == p.severity
      invariant forall k <- m.Keys - rest :: Impact(k, m[k]) in impacts
      decreases |rest|
    {
      var k :| k in rest;
      rest := rest - {k};
      impacts := impacts + [Impact(k, m[k])];
    }
    forall k <- m ensures exists p <- impacts :: p.quality == k {
      assert Impact(k, m[k]) in impacts;
    }
  }

  method ListParams(m: map<string, string>) returns (params: seq<Param>)
    ensures ListsParams(params, m)
  {
    params := [];
    var rest := m.Keys;
    while rest != {}
      invariant rest <= m.Keys
      invariant forall p <- params :: p.key in m && m[p.key] == p.value
      invariant forall k <- m.Keys - rest :: Param(k, m[k]) in params
      decreases |rest|
    {
      var k :| k in rest;
      rest := rest - {k};
      params := params + [Param(k, m[k])];
    }
    forall k <- m ensures exists p <- params :: p.key == k {
      assert Param(k, m[k]) in params;
    }
  }

  // ---------- what such a search comes to ----------

  ghost predicate SameUpTo(respond: nat -> Response, whole: nat -> Response, p: nat) {
    forall q: nat | 1 <= q <= p :: respond(q) == whole(q)
  }

  lemma {:induction false} SamePages(respond: nat -> Response, whole: nat -> Response, p: nat)
    requires SameUpTo(respond, whole, p)
    ensures RulesUpTo(respond, p) == RulesUpTo(whole, p) && ActivesUpTo(respond, p) == ActivesUpTo(whole, p)
    ensures Stops(respond, p) <==> Stops(whole, p)
  {
    if p > 0 {
      SamePages(respond, whole, p - 1);
    }
  }

  /** A search over what is active ends. */
  lemma ListingStops(respond: nat -> Response, profile: string, active: map<string, Active>)
    requires ListsInPages(respond, profile, active)
    ensures exists p :: Stops(respond, p)
  {
    var whole: nat -> Response, all, actives :| ListsWhole(whole, all, actives, profile, active)
      && FailsAtMost(respond, whole);
    FixedListIsFetchedExactly(whole, all, 1);
    var end := PageCount(|all|);
    if SameUpTo(respond, whole, end) {
      SamePages(respond, whole, end);
      assert Stops(respond, end);
    } else {
      var q: nat :| 1 <= q <= end && respond(q) != whole(q);
      assert Stops(respond, q);
    }
  }

  lemma EndsAsWhole(respond: nat -> Response, whole: nat -> Response, last: nat)
    requires FailsAtMost(respond, whole) && StopsFirstAt(respond, last) && respond(last).Answer?
    ensures SameUpTo(respond, whole, last) && StopsFirstAt(whole, last)
  {
    forall q: nat | 1 <= q <= last ensures respond(q) == whole(q) {
      assert q < last ==> !Stops(respond, q);
    }
    forall q: nat | q <= last ensures Stops(respond, q) <==> Stops(whole, q) {
      assert SameUpTo(respond, whole, q);
      SamePages(respond, whole, q);
    }
  }

  lemma WholeIsObserved(whole: nat -> Response, all: seq<RuleDetails>, actives: Actives, profile: string,
                        active: map<string, Active>, last: nat)
    requires ListsWhole(whole, all, actives, profile, active) && StopsFirstAt(whole, last)
    ensures Reports(ObserveRules(profile, RulesUpTo(whole, last), ActivesUpTo(whole, last)), active)
  {
    PagedFetchObservesAll(profile, whole, all, actives);
    assert Fetched(whole, last).value.rules == all;
    assert forall k :: k in RuleKeys(all) <==> exists r <- all :: r.key == k;
    ListingReports(profile, all, actives, active);
  }

  /** If it ends without error, the observations built from it report exactly what is active. */
  lemma ListingIsObserved(respond: nat -> Response, profile: string, active: map<string, Active>, last: nat)
    requires ListsInPages(respond, profile, active) && StopsFirstAt(respond, last) && respond(last).Answer?
    ensures Reports(ObserveRules(profile, RulesUpTo(respond, last), ActivesUpTo(respond, last)), active)
  {
    var whole: nat -> Response, all, actives :| ListsWhole(whole, all, actives, profile, active)
      && FailsAtMost(respond, whole);
    EndsAsWhole(respond, whole, last);
    SamePages(respond, whole, last);
    WholeIsObserved(whole, all, actives, profile, active, last);
  }
}
