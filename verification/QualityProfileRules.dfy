/**
 * Active rules of a quality profile: the paginated search, the observations built from its result,
 * and the comparison of a declared rule with an observed one.
 */
module QualityProfileRules {
  import opened Basics

  datatype Impact = Impact(quality: string, severity: string)
  datatype Param = Param(key: string, value: string)
  datatype Activation =
    Activation(profile: string, severity: string, prioritized: bool, impacts: seq<Impact>, params: seq<Param>)
  datatype RuleDetails = RuleDetails(key: string, severity: string, impacts: seq<Impact>)

  type Actives = map<string, seq<Activation>>

  /** `rules` is None when the response carries no rule list at all. */
  datatype Page = Page(rules: Option<seq<RuleDetails>>, actives: Actives, total: int)

  datatype Response = Error | Answer(page: Page)

  datatype RulesSearch =
    RulesSearch(rules: seq<RuleDetails>, actives: Actives, pageIndex: nat, pageSize: nat, total: int)

  datatype RuleObservation =
    RuleObservation(key: string, severity: string, prioritized: bool, impacts: seq<Impact>, params: map<string, string>)

  // ---------- fetching pages ----------

  const MAX_RULES_PER_PAGE := 500

  function PageRules(response: Response): seq<RuleDetails> {
    if response.Answer? && response.page.rules.Some? then response.page.rules.value else []
  }

  function PageActives(response: Response): Actives {
    if response.Answer? && response.page.rules.Some? then response.page.actives else map[]
  }

  function At(a: Actives, key: string): seq<Activation> {
    if key in a then a[key] else []
  }

  /** Per rule key, the activations of `a` followed by those of `b`. */
  function Merge(a: Actives, b: Actives): Actives {
    map k <- a.Keys + b.Keys :: At(a, k) + At(b, k)
  }

  /** For each rule the activations of `a` come first, then those of `b`. */
  lemma MergeInOrder(a: Actives, b: Actives, k: string)
    ensures k in Merge(a, b) <==> k in a || k in b
    ensures At(Merge(a, b), k) == At(a, k) + At(b, k)
  {
  }

  lemma MergeNothing(a: Actives)
    ensures Merge(a, map[]) == a
  {
    assert forall k <- a :: At(a, k) + At(map[], k) == a[k];
  }

  /** The rules and activations collected from pages 1 to `p`; page numbers start at 1. */
  function RulesUpTo(respond: nat -> Response, p: nat): seq<RuleDetails> {
    if p == 0 then [] else RulesUpTo(respond, p - 1) + PageRules(respond(p))
  }

  function ActivesUpTo(respond: nat -> Response, p: nat): Actives {
    if p == 0 then map[] else Merge(ActivesUpTo(respond, p - 1), PageActives(respond(p)))
  }

  /** A page without a rule list adds nothing, even if it carries activations. */
  lemma NoListAddsNothing(respond: nat -> Response, p: nat)
    requires p >= 1 && respond(p).Answer? && respond(p).page.rules.None?
    ensures RulesUpTo(respond, p) == RulesUpTo(respond, p - 1) && ActivesUpTo(respond, p) == ActivesUpTo(respond, p - 1)
  {
    MergeNothing(ActivesUpTo(respond, p - 1));
  }

  predicate Stops(respond: nat -> Response, p: nat) {
    p >= 1 && (respond(p).Error? || |RulesUpTo(respond, p)| >= respond(p).page.total)
  }

  predicate StopsFirstAt(respond: nat -> Response, p: nat) {
    Stops(respond, p) && forall q: nat | q < p :: !Stops(respond, q)
  }

  /** What the search returns when it stops at page `p`. */
  function Fetched(respond: nat -> Response, p: nat): Option<RulesSearch> {
    if respond(p).Error? then None
    else
      var rules := RulesUpTo(respond, p);
      Some(RulesSearch(rules, ActivesUpTo(respond, p), p, |rules|, respond(p).page.total))
  }

  datatype SearchRequest = SearchRequest(profile: string, activated: bool, page: nat, pageSize: nat)

  /** Asks for rules that are activated in the profile, as many as a page may have. */
  function SearchFor(profile: string, page: nat): SearchRequest {
    SearchRequest(profile, true, page, MAX_RULES_PER_PAGE)
  }

  /** The result counts all rules collected, and names the page that completed the reported total. */
  lemma FetchedCounts(respond: nat -> Response, p: nat)
    ensures Fetched(respond, p).Some? <==> respond(p).Answer?
    ensures Fetched(respond, p).Some? && Stops(respond, p) ==>
              var r := Fetched(respond, p).value;
              && r.pageIndex == p && r.pageSize == |r.rules| >= r.total && r.total == respond(p).page.total
  {
  }

  /** One search call and its answer. */
  datatype Searched = Searched(request: SearchRequest, response: Response)

  /** The calls for pages 1 to `p`. */
  function Searches(profile: string, respond: nat -> Response, p: nat): seq<Searched> {
    if p == 0 then [] else Searches(profile, respond, p - 1) + [Searched(SearchFor(profile, p), respond(p))]
  }

  /** The pages are asked for one by one from the first, 500 activated rules of the profile at a time. */
  lemma {:induction false} SearchesInOrder(profile: string, respond: nat -> Response, p: nat)
    ensures var made := Searches(profile, respond, p);
            && |made| == p
            && forall i | 0 <= i < p :: made[i] == Searched(SearchRequest(profile, true, i + 1, 500), respond(i + 1))
  {
    if p > 0 {
      SearchesInOrder(profile, respond, p - 1);
    }
  }

  /**
   * A server during one fetch. Every page is asked for at most once, so any server, however its
   * answers change over time, is a function from page numbers to responses.
   */
  class RulesClient {
    var respond: nat -> Response
    ghost var log: seq<Searched>

    constructor (respond: nat -> Response)
      ensures this.respond == respond && log == []
    {
      this.respond := respond;
      log := [];
    }

    method Search(request: SearchRequest) returns (response: Response)
      modifies this`log
      ensures response == respond(request.page) && log == old(log) + [Searched(request, response)]
    {
      response := respond(request.page);
      log := log + [Searched(request, response)];
    }
  }

  ghost predicate Collected(respond: nat -> Response, p: nat, rules: seq<RuleDetails>, actives: Actives) {
    rules == RulesUpTo(respond, p) && actives == ActivesUpTo(respond, p)
  }

  /**
   * Terminates exactly when some page is an error or completes the reported total, and stops at the first
   * such page.
   */
  method FetchAllQualityProfileRules(client: RulesClient, profile: string)
    returns (r: Option<RulesSearch>, ghost last: nat)
    requires exists p :: Stops(client.respond, p)
    modifies client`log
    ensures StopsFirstAt(client.respond, last) && r == Fetched(client.respond, last)
    ensures client.log == old(client.log) + Searches(profile, client.respond, last)
  {
    ghost var bound: nat :| Stops(client.respond, bound);
    var allRules: seq<RuleDetails>, allActives: Actives, page := [], map[], 1;
    while true
      invariant 1 <= page <= bound
      invariant Collected(client.respond, page - 1, allRules, allActives)
      invariant forall q: nat | q < page :: !Stops(client.respond, q)
      invariant client.log == old(client.log) + Searches(profile, client.respond, page - 1)
      decreases bound - page
    {
      var response := client.Search(SearchFor(profile, page));
      last := page;
      if response.Error? {
        return None, last;
      }
      if response.page.rules.Some? {
        allRules := allRules + response.page.rules.value;
        allActives := AppendActives(allActives, response.page.actives);
      } else {
        MergeNothing(allActives);
        assert allRules + [] == allRules;
      }
      assert Collected(client.respond, page, allRules, allActives);
      if |allRules| >= response.page.total {
        return Some(RulesSearch(allRules, allActives, page, |allRules|, response.page.total)), last;
      }
      page := page + 1;
    }
  }

  /** The lists of `a`, with those of `b` appended but for the keys in `rest`. */
  function MergeBut(a: Actives, b: Actives, rest: set<string>): Actives {
    map k <- a.Keys + (b.Keys - rest) :: if k in rest then At(a, k) else At(a, k) + At(b, k)
  }

  lemma MergeButAll(a: Actives, b: Actives)
    ensures MergeBut(a, b, b.Keys) == a
  {
    forall k <- a ensures k !in b ==> At(a, k) + At(b, k) == At(a, k) {}
  }

  lemma MergeButOneLess(a: Actives, b: Actives, rest: set<string>, key: string)
    requires rest <= b.Keys && key in rest
    ensures var r := MergeBut(a, b, rest); r[key := At(r, key) + b[key]] == MergeBut(a, b, rest - {key})
  {
  }

  lemma MergeButNone(a: Actives, b: Actives)
    ensures MergeBut(a, b, {}) == Merge(a, b)
  {
  }

  method AppendActives(a: Actives, b: Actives) returns (r: Actives)
    ensures r == Merge(a, b)
  {
    r := a;
    var rest := b.Keys;
    MergeButAll(a, b);
    while rest != {}
      invariant rest <= b.Keys && r == MergeBut(a, b, rest)
      decreases |rest|
    {
      var key :| key in rest;
      MergeButOneLess(a, b, rest, key);
      rest := rest - {key};
      r := r[key := At(r, key) + b[key]];
    }
    MergeButNone(a, b);
  }

  // ---------- a server with a fixed list ----------

  function Min(a: nat, b: nat): nat { if a <= b then a else b }

  /** Page `p` of a list of rules. */
  function Chunk(all: seq<RuleDetails>, p: nat): seq<RuleDetails>
    requires p >= 1
  {
    all[Min((p - 1) * MAX_RULES_PER_PAGE, |all|)..Min(p * MAX_RULES_PER_PAGE, |all|)]
  }

  /** The server holds the list `all` and reports `total`; an empty page may lack its rule list. */
  ghost predicate ServesList(respond: nat -> Response, all: seq<RuleDetails>, total: int) {
    forall p: nat | p >= 1 ::
      respond(p).Answer? && respond(p).page.total == total && PageRules(respond(p)) == Chunk(all, p)
  }

  function PageCount(n: nat): nat {
    if n == 0 then 1 else (n + MAX_RULES_PER_PAGE - 1) / MAX_RULES_PER_PAGE
  }

  lemma {:induction false} FetchedPrefix(respond: nat -> Response, all: seq<RuleDetails>, total: int, p: nat)
    requires ServesList(respond, all, total)
    ensures RulesUpTo(respond, p) == all[..Min(p * MAX_RULES_PER_PAGE, |all|)]
  {
    if p != 0 {
      FetchedPrefix(respond, all, total, p - 1);
    }
  }

  /** A fixed list of n rules takes exactly max(1, ceil(n/500)) searches and comes back in order, each rule once. */
  lemma FixedListIsFetchedExactly(respond: nat -> Response, all: seq<RuleDetails>, p: nat)
    requires ServesList(respond, all, |all|)
    ensures StopsFirstAt(respond, p) <==> p == PageCount(|all|)
    ensures Stops(respond, PageCount(|all|)) && RulesUpTo(respond, PageCount(|all|)) == all
  {
    forall q: nat ensures Stops(respond, q) <==> q >= PageCount(|all|) {
      FetchedPrefix(respond, all, |all|, q);
      assert q >= PageCount(|all|) <==> q >= 1 && q * MAX_RULES_PER_PAGE >= |all|;
    }
    FetchedPrefix(respond, all, |all|, PageCount(|all|));
    assert Stops(respond, PageCount(|all|));
  }

  /** The loop ends exactly when the reported total does not exceed the rules there are to fetch. */
  lemma FetchTerminatesExactly(respond: nat -> Response, all: seq<RuleDetails>, total: int)
    requires ServesList(respond, all, total)
    ensures (exists p :: Stops(respond, p)) <==> total <= |all|
  {
    if total <= |all| {
      FetchedPrefix(respond, all, total, PageCount(|all|));
      assert Stops(respond, PageCount(|all|));
    } else {
      forall p: nat ensures !Stops(respond, p) {
        FetchedPrefix(respond, all, total, p);
      }
    }
  }

  // ---------- observations ----------

  function ParamMap(params: seq<Param>): map<string, string> {
    if params == [] then map[] else ParamMap(Init(params))[Last(params).key := Last(params).value]
  }

  function ImpactMap(impacts: seq<Impact>): map<string, string> {
    if impacts == [] then map[] else ImpactMap(Init(impacts))[Last(impacts).quality := Last(impacts).severity]
  }

  /** Of several parameters with one key the last decides. */
  lemma {:induction false} LastParamWins(params: seq<Param>, k: string)
    ensures k in ParamMap(params) <==> exists p <- params :: p.key == k
    ensures forall i | 0 <= i < |params| && params[i].key == k && (forall j | i < j < |params| :: params[j].key != k) ::
              ParamMap(params)[k] == params[i].value
  {
    if params != [] {
      assert params == Init(params) + [Last(params)];
      LastParamWins(Init(params), k);
    }
  }

  /** And of several impacts on one software quality. */
  lemma {:induction false} LastImpactWins(impacts: seq<Impact>, k: string)
    ensures k in ImpactMap(impacts) <==> exists p <- impacts :: p.quality == k
    ensures forall i | 0 <= i < |impacts| && impacts[i].quality == k
                       && (forall j | i < j < |impacts| :: impacts[j].quality != k) ::
              ImpactMap(impacts)[k] == impacts[i].severity
  {
    if impacts != [] {
      assert impacts == Init(impacts) + [Last(impacts)];
      LastImpactWins(Init(impacts), k);
    }
  }

  /** The first activation that belongs to the profile. */
  function OwnActivation(profile: string, activations: seq<Activation>): Option<Activation> {
    if activations == [] then None
    else if activations[0].profile == profile then Some(activations[0])
    else OwnActivation(profile, activations[1..])
  }

  function ObserveRule(profile: string, rule: RuleDetails, actives: Actives): RuleObservation {
    var own := OwnActivation(profile, At(actives, rule.key));
    if own.None? then RuleObservation(rule.key, rule.severity, false, rule.impacts, map[])
    else RuleObservation(rule.key, own.value.severity, own.value.prioritized, own.value.impacts,
                         ParamMap(own.value.params))
  }

  /**
   * A rule shows its first activation in the profile; without one, whatever other profiles have, it shows
   * its own severity and impacts, no parameters, and is not prioritized.
   */
  lemma {:induction false} ObservedRule(profile: string, rule: RuleDetails, actives: Actives)
    ensures var o, all := ObserveRule(profile, rule, actives), At(actives, rule.key);
            && o.key == rule.key
            && ((forall x <- all :: x.profile != profile) ==>
                  o.severity == rule.severity && !o.prioritized && o.impacts == rule.impacts && o.params == map[])
            && (forall i | 0 <= i < |all| && all[i].profile == profile
                           && (forall j | 0 <= j < i :: all[j].profile != profile) ::
                  && o.severity == all[i].severity && o.prioritized == all[i].prioritized
                  && o.impacts == all[i].impacts && o.params == ParamMap(all[i].params))
  {
    var all := At(actives, rule.key);
    NoOwnActivation(profile, all);
    forall i | 0 <= i < |all| && all[i].profile == profile && (forall j | 0 <= j < i :: all[j].profile != profile)
      ensures OwnActivation(profile, all) == Some(all[i])
    {
      OwnActivationIsFirst(profile, all, i);
    }
  }

  lemma {:induction false} NoOwnActivation(profile: string, activations: seq<Activation>)
    ensures OwnActivation(profile, activations).None? <==> forall x <- activations :: x.profile != profile
  {
    if activations != [] {
      assert activations == [activations[0]] + activations[1..];
      NoOwnActivation(profile, activations[1..]);
    }
  }

  lemma {:induction false} OwnActivationIsFirst(profile: string, activations: seq<Activation>, n: nat)
    requires n < |activations| && activations[n].profile == profile
    requires forall i | 0 <= i < n :: activations[i].profile != profile
    ensures OwnActivation(profile, activations) == Some(activations[n])
  {
    if n > 0 {
      OwnActivationIsFirst(profile, activations[1..], n - 1);
    }
  }

  function ObserveRules(profile: string, rules: seq<RuleDetails>, actives: Actives): seq<RuleObservation> {
    seq(|rules|, i requires 0 <= i < |rules| => ObserveRule(profile, rules[i], actives))
  }

  method FindActiveRuleSettings(profile: string, activations: seq<Activation>)
    returns (own: Option<Activation>, params: map<string, string>)
    ensures own == OwnActivation(profile, activations)
    ensures own.Some? ==> params == ParamMap(own.value.params)
  {
    params := map[];
    for i := 0 to |activations|
      invariant OwnActivation(profile, activations) == OwnActivation(profile, activations[i..])
    {
      var active := activations[i];
      if active.profile == profile {
        params := map[];
        for n := 0 to |active.params|
          invariant params == ParamMap(active.params[..n])
        {
          params := params[active.params[n].key := active.params[n].value];
          assert Init(active.params[..n + 1]) == active.params[..n];
        }
        assert active.params[..|active.params|] == active.params;
        return Some(active), params;
      }
      assert activations[i..][1..] == activations[i + 1..];
    }
    return None, params;
  }

  method GenerateRulesObservation(profile: string, search: RulesSearch) returns (obs: seq<RuleObservation>)
    ensures obs == ObserveRules(profile, search.rules, search.actives)
  {
    obs := [];
    for i := 0 to |search.rules|
      invariant obs == ObserveRules(profile, search.rules[..i], search.actives)
    {
      var rule := search.rules[i];
      var activations := if rule.key in search.actives then search.actives[rule.key] else [];
      var own, params := FindActiveRuleSettings(profile, activations);
      var o := RuleObservation(rule.key, rule.severity, false, rule.impacts, map[]);
      if own.Some? {
        o := RuleObservation(rule.key, own.value.severity, own.value.prioritized, own.value.impacts, params);
      }
      obs := obs + [o];
    }
    assert search.rules[..|search.rules|] == search.rules;
  }

  // ---------- paging does not change meaning ----------

  /** Each page carries the activations of at least the rules on that page, as `a` lists them. */
  ghost predicate CarriesOwnActivations(respond: nat -> Response, a: Actives) {
    forall p: nat | p >= 1 ::
      && (forall k <- PageActives(respond(p)) :: k in a && PageActives(respond(p))[k] == a[k])
      && (forall r <- PageRules(respond(p)) :: r.key in a ==> r.key in PageActives(respond(p)))
  }

  lemma {:induction false} OwnActivationOfConcat(profile: string, xs: seq<Activation>, ys: seq<Activation>)
    ensures OwnActivation(profile, xs + ys) ==
            if OwnActivation(profile, xs).Some? then OwnActivation(profile, xs) else OwnActivation(profile, ys)
  {
    if xs == [] {
      assert xs + ys == ys;
    } else {
      assert (xs + ys)[1..] == xs[1..] + ys;
      OwnActivationOfConcat(profile, xs[1..], ys);
    }
  }

  /** The profile's own activation of a rule on page `p`, and on pages 1 to `p` together. */
  function OwnOnPage(profile: string, respond: nat -> Response, p: nat, k: string): Option<Activation> {
    OwnActivation(profile, At(PageActives(respond(p)), k))
  }

  function OwnUpTo(profile: string, respond: nat -> Response, p: nat, k: string): Option<Activation> {
    OwnActivation(profile, At(ActivesUpTo(respond, p), k))
  }

  lemma OwnNext(profile: string, respond: nat -> Response, p: nat, k: string)
    ensures OwnUpTo(profile, respond, 0, k).None?
    ensures p > 0 ==>
              OwnUpTo(profile, respond, p, k) ==
                if OwnUpTo(profile, respond, p - 1, k).Some? then OwnUpTo(profile, respond, p - 1, k)
                else OwnOnPage(profile, respond, p, k)
  {
    if p > 0 {
      MergeInOrder(ActivesUpTo(respond, p - 1), PageActives(respond(p)), k);
      OwnActivationOfConcat(profile, At(ActivesUpTo(respond, p - 1), k), At(PageActives(respond(p)), k));
    }
  }

  /** Of the pages that list an activation in the profile for a rule, the first decides. */
  lemma {:induction false} FirstPageDecides(profile: string, respond: nat -> Response, p: nat, k: string)
    ensures OwnUpTo(profile, respond, p, k).None? <==>
            forall e: nat | 1 <= e <= p :: OwnOnPage(profile, respond, e, k).None?
    ensures forall q: nat | 1 <= q <= p && OwnOnPage(profile, respond, q, k).Some?
                            && (forall e: nat | 1 <= e < q :: OwnOnPage(profile, respond, e, k).None?) ::
              OwnUpTo(profile, respond, p, k) == OwnOnPage(profile, respond, q, k)
  {
    OwnNext(profile, respond, p, k);
    if p > 0 {
      FirstPageDecides(profile, respond, p - 1, k);
    }
  }

  lemma {:induction false} CollectedActivations(profile: string, respond: nat -> Response, a: Actives, p: nat)
    requires CarriesOwnActivations(respond, a)
    ensures var got := ActivesUpTo(respond, p);
            && (forall k <- got :: k in a && OwnActivation(profile, got[k]) == OwnActivation(profile, a[k]))
            && (forall r <- RulesUpTo(respond, p) :: r.key in a ==> r.key in got)
  {
    if p != 0 {
      CollectedActivations(profile, respond, a, p - 1);
      var before, page := ActivesUpTo(respond, p - 1), PageActives(respond(p));
      forall k <- before.Keys + page.Keys
        ensures OwnActivation(profile, At(before, k) + At(page, k)) == OwnActivation(profile, At(a, k))
      {
        OwnActivationOfConcat(profile, At(before, k), At(page, k));
      }
    }
  }

  /**
   * However a rule list is cut into pages, and even if a rule shows up on several of them, the
   * observations are those of the single response that lists everything at once.
   */
  lemma PagingKeepsMeaning(profile: string, respond: nat -> Response, p: nat, a: Actives)
    requires CarriesOwnActivations(respond, a)
    ensures ObserveRules(profile, RulesUpTo(respond, p), ActivesUpTo(respond, p))
              == ObserveRules(profile, RulesUpTo(respond, p), a)
  {
    var rules, got := RulesUpTo(respond, p), ActivesUpTo(respond, p);
    CollectedActivations(profile, respond, a, p);
    forall i | 0 <= i < |rules| ensures ObserveRule(profile, rules[i], got) == ObserveRule(profile, rules[i], a) {
      assert rules[i] in rules;
    }
  }

  /** End to end: the paged fetch of a fixed list observes exactly what one big response would. */
  lemma PagedFetchObservesAll(profile: string, respond: nat -> Response, all: seq<RuleDetails>, a: Actives)
    requires ServesList(respond, all, |all|) && CarriesOwnActivations(respond, a)
    ensures forall last | StopsFirstAt(respond, last) ::
              var r := Fetched(respond, last);
              && r.Some? && r.value.rules == all && r.value.pageSize == r.value.total == |all|
              && r.value.pageIndex == PageCount(|all|)
              && ObserveRules(profile, r.value.rules, r.value.actives) == ObserveRules(profile, all, a)
  {
    forall last | StopsFirstAt(respond, last)
      ensures var r := Fetched(respond, last);
              && r.Some? && r.value.rules == all && r.value.pageSize == r.value.total == |all|
              && r.value.pageIndex == PageCount(|all|)
              && ObserveRules(profile, r.value.rules, r.value.actives) == ObserveRules(profile, all, a)
    {
      FixedListIsFetchedExactly(respond, all, last);
      PagingKeepsMeaning(profile, respond, last, a);
    }
  }
}
