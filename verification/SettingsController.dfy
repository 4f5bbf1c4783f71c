/** The settings external client and the guarantees of whole reconciles. */
module SettingsController {
  import opened Basics
  import opened Settings

  class SettingsResource {
    var spec: SettingsParameters
    var deleting: bool
    var status: SettingsObservation

    constructor (spec: SettingsParameters)
      ensures this.spec == spec && !deleting
    {
      this.spec, deleting, status := spec, false, map[];
    }
  }

  // ---------- observation ----------

  function ObservationOf(v: SettingValue): SettingObservation {
    SettingObservation(v.value, v.values, MergeFields(v.fieldValues))
  }

  function ObservationsOf(listed: seq<SettingValue>): SettingsObservation {
    if listed == [] then map[] else ObservationsOf(Init(listed))[Last(listed).key := ObservationOf(Last(listed))]
  }

  /** Of several settings with one key the last is kept, with its field values merged. */
  lemma {:induction false} ObservationsLastWins(listed: seq<SettingValue>, k: string)
    ensures k in ObservationsOf(listed) <==> exists v <- listed :: v.key == k
    ensures forall i | 0 <= i < |listed| && listed[i].key == k && (forall j | i < j < |listed| :: listed[j].key != k) ::
              ObservationsOf(listed)[k]
                == SettingObservation(listed[i].value, listed[i].values, MergeFields(listed[i].fieldValues))
  {
    if listed != [] {
      assert listed == Init(listed) + [Last(listed)];
      ObservationsLastWins(Init(listed), k);
    }
  }

  method GenerateSettingObservation(v: SettingValue) returns (o: SettingObservation)
    ensures o == ObservationOf(v)
  {
    var fieldValues: StringMap := map[];
    for i := 0 to |v.fieldValues|
      invariant fieldValues == MergeFields(v.fieldValues[..i])
    {
      fieldValues := fieldValues + v.fieldValues[i];
      assert Init(v.fieldValues[..i + 1]) == v.fieldValues[..i];
    }
    assert v.fieldValues[..|v.fieldValues|] == v.fieldValues;
    return SettingObservation(v.value, v.values, fieldValues);
  }

  method GenerateSettingsObservation(listed: seq<SettingValue>) returns (o: SettingsObservation)
    ensures o == ObservationsOf(listed)
  {
    o := map[];
    for i := 0 to |listed|
      invariant o == ObservationsOf(listed[..i])
    {
      var setting := GenerateSettingObservation(listed[i]);
      o := o[listed[i].key := setting];
      assert Init(listed[..i + 1]) == listed[..i];
    }
    assert listed[..|listed|] == listed;
  }

  method AreSettingsUpToDateLoop(p: SettingsParameters, o: SettingsObservation) returns (upToDate: bool)
    ensures upToDate == AreSettingsUpToDate(p, o)
  {
    var rest := p.settings.Keys;
    while rest != {}
      invariant rest <= p.settings.Keys
      invariant forall k <- p.settings :: k !in rest ==> k in o && IsSettingUpToDate(p.settings[k], o[k])
      decreases |rest|
    {
      var k :| k in rest;
      rest := rest - {k};
      if k !in o || !IsSettingUpToDate(p.settings[k], o[k]) {
        return false;
      }
    }
    return true;
  }

  method KeysOf(m: map<string, SettingSpec>) returns (keys: seq<string>)
    ensures Enumerates(keys, m.Keys)
  {
    keys := [];
    var rest := m.Keys;
    while rest != {}
      invariant rest <= m.Keys && Enumerates(keys, m.Keys - rest)
      decreases |rest|
    {
      var k :| k in rest;
      rest := rest - {k};
      keys := keys + [k];
    }
  }

  // ---------- traces of Set calls ----------

  datatype SetStep = SetStep(key: string, ok: bool)

  function StepKeys(steps: seq<SetStep>): seq<string> {
    seq(|steps|, n requires 0 <= n < |steps| => steps[n].key)
  }

  function StoreAfter(p: SettingsParameters, store: Store, steps: seq<SetStep>): Store {
    if steps == [] then store
    else
      var before, s := StoreAfter(p, store, Init(steps)), Last(steps);
      if s.ok && s.key in p.settings
      then before[(OrEmpty(p.component), s.key) := StoredBy(RequestFor(s.key, p.settings[s.key], p.component))]
      else before
  }

  function CallsOf(p: SettingsParameters, steps: seq<SetStep>): seq<Call> {
    if steps == [] then []
    else
      var s := Last(steps);
      CallsOf(p, Init(steps)) +
      if s.key in p.settings then [Call.Set(RequestFor(s.key, p.settings[s.key], p.component), s.ok)] else []
  }

  function Failures(steps: seq<SetStep>): nat {
    if steps == [] then 0 else Failures(Init(steps)) + if Last(steps).ok then 0 else 1
  }

  lemma SetSnoc(p: SettingsParameters, store: Store, steps: seq<SetStep>, s: SetStep)
    requires s.key in p.settings
    ensures var q := RequestFor(s.key, p.settings[s.key], p.component);
            && StoreAfter(p, store, steps + [s]) ==
                 (if s.ok then StoreAfter(p, store, steps)[(OrEmpty(p.component), s.key) := StoredBy(q)]
                    else StoreAfter(p, store, steps))
            && CallsOf(p, steps + [s]) == CallsOf(p, steps) + [Call.Set(q, s.ok)]
    ensures Failures(steps + [s]) == Failures(steps) + if s.ok then 0 else 1
    ensures StepKeys(steps + [s]) == StepKeys(steps) + [s.key]
  {
  }

  /** The Set calls made while the keys in `rest` are still to be visited. */
  ghost predicate Progress(p: SettingsParameters, todo: set<string>, rest: set<string>, before: Store, log: seq<Call>,
                           steps: seq<SetStep>, store: Store, log': seq<Call>) {
    && Enumerates(StepKeys(steps), todo - rest)
    && store == StoreAfter(p, before, steps) && log' == log + CallsOf(p, steps)
  }

  lemma WorkedOff(order: seq<string>, todo: set<string>, rest: set<string>, key: string)
    requires Enumerates(order, todo - rest) && key in todo && key in rest
    ensures Enumerates(order + [key], todo - (rest - {key}))
  {
  }

  datatype SettingsError = CannotSet(key: string) | CannotReset

  /** One error for each Set that failed, and it names the key. */
  ghost predicate Reported(errs: seq<SettingsError>, steps: seq<SetStep>) {
    |errs| == Failures(steps) && forall e :: e in errs <==> e.CannotSet? && SetStep(e.key, false) in steps
  }

  lemma ReportedSnoc(errs: seq<SettingsError>, steps: seq<SetStep>, s: SetStep)
    requires Reported(errs, steps)
    ensures Reported(if s.ok then errs else errs + [CannotSet(s.key)], steps + [s])
  {
    assert Init(steps + [s]) == steps;
  }

  datatype ExternalObservation = ExternalObservation(resourceExists: bool, upToDate: bool)

  /** One more call: a listing of the declared keys, in some order. */
  ghost predicate AsksFor(p: SettingsParameters, before: seq<Call>, after: seq<Call>, ok: bool) {
    && after != [] && after == before + [Last(after)] && Last(after).Values? && Last(after).ok == ok
    && Last(after).component == OrEmpty(p.component) && Enumerates(Last(after).keys, p.settings.Keys)
  }

  class External {
    const server: SettingsServer

    constructor (server: SettingsServer)
      ensures this.server == server
    {
      this.server := server;
    }

    /** A resource being deleted is reported as absent without asking the server. */
    method Observe(mg: SettingsResource) returns (o: ExternalObservation, failed: bool)
      modifies mg`status, server`log
      ensures mg.deleting ==> !o.resourceExists && !failed && server.log == old(server.log)
      ensures !mg.deleting ==> AsksFor(mg.spec, old(server.log), server.log, !failed)
      ensures !o.resourceExists ==> mg.status == old(mg.status) && !o.upToDate
      ensures o.resourceExists <==> !mg.deleting && !failed
      ensures o.resourceExists ==>
                && IsStatusOf(mg.spec, server.store, mg.status)
                && o.upToDate == AreSettingsUpToDate(mg.spec, mg.status)
    {
      if mg.deleting {
        return ExternalObservation(false, false), false;
      }
      var keys := KeysOf(mg.spec.settings);
      assert Elements(keys) == mg.spec.settings.Keys;
      var listed := server.Values(OrEmpty(mg.spec.component), keys);
      if listed.None? {
        return ExternalObservation(false, false), true;
      }
      var observed := GenerateSettingsObservation(listed.value);
      mg.status := observed;
      var upToDate := AreSettingsUpToDateLoop(mg.spec, mg.status);
      return ExternalObservation(true, upToDate), false;
    }

    method UpdateOutOfDateSettings(mg: SettingsResource) returns (errs: seq<SettingsError>, ghost steps: seq<SetStep>)
      modifies server
      ensures Enumerates(StepKeys(steps), ToSet(mg.spec, mg.status)) && Reported(errs, steps)
      ensures server.store == StoreAfter(mg.spec, old(server.store), steps)
      ensures server.log == old(server.log) + CallsOf(mg.spec, steps)
    {
      errs, steps := [], [];
      var p, rest := mg.spec, mg.spec.settings.Keys;
      ghost var todo := ToSet(mg.spec, mg.status);
      assert todo - rest == {};
      while rest != {}
        invariant rest <= p.settings.Keys && Reported(errs, steps)
        invariant Progress(p, todo, rest, old(server.store), old(server.log), steps, server.store, server.log)
        decreases |rest|
      {
        var key :| key in rest;
        var current := if key in mg.status then mg.status[key] else ZERO;
        if !IsSettingUpToDate(p.settings[key], current) {
          var ok := server.Set(RequestFor(key, p.settings[key], p.component));
          SetSnoc(p, old(server.store), steps, SetStep(key, ok));
          WorkedOff(StepKeys(steps), todo, rest, key);
          ReportedSnoc(errs, steps, SetStep(key, ok));
          steps := steps + [SetStep(key, ok)];
          if !ok {
            errs := errs + [CannotSet(key)];
          }
        } else {
          assert todo - rest == todo - (rest - {key});
        }
        rest := rest - {key};
      }
      assert todo - rest == todo;
    }

    /** One Reset call for all observed keys nobody declares, and none when there are none. */
    method ResetObsoleteSettings(mg: SettingsResource) returns (errs: seq<SettingsError>, ghost keys: seq<string>)
      modifies server
      ensures Enumerates(keys, ToReset(mg.spec, mg.status))
      ensures forall k :: k in keys <==> k in mg.status && k !in mg.spec.settings
      ensures keys == [] ==> server.store == old(server.store) && server.log == old(server.log) && errs == []
      ensures keys != [] ==>
                && server.log == old(server.log) + [Reset(OrEmpty(mg.spec.component), keys, errs == [])]
                && server.store == (if errs != [] then old(server.store)
                                    else old(server.store) - (set k <- keys :: (OrEmpty(mg.spec.component), k)))
                && (errs == [] || errs == [CannotReset])
    {
      errs, keys := [], [];
      var obsolete: seq<string> := [];
      var rest := mg.status.Keys;
      while rest != {}
        invariant rest <= mg.status.Keys && Enumerates(obsolete, ToReset(mg.spec, mg.status) - rest)
        decreases |rest|
      {
        var key :| key in rest;
        rest := rest - {key};
        if key !in mg.spec.settings {
          obsolete := obsolete + [key];
        }
      }
      keys := obsolete;
      if |obsolete| > 0 {
        var ok := server.Reset(OrEmpty(mg.spec.component), obsolete);
        if !ok {
          errs := [CannotReset];
        }
      }
    }

    method Update(mg: SettingsResource)
      returns (errs: seq<SettingsError>, ghost steps: seq<SetStep>, ghost resets: seq<string>)
      modifies server
      ensures Enumerates(StepKeys(steps), ToSet(mg.spec, mg.status)) && Enumerates(resets, ToReset(mg.spec, mg.status))
      ensures resets == [] ==>
                && server.store == StoreAfter(mg.spec, old(server.store), steps)
                && server.log == old(server.log) + CallsOf(mg.spec, steps) && Reported(errs, steps)
      ensures resets != [] ==>
                var ok := |errs| == Failures(steps);
                var component := OrEmpty(mg.spec.component);
                var store := StoreAfter(mg.spec, old(server.store), steps);
                && (ok || |errs| == Failures(steps) + 1)
                && server.log == old(server.log) + CallsOf(mg.spec, steps) + [Reset(component, resets, ok)]
                && server.store == if ok then store - (set k <- resets :: (component, k)) else store
      ensures errs == [] ==> forall k <- mg.status :: k in mg.spec.settings
                                                      || (OrEmpty(mg.spec.component), k) !in server.store
    {
      var setErrors, resetErrors;
      setErrors, steps := UpdateOutOfDateSettings(mg);
      resetErrors, resets := ResetObsoleteSettings(mg);
      errs := setErrors + resetErrors;
    }
  }

  // ---------- whole reconciles ----------

  lemma {:induction false} ObservationsEntry(listed: seq<SettingValue>, store: Store, component: string, k: string)
    requires forall v <- listed :: (component, v.key) in store && Shows(v, store[(component, v.key)])
    ensures k in ObservationsOf(listed) <==> exists v <- listed :: v.key == k
    ensures k in ObservationsOf(listed) ==>
              (component, k) in store && ObservationsOf(listed)[k] == Reading(store[(component, k)])
  {
    if listed != [] {
      assert listed == Init(listed) + [Last(listed)];
      ObservationsEntry(Init(listed), store, component, k);
      SplitMergesBack(Last(listed).fieldValues, store[(component, Last(listed).key)].fieldValues);
    }
  }

  /** A storing server's answer is read back as what it stores, for the requested keys and no others. */
  lemma ObservedIsStored(listed: seq<SettingValue>, store: Store, component: string, keys: set<string>)
    requires Lists(listed, store, component, keys)
    ensures ObservationsOf(listed) == map k <- keys | (component, k) in store :: Reading(store[(component, k)])
  {
    forall k ensures k in ObservationsOf(listed) <==> k in keys && (component, k) in store
      ensures k in ObservationsOf(listed) ==> ObservationsOf(listed)[k] == Reading(store[(component, k)])
    {
      ObservationsEntry(listed, store, component, k);
    }
  }

  lemma {:induction false} StoreElsewhere(p: SettingsParameters, store: Store, steps: seq<SetStep>,
                                          at: (string, string))
    requires at.0 != OrEmpty(p.component) || at.1 !in StepKeys(steps)
    ensures at in StoreAfter(p, store, steps) <==> at in store
    ensures at in store ==> StoreAfter(p, store, steps)[at] == store[at]
  {
    if steps != [] {
      assert StepKeys(steps) == StepKeys(Init(steps)) + [Last(steps).key];
      StoreElsewhere(p, store, Init(steps), at);
    }
  }

  /** With one Set per key, a key ends up with what its own call stored. */
  lemma {:induction false} StoreAtStep(p: SettingsParameters, store: Store, steps: seq<SetStep>, n: nat)
    requires Distinct(StepKeys(steps)) && n < |steps| && steps[n].key in p.settings
    ensures var at := (OrEmpty(p.component), steps[n].key);
            if steps[n].ok then
              at in StoreAfter(p, store, steps) &&
              StoreAfter(p, store, steps)[at]
                  == StoredBy(RequestFor(steps[n].key, p.settings[steps[n].key], p.component))
            else
              (at in StoreAfter(p, store, steps) <==> at in store)
                && (at in store ==> StoreAfter(p, store, steps)[at] == store[at])
  {
    var before := Init(steps);
    assert StepKeys(steps) == StepKeys(before) + [Last(steps).key];
    assert forall i | 0 <= i < |before| :: StepKeys(steps)[i] == StepKeys(before)[i];
    if n < |before| {
      assert StepKeys(steps)[n] != StepKeys(steps)[|before|];
      StoreAtStep(p, store, before, n);
    } else {
      assert forall i | 0 <= i < |before| :: StepKeys(steps)[i] != StepKeys(steps)[n];
      StoreElsewhere(p, store, before, (OrEmpty(p.component), steps[n].key));
    }
  }

  function FailedKeys(steps: seq<SetStep>): set<string> {
    set s <- steps | !s.ok :: s.key
  }

  lemma {:induction false} NoFailuresAllOk(steps: seq<SetStep>)
    ensures Failures(steps) == 0 <==> FailedKeys(steps) == {}
  {
    if steps != [] {
      NoFailuresAllOk(Init(steps));
      assert steps == Init(steps) + [Last(steps)];
      if s :| s in steps && !s.ok {
        assert s.key in FailedKeys(steps);
      }
      if s :| s in Init(steps) && !s.ok {
        assert s.key in FailedKeys(Init(steps));
      }
    }
  }

  function ReadAt(store: Store, at: (string, string)): SettingObservation {
    if at in store then Reading(store[at]) else ZERO
  }

  lemma LookupIsRead(listed: seq<SettingValue>, store: Store, component: string, keys: set<string>, k: string)
    requires Lists(listed, store, component, keys) && k in keys
    ensures Lookup(ObservationsOf(listed), k) == ReadAt(store, (component, k))
    ensures k in ObservationsOf(listed) <==> (component, k) in store
  {
    ObservedIsStored(listed, store, component, keys);
  }

  /** What was set reads back as what was declared. */
  lemma SetReadsBack(key: string, s: SettingSpec, component: Option<string>)
    ensures IsSettingUpToDate(s, Reading(StoredBy(RequestFor(key, s, component))))
    ensures Reading(StoredBy(RequestFor(key, s, component))) == Overlay(s, ZERO)
  {
    SetStoresDeclaredAlone(key, s, component);
  }

  lemma FailedStep(steps: seq<SetStep>, n: nat)
    requires Distinct(StepKeys(steps)) && n < |steps|
    ensures steps[n].key in FailedKeys(steps) <==> !steps[n].ok
  {
    if s :| s in steps && !s.ok && s.key == steps[n].key {
      var i :| 0 <= i < |steps| && steps[i] == s;
      assert StepKeys(steps)[i] == StepKeys(steps)[n];
    }
  }

  /** What the server reads for a declared key after an update: satisfied unless its own Set failed. */
  lemma ReadAfterUpdate(p: SettingsParameters, store: Store, o: SettingsObservation, steps: seq<SetStep>, k: string)
    requires Enumerates(StepKeys(steps), ToSet(p, o)) && k in p.settings
    requires Lookup(o, k) == ReadAt(store, (OrEmpty(p.component), k))
    ensures var at, after := (OrEmpty(p.component), k), StoreAfter(p, store, steps);
            && (IsSettingUpToDate(p.settings[k], ReadAt(after, at)) <==> k !in FailedKeys(steps))
            && ReadAt(after, at) == (if AsDeclared(p.settings[k], ReadAt(store, at)) || k in FailedKeys(steps)
                                     then ReadAt(store, at) else Overlay(p.settings[k], ZERO))
            && (at in after || !Blank(p.settings[k]) <==> at in store || !Blank(p.settings[k]))
  {
    if k in ToSet(p, o) {
      var n :| 0 <= n < |steps| && StepKeys(steps)[n] == k;
      StoreAtStep(p, store, steps, n);
      FailedStep(steps, n);
      SetReadsBack(k, p.settings[k], p.component);
    } else {
      StoreElsewhere(p, store, steps, (OrEmpty(p.component), k));
      FailedWereToBeSet(steps, ToSet(p, o));
    }
  }

  /**
   * An Observe, the Set calls of an Update, and what the next Observe asks of a server that returns only
   * what was asked for.
   */
  ghost predicate SetBetween(p: SettingsParameters, store: Store, listed: seq<SettingValue>, steps: seq<SetStep>,
                             listed': seq<SettingValue>)
  {
    && Lists(listed, store, OrEmpty(p.component), p.settings.Keys)
    && Enumerates(StepKeys(steps), ToSet(p, ObservationsOf(listed)))
    && Lists(listed', StoreAfter(p, store, steps), OrEmpty(p.component), p.settings.Keys)
  }

  /** What the second Observe reads for a declared key. */
  lemma SecondReading(p: SettingsParameters, store: Store, listed: seq<SettingValue>, steps: seq<SetStep>,
                      listed': seq<SettingValue>, k: string)
    requires SetBetween(p, store, listed, steps, listed') && k in p.settings
    ensures var o := ObservationsOf(listed');
            && (IsSettingUpToDate(p.settings[k], Lookup(o, k)) <==> k !in FailedKeys(steps))
            && (k in o || !Blank(p.settings[k]) <==> (OrEmpty(p.component), k) in store || !Blank(p.settings[k]))
  {
    LookupIsRead(listed, store, OrEmpty(p.component), p.settings.Keys, k);
    LookupIsRead(listed', StoreAfter(p, store, steps), OrEmpty(p.component), p.settings.Keys, k);
    ReadAfterUpdate(p, store, ObservationsOf(listed), steps, k);
  }

  /** Every setting without content is on the server. */
  predicate NoBlankAbsent(p: SettingsParameters, store: Store) {
    forall k <- p.settings :: (OrEmpty(p.component), k) in store || !Blank(p.settings[k])
  }

  /** What is still to be set after an update is what failed to be set. */
  lemma SetAgainIsWhatFailed(p: SettingsParameters, store: Store, listed: seq<SettingValue>, steps: seq<SetStep>,
                             listed': seq<SettingValue>)
    requires SetBetween(p, store, listed, steps, listed')
    ensures ToSet(p, ObservationsOf(listed')) == FailedKeys(steps)
  {
    forall k <- p.settings ensures k in ToSet(p, ObservationsOf(listed')) <==> k in FailedKeys(steps) {
      SecondReading(p, store, listed, steps, listed', k);
    }
    FailedWereToBeSet(steps, ToSet(p, ObservationsOf(listed)));
  }

  /** The second Observe is satisfied exactly when no Set failed and no blank setting is absent from the server. */
  lemma SecondVerdictExactly(p: SettingsParameters, store: Store, listed: seq<SettingValue>, steps: seq<SetStep>,
                             listed': seq<SettingValue>)
    requires SetBetween(p, store, listed, steps, listed')
    ensures AreSettingsUpToDate(p, ObservationsOf(listed')) <==>
            Failures(steps) == 0 && NoBlankAbsent(p, store)
  {
    var o' := ObservationsOf(listed');
    forall k <- p.settings
      ensures (k in o' && IsSettingUpToDate(p.settings[k], o'[k])) <==>
              k !in FailedKeys(steps) && ((OrEmpty(p.component), k) in store || !Blank(p.settings[k]))
    {
      SecondReading(p, store, listed, steps, listed', k);
    }
    FailedWereToBeSet(steps, ToSet(p, ObservationsOf(listed)));
    NoFailuresAllOk(steps);
  }

  lemma FailedWereToBeSet(steps: seq<SetStep>, keys: set<string>)
    requires Enumerates(StepKeys(steps), keys)
    ensures FailedKeys(steps) <= keys
  {
    forall s | s in steps ensures s.key in keys {
      var i :| 0 <= i < |steps| && steps[i] == s;
      assert StepKeys(steps)[i] == s.key;
    }
  }

  lemma {:induction false} OnlySetCalls(p: SettingsParameters, steps: seq<SetStep>)
    requires forall k <- StepKeys(steps) :: k in p.settings
    ensures forall call <- CallsOf(p, steps) :: call.Set?
    ensures (forall call <- CallsOf(p, steps) :: call.ok) <==> Failures(steps) == 0
  {
    if steps != [] {
      assert StepKeys(steps) == StepKeys(Init(steps)) + [Last(steps).key];
      OnlySetCalls(p, Init(steps));
    }
  }

  /** The stores agree at every key that is not declared for the component. */
  ghost predicate SameElsewhere(p: SettingsParameters, a: Store, b: Store) {
    forall at: (string, string) | at.0 != OrEmpty(p.component) || at.1 !in p.settings ::
      (at in a <==> at in b) && (at in a ==> a[at] == b[at])
  }

  ghost predicate NoResets(calls: seq<Call>) {
    forall call <- calls :: !call.Reset?
  }

  ghost predicate NoFailure(calls: seq<Call>) {
    forall call <- calls :: call.ok
  }

  /** From `before` to `after` by one Set for each declared key whose reading differs, and nothing else. */
  ghost predicate SetsWhatDiffers(p: SettingsParameters, before: Store, after: Store, steps: seq<SetStep>) {
    && after == StoreAfter(p, before, steps)
    && exists listed: seq<SettingValue> ::
         Lists(listed, before, OrEmpty(p.component), p.settings.Keys)
         && Enumerates(StepKeys(steps), ToSet(p, ObservationsOf(listed)))
  }

  /** The Set calls between two listings of the declared keys. */
  ghost predicate AsksSetsAsks(p: SettingsParameters, steps: seq<SetStep>, calls: seq<Call>) {
    && calls != [] && AsksFor(p, [], [calls[0]], true) && AsksFor(p, [calls[0]] + CallsOf(p, steps), calls, true)
  }

  lemma CallsBetween(p: SettingsParameters, log: seq<Call>, steps: seq<SetStep>, a: Call, b: Call)
    requires AsksFor(p, [], [a], a.ok) && AsksFor(p, [], [b], b.ok)
    requires forall k <- StepKeys(steps) :: k in p.settings
    ensures log + [a] + CallsOf(p, steps) + [b] == log + ([a] + CallsOf(p, steps) + [b])
    ensures NoResets([a] + CallsOf(p, steps) + [b])
    ensures NoFailure([a] + CallsOf(p, steps) + [b]) <==> a.ok && b.ok && Failures(steps) == 0
    ensures a.ok && b.ok ==> AsksSetsAsks(p, steps, [a] + CallsOf(p, steps) + [b])
  {
    OnlySetCalls(p, steps);
    var calls := [a] + CallsOf(p, steps) + [b];
    assert forall call :: call in calls <==> call == a || call == b || call in CallsOf(p, steps);
  }

  /** The stored fields are the declared ones, where a field is declared; a key that is absent has empty fields. */
  predicate AsDeclared(s: SettingSpec, o: SettingObservation) {
    && (s.value.Some? ==> o.value == s.value.value)
    && (s.values.Some? ==> o.values == s.values.value)
    && (s.fieldValues.Some? ==> o.fieldValues == s.fieldValues.value)
  }

  ghost predicate DeclaredIsStored(p: SettingsParameters, store: Store) {
    forall k <- p.settings :: AsDeclared(p.settings[k], ReadAt(store, (OrEmpty(p.component), k)))
  }

  /**
   * Key by key, what an update leaves: a setting in which nothing declared differs, or whose Set failed, is
   * as it was; any other consists of the declared fields alone.
   */
  ghost predicate StoreReached(p: SettingsParameters, before: Store, after: Store, failed: set<string>) {
    forall k <- p.settings ::
      var s, was := p.settings[k], ReadAt(before, (OrEmpty(p.component), k));
      ReadAt(after, (OrEmpty(p.component), k)) ==
        if AsDeclared(s, was) || k in failed then was else Overlay(s, ZERO)
  }

  lemma UpdateReaches(p: SettingsParameters, store: Store, listed: seq<SettingValue>, steps: seq<SetStep>)
    requires Lists(listed, store, OrEmpty(p.component), p.settings.Keys)
             && Enumerates(StepKeys(steps), ToSet(p, ObservationsOf(listed)))
    ensures StoreReached(p, store, StoreAfter(p, store, steps), FailedKeys(steps))
  {
    var o := ObservationsOf(listed);
    forall k <- p.settings
      ensures var s, was := p.settings[k], ReadAt(store, (OrEmpty(p.component), k));
              ReadAt(StoreAfter(p, store, steps), (OrEmpty(p.component), k)) ==
                if AsDeclared(s, was) || k in FailedKeys(steps) then was else Overlay(s, ZERO)
    {
      LookupIsRead(listed, store, OrEmpty(p.component), p.settings.Keys, k);
      ReadAfterUpdate(p, store, o, steps, k);
    }
  }

  lemma AllSetIsStored(p: SettingsParameters, store: Store, listed: seq<SettingValue>, steps: seq<SetStep>,
                       listed': seq<SettingValue>)
    requires SetBetween(p, store, listed, steps, listed')
    ensures Failures(steps) == 0 <==> DeclaredIsStored(p, StoreAfter(p, store, steps))
    ensures SetsWhatDiffers(p, store, StoreAfter(p, store, steps), steps)
    ensures StoreReached(p, store, StoreAfter(p, store, steps), FailedKeys(steps))
  {
    forall k <- p.settings
      ensures AsDeclared(p.settings[k], ReadAt(StoreAfter(p, store, steps), (OrEmpty(p.component), k)))
              <==> k !in FailedKeys(steps)
    {
      LookupIsRead(listed, store, OrEmpty(p.component), p.settings.Keys, k);
      ReadAfterUpdate(p, store, ObservationsOf(listed), steps, k);
    }
    FailedWereToBeSet(steps, ToSet(p, ObservationsOf(listed)));
    NoFailuresAllOk(steps);
    UpdateReaches(p, store, listed, steps);
  }

  /** The status is what some listing of the declared keys reads as. */
  ghost predicate IsStatusOf(p: SettingsParameters, store: Store, status: SettingsObservation) {
    exists listed: seq<SettingValue> ::
      Lists(listed, store, OrEmpty(p.component), p.settings.Keys) && status == ObservationsOf(listed)
  }

  /**
   * What an Update and the next Observe come to, whichever Sets failed: what is stored for each declared
   * key, and a verdict that is that on the server, satisfied exactly when no Set failed and no setting
   * without content is absent.
   */
  ghost predicate Concluded(p: SettingsParameters, before: Store, after: Store, steps: seq<SetStep>, errors: nat,
                            status: SettingsObservation, upToDate: bool)
  {
    && SetsWhatDiffers(p, before, after, steps) && errors == Failures(steps)
    && StoreReached(p, before, after, FailedKeys(steps))
    && (errors == 0 ==> DeclaredIsStored(p, after))
    && IsStatusOf(p, after, status) && upToDate == AreSettingsUpToDate(p, status)
    && (upToDate <==> errors == 0 && NoBlankAbsent(p, before))
  }

  lemma Conclude(p: SettingsParameters, store: Store, status: SettingsObservation, steps: seq<SetStep>,
                 status': SettingsObservation)
    requires IsStatusOf(p, store, status) && Enumerates(StepKeys(steps), ToSet(p, status))
             && IsStatusOf(p, StoreAfter(p, store, steps), status')
    ensures Concluded(p, store, StoreAfter(p, store, steps), steps, Failures(steps), status',
                      AreSettingsUpToDate(p, status'))
  {
    var listed: seq<SettingValue> :| Lists(listed, store, OrEmpty(p.component), p.settings.Keys)
      && status == ObservationsOf(listed);
    var listed': seq<SettingValue> :|
      Lists(listed', StoreAfter(p, store, steps), OrEmpty(p.component), p.settings.Keys)
      && status' == ObservationsOf(listed');
    SecondVerdictExactly(p, store, listed, steps, listed');
    AllSetIsStored(p, store, listed, steps, listed');
  }

  /**
   * Observe, Update if that is needed, and Observe, end to end, with nobody else at the server. Without a
   * failed call it gets to the end without error, and then every declared key is stored as declared; the
   * verdict is that on what the server holds, no reset is ever sent, and no undeclared key changes.
   */
  method ReconcileAndObserve(c: External, mg: SettingsResource)
    returns (seen: bool, errs: seq<SettingsError>, second: ExternalObservation,
            ghost calls: seq<Call>, ghost steps: seq<SetStep>)
    requires !mg.deleting
    modifies mg`status, c.server
    ensures c.server.log == old(c.server.log) + calls && NoResets(calls)
    ensures NoFailure(calls) ==> seen && errs == []
    ensures seen ==>
              && Concluded(mg.spec, old(c.server.store), c.server.store, steps, |errs|, mg.status, second.upToDate)
              && AsksSetsAsks(mg.spec, steps, calls) && Reported(errs, steps)
    ensures SameElsewhere(mg.spec, c.server.store, old(c.server.store))
  {
    errs, steps := [], [];
    var first, failed := c.Observe(mg);
    second := first;
    calls := [Last(c.server.log)];
    if !first.resourceExists {
      return false, errs, second, calls, steps;
    }
    ghost var p, store, status, asked := mg.spec, c.server.store, mg.status, Last(calls);
    ghost var resets: seq<string> := [];
    if first.upToDate {
      assert ToSet(p, status) == {};
    } else {
      errs, steps, resets := c.Update(mg);
      NothingToReset(p, store, status, resets);
    }
    UpdateElsewhere(p, store, status, steps);
    second, failed := c.Observe(mg);
    calls := [asked] + CallsOf(p, steps) + [Last(c.server.log)];
    CallsBetween(p, old(c.server.log), steps, asked, Last(c.server.log));
    seen := second.resourceExists;
    if seen {
      Conclude(p, store, status, steps, mg.status);
    }
  }

  lemma NothingToReset(p: SettingsParameters, store: Store, status: SettingsObservation, resets: seq<string>)
    requires IsStatusOf(p, store, status) && Enumerates(resets, ToReset(p, status))
    ensures resets == []
  {
    var listed: seq<SettingValue> :| Lists(listed, store, OrEmpty(p.component), p.settings.Keys)
      && status == ObservationsOf(listed);
    ObservedIsStored(listed, store, OrEmpty(p.component), p.settings.Keys);
    assert ToReset(p, status) == {};
    EnumerationOfNone(resets);
  }

  lemma UpdateElsewhere(p: SettingsParameters, store: Store, o: SettingsObservation, steps: seq<SetStep>)
    requires Enumerates(StepKeys(steps), ToSet(p, o))
    ensures SameElsewhere(p, StoreAfter(p, store, steps), store)
  {
    forall at: (string, string) | at.0 != OrEmpty(p.component) || at.1 !in p.settings
      ensures (at in StoreAfter(p, store, steps) <==> at in store)
              && (at in store ==> StoreAfter(p, store, steps)[at] == store[at])
    {
      StoreElsewhere(p, store, steps, at);
    }
  }
}
