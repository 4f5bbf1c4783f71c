/** SonarQube settings: drift detection per key, repair, reset of obsolete keys, and what a whole reconcile does. */
module Settings {
  import opened Basics

  type StringMap = map<string, string>

  datatype SettingSpec = SettingSpec(value: Option<string>, values: Option<seq<string>>, fieldValues: Option<StringMap>)

  datatype SettingsParameters = SettingsParameters(component: Option<string>, settings: map<string, SettingSpec>)

  /** One setting as the server lists it; field values come as a list of maps. */
  datatype SettingValue = SettingValue(key: string, value: string, values: seq<string>, fieldValues: seq<StringMap>)

  datatype SettingObservation = SettingObservation(value: string, values: seq<string>, fieldValues: StringMap)

  type SettingsObservation = map<string, SettingObservation>

  /** Empty fields are fields that are not sent. */
  datatype SetRequest =
    SetRequest(key: string, component: string, value: string, values: seq<string>, fieldValues: StringMap)

  datatype Call =
    | Values(component: string, keys: seq<string>, ok: bool)
    | Set(request: SetRequest, ok: bool)
    | Reset(component: string, keys: seq<string>, ok: bool)

  /** What a Go map lookup of an absent key yields. */
  const ZERO := SettingObservation("", [], map[])

  function OrEmpty(s: Option<string>): string { if s.Some? then s.value else "" }

  function RequestFor(key: string, s: SettingSpec, component: Option<string>): SetRequest {
    SetRequest(key, OrEmpty(component), OrEmpty(s.value),
               if s.values.Some? then s.values.value else [],
               if s.fieldValues.Some? then s.fieldValues.value else map[])
  }

  predicate IsSettingUpToDate(s: SettingSpec, o: SettingObservation) {
    && (s.value.None? || s.value.value == o.value)
    && (s.values.None? || s.values.value == o.values)
    && (s.fieldValues.None? || s.fieldValues.value == o.fieldValues)
  }

  predicate AreSettingsUpToDate(p: SettingsParameters, o: SettingsObservation) {
    forall k <- p.settings :: k in o && IsSettingUpToDate(p.settings[k], o[k])
  }

  function Lookup(o: SettingsObservation, k: string): SettingObservation {
    if k in o then o[k] else ZERO
  }

  /** The keys Update sets. */
  function ToSet(p: SettingsParameters, o: SettingsObservation): set<string> {
    set k <- p.settings | !IsSettingUpToDate(p.settings[k], Lookup(o, k))
  }

  /** The keys Update resets. */
  function ToReset(p: SettingsParameters, o: SettingsObservation): set<string> {
    o.Keys - p.settings.Keys
  }

  // ---------- what is declared ----------

  /** The observation with the declared fields put over it. */
  function Overlay(s: SettingSpec, o: SettingObservation): SettingObservation {
    SettingObservation(if s.value.Some? then s.value.value else o.value,
                       if s.values.Some? then s.values.value else o.values,
                       if s.fieldValues.Some? then s.fieldValues.value else o.fieldValues)
  }

  /** A setting is up to date exactly when putting what is declared over it changes nothing. */
  lemma UpToDateIsOverlaid(s: SettingSpec, o: SettingObservation)
    ensures IsSettingUpToDate(s, o) <==> Overlay(s, o) == o
  {
  }

  /** What the server stores for a key, as an observation. */
  function Reading(s: Stored): SettingObservation {
    SettingObservation(s.value, s.values, s.fieldValues)
  }

  /** A Set leaves exactly the declared fields: whatever was stored in the others is gone. */
  lemma SetStoresDeclaredAlone(key: string, s: SettingSpec, component: Option<string>)
    ensures Reading(StoredBy(RequestFor(key, s, component))) == Overlay(s, ZERO)
    ensures RequestFor(key, s, component).key == key && RequestFor(key, s, component).component == OrEmpty(component)
  {
  }

  // ---------- detection and repair ----------

  /** A setting none of whose fields is declared with content. */
  predicate Blank(s: SettingSpec) {
    OrEmpty(s.value) == "" && (s.values.None? || s.values.value == [])
      && (s.fieldValues.None? || s.fieldValues.value == map[])
  }

  /**
   * Update sets exactly the keys that keep Observe from being satisfied, unless a blank setting is absent
   * from the server.
   */
  lemma DetectionIsRepairExactly(p: SettingsParameters, o: SettingsObservation, k: string)
    requires k in p.settings
    ensures ((k in o && IsSettingUpToDate(p.settings[k], o[k])) <==> k !in ToSet(p, o)) <==>
              k in o || !Blank(p.settings[k])
  {
  }

  lemma UpToDateIffNothingToSet(p: SettingsParameters, o: SettingsObservation)
    requires forall k <- p.settings :: k in o || !Blank(p.settings[k])
    ensures AreSettingsUpToDate(p, o) <==> ToSet(p, o) == {}
    ensures ToSet(p, o) !! ToReset(p, o)
  {
    forall k <- p.settings { DetectionIsRepairExactly(p, o, k); }
    if !AreSettingsUpToDate(p, o) {
      var k :| k in p.settings && !(k in o && IsSettingUpToDate(p.settings[k], o[k]));
      DetectionIsRepairExactly(p, o, k);
      assert k in ToSet(p, o);
    }
  }

  // ---------- field values ----------

  /** Copies the maps one after the other into one. */
  function MergeFields(maps: seq<StringMap>): StringMap {
    if maps == [] then map[] else MergeFields(Init(maps)) + Last(maps)
  }

  /** The last map that has a key decides its value. */
  lemma {:induction false} MergeLastWins(maps: seq<StringMap>, k: string)
    ensures k in MergeFields(maps) <==> exists m <- maps :: k in m
    ensures forall i | 0 <= i < |maps| && k in maps[i] && (forall j | i < j < |maps| :: k !in maps[j]) ::
              MergeFields(maps)[k] == maps[i][k]
  {
    if maps != [] {
      assert maps == Init(maps) + [Last(maps)];
      MergeLastWins(Init(maps), k);
    }
  }

  /** `maps` is `m` cut into pieces, in any order. */
  ghost predicate IsSplitOf(maps: seq<StringMap>, m: StringMap) {
    && (forall piece, k | piece in maps && k in piece :: k in m && m[k] == piece[k])
    && (forall k <- m :: exists piece <- maps :: k in piece)
  }

  lemma {:induction false} MergeStaysWithin(maps: seq<StringMap>, m: StringMap)
    requires forall piece, k | piece in maps && k in piece :: k in m && m[k] == piece[k]
    ensures forall k <- MergeFields(maps) :: k in m && MergeFields(maps)[k] == m[k]
  {
    if maps != [] {
      assert maps == Init(maps) + [Last(maps)];
      MergeStaysWithin(Init(maps), m);
    }
  }

  /** However the server splits field values, merging gives back what was stored. */
  lemma SplitMergesBack(maps: seq<StringMap>, m: StringMap)
    requires IsSplitOf(maps, m)
    ensures MergeFields(maps) == m
  {
    MergeStaysWithin(maps, m);
    forall k <- m ensures k in MergeFields(maps) {
      MergeLastWins(maps, k);
    }
  }

  // ---------- the server ----------

  datatype Stored = Stored(value: string, values: seq<string>, fieldValues: StringMap)

  type Store = map<(string, string), Stored>

  function StoredBy(q: SetRequest): Stored {
    Stored(q.value, q.values, q.fieldValues)
  }

  /** A listed setting shows what is stored, with its field values in some split. */
  ghost predicate Shows(v: SettingValue, s: Stored) {
    v.value == s.value && v.values == s.values && IsSplitOf(v.fieldValues, s.fieldValues)
  }

  /** `listed` reports exactly the requested keys that are stored for the component. */
  ghost predicate Lists(listed: seq<SettingValue>, store: Store, component: string, keys: set<string>) {
    && (forall k :: (exists v <- listed :: v.key == k) <==> k in keys && (component, k) in store)
    && (forall v <- listed :: (component, v.key) in store && Shows(v, store[(component, v.key)]))
  }

  class SettingsServer {
    var store: Store
    ghost var log: seq<Call>

    constructor ()
      ensures log == []
    {
      store, log := map[], [];
    }

    method Values(component: string, keys: seq<string>) returns (listed: Option<seq<SettingValue>>)
      modifies this`log
      ensures log == old(log) + [Call.Values(component, keys, listed.Some?)]
      ensures listed.Some? ==> Lists(listed.value, store, component, Elements(keys))
    {
      var ok := *;
      if !ok {
        log := log + [Call.Values(component, keys, false)];
        return None;
      }
      var r: seq<SettingValue> := [];
      var rest := Elements(keys);
      while rest != {}
        invariant rest <= Elements(keys) && log == old(log)
        invariant Lists(r, store, component, Elements(keys) - rest)
        decreases |rest|
      {
        var k :| k in rest;
        rest := rest - {k};
        if (component, k) in store {
          var s := store[(component, k)];
          ListsSnoc(r, store, component, Elements(keys) - rest - {k},
                    SettingValue(k, s.value, s.values, [s.fieldValues]));
          r := r + [SettingValue(k, s.value, s.values, [s.fieldValues])];
        }
      }
      assert Elements(keys) - rest == Elements(keys);
      log := log + [Call.Values(component, keys, true)];
      return Some(r);
    }

    method Set(q: SetRequest) returns (ok: bool)
      modifies this
      ensures log == old(log) + [Call.Set(q, ok)]
      ensures store == if ok then old(store)[(q.component, q.key) := StoredBy(q)] else old(store)
    {
      ok := *;
      if ok {
        store := store[(q.component, q.key) := StoredBy(q)];
      }
      log := log + [Call.Set(q, ok)];
    }

    method Reset(component: string, keys: seq<string>) returns (ok: bool)
      modifies this
      ensures log == old(log) + [Call.Reset(component, keys, ok)]
      ensures store == if ok then old(store) - (set k <- keys :: (component, k)) else old(store)
    {
      ok := *;
      if ok {
        store := store - (set k <- keys :: (component, k));
      }
      log := log + [Call.Reset(component, keys, ok)];
    }
  }

  lemma ListsSnoc(r: seq<SettingValue>, store: Store, component: string, keys: set<string>, v: SettingValue)
    requires Lists(r, store, component, keys) && (component, v.key) in store
    requires var s := store[(component, v.key)];
             v.value == s.value && v.values == s.values && v.fieldValues == [s.fieldValues]
    ensures Lists(r + [v], store, component, keys + {v.key})
  {
  }
}
