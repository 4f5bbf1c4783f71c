/**
 * Association maps, which pair what is declared with what was observed: their entries, the three
 * kinds of repair read off them, and the loops that range over them in an arbitrary order.
 */
module Pairing {
  import opened Basics

  /**
   * One entry. `spec` is a pointer into the declared list, kept as an index: two equal declarations at
   * different positions are different pointers.
   */
  datatype Association<+O> = Association(observation: Option<O>, spec: Option<nat>, upToDate: bool)

  type Paired<+O> = map<string, Association<O>>

  predicate IsMissing<O>(a: Association<O>) { a.spec.None? && a.observation.Some? }

  predicate IsNonExisting<O>(a: Association<O>) { a.observation.None? && a.spec.Some? }

  predicate IsOutdated<O>(a: Association<O>) { !a.upToDate && a.spec.Some? && a.observation.Some? }

  function MissingKeys<O>(m: Paired<O>): set<string> { set k <- m | IsMissing(m[k]) }

  function NonExistingKeys<O>(m: Paired<O>): set<string> { set k <- m | IsNonExisting(m[k]) }

  function OutdatedKeys<O>(m: Paired<O>): set<string> { set k <- m | IsOutdated(m[k]) }

  predicate AllUpToDate<O>(m: Paired<O>) {
    forall k <- m :: m[k].upToDate
  }

  /** The maps are shared by the phases of a sync, which delete from them and insert into them. */
  class AssociationMap<O> {
    var entries: Paired<O>

    constructor (m: Paired<O>)
      ensures entries == m
    {
      entries := m;
    }
  }

  /** The found pointers are the specs of the entries under `order`, in that order. */
  ghost predicate SpecsAt<O>(m: Paired<O>, order: seq<string>, found: seq<nat>) {
    |order| == |found| && forall n | 0 <= n < |order| :: order[n] in m && m[order[n]].spec == Some(found[n])
  }

  ghost predicate ObservationsAt<O>(m: Paired<O>, order: seq<string>, found: seq<O>) {
    |order| == |found| && forall n | 0 <= n < |order| :: order[n] in m && m[order[n]].observation == Some(found[n])
  }

  ghost predicate EntriesAt<O>(m: Paired<O>, order: seq<string>, found: seq<Association<O>>) {
    |order| == |found| && forall n | 0 <= n < |order| :: order[n] in m && m[order[n]] == found[n]
  }

  method FindNonExisting<O>(m: Paired<O>) returns (found: seq<nat>)
    ensures exists order :: Enumerates(order, NonExistingKeys(m)) && SpecsAt(m, order, found)
  {
    found := [];
    ghost var order: seq<string> := [];
    var rest := m.Keys;
    while rest != {}
      invariant rest <= m.Keys
      invariant Enumerates(order, NonExistingKeys(m) - rest) && SpecsAt(m, order, found)
      decreases |rest|
    {
      var k :| k in rest;
      rest := rest - {k};
      if m[k].observation.None? && m[k].spec.Some? {
        found, order := found + [m[k].spec.value], order + [k];
      }
    }
    assert NonExistingKeys(m) - rest == NonExistingKeys(m);
  }

  method FindMissing<O>(m: Paired<O>) returns (found: seq<O>)
    ensures exists order :: Enumerates(order, MissingKeys(m)) && ObservationsAt(m, order, found)
  {
    found := [];
    ghost var order: seq<string> := [];
    var rest := m.Keys;
    while rest != {}
      invariant rest <= m.Keys
      invariant Enumerates(order, MissingKeys(m) - rest) && ObservationsAt(m, order, found)
      decreases |rest|
    {
      var k :| k in rest;
      rest := rest - {k};
      if m[k].spec.None? && m[k].observation.Some? {
        found, order := found + [m[k].observation.value], order + [k];
      }
    }
    assert MissingKeys(m) - rest == MissingKeys(m);
  }

  method FindNotUpToDate<O>(m: Paired<O>) returns (found: seq<Association<O>>)
    ensures exists order :: Enumerates(order, OutdatedKeys(m)) && EntriesAt(m, order, found)
  {
    found := [];
    ghost var order: seq<string> := [];
    var rest := m.Keys;
    while rest != {}
      invariant rest <= m.Keys
      invariant Enumerates(order, OutdatedKeys(m) - rest) && EntriesAt(m, order, found)
      decreases |rest|
    {
      var k :| k in rest;
      rest := rest - {k};
      if !m[k].upToDate && m[k].spec.Some? && m[k].observation.Some? {
        found, order := found + [m[k]], order + [k];
      }
    }
    assert OutdatedKeys(m) - rest == OutdatedKeys(m);
  }

  method AreAllUpToDate<O>(m: Paired<O>) returns (upToDate: bool)
    ensures upToDate == AllUpToDate(m)
  {
    var rest := m.Keys;
    while rest != {}
      invariant rest <= m.Keys
      invariant forall k <- m :: k !in rest ==> m[k].upToDate
      decreases |rest|
    {
      var k :| k in rest;
      rest := rest - {k};
      if !m[k].upToDate {
        return false;
      }
    }
    return true;
  }

  /** A key of an entry that points at `spec`, and the empty string when there is none. */
  ghost predicate FoundKey<O>(m: Paired<O>, spec: nat, key: string) {
    if exists k <- m :: m[k].spec == Some(spec) then key in m && m[key].spec == Some(spec) else key == ""
  }

  /** Looks for the entry that points at `spec`; the empty string when there is none. */
  method FindKeyOf<O>(m: Paired<O>, spec: nat) returns (key: string)
    ensures FoundKey(m, spec, key)
  {
    key := "";
    var rest := m.Keys;
    while rest != {}
      invariant rest <= m.Keys
      invariant forall k <- m :: k !in rest ==> m[k].spec != Some(spec)
      decreases |rest|
    {
      var k :| k in rest;
      rest := rest - {k};
      if m[k].spec == Some(spec) {
        return k;
      }
    }
  }
}
