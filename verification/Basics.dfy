/** Vocabulary shared by the reconcilers: optional fields, map iteration orders and traces. */
module Basics {

  /** A Go pointer field: `None` is nil. */
  datatype Option<+T> = None | Some(value: T)

  /**
   * `order` lists every element of `keys` exactly once. Go ranges over a map in an unspecified
   * order, so a method that ranges over `m` promises only that it visited some enumeration of `m.Keys`.
   */
  ghost predicate Enumerates<T>(order: seq<T>, keys: set<T>) {
    && (forall k <- order :: k in keys)
    && (forall k <- keys :: k in order)
    && Distinct(order)
  }

  lemma {:induction false} EnumerationSize<T>(order: seq<T>, keys: set<T>)
    requires Enumerates(order, keys)
    ensures |order| == |keys|
  {
    if order == [] {
      assert keys == {};
    } else {
      var last := order[|order| - 1];
      assert order == order[..|order| - 1] + [last];
      EnumerationSize(order[..|order| - 1], keys - {last});
    }
  }

  lemma EnumerationOfNone<T>(order: seq<T>)
    requires Enumerates(order, {})
    ensures order == []
  {
    EnumerationSize(order, {});
  }

  function Init<T>(s: seq<T>): seq<T>
    requires s != []
  {
    s[..|s| - 1]
  }

  function Last<T>(s: seq<T>): T
    requires s != []
  {
    s[|s| - 1]
  }

  lemma Regrouped<T>(a: seq<T>, b: seq<T>, c: seq<T>, d: seq<T>)
    ensures a + b + c + d == a + (b + c + d)
  {
  }

  lemma SnocParts<T>(s: seq<T>, x: T)
    ensures Init(s + [x]) == s && Last(s + [x]) == x
  {
  }

  ghost predicate Distinct<T>(s: seq<T>) {
    forall i, j :: 0 <= i < j < |s| ==> s[i] != s[j]
  }

  function Elements<T>(s: seq<T>): set<T> {
    set x <- s
  }

  /** Handling item `n` of a duplicate-free work list leaves the items after it. */
  lemma WorkListStep<T>(s: seq<T>, n: nat)
    requires n < |s| && Distinct(s)
    ensures Elements(s[n..]) - {s[n]} == Elements(s[n + 1..])
    ensures s[n] in Elements(s[n..])
  {
  }
}
