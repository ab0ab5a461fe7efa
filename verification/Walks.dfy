/** A loop over a Go map: keys are visited once each, in an order that the language leaves open. */
module Walks {

  /** Where such a loop stands: done lists the keys visited so far, pending holds the others. */
  ghost predicate Walk<K(!new)>(keys: set<K>, done: seq<K>, pending: set<K>) {
    && (forall e :: e in keys <==> e in done || e in pending)
    && (forall e :: e in done ==> e !in pending)
    && (forall i, j :: 0 <= i < j < |done| ==> done[i] != done[j])
  }

  lemma WalkOn<K(!new)>(keys: set<K>, done: seq<K>, pending: set<K>, e: K)
    requires Walk(keys, done, pending) && e in pending
    ensures Walk(keys, done + [e], pending - {e}) && e in keys && e !in done
  {
  }

  /** An order in which the loop can visit all keys. */
  ghost predicate Visits<K(!new)>(keys: set<K>, order: seq<K>) {
    (forall e :: e in keys <==> e in order) && forall i, j :: 0 <= i < j < |order| ==> order[i] != order[j]
  }

  /** There is always one. */
  lemma SomeOrder<K(!new)>(keys: set<K>) returns (order: seq<K>)
    ensures Visits(keys, order)
  {
    order := [];
    var pending := keys;
    while pending != {}
      invariant Walk(keys, order, pending)
      decreases pending
    {
      var e :| e in pending;
      WalkOn(keys, order, pending, e);
      order, pending := order + [e], pending - {e};
    }
  }

  ghost function Elements<K(!new)>(order: seq<K>): set<K> {
    set e | e in order
  }

  lemma ElementsMore<K(!new)>(order: seq<K>, e: K)
    ensures Elements(order + [e]) == Elements(order) + {e}
  {
  }

  lemma VisitedElements<K(!new)>(keys: set<K>, order: seq<K>)
    requires Visits(keys, order)
    ensures Elements(order) == keys
  {
  }
}
