/** The Kubernetes side: objects of one kind with their finalizers, and the
    scan behind the shared-ownership guards (internal/controller/reconcile.go). */
module Kube {
  import opened Api

  datatype Condition = Unknown | Ready | NotReadyYet

  datatype Object<+Sp, +St> = Object(
    spec: Sp, status: St, deleting: bool, finalizers: set<string>, condition: Condition)

  type Store<Sp, St> = map<Uid, Object<Sp, St>>

  /** Writing an object back. A deleting object whose last finalizer is gone
      leaves the store. */
  function Written<Sp, St>(store: Store<Sp, St>, uid: Uid, obj: Object<Sp, St>): Store<Sp, St> {
    if obj.deleting && obj.finalizers == {} then store - {uid} else store[uid := obj]
  }

  function Patched<Sp, St>(store: Store<Sp, St>, uid: Uid, obj: Object<Sp, St>, f: Fault): Store<Sp, St> {
    if f.Acts() then Written(store, uid, obj) else store
  }

  /** Writing back an object that already carries the finalizer and is ready. */
  lemma UnchangedIfReady<Sp, St>(store: Store<Sp, St>, u: Uid, own: string)
    requires u in store && own in store[u].finalizers && store[u].condition == Ready
    ensures store[u].(finalizers := store[u].finalizers + {own}) == store[u] && store[u := store[u]] == store
  {
    assert store[u].finalizers + {own} == store[u].finalizers;
  }

  /** Some object other than self that is not being deleted satisfies match. */
  predicate AnotherLive<Sp, St>(store: Store<Sp, St>, self: Uid, match_: Object<Sp, St> -> bool) {
    exists u :: u in store && u != self && !store[u].deleting && match_(store[u])
  }

  /** The items of a List call, in the order the API server happens to answer. */
  method List<Sp, St>(store: Store<Sp, St>) returns (items: seq<(Uid, Object<Sp, St>)>)
    ensures forall x :: x in items ==> x.0 in store && store[x.0] == x.1
    ensures forall u :: u in store ==> (u, store[u]) in items
  {
    items := [];
    var rest := store.Keys;
    while rest != {}
      invariant rest <= store.Keys
      invariant forall x :: x in items ==> x.0 in store && store[x.0] == x.1
      invariant forall u :: u in store && u !in rest ==> (u, store[u]) in items
    {
      var u :| u in rest;
      items := items + [(u, store[u])];
      rest := rest - {u};
    }
  }

  method AnotherLiveMatches<Sp, St>(
    self: Uid, items: seq<(Uid, Object<Sp, St>)>, match_: Object<Sp, St> -> bool) returns (found: bool)
    ensures found <==> exists i :: 0 <= i < |items| && items[i].0 != self && !items[i].1.deleting && match_(items[i].1)
  {
    for i := 0 to |items|
      invariant forall j :: 0 <= j < i ==> items[j].0 == self || items[j].1.deleting || !match_(items[j].1)
    {
      var other := items[i].1;
      if items[i].0 == self || other.deleting {
        continue;
      }
      if match_(other) {
        return true;
      }
    }
    return false;
  }

  /** List and scan together: the answer does not depend on the order of the list. */
  method ScanLive<Sp, St>(store: Store<Sp, St>, self: Uid, match_: Object<Sp, St> -> bool) returns (found: bool)
    ensures found <==> AnotherLive(store, self, match_)
  {
    var items := List(store);
    found := AnotherLiveMatches(self, items, match_);
  }
}
