/** Labelled children of one owner, applied and pruned: the pattern both the
    HTTPRoute and the LoadBalancer controller use
    (internal/controller/gateway_controller.go, internal/controller/loadbalancer_controller.go). */
module ChildSets {
  import opened Api

  /** Namespace and name. */
  type Key = (string, string)

  /** A child and the value of the label that names its owner. */
  datatype Owned<+V> = Owned(tag: string, body: V)

  type Children<V> = map<Key, Owned<V>>

  function Placed<V>(namespace: string, want: map<string, Owned<V>>): (r: Children<V>)
    ensures forall k: Key :: k in r <==> k.0 == namespace && k.1 in want
    ensures forall k: Key :: k in r ==> r[k] == want[k.1]
  {
    map k | k in (set n | n in want :: (namespace, n)) :: want[k.1]
  }

  lemma PlaceOneMore<V>(c: Children<V>, namespace: string, want: map<string, Owned<V>>, name: string, child: Owned<V>)
    ensures (c + Placed(namespace, want))[(namespace, name) := child] == c + Placed(namespace, want[name := child])
  {
    var a := (c + Placed(namespace, want))[(namespace, name) := child];
    var b := c + Placed(namespace, want[name := child]);
    assert a.Keys == b.Keys;
  }

  /** A child of this owner that is not wanted. */
  predicate Stale<V>(c: Children<V>, k: Key, namespace: string, tag: string, names: set<string>)
    requires k in c
  {
    k.0 == namespace && c[k].tag == tag && k.1 !in names
  }

  function Pruned<V>(c: Children<V>, namespace: string, tag: string, names: set<string>): Children<V> {
    map k | k in c && !Stale(c, k, namespace, tag, names) :: c[k]
  }

  /** The store after applying the wanted children and pruning the rest of the owner's. */
  function Synced<V>(c: Children<V>, namespace: string, tag: string, want: map<string, Owned<V>>): Children<V> {
    Pruned(c + Placed(namespace, want), namespace, tag, want.Keys)
  }

  lemma SyncOfNothing<V>(c: Children<V>, namespace: string, tag: string)
    ensures Synced(c, namespace, tag, map[]) == Pruned(c, namespace, tag, {})
  {
    assert c + Placed(namespace, map[]) == c;
  }

  /** Between two stores, only the owner's children were written or deleted, and
      what was written bears one of the owner's names. */
  ghost predicate OnlyTagged<V>(c: Children<V>, after: Children<V>, namespace: string, tag: string, mine: string -> bool) {
    && (forall k: Key :: k in after ==> (k in c && after[k] == c[k]) || (k.0 == namespace && after[k].tag == tag && mine(k.1)))
    && (forall k: Key :: k in c && k !in after ==> k.0 == namespace && c[k].tag == tag)
  }

  lemma WriteTagged<V>(c: Children<V>, after: Children<V>, namespace: string, name: string, child: Owned<V>, mine: string -> bool)
    requires OnlyTagged(c, after, namespace, child.tag, mine) && mine(name)
    ensures OnlyTagged(c, after[(namespace, name) := child], namespace, child.tag, mine)
  {
  }

  /** The answer to a delete that prune gives up on. */
  predicate RefusesDelete(f: Fault) {
    !f.Fine? && f.err != NotFound
  }

  /** The list is not answered, or the delete of an unwanted child is refused. */
  ghost predicate PruneFails<V>(c: Children<V>, namespace: string, tag: string, names: set<string>, list: Fault, delete: string -> Fault) {
    !list.Fine? || exists k :: k in c && Stale(c, k, namespace, tag, names) && RefusesDelete(delete(k.1))
  }

  /** What is applied before a prune is wanted, so it does not matter to whether the prune fails. */
  lemma PruneIgnoresWanted<V>(c: Children<V>, namespace: string, tag: string, want: map<string, Owned<V>>, list: Fault, delete: string -> Fault)
    ensures PruneFails(c + Placed(namespace, want), namespace, tag, want.Keys, list, delete) <==>
            PruneFails(c, namespace, tag, want.Keys, list, delete)
  {
    var all := c + Placed(namespace, want);
    if k :| k in all && Stale(all, k, namespace, tag, want.Keys) && RefusesDelete(delete(k.1)) {
      assert k in c && Stale(c, k, namespace, tag, want.Keys);
    }
    if k :| k in c && Stale(c, k, namespace, tag, want.Keys) && RefusesDelete(delete(k.1)) {
      assert k in all && Stale(all, k, namespace, tag, want.Keys);
    }
  }

  /** Deletes the owner's unwanted children. On an error some may remain; nothing
      else is touched, and no error is made up. */
  method Prune<V>(c: Children<V>, namespace: string, tag: string, names: set<string>, list: Fault, delete: string -> Fault)
    returns (c': Children<V>, err: Option<Err>)
    ensures err.None? ==> c' == Pruned(c, namespace, tag, names)
    ensures forall k :: k in c' ==> k in c && c'[k] == c[k]
    ensures forall k :: k in c && !Stale(c, k, namespace, tag, names) ==> k in c'
    ensures err.Some? <==> PruneFails(c, namespace, tag, names, list, delete)
    ensures !list.Fine? ==> c' == c
  {
    c' := c;
    if !list.Fine? {
      return c', Some(list.err);
    }
    var items := set k | k in c && k.0 == namespace && c[k].tag == tag;
    while items != {}
      invariant forall k :: k in c' ==> k in c && c'[k] == c[k]
      invariant forall k :: k in c && !Stale(c, k, namespace, tag, names) ==> k in c'
      invariant forall k :: k in items ==> k in c && k.0 == namespace && c[k].tag == tag
      invariant forall k :: k in c' && Stale(c, k, namespace, tag, names) ==> k in items
      invariant forall k :: k in c && Stale(c, k, namespace, tag, names) && RefusesDelete(delete(k.1)) ==> k in items
      decreases |items|
    {
      var k :| k in items;
      items := items - {k};
      if k.1 !in names {
        var f := delete(k.1);
        if !f.Lost? || f.err == NotFound {
          // Deleted, or already gone.
          c' := map j | j in c' && j != k :: c'[j];
        }
        if !f.Fine? && f.err != NotFound {
          return c', Some(f.err);
        }
      }
    }
    return c', None;
  }

  ghost predicate Tagged<V>(want: map<string, Owned<V>>, tag: string) {
    forall n :: n in want ==> want[n].tag == tag
  }

  /** After a sync the namespace's children under the tag are the wanted ones,
      no more and no fewer, and a second sync changes nothing. */
  lemma SyncIsExact<V>(c: Children<V>, namespace: string, tag: string, want: map<string, Owned<V>>)
    requires Tagged(want, tag)
    ensures var after := Synced(c, namespace, tag, want);
            && (forall k: Key :: k.0 == namespace && k in after && after[k].tag == tag ==> k.1 in want && after[k] == want[k.1])
            && (forall n :: n in want ==> (namespace, n) in after && after[(namespace, n)] == want[n])
            && Synced(after, namespace, tag, want) == after
  {
    var after := Synced(c, namespace, tag, want);
    assert after + Placed(namespace, want) == after;
    assert Pruned(after, namespace, tag, want.Keys) == after;
  }

  /** No wanted name belongs to a child of another owner. */
  ghost predicate NoForeign<V>(c: Children<V>, namespace: string, tag: string, want: map<string, Owned<V>>) {
    forall n :: n in want && (namespace, n) in c ==> c[(namespace, n)].tag == tag
  }

  /** Children of other namespaces and other owners come through a sync as they were. */
  lemma OthersAreUntouched<V>(c: Children<V>, namespace: string, tag: string, want: map<string, Owned<V>>)
    requires Tagged(want, tag) && NoForeign(c, namespace, tag, want)
    ensures var after := Synced(c, namespace, tag, want);
            && (forall k: Key :: k in c && (k.0 != namespace || c[k].tag != tag) ==> k in after && after[k] == c[k])
            && (forall k: Key :: k in after && (k.0 != namespace || after[k].tag != tag) ==> k in c && after[k] == c[k])
  {
  }
}
