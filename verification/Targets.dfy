/** The targets of a NetBird service and the order they are sent in
    (internal/controller/reverseproxyservice_mirror.go). */
module Targets {
  import opened Api
  import opened Sequences

  datatype Protocol = HttpProtocol | TcpProtocol | UdpProtocol

  datatype Target =
    | Cluster(host: string, port: int, protocol: Protocol, address: string, path: Option<string>)
    | Host(resource: Id, port: int, protocol: Protocol, proxyProtocol: Option<bool>)

  /** Go's string order. */
  predicate StringLess(a: string, b: string) {
    if b == "" then false
    else if a == "" then true
    else if a[0] != b[0] then a[0] < b[0]
    else StringLess(a[1..], b[1..])
  }

  /** a comes before b: they agree up to a place where a ends or has the smaller character. */
  lemma {:induction false} StringLessMeans(a: string, b: string)
    ensures StringLess(a, b) <==>
            exists k :: 0 <= k <= |a| && k < |b| && a[..k] == b[..k] && (k == |a| || a[k] < b[k])
  {
    if a != "" && b != "" && a[0] == b[0] {
      StringLessMeans(a[1..], b[1..]);
      if StringLess(a, b) {
        var k :| 0 <= k <= |a[1..]| && k < |b[1..]| && a[1..][..k] == b[1..][..k] && (k == |a[1..]| || a[1..][k] < b[1..][k]);
        assert a[..k + 1] == [a[0]] + a[1..][..k] && b[..k + 1] == [b[0]] + b[1..][..k];
      }
      if k :| 0 <= k <= |a| && k < |b| && a[..k] == b[..k] && (k == |a| || a[k] < b[k]) {
        assert k > 0;
        assert a[1..][..k - 1] == a[..k][1..] && b[1..][..k - 1] == b[..k][1..];
      }
    } else if a == "" && b != "" {
      assert a[..0] == b[..0];
    } else if a != "" && b != "" {
      assert a[..0] == b[..0];
      assert forall k :: 0 < k <= |a| && k < |b| ==> a[..k][0] == a[0] && b[..k][0] == b[0];
    }
  }

  lemma {:induction false} StringOrder(a: string, b: string)
    ensures !(StringLess(a, b) && StringLess(b, a))
    ensures a != b <==> StringLess(a, b) || StringLess(b, a)
  {
    if a != "" && b != "" && a[0] == b[0] {
      StringOrder(a[1..], b[1..]);
      assert a == [a[0]] + a[1..] && b == [b[0]] + b[1..];
    }
  }

  lemma {:induction false} StringLessIsTransitive(a: string, b: string, c: string)
    requires StringLess(a, b) && StringLess(b, c)
    ensures StringLess(a, c)
  {
    if a != "" && a[0] == b[0] == c[0] {
      StringLessIsTransitive(a[1..], b[1..], c[1..]);
    }
  }

  function HostOf(t: Target): string {
    if t.Cluster? then t.host else ""
  }

  predicate SameKey(a: Target, b: Target) {
    HostOf(a) == HostOf(b) && a.port == b.port
  }

  predicate TargetLess(a: Target, b: Target) {
    if HostOf(a) != HostOf(b) then StringLess(HostOf(a), HostOf(b)) else a.port < b.port
  }

  lemma TargetOrder(a: Target, b: Target)
    ensures !(TargetLess(a, b) && TargetLess(b, a))
    ensures !SameKey(a, b) <==> TargetLess(a, b) || TargetLess(b, a)
  {
    StringOrder(HostOf(a), HostOf(b));
  }

  lemma NotLessIsTransitive(a: Target, b: Target, c: Target)
    requires !TargetLess(b, a) && !TargetLess(c, b)
    ensures !TargetLess(c, a)
  {
    TargetOrder(a, b);
    TargetOrder(b, c);
    TargetOrder(a, c);
    if TargetLess(c, a) && TargetLess(a, b) && HostOf(c) != HostOf(a) && HostOf(a) != HostOf(b) {
      StringLessIsTransitive(HostOf(c), HostOf(a), HostOf(b));
    }
  }

  ghost predicate Sorted(ts: seq<Target>) {
    forall i, j :: 0 <= i < j < |ts| ==> !TargetLess(ts[j], ts[i])
  }

  /** Sorted means: hosts never descend, and ports of one host never do; the host of an
      L4 target is empty. */
  lemma SortedMeans(ts: seq<Target>)
    ensures Sorted(ts) <==>
            forall i, j :: 0 <= i < j < |ts| ==>
              var hi, hj := if ts[i].Cluster? then ts[i].host else "", if ts[j].Cluster? then ts[j].host else "";
              !StringLess(hj, hi) && (hi == hj ==> ts[i].port <= ts[j].port)
  {
    forall i, j | 0 <= i < j < |ts|
      ensures !TargetLess(ts[j], ts[i]) <==>
              var hi, hj := if ts[i].Cluster? then ts[i].host else "", if ts[j].Cluster? then ts[j].host else "";
              !StringLess(hj, hi) && (hi == hj ==> ts[i].port <= ts[j].port)
    {
      StringOrder(HostOf(ts[i]), HostOf(ts[j]));
    }
  }

  /** out is a result sort.Slice may leave: sorted, with ties in any order. */
  ghost predicate SortsTo(ts: seq<Target>, out: seq<Target>) {
    multiset(out) == multiset(ts) && Sorted(out)
  }

  function Insert(t: Target, s: seq<Target>): seq<Target> {
    if s == [] then [t]
    else if TargetLess(s[0], t) then [s[0]] + Insert(t, s[1..])
    else [t] + s
  }

  lemma {:induction false} InsertPermutes(t: Target, s: seq<Target>)
    ensures multiset(Insert(t, s)) == multiset(s) + multiset{t}
  {
    if s != [] {
      InsertPermutes(t, s[1..]);
      assert s == [s[0]] + s[1..];
    }
  }

  lemma SortedCons(t: Target, s: seq<Target>)
    requires Sorted(s) && forall x :: x in s ==> !TargetLess(x, t)
    ensures Sorted([t] + s)
  {
  }

  lemma {:induction false} InsertSorts(t: Target, s: seq<Target>)
    requires Sorted(s)
    ensures Sorted(Insert(t, s))
  {
    if s != [] && TargetLess(s[0], t) {
      var r := Insert(t, s[1..]);
      InsertSorts(t, s[1..]);
      InsertPermutes(t, s[1..]);
      TargetOrder(s[0], t);
      forall x | x in r ensures !TargetLess(x, s[0]) {
        assert x in multiset(r);
      }
      SortedCons(s[0], r);
    } else if s != [] {
      forall x | x in s ensures !TargetLess(x, t) {
        if x != s[0] { NotLessIsTransitive(t, s[0], x); }
      }
      SortedCons(t, s);
    }
  }

  /** sort.Slice: which of the sorted arrangements it leaves is not part of its
      contract, so the laws below are about all of them. */
  method SortServiceTargets(targets: seq<Target>) returns (out: seq<Target>)
    ensures SortsTo(targets, out)
  {
    out := [];
    for i := 0 to |targets|
      invariant SortsTo(targets[..i], out)
    {
      assert targets[..i + 1] == targets[..i] + [targets[i]];
      InsertSorts(targets[i], out);
      InsertPermutes(targets[i], out);
      out := Insert(targets[i], out);
    }
    assert targets[..|targets|] == targets;
  }

  /** Targets of one host and port are the same target. */
  ghost predicate NoTies(ts: seq<Target>) {
    forall x, y :: x in ts && y in ts && SameKey(x, y) ==> x == y
  }

  lemma SortedHeadsAgree(a: seq<Target>, b: seq<Target>)
    requires Sorted(a) && Sorted(b) && multiset(a) == multiset(b) && NoTies(a) && a != [] && b != []
    ensures a[0] == b[0]
  {
    assert b[0] in multiset(a) && a[0] in multiset(b);
    TargetOrder(a[0], b[0]);
  }

  lemma TailIsSorted(a: seq<Target>)
    requires Sorted(a) && a != []
    ensures Sorted(a[1..]) && multiset(a[1..]) == multiset(a) - multiset{a[0]}
    ensures NoTies(a) ==> NoTies(a[1..])
  {
    assert a == [a[0]] + a[1..];
  }

  lemma {:induction false} SortedIsUnique(a: seq<Target>, b: seq<Target>)
    requires Sorted(a) && Sorted(b) && multiset(a) == multiset(b) && NoTies(a)
    ensures a == b
  {
    assert |a| == |multiset(a)| && |b| == |multiset(b)|;
    if a != [] {
      SortedHeadsAgree(a, b);
      TailIsSorted(a);
      TailIsSorted(b);
      SortedIsUnique(a[1..], b[1..]);
      assert a == [a[0]] + a[1..] && b == [b[0]] + b[1..];
    }
  }

  lemma SwapTies(s: seq<Target>, p: nat, q: nat)
    requires Sorted(s) && p < q < |s| && SameKey(s[p], s[q])
    ensures SortsTo(s, s[p := s[q]][q := s[p]])
  {
    var t := s[p := s[q]][q := s[p]];
    forall i | 0 <= i < |s| ensures SameKey(t[i], s[i]) {}
    forall i, j | 0 <= i < j < |t| ensures !TargetLess(t[j], t[i]) {
      assert !TargetLess(s[j], s[i]);
    }
  }

  lemma TiesGiveTwoOrders(ts: seq<Target>, x: Target, y: Target) returns (s: seq<Target>, t: seq<Target>)
    requires x in ts && y in ts && SameKey(x, y) && x != y
    ensures SortsTo(ts, s) && SortsTo(ts, t) && s != t
  {
    s := SomeSort(ts);
    PermutationMembers(s, ts, x);
    PermutationMembers(s, ts, y);
    var p, q :| 0 <= p < |s| && 0 <= q < |s| && s[p] == x && s[q] == y;
    var lo, hi := if p < q then p else q, if p < q then q else p;
    SwapTies(s, lo, hi);
    t := s[lo := s[hi]][hi := s[lo]];
    assert s[lo] != t[lo];
  }

  /** The rendered order is determined by the set of targets exactly when no two
      different targets share a host and a port. */
  lemma OrderIsDeterminedIff(ts: seq<Target>)
    ensures (forall a, b :: SortsTo(ts, a) && SortsTo(ts, b) ==> a == b) <==> NoTies(ts)
  {
    if NoTies(ts) {
      forall a, b | SortsTo(ts, a) && SortsTo(ts, b) ensures a == b {
        forall x ensures x in a <==> x in ts { PermutationMembers(a, ts, x); }
        SortedIsUnique(a, b);
      }
    } else {
      var x, y :| x in ts && y in ts && SameKey(x, y) && x != y;
      var s, t := TiesGiveTwoOrders(ts, x, y);
    }
  }

  lemma {:induction false} SomeSort(ts: seq<Target>) returns (s: seq<Target>)
    ensures SortsTo(ts, s)
  {
    if ts == [] {
      s := [];
    } else {
      var r := SomeSort(ts[1..]);
      InsertSorts(ts[0], r);
      InsertPermutes(ts[0], r);
      assert ts == [ts[0]] + ts[1..];
      s := Insert(ts[0], r);
    }
  }
}
