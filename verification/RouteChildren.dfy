/** The HTTPRoute reconciler's children: exactly one ReverseProxyService per
    admitted hostname (internal/controller/gateway_controller.go). */
module RouteChildren {
  import opened Api
  import opened Admission
  import opened RouteCompiler
  import opened ChildNames
  import opened ChildSets

  /** A translated ReverseProxyService; its tag is the value of the
      gateway.netbird.io/httproute label. */
  datatype RouteChild = RouteChild(domain: string, cluster: string, backends: seq<Backend>)

  type Child = Owned<RouteChild>

  /** A Gateway as the route's parent lookup finds it; ours tells whether its
      class exists and names this controller. */
  datatype Parent = Parent(gateway: Gateway, ours: bool)

  datatype Outcome =
    | Detached | NoListener | Unsupported(reason: Reason) | Translated | NoMatchingHostname | NoConcreteHostname
    | Failed(err: Err)

  /** Per-call answers: gateway reads, the apply of the k-th hostname's child, the
      child list, the delete of a child by name, and the status update. */
  datatype RouteEnv = RouteEnv(
    getGateway: nat -> Fault, apply: nat -> Fault, list: Fault, delete: string -> Fault, status: Fault)

  ghost predicate Quiet(env: RouteEnv) {
    && (forall i :: env.getGateway(i) == Fine) && (forall i :: env.apply(i) == Fine)
    && env.list.Fine? && (forall n :: env.delete(n) == Fine) && env.status.Fine?
  }

  function ParentKey(route: Route, p: ParentRef): Key {
    (if p.namespace.Some? then p.namespace.value else route.namespace, p.name)
  }

  /** Parent i is found and is a Gateway of ours. */
  predicate Candidate(route: Route, parents: map<Key, Parent>, env: RouteEnv, i: nat)
    requires i < |route.parents|
  {
    env.getGateway(i).Fine? && ParentKey(route, route.parents[i]) in parents && parents[ParentKey(route, route.parents[i])].ours
  }

  /** Before a Gateway of ours is found, a read fails with something other than "not found". */
  ghost predicate BrokenRead(route: Route, parents: map<Key, Parent>, env: RouteEnv) {
    exists i :: 0 <= i < |route.parents| && !env.getGateway(i).Fine? && env.getGateway(i).err != NotFound
                && forall j :: 0 <= j < i ==> !Candidate(route, parents, env, j)
  }

  /** gw is the first parent that is a Gateway of ours, if there is one. */
  ghost predicate Resolves(route: Route, parents: map<Key, Parent>, env: RouteEnv, gw: Option<Gateway>) {
    match gw
    case None => forall i :: 0 <= i < |route.parents| ==> !Candidate(route, parents, env, i)
    case Some(g) =>
      exists i :: 0 <= i < |route.parents| && Candidate(route, parents, env, i)
                  && g == parents[ParentKey(route, route.parents[i])].gateway
                  && forall j :: 0 <= j < i ==> !Candidate(route, parents, env, j)
  }

  method ResolveGateway(route: Route, parents: map<Key, Parent>, env: RouteEnv) returns (r: Reply<Option<Gateway>>)
    ensures r.Ok? ==> Resolves(route, parents, env, r.value)
    ensures r.Fail? <==> BrokenRead(route, parents, env)
  {
    for i := 0 to |route.parents|
      invariant forall j :: 0 <= j < i ==> !Candidate(route, parents, env, j)
      invariant forall j :: 0 <= j < i ==> env.getGateway(j).Fine? || env.getGateway(j).err == NotFound
    {
      var f := env.getGateway(i);
      if !f.Fine? && f.err != NotFound {
        return Fail(f.err);
      }
      var key := ParentKey(route, route.parents[i]);
      if !f.Fine? || key !in parents || !parents[key].ours {
        continue;
      }
      assert Candidate(route, parents, env, i);
      return Ok(Some(parents[key].gateway));
    }
    return Ok(None);
  }

  // ---- What the children become ----

  /** The children wanted for these hostnames, by name. */
  function Wanted(hash: Hash, route: string, tag: string, hosts: seq<string>, cluster: string, backends: seq<Backend>)
    : map<string, Child>
  {
    if hosts == [] then map[]
    else
      var h := hosts[|hosts| - 1];
      Wanted(hash, route, tag, hosts[..|hosts| - 1], cluster, backends)[RouteChildName(hash, route, h) := Owned(tag, RouteChild(h, cluster, backends))]
  }

  lemma OneMoreWanted(hash: Hash, route: string, tag: string, hosts: seq<string>, i: nat, cluster: string, backends: seq<Backend>)
    requires i < |hosts|
    ensures Wanted(hash, route, tag, hosts[..i + 1], cluster, backends) ==
            Wanted(hash, route, tag, hosts[..i], cluster, backends)
              [RouteChildName(hash, route, hosts[i]) := Owned(tag, RouteChild(hosts[i], cluster, backends))]
  {
    assert hosts[..i + 1][..i] == hosts[..i];
  }

  /** k is the child of the route for one of these hostnames. */
  predicate Names(hash: Hash, route: Route, hosts: seq<string>, k: Key) {
    k.0 == route.namespace && exists i :: 0 <= i < |hosts| && k.1 == RouteChildName(hash, route.name, hosts[i])
  }

  /** The state of the apply loop: the children of the hostnames done are in place. */
  ghost predicate AppliedUpTo(hash: Hash, c: Children<RouteChild>, after: Children<RouteChild>, route: Route, tag: string, done: seq<string>,
                              cluster: string, backends: seq<Backend>, want: map<string, Child>, mine: string -> bool) {
    && want == Wanted(hash, route.name, tag, done, cluster, backends)
    && after == c + Placed(route.namespace, want)
    && OnlyTagged(c, after, route.namespace, tag, mine)
  }

  lemma AppliedGrows(hash: Hash, c: Children<RouteChild>, after: Children<RouteChild>, route: Route, tag: string, hosts: seq<string>, i: nat,
                     cluster: string, backends: seq<Backend>, want: map<string, Child>, mine: string -> bool)
    requires i < |hosts| && mine(RouteChildName(hash, route.name, hosts[i]))
    requires AppliedUpTo(hash, c, after, route, tag, hosts[..i], cluster, backends, want, mine)
    ensures var name, child := RouteChildName(hash, route.name, hosts[i]), Owned(tag, RouteChild(hosts[i], cluster, backends));
            AppliedUpTo(hash, c, after[(route.namespace, name) := child], route, tag, hosts[..i + 1], cluster, backends,
                        want[name := child], mine)
  {
    var name, child := RouteChildName(hash, route.name, hosts[i]), Owned(tag, RouteChild(hosts[i], cluster, backends));
    OneMoreWanted(hash, route.name, tag, hosts, i, cluster, backends);
    PlaceOneMore(c, route.namespace, want, name, child);
    WriteTagged(c, after, route.namespace, name, child, mine);
  }

  /** The names of the route's children, for any hostname. */
  ghost function NamesOf(hash: Hash, route: string): string -> bool {
    (n: string) => exists h :: n == RouteChildName(hash, route, h)
  }

  lemma NamedForHost(hash: Hash, route: string, h: string)
    ensures NamesOf(hash, route)(RouteChildName(hash, route, h))
  {
  }

  /** The outcome of an error-free reconcile: which Gateway and which proxy
      configuration it went by, and which hostnames it translated. */
  ghost predicate Settled(outcome: Outcome, route: Route, rules: seq<Rule>, gw: Option<Gateway>, cfg: Option<ProxyConfig>, hosts: seq<string>) {
    match outcome
    case Detached => gw.None? && cfg.None? && hosts == []
    case NoListener => gw.Some? && cfg.None? && Configures(gw.value, cfg) && hosts == []
    case Unsupported(reason) =>
      gw.Some? && cfg.Some? && Configures(gw.value, cfg) && !Translatable(rules) && Accurate(reason, rules) && hosts == []
    case Failed(_) => false
    case _ =>
      && gw.Some? && cfg.Some? && Configures(gw.value, cfg) && Translatable(rules) && NoRepeats(hosts)
      && (forall h :: h in hosts <==> ToTranslate(gw.value, route, cfg.value.domain, h))
      && outcome == if hosts != [] then Translated else if route.hostnames != [] then NoMatchingHostname else NoConcreteHostname
  }

  /** What a reconcile sets out to do, whether or not it gets there: it goes by the
      Gateway's configuration, and translates the hostnames admitted when there is one
      and the rules can be translated, and none otherwise. */
  ghost predicate Plans(route: Route, rules: seq<Rule>, gw: Option<Gateway>, cfg: Option<ProxyConfig>, hosts: seq<string>) {
    && (gw.None? ==> cfg.None?) && (gw.Some? ==> Configures(gw.value, cfg))
    && (if cfg.Some? && gw.Some? && Translatable(rules)
        then NoRepeats(hosts) && forall h :: h in hosts <==> ToTranslate(gw.value, route, cfg.value.domain, h)
        else hosts == [])
  }

  class RouteReconciler {
    var children: Children<RouteChild>
    const hash: Hash

    constructor (hash: Hash)
      ensures children == map[] && this.hash == hash
    {
      this.hash, children := hash, map[];
    }

    /** Applies one child per admitted hostname, in order, until a call fails. */
    method ApplyAll(route: Route, hosts: seq<string>, cluster: string, backends: seq<Backend>, env: RouteEnv,
                    ghost mine: string -> bool)
      returns (want: map<string, Child>, err: Option<Err>)
      requires forall i :: 0 <= i < |hosts| ==> mine(RouteChildName(hash, route.name, hosts[i]))
      modifies this`children
      ensures err.None? ==> want == Wanted(hash, route.name, RouteLabel(hash, route.name), hosts, cluster, backends)
      ensures err.None? ==> children == old(children) + Placed(route.namespace, want)
      ensures OnlyTagged(old(children), children, route.namespace, RouteLabel(hash, route.name), mine)
      ensures err.None? <==> FirstFine(env.apply, |hosts|)
      ensures old(children).Keys <= children.Keys
    {
      want := map[];
      var tag := RouteLabel(hash, route.name);
      for i := 0 to |hosts|
        invariant AppliedUpTo(hash, old(children), children, route, tag, hosts[..i], cluster, backends, want, mine)
        invariant FirstFine(env.apply, i)
      {
        var name := RouteChildName(hash, route.name, hosts[i]);
        var child := Owned(tag, RouteChild(hosts[i], cluster, backends));
        AppliedGrows(hash, old(children), children, route, tag, hosts, i, cluster, backends, want, mine);
        var f := env.apply(i);
        if !f.Lost? {
          children := children[(route.namespace, name) := child];
        }
        if !f.Fine? {
          OneFails(env.apply, i, |hosts|);
          return want, Some(f.err);
        }
        want := want[name := child];
      }
      assert hosts[..|hosts|] == hosts;
      return want, None;
    }

    /** The reconcile is error-free unless the outcome is Failed; then the
        route's children are exactly those of the hostnames translated. */
    method Reconcile(route: Route, rules: seq<Rule>, parents: map<Key, Parent>, env: RouteEnv)
      returns (outcome: Outcome, hosts: seq<string>, ghost gw: Option<Gateway>, ghost cfg: Option<ProxyConfig>)
      modifies this`children
      ensures BrokenRead(route, parents, env) ==> outcome.Failed? && children == old(children)
      ensures !BrokenRead(route, parents, env) ==> Resolves(route, parents, env, gw) && Plans(route, rules, gw, cfg, hosts)
      ensures !outcome.Failed? ==> Settled(outcome, route, rules, gw, cfg, hosts)
      ensures !outcome.Failed? ==>
        children == SyncedRoute(hash, old(children), route, hosts, ClusterOf(cfg), FanOut(rules))
      ensures !BrokenRead(route, parents, env) ==>
        (outcome.Failed? <==>
         || !FirstFine(env.apply, |hosts|) || (cfg.Some? && !env.status.Fine?)
         || PruneFails(old(children), route.namespace, RouteLabel(hash, route.name),
                       Wanted(hash, route.name, RouteLabel(hash, route.name), hosts, ClusterOf(cfg), FanOut(rules)).Keys, env.list, env.delete))
      ensures !BrokenRead(route, parents, env) && !FirstFine(env.apply, |hosts|) ==> old(children).Keys <= children.Keys
      ensures OnlyTagged(old(children), children, route.namespace, RouteLabel(hash, route.name), NamesOf(hash, route.name))
    {
      hosts, gw, cfg := [], None, None;
      var resolved := ResolveGateway(route, parents, env);
      if resolved.Fail? {
        return Failed(resolved.err), [], None, None;
      }
      if resolved.value.None? {
        outcome := PruneAll(route, Detached, env);
        return;
      }
      gw := resolved.value;
      var proxy := GatewayProxyConfig(resolved.value.value);
      cfg := proxy;
      if proxy.None? {
        outcome := PruneAll(route, NoListener, env);
        return;
      }
      var compiled := RouteBackends(rules);
      if compiled.Rejected? {
        outcome := PruneAll(route, Unsupported(compiled.reason), env);
        if !outcome.Failed? && !env.status.Fine? {
          outcome := Failed(env.status.err);
        }
        return;
      }
      var admitted := AdmittedHostnames(resolved.value.value, route, proxy.value.domain);
      forall i | 0 <= i < |admitted| ensures NamesOf(hash, route.name)(RouteChildName(hash, route.name, admitted[i])) {
        NamedForHost(hash, route.name, admitted[i]);
      }
      hosts := admitted;
      PruneIgnoresWanted(children, route.namespace, RouteLabel(hash, route.name),
                         Wanted(hash, route.name, RouteLabel(hash, route.name), hosts, proxy.value.clusterAddress, compiled.backends),
                         env.list, env.delete);
      var want, err := ApplyAll(route, admitted, proxy.value.clusterAddress, compiled.backends, env, NamesOf(hash, route.name));
      if err.Some? {
        return Failed(err.value), hosts, gw, cfg;
      }
      children, err := Prune(children, route.namespace, RouteLabel(hash, route.name), want.Keys, env.list, env.delete);
      if err.Some? {
        return Failed(err.value), hosts, gw, cfg;
      }
      if !env.status.Fine? {
        return Failed(env.status.err), hosts, gw, cfg;
      }
      outcome := if |hosts| > 0 then Translated else if |route.hostnames| > 0 then NoMatchingHostname else NoConcreteHostname;
    }

    method PruneAll(route: Route, good: Outcome, env: RouteEnv) returns (outcome: Outcome)
      requires !good.Failed?
      modifies this`children
      ensures outcome == good || outcome.Failed?
      ensures !outcome.Failed? ==> children == Synced(old(children), route.namespace, RouteLabel(hash, route.name), map[])
      ensures OnlyTagged(old(children), children, route.namespace, RouteLabel(hash, route.name), NamesOf(hash, route.name))
      ensures outcome.Failed? <==> PruneFails(old(children), route.namespace, RouteLabel(hash, route.name), {}, env.list, env.delete)
    {
      SyncOfNothing(children, route.namespace, RouteLabel(hash, route.name));
      var err;
      children, err := Prune(children, route.namespace, RouteLabel(hash, route.name), {}, env.list, env.delete);
      return if err.Some? then Failed(err.value) else good;
    }
  }

  // ---- The exact child set ----

  /** The hash tells the pairs (route, h) apart for the hostnames at hand. */
  ghost predicate NoCollisions(hash: Hash, route: string, hosts: seq<string>) {
    forall i, j :: 0 <= i < |hosts| && 0 <= j < |hosts| ==> NoCollision(hash, route, hosts[i], route, hosts[j])
  }

  /** One wanted child per hostname, carrying that hostname. */
  ghost predicate OneEach(want: map<string, Child>, hash: Hash, route: string, tag: string, hosts: seq<string>, cluster: string,
                          backends: seq<Backend>) {
    && (forall i :: 0 <= i < |hosts| ==>
          && RouteChildName(hash, route, hosts[i]) in want
          && want[RouteChildName(hash, route, hosts[i])] == Owned(tag, RouteChild(hosts[i], cluster, backends)))
    && (forall n :: n in want ==> exists i :: 0 <= i < |hosts| && n == RouteChildName(hash, route, hosts[i]))
  }

  lemma {:induction false} WantedIsExact(hash: Hash, route: string, tag: string, hosts: seq<string>, cluster: string,
                                         backends: seq<Backend>)
    requires EightHexDigits(hash) && NulFree(route) && NoCollisions(hash, route, hosts)
    ensures OneEach(Wanted(hash, route, tag, hosts, cluster, backends), hash, route, tag, hosts, cluster, backends)
  {
    if hosts != [] {
      var n := |hosts| - 1;
      assert NoCollisions(hash, route, hosts[..n]);
      WantedIsExact(hash, route, tag, hosts[..n], cluster, backends);
      forall i | 0 <= i < n ensures RouteChildName(hash, route, hosts[i]) == RouteChildName(hash, route, hosts[n]) ==> hosts[i] == hosts[n] {
        if RouteChildName(hash, route, hosts[i]) == RouteChildName(hash, route, hosts[n]) {
          RouteChildNameIsInjective(hash, route, hosts[i], route, hosts[n]);
        }
      }
      OneMore(Wanted(hash, route, tag, hosts[..n], cluster, backends), hash, route, tag, hosts, cluster, backends);
    }
  }

  lemma OneMore(want: map<string, Child>, hash: Hash, route: string, tag: string, hosts: seq<string>, cluster: string,
                backends: seq<Backend>)
    requires hosts != [] && OneEach(want, hash, route, tag, hosts[..|hosts| - 1], cluster, backends)
    requires forall i :: 0 <= i < |hosts| - 1 && RouteChildName(hash, route, hosts[i]) == RouteChildName(hash, route, hosts[|hosts| - 1]) ==>
               hosts[i] == hosts[|hosts| - 1]
    ensures OneEach(want[RouteChildName(hash, route, hosts[|hosts| - 1]) := Owned(tag, RouteChild(hosts[|hosts| - 1], cluster, backends))],
                    hash, route, tag, hosts, cluster, backends)
  {
    var name := (h: string) => RouteChildName(hash, route, h);
    var child := (h: string) => Owned(tag, RouteChild(h, cluster, backends));
    var n := |hosts| - 1;
    forall i | 0 <= i < n ensures name(hosts[..n][i]) in want && want[name(hosts[..n][i])] == child(hosts[..n][i]) {
      assert RouteChildName(hash, route, hosts[..n][i]) in want;
    }
    forall m | m in want ensures exists i :: 0 <= i < n && m == name(hosts[..n][i]) {
      var i :| 0 <= i < n && m == RouteChildName(hash, route, hosts[..n][i]);
      assert m == name(hosts[..n][i]);
    }
    OneMoreNamed(want, name, child, hosts);
  }

  /** want holds the child of each host under its name, and nothing else. */
  ghost predicate OneEachNamed(want: map<string, Child>, name: string -> string, child: string -> Child, hosts: seq<string>) {
    && (forall i :: 0 <= i < |hosts| ==> name(hosts[i]) in want && want[name(hosts[i])] == child(hosts[i]))
    && (forall m :: m in want ==> exists i :: 0 <= i < |hosts| && m == name(hosts[i]))
  }

  lemma OneMoreNamed(want: map<string, Child>, name: string -> string, child: string -> Child, hosts: seq<string>)
    requires hosts != [] && OneEachNamed(want, name, child, hosts[..|hosts| - 1])
    requires forall i :: 0 <= i < |hosts| - 1 && name(hosts[i]) == name(hosts[|hosts| - 1]) ==> hosts[i] == hosts[|hosts| - 1]
    ensures OneEachNamed(want[name(hosts[|hosts| - 1]) := child(hosts[|hosts| - 1])], name, child, hosts)
  {
    var n := |hosts| - 1;
    assert forall i :: 0 <= i < n ==> hosts[..n][i] == hosts[i];
    forall m | m in want ensures exists i :: 0 <= i < |hosts| && m == name(hosts[i]) {
      var i :| 0 <= i < n && m == name(hosts[..n][i]);
      assert m == name(hosts[i]);
    }
  }

  /** The wanted children do not depend on the order of the hostnames. */
  lemma WantedIgnoresOrder(hash: Hash, route: string, tag: string, hosts1: seq<string>, hosts2: seq<string>, cluster: string,
                           backends: seq<Backend>)
    requires EightHexDigits(hash) && NulFree(route) && NoCollisions(hash, route, hosts1) && NoCollisions(hash, route, hosts2)
    requires forall h :: h in hosts1 <==> h in hosts2
    ensures Wanted(hash, route, tag, hosts1, cluster, backends) == Wanted(hash, route, tag, hosts2, cluster, backends)
  {
    WantedIsExact(hash, route, tag, hosts1, cluster, backends);
    WantedIsExact(hash, route, tag, hosts2, cluster, backends);
    EqualWanted(Wanted(hash, route, tag, hosts1, cluster, backends), Wanted(hash, route, tag, hosts2, cluster, backends),
                hash, route, tag, hosts1, hosts2, cluster, backends);
  }

  lemma EqualWanted(w1: map<string, Child>, w2: map<string, Child>, hash: Hash, route: string, tag: string, hosts1: seq<string>,
                    hosts2: seq<string>, cluster: string, backends: seq<Backend>)
    requires OneEach(w1, hash, route, tag, hosts1, cluster, backends) && OneEach(w2, hash, route, tag, hosts2, cluster, backends)
    requires forall h :: h in hosts1 <==> h in hosts2
    ensures w1 == w2
  {
    SameWanted(w1, w2, hash, route, tag, hosts1, hosts2, cluster, backends);
    SameWanted(w2, w1, hash, route, tag, hosts2, hosts1, cluster, backends);
  }

  lemma SameWanted(w1: map<string, Child>, w2: map<string, Child>, hash: Hash, route: string, tag: string, hosts1: seq<string>,
                   hosts2: seq<string>, cluster: string, backends: seq<Backend>)
    requires OneEach(w1, hash, route, tag, hosts1, cluster, backends) && OneEach(w2, hash, route, tag, hosts2, cluster, backends)
    requires forall h :: h in hosts1 ==> h in hosts2
    ensures forall n :: n in w1 ==> n in w2 && w1[n] == w2[n]
  {
    forall n | n in w1 ensures n in w2 && w1[n] == w2[n] {
      var i :| 0 <= i < |hosts1| && n == RouteChildName(hash, route, hosts1[i]);
      var h := hosts1[i];
      assert w1[n] == Owned(tag, RouteChild(h, cluster, backends));
      assert h in hosts2;
      WantedAt(w2, hash, route, tag, hosts2, cluster, backends, h);
    }
  }

  lemma WantedAt(want: map<string, Child>, hash: Hash, route: string, tag: string, hosts: seq<string>, cluster: string,
                 backends: seq<Backend>, h: string)
    requires OneEach(want, hash, route, tag, hosts, cluster, backends) && h in hosts
    ensures RouteChildName(hash, route, h) in want && want[RouteChildName(hash, route, h)] == Owned(tag, RouteChild(h, cluster, backends))
  {
    var j :| 0 <= j < |hosts| && hosts[j] == h;
  }

  /** Every child was made for some NUL-free route and hostname, under that
      route's tag, and the hash tells it apart from the pairs at hand. */
  ghost predicate OperatorMade(hash: Hash, c: Children<RouteChild>, route: string, hosts: seq<string>) {
    forall k :: k in c ==> exists r, h :: MadeFor(hash, c, k, r, h) && Apart(hash, r, h, route, hosts)
  }

  ghost predicate MadeFor(hash: Hash, c: Children<RouteChild>, k: Key, r: string, h: string)
    requires k in c
  {
    NulFree(r) && k.1 == RouteChildName(hash, r, h) && c[k].tag == RouteLabel(hash, r)
  }

  ghost predicate Apart(hash: Hash, r: string, h: string, route: string, hosts: seq<string>) {
    forall i :: 0 <= i < |hosts| ==> NoCollision(hash, r, h, route, hosts[i])
  }

  lemma OperatorMadeIsNotForeign(hash: Hash, c: Children<RouteChild>, route: Route, hosts: seq<string>, cluster: string, backends: seq<Backend>)
    requires EightHexDigits(hash) && NulFree(route.name) && NoCollisions(hash, route.name, hosts)
    requires OperatorMade(hash, c, route.name, hosts)
    ensures var tag := RouteLabel(hash, route.name);
            NoForeign(c, route.namespace, tag, Wanted(hash, route.name, tag, hosts, cluster, backends))
  {
    var tag := RouteLabel(hash, route.name);
    var want := Wanted(hash, route.name, tag, hosts, cluster, backends);
    WantedIsExact(hash, route.name, tag, hosts, cluster, backends);
    forall n | n in want && (route.namespace, n) in c ensures c[(route.namespace, n)].tag == tag {
      var r, h :| MadeFor(hash, c, (route.namespace, n), r, h) && Apart(hash, r, h, route.name, hosts);
      var i :| 0 <= i < |hosts| && n == RouteChildName(hash, route.name, hosts[i]);
      RouteChildNameIsInjective(hash, r, h, route.name, hosts[i]);
    }
  }

  /** The state an error-free reconcile of the route leaves. */
  function SyncedRoute(hash: Hash, c: Children<RouteChild>, route: Route, hosts: seq<string>, cluster: string, backends: seq<Backend>): Children<RouteChild> {
    var tag := RouteLabel(hash, route.name);
    Synced(c, route.namespace, tag, Wanted(hash, route.name, tag, hosts, cluster, backends))
  }

  /** The route's children are exactly one per hostname, with that domain, the
      Gateway's cluster and the compiled backends; doing it again changes nothing;
      and children under other label values and in other namespaces are as they
      were. */
  lemma ExactlyOneChildPerHostname(hash: Hash, c: Children<RouteChild>, route: Route, hosts: seq<string>, cluster: string, backends: seq<Backend>)
    requires EightHexDigits(hash) && NulFree(route.name) && NoCollisions(hash, route.name, hosts)
    requires OperatorMade(hash, c, route.name, hosts)
    ensures var tag := RouteLabel(hash, route.name);
            var after := SyncedRoute(hash, c, route, hosts, cluster, backends);
            && (forall k: Key :: k in after && k.0 == route.namespace && after[k].tag == tag ==> Names(hash, route, hosts, k))
            && (forall i :: 0 <= i < |hosts| ==>
                  var k := (route.namespace, RouteChildName(hash, route.name, hosts[i]));
                  k in after && after[k] == Owned(tag, RouteChild(hosts[i], cluster, backends)))
            && (forall k: Key :: k in c && (k.0 != route.namespace || c[k].tag != tag) ==> k in after && after[k] == c[k])
            && (forall k: Key :: k in after && (k.0 != route.namespace || after[k].tag != tag) ==> k in c && after[k] == c[k])
            && SyncedRoute(hash, after, route, hosts, cluster, backends) == after
  {
    var tag := RouteLabel(hash, route.name);
    var want := Wanted(hash, route.name, tag, hosts, cluster, backends);
    WantedIsExact(hash, route.name, tag, hosts, cluster, backends);
    assert Tagged(want, tag) by {
      forall n | n in want ensures want[n].tag == tag {
        var i :| 0 <= i < |hosts| && n == RouteChildName(hash, route.name, hosts[i]);
      }
    }
    SyncIsExact(c, route.namespace, tag, want);
    OperatorMadeIsNotForeign(hash, c, route, hosts, cluster, backends);
    OthersAreUntouched(c, route.namespace, tag, want);
    var after := Synced(c, route.namespace, tag, want);
    forall k: Key | k in after && k.0 == route.namespace && after[k].tag == tag ensures Names(hash, route, hosts, k) {
      var i :| 0 <= i < |hosts| && k.1 == RouteChildName(hash, route.name, hosts[i]);
    }
  }

  /** Every child was made for some NUL-free route and hostname. */
  ghost predicate AllMade(hash: Hash, c: Children<RouteChild>) {
    forall k :: k in c ==> exists r, h :: MadeFor(hash, c, k, r, h)
  }

  /** Whatever a reconcile of a NUL-free route has written, also one that failed
      half-way, was made for that route; so stores that only reconciles have
      written hold only such children. */
  lemma ReconcileKeepsMade(hash: Hash, c: Children<RouteChild>, after: Children<RouteChild>, route: Route)
    requires AllMade(hash, c) && NulFree(route.name)
    requires OnlyTagged(c, after, route.namespace, RouteLabel(hash, route.name), NamesOf(hash, route.name))
    ensures AllMade(hash, after)
  {
    forall k | k in after ensures exists r, h :: MadeFor(hash, after, k, r, h) {
      if k in c && after[k] == c[k] {
        var r, h :| MadeFor(hash, c, k, r, h);
        assert MadeFor(hash, after, k, r, h);
      } else {
        assert NamesOf(hash, route.name)(k.1);
        var h :| k.1 == RouteChildName(hash, route.name, h);
        assert MadeFor(hash, after, k, route.name, h);
      }
    }
  }

  // ---- The second reconcile ----

  /** With every read answered, a route has one Gateway. */
  lemma GatewayIsUnique(route: Route, parents: map<Key, Parent>, env1: RouteEnv, gw1: Option<Gateway>, env2: RouteEnv, gw2: Option<Gateway>)
    requires Quiet(env1) && Quiet(env2) && Resolves(route, parents, env1, gw1) && Resolves(route, parents, env2, gw2)
    ensures gw1 == gw2
  {
    assert forall i :: 0 <= i < |route.parents| ==> (Candidate(route, parents, env1, i) <==> Candidate(route, parents, env2, i));
    if gw1.Some? && gw2.Some? {
      var i :| 0 <= i < |route.parents| && Candidate(route, parents, env1, i)
               && gw1.value == parents[ParentKey(route, route.parents[i])].gateway
               && forall j :: 0 <= j < i ==> !Candidate(route, parents, env1, j);
      var k :| 0 <= k < |route.parents| && Candidate(route, parents, env2, k)
               && gw2.value == parents[ParentKey(route, route.parents[k])].gateway
               && forall j :: 0 <= j < k ==> !Candidate(route, parents, env2, j);
      assert i == k;
    }
  }

  function ClusterOf(cfg: Option<ProxyConfig>): string {
    if cfg.Some? then cfg.value.clusterAddress else ""
  }

  /** Two error-free reconciles by one Gateway go by one configuration, translate
      the same hostnames and end alike. */
  lemma SettledAlike(route: Route, rules: seq<Rule>, gw: Option<Gateway>, o1: Outcome, cfg1: Option<ProxyConfig>, hosts1: seq<string>,
                     o2: Outcome, cfg2: Option<ProxyConfig>, hosts2: seq<string>)
    requires Settled(o1, route, rules, gw, cfg1, hosts1) && Settled(o2, route, rules, gw, cfg2, hosts2)
    ensures cfg1 == cfg2 && forall h :: h in hosts1 <==> h in hosts2
    ensures o1 == o2 || (o1.Unsupported? && o2.Unsupported?)
  {
    if gw.Some? {
      ConfigurationIsUnique(gw.value, cfg1, cfg2);
    }
    assert forall h :: h in hosts1 <==> h in hosts2;
    SameMembersEmptyAlike(hosts1, hosts2);
  }

  lemma SameMembersEmptyAlike(a: seq<string>, b: seq<string>)
    requires forall h :: h in a <==> h in b
    ensures a == [] <==> b == []
  {
    if a != [] { assert a[0] in b; }
    if b != [] { assert b[0] in a; }
  }

  /** A second error-free reconcile of the same route, rules and Gateways is a
      no-op, in whatever order hostnames come out. */
  lemma SecondReconcileIsNoOp(hash: Hash, c: Children<RouteChild>, route: Route, rules: seq<Rule>, parents: map<Key, Parent>,
                              env1: RouteEnv, o1: Outcome, gw1: Option<Gateway>, cfg1: Option<ProxyConfig>, hosts1: seq<string>,
                              env2: RouteEnv, o2: Outcome, gw2: Option<Gateway>, cfg2: Option<ProxyConfig>, hosts2: seq<string>)
    requires EightHexDigits(hash) && NulFree(route.name) && NoCollisions(hash, route.name, hosts1) && NoCollisions(hash, route.name, hosts2)
    requires Quiet(env1) && Resolves(route, parents, env1, gw1) && Settled(o1, route, rules, gw1, cfg1, hosts1)
    requires Quiet(env2) && Resolves(route, parents, env2, gw2) && Settled(o2, route, rules, gw2, cfg2, hosts2)
    ensures var after := SyncedRoute(hash, c, route, hosts1, ClusterOf(cfg1), FanOut(rules));
            SyncedRoute(hash, after, route, hosts2, ClusterOf(cfg2), FanOut(rules)) == after
    ensures o1 == o2 || (o1.Unsupported? && o2.Unsupported?)
  {
    var tag := RouteLabel(hash, route.name);
    GatewayIsUnique(route, parents, env1, gw1, env2, gw2);
    SettledAlike(route, rules, gw1, o1, cfg1, hosts1, o2, cfg2, hosts2);
    var want := Wanted(hash, route.name, tag, hosts1, ClusterOf(cfg1), FanOut(rules));
    WantedIgnoresOrder(hash, route.name, tag, hosts1, hosts2, ClusterOf(cfg1), FanOut(rules));
    WantedIsTagged(hash, route.name, tag, hosts1, ClusterOf(cfg1), FanOut(rules));
    SyncIsExact(c, route.namespace, tag, want);
  }

  lemma {:induction false} WantedIsTagged(hash: Hash, route: string, tag: string, hosts: seq<string>, cluster: string, backends: seq<Backend>)
    ensures Tagged(Wanted(hash, route, tag, hosts, cluster, backends), tag)
  {
    if hosts != [] {
      WantedIsTagged(hash, route, tag, hosts[..|hosts| - 1], cluster, backends);
    }
  }

  // ---- Two routes ----

  lemma {:induction false} WantedNames(hash: Hash, route: string, tag: string, hosts: seq<string>, cluster: string, backends: seq<Backend>,
                                       n: string) returns (i: nat)
    requires n in Wanted(hash, route, tag, hosts, cluster, backends)
    ensures i < |hosts| && n == RouteChildName(hash, route, hosts[i])
  {
    var last := |hosts| - 1;
    if n == RouteChildName(hash, route, hosts[last]) {
      i := last;
    } else {
      i := WantedNames(hash, route, tag, hosts[..last], cluster, backends, n);
    }
  }

  /** A reconcile of r1 that translates hosts leaves every child of r2 as it was
      (those the hash tells apart from its own). */
  ghost predicate Spares(hash: Hash, r1: Route, r2: Route, c: Children<RouteChild>, hosts: seq<string>, cluster: string, backends: seq<Backend>) {
    var after := SyncedRoute(hash, c, r1, hosts, cluster, backends);
    forall k, h :: k in c && k.0 == r2.namespace && MadeFor(hash, c, k, r2.name, h) && Apart(hash, r2.name, h, r1.name, hosts) ==>
      k in after && after[k] == c[k]
  }

  ghost predicate AlwaysSpares(hash: Hash, r1: Route, r2: Route) {
    forall c, hosts, cluster, backends :: Spares(hash, r1, r2, c, hosts, cluster, backends)
  }

  predicate Separate(hash: Hash, r1: Route, r2: Route) {
    r1.namespace != r2.namespace || RouteLabel(hash, r1.name) != RouteLabel(hash, r2.name)
  }

  lemma SeparateRoutesAreSpared(hash: Hash, r1: Route, r2: Route, c: Children<RouteChild>, hosts: seq<string>, cluster: string,
                                backends: seq<Backend>)
    requires EightHexDigits(hash) && NulFree(r1.name) && Separate(hash, r1, r2)
    ensures Spares(hash, r1, r2, c, hosts, cluster, backends)
  {
    var tag := RouteLabel(hash, r1.name);
    var want := Wanted(hash, r1.name, tag, hosts, cluster, backends);
    forall k, h | k in c && k.0 == r2.namespace && MadeFor(hash, c, k, r2.name, h) && Apart(hash, r2.name, h, r1.name, hosts)
      ensures !(k.0 == r1.namespace && k.1 in want)
    {
      if k.0 == r1.namespace && k.1 in want {
        var i := WantedNames(hash, r1.name, tag, hosts, cluster, backends, k.1);
        RouteChildNameIsInjective(hash, r2.name, h, r1.name, hosts[i]);
      }
    }
  }

  /** A reconcile of one route never touches another's children, whatever the
      store and the hostnames, exactly when the two routes differ in namespace or
      in label value. */
  lemma RoutesSpareEachOtherIff(hash: Hash, r1: Route, r2: Route)
    requires EightHexDigits(hash) && NulFree(r1.name) && NulFree(r2.name)
    requires r1.namespace != r2.namespace || r1.name != r2.name
    ensures AlwaysSpares(hash, r1, r2) <==> Separate(hash, r1, r2)
  {
    if Separate(hash, r1, r2) {
      forall c, hosts, cluster, backends ensures Spares(hash, r1, r2, c, hosts, cluster, backends) {
        SeparateRoutesAreSpared(hash, r1, r2, c, hosts, cluster, backends);
      }
    } else {
      var k := (r2.namespace, RouteChildName(hash, r2.name, ""));
      var c := map[k := Owned(RouteLabel(hash, r2.name), RouteChild("", "", []))];
      assert MadeFor(hash, c, k, r2.name, "") && Apart(hash, r2.name, "", r1.name, []);
      assert k !in SyncedRoute(hash, c, r1, [], "", []);
      assert !Spares(hash, r1, r2, c, [], "", []);
    }
  }

  /** A reconcile of r1 that translates nothing deletes all children of a route
      with the same label value. */
  lemma SharedLabelDeletesAll(hash: Hash, r1: Route, r2: Route, c: Children<RouteChild>, k: Key, h: string, cluster: string, backends: seq<Backend>)
    requires !Separate(hash, r1, r2) && k in c && k.0 == r2.namespace && MadeFor(hash, c, k, r2.name, h)
    ensures k !in SyncedRoute(hash, c, r1, [], cluster, backends)
  {
  }

  /** Every route whose name is too long for a label has such a twin: the route
      named like its label value. */
  lemma LongNamesHaveATwin(hash: Hash, r: Route)
    requires EightHexDigits(hash) && |r.name| > LABEL_VALUE_MAX_LEN
    ensures var twin := r.(name := RouteLabel(hash, r.name));
            twin.name != r.name && !Separate(hash, twin, r) && |twin.name| <= LABEL_VALUE_MAX_LEN
  {
    CutNameIsShared(hash, r.name, LABEL_VALUE_MAX_LEN);
    SafeNameFits(hash, r.name, LABEL_VALUE_MAX_LEN);
  }

  /** Names that fit a label keep routes apart. */
  lemma ShortNamesAreSeparate(hash: Hash, r1: Route, r2: Route)
    requires |r1.name| <= LABEL_VALUE_MAX_LEN && |r2.name| <= LABEL_VALUE_MAX_LEN
    requires r1.namespace != r2.namespace || r1.name != r2.name
    ensures Separate(hash, r1, r2)
  {
  }

  // ---- The parent lookup agrees with the attached-route count ----

  /** Gateways are stored under their own namespace and name. */
  ghost predicate Keyed(parents: map<Key, Parent>) {
    forall k: Key :: k in parents ==> parents[k].gateway.namespace == k.0 && parents[k].gateway.name == k.1
  }

  /** Both lookups resolve a parentRef alike: without a namespace it means the route's own. */
  lemma ReferencesMeans(route: Route, gw: Gateway)
    ensures References(route, gw) <==>
            exists i :: 0 <= i < |route.parents| && ParentKey(route, route.parents[i]) == (gw.namespace, gw.name)
  {
    if References(route, gw) {
      var i :| 0 <= i < |route.parents| && route.parents[i].name == gw.name
               && (if route.parents[i].namespace.Some? then route.parents[i].namespace.value else route.namespace) == gw.namespace;
      assert ParentKey(route, route.parents[i]) == (gw.namespace, gw.name);
    }
    if i :| 0 <= i < |route.parents| && ParentKey(route, route.parents[i]) == (gw.namespace, gw.name) {
      assert route.parents[i].name == gw.name;
    }
  }

  /** The Gateway a reconcile goes by is one the status count regards as referenced. */
  lemma ResolvedIsReferenced(route: Route, parents: map<Key, Parent>, env: RouteEnv, gw: Gateway)
    requires Keyed(parents) && Resolves(route, parents, env, Some(gw))
    ensures References(route, gw)
  {
    var i :| 0 <= i < |route.parents| && Candidate(route, parents, env, i)
             && gw == parents[ParentKey(route, route.parents[i])].gateway;
    assert route.parents[i].name == gw.name;
  }

  /** A route that a reconcile translates is counted as attached to a listener under
      the domain of the Gateway it went by. */
  lemma TranslatedRouteIsCounted(routes: seq<Route>, k: nat, rules: seq<Rule>, parents: map<Key, Parent>, env: RouteEnv,
                                 gw: Option<Gateway>, cfg: Option<ProxyConfig>, hosts: seq<string>)
    requires k < |routes| && Keyed(parents) && Resolves(routes[k], parents, env, gw)
    requires Settled(Translated, routes[k], rules, gw, cfg, hosts)
    ensures exists i :: 0 <= i < |gw.value.listeners| && ListenerUnderDomain(gw.value.listeners[i], cfg.value.domain)
                        && AttachedCount(gw.value, gw.value.listeners[i], routes) > 0
  {
    ResolvedIsReferenced(routes[k], parents, env, gw.value);
    assert hosts[0] in hosts;
    TranslatedIsCounted(gw.value, routes, k, cfg.value.domain, hosts[0]);
  }

  /** With every call answered nothing fails. */
  lemma AnsweredNeverFails(route: Route, parents: map<Key, Parent>, env: RouteEnv, c: Children<RouteChild>, tag: string, names: set<string>, n: nat)
    requires Quiet(env)
    ensures !BrokenRead(route, parents, env) && FirstFine(env.apply, n) && env.status.Fine?
    ensures !PruneFails(c, route.namespace, tag, names, env.list, env.delete)
  {
    FirstFineMeans(env.apply, n);
  }
}
