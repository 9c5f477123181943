/** Which hostnames a Gateway admits, and which routes its status counts as
    attached (internal/controller/gateway_controller.go). */
module Admission {
  import opened Api
  import opened Hostnames

  datatype Protocol = HTTP | HTTPS | TLS | TCP | UDP

  /** allowedRoutes.namespaces.from; Unset is the default. */
  datatype From = Unset | All | Same | Selector | NoneAllowed

  /** certificates is None without a tls section. */
  datatype Listener = Listener(
    name: string, protocol: Protocol, hostname: Option<string>, certificates: Option<seq<string>>, from: From)

  datatype Gateway = Gateway(name: string, namespace: string, listeners: seq<Listener>)

  datatype ParentRef = ParentRef(name: string, namespace: Option<string>)

  datatype Route = Route(name: string, namespace: string, parents: seq<ParentRef>, hostnames: seq<string>)

  datatype ProxyConfig = ProxyConfig(domain: string, clusterAddress: string, certSecret: string, listener: string)

  predicate Named(l: Listener) {
    l.hostname.Some? && l.hostname.value != ""
  }

  predicate TerminatesTls(l: Listener) {
    && (l.protocol == HTTPS || l.protocol == TLS)
    && Named(l) && l.certificates.Some? && l.certificates.value != []
  }

  function Trimmed(l: Listener): string
    requires Named(l)
  {
    TrimPrefix(l.hostname.value, WILDCARD)
  }

  predicate ListenerUnderDomain(l: Listener, domain: string) {
    Named(l) && UnderDomain(Trimmed(l), domain)
  }

  /** An exact listener matches its own name, a wildcard one any name strictly
      below, and one without a hostname everything. */
  predicate ListenerMatches(l: Listener, host: string) {
    !Named(l) ||
    (if HasPrefix(l.hostname.value, WILDCARD)
     then HasSuffix(host, "." + Trimmed(l)) && |host| > |Trimmed(l)| + 1
     else l.hostname.value == host)
  }

  predicate Permits(gw: Gateway, l: Listener, namespace: string) {
    match l.from
    case Unset => namespace == gw.namespace
    case All => true
    case Same => namespace == gw.namespace
    case _ => false
  }

  predicate References(route: Route, gw: Gateway) {
    exists i :: 0 <= i < |route.parents| && route.parents[i].name == gw.name
                && (if route.parents[i].namespace.Some? then route.parents[i].namespace.value else route.namespace) == gw.namespace
  }

  /** The listener l lets the route claim the hostname on the proxy for domain. */
  predicate Grants(gw: Gateway, l: Listener, namespace: string, hostname: string, domain: string) {
    ListenerUnderDomain(l, domain) && ListenerMatches(l, hostname) && Permits(gw, l, namespace)
  }

  /** An exact hostname matches itself alone, and a wildcard one exactly the names
      with at least one character, a dot and the rest: never the bare domain. */
  lemma MatchMeans(l: Listener, host: string)
    ensures l.hostname.None? || l.hostname.value == "" ==> ListenerMatches(l, host)
    ensures l.hostname.Some? && l.hostname.value != "" && !HasPrefix(l.hostname.value, "*.") ==>
              (ListenerMatches(l, host) <==> host == l.hostname.value)
    ensures forall domain :: l.hostname == Some("*." + domain) ==>
              (ListenerMatches(l, host) <==> exists first: string :: first != "" && host == first + ("." + domain))
  {
    forall domain | l.hostname == Some("*." + domain)
      ensures ListenerMatches(l, host) <==> exists first: string :: first != "" && host == first + ("." + domain)
    {
      assert ("*." + domain)[2..] == domain;
      SuffixMeans(host, "." + domain);
      if ListenerMatches(l, host) {
        assert host == host[..|host| - |domain| - 1] + ("." + domain);
      }
    }
  }

  /** Another namespace is let in only by "All"; the Gateway's own by everything but
      a selector or "None". */
  lemma PermitsMeans(gw: Gateway, l: Listener, namespace: string)
    ensures namespace != gw.namespace ==> (Permits(gw, l, namespace) <==> l.from == All)
    ensures namespace == gw.namespace ==> (Permits(gw, l, namespace) <==> l.from != Selector && l.from != NoneAllowed)
  {
  }

  // ---- gatewayProxyConfig ----

  /** The first listener that terminates TLS with a hostname and a certificate
      decides; its own hostname is under the domain derived from it, so it takes
      part in admission itself. */
  method GatewayProxyConfig(gw: Gateway) returns (cfg: Option<ProxyConfig>)
    ensures Configures(gw, cfg)
  {
    for i := 0 to |gw.listeners|
      invariant forall j :: 0 <= j < i ==> !TerminatesTls(gw.listeners[j])
    {
      var l := gw.listeners[i];
      var tlsListener := l.protocol == HTTPS || l.protocol == TLS;
      if !tlsListener || l.hostname.None? || l.hostname.value == "" || l.certificates.None? || |l.certificates.value| == 0 {
        continue;
      }
      var domain := TrimPrefix(l.hostname.value, WILDCARD);
      cfg := Some(ProxyConfig(domain, "gate." + domain, l.certificates.value[0], l.name));
      assert Decides(gw, i, cfg.value);
      return;
    }
    return None;
  }

  /** Listener i is the first eligible one and cfg is what it implies. */
  ghost predicate Decides(gw: Gateway, i: int, cfg: ProxyConfig)
    requires 0 <= i < |gw.listeners|
  {
    var l := gw.listeners[i];
    && (forall j :: 0 <= j < i ==> !TerminatesTls(gw.listeners[j]))
    && TerminatesTls(l) && ListenerUnderDomain(l, cfg.domain)
    && cfg.domain == Trimmed(l)
    && cfg.clusterAddress == "gate." + cfg.domain
    && cfg.certSecret == l.certificates.value[0] && cfg.listener == l.name
  }

  ghost predicate Configures(gw: Gateway, cfg: Option<ProxyConfig>) {
    match cfg
    case None => forall i :: 0 <= i < |gw.listeners| ==> !TerminatesTls(gw.listeners[i])
    case Some(c) => exists i :: 0 <= i < |gw.listeners| && Decides(gw, i, c)
  }

  /** A Gateway has one configuration. */
  lemma ConfigurationIsUnique(gw: Gateway, cfg1: Option<ProxyConfig>, cfg2: Option<ProxyConfig>)
    requires Configures(gw, cfg1) && Configures(gw, cfg2)
    ensures cfg1 == cfg2
  {
    if cfg1.Some? && cfg2.Some? {
      var i :| 0 <= i < |gw.listeners| && Decides(gw, i, cfg1.value);
      var j :| 0 <= j < |gw.listeners| && Decides(gw, j, cfg2.value);
      assert i == j;
    }
  }

  // ---- gatewayAdmitsRoute ----

  /** Whatever a listener under the domain matches is itself under the domain. */
  lemma MatchedIsUnderDomain(l: Listener, hostname: string, domain: string)
    requires ListenerUnderDomain(l, domain) && ListenerMatches(l, hostname)
    ensures UnderDomain(hostname, domain)
  {
    UnderIsTransitive(hostname, Trimmed(l), domain);
  }

  ghost predicate SomeGrants(gw: Gateway, namespace: string, hostname: string, domain: string) {
    exists i :: 0 <= i < |gw.listeners| && Grants(gw, gw.listeners[i], namespace, hostname, domain)
  }

  /** Admission is exactly that one listener under the domain both matches the
      hostname and permits the namespace; the separate domain check refuses
      nothing that such a listener would grant. */
  method GatewayAdmitsRoute(gw: Gateway, namespace: string, hostname: string, domain: string) returns (admitted: bool)
    ensures admitted <==> SomeGrants(gw, namespace, hostname, domain)
    ensures admitted ==> UnderDomain(hostname, domain)
  {
    if !UnderDomain(hostname, domain) {
      assert !SomeGrants(gw, namespace, hostname, domain) by {
        if SomeGrants(gw, namespace, hostname, domain) {
          var i :| 0 <= i < |gw.listeners| && Grants(gw, gw.listeners[i], namespace, hostname, domain);
          MatchedIsUnderDomain(gw.listeners[i], hostname, domain);
        }
      }
      return false;
    }
    for i := 0 to |gw.listeners|
      invariant forall j :: 0 <= j < i ==> !Grants(gw, gw.listeners[j], namespace, hostname, domain)
    {
      if !ListenerUnderDomain(gw.listeners[i], domain) {
        continue;
      }
      if ListenerMatches(gw.listeners[i], hostname) && Permits(gw, gw.listeners[i], namespace) {
        return true;
      }
    }
    return false;
  }

  // ---- admittedHostnames ----

  /** A listener whose hostname a route without hostnames inherits. */
  predicate Lends(gw: Gateway, l: Listener, namespace: string, domain: string) {
    Named(l) && !HasPrefix(l.hostname.value, WILDCARD) && UnderDomain(l.hostname.value, domain) && Permits(gw, l, namespace)
  }

  /** h is to be translated for the route: one of its own hostnames that some
      listener grants, or, when it has none, a concrete hostname it inherits. */
  ghost predicate ToTranslate(gw: Gateway, route: Route, domain: string, h: string) {
    if route.hostnames != [] then h in route.hostnames && SomeGrants(gw, route.namespace, h, domain)
    else exists i :: 0 <= i < |gw.listeners| && Lends(gw, gw.listeners[i], route.namespace, domain) && gw.listeners[i].hostname.value == h
  }

  method AdmittedHostnames(gw: Gateway, route: Route, domain: string) returns (out: seq<string>)
    ensures forall h :: h in out <==> ToTranslate(gw, route, domain, h)
    ensures NoRepeats(out)
    ensures forall h :: h in out ==> UnderDomain(h, domain)
  {
    out := [];
    var seen: set<string> := {};
    if |route.hostnames| > 0 {
      for i := 0 to |route.hostnames|
        invariant seen == set h | h in out
        invariant NoRepeats(out)
        invariant forall h :: h in out <==> h in route.hostnames[..i] && SomeGrants(gw, route.namespace, h, domain)
        invariant forall h :: h in out ==> UnderDomain(h, domain)
      {
        var h := route.hostnames[i];
        assert route.hostnames[..i + 1] == route.hostnames[..i] + [h];
        var admits := GatewayAdmitsRoute(gw, route.namespace, h, domain);
        if h !in seen && admits {
          seen := seen + {h};
          out := out + [h];
        }
      }
      assert route.hostnames[..|route.hostnames|] == route.hostnames;
      return;
    }
    for i := 0 to |gw.listeners|
      invariant seen == set h | h in out
      invariant NoRepeats(out)
      invariant forall h :: h in out <==>
        exists j :: 0 <= j < i && Lends(gw, gw.listeners[j], route.namespace, domain) && gw.listeners[j].hostname.value == h
      invariant forall h :: h in out ==> UnderDomain(h, domain)
    {
      var l := gw.listeners[i];
      if l.hostname.None? || l.hostname.value == "" || HasPrefix(l.hostname.value, WILDCARD) {
        continue;
      }
      var h := l.hostname.value;
      if h !in seen && UnderDomain(h, domain) && Permits(gw, l, route.namespace) {
        seen := seen + {h};
        out := out + [h];
      }
    }
  }

  // ---- listenerAttachedRoutes ----

  predicate Attached(gw: Gateway, l: Listener, route: Route) {
    && References(route, gw) && Permits(gw, l, route.namespace)
    && (route.hostnames == [] || exists i :: 0 <= i < |route.hostnames| && ListenerMatches(l, route.hostnames[i]))
  }

  function AttachedCount(gw: Gateway, l: Listener, routes: seq<Route>): nat {
    if routes == [] then 0
    else AttachedCount(gw, l, routes[..|routes| - 1]) + (if Attached(gw, l, routes[|routes| - 1]) then 1 else 0)
  }

  method ListenerAttachedRoutes(gw: Gateway, l: Listener, routes: seq<Route>) returns (n: nat)
    ensures n == AttachedCount(gw, l, routes)
  {
    n := 0;
    for i := 0 to |routes|
      invariant n == AttachedCount(gw, l, routes[..i])
    {
      var route := routes[i];
      assert routes[..i + 1][..i] == routes[..i];
      if !References(route, gw) || !Permits(gw, l, route.namespace) {
        continue;
      }
      var matches := |route.hostnames| == 0;
      for k := 0 to |route.hostnames|
        invariant matches <==> |route.hostnames| == 0
        invariant forall j :: 0 <= j < k ==> !ListenerMatches(l, route.hostnames[j])
      {
        if ListenerMatches(l, route.hostnames[k]) {
          matches := true;
          break;
        }
      }
      if matches {
        n := n + 1;
      }
    }
    assert routes[..|routes|] == routes;
  }

  /** The listed routes that are attached, by index. */
  function AttachedSet(gw: Gateway, l: Listener, routes: seq<Route>): set<int> {
    set i | 0 <= i < |routes| && Attached(gw, l, routes[i])
  }

  lemma AttachedSetGrows(gw: Gateway, l: Listener, routes: seq<Route>)
    requires routes != []
    ensures var n := |routes| - 1;
            AttachedSet(gw, l, routes) == AttachedSet(gw, l, routes[..n]) + (if Attached(gw, l, routes[n]) then {n} else {})
    ensures |routes| - 1 !in AttachedSet(gw, l, routes[..|routes| - 1])
  {
    var n := |routes| - 1;
    forall i | 0 <= i < n ensures i in AttachedSet(gw, l, routes) <==> i in AttachedSet(gw, l, routes[..n]) {
      assert routes[..n][i] == routes[i];
    }
  }

  /** The count is the number of listed routes that are attached. */
  lemma {:induction false} CountIsCardinality(gw: Gateway, l: Listener, routes: seq<Route>)
    ensures AttachedCount(gw, l, routes) == |AttachedSet(gw, l, routes)|
  {
    if routes != [] {
      CountIsCardinality(gw, l, routes[..|routes| - 1]);
      AttachedSetGrows(gw, l, routes);
    }
  }

  /** The count is zero exactly when no listed route is attached. */
  lemma {:induction false} CountedIffAttached(gw: Gateway, l: Listener, routes: seq<Route>)
    ensures AttachedCount(gw, l, routes) <= |routes|
    ensures AttachedCount(gw, l, routes) > 0 <==> exists i :: 0 <= i < |routes| && Attached(gw, l, routes[i])
  {
    if routes != [] {
      var n := |routes| - 1;
      CountedIffAttached(gw, l, routes[..n]);
      if AttachedCount(gw, l, routes) > 0 && !Attached(gw, l, routes[n]) {
        var i :| 0 <= i < n && Attached(gw, l, routes[..n][i]);
        assert routes[i] == routes[..n][i];
      }
      if exists i :: 0 <= i < |routes| && Attached(gw, l, routes[i]) {
        var i :| 0 <= i < |routes| && Attached(gw, l, routes[i]);
        assert i < n ==> routes[..n][i] == routes[i];
      }
    }
  }

  // ---- Admission agrees with status ----

  /** A listener under the domain to which the route is attached in a way that
      gives it a hostname: by one of its own, or by lending a concrete one. */
  ghost predicate Carries(gw: Gateway, l: Listener, route: Route, domain: string) {
    && ListenerUnderDomain(l, domain) && Attached(gw, l, route)
    && (route.hostnames != [] || !HasPrefix(l.hostname.value, WILDCARD))
  }

  /** The two separately written functions agree: a route of this Gateway has a
      hostname to translate exactly when it is attached to a listener under the
      domain that can give it one. In particular every translated route is
      counted on such a listener; the only routes counted there without being
      translated are those without hostnames on wildcard listeners. */
  lemma AdmissionAgreesWithStatus(gw: Gateway, route: Route, domain: string)
    requires References(route, gw)
    ensures (exists h :: ToTranslate(gw, route, domain, h)) <==>
            (exists i :: 0 <= i < |gw.listeners| && Carries(gw, gw.listeners[i], route, domain))
  {
    if exists h :: ToTranslate(gw, route, domain, h) {
      var h :| ToTranslate(gw, route, domain, h);
      var i := CarrierOf(gw, route, domain, h);
    }
    if exists i :: 0 <= i < |gw.listeners| && Carries(gw, gw.listeners[i], route, domain) {
      var i :| 0 <= i < |gw.listeners| && Carries(gw, gw.listeners[i], route, domain);
      if route.hostnames != [] {
        var k :| 0 <= k < |route.hostnames| && ListenerMatches(gw.listeners[i], route.hostnames[k]);
        assert Grants(gw, gw.listeners[i], route.namespace, route.hostnames[k], domain);
        assert ToTranslate(gw, route, domain, route.hostnames[k]);
      } else {
        assert Lends(gw, gw.listeners[i], route.namespace, domain);
        assert ToTranslate(gw, route, domain, gw.listeners[i].hostname.value);
      }
    }
  }

  lemma CarrierOf(gw: Gateway, route: Route, domain: string, h: string) returns (i: nat)
    requires References(route, gw) && ToTranslate(gw, route, domain, h)
    ensures i < |gw.listeners| && Carries(gw, gw.listeners[i], route, domain)
  {
    if route.hostnames != [] {
      var j :| 0 <= j < |gw.listeners| && Grants(gw, gw.listeners[j], route.namespace, h, domain);
      var k :| 0 <= k < |route.hostnames| && route.hostnames[k] == h;
      assert ListenerMatches(gw.listeners[j], route.hostnames[k]);
      i := j;
    } else {
      var j :| 0 <= j < |gw.listeners| && Lends(gw, gw.listeners[j], route.namespace, domain) && gw.listeners[j].hostname.value == h;
      i := j;
    }
  }

  /** A translated route shows up in the attached-route count of some listener
      under the domain. */
  lemma TranslatedIsCounted(gw: Gateway, routes: seq<Route>, k: nat, domain: string, h: string)
    requires k < |routes| && References(routes[k], gw) && ToTranslate(gw, routes[k], domain, h)
    ensures exists i :: 0 <= i < |gw.listeners| && ListenerUnderDomain(gw.listeners[i], domain)
                        && AttachedCount(gw, gw.listeners[i], routes) > 0
  {
    var i := CarrierOf(gw, routes[k], domain, h);
    CountedIffAttached(gw, gw.listeners[i], routes);
  }
}
