/** Rendering a ReverseProxyService as a NetBird service request
    (internal/controller/reverseproxyservice_mirror.go). */
module Renderer {
  import opened Api
  import opened PortDomains
  import opened Sequences
  import opened ServiceAddr
  import opened Targets

  datatype Mode = Http | Tcp | Tls | Udp

  /** Port 0 asks for the Service's first port; path "" for the default. */
  datatype Backend = Backend(service: string, port: int, path: string)

  datatype Spec = Spec(
    namespace: string, domain: string, mode: Mode, backends: seq<Backend>, listenPort: Option<int>, proxyProtocol: Option<bool>)

  datatype Port = Port(number: int, name: string)

  datatype Service = Service(loadBalancer: bool, ports: seq<Port>)

  /** An advertised NetworkResource: its object name, its address and its NetBird id. */
  datatype Resource = Resource(name: string, address: string, id: Id)

  /** What the reads of one rendering answer; itoa is strconv.Itoa. */
  datatype World = World(
    ip: IpText, itoa: int -> string, service: string -> Reply<Service>,
    records: string -> Reply<seq<string>>, resources: string -> Reply<seq<Resource>>)

  datatype Request = Request(domain: string, mode: Mode, targets: seq<Target>, listenPort: Option<int>)

  // ---- Ports ----

  const MAX_INT32: int := 0x7fff_ffff

  /** The conversion of an int to an int32. */
  function ToInt32(n: int): int {
    (n + MAX_INT32 + 1) % 0x1_0000_0000 - MAX_INT32 - 1
  }

  /** What fits is kept, and what does not wraps around. */
  lemma ToInt32Means(n: int)
    ensures -0x8000_0000 <= ToInt32(n) < 0x8000_0000
    ensures -0x8000_0000 <= n < 0x8000_0000 ==> ToInt32(n) == n
    ensures (n - ToInt32(n)) % 0x1_0000_0000 == 0
  {
  }

  /** The Service port a backend addresses: the first declared port of the number
      asked for, the first port when none is asked for, and otherwise the number
      asked for, unnamed. */
  method BackendPort(ports: seq<Port>, want: int) returns (p: Port)
    requires ports != []
    ensures p == PortFor(ports, want)
    ensures want == 0 ==> p == ports[0]
    ensures forall i :: 0 <= i < |ports| && want != 0 && FirstDeclared(ports, want, i) ==> p == ports[i]
    ensures want != 0 && (forall i :: 0 <= i < |ports| ==> ports[i].number != want) ==> p == Port(ToInt32(want), "")
  {
    p := ports[0];
    if want != 0 {
      p := Port(ToInt32(want), "");
      for i := 0 to |ports|
        invariant forall j :: 0 <= j < i ==> ports[j].number != want
        invariant Declared(ports, want) == Declared(ports[i..], want)
        invariant p == Port(ToInt32(want), "")
      {
        if ports[i].number == want {
          return ports[i];
        }
      }
    }
  }

  /** Port i is the first one declared with the number. */
  predicate FirstDeclared(ports: seq<Port>, want: int, i: int)
    requires 0 <= i < |ports|
  {
    ports[i].number == want && forall j :: 0 <= j < i ==> ports[j].number != want
  }

  function Declared(ports: seq<Port>, want: int): Option<Port> {
    if ports == [] then None else if ports[0].number == want then Some(ports[0]) else Declared(ports[1..], want)
  }

  function PortFor(ports: seq<Port>, want: int): Port
    requires ports != []
  {
    if want == 0 then ports[0]
    else match Declared(ports, want)
      case Some(p) => p
      case None => Port(ToInt32(want), "")
  }

  // ---- Backends ----

  function Reading<T>(r: Reply<T>): Reply<T> {
    if r.Fail? && r.err == NotFound then Fail(NotReady) else r
  }

  /** The name advertised for a LoadBalancer Service: that of the first record listed. */
  function BackendFqdn(w: World, svc: string): Reply<string> {
    match w.records(svc)
    case Fail(e) => Fail(e)
    case Ok(names) => if names == [] then Fail(NotReady) else Ok(names[0])
  }

  /** The host and port an HTTP backend is dialed at. */
  function ResolveBackend(w: World, namespace: string, b: Backend): Reply<(string, Port)> {
    match Reading(w.service(b.service))
    case Fail(e) => Fail(e)
    case Ok(svc) =>
      if svc.ports == [] then Fail(NotReady)
      else if !svc.loadBalancer then Ok((b.service + "." + namespace + ".svc.cluster.local", PortFor(svc.ports, b.port)))
      else match BackendFqdn(w, b.service)
        case Fail(e) => Fail(e)
        case Ok(host) => Ok((host, PortFor(svc.ports, b.port)))
  }

  /** The comparison preferL4Resource sorts by. */
  predicate Preferred(ip: IpText, a: Resource, b: Resource) {
    var fa, fb := IpFamilyOf(ip, a.address), IpFamilyOf(ip, b.address);
    if fa != fb then fa == Some(IPv4) else StringLess(a.name, b.name)
  }

  /** The comparison orders these resources: it would not only if both addresses
      that do not parse and IPv6 ones were among them. */
  predicate Comparable(ip: IpText, items: seq<Resource>) {
    || (forall i :: 0 <= i < |items| ==> IpFamilyOf(ip, items[i].address).Some?)
    || (forall i :: 0 <= i < |items| ==> IpFamilyOf(ip, items[i].address) != Some(IPv6))
  }

  /** Every address parses, as those of advertised resources do. */
  predicate AllAddressed(ip: IpText, items: seq<Resource>) {
    forall i :: 0 <= i < |items| ==> IpFamilyOf(ip, items[i].address).Some?
  }

  /** The head of the sorted list: one of the resources and, as long as the
      comparison orders them, one over which nothing is preferred. Otherwise it is no
      strict weak order and the sort promises no more. */
  method PreferL4Resource(ip: IpText, items: seq<Resource>) returns (pick: Resource)
    requires items != []
    ensures IsPick(ip, items, pick)
  {
    pick := items[0];
    StringOrder(pick.name, pick.name);
    for i := 1 to |items|
      invariant IsPick(ip, items[..i], pick)
    {
      assert items[..i + 1] == items[..i] + [items[i]];
      ghost var better := BetterOf(ip, items[..i], pick, items[i]);
      if Preferred(ip, items[i], pick) {
        pick := items[i];
      }
    }
    assert items[..|items|] == items;
  }

  ghost predicate IsPick(ip: IpText, items: seq<Resource>, pick: Resource) {
    pick in items && (Comparable(ip, items) ==> forall x :: x in items ==> !Preferred(ip, x, pick))
  }

  lemma NotPreferredIsTransitive(ip: IpText, x: Resource, y: Resource, z: Resource)
    requires Comparable(ip, [x, y, z]) && !Preferred(ip, x, y) && Preferred(ip, z, y)
    ensures !Preferred(ip, x, z)
  {
    var items := [x, y, z];
    assert items[0] == x && items[1] == y && items[2] == z;
    if Preferred(ip, x, z) && IpFamilyOf(ip, x.address) == IpFamilyOf(ip, z.address) == IpFamilyOf(ip, y.address) {
      StringLessIsTransitive(x.name, z.name, y.name);
    }
  }

  /** Where it does not order them there are three among which "not preferred" is
      not transitive: x, y and z with z preferred over y, y not over x, x not over z. */
  lemma MixedFamiliesAreUnordered(ip: IpText, y: Resource, x: Resource, z: Resource)
    requires IpFamilyOf(ip, x.address) == Some(IPv6) && IpFamilyOf(ip, y.address).None? && IpFamilyOf(ip, z.address).None?
    requires StringLess(z.name, y.name)
    ensures !Preferred(ip, x, y) && !Preferred(ip, y, x) && !Preferred(ip, x, z) && !Preferred(ip, z, x) && Preferred(ip, z, y)
  {
  }

  /** Whatever order the resources are listed in, the pick is one and the same,
      and it is IPv4 exactly when some resource is. */
  lemma PickIgnoresListing(ip: IpText, items: seq<Resource>, listing: seq<Resource>, pick: Resource, other: Resource)
    requires Comparable(ip, items) && multiset(items) == multiset(listing)
    requires forall x, y :: x in items && y in items && x.name == y.name ==> x == y
    requires IsPick(ip, items, pick) && IsPick(ip, listing, other)
    ensures pick == other
    ensures IpFamilyOf(ip, pick.address) == Some(IPv4) <==> exists x :: x in items && IpFamilyOf(ip, x.address) == Some(IPv4)
  {
    forall x ensures x in items <==> x in listing {
      assert x in multiset(items) <==> x in multiset(listing);
    }
    assert Comparable(ip, listing) by {
      assert forall i :: 0 <= i < |listing| ==> listing[i] in items;
    }
    assert !Preferred(ip, pick, other) && !Preferred(ip, other, pick);
    StringOrder(pick.name, other.name);
  }

  // ---- Targets ----

  function Protocols(m: Mode): Protocol {
    match m
    case Http => HttpProtocol
    case Tcp => TcpProtocol
    case Tls => TcpProtocol
    case Udp => UdpProtocol
  }

  function HttpTarget(w: World, spec: Spec, cluster: string, b: Backend): Reply<Target> {
    match ResolveBackend(w, spec.namespace, b)
    case Fail(e) => Fail(e)
    case Ok((host, port)) => Ok(Cluster(host, port.number, HttpProtocol, cluster, if b.path == "" then None else Some(b.path)))
  }

  /** The target of each HTTP backend, in the order of the backends. */
  function HttpTargets(w: World, spec: Spec, cluster: string, backends: seq<Backend>): Reply<seq<Target>> {
    if backends == [] then Ok([])
    else match HttpTargets(w, spec, cluster, backends[..|backends| - 1])
      case Fail(e) => Fail(e)
      case Ok(ts) =>
        match HttpTarget(w, spec, cluster, backends[|backends| - 1])
        case Fail(e) => Fail(e)
        case Ok(t) => Ok(ts + [t])
  }

  // ---- The request ----

  /** The resource id and port of an L4 backend, given the resource picked for it. */
  function L4Backend(w: World, b: Backend, pick: Resource): Reply<(Id, Port)> {
    match Reading(w.service(b.service))
    case Fail(e) => Fail(e)
    case Ok(svc) =>
      if !svc.loadBalancer then Fail(Other)
      else if svc.ports == [] then Fail(NotReady)
      else match w.resources(b.service)
        case Fail(e) => Fail(e)
        case Ok(items) =>
          if items == [] || pick.id == NO_ID then Fail(NotReady) else Ok((pick.id, PortFor(svc.ports, b.port)))
  }

  /** pick is what preferL4Resource chooses among the Service's resources, if it has any. */
  ghost predicate PickFor(w: World, b: Backend, pick: Resource) {
    w.resources(b.service).Ok? && w.resources(b.service).value != [] ==> IsPick(w.ip, w.resources(b.service).value, pick)
  }

  method ResolveL4Backend(w: World, b: Backend) returns (r: Reply<(Id, Port)>, ghost pick: Resource)
    ensures PickFor(w, b, pick) && r == L4Backend(w, b, pick)
  {
    pick := SomePick(w, b);
    var got := w.service(b.service);
    if got.Fail? {
      r := if got.err == NotFound then Fail(NotReady) else Fail(got.err);
      return;
    }
    var svc := got.value;
    if !svc.loadBalancer {
      r := Fail(Other);
      return;
    }
    if svc.ports == [] {
      r := Fail(NotReady);
      return;
    }
    var port := BackendPort(svc.ports, b.port);
    var items := w.resources(b.service);
    if items.Fail? {
      r := Fail(items.err);
      return;
    }
    if items.value == [] {
      r := Fail(NotReady);
      return;
    }
    var chosen := PreferL4Resource(w.ip, items.value);
    pick := chosen;
    r := if chosen.id == NO_ID then Fail(NotReady) else Ok((chosen.id, port));
  }

  lemma SomePick(w: World, b: Backend) returns (pick: Resource)
    ensures PickFor(w, b, pick)
  {
    pick := Resource("", "", NO_ID);
    if w.resources(b.service).Ok? && w.resources(b.service).value != [] {
      pick := HasPick(w.ip, w.resources(b.service).value);
    }
  }

  lemma {:induction false} HasPick(ip: IpText, items: seq<Resource>) returns (pick: Resource)
    requires items != []
    ensures IsPick(ip, items, pick)
  {
    var last := items[|items| - 1];
    StringOrder(last.name, last.name);
    pick := last;
    if |items| > 1 {
      var rest := items[..|items| - 1];
      var p := HasPick(ip, rest);
      assert items == rest + [last];
      pick := BetterOf(ip, rest, p, last);
    }
  }

  /** The pick of a list with one more resource. */
  lemma BetterOf(ip: IpText, items: seq<Resource>, p: Resource, x: Resource) returns (pick: Resource)
    requires IsPick(ip, items, p)
    ensures IsPick(ip, items + [x], pick)
    ensures pick == if Preferred(ip, x, p) then x else p
  {
    pick := if Preferred(ip, x, p) then x else p;
    if Comparable(ip, items + [x]) {
      StringOrder(x.name, x.name);
      assert forall i :: 0 <= i < |items| ==> (items + [x])[i] == items[i];
      assert (items + [x])[|items|] == x;
      if Preferred(ip, x, p) {
        forall y | y in items ensures !Preferred(ip, y, x) {
          NotPreferredIsTransitive(ip, y, p, x);
        }
      }
    }
  }

  /** The name of the backend port, or its number. */
  function PortLabel(w: World, p: Port): string {
    if p.name == "" then w.itoa(p.number) else p.name
  }

  function ServiceDomain(spec: Spec, tag: string): string {
    if (spec.mode.Tcp? || spec.mode.Udp?) && spec.listenPort.Some? then PortLabelDomain(spec.domain, tag) else spec.domain
  }

  /** The request of an L4 service with one backend, or why there is none. */
  function L4Request(w: World, spec: Spec, pick: Resource): Reply<Request>
    requires |spec.backends| == 1
  {
    match L4Backend(w, spec.backends[0], pick)
    case Fail(e) => Fail(e)
    case Ok((id, port)) =>
      Ok(Request(ServiceDomain(spec, PortLabel(w, port)), spec.mode,
                 [Host(id, port.number, Protocols(spec.mode), if spec.mode.Udp? then None else spec.proxyProtocol)], spec.listenPort))
  }

  /** One rendering. The mode fixes how many backends there may be. */
  method Render(w: World, spec: Spec, cluster: Reply<string>) returns (r: Reply<Request>, ghost pick: Resource)
    ensures Reading(cluster).Fail? ==> r == Fail(Reading(cluster).err)
    ensures cluster.Ok? && spec.mode.Http? ==>
      match HttpTargets(w, spec, cluster.value, spec.backends)
      case Fail(e) => r == Fail(e)
      case Ok(ts) => r.Ok? && SortsTo(ts, r.value.targets) && r.value == Request(spec.domain, Http, r.value.targets, None)
    ensures cluster.Ok? && !spec.mode.Http? && |spec.backends| > 1 ==> r == Fail(Other)
    ensures cluster.Ok? && !spec.mode.Http? && spec.backends == [] ==>
      r == Ok(Request(ServiceDomain(spec, ""), spec.mode, [], spec.listenPort))
    ensures cluster.Ok? && !spec.mode.Http? && |spec.backends| == 1 ==>
      PickFor(w, spec.backends[0], pick) && r == L4Request(w, spec, pick)
  {
    pick := Resource("", "", NO_ID);
    if cluster.Fail? {
      r := if cluster.err == NotFound then Fail(NotReady) else Fail(cluster.err);
      return;
    }
    var http := spec.mode.Http?;
    if !http && |spec.backends| > 1 {
      r := Fail(Other);
      return;
    }
    var targets: seq<Target> := [];
    if !http {
      var tag := "";
      if spec.backends != [] {
        var l4, chosen := ResolveL4Backend(w, spec.backends[0]);
        pick := chosen;
        if l4.Fail? {
          r := Fail(l4.err);
          return;
        }
        var (id, port) := l4.value;
        tag := port.name;
        if tag == "" {
          tag := w.itoa(port.number);
        }
        var proxyProtocol := spec.mode.Tcp? || spec.mode.Tls?;
        targets := [Host(id, port.number, Protocols(spec.mode), if proxyProtocol then spec.proxyProtocol else None)];
      }
      var domain := spec.domain;
      if (spec.mode.Tcp? || spec.mode.Udp?) && spec.listenPort.Some? {
        domain := PortLabelDomain(spec.domain, tag);
      }
      r := Ok(Request(domain, spec.mode, targets, spec.listenPort));
      return;
    }
    for i := 0 to |spec.backends|
      invariant HttpTargets(w, spec, cluster.value, spec.backends[..i]) == Ok(targets)
    {
      assert spec.backends[..i + 1][..i] == spec.backends[..i];
      var t := HttpTarget(w, spec, cluster.value, spec.backends[i]);
      if t.Fail? {
        FirstFailureStops(w, spec, cluster.value, spec.backends, i + 1);
        r := Fail(t.err);
        return;
      }
      targets := targets + [t.value];
    }
    assert spec.backends[..|spec.backends|] == spec.backends;
    var sorted := SortServiceTargets(targets);
    r := Ok(Request(spec.domain, Http, sorted, None));
  }

  lemma {:induction false} FirstFailureStops(w: World, spec: Spec, cluster: string, bs: seq<Backend>, n: nat)
    requires n <= |bs| && HttpTargets(w, spec, cluster, bs[..n]).Fail?
    ensures HttpTargets(w, spec, cluster, bs) == HttpTargets(w, spec, cluster, bs[..n])
    decreases |bs| - n
  {
    if n == |bs| {
      assert bs[..n] == bs;
    } else {
      assert bs[..n + 1][..n] == bs[..n];
      FirstFailureStops(w, spec, cluster, bs, n + 1);
    }
  }

  // ---- The order of backends ----

  /** The targets are those of the backends, one for one. */
  lemma {:induction false} TargetsAreElementwise(w: World, spec: Spec, cluster: string, bs: seq<Backend>)
    ensures HttpTargets(w, spec, cluster, bs).Ok? <==> forall b :: b in bs ==> HttpTarget(w, spec, cluster, b).Ok?
    ensures HttpTargets(w, spec, cluster, bs).Ok? ==>
      var ts := HttpTargets(w, spec, cluster, bs).value;
      |ts| == |bs| && forall i :: 0 <= i < |bs| ==> HttpTarget(w, spec, cluster, bs[i]) == Ok(ts[i])
  {
    if bs != [] {
      TargetsAreElementwise(w, spec, cluster, bs[..|bs| - 1]);
      assert bs == bs[..|bs| - 1] + [bs[|bs| - 1]];
    }
  }

  ghost predicate Yields(w: World, spec: Spec, cluster: string, bs: seq<Backend>, ts: seq<Target>) {
    |ts| == |bs| && forall i :: 0 <= i < |bs| ==> HttpTarget(w, spec, cluster, bs[i]) == Ok(ts[i])
  }

  lemma YieldsWithout(w: World, spec: Spec, cluster: string, bs: seq<Backend>, ts: seq<Target>, k: nat)
    requires Yields(w, spec, cluster, bs, ts) && k < |bs|
    ensures Yields(w, spec, cluster, Without(bs, k), Without(ts, k))
  {
  }

  lemma {:induction false} YieldsOfPermutation(w: World, spec: Spec, cluster: string,
                                               bs: seq<Backend>, ts: seq<Target>, bs': seq<Backend>, ts': seq<Target>)
    requires multiset(bs) == multiset(bs') && Yields(w, spec, cluster, bs, ts) && Yields(w, spec, cluster, bs', ts')
    ensures multiset(ts) == multiset(ts')
    decreases |bs|
  {
    assert |bs| == |multiset(bs)| && |bs'| == |multiset(bs')|;
    if bs != [] {
      var n := |bs| - 1;
      var k := LastIn(bs, bs');
      DropFromBoth(bs, n, bs', k);
      YieldsWithout(w, spec, cluster, bs, ts, n);
      YieldsWithout(w, spec, cluster, bs', ts', k);
      YieldsOfPermutation(w, spec, cluster, Without(bs, n), Without(ts, n), Without(bs', k), Without(ts', k));
      WithoutOne(ts, n);
      WithoutOne(ts', k);
    }
  }

  /** No Service is reached on one port under two different paths. */
  ghost predicate OnePathPerAddress(w: World, spec: Spec, bs: seq<Backend>) {
    forall x, y :: x in bs && y in bs && SameAddress(ResolveBackend(w, spec.namespace, x), ResolveBackend(w, spec.namespace, y)) ==>
      x.path == y.path
  }

  predicate SameAddress(x: Reply<(string, Port)>, y: Reply<(string, Port)>) {
    x.Ok? && y.Ok? && x.value.0 == y.value.0 && x.value.1.number == y.value.1.number
  }

  lemma TiesAreSharedAddresses(w: World, spec: Spec, cluster: string, bs: seq<Backend>, ts: seq<Target>)
    requires Yields(w, spec, cluster, bs, ts)
    ensures NoTies(ts) <==> OnePathPerAddress(w, spec, bs)
  {
    if OnePathPerAddress(w, spec, bs) {
      forall x, y | x in ts && y in ts && SameKey(x, y) ensures x == y {
        var i, j :| 0 <= i < |ts| && 0 <= j < |ts| && ts[i] == x && ts[j] == y;
        assert bs[i] in bs && bs[j] in bs;
      }
    }
    if NoTies(ts) {
      forall x, y | x in bs && y in bs && SameAddress(ResolveBackend(w, spec.namespace, x), ResolveBackend(w, spec.namespace, y))
        ensures x.path == y.path
      {
        var i, j :| 0 <= i < |bs| && 0 <= j < |bs| && bs[i] == x && bs[j] == y;
        assert SameKey(ts[i], ts[j]) && ts[i] in ts && ts[j] in ts;
      }
    }
  }

  /** Some arrangement of the same backends, sorted in some way, gives these targets. */
  ghost predicate RendersTo(w: World, spec: Spec, cluster: string, bs: seq<Backend>, out: seq<Target>) {
    exists bs': seq<Backend>, ts: seq<Target> ::
      multiset(bs') == multiset(bs) && Yields(w, spec, cluster, bs', ts) && SortsTo(ts, out)
  }

  /** The rendered targets do not depend on the order of the backends, nor on how
      the sort treats ties, exactly when no Service is reached on one port under two
      different paths. */
  lemma RenderingIgnoresOrderIff(w: World, spec: Spec, cluster: string, bs: seq<Backend>)
    requires HttpTargets(w, spec, cluster, bs).Ok?
    ensures (forall a, b :: RendersTo(w, spec, cluster, bs, a) && RendersTo(w, spec, cluster, bs, b) ==> a == b)
            <==> OnePathPerAddress(w, spec, bs)
  {
    var ts := HttpTargets(w, spec, cluster, bs).value;
    TargetsAreElementwise(w, spec, cluster, bs);
    assert Yields(w, spec, cluster, bs, ts);
    TiesAreSharedAddresses(w, spec, cluster, bs, ts);
    OrderIsDeterminedIff(ts);
    forall out ensures RendersTo(w, spec, cluster, bs, out) <==> SortsTo(ts, out) {
      RendersToIsSortsTo(w, spec, cluster, bs, ts, out);
    }
  }

  lemma RendersToIsSortsTo(w: World, spec: Spec, cluster: string, bs: seq<Backend>, ts: seq<Target>, out: seq<Target>)
    requires Yields(w, spec, cluster, bs, ts)
    ensures RendersTo(w, spec, cluster, bs, out) <==> SortsTo(ts, out)
  {
    if RendersTo(w, spec, cluster, bs, out) {
      var bs': seq<Backend>, ts': seq<Target> :|
        multiset(bs') == multiset(bs) && Yields(w, spec, cluster, bs', ts') && SortsTo(ts', out);
      YieldsOfPermutation(w, spec, cluster, bs, ts, bs', ts');
    }
  }

  // ---- What a request says ----

  /** The first listed port, the first declared one of the number asked for, or that
      number without a name. */
  ghost predicate PortChosen(ports: seq<Port>, want: int, p: Port)
    requires ports != []
  {
    if want == 0 then p == ports[0]
    else if exists i :: 0 <= i < |ports| && FirstDeclared(ports, want, i) then
      exists i :: 0 <= i < |ports| && FirstDeclared(ports, want, i) && p == ports[i]
    else p == Port(ToInt32(want), "")
  }

  lemma {:induction false} PortForMeans(ports: seq<Port>, want: int)
    requires ports != []
    ensures PortChosen(ports, want, PortFor(ports, want))
  {
    DeclaredIsFirst(ports, want);
  }

  lemma {:induction false} DeclaredIsFirst(ports: seq<Port>, want: int)
    ensures Declared(ports, want).None? <==> forall i :: 0 <= i < |ports| ==> ports[i].number != want
    ensures Declared(ports, want).Some? ==>
              exists i :: 0 <= i < |ports| && FirstDeclared(ports, want, i) && Declared(ports, want).value == ports[i]
  {
    if ports != [] {
      DeclaredIsFirst(ports[1..], want);
      if ports[0].number == want {
        assert FirstDeclared(ports, want, 0);
      } else if Declared(ports[1..], want).Some? {
        var i :| 0 <= i < |ports[1..]| && FirstDeclared(ports[1..], want, i) && Declared(ports[1..], want).value == ports[1..][i];
        assert ports[i + 1] == ports[1..][i];
        assert forall j :: 0 < j < i + 1 ==> ports[j] == ports[1..][j - 1];
        assert FirstDeclared(ports, want, i + 1);
      } else {
        assert forall j :: 0 < j < |ports| ==> ports[j] == ports[1..][j - 1];
      }
    }
  }

  /** Where an HTTP backend is dialed: through the cluster's address, at the in-cluster
      name of a Service that is not a load balancer and at the advertised name of one
      that is, on the port chosen, for the path asked for. */
  lemma HttpTargetMeans(w: World, spec: Spec, cluster: string, b: Backend)
    requires HttpTarget(w, spec, cluster, b).Ok?
    ensures w.service(b.service).Ok? && w.service(b.service).value.ports != []
    ensures var t, svc := HttpTarget(w, spec, cluster, b).value, w.service(b.service).value;
            && t.Cluster? && t.protocol == HttpProtocol && t.address == cluster
            && t.path == (if b.path == "" then None else Some(b.path))
            && (exists p :: PortChosen(svc.ports, b.port, p) && t.port == p.number)
            && (if svc.loadBalancer
                then w.records(b.service).Ok? && w.records(b.service).value != [] && t.host == w.records(b.service).value[0]
                else t.host == b.service + "." + spec.namespace + ".svc.cluster.local")
  {
    PortForMeans(w.service(b.service).value.ports, b.port);
  }

  /** Why an HTTP backend is not rendered: its Service is missing or has no ports, or
      is a load balancer that is not advertised yet (then it waits); or a read failed. */
  lemma HttpTargetFails(w: World, spec: Spec, cluster: string, b: Backend)
    ensures w.service(b.service) == Fail(NotFound) ==> HttpTarget(w, spec, cluster, b) == Fail(NotReady)
    ensures w.service(b.service).Ok? && w.service(b.service).value.ports == [] ==> HttpTarget(w, spec, cluster, b) == Fail(NotReady)
    ensures w.service(b.service).Ok? && w.service(b.service).value.loadBalancer && w.records(b.service) == Ok([]) ==>
              HttpTarget(w, spec, cluster, b) == Fail(NotReady)
    ensures forall e :: w.service(b.service) == Fail(e) && e != NotFound ==> HttpTarget(w, spec, cluster, b) == Fail(e)
    ensures w.service(b.service).Ok? && w.service(b.service).value.ports != [] &&
            (!w.service(b.service).value.loadBalancer || (w.records(b.service).Ok? && w.records(b.service).value != [])) ==>
              HttpTarget(w, spec, cluster, b).Ok?
  {
  }

  /** What an L4 service is relayed to: the picked resource, on the port chosen, over TCP
      for tcp and tls and over UDP for udp, with the PROXY protocol as asked except over
      udp; under a per-port domain for tcp and udp and under its own for tls. */
  lemma L4RequestMeans(w: World, spec: Spec, pick: Resource)
    requires |spec.backends| == 1 && !spec.mode.Http? && L4Request(w, spec, pick).Ok?
    ensures var b := spec.backends[0];
            var r := L4Request(w, spec, pick).value;
            && w.service(b.service).Ok? && w.service(b.service).value.loadBalancer && w.service(b.service).value.ports != []
            && pick.id != NO_ID && r.mode == spec.mode && r.listenPort == spec.listenPort && |r.targets| == 1
            && exists p :: PortChosen(w.service(b.service).value.ports, b.port, p) && L4As(w, spec, pick, p, r)
  {
    PortForMeans(w.service(spec.backends[0].service).value.ports, spec.backends[0].port);
    var p := PortFor(w.service(spec.backends[0].service).value.ports, spec.backends[0].port);
    assert L4As(w, spec, pick, p, L4Request(w, spec, pick).value);
  }

  ghost predicate L4As(w: World, spec: Spec, pick: Resource, p: Port, r: Request) {
    && |r.targets| == 1
    && r.targets[0] == Host(pick.id, p.number, if spec.mode == Udp then UdpProtocol else TcpProtocol,
                            if spec.mode == Udp then None else spec.proxyProtocol)
    && r.domain == (if spec.mode == Tls || spec.listenPort.None? then spec.domain
                    else PortLabelDomain(spec.domain, if p.name == "" then w.itoa(p.number) else p.name))
  }

  /** Why it is not rendered. */
  lemma L4RequestFails(w: World, spec: Spec, pick: Resource)
    requires |spec.backends| == 1
    ensures var b := spec.backends[0];
            && (w.service(b.service) == Fail(NotFound) ==> L4Request(w, spec, pick) == Fail(NotReady))
            && (forall e :: w.service(b.service) == Fail(e) && e != NotFound ==> L4Request(w, spec, pick) == Fail(e))
            && (w.service(b.service).Ok? && !w.service(b.service).value.loadBalancer ==> L4Request(w, spec, pick) == Fail(Other))
            && (w.service(b.service).Ok? && w.service(b.service).value.loadBalancer && w.service(b.service).value.ports == [] ==>
                  L4Request(w, spec, pick) == Fail(NotReady))
            && (w.service(b.service).Ok? && w.service(b.service).value.loadBalancer && w.resources(b.service) == Ok([]) ==>
                  L4Request(w, spec, pick) == Fail(NotReady))
            && (w.service(b.service).Ok? && w.service(b.service).value.loadBalancer && w.resources(b.service).Ok? && pick.id == NO_ID ==>
                  L4Request(w, spec, pick) == Fail(NotReady))
  {
  }
}
