/** Advertising LoadBalancer Services: one NetworkResource and one DNSRecord per
    IP family (internal/controller/loadbalancer_controller.go). */
module LoadBalancer {
  import opened Api
  import opened ServiceAddr
  import opened ChildSets

  /** ingress holds the IP of each load-balancer ingress entry, empty for a
      hostname entry; advertise is the netbird.io/advertise annotation. */
  datatype Service = Service(
    name: string, namespace: string, loadBalancer: bool, deleting: bool, advertise: Option<string>, ingress: seq<string>)

  datatype FamilyAddress = FamilyAddress(family: IPFamily, address: string)

  datatype ResourceChild = ResourceChild(network: Key, name: string, address: string, groups: seq<string>, enabled: bool)

  datatype RecordChild = RecordChild(zone: Key, name: string, type_: RecordType, content: string, ttl: int)

  const DNS_RECORD_TTL: int := 300

  /** What the operator is configured with, and the abstract IP parser. */
  datatype Config = Config(ip: IpText, default_: bool, network: string, zone: string, namespace: string)

  datatype Outcome = NotAdvertised | Waiting | Advertised | DependencyMissing | Failed(err: Err)

  /** What the calls of one reconcile answer. */
  datatype LbEnv = LbEnv(
    networks: Reply<seq<Key>>, applyZone: Fault, applyResource: nat -> Fault, applyRecord: nat -> Fault,
    listResources: Fault, deleteResource: string -> Fault, listRecords: Fault, deleteRecord: string -> Fault)

  /** Every apply for the first n addresses was answered. */
  predicate AllApplied(n: nat, env: LbEnv) {
    FirstFine(env.applyResource, n) && FirstFine(env.applyRecord, n)
  }

  /** One of the two prunes fails. */
  ghost predicate PruningFails(resources: Children<ResourceChild>, records: Children<RecordChild>, svc: Service, names: set<string>, env: LbEnv) {
    || PruneFails(resources, svc.namespace, svc.name, names, env.listResources, env.deleteResource)
    || PruneFails(records, svc.namespace, svc.name, names, env.listRecords, env.deleteRecord)
  }

  /** Most specific wins: the Service's annotation, then the namespace's, then the default. */
  function ShouldAdvertise(svc: Option<string>, namespace: Option<string>, default_: bool): bool {
    if svc.Some? then svc.value == "true" else if namespace.Some? then namespace.value == "true" else default_
  }

  /** The address when it has a family. */
  function AddressOf(ip: IpText, s: string): Option<FamilyAddress> {
    if s == "" || IpFamilyOf(ip, s).None? then None else Some(FamilyAddress(IpFamilyOf(ip, s).value, s))
  }

  function Ingress(ip: IpText, entries: seq<string>): seq<FamilyAddress> {
    if entries == [] then []
    else
      var rest := Ingress(ip, entries[..|entries| - 1]);
      var a := AddressOf(ip, entries[|entries| - 1]);
      if a.Some? then rest + [a.value] else rest
  }

  /** Ingress keeps exactly the entries that parse, with their families. */
  lemma {:induction false} IngressMembers(ip: IpText, entries: seq<string>, fa: FamilyAddress)
    ensures fa in Ingress(ip, entries) <==>
            exists i :: 0 <= i < |entries| && entries[i] == fa.address && fa.address != "" && IpFamilyOf(ip, fa.address) == Some(fa.family)
  {
    if entries != [] {
      var n := |entries| - 1;
      IngressMembers(ip, entries[..n], fa);
      assert forall i :: 0 <= i < n ==> entries[..n][i] == entries[i];
    }
  }

  /** And keeps them in order: what comes from a first part of the list comes first. */
  lemma {:induction false} IngressKeepsOrder(ip: IpText, a: seq<string>, b: seq<string>)
    ensures Ingress(ip, a + b) == Ingress(ip, a) + Ingress(ip, b)
  {
    if b == [] {
      assert a + b == a;
    } else {
      var n := |b| - 1;
      IngressKeepsOrder(ip, a, b[..n]);
      assert (a + b)[..|a + b| - 1] == a + b[..n];
    }
  }

  method LbIngressAddresses(ip: IpText, svc: Service) returns (out: seq<FamilyAddress>)
    ensures out == Ingress(ip, svc.ingress)
  {
    out := [];
    for i := 0 to |svc.ingress|
      invariant out == Ingress(ip, svc.ingress[..i])
    {
      assert svc.ingress[..i + 1][..i] == svc.ingress[..i];
      if svc.ingress[i] == "" {
        continue;
      }
      var family := IpFamilyOf(ip, svc.ingress[i]);
      if family.None? {
        continue;
      }
      out := out + [FamilyAddress(family.value, svc.ingress[i])];
    }
    assert svc.ingress[..|svc.ingress|] == svc.ingress;
  }

  /** serviceAddresses of the ReverseProxyCluster controller: the first address
      of each family, in order. */
  method FirstOfEachFamily(addrs: seq<FamilyAddress>) returns (out: seq<FamilyAddress>)
    ensures forall i, j :: 0 <= i < j < |out| ==> out[i].family != out[j].family
    ensures forall x :: x in out <==> FirstOfItsFamily(addrs, x)
    ensures out == [] <==> addrs == []
    ensures addrs != [] ==> out[0] == addrs[0]
  {
    out := [];
    var seen: set<IPFamily> := {};
    for i := 0 to |addrs|
      invariant forall f :: f in seen <==> exists j :: 0 <= j < i && addrs[j].family == f
      invariant forall j :: 0 <= j < |out| ==> out[j].family in seen
      invariant seen != {} <==> out != []
      invariant if i == 0 then out == [] else out != [] && out[0] == addrs[0]
      invariant forall a, b :: 0 <= a < b < |out| ==> out[a].family != out[b].family
      invariant forall x :: x in out <==> FirstOfItsFamily(addrs[..i], x)
    {
      var fa := addrs[i];
      if fa.family !in seen {
        seen := seen + {fa.family};
        out := out + [fa];
      }
      forall x ensures x in out <==> FirstOfItsFamily(addrs[..i + 1], x) {
        FirstGrows(addrs, i, x);
      }
    }
    assert addrs[..|addrs|] == addrs;
    if addrs != [] {
      assert addrs[0].family in seen;
    }
  }

  ghost predicate FirstOfItsFamily(addrs: seq<FamilyAddress>, x: FamilyAddress) {
    exists k :: 0 <= k < |addrs| && addrs[k] == x && forall j :: 0 <= j < k ==> addrs[j].family != x.family
  }

  lemma FirstGrows(addrs: seq<FamilyAddress>, i: nat, x: FamilyAddress)
    requires i < |addrs|
    ensures FirstOfItsFamily(addrs[..i + 1], x) <==>
            FirstOfItsFamily(addrs[..i], x) || (x == addrs[i] && forall j :: 0 <= j < i ==> addrs[j].family != x.family)
  {
    var s, t := addrs[..i], addrs[..i + 1];
    assert forall j :: 0 <= j < i ==> s[j] == addrs[j] && t[j] == addrs[j];
    assert t[i] == addrs[i];
    if FirstOfItsFamily(s, x) {
      var k :| 0 <= k < |s| && s[k] == x && forall j :: 0 <= j < k ==> s[j].family != x.family;
      assert t[k] == x;
    }
    if FirstOfItsFamily(t, x) {
      var k :| 0 <= k < |t| && t[k] == x && forall j :: 0 <= j < k ==> t[j].family != x.family;
      if k < i { assert s[k] == x; }
    }
  }

  /** The first listed Network of the configured name, whatever its namespace. */
  method ResolveNetwork(networks: Reply<seq<Key>>, name: string) returns (found: Option<Key>)
    ensures found == if networks.Ok? then FirstNamed(networks.value, name) else None
  {
    if networks.Fail? {
      return None;
    }
    var list := networks.value;
    for i := 0 to |list|
      invariant FirstNamed(list, name) == FirstNamed(list[i..], name)
    {
      if list[i].1 == name {
        return Some(list[i]);
      }
    }
    return None;
  }

  function FirstNamed(list: seq<Key>, name: string): Option<Key> {
    if list == [] then None else if list[0].1 == name then Some(list[0]) else FirstNamed(list[1..], name)
  }

  // ---- What the children become ----

  function FamilyName(family: IPFamily): string {
    if family == IPv4 then "IPv4" else "IPv6"
  }

  function TypeOf(family: IPFamily): RecordType {
    if family == IPv4 then A else AAAA
  }

  function ResourceOf(network: Key, svc: Service, groups: seq<string>): FamilyAddress -> ResourceChild {
    (fa: FamilyAddress) =>
      ResourceChild(network, svc.name + "-" + svc.namespace + "-" + FamilyName(fa.family), fa.address, groups, true)
  }

  function RecordOf(cfg: Config, svc: Service): FamilyAddress -> RecordChild {
    (fa: FamilyAddress) =>
      RecordChild((cfg.namespace, cfg.zone), ServiceFqdn(svc.name, svc.namespace, cfg.zone), TypeOf(fa.family), fa.address, DNS_RECORD_TTL)
  }

  /** One child per address; a later address of a family overwrites the earlier one. */
  function Wanted<V>(svc: string, addrs: seq<FamilyAddress>, body: FamilyAddress -> V): map<string, Owned<V>> {
    if addrs == [] then map[]
    else
      var fa := addrs[|addrs| - 1];
      Wanted(svc, addrs[..|addrs| - 1], body)[ChildName(svc, fa.family) := Owned(svc, body(fa))]
  }

  predicate Advertises(cfg: Config, svc: Service, namespace: Option<string>) {
    svc.loadBalancer && !svc.deleting && ShouldAdvertise(svc.advertise, namespace, cfg.default_)
  }

  predicate IsChildName(svc: string, name: string) {
    name == ChildName(svc, IPv4) || name == ChildName(svc, IPv6)
  }

  /** Between two stores, only children named after the Service were written. */
  ghost predicate OnlyAdded<V>(c: Children<V>, after: Children<V>, svc: Service) {
    && (forall k: Key :: k in c ==> k in after)
    && (forall k: Key :: k in after ==>
          (k in c && after[k] == c[k]) || (k.0 == svc.namespace && IsChildName(svc.name, k.1) && after[k].tag == svc.name))
  }

  /** Between two stores, only the Service's own children were written or deleted. */
  ghost predicate OnlyOwn<V>(c: Children<V>, after: Children<V>, svc: Service) {
    && (forall k: Key :: k in after ==>
          (k in c && after[k] == c[k]) || (k.0 == svc.namespace && IsChildName(svc.name, k.1) && after[k].tag == svc.name))
    && (forall k: Key :: k in c && k !in after ==>
          k.0 == svc.namespace && (c[k].tag == svc.name || IsChildName(svc.name, k.1)))
  }

  /** Between two stores, some of the Service's children were deleted. */
  ghost predicate OnlyDropped<V>(c: Children<V>, after: Children<V>, svc: Service) {
    && (forall k: Key :: k in after ==> k in c && after[k] == c[k])
    && (forall k: Key :: k in c && k !in after ==> k.0 == svc.namespace && c[k].tag == svc.name)
  }

  lemma AddedThenDropped<V>(c: Children<V>, mid: Children<V>, after: Children<V>, svc: Service)
    requires OnlyAdded(c, mid, svc) && OnlyDropped(mid, after, svc)
    ensures OnlyOwn(c, after, svc)
  {
  }

  class LoadBalancerReconciler {
    var resources: Children<ResourceChild>
    var records: Children<RecordChild>
    const cfg: Config

    constructor (cfg: Config)
      ensures resources == map[] && records == map[] && this.cfg == cfg
    {
      this.cfg, resources, records := cfg, map[], map[];
    }

    method PruneBoth(svc: Service, names: set<string>, env: LbEnv) returns (err: Option<Err>)
      modifies this`resources, this`records
      ensures err.None? ==> resources == Pruned(old(resources), svc.namespace, svc.name, names)
      ensures err.None? ==> records == Pruned(old(records), svc.namespace, svc.name, names)
      ensures err.Some? <==> PruningFails(old(resources), old(records), svc, names, env)
      ensures OnlyDropped(old(resources), resources, svc) && OnlyDropped(old(records), records, svc)
    {
      resources, err := Prune(resources, svc.namespace, svc.name, names, env.listResources, env.deleteResource);
      if err.Some? {
        return;
      }
      records, err := Prune(records, svc.namespace, svc.name, names, env.listRecords, env.deleteRecord);
    }

    /** Applies the two children of one address. */
    method ApplyOne(svc: Service, fa: FamilyAddress, recordType: RecordType, network: Key, groups: seq<string>,
                    applyResource: Fault, applyRecord: Fault)
      returns (err: Option<Err>)
      requires recordType == TypeOf(fa.family)
      modifies this`resources, this`records
      ensures var k := (svc.namespace, ChildName(svc.name, fa.family));
        var resources' := old(resources)[k := Owned(svc.name, ResourceOf(network, svc, groups)(fa))];
        var records' := old(records)[k := Owned(svc.name, RecordOf(cfg, svc)(fa))];
        && (resources == resources' || (resources == old(resources) && err.Some?))
        && (records == records' || (records == old(records) && err.Some?))
      ensures err.Some? <==> !applyResource.Fine? || !applyRecord.Fine?
    {
      var k := (svc.namespace, ChildName(svc.name, fa.family));
      if applyResource.Acts() {
        resources := resources[k := Owned(svc.name,
          ResourceChild(network, svc.name + "-" + svc.namespace + "-" + FamilyName(fa.family), fa.address, groups, true))];
      }
      if !applyResource.Fine? {
        return applyResource.Error();
      }
      if applyRecord.Acts() {
        records := records[k := Owned(svc.name,
          RecordChild((cfg.namespace, cfg.zone), ServiceFqdn(svc.name, svc.namespace, cfg.zone), recordType, fa.address, DNS_RECORD_TTL))];
      }
      return applyRecord.Error();
    }

    /** The apply loop: on success both stores hold the wanted children. */
    method ApplyAll(svc: Service, ingress: seq<FamilyAddress>, network: Key, groups: seq<string>, env: LbEnv)
      returns (desired: set<string>, err: Option<Err>)
      requires forall i :: 0 <= i < |ingress| ==> DnsRecordTypeFor(cfg.ip, ingress[i].address) == Some(TypeOf(ingress[i].family))
      modifies this`resources, this`records
      ensures err.None? ==> desired == Wanted(svc.name, ingress, ResourceOf(network, svc, groups)).Keys
      ensures err.None? ==> desired == Wanted(svc.name, ingress, RecordOf(cfg, svc)).Keys
      ensures err.None? ==>
        resources == old(resources) + Placed(svc.namespace, Wanted(svc.name, ingress, ResourceOf(network, svc, groups)))
      ensures err.None? ==> records == old(records) + Placed(svc.namespace, Wanted(svc.name, ingress, RecordOf(cfg, svc)))
      ensures err.None? <==> FirstFine(env.applyResource, |ingress|) && FirstFine(env.applyRecord, |ingress|)
      ensures OnlyAdded(old(resources), resources, svc) && OnlyAdded(old(records), records, svc)
    {
      desired := {};
      ghost var asResource, asRecord := ResourceOf(network, svc, groups), RecordOf(cfg, svc);
      for i := 0 to |ingress|
        invariant Progress(old(resources), resources, svc, ingress[..i], asResource, desired)
        invariant Progress(old(records), records, svc, ingress[..i], asRecord, desired)
        invariant FirstFine(env.applyResource, i) && FirstFine(env.applyRecord, i)
      {
        var fa := ingress[i];
        var recordType := DnsRecordTypeFor(cfg.ip, fa.address);
        if recordType.None? {
          continue;
        }
        ProgressGrows(old(resources), resources, svc, ingress, i, asResource, desired);
        ProgressGrows(old(records), records, svc, ingress, i, asRecord, desired);
        desired := desired + {ChildName(svc.name, fa.family)};
        err := ApplyOne(svc, fa, recordType.value, network, groups, env.applyResource(i), env.applyRecord(i));
        if err.Some? {
          if !env.applyResource(i).Fine? {
            OneFails(env.applyResource, i, |ingress|);
          } else {
            OneFails(env.applyRecord, i, |ingress|);
          }
          return;
        }
      }
      assert ingress[..|ingress|] == ingress;
      err := None;
    }

    /** Applies what is wanted and prunes the rest. */
    method Advertise(svc: Service, ingress: seq<FamilyAddress>, network: Key, groups: seq<string>, env: LbEnv) returns (err: Option<Err>)
      requires forall i :: 0 <= i < |ingress| ==> DnsRecordTypeFor(cfg.ip, ingress[i].address) == Some(TypeOf(ingress[i].family))
      modifies this`resources, this`records
      ensures err.None? ==>
        resources == Synced(old(resources), svc.namespace, svc.name, Wanted(svc.name, ingress, ResourceOf(network, svc, groups)))
      ensures err.None? ==>
        records == Synced(old(records), svc.namespace, svc.name, Wanted(svc.name, ingress, RecordOf(cfg, svc)))
      ensures err.Some? <==>
        !AllApplied(|ingress|, env) ||
        PruningFails(old(resources), old(records), svc, Wanted(svc.name, ingress, RecordOf(cfg, svc)).Keys, env)
      ensures !AllApplied(|ingress|, env) ==> old(resources).Keys <= resources.Keys && old(records).Keys <= records.Keys
      ensures OnlyOwn(old(resources), resources, svc) && OnlyOwn(old(records), records, svc)
    {
      var desired;
      PruneIgnoresWanted(resources, svc.namespace, svc.name, Wanted(svc.name, ingress, ResourceOf(network, svc, groups)),
                         env.listResources, env.deleteResource);
      PruneIgnoresWanted(records, svc.namespace, svc.name, Wanted(svc.name, ingress, RecordOf(cfg, svc)), env.listRecords, env.deleteRecord);
      desired, err := ApplyAll(svc, ingress, network, groups, env);
      ghost var mid, mid' := resources, records;
      if err.None? {
        err := PruneBoth(svc, desired, env);
      }
      AddedThenDropped(old(resources), mid, resources, svc);
      AddedThenDropped(old(records), mid', records, svc);
    }

    method Withdraw(svc: Service, env: LbEnv) returns (err: Option<Err>)
      modifies this`resources, this`records
      ensures err.None? ==> resources == Synced(old(resources), svc.namespace, svc.name, map[])
      ensures err.None? ==> records == Synced(old(records), svc.namespace, svc.name, map[])
      ensures err.Some? <==> PruningFails(old(resources), old(records), svc, {}, env)
      ensures OnlyOwn(old(resources), resources, svc) && OnlyOwn(old(records), records, svc)
    {
      SyncOfNothing(resources, svc.namespace, svc.name);
      SyncOfNothing(records, svc.namespace, svc.name);
      err := PruneBoth(svc, {}, env);
      AddedThenDropped(old(resources), old(resources), resources, svc);
      AddedThenDropped(old(records), old(records), records, svc);
    }

    /** Without an error: an advertised Service's children are exactly the
        wanted ones, one that is not advertised has none, and while it waits for
        an address or a dependency nothing changes. Error or not, only its own
        children are touched. */
    method Reconcile(svc: Service, namespace: Option<string>, groups: seq<string>, env: LbEnv)
      returns (outcome: Outcome, ghost network: Key)
      modifies this`resources, this`records
      ensures outcome == NotAdvertised ==>
        && !Advertises(cfg, svc, namespace)
        && resources == Synced(old(resources), svc.namespace, svc.name, map[])
        && records == Synced(old(records), svc.namespace, svc.name, map[])
      ensures outcome == Advertised ==>
        && Advertises(cfg, svc, namespace) && Ingress(cfg.ip, svc.ingress) != []
        && env.networks.Ok? && FirstNamed(env.networks.value, cfg.network) == Some(network)
        && resources == Synced(old(resources), svc.namespace, svc.name,
                               Wanted(svc.name, Ingress(cfg.ip, svc.ingress), ResourceOf(network, svc, groups)))
        && records == Synced(old(records), svc.namespace, svc.name,
                             Wanted(svc.name, Ingress(cfg.ip, svc.ingress), RecordOf(cfg, svc)))
      ensures outcome == Waiting || outcome == DependencyMissing ==> resources == old(resources) && records == old(records)
      ensures outcome == Waiting <==> Advertises(cfg, svc, namespace) && Ingress(cfg.ip, svc.ingress) == []
      ensures outcome == DependencyMissing <==>
        && Advertises(cfg, svc, namespace) && Ingress(cfg.ip, svc.ingress) != []
        && (env.networks.Fail? || FirstNamed(env.networks.value, cfg.network).None? || cfg.zone == "" || !env.applyZone.Fine?)
      ensures outcome.Failed? <==>
        if !Advertises(cfg, svc, namespace) then PruningFails(old(resources), old(records), svc, {}, env)
        else
          && outcome != Waiting && outcome != DependencyMissing
          && (!AllApplied(|Ingress(cfg.ip, svc.ingress)|, env) ||
              PruningFails(old(resources), old(records), svc, Wanted(svc.name, Ingress(cfg.ip, svc.ingress), RecordOf(cfg, svc)).Keys, env))
      ensures Advertises(cfg, svc, namespace) && !AllApplied(|Ingress(cfg.ip, svc.ingress)|, env) ==>
        old(resources).Keys <= resources.Keys && old(records).Keys <= records.Keys
      ensures OnlyOwn(old(resources), resources, svc) && OnlyOwn(old(records), records, svc)
    {
      network := ("", "");
      if !Advertises(cfg, svc, namespace) {
        var err := Withdraw(svc, env);
        outcome := if err.Some? then Failed(err.value) else NotAdvertised;
        return;
      }
      var ingress := LbIngressAddresses(cfg.ip, svc);
      if |ingress| == 0 {
        outcome := Waiting;
        return;
      }
      var found := ResolveNetwork(env.networks, cfg.network);
      if found.None? || cfg.zone == "" || !env.applyZone.Fine? {
        outcome := DependencyMissing;
        return;
      }
      network := found.value;
      IngressHasRecordTypes(cfg.ip, svc.ingress);
      var err := Advertise(svc, ingress, found.value, groups, env);
      outcome := if err.Some? then Failed(err.value) else Advertised;
    }
  }

  /** Every listed ingress address has the record type of its family. */
  lemma {:induction false} IngressHasRecordTypes(ip: IpText, entries: seq<string>)
    ensures forall i :: 0 <= i < |Ingress(ip, entries)| ==>
              DnsRecordTypeFor(ip, Ingress(ip, entries)[i].address) == Some(TypeOf(Ingress(ip, entries)[i].family))
  {
    if entries != [] {
      IngressHasRecordTypes(ip, entries[..|entries| - 1]);
    }
  }

  /** The state of the apply loop: the children of the addresses done are in place. */
  ghost predicate Progress<V>(c: Children<V>, after: Children<V>, svc: Service, done: seq<FamilyAddress>, body: FamilyAddress -> V,
                              desired: set<string>) {
    && after == c + Placed(svc.namespace, Wanted(svc.name, done, body))
    && desired == Wanted(svc.name, done, body).Keys
    && OnlyAdded(c, after, svc)
  }

  lemma ProgressGrows<V>(c: Children<V>, after: Children<V>, svc: Service, addrs: seq<FamilyAddress>, i: nat, body: FamilyAddress -> V,
                         desired: set<string>)
    requires i < |addrs| && Progress(c, after, svc, addrs[..i], body, desired)
    ensures var name := ChildName(svc.name, addrs[i].family);
            Progress(c, after[(svc.namespace, name) := Owned(svc.name, body(addrs[i]))], svc, addrs[..i + 1], body, desired + {name})
  {
    var name, child, want := ChildName(svc.name, addrs[i].family), Owned(svc.name, body(addrs[i])), Wanted(svc.name, addrs[..i], body);
    OneMoreWanted(svc.name, addrs, i, body);
    PlaceOneMore(c, svc.namespace, want, name, child);
    AddOne(c, after, svc, name, child);
  }

  lemma OneMoreWanted<V>(svc: string, addrs: seq<FamilyAddress>, i: nat, body: FamilyAddress -> V)
    requires i < |addrs|
    ensures Wanted(svc, addrs[..i + 1], body) ==
            Wanted(svc, addrs[..i], body)[ChildName(svc, addrs[i].family) := Owned(svc, body(addrs[i]))]
  {
    assert addrs[..i + 1][..i] == addrs[..i];
  }

  lemma AddOne<V>(c: Children<V>, after: Children<V>, svc: Service, name: string, child: Owned<V>)
    requires OnlyAdded(c, after, svc) && IsChildName(svc.name, name) && child.tag == svc.name
    ensures OnlyAdded(c, after[(svc.namespace, name) := child], svc)
  {
  }

  // ---- Exactly one per family ----

  /** a is the last address of the family, or there is none. */
  ghost predicate LastOfFamily(addrs: seq<FamilyAddress>, family: IPFamily, a: Option<FamilyAddress>) {
    match a
    case None => forall i :: 0 <= i < |addrs| ==> addrs[i].family != family
    case Some(fa) =>
      fa.family == family && exists k :: 0 <= k < |addrs| && addrs[k] == fa && forall j :: k < j < |addrs| ==> addrs[j].family != family
  }

  function Latest(addrs: seq<FamilyAddress>, family: IPFamily): Option<FamilyAddress> {
    if addrs == [] then None
    else if addrs[|addrs| - 1].family == family then Some(addrs[|addrs| - 1])
    else Latest(addrs[..|addrs| - 1], family)
  }

  lemma {:induction false} LatestIsLast(addrs: seq<FamilyAddress>, family: IPFamily)
    ensures LastOfFamily(addrs, family, Latest(addrs, family))
  {
    if addrs != [] {
      var n := |addrs| - 1;
      if addrs[n].family == family {
        assert addrs[n] == Latest(addrs, family).value;
      } else {
        LatestIsLast(addrs[..n], family);
        LastOfPrefix(addrs, family, Latest(addrs[..n], family));
      }
    }
  }

  lemma LastOfPrefix(addrs: seq<FamilyAddress>, family: IPFamily, a: Option<FamilyAddress>)
    requires addrs != [] && addrs[|addrs| - 1].family != family && LastOfFamily(addrs[..|addrs| - 1], family, a)
    ensures LastOfFamily(addrs, family, a)
  {
    var t := addrs[..|addrs| - 1];
    assert forall i :: 0 <= i < |t| ==> t[i] == addrs[i];
    if a.Some? {
      var k :| 0 <= k < |t| && t[k] == a.value && forall j :: k < j < |t| ==> t[j].family != family;
      assert addrs[k] == a.value;
    }
  }

  /** The wanted children are one per family present, for its last address. */
  lemma {:induction false} WantedPerFamily<V>(svc: string, addrs: seq<FamilyAddress>, body: FamilyAddress -> V, n: string)
    ensures n in Wanted(svc, addrs, body) <==> exists f :: n == ChildName(svc, f) && Latest(addrs, f).Some?
    ensures forall f :: Latest(addrs, f).Some? && n == ChildName(svc, f) ==>
              n in Wanted(svc, addrs, body) && Wanted(svc, addrs, body)[n] == Owned(svc, body(Latest(addrs, f).value))
  {
    if addrs != [] {
      var last := addrs[|addrs| - 1];
      WantedPerFamily(svc, addrs[..|addrs| - 1], body, n);
      if n == ChildName(svc, last.family) {
        forall f | n == ChildName(svc, f) ensures f == last.family {
          ChildNameIsInjective(svc, f, svc, last.family);
        }
        assert Latest(addrs, last.family).Some?;
      }
    }
  }

  /** Every child is named after its owner and a family. */
  ghost predicate OperatorMade<V>(c: Children<V>) {
    forall k: Key :: k in c ==> IsChildName(c[k].tag, k.1)
  }

  lemma NamesHaveOneOwner(svc1: string, svc2: string, name: string)
    requires IsChildName(svc1, name) && IsChildName(svc2, name)
    ensures svc1 == svc2
  {
    var f1 := if name == ChildName(svc1, IPv4) then IPv4 else IPv6;
    var f2 := if name == ChildName(svc2, IPv4) then IPv4 else IPv6;
    ChildNameIsInjective(svc1, f1, svc2, f2);
  }

  /** The other Services' children are as they were. */
  ghost predicate OthersKept<V>(c: Children<V>, after: Children<V>, svc: Service) {
    && (forall k: Key :: k in c && (k.0 != svc.namespace || c[k].tag != svc.name) ==> k in after && after[k] == c[k])
    && (forall k: Key :: k in after && (k.0 != svc.namespace || after[k].tag != svc.name) ==> k in c && after[k] == c[k])
  }

  /** Any reconcile, failed or not, leaves every other Service's children alone,
      and keeps children named after their owners. */
  lemma OthersAreKept<V>(c: Children<V>, after: Children<V>, svc: Service)
    requires OperatorMade(c) && OnlyOwn(c, after, svc)
    ensures OthersKept(c, after, svc) && OperatorMade(after)
  {
    forall k: Key | k in c && (k.0 != svc.namespace || c[k].tag != svc.name) ensures k in after && after[k] == c[k] {
      if k.0 == svc.namespace && IsChildName(svc.name, k.1) {
        NamesHaveOneOwner(c[k].tag, svc.name, k.1);
      }
    }
  }

  /** The Service's children are one for each family with an address, for that
      family's last address, and no other. */
  ghost predicate OnePerFamily<V>(after: Children<V>, svc: Service, addrs: seq<FamilyAddress>, body: FamilyAddress -> V) {
    && (forall f :: Latest(addrs, f).Some? ==>
          var k := (svc.namespace, ChildName(svc.name, f));
          k in after && after[k] == Owned(svc.name, body(Latest(addrs, f).value)))
    && (forall k: Key :: k in after && k.0 == svc.namespace && after[k].tag == svc.name ==>
          exists f :: k.1 == ChildName(svc.name, f) && Latest(addrs, f).Some?)
  }

  lemma WantedIsTagged<V>(svc: string, addrs: seq<FamilyAddress>, body: FamilyAddress -> V)
    ensures Tagged(Wanted(svc, addrs, body), svc)
  {
    forall n | n in Wanted(svc, addrs, body) ensures Wanted(svc, addrs, body)[n].tag == svc {
      WantedPerFamily(svc, addrs, body, n);
    }
  }

  /** What an error-free advertise leaves, and that advertising again changes nothing. */
  lemma AdvertisedIsOnePerFamily<V>(c: Children<V>, svc: Service, addrs: seq<FamilyAddress>, body: FamilyAddress -> V)
    ensures var want := Wanted(svc.name, addrs, body);
            var after := Synced(c, svc.namespace, svc.name, want);
            OnePerFamily(after, svc, addrs, body) && Synced(after, svc.namespace, svc.name, want) == after
  {
    var want := Wanted(svc.name, addrs, body);
    var after := Synced(c, svc.namespace, svc.name, want);
    WantedIsTagged(svc.name, addrs, body);
    SyncIsExact(c, svc.namespace, svc.name, want);
    forall f | Latest(addrs, f).Some?
      ensures var k := (svc.namespace, ChildName(svc.name, f)); k in after && after[k] == Owned(svc.name, body(Latest(addrs, f).value))
    {
      WantedPerFamily(svc.name, addrs, body, ChildName(svc.name, f));
    }
    forall k: Key | k in after && k.0 == svc.namespace && after[k].tag == svc.name
      ensures exists f :: k.1 == ChildName(svc.name, f) && Latest(addrs, f).Some?
    {
      WantedPerFamily(svc.name, addrs, body, k.1);
    }
  }

  /** Opting out, retyping or deleting leaves the Service without children. */
  lemma OptedOutHasNone<V>(c: Children<V>, svc: Service)
    ensures forall k: Key :: k in Synced(c, svc.namespace, svc.name, map[]) && k.0 == svc.namespace ==>
              Synced(c, svc.namespace, svc.name, map[])[k].tag != svc.name
  {
    SyncIsExact(c, svc.namespace, svc.name, map[]);
  }

  // ---- What the annotations and the children say ----

  /** A Service's own annotation decides, whatever the namespace and the operator say;
      without one the namespace's does; without either the operator's default. Only
      "true" means yes. */
  lemma MostSpecificDecides(svc: Service, namespace: Option<string>, cfg: Config)
    requires svc.loadBalancer && !svc.deleting
    ensures svc.advertise.Some? ==> (Advertises(cfg, svc, namespace) <==> svc.advertise == Some("true"))
    ensures svc.advertise.None? && namespace.Some? ==> (Advertises(cfg, svc, namespace) <==> namespace == Some("true"))
    ensures svc.advertise.None? && namespace.None? ==> (Advertises(cfg, svc, namespace) <==> cfg.default_)
  {
  }

  /** Other types of Services and deleted ones are never advertised. */
  lemma OnlyLiveLoadBalancers(svc: Service, namespace: Option<string>, cfg: Config)
    requires Advertises(cfg, svc, namespace)
    ensures svc.loadBalancer && !svc.deleting
  {
  }

  /** What an error-free advertise leaves for a family, field by field: an enabled
      resource in the configured network and a record in the operator's zone, both for
      the same address, the record of the family's type, under the Service's one name,
      for five minutes. */
  ghost predicate PublishedAs(cfg: Config, network: Key, svc: Service, groups: seq<string>, family: IPFamily, address: string,
                              resources: Children<ResourceChild>, records: Children<RecordChild>) {
    var k := (svc.namespace, svc.name + if family == IPv4 then "-ipv4" else "-ipv6");
    && k in resources && k in records && resources[k].tag == svc.name && records[k].tag == svc.name
    && var resource, record := resources[k].body, records[k].body;
       && resource.network == network && resource.address == address && resource.groups == groups && resource.enabled
       && resource.name == svc.name + "-" + svc.namespace + "-" + (if family == IPv4 then "IPv4" else "IPv6")
       && record.zone == (cfg.namespace, cfg.zone) && record.content == address && record.ttl == 300
       && record.name == svc.name + "-" + svc.namespace + "." + cfg.zone
       && record.type_ == if family == IPv4 then A else AAAA
  }

  /** For every family with an ingress address, that is what is left, for an address
      of the family that the Service's status lists. */
  lemma AdvertisedContents(cfg: Config, network: Key, svc: Service, groups: seq<string>, family: IPFamily,
                           resources: Children<ResourceChild>, records: Children<RecordChild>)
    requires Latest(Ingress(cfg.ip, svc.ingress), family).Some?
    requires OnePerFamily(resources, svc, Ingress(cfg.ip, svc.ingress), ResourceOf(network, svc, groups))
    requires OnePerFamily(records, svc, Ingress(cfg.ip, svc.ingress), RecordOf(cfg, svc))
    ensures exists address :: address in svc.ingress && IsOfFamily(cfg.ip, address, family)
                              && PublishedAs(cfg, network, svc, groups, family, address, resources, records)
  {
    var addrs := Ingress(cfg.ip, svc.ingress);
    LatestIsLast(addrs, family);
    var fa := Latest(addrs, family).value;
    IngressMembers(cfg.ip, svc.ingress, fa);
    assert fa in addrs;
    assert PublishedAs(cfg, network, svc, groups, family, fa.address, resources, records);
  }

  /** The text parses as an address of the family. */
  predicate IsOfFamily(ip: IpText, address: string, family: IPFamily) {
    match ip.parse(address)
    case None => false
    case Some(V4(_)) => family == IPv4
    case Some(V6(_)) => family == IPv6
  }

  /** With every call answered nothing fails. */
  lemma AnsweredNeverFails(resources: Children<ResourceChild>, records: Children<RecordChild>, svc: Service, names: set<string>, n: nat, env: LbEnv)
    requires forall i :: env.applyResource(i) == Fine && env.applyRecord(i) == Fine
    requires env.listResources.Fine? && env.listRecords.Fine? && forall k :: env.deleteResource(k) == Fine && env.deleteRecord(k) == Fine
    ensures AllApplied(n, env) && !PruningFails(resources, records, svc, names, env)
  {
    FirstFineMeans(env.applyResource, n);
    FirstFineMeans(env.applyRecord, n);
  }
}
