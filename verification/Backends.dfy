/** What the renderer finds for a Service the LoadBalancer controller has advertised
    (internal/controller/loadbalancer_controller.go and
    internal/controller/reverseproxyservice_mirror.go). */
module Backends {
  import opened Api
  import opened ServiceAddr
  import opened ChildSets
  import LB = LoadBalancer
  import R = Renderer

  /** names lists the objects labelled with the Service, each once, in any order. */
  ghost predicate Lists<V>(c: Children<V>, svc: LB.Service, names: seq<string>) {
    && NoRepeats(names)
    && (forall n :: n in names ==> (svc.namespace, n) in c && c[(svc.namespace, n)].tag == svc.name)
    && (forall k: Key :: k in c && k.0 == svc.namespace && c[k].tag == svc.name ==> k.1 in names)
  }

  /** The names the listed records carry. */
  function RecordNames(c: Children<LB.RecordChild>, namespace: string, names: seq<string>): seq<string>
    requires forall n :: n in names ==> (namespace, n) in c
  {
    seq(|names|, i requires 0 <= i < |names| => c[(namespace, names[i])].body.name)
  }

  /** The listed resources, with the ids their own reconciles have recorded. */
  function Items(c: Children<LB.ResourceChild>, namespace: string, names: seq<string>, ids: string -> Id): seq<R.Resource>
    requires forall n :: n in names ==> (namespace, n) in c
  {
    seq(|names|, i requires 0 <= i < |names| => R.Resource(names[i], c[(namespace, names[i])].body.address, ids(names[i])))
  }

  lemma SomeFamily(addrs: seq<LB.FamilyAddress>)
    requires addrs != []
    ensures LB.Latest(addrs, addrs[0].family).Some?
  {
    LB.LatestIsLast(addrs, addrs[0].family);
  }

  /** An HTTP backend is dialed at the name all of the Service's records carry,
      whichever of them is listed first. */
  lemma AdvertisedNameIsOne(cfg: LB.Config, svc: LB.Service, addrs: seq<LB.FamilyAddress>, records: Children<LB.RecordChild>,
                            names: seq<string>, w: R.World)
    requires addrs != [] && LB.OnePerFamily(records, svc, addrs, LB.RecordOf(cfg, svc)) && Lists(records, svc, names)
    requires w.records(svc.name) == Ok(RecordNames(records, svc.namespace, names))
    ensures R.BackendFqdn(w, svc.name) == Ok(ServiceFqdn(svc.name, svc.namespace, cfg.zone))
  {
    SomeFamily(addrs);
    assert ChildName(svc.name, addrs[0].family) in names by {
      var k := (svc.namespace, ChildName(svc.name, addrs[0].family));
      assert k in records && records[k].tag == svc.name;
    }
    var k := (svc.namespace, names[0]);
    assert names[0] in names;
    var f :| k.1 == ChildName(svc.name, f) && LB.Latest(addrs, f).Some?;
    assert records[k] == Owned(svc.name, LB.RecordOf(cfg, svc)(LB.Latest(addrs, f).value));
  }

  /** A Service that is not advertised keeps its backends waiting. */
  lemma NotAdvertisedWaits(svc: LB.Service, records: Children<LB.RecordChild>, names: seq<string>, w: R.World)
    requires Lists(Synced(records, svc.namespace, svc.name, map[]), svc, names)
    requires w.records(svc.name) == Ok(RecordNames(Synced(records, svc.namespace, svc.name, map[]), svc.namespace, names))
    ensures R.BackendFqdn(w, svc.name) == Fail(NotReady)
  {
    LB.OptedOutHasNone(records, svc);
    assert forall i :: 0 <= i < |names| ==> names[i] in names;
  }

  lemma LatestHasItsFamily(ip: IpText, entries: seq<string>, family: IPFamily)
    requires LB.Latest(LB.Ingress(ip, entries), family).Some?
    ensures IpFamilyOf(ip, LB.Latest(LB.Ingress(ip, entries), family).value.address) == Some(family)
  {
    var addrs := LB.Ingress(ip, entries);
    LB.LatestIsLast(addrs, family);
    LB.IngressHasRecordTypes(ip, entries);
  }

  /** The resource an L4 backend should be dialed through: the last IPv4 ingress
      address of the Service, or the last IPv6 one when there is no IPv4. */
  function BestFamily(addrs: seq<LB.FamilyAddress>): IPFamily {
    if LB.Latest(addrs, IPv4).Some? then IPv4 else IPv6
  }

  ghost predicate ItemOf(ip: IpText, svc: string, addrs: seq<LB.FamilyAddress>, x: R.Resource, f: IPFamily) {
    && x.name == ChildName(svc, f) && LB.Latest(addrs, f).Some? && x.address == LB.Latest(addrs, f).value.address
    && IpFamilyOf(ip, x.address) == Some(f)
  }

  lemma ItemsArePerFamily(ip: IpText, network: Key, svc: LB.Service, groups: seq<string>, resources: Children<LB.ResourceChild>,
                          names: seq<string>, ids: string -> Id, i: nat) returns (f: IPFamily)
    requires i < |names| && Lists(resources, svc, names)
    requires LB.OnePerFamily(resources, svc, LB.Ingress(ip, svc.ingress), LB.ResourceOf(network, svc, groups))
    ensures ItemOf(ip, svc.name, LB.Ingress(ip, svc.ingress), Items(resources, svc.namespace, names, ids)[i], f)
  {
    var addrs := LB.Ingress(ip, svc.ingress);
    var k := (svc.namespace, names[i]);
    assert names[i] in names;
    f :| k.1 == ChildName(svc.name, f) && LB.Latest(addrs, f).Some?;
    LatestHasItsFamily(ip, svc.ingress, f);
    assert resources[k] == Owned(svc.name, LB.ResourceOf(network, svc, groups)(LB.Latest(addrs, f).value));
  }

  /** An advertised Service's L4 target is the resource of its last IPv4 address,
      or of its last IPv6 one when it has no IPv4, in whatever order the resources
      are listed; and all addresses listed parse. */
  lemma AdvertisedPickIsBest(ip: IpText, network: Key, svc: LB.Service, groups: seq<string>, resources: Children<LB.ResourceChild>,
                             names: seq<string>, ids: string -> Id, pick: R.Resource)
    requires Lists(resources, svc, names) && LB.Ingress(ip, svc.ingress) != []
    requires LB.OnePerFamily(resources, svc, LB.Ingress(ip, svc.ingress), LB.ResourceOf(network, svc, groups))
    requires R.IsPick(ip, Items(resources, svc.namespace, names, ids), pick)
    ensures R.AllAddressed(ip, Items(resources, svc.namespace, names, ids))
    ensures var addrs := LB.Ingress(ip, svc.ingress);
            ItemOf(ip, svc.name, addrs, pick, BestFamily(addrs))
  {
    var addrs, items := LB.Ingress(ip, svc.ingress), Items(resources, svc.namespace, names, ids);
    forall i | 0 <= i < |items| ensures IpFamilyOf(ip, items[i].address).Some? {
      var f := ItemsArePerFamily(ip, network, svc, groups, resources, names, ids, i);
    }
    var i :| 0 <= i < |items| && items[i] == pick;
    var f := ItemsArePerFamily(ip, network, svc, groups, resources, names, ids, i);
    if LB.Latest(addrs, IPv4).Some? {
      var name := ChildName(svc.name, IPv4);
      assert name in names by {
        assert (svc.namespace, name) in resources && resources[(svc.namespace, name)].tag == svc.name;
      }
      var j :| 0 <= j < |names| && names[j] == name;
      var g := ItemsArePerFamily(ip, network, svc, groups, resources, names, ids, j);
      ChildNameIsInjective(svc.name, g, svc.name, IPv4);
      assert items[j] in items && !R.Preferred(ip, items[j], pick);
    }
  }
}
