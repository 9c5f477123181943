/** The ReverseProxyCluster controller
    (internal/controller/reverseproxycluster_controller.go): mint a token, wait for
    an address and for the proxy to enrol, then adopt, repair or create the custom
    domain registration; on deletion drop only what no survivor uses. */
module ReverseProxyCluster {
  import opened Api
  import opened Records
  import opened ListCaches
  import opened Kube
  import opened Mirror

  /** Both fields are non-empty by CRD validation. */
  datatype ClusterSpec = ClusterSpec(domain: string, address: string)

  datatype ClusterStatus = ClusterStatus(
    tokenID: Id, domainID: Id, clusterAddress: string, loadBalancerIP: string, online: bool, connectedProxies: int)

  const BLANK: ClusterStatus := ClusterStatus(NO_ID, NO_ID, "", "", false, 0)

  const FINALIZER: string := "finalizers.netbird.io/reverseproxycluster"

  type ClusterObject = Object<ClusterSpec, ClusterStatus>
  type ClusterStore = Store<ClusterSpec, ClusterStatus>

  /** A custom domain registration; the empty target stands for none. */
  datatype Domain = Domain(domain: string, target: string)

  /** A proxy cluster enrolled in the account. */
  datatype Cluster = Cluster(address: string, online: bool, connectedProxies: int)

  datatype ClusterWorld = ClusterWorld(
    tokens: set<Id>, domains: seq<Rec<Domain>>, clusters: seq<Cluster>, nextId: Id, cache: Cache<Cluster>)

  /** The answers one reconcile gets, call by call. addresses is what the proxy
      Service's load balancer currently serves, the first of each family. */
  datatype ClusterEnv = ClusterEnv(
    add: Fault, token: Fault, secret: Fault, patchToken: Fault, zone: Fault, deployment: Fault, service: Fault,
    addresses: seq<string>, records: Fault,
    now: int, fetch0: Fault, fetch1: Fault,
    listDomains: Fault, listObjects: Fault, targetNow: int, targetFetch0: Fault, targetFetch1: Fault,
    deleteDomain: Fault, createDomain: Fault, patchDomain: Fault, validate: Fault, patchStatus: Fault,
    deleteToken: Fault, listObjectsAgain: Fault, deleteCluster: Fault, remove: Fault)

  /** wrote is the Ready condition the reconcile has written, if any. */
  datatype Out = Out(world: ClusterWorld, store: ClusterStore, result: Result, wrote: Option<Condition>)

  function Wrote(f: Fault, c: Condition): Option<Condition> {
    if f.Acts() then Some(c) else None
  }

  datatype Ensured = Ensured(world: ClusterWorld, reply: Reply<Id>)

  function ClusterFetch(clusters: seq<Cluster>, f0: Fault, f1: Fault): Fetch<Cluster> {
    (k: nat) => Answer(if k == 0 then f0 else f1, Ok(clusters))
  }

  lemma FetchIsSteady(clusters: seq<Cluster>, f0: Fault, f1: Fault)
    ensures forall k: nat :: ClusterFetch(clusters, f0, f1)(k).Ok? ==> ClusterFetch(clusters, f0, f1)(k).value == clusters
  {
    forall k: nat
      ensures ClusterFetch(clusters, f0, f1)(k).Ok? ==> ClusterFetch(clusters, f0, f1)(k).value == clusters
    {
      assert ClusterFetch(clusters, f0, f1)(k) == Answer(if k == 0 then f0 else f1, Ok(clusters));
    }
  }

  function AtAddress(address: string): Cluster -> bool {
    (c: Cluster) => c.address == address
  }

  function ForDomain(domain: string): Rec<Domain> -> bool {
    (d: Rec<Domain>) => d.body.domain == domain
  }

  function WithId(id: Id): Rec<Domain> -> bool {
    (d: Rec<Domain>) => d.id == id
  }

  /** Another live object runs, or last ran, its proxy at address. */
  predicate AddressOwned(store: ClusterStore, uid: Uid, address: string) {
    AnotherLive(store, uid, (o: ClusterObject) => o.spec.address == address || o.status.clusterAddress == address)
  }

  /** Another live object declares the domain or has recorded its registration. */
  predicate DomainUsed(store: ClusterStore, uid: Uid, domain: string, id: Id) {
    AnotherLive(store, uid, (o: ClusterObject) => o.spec.domain == domain || o.status.domainID == id)
  }

  /** A delete whose "not found" answer counts as done. */
  predicate Refused(f: Fault) {
    !f.Fine? && f.err != NotFound
  }

  // ---- ensureDomain ----

  function CreateDomain(w: ClusterWorld, spec: ClusterSpec, f: Fault): Ensured {
    Ensured(if f.Acts() then w.(domains := w.domains + [Rec(w.nextId, Domain(spec.domain, spec.address))], nextId := w.nextId + 1) else w,
            if f.Fine? then Ok(w.nextId) else Fail(f.err))
  }

  function LookupTarget(w: ClusterWorld, target: string, env: ClusterEnv): Looked<Cluster> {
    LookedUp(w.cache, env.targetNow, ClusterFetch(w.clusters, env.targetFetch0, env.targetFetch1), AtAddress(target))
  }

  /** The registration d points elsewhere: give way to an owner, repair dead state. */
  function Repair(w: ClusterWorld, store: ClusterStore, uid: Uid, spec: ClusterSpec, d: Rec<Domain>, env: ClusterEnv): Ensured {
    if !env.listObjects.Fine? then Ensured(w, Fail(env.listObjects.err))
    else if AddressOwned(store, uid, d.body.target) then Ensured(w, Fail(NotReady))
    else
      var l := LookupTarget(w, d.body.target, env);
      var w1 := w.(cache := l.cache);
      if l.found.Hit? then Ensured(w1, Fail(NotReady))
      else if l.found.Broken? then Ensured(w1, Fail(l.found.err))
      else
        var w2 := if env.deleteDomain.Acts() then w1.(domains := Remove(w1.domains, d.id)) else w1;
        if Refused(env.deleteDomain) then Ensured(w2, Fail(env.deleteDomain.err))
        else CreateDomain(w2, spec, env.createDomain)
  }

  function EnsuredDomain(w: ClusterWorld, store: ClusterStore, uid: Uid, spec: ClusterSpec, env: ClusterEnv): Ensured {
    if !env.listDomains.Fine? then Ensured(w, Fail(env.listDomains.err))
    else
      match Scan(w.domains, ForDomain(spec.domain))
      case None => CreateDomain(w, spec, env.createDomain)
      case Some(d) =>
        if d.body.target == "" || d.body.target == spec.address then Ensured(w, Ok(d.id))
        else Repair(w, store, uid, spec, d, env)
  }

  // ---- Reconcile, stage by stage ----

  function NotReadyExit(w: ClusterWorld, store: ClusterStore, uid: Uid, obj: ClusterObject, env: ClusterEnv): Out {
    Out(w, Patched(store, uid, obj.(condition := NotReadyYet), env.patchStatus), Outcome(env.patchStatus, DependencyRetry),
        Wrote(env.patchStatus, NotReadyYet))
  }

  /** Step 6: the registration is settled under id; record it, validate, be ready. */
  function Confirm(w: ClusterWorld, store: ClusterStore, uid: Uid, obj: ClusterObject, id: Id, env: ClusterEnv): Out {
    var obj1 := obj.(status := obj.status.(domainID := id));
    var moved := obj.status.domainID != id;
    var store1 := if moved then Patched(store, uid, obj1, env.patchDomain) else store;
    if moved && !env.patchDomain.Fine? then Out(w, store1, Failed(env.patchDomain.err), None)
    else if !env.validate.Fine? then NotReadyExit(w, store1, uid, obj1, env)
    else Out(w, Patched(store1, uid, obj1.(condition := Ready), env.patchStatus), Outcome(env.patchStatus, Resync),
             Wrote(env.patchStatus, Ready))
  }

  function Register(w: ClusterWorld, store: ClusterStore, uid: Uid, obj: ClusterObject, env: ClusterEnv): Out {
    var e := EnsuredDomain(w, store, uid, obj.spec, env);
    if e.reply.Ok? then Confirm(e.world, store, uid, obj, e.reply.value, env)
    else if e.reply.err == NotReady then NotReadyExit(e.world, store, uid, obj, env)
    else Out(e.world, store, Failed(e.reply.err), None)
  }

  function LookupOwn(w: ClusterWorld, address: string, env: ClusterEnv): Looked<Cluster> {
    LookedUp(w.cache, env.now, ClusterFetch(w.clusters, env.fetch0, env.fetch1), AtAddress(address))
  }

  function Offline(obj: ClusterObject): ClusterObject {
    obj.(status := obj.status.(online := false, connectedProxies := 0))
  }

  /** Step 5: the proxy has enrolled once its cluster resolves at the address. */
  function Enrol(w: ClusterWorld, store: ClusterStore, uid: Uid, obj: ClusterObject, env: ClusterEnv): Out {
    var l := LookupOwn(w, obj.spec.address, env);
    var w1 := w.(cache := l.cache);
    match l.found
    case Miss => NotReadyExit(w1, store, uid, Offline(obj), env)
    case Broken(e) => Out(w1, store, Failed(e), None)
    case Hit(c) =>
      Register(w1, store, uid,
               obj.(status := obj.status.(clusterAddress := obj.spec.address, online := c.online, connectedProxies := c.connectedProxies)),
               env)
  }

  /** Steps 2 to 4: zone, workload and Service, then the address and its records. */
  function Deploy(w: ClusterWorld, store: ClusterStore, uid: Uid, obj: ClusterObject, env: ClusterEnv): Out {
    if !env.zone.Fine? then Out(w, store, Failed(env.zone.err), None)
    else if !env.deployment.Fine? then Out(w, store, Failed(env.deployment.err), None)
    else if !env.service.Fine? then Out(w, store, Failed(env.service.err), None)
    else if env.addresses == [] then NotReadyExit(w, store, uid, Offline(obj), env)
    else if !env.records.Fine? then Out(w, store, Failed(env.records.err), None)
    else Enrol(w, store, uid, obj.(status := obj.status.(loadBalancerIP := env.addresses[0])), env)
  }

  datatype Minted = Minted(world: ClusterWorld, store: ClusterStore, obj: ClusterObject, err: Option<Err>)

  /** A token is created, kept in a Secret, and recorded. */
  function MintToken(w: ClusterWorld, store: ClusterStore, uid: Uid, obj: ClusterObject, env: ClusterEnv): Minted {
    var w1 := if env.token.Acts() then w.(tokens := w.tokens + {w.nextId}, nextId := w.nextId + 1) else w;
    var obj1 := obj.(status := obj.status.(tokenID := w.nextId));
    if !env.token.Fine? then Minted(w1, store, obj, Some(env.token.err))
    else if !env.secret.Fine? then Minted(w1, store, obj, Some(env.secret.err))
    else Minted(w1, Patched(store, uid, obj1, env.patchToken), obj1, env.patchToken.Error())
  }

  /** Step 1: mint the enrolment token once. */
  function Mint(w: ClusterWorld, store: ClusterStore, uid: Uid, obj: ClusterObject, env: ClusterEnv): Out {
    if obj.status.tokenID != NO_ID then Deploy(w, store, uid, obj, env)
    else
      var m := MintToken(w, store, uid, obj, env);
      if m.err.Some? then Out(m.world, m.store, Failed(m.err.value), None) else Deploy(m.world, m.store, uid, m.obj, env)
  }

  // ---- reconcileDelete ----

  function DropToken(w: ClusterWorld, id: Id, env: ClusterEnv): ClusterWorld {
    if id != NO_ID && env.deleteToken.Acts() then w.(tokens := w.tokens - {id}) else w
  }

  /** Drops the recorded registration unless a survivor uses it. */
  function DropDomain(w: ClusterWorld, store: ClusterStore, uid: Uid, id: Id, env: ClusterEnv): (ClusterWorld, Option<Err>) {
    if id == NO_ID then (w, None)
    else if !env.listDomains.Fine? then (w, Some(env.listDomains.err))
    else
      match Scan(w.domains, WithId(id))
      case None => (w, None)
      case Some(d) =>
        if !env.listObjects.Fine? then (w, Some(env.listObjects.err))
        else if DomainUsed(store, uid, d.body.domain, id) then (w, None)
        else (if env.deleteDomain.Acts() then w.(domains := Remove(w.domains, id)) else w,
              if Refused(env.deleteDomain) then Some(env.deleteDomain.err) else None)
  }

  function WithoutCluster(clusters: seq<Cluster>, address: string): (r: seq<Cluster>)
    ensures forall c :: c in r <==> c in clusters && c.address != address
  {
    if clusters == [] then []
    else
      assert forall c :: c in clusters <==> c == clusters[0] || c in clusters[1..];
      (if clusters[0].address == address then [] else [clusters[0]]) + WithoutCluster(clusters[1..], address)
  }

  function DropCluster(w: ClusterWorld, store: ClusterStore, uid: Uid, address: string, env: ClusterEnv): (ClusterWorld, Option<Err>) {
    if address == "" then (w, None)
    else if !env.listObjectsAgain.Fine? then (w, Some(env.listObjectsAgain.err))
    else if AddressOwned(store, uid, address) then (w, None)
    else (if env.deleteCluster.Acts() then w.(clusters := WithoutCluster(w.clusters, address)) else w,
          if Refused(env.deleteCluster) then Some(env.deleteCluster.err) else None)
  }

  function DeleteRun(w: ClusterWorld, store: ClusterStore, uid: Uid, env: ClusterEnv): Out
    requires uid in store
  {
    var obj := store[uid];
    var w1 := DropToken(w, obj.status.tokenID, env);
    if obj.status.tokenID != NO_ID && Refused(env.deleteToken) then Out(w1, store, Failed(env.deleteToken.err), None)
    else
      var (w2, err2) := DropDomain(w1, store, uid, obj.status.domainID, env);
      if err2.Some? then Out(w2, store, Failed(err2.value), None)
      else
        var (w3, err3) := DropCluster(w2, store, uid, obj.status.clusterAddress, env);
        if err3.Some? then Out(w3, store, Failed(err3.value), None)
        else Out(w3, Patched(store, uid, obj.(finalizers := obj.finalizers - {FINALIZER}), env.remove), Outcome(env.remove, Done), None)
  }

  function ReconcileRun(w: ClusterWorld, store: ClusterStore, uid: Uid, env: ClusterEnv): Out {
    if uid !in store then Out(w, store, Done, None)
    else if store[uid].deleting then DeleteRun(w, store, uid, env)
    else
      var obj := store[uid].(finalizers := store[uid].finalizers + {FINALIZER});
      var store1 := Patched(store, uid, obj, env.add);
      if !env.add.Fine? then Out(w, store1, Failed(env.add.err), None) else Mint(w, store1, uid, obj, env)
  }

  // ---- The controller itself ----

  class ClusterReconciler {
    var tokens: set<Id>
    var domains: seq<Rec<Domain>>
    var clusters: seq<Cluster>
    var nextId: Id
    var store: ClusterStore
    const cache: ListCache<Cluster>

    function World(): ClusterWorld reads this, cache {
      ClusterWorld(tokens, domains, clusters, nextId, cache.State())
    }

    constructor ()
      ensures World() == ClusterWorld({}, [], [], 1, Cache([], false, 0)) && store == map[] && fresh(cache)
    {
      cache := new ListCache<Cluster>();
      tokens, domains, clusters, nextId, store := {}, [], [], 1, map[];
    }

    method Patch(uid: Uid, obj: ClusterObject, f: Fault) returns (err: Option<Err>)
      modifies this`store
      ensures store == Patched(old(store), uid, obj, f) && err == f.Error()
    {
      if !f.Lost? {
        store := if obj.deleting && obj.finalizers == {} then store - {uid} else store[uid := obj];
      }
      err := f.Error();
    }

    method EnsureDomain(uid: Uid, spec: ClusterSpec, env: ClusterEnv) returns (r: Reply<Id>)
      modifies this, cache
      ensures Ensured(World(), r) == EnsuredDomain(old(World()), store, uid, spec, env)
      ensures store == old(store)
    {
      if !env.listDomains.Fine? {
        return Fail(env.listDomains.err);
      }
      var listed := domains;
      for i := 0 to |listed|
        invariant World() == old(World()) && store == old(store)
        invariant Scan(listed, ForDomain(spec.domain)) == Scan(listed[i..], ForDomain(spec.domain))
      {
        var d := listed[i];
        assert listed[i..][1..] == listed[i + 1..];
        if d.body.domain != spec.domain {
          continue;
        }
        var target := d.body.target;
        if target == "" || target == spec.address {
          return Ok(d.id);
        }
        if !env.listObjects.Fine? {
          return Fail(env.listObjects.err);
        }
        var owned := ScanLive(store, uid, (o: ClusterObject) => o.spec.address == target || o.status.clusterAddress == target);
        if owned {
          return Fail(NotReady);
        }
        var found, _ := cache.Lookup(env.targetNow, ClusterFetch(clusters, env.targetFetch0, env.targetFetch1), AtAddress(target));
        if found.Hit? {
          return Fail(NotReady);
        } else if found.Broken? {
          return Fail(found.err);
        }
        if !env.deleteDomain.Lost? {
          domains := Remove(domains, d.id);
        }
        if !env.deleteDomain.Fine? && env.deleteDomain.err != NotFound {
          return Fail(env.deleteDomain.err);
        }
        r := Create(spec, env.createDomain);
        return;
      }
      r := Create(spec, env.createDomain);
    }

    method Create(spec: ClusterSpec, f: Fault) returns (r: Reply<Id>)
      modifies this
      ensures Ensured(World(), r) == CreateDomain(old(World()), spec, f) && store == old(store)
    {
      r := if f.Fine? then Ok(nextId) else Fail(f.err);
      if !f.Lost? {
        domains := domains + [Rec(nextId, Domain(spec.domain, spec.address))];
        nextId := nextId + 1;
      }
    }

    method MarkNotReady(uid: Uid, obj: ClusterObject, env: ClusterEnv) returns (result: Result, ghost wrote: Option<Condition>)
      modifies this`store
      ensures Out(World(), store, result, wrote) == NotReadyExit(old(World()), old(store), uid, obj, env)
    {
      var err := Patch(uid, obj.(condition := NotReadyYet), env.patchStatus);
      return if err.Some? then Failed(err.value) else DependencyRetry, Wrote(env.patchStatus, NotReadyYet);
    }

    method Reconcile(uid: Uid, env: ClusterEnv) returns (result: Result, ghost wrote: Option<Condition>)
      modifies this, cache
      ensures Out(World(), store, result, wrote) == ReconcileRun(old(World()), old(store), uid, env)
    {
      if uid !in store {
        return Done, None;
      }
      var rpc := store[uid];
      if rpc.deleting {
        result := ReconcileDelete(uid, env);
        return result, None;
      }
      rpc := rpc.(finalizers := rpc.finalizers + {FINALIZER});
      var err := Patch(uid, rpc, env.add);
      if err.Some? {
        return Failed(err.value), None;
      }
      if rpc.status.tokenID == NO_ID {
        rpc, err := MintOnce(uid, rpc, env);
        if err.Some? {
          return Failed(err.value), None;
        }
      }
      result, wrote := DeployProxy(uid, rpc, env);
    }

    method MintOnce(uid: Uid, obj: ClusterObject, env: ClusterEnv) returns (rpc: ClusterObject, err: Option<Err>)
      modifies this
      ensures Minted(World(), store, rpc, err) == MintToken(old(World()), old(store), uid, obj, env)
    {
      rpc := obj;
      var id := nextId;
      if !env.token.Lost? {
        tokens, nextId := tokens + {id}, nextId + 1;
      }
      if !env.token.Fine? {
        return rpc, Some(env.token.err);
      }
      if !env.secret.Fine? {
        return rpc, Some(env.secret.err);
      }
      rpc := rpc.(status := rpc.status.(tokenID := id));
      err := Patch(uid, rpc, env.patchToken);
    }

    method DeployProxy(uid: Uid, obj: ClusterObject, env: ClusterEnv) returns (result: Result, ghost wrote: Option<Condition>)
      modifies this, cache
      ensures Out(World(), store, result, wrote) == Deploy(old(World()), old(store), uid, obj, env)
    {
      var rpc := obj;
      if !env.zone.Fine? {
        return Failed(env.zone.err), None;
      }
      if !env.deployment.Fine? {
        return Failed(env.deployment.err), None;
      }
      if !env.service.Fine? {
        return Failed(env.service.err), None;
      }
      if env.addresses == [] {
        rpc := rpc.(status := rpc.status.(online := false, connectedProxies := 0));
        result, wrote := MarkNotReady(uid, rpc, env);
        return;
      }
      rpc := rpc.(status := rpc.status.(loadBalancerIP := env.addresses[0]));
      if !env.records.Fine? {
        return Failed(env.records.err), None;
      }
      result, wrote := EnrolAndRegister(uid, rpc, env);
    }

    method EnrolAndRegister(uid: Uid, obj: ClusterObject, env: ClusterEnv) returns (result: Result, ghost wrote: Option<Condition>)
      modifies this, cache
      ensures Out(World(), store, result, wrote) == Enrol(old(World()), old(store), uid, obj, env)
    {
      var rpc := obj;
      var found, _ := cache.Lookup(env.now, ClusterFetch(clusters, env.fetch0, env.fetch1), AtAddress(rpc.spec.address));
      if found.Miss? {
        rpc := rpc.(status := rpc.status.(online := false, connectedProxies := 0));
        result, wrote := MarkNotReady(uid, rpc, env);
        return;
      }
      if found.Broken? {
        return Failed(found.err), None;
      }
      rpc := rpc.(status := rpc.status.(clusterAddress := rpc.spec.address));
      rpc := rpc.(status := rpc.status.(online := found.item.online, connectedProxies := found.item.connectedProxies));
      var ensured := EnsureDomain(uid, rpc.spec, env);
      if ensured.Fail? && ensured.err == NotReady {
        result, wrote := MarkNotReady(uid, rpc, env);
        return;
      }
      if ensured.Fail? {
        return Failed(ensured.err), None;
      }
      if rpc.status.domainID != ensured.value {
        rpc := rpc.(status := rpc.status.(domainID := ensured.value));
        var err := Patch(uid, rpc, env.patchDomain);
        if err.Some? {
          return Failed(err.value), None;
        }
      }
      if !env.validate.Fine? {
        result, wrote := MarkNotReady(uid, rpc, env);
        return;
      }
      rpc := rpc.(condition := Ready);
      var err := Patch(uid, rpc, env.patchStatus);
      return if err.Some? then Failed(err.value) else Resync, Wrote(env.patchStatus, Ready);
    }

    method ReconcileDelete(uid: Uid, env: ClusterEnv) returns (result: Result)
      requires uid in store
      modifies this
      ensures Out(World(), store, result, None) == DeleteRun(old(World()), old(store), uid, env)
    {
      var rpc := store[uid];
      if rpc.status.tokenID != NO_ID {
        if !env.deleteToken.Lost? {
          tokens := tokens - {rpc.status.tokenID};
        }
        if !env.deleteToken.Fine? && env.deleteToken.err != NotFound {
          return Failed(env.deleteToken.err);
        }
      }
      var err := DeleteDomain(uid, rpc.status.domainID, env);
      if err.Some? {
        return Failed(err.value);
      }
      if rpc.status.clusterAddress != "" {
        if !env.listObjectsAgain.Fine? {
          return Failed(env.listObjectsAgain.err);
        }
        var address := rpc.status.clusterAddress;
        var shared := ScanLive(store, uid, (o: ClusterObject) => o.spec.address == address || o.status.clusterAddress == address);
        if !shared {
          if !env.deleteCluster.Lost? {
            clusters := WithoutCluster(clusters, address);
          }
          if !env.deleteCluster.Fine? && env.deleteCluster.err != NotFound {
            return Failed(env.deleteCluster.err);
          }
        }
      }
      rpc := rpc.(finalizers := rpc.finalizers - {FINALIZER});
      err := Patch(uid, rpc, env.remove);
      return if err.Some? then Failed(err.value) else Done;
    }

    method DeleteDomain(uid: Uid, id: Id, env: ClusterEnv) returns (err: Option<Err>)
      modifies this
      ensures (World(), err) == DropDomain(old(World()), store, uid, id, env)
      ensures store == old(store)
    {
      if id == NO_ID {
        return None;
      }
      if !env.listDomains.Fine? {
        return Some(env.listDomains.err);
      }
      var listed := domains;
      for i := 0 to |listed|
        invariant World() == old(World()) && store == old(store)
        invariant Scan(listed, WithId(id)) == Scan(listed[i..], WithId(id))
      {
        var d := listed[i];
        assert listed[i..][1..] == listed[i + 1..];
        if d.id != id {
          continue;
        }
        if !env.listObjects.Fine? {
          return Some(env.listObjects.err);
        }
        var domain := d.body.domain;
        var shared := ScanLive(store, uid, (o: ClusterObject) => o.spec.domain == domain || o.status.domainID == id);
        if !shared {
          if !env.deleteDomain.Lost? {
            domains := Remove(domains, id);
          }
          if !env.deleteDomain.Fine? && env.deleteDomain.err != NotFound {
            return Some(env.deleteDomain.err);
          }
        }
        return None;
      }
      return None;
    }
  }
}
