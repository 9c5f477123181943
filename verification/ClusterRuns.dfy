/** What reconciles of ReverseProxyCluster objects do to shared registrations,
    one step at a time and over whole runs. */
module ClusterRuns {
  import opened Api
  import opened Records
  import opened ListCaches
  import opened Kube
  import M = Mirror
  import opened ReverseProxyCluster

  // ---- What one reconcile of a live object may do to the registrations ----

  /** The registration d for spec.domain is dead state: it targets an address
      that is neither empty nor this object's, that no other live object declares
      or has recorded, and at which no cluster is enrolled. */
  ghost predicate Dead(w: ClusterWorld, store: ClusterStore, uid: Uid, spec: ClusterSpec, d: Rec<Domain>) {
    && d in w.domains && d.body.domain == spec.domain
    && d.body.target != "" && d.body.target != spec.address
    && (forall u :: u in store && u != uid && !store[u].deleting ==>
          store[u].spec.address != d.body.target && store[u].status.clusterAddress != d.body.target)
    && (forall i :: 0 <= i < |w.clusters| ==> w.clusters[i].address != d.body.target)
  }

  ghost predicate Unregistered(ds: seq<Rec<Domain>>, domain: string) {
    forall i :: 0 <= i < |ds| ==> ds[i].body.domain != domain
  }

  /** d is the first registration listed for domain. */
  ghost predicate FirstFor(ds: seq<Rec<Domain>>, domain: string, d: Rec<Domain>) {
    FirstMatch(ds, ForDomain(domain), d)
  }

  function Newest(w: ClusterWorld, spec: ClusterSpec): Rec<Domain>
    requires w.nextId > 0
  {
    Rec(w.nextId - 1, Domain(spec.domain, spec.address))
  }

  /** The registrations are untouched; or the domain had none and one was
      created; or the first one was dead and was removed, perhaps with a new one
      in its place. A dishonest "not found" to the delete leaves the dead one there. */
  ghost predicate DomainStep(w: ClusterWorld, store: ClusterStore, uid: Uid, spec: ClusterSpec, honest: bool, w': ClusterWorld) {
    || w'.domains == w.domains
    || (&& Unregistered(w.domains, spec.domain) && w.nextId < w'.nextId
        && w'.domains == w.domains + [Newest(w', spec)])
    || exists d :: Dead(w, store, uid, spec, d) && FirstFor(w.domains, spec.domain, d) && ReplacedBy(w, spec, honest, d, w')
  }

  ghost predicate ReplacedBy(w: ClusterWorld, spec: ClusterSpec, honest: bool, d: Rec<Domain>, w': ClusterWorld) {
    || w'.domains == Remove(w.domains, d.id)
    || (&& w.nextId < w'.nextId
        && (|| w'.domains == Remove(w.domains, d.id) + [Newest(w', spec)]
            || (!honest && w'.domains == w.domains + [Newest(w', spec)])))
  }

  /** A target that no live object owns and no lookup finds is dead: the miss is
      backed by a list of the enrolled clusters fetched during this very call. */
  lemma MissMeansDead(w: ClusterWorld, store: ClusterStore, uid: Uid, spec: ClusterSpec, d: Rec<Domain>, env: ClusterEnv)
    requires d in w.domains && d.body.domain == spec.domain
    requires d.body.target != "" && d.body.target != spec.address
    requires !AddressOwned(store, uid, d.body.target) && LookupTarget(w, d.body.target, env).found.Miss?
    ensures Dead(w, store, uid, spec, d) && LookupTarget(w, d.body.target, env).calls > 0
  {
    FetchIsSteady(w.clusters, env.targetFetch0, env.targetFetch1);
    LookupOfSteadyList(w.cache, env.targetNow, ClusterFetch(w.clusters, env.targetFetch0, env.targetFetch1),
                       AtAddress(d.body.target), w.clusters);
    forall i | 0 <= i < |w.clusters| ensures w.clusters[i].address != d.body.target {
      assert !AtAddress(d.body.target)(w.clusters[i]);
    }
  }

  lemma RepairIsDomainStep(w: ClusterWorld, store: ClusterStore, uid: Uid, spec: ClusterSpec, d: Rec<Domain>, env: ClusterEnv)
    requires FirstFor(w.domains, spec.domain, d) && d.body.target != "" && d.body.target != spec.address
    ensures DomainStep(w, store, uid, spec, env.deleteDomain.Honest(), Repair(w, store, uid, spec, d, env).world)
  {
    var w' := Repair(w, store, uid, spec, d, env).world;
    if w'.domains != w.domains {
      assert ForDomain(spec.domain)(d);
      MissMeansDead(w, store, uid, spec, d, env);
      assert ReplacedBy(w, spec, env.deleteDomain.Honest(), d, w');
    }
  }

  lemma RepairKeeps(w: ClusterWorld, store: ClusterStore, uid: Uid, spec: ClusterSpec, d: Rec<Domain>, env: ClusterEnv)
    ensures var w' := Repair(w, store, uid, spec, d, env).world;
            w'.clusters == w.clusters && w.nextId <= w'.nextId && w.tokens == w'.tokens
  {
  }

  lemma CreateIsDomainStep(w: ClusterWorld, store: ClusterStore, uid: Uid, spec: ClusterSpec, honest: bool, f: Fault)
    requires Scan(w.domains, ForDomain(spec.domain)).None?
    ensures var w' := CreateDomain(w, spec, f).world;
            && DomainStep(w, store, uid, spec, honest, w')
            && w'.clusters == w.clusters && w.nextId <= w'.nextId && w.tokens == w'.tokens
  {
    forall i | 0 <= i < |w.domains| ensures w.domains[i].body.domain != spec.domain {
      assert !ForDomain(spec.domain)(w.domains[i]);
    }
  }

  lemma EnsureIsDomainStep(w: ClusterWorld, store: ClusterStore, uid: Uid, spec: ClusterSpec, env: ClusterEnv)
    ensures var w' := EnsuredDomain(w, store, uid, spec, env).world;
            && DomainStep(w, store, uid, spec, env.deleteDomain.Honest(), w')
            && w'.clusters == w.clusters && w.nextId <= w'.nextId && w.tokens == w'.tokens
  {
    var found := Scan(w.domains, ForDomain(spec.domain));
    if !env.listDomains.Fine? {
    } else if found.None? {
      CreateIsDomainStep(w, store, uid, spec, env.deleteDomain.Honest(), env.createDomain);
    } else if found.value.body.target != "" && found.value.body.target != spec.address {
      RepairIsDomainStep(w, store, uid, spec, found.value, env);
      RepairKeeps(w, store, uid, spec, found.value, env);
    }
  }

  /** The id ensureDomain answers is that of a registration for the declared
      domain that targets nothing or this object's own address. */
  ghost predicate Registered(w: ClusterWorld, spec: ClusterSpec, id: Id) {
    Rec(id, Domain(spec.domain, "")) in w.domains || Rec(id, Domain(spec.domain, spec.address)) in w.domains
  }

  lemma EnsureRegisters(w: ClusterWorld, store: ClusterStore, uid: Uid, spec: ClusterSpec, env: ClusterEnv)
    ensures var e := EnsuredDomain(w, store, uid, spec, env);
            && (e.reply.Ok? ==> Registered(e.world, spec, e.reply.value))
            && (e.reply == Fail(NotReady) ==> e.world.domains == w.domains)
  {
    var e := EnsuredDomain(w, store, uid, spec, env);
    var found := Scan(w.domains, ForDomain(spec.domain));
    if found.Some? {
      assert ForDomain(spec.domain)(found.value) && found.value in w.domains;
    }
    if e.reply.Ok? && e.world.domains != w.domains {
      var last := |e.world.domains| - 1;
      assert e.world.domains[last] == Rec(e.reply.value, Domain(spec.domain, spec.address));
    }
  }

  // ---- What it may do to the objects ----

  /** Nobody else is touched, and the object keeps what deletion needs: the
      finalizer, and delete keys that never become empty again. */
  ghost predicate ObjectStep(store: ClusterStore, uid: Uid, store': ClusterStore)
    requires uid in store
  {
    && store'.Keys == store.Keys
    && (forall u :: u in store && u != uid ==> store'[u] == store[u])
    && Kept(store[uid], store'[uid])
  }

  ghost predicate Kept(o: ClusterObject, o': ClusterObject) {
    && o'.spec == o.spec && o'.deleting == o.deleting && o.finalizers <= o'.finalizers
    && KeysKept(o.status, o'.status)
  }

  ghost predicate KeysKept(t: ClusterStatus, t': ClusterStatus) {
    && (t.tokenID != NO_ID ==> t'.tokenID == t.tokenID)
    && (t.domainID != NO_ID ==> t'.domainID != NO_ID)
    && (t.clusterAddress != "" ==> t'.clusterAddress != "")
  }

  /** The in-memory object a stage starts from, against the one that is stored. */
  ghost predicate Ahead(w: ClusterWorld, store: ClusterStore, uid: Uid, obj: ClusterObject) {
    && uid in store && Kept(store[uid], obj) && !obj.deleting && obj.spec.address != ""
    && obj.condition == store[uid].condition && WellFormed(w.domains, w.nextId)
  }

  /** What must be the case when Ready is written. */
  ghost predicate TrulyReady(w: ClusterWorld, uid: Uid, env: ClusterEnv, out: Out)
    requires uid in out.store
  {
    var o := out.store[uid];
    && o.status.tokenID != NO_ID
    && env.addresses != [] && o.status.loadBalancerIP == env.addresses[0]
    && LookupOwn(w, o.spec.address, env).found.Hit?
    && o.status.clusterAddress == o.spec.address
    && o.status.online == LookupOwn(w, o.spec.address, env).found.item.online
    && o.status.connectedProxies == LookupOwn(w, o.spec.address, env).found.item.connectedProxies
    && Registered(out.world, o.spec, o.status.domainID)
  }

  /** Every way a reconcile of a live object can end. */
  ghost predicate Truthful(w: ClusterWorld, store: ClusterStore, uid: Uid, env: ClusterEnv, out: Out)
    requires uid in store && uid in out.store
  {
    && (out.wrote == Some(Ready) ==> TrulyReady(w, uid, env, out))
    && (out.wrote == Some(NotReadyYet) && (env.addresses == [] || LookupOwn(w, out.store[uid].spec.address, env).found.Miss?) ==>
          !out.store[uid].status.online && out.store[uid].status.connectedProxies == 0 && out.world.domains == w.domains)
    && out.store[uid].condition == (if out.wrote.Some? then out.wrote.value else store[uid].condition)
    && (out.result == M.DependencyRetry ==> out.wrote == Some(NotReadyYet))
    && (out.result == M.Resync ==> out.wrote == Some(Ready))
    && out.result != M.Done && out.result != M.CleanupRetry
  }

  /** The registration part and the object part together, for one stage. */
  ghost predicate StageOk(w: ClusterWorld, store: ClusterStore, uid: Uid, obj: ClusterObject, env: ClusterEnv, out: Out)
    requires uid in store
  {
    && DomainStep(w, store, uid, obj.spec, env.deleteDomain.Honest(), out.world)
    && out.world.clusters == w.clusters && w.nextId <= out.world.nextId && w.tokens <= out.world.tokens
    && ObjectStep(store, uid, out.store)
    && Truthful(w, store, uid, env, out)
  }

  lemma RegisteredIdIsIssued(w: ClusterWorld, spec: ClusterSpec, id: Id)
    requires WellFormed(w.domains, w.nextId) && Registered(w, spec, id)
    ensures id != NO_ID
  {
  }

  lemma ReplacementKeepsWellFormed(w: ClusterWorld, spec: ClusterSpec, honest: bool, d: Rec<Domain>, w': ClusterWorld)
    requires WellFormed(w.domains, w.nextId) && w.nextId <= w'.nextId && ReplacedBy(w, spec, honest, d, w')
    ensures WellFormed(w'.domains, w'.nextId)
  {
    RemoveKeepsWellFormed(w.domains, d.id, w.nextId);
    if w'.domains == Remove(w.domains, d.id) {
    } else if w'.domains == Remove(w.domains, d.id) + [Newest(w', spec)] {
      AppendKeepsWellFormed(Remove(w.domains, d.id), w.nextId, w'.nextId, Newest(w', spec).body);
    } else {
      AppendKeepsWellFormed(w.domains, w.nextId, w'.nextId, Newest(w', spec).body);
    }
  }

  lemma DomainStepKeepsWellFormed(w: ClusterWorld, store: ClusterStore, uid: Uid, spec: ClusterSpec, honest: bool, w': ClusterWorld)
    requires WellFormed(w.domains, w.nextId) && w.nextId <= w'.nextId && DomainStep(w, store, uid, spec, honest, w')
    ensures WellFormed(w'.domains, w'.nextId)
  {
    if w'.domains == w.domains {
    } else if w.nextId < w'.nextId && w'.domains == w.domains + [Newest(w', spec)] {
      AppendKeepsWellFormed(w.domains, w.nextId, w'.nextId, Newest(w', spec).body);
    } else {
      var d :| Dead(w, store, uid, spec, d) && FirstFor(w.domains, spec.domain, d) && ReplacedBy(w, spec, honest, d, w');
      ReplacementKeepsWellFormed(w, spec, honest, d, w');
    }
  }

  lemma RegisterStage(w: ClusterWorld, store: ClusterStore, uid: Uid, obj: ClusterObject, env: ClusterEnv, w0: ClusterWorld)
    requires Ahead(w, store, uid, obj) && obj.status.tokenID != NO_ID
    requires env.addresses != [] && obj.status.loadBalancerIP == env.addresses[0]
    requires w == w0.(cache := LookupOwn(w0, obj.spec.address, env).cache)
    requires LookupOwn(w0, obj.spec.address, env).found.Hit? && obj.status.clusterAddress == obj.spec.address
    requires obj.status.online == LookupOwn(w0, obj.spec.address, env).found.item.online
    requires obj.status.connectedProxies == LookupOwn(w0, obj.spec.address, env).found.item.connectedProxies
    ensures StageOk(w0, store, uid, obj, env, Register(w, store, uid, obj, env))
  {
    var e := EnsuredDomain(w, store, uid, obj.spec, env);
    EnsureIsDomainStep(w, store, uid, obj.spec, env);
    EnsureRegisters(w, store, uid, obj.spec, env);
    DomainStepKeepsWellFormed(w, store, uid, obj.spec, env.deleteDomain.Honest(), e.world);
    DomainStepIgnoresCache(w0, w, store, uid, obj.spec, env.deleteDomain.Honest(), e.world);
    if e.reply.Ok? {
      RegisteredIdIsIssued(e.world, obj.spec, e.reply.value);
      ConfirmStage(e.world, store, uid, obj, e.reply.value, env);
    }
  }

  lemma ConfirmStage(w: ClusterWorld, store: ClusterStore, uid: Uid, obj: ClusterObject, id: Id, env: ClusterEnv)
    requires Ahead(w, store, uid, obj) && id != NO_ID
    ensures var out := Confirm(w, store, uid, obj, id, env);
            && out.world == w && ObjectStep(store, uid, out.store)
            && (out.wrote == Some(Ready) ==>
                  out.store[uid].status == obj.status.(domainID := id) && out.store[uid].spec == obj.spec)
            && out.store[uid].condition == (if out.wrote.Some? then out.wrote.value else store[uid].condition)
            && (out.result == M.DependencyRetry ==> out.wrote == Some(NotReadyYet))
            && (out.result == M.Resync ==> out.wrote == Some(Ready))
            && out.result != M.Done && out.result != M.CleanupRetry
  {
  }

  lemma DomainStepIgnoresCache(w0: ClusterWorld, w: ClusterWorld, store: ClusterStore, uid: Uid, spec: ClusterSpec,
                               honest: bool, w': ClusterWorld)
    requires w0.domains == w.domains && w0.clusters == w.clusters && w0.nextId <= w.nextId
    requires DomainStep(w, store, uid, spec, honest, w')
    ensures DomainStep(w0, store, uid, spec, honest, w')
  {
    if w'.domains != w.domains && !Unregistered(w.domains, spec.domain) {
      var d :| Dead(w, store, uid, spec, d) && FirstFor(w.domains, spec.domain, d) && ReplacedBy(w, spec, honest, d, w');
      assert Dead(w0, store, uid, spec, d) && FirstFor(w0.domains, spec.domain, d) && ReplacedBy(w0, spec, honest, d, w');
    }
  }

  lemma EnrolStage(w: ClusterWorld, store: ClusterStore, uid: Uid, obj: ClusterObject, env: ClusterEnv)
    requires Ahead(w, store, uid, obj) && obj.status.tokenID != NO_ID
    requires env.addresses != [] && obj.status.loadBalancerIP == env.addresses[0]
    ensures StageOk(w, store, uid, obj, env, Enrol(w, store, uid, obj, env))
  {
    var l := LookupOwn(w, obj.spec.address, env);
    if l.found.Hit? {
      var obj1 := obj.(status := obj.status.(clusterAddress := obj.spec.address, online := l.found.item.online,
                                             connectedProxies := l.found.item.connectedProxies));
      RegisterStage(w.(cache := l.cache), store, uid, obj1, env, w);
    }
  }

  lemma DeployStage(w: ClusterWorld, store: ClusterStore, uid: Uid, obj: ClusterObject, env: ClusterEnv)
    requires Ahead(w, store, uid, obj) && obj.status.tokenID != NO_ID
    ensures StageOk(w, store, uid, obj, env, Deploy(w, store, uid, obj, env))
  {
    if env.addresses != [] {
      EnrolStage(w, store, uid, obj.(status := obj.status.(loadBalancerIP := env.addresses[0])), env);
    }
  }

  /** A stage seen from a slightly earlier state: fewer ids issued, and the
      object itself stored with fewer keys. */
  lemma StageFromEarlier(w0: ClusterWorld, store0: ClusterStore, w: ClusterWorld, store: ClusterStore, uid: Uid,
                         obj: ClusterObject, env: ClusterEnv, out: Out)
    requires uid in store0 && uid in store && ObjectStep(store0, uid, store) && store[uid].condition == store0[uid].condition
    requires w0.domains == w.domains && w0.clusters == w.clusters && w0.cache == w.cache
    requires w0.nextId <= w.nextId && w0.tokens <= w.tokens
    requires StageOk(w, store, uid, obj, env, out)
    ensures StageOk(w0, store0, uid, obj, env, out)
  {
    DomainStepIgnoresCache(w0, w, store, uid, obj.spec, env.deleteDomain.Honest(), out.world);
    if out.world.domains != w.domains && !Unregistered(w.domains, obj.spec.domain) {
      var d :| Dead(w0, store, uid, obj.spec, d) && FirstFor(w0.domains, obj.spec.domain, d)
               && ReplacedBy(w0, obj.spec, env.deleteDomain.Honest(), d, out.world);
      assert Dead(w0, store0, uid, obj.spec, d);
    }
  }

  lemma MintedIsAhead(w: ClusterWorld, store: ClusterStore, uid: Uid, obj: ClusterObject, env: ClusterEnv)
    requires Ahead(w, store, uid, obj) && obj.status.tokenID == NO_ID
    ensures var m := MintToken(w, store, uid, obj, env);
            && m.world.domains == w.domains && m.world.clusters == w.clusters && m.world.cache == w.cache
            && w.nextId <= m.world.nextId && w.tokens <= m.world.tokens
            && ObjectStep(store, uid, m.store) && m.store[uid].condition == store[uid].condition && m.obj.spec == obj.spec
            && m.err != Some(NotReady)
            && (m.err.None? ==> Ahead(m.world, m.store, uid, m.obj) && m.obj.status.tokenID != NO_ID)
  {
  }

  lemma MintStage(w: ClusterWorld, store: ClusterStore, uid: Uid, obj: ClusterObject, env: ClusterEnv)
    requires Ahead(w, store, uid, obj)
    ensures StageOk(w, store, uid, obj, env, Mint(w, store, uid, obj, env))
  {
    if obj.status.tokenID != NO_ID {
      DeployStage(w, store, uid, obj, env);
    } else {
      var m := MintToken(w, store, uid, obj, env);
      MintedIsAhead(w, store, uid, obj, env);
      if m.err.None? {
        DeployStage(m.world, m.store, uid, m.obj, env);
        StageFromEarlier(w, store, m.world, m.store, uid, obj, env, Deploy(m.world, m.store, uid, m.obj, env));
      }
    }
  }

  /** A reconcile of a live object: registrations change only as DomainStep
      allows, no other object changes, delete keys are kept, Ready=True is
      written only in the state it claims, and the two waits report the proxy
      offline. */
  lemma LiveReconcile(w: ClusterWorld, store: ClusterStore, uid: Uid, env: ClusterEnv)
    requires uid in store && !store[uid].deleting && store[uid].spec.address != "" && WellFormed(w.domains, w.nextId)
    ensures StageOk(w, store, uid, store[uid], env, ReconcileRun(w, store, uid, env))
  {
    var obj := store[uid].(finalizers := store[uid].finalizers + {FINALIZER});
    var store1 := Patched(store, uid, obj, env.add);
    if env.add.Fine? {
      MintStage(w, store1, uid, obj, env);
      StageFromEarlier(w, store, w, store1, uid, obj, env, Mint(w, store1, uid, obj, env));
    }
  }
}
