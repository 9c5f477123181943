/** When a ReverseProxyCluster becomes ready: exactly which states a reconcile with
    every call answered turns into Ready=True, and that the next one changes nothing. */
module ClusterReadiness {
  import opened Api
  import opened Records
  import opened ListCaches
  import opened Kube
  import M = Mirror
  import opened ReverseProxyCluster
  import opened ClusterRuns
  import opened ClusterProtocol
  import opened ClusterUniqueness

  /** Every call of a reconcile of a live object is answered, those of a repair included. */
  predicate AllAnswered(env: ClusterEnv) {
    Quiet(env) && env.targetFetch0.Fine? && env.targetFetch1.Fine? && env.deleteDomain.Fine? && env.createDomain.Fine?
  }

  /** The domain has no registration, or the first one has no target, or the
      object's own, or one that nobody owns and where no cluster is found. */
  predicate Registrable(w: ClusterWorld, store: ClusterStore, uid: Uid, spec: ClusterSpec, env: ClusterEnv) {
    var found := Scan(w.domains, ForDomain(spec.domain));
    found.None? || found.value.body.target == "" || found.value.body.target == spec.address ||
    (!AddressOwned(store, uid, found.value.body.target) && LookupTarget(w, found.value.body.target, env).found.Miss?)
  }

  lemma EnsureSucceedsIff(w: ClusterWorld, store: ClusterStore, uid: Uid, spec: ClusterSpec, env: ClusterEnv)
    requires AllAnswered(env)
    ensures EnsuredDomain(w, store, uid, spec, env).reply.Ok? <==> Registrable(w, store, uid, spec, env)
  {
  }

  lemma RegistrableIgnoresSelf(w: ClusterWorld, store: ClusterStore, store': ClusterStore, uid: Uid, spec: ClusterSpec, env: ClusterEnv)
    requires SameOthers(store, store', uid)
    ensures Registrable(w, store, uid, spec, env) <==> Registrable(w, store', uid, spec, env)
  {
    var found := Scan(w.domains, ForDomain(spec.domain));
    if found.Some? {
      OwnersIgnoreSelf(store, store', uid, found.value.body.target);
    }
  }

  /** From deployment on, with every call answered. */
  lemma DeployEndsReadyIff(w: ClusterWorld, store0: ClusterStore, store: ClusterStore, uid: Uid, obj: ClusterObject, env: ClusterEnv)
    requires AllAnswered(env) && SameOthers(store0, store, uid)
    ensures var own := LookupOwn(w, obj.spec.address, env);
            Deploy(w, store, uid, obj, env).wrote == Some(Ready) <==>
            env.addresses != [] && own.found.Hit? && Registrable(w.(cache := own.cache), store0, uid, obj.spec, env)
  {
    var w1 := w.(cache := LookupOwn(w, obj.spec.address, env).cache);
    EnsureSucceedsIff(w1, store, uid, obj.spec, env);
    RegistrableIgnoresSelf(w1, store0, store, uid, obj.spec, env);
  }

  /** A reconcile with every call answered ends Ready exactly when the load balancer
      serves an address, the object's own cluster is found, and the domain is
      registrable. */
  lemma EndsReadyIff(w: ClusterWorld, store: ClusterStore, uid: Uid, env: ClusterEnv)
    requires uid in store && !store[uid].deleting && AllAnswered(env)
    ensures var o := store[uid];
            ReconcileRun(w, store, uid, env).wrote == Some(Ready) <==>
            && env.addresses != [] && LookupOwn(w, o.spec.address, env).found.Hit?
            && Registrable(SeenBy(w, o, env), store, uid, o.spec, env)
  {
    var obj := store[uid].(finalizers := store[uid].finalizers + {FINALIZER});
    var store1 := store[uid := obj];
    if obj.status.tokenID != NO_ID {
      DeployEndsReadyIff(w, store, store1, uid, obj, env);
    } else {
      MintedSees(w, store1, uid, obj, env);
      var m := MintToken(w, store1, uid, obj, env);
      DeployEndsReadyIff(m.world, store, m.store, uid, m.obj, env);
    }
  }

  // ---- The reconcile after that ----

  /** What a ready object looks like: everything recorded, the finalizer held, and
      the registration it recorded the first one of its domain, with no target or
      its own. */
  ghost predicate Established(w: ClusterWorld, store: ClusterStore, uid: Uid) {
    && uid in store && !store[uid].deleting && FINALIZER in store[uid].finalizers && store[uid].condition == Ready
    && var o := store[uid];
       && o.status.tokenID != NO_ID && o.status.clusterAddress == o.spec.address
       && var found := Scan(w.domains, ForDomain(o.spec.domain));
          && found.Some? && found.value.id == o.status.domainID
          && (found.value.body.target == "" || found.value.body.target == o.spec.address)
  }

  lemma FirstOfUnique(w: ClusterWorld, spec: ClusterSpec, id: Id)
    requires WellFormed(w.domains, w.nextId) && UniqueDomains(w.domains) && Registered(w, spec, id)
    ensures var found := Scan(w.domains, ForDomain(spec.domain));
            && found.Some? && found.value.id == id && (found.value.body.target == "" || found.value.body.target == spec.address)
  {
    ScanMeansRegistered(w.domains, spec.domain);
    var x :| x in w.domains && x.id == id && x.body.domain == spec.domain && (x.body.target == "" || x.body.target == spec.address);
    var i :| 0 <= i < |w.domains| && w.domains[i] == x;
    var found := Scan(w.domains, ForDomain(spec.domain));
    SameId(w.domains, w.nextId, found.value, x);
  }

  /** The stages of a reconcile of an object that is settled already. */
  lemma ConfirmIsNoOp(w: ClusterWorld, store: ClusterStore, uid: Uid, obj: ClusterObject, env: ClusterEnv)
    requires Quiet(env) && uid in store && store[uid] == obj && !obj.deleting && obj.condition == Ready
    ensures Confirm(w, store, uid, obj, obj.status.domainID, env) == Out(w, store, M.Resync, Some(Ready))
  {
    assert obj.(status := obj.status.(domainID := obj.status.domainID)) == obj;
    assert store[uid := obj] == store;
  }

  lemma EstablishedEnsures(w: ClusterWorld, store: ClusterStore, uid: Uid, env: ClusterEnv)
    requires Quiet(env) && Established(w, store, uid)
    ensures EnsuredDomain(w, store, uid, store[uid].spec, env) == Ensured(w, Ok(store[uid].status.domainID))
  {
  }

  /** A reconcile of an established object whose address and cluster are still what
      its status says changes nothing but the cache, and reports ready again. */
  lemma EstablishedIsFixpoint(w: ClusterWorld, store: ClusterStore, uid: Uid, env: ClusterEnv)
    requires Quiet(env) && Established(w, store, uid)
    requires var t := store[uid].status;
             var own := LookupOwn(w, store[uid].spec.address, env).found;
             && env.addresses != [] && t.loadBalancerIP == env.addresses[0]
             && own.Hit? && t.online == own.item.online && t.connectedProxies == own.item.connectedProxies
    ensures var cache := LookupOwn(w, store[uid].spec.address, env).cache;
            ReconcileRun(w, store, uid, env) == Out(w.(cache := cache), store, M.Resync, Some(Ready))
  {
    var o := store[uid];
    var l := LookupOwn(w, o.spec.address, env);
    var w1 := w.(cache := l.cache);
    assert o.(finalizers := o.finalizers + {FINALIZER}) == o by { assert o.finalizers + {FINALIZER} == o.finalizers; }
    assert store[uid := o] == store;
    assert o.(status := o.status.(loadBalancerIP := env.addresses[0])) == o;
    assert o.(status := o.status.(clusterAddress := o.spec.address, online := l.found.item.online,
                                  connectedProxies := l.found.item.connectedProxies)) == o;
    EstablishedEnsures(w1, store, uid, env);
    ConfirmIsNoOp(w1, store, uid, o, env);
    assert Deploy(w, store, uid, o, env) == Enrol(w, store, uid, o, env);
  }

  /** A reconcile that wrote Ready, with every call answered and one registration
      per domain before it, leaves the object established. */
  lemma ReadyIsEstablished(s: Clusters, uid: Uid, env: ClusterEnv)
    requires Sound(s) && UniqueDomains(s.world.domains) && uid in s.store && !s.store[uid].deleting && AllAnswered(env)
    requires ReconcileRun(s.world, s.store, uid, env).wrote == Some(Ready)
    ensures var out := ReconcileRun(s.world, s.store, uid, env);
            && Established(out.world, out.store, uid) && out.store[uid].spec == s.store[uid].spec
            && env.addresses != [] && out.store[uid].status.loadBalancerIP == env.addresses[0]
  {
    var out := ReconcileRun(s.world, s.store, uid, env);
    LiveReconcile(s.world, s.store, uid, env);
    StaysUnique(s, uid, env);
    StaysWellFormed(s, uid, env);
    RecordedMeansFinalized(s.world, s.store, uid, env);
    TrulyReadyIsEstablished(s.world, uid, env, out);
  }

  lemma StaysUnique(s: Clusters, uid: Uid, env: ClusterEnv)
    requires Sound(s) && UniqueDomains(s.world.domains) && uid in s.store && !s.store[uid].deleting && env.deleteDomain.Honest()
    ensures UniqueDomains(ReconcileRun(s.world, s.store, uid, env).world.domains)
  {
    LiveKeepsUniqueIff(s, uid, env);
  }

  lemma StaysWellFormed(s: Clusters, uid: Uid, env: ClusterEnv)
    requires Sound(s) && uid in s.store && !s.store[uid].deleting
    ensures var w := ReconcileRun(s.world, s.store, uid, env).world; WellFormed(w.domains, w.nextId)
  {
    LiveKeepsSound(s, uid, env);
  }

  lemma TrulyReadyIsEstablished(w: ClusterWorld, uid: Uid, env: ClusterEnv, out: Out)
    requires uid in out.store && !out.store[uid].deleting && out.store[uid].condition == Ready && TrulyReady(w, uid, env, out)
    requires out.store[uid].status != BLANK ==> FINALIZER in out.store[uid].finalizers
    requires WellFormed(out.world.domains, out.world.nextId) && UniqueDomains(out.world.domains)
    ensures Established(out.world, out.store, uid)
  {
    FirstOfUnique(out.world, out.store[uid].spec, out.store[uid].status.domainID);
  }

  /** Ready once, then a fixpoint: the next reconcile, with every call answered, the
      same first address and the same answer to the object's own cluster lookup,
      changes neither registrations nor any object, and reports ready again. */
  lemma SecondReconcileIsNoOp(s: Clusters, uid: Uid, env: ClusterEnv, env': ClusterEnv)
    requires Sound(s) && UniqueDomains(s.world.domains) && uid in s.store && !s.store[uid].deleting
    requires AllAnswered(env) && ReconcileRun(s.world, s.store, uid, env).wrote == Some(Ready)
    requires Quiet(env') && env'.addresses != [] && env'.addresses[0] == env.addresses[0]
    requires var out := ReconcileRun(s.world, s.store, uid, env);
             LookupOwn(out.world, s.store[uid].spec.address, env').found == LookupOwn(s.world, s.store[uid].spec.address, env).found
    ensures var out := ReconcileRun(s.world, s.store, uid, env);
            var again := ReconcileRun(out.world, out.store, uid, env');
            again.world == out.world.(cache := again.world.cache) && again.store == out.store && again.wrote == Some(Ready)
  {
    var out := ReconcileRun(s.world, s.store, uid, env);
    LiveReconcile(s.world, s.store, uid, env);
    ReadyIsEstablished(s, uid, env);
    EstablishedIsFixpoint(out.world, out.store, uid, env');
  }
}
