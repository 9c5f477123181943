/** How reconciles of ReverseProxyCluster objects end, for every pattern of answers,
    and what becomes of enrolment tokens over whole runs. */
module ClusterOutcomes {
  import opened Api
  import opened Records
  import opened ListCaches
  import opened Kube
  import M = Mirror
  import opened ReverseProxyCluster
  import opened ClusterRuns
  import opened ClusterProtocol
  import opened ClusterUniqueness

  // ---- ensureDomain ----

  /** A delete that was carried out, or found nothing to delete. */
  predicate GoneOrDeleted(f: Fault) {
    f.Fine? || f.err == NotFound
  }

  /** When ensureDomain answers with a registration, for any answers. */
  lemma EnsureAnswersIff(w: ClusterWorld, store: ClusterStore, uid: Uid, spec: ClusterSpec, env: ClusterEnv)
    ensures var found := Scan(w.domains, ForDomain(spec.domain));
            EnsuredDomain(w, store, uid, spec, env).reply.Ok? <==>
            && env.listDomains.Fine?
            && (if found.None? then env.createDomain.Fine?
                else found.value.body.target == "" || found.value.body.target == spec.address ||
                     (Repairs(w, store, uid, spec, env) && GoneOrDeleted(env.deleteDomain) && env.createDomain.Fine?))
  {
  }

  /** When it gives way: the first registration points at an address that another
      live object owns or at which a cluster is found. */
  lemma EnsureGivesWayIff(w: ClusterWorld, store: ClusterStore, uid: Uid, spec: ClusterSpec, env: ClusterEnv)
    ensures var found := Scan(w.domains, ForDomain(spec.domain));
            EnsuredDomain(w, store, uid, spec, env).reply == Fail(NotReady) <==>
            && env.listDomains.Fine? && found.Some?
            && found.value.body.target != "" && found.value.body.target != spec.address && env.listObjects.Fine?
            && (AddressOwned(store, uid, found.value.body.target) || LookupTarget(w, found.value.body.target, env).found.Hit?)
  {
    LookupsAnswer(w, env);
  }

  lemma LookupsAnswer(w: ClusterWorld, env: ClusterEnv)
    ensures forall target :: LookupTarget(w, target, env).found.Broken? ==> LookupTarget(w, target, env).found.err != NotReady
    ensures forall a :: LookupOwn(w, a, env).found.Broken? ==> LookupOwn(w, a, env).found.err != NotReady
  {
    assert ClusterFetch(w.clusters, env.targetFetch0, env.targetFetch1)(0) == Answer(env.targetFetch0, Ok(w.clusters));
    assert ClusterFetch(w.clusters, env.targetFetch0, env.targetFetch1)(1) == Answer(env.targetFetch1, Ok(w.clusters));
    assert ClusterFetch(w.clusters, env.fetch0, env.fetch1)(0) == Answer(env.fetch0, Ok(w.clusters));
    assert ClusterFetch(w.clusters, env.fetch0, env.fetch1)(1) == Answer(env.fetch1, Ok(w.clusters));
  }

  // ---- A reconcile of a live object ----

  /** From ensureDomain on, the object becomes ready: a registration was answered,
      its id is or gets recorded, and the domain validates. */
  predicate Confirmed(e: Ensured, recorded: Id, env: ClusterEnv) {
    e.reply.Ok? && (recorded == e.reply.value || env.patchDomain.Fine?) && env.validate.Fine?
  }

  /** Or waits: for an owner to give up the domain, or for the domain to validate. */
  predicate Postponed(e: Ensured, recorded: Id, env: ClusterEnv) {
    e.reply == Fail(NotReady) ||
    (e.reply.Ok? && (recorded == e.reply.value || env.patchDomain.Fine?) && !env.validate.Fine?)
  }

  /** The end of a reconcile, given that it is ready, waits, or neither. */
  ghost predicate EndsAs(out: Out, ready: bool, waits: bool, env: ClusterEnv) {
    && (out.wrote == Some(Ready) <==> ready && !env.patchStatus.Lost?)
    && (out.wrote == Some(NotReadyYet) <==> waits && !env.patchStatus.Lost?)
    && (out.result == M.Resync <==> ready && env.patchStatus.Fine?)
    && (out.result == M.DependencyRetry <==> waits && env.patchStatus.Fine?)
    && (!ready && !waits ==> out.result.Failed?)
    && ((ready || waits) && !env.patchStatus.Fine? ==> out.result == M.Failed(env.patchStatus.err))
  }

  lemma RegisterEnds(w: ClusterWorld, store: ClusterStore, uid: Uid, obj: ClusterObject, env: ClusterEnv)
    ensures var e := EnsuredDomain(w, store, uid, obj.spec, env);
            EndsAs(Register(w, store, uid, obj, env), Confirmed(e, obj.status.domainID, env), Postponed(e, obj.status.domainID, env), env)
  {
  }

  /** Zone, workload and Service are applied. */
  predicate Applied(env: ClusterEnv) {
    env.zone.Fine? && env.deployment.Fine? && env.service.Fine?
  }

  predicate Enrolled(w: ClusterWorld, address: string, env: ClusterEnv) {
    Applied(env) && env.addresses != [] && env.records.Fine? && LookupOwn(w, address, env).found.Hit?
  }

  /** No address yet, or an address and its records but no enrolled proxy. */
  predicate Unserved(w: ClusterWorld, address: string, env: ClusterEnv) {
    Applied(env) && (env.addresses == [] || (env.records.Fine? && LookupOwn(w, address, env).found.Miss?))
  }

  function EnsuredAfterLookup(w: ClusterWorld, store: ClusterStore, uid: Uid, spec: ClusterSpec, env: ClusterEnv): Ensured {
    EnsuredDomain(w.(cache := LookupOwn(w, spec.address, env).cache), store, uid, spec, env)
  }

  lemma DeployEnds(w: ClusterWorld, store: ClusterStore, uid: Uid, obj: ClusterObject, env: ClusterEnv)
    ensures var e := EnsuredAfterLookup(w, store, uid, obj.spec, env);
            var enrolled := Enrolled(w, obj.spec.address, env);
            EndsAs(Deploy(w, store, uid, obj, env), enrolled && Confirmed(e, obj.status.domainID, env),
                   Unserved(w, obj.spec.address, env) || (enrolled && Postponed(e, obj.status.domainID, env)), env)
  {
    if Enrolled(w, obj.spec.address, env) {
      var l := LookupOwn(w, obj.spec.address, env);
      var obj1 := obj.(status := obj.status.(loadBalancerIP := env.addresses[0]));
      var obj2 := obj1.(status := obj1.status.(clusterAddress := obj.spec.address, online := l.found.item.online,
                                               connectedProxies := l.found.item.connectedProxies));
      RegisterEnds(w.(cache := l.cache), store, uid, obj2, env);
      assert Deploy(w, store, uid, obj, env) == Register(w.(cache := l.cache), store, uid, obj2, env);
    }
  }

  /** The finalizer is in place, and a token recorded now or before. */
  predicate Minted(o: ClusterObject, env: ClusterEnv) {
    env.add.Fine? && (o.status.tokenID == NO_ID ==> env.token.Fine? && env.secret.Fine? && env.patchToken.Fine?)
  }

  /** What ensureDomain answers in a reconcile that gets so far. */
  function EnsuredIn(w: ClusterWorld, store: ClusterStore, uid: Uid, env: ClusterEnv): Ensured
    requires uid in store
  {
    EnsuredDomain(SeenBy(w, store[uid], env), store, uid, store[uid].spec, env)
  }

  lemma EnsuredIgnoresSelf(w: ClusterWorld, store: ClusterStore, store': ClusterStore, uid: Uid, spec: ClusterSpec, env: ClusterEnv)
    requires SameOthers(store, store', uid)
    ensures EnsuredDomain(w, store, uid, spec, env) == EnsuredDomain(w, store', uid, spec, env)
  {
    var found := Scan(w.domains, ForDomain(spec.domain));
    if found.Some? {
      OwnersIgnoreSelf(store, store', uid, found.value.body.target);
    }
  }

  ghost predicate EndsReady(w: ClusterWorld, store: ClusterStore, uid: Uid, env: ClusterEnv)
    requires uid in store
  {
    var o := store[uid];
    Minted(o, env) && Enrolled(w, o.spec.address, env) && Confirmed(EnsuredIn(w, store, uid, env), o.status.domainID, env)
  }

  ghost predicate EndsWaiting(w: ClusterWorld, store: ClusterStore, uid: Uid, env: ClusterEnv)
    requires uid in store
  {
    var o := store[uid];
    && Minted(o, env)
    && (Unserved(w, o.spec.address, env) ||
        (Enrolled(w, o.spec.address, env) && Postponed(EnsuredIn(w, store, uid, env), o.status.domainID, env)))
  }

  /** With any answers: a reconcile of a live object reports ready exactly when every
      step up to and including validation succeeded, waits exactly for an address, for
      enrolment, for another owner or for validation, and fails otherwise. */
  lemma ReconcileEnds(w: ClusterWorld, store: ClusterStore, uid: Uid, env: ClusterEnv)
    requires uid in store && !store[uid].deleting
    ensures EndsAs(ReconcileRun(w, store, uid, env), EndsReady(w, store, uid, env), EndsWaiting(w, store, uid, env), env)
  {
    var obj := store[uid].(finalizers := store[uid].finalizers + {FINALIZER});
    var store1 := store[uid := obj];
    if env.add.Fine? {
      if obj.status.tokenID != NO_ID {
        DeployEnds(w, store1, uid, obj, env);
        EnsuredIgnoresSelf(SeenBy(w, store[uid], env), store, store1, uid, obj.spec, env);
      } else if env.token.Fine? && env.secret.Fine? && env.patchToken.Fine? {
        MintedSees(w, store1, uid, obj, env);
        var m := MintToken(w, store1, uid, obj, env);
        DeployEnds(m.world, m.store, uid, m.obj, env);
        EnsuredIgnoresSelf(SeenBy(w, store[uid], env), store, m.store, uid, obj.spec, env);
      }
    }
  }

  /** Ready=True is never written while a step, validation included, has failed. */
  lemma ReadyNeedsEveryStep(w: ClusterWorld, store: ClusterStore, uid: Uid, env: ClusterEnv)
    requires uid in store && !store[uid].deleting && ReconcileRun(w, store, uid, env).wrote == Some(Ready)
    ensures env.add.Fine? && env.zone.Fine? && env.deployment.Fine? && env.service.Fine? && env.records.Fine?
    ensures env.listDomains.Fine? && env.validate.Fine?
  {
    ReconcileEnds(w, store, uid, env);
    EnsureAnswersIff(SeenBy(w, store[uid], env), store, uid, store[uid].spec, env);
  }

  /** A reconcile in which all but the validation succeeds ends not ready, to be
      retried at the dependency cadence. */
  lemma FailingValidationWaits(w: ClusterWorld, store: ClusterStore, uid: Uid, env: ClusterEnv)
    requires uid in store && !store[uid].deleting && !env.validate.Fine? && env.patchStatus.Fine?
    requires EndsReady(w, store, uid, env.(validate := Fine))
    ensures var out := ReconcileRun(w, store, uid, env);
            out.result == M.DependencyRetry && out.wrote == Some(NotReadyYet)
  {
    var fine := env.(validate := Fine);
    ReconcileEnds(w, store, uid, env);
    assert LookupOwn(w, store[uid].spec.address, fine) == LookupOwn(w, store[uid].spec.address, env);
    ValidationComesLater(SeenBy(w, store[uid], env), store, uid, store[uid].spec, env);
  }

  lemma ValidationComesLater(w: ClusterWorld, store: ClusterStore, uid: Uid, spec: ClusterSpec, env: ClusterEnv)
    ensures EnsuredDomain(w, store, uid, spec, env.(validate := Fine)) == EnsuredDomain(w, store, uid, spec, env)
  {
    var found := Scan(w.domains, ForDomain(spec.domain));
    if found.Some? {
      assert LookupTarget(w, found.value.body.target, env.(validate := Fine)) == LookupTarget(w, found.value.body.target, env);
    }
  }

  // ---- What is recorded before anything later can fail ----

  lemma RegisterRecords(w: ClusterWorld, store: ClusterStore, uid: Uid, obj: ClusterObject, env: ClusterEnv)
    requires uid in store && !obj.deleting && store[uid].status.domainID == obj.status.domainID
    requires var e := EnsuredDomain(w, store, uid, obj.spec, env);
             e.reply.Ok? && (obj.status.domainID == e.reply.value || !env.patchDomain.Lost?)
    ensures var out := Register(w, store, uid, obj, env);
            uid in out.store && out.store[uid].status.domainID == EnsuredDomain(w, store, uid, obj.spec, env).reply.value
  {
  }

  lemma DeployRecords(w: ClusterWorld, store: ClusterStore, uid: Uid, obj: ClusterObject, env: ClusterEnv)
    requires uid in store && !obj.deleting && store[uid].status.domainID == obj.status.domainID && Enrolled(w, obj.spec.address, env)
    requires var e := EnsuredAfterLookup(w, store, uid, obj.spec, env);
             e.reply.Ok? && (obj.status.domainID == e.reply.value || !env.patchDomain.Lost?)
    ensures var out := Deploy(w, store, uid, obj, env);
            uid in out.store && out.store[uid].status.domainID == EnsuredAfterLookup(w, store, uid, obj.spec, env).reply.value
  {
    var l := LookupOwn(w, obj.spec.address, env);
    var obj1 := obj.(status := obj.status.(loadBalancerIP := env.addresses[0]));
    var obj2 := obj1.(status := obj1.status.(clusterAddress := obj.spec.address, online := l.found.item.online,
                                             connectedProxies := l.found.item.connectedProxies));
    RegisterRecords(w.(cache := l.cache), store, uid, obj2, env);
    assert Deploy(w, store, uid, obj, env) == Register(w.(cache := l.cache), store, uid, obj2, env);
  }

  /** A registration that ensureDomain answered is recorded at once: a validation or a
      status patch that fails afterwards does not lose its id. */
  lemma RegistrationIsRecorded(w: ClusterWorld, store: ClusterStore, uid: Uid, env: ClusterEnv)
    requires uid in store && !store[uid].deleting && Minted(store[uid], env) && Enrolled(w, store[uid].spec.address, env)
    requires var e := EnsuredIn(w, store, uid, env);
             e.reply.Ok? && (store[uid].status.domainID == e.reply.value || !env.patchDomain.Lost?)
    ensures var out := ReconcileRun(w, store, uid, env);
            uid in out.store && out.store[uid].status.domainID == EnsuredIn(w, store, uid, env).reply.value
  {
    var obj := store[uid].(finalizers := store[uid].finalizers + {FINALIZER});
    var store1 := store[uid := obj];
    if obj.status.tokenID != NO_ID {
      EnsuredIgnoresSelf(SeenBy(w, store[uid], env), store, store1, uid, obj.spec, env);
      DeployRecords(w, store1, uid, obj, env);
    } else {
      MintedSees(w, store1, uid, obj, env);
      var m := MintToken(w, store1, uid, obj, env);
      EnsuredIgnoresSelf(SeenBy(w, store[uid], env), store, m.store, uid, obj.spec, env);
      DeployRecords(m.world, m.store, uid, m.obj, env);
    }
  }

  // ---- A delete reconcile ----

  predicate TokenDone(t: ClusterStatus, env: ClusterEnv) {
    t.tokenID == NO_ID || GoneOrDeleted(env.deleteToken)
  }

  /** The recorded registration is absent, used by another live object, or deleted. */
  predicate DomainDone(w: ClusterWorld, store: ClusterStore, uid: Uid, t: ClusterStatus, env: ClusterEnv) {
    t.domainID == NO_ID ||
    (env.listDomains.Fine? &&
     (!Has(w.domains, t.domainID) ||
      (env.listObjects.Fine? &&
       (DomainUsed(store, uid, Get(w.domains, t.domainID).body.domain, t.domainID) || GoneOrDeleted(env.deleteDomain)))))
  }

  predicate ClusterDone(store: ClusterStore, uid: Uid, t: ClusterStatus, env: ClusterEnv) {
    t.clusterAddress == "" ||
    (env.listObjectsAgain.Fine? && (AddressOwned(store, uid, t.clusterAddress) || GoneOrDeleted(env.deleteCluster)))
  }

  predicate AllDone(w: ClusterWorld, store: ClusterStore, uid: Uid, env: ClusterEnv)
    requires uid in store
  {
    var t := store[uid].status;
    TokenDone(t, env) && DomainDone(w, store, uid, t, env) && ClusterDone(store, uid, t, env)
  }

  lemma ScanById(ds: seq<Rec<Domain>>, nextId: Id, id: Id)
    requires WellFormed(ds, nextId)
    ensures Scan(ds, WithId(id)).Some? <==> Has(ds, id)
    ensures Has(ds, id) ==> Scan(ds, WithId(id)) == Some(Get(ds, id))
  {
    assert forall i :: 0 <= i < |ds| ==> (WithId(id)(ds[i]) <==> ds[i].id == id);
    if Has(ds, id) {
      var found := Scan(ds, WithId(id)).value;
      assert WithId(id)(found);
      SameId(ds, nextId, found, Get(ds, id));
    }
  }

  /** What dropping the registration does, for any answers. */
  lemma DropDomainEnds(w: ClusterWorld, store: ClusterStore, uid: Uid, t: ClusterStatus, env: ClusterEnv)
    requires WellFormed(w.domains, w.nextId)
    ensures var (w', err) := DropDomain(w, store, uid, t.domainID, env);
            var deletes := && t.domainID != NO_ID && env.listDomains.Fine? && Has(w.domains, t.domainID) && env.listObjects.Fine?
                           && !DomainUsed(store, uid, Get(w.domains, t.domainID).body.domain, t.domainID);
            && (err.None? <==> DomainDone(w, store, uid, t, env))
            && w' == w.(domains := if deletes && !env.deleteDomain.Lost? then Remove(w.domains, t.domainID) else w.domains)
  {
    ScanById(w.domains, w.nextId, t.domainID);
  }

  lemma DropClusterEnds(w: ClusterWorld, store: ClusterStore, uid: Uid, t: ClusterStatus, env: ClusterEnv)
    ensures var (w', err) := DropCluster(w, store, uid, t.clusterAddress, env);
            var deletes := t.clusterAddress != "" && env.listObjectsAgain.Fine? && !AddressOwned(store, uid, t.clusterAddress);
            && (err.None? <==> ClusterDone(store, uid, t, env))
            && w' == w.(clusters := if deletes && !env.deleteCluster.Lost? then WithoutCluster(w.clusters, t.clusterAddress) else w.clusters)
  {
  }

  lemma DropTokenEnds(w: ClusterWorld, t: ClusterStatus, env: ClusterEnv)
    ensures DropToken(w, t.tokenID, env) ==
            w.(tokens := w.tokens - if t.tokenID != NO_ID && !env.deleteToken.Lost? then {t.tokenID} else {})
  {
    assert w.tokens - {} == w.tokens;
  }

  /** The object loses the finalizer. */
  function Released(store: ClusterStore, uid: Uid): ClusterStore
    requires uid in store
  {
    Written(store, uid, store[uid].(finalizers := store[uid].finalizers - {FINALIZER}))
  }

  ghost predicate DeleteEndsAs(w: ClusterWorld, store: ClusterStore, uid: Uid, env: ClusterEnv, out: Out, done: bool)
    requires uid in store
  {
    var t := store[uid].status;
    && (out.result == M.Done <==> done && env.remove.Fine?)
    && (!done ==> out.result.Failed?)
    && (done && !env.remove.Fine? ==> out.result == M.Failed(env.remove.err))
    && out.store == (if done && !env.remove.Lost? then Released(store, uid) else store)
    && out.world.tokens == w.tokens - (if t.tokenID != NO_ID && !env.deleteToken.Lost? then {t.tokenID} else {})
  }

  /** With any answers: a deleting object is released exactly when its token is
      revoked or gone and its registration and cluster are each absent, used by another
      live object, or deleted or gone; otherwise it keeps its finalizer and the error
      is returned. The recorded token is revoked whenever the call takes effect. */
  lemma DeleteEnds(w: ClusterWorld, store: ClusterStore, uid: Uid, env: ClusterEnv)
    requires uid in store && store[uid].deleting && WellFormed(w.domains, w.nextId)
    ensures DeleteEndsAs(w, store, uid, env, ReconcileRun(w, store, uid, env), AllDone(w, store, uid, env))
  {
    var t := store[uid].status;
    var w1 := DropToken(w, t.tokenID, env);
    DropTokenEnds(w, t, env);
    var dropped := DropDomain(w1, store, uid, t.domainID, env);
    DropDomainEnds(w1, store, uid, t, env);
    DropClusterEnds(dropped.0, store, uid, t, env);
    var rest := DropCluster(dropped.0, store, uid, t.clusterAddress, env);
    assert DomainDone(w1, store, uid, t, env) == DomainDone(w, store, uid, t, env);
    DeleteUnfolds(w, w1, store, uid, env, dropped, rest);
  }

  /** The last steps of a delete, from what the drops answered. */
  lemma DeleteUnfolds(w: ClusterWorld, w1: ClusterWorld, store: ClusterStore, uid: Uid, env: ClusterEnv,
                      dropped: (ClusterWorld, Option<Err>), rest: (ClusterWorld, Option<Err>))
    requires uid in store && store[uid].deleting && w1 == DropToken(w, store[uid].status.tokenID, env)
    requires dropped == DropDomain(w1, store, uid, store[uid].status.domainID, env)
    requires rest == DropCluster(dropped.0, store, uid, store[uid].status.clusterAddress, env)
    ensures ReconcileRun(w, store, uid, env) ==
            if !TokenDone(store[uid].status, env) then Out(w1, store, M.Failed(env.deleteToken.err), None)
            else if dropped.1.Some? then Out(dropped.0, store, M.Failed(dropped.1.value), None)
            else if rest.1.Some? then Out(rest.0, store, M.Failed(rest.1.value), None)
            else Out(rest.0, if env.remove.Lost? then store else Released(store, uid), M.Outcome(env.remove, M.Done), None)
  {
  }

  /** An object that is gone, or has lost the finalizer, is cleaned up: its token is
      not there (unless a false "not found" left it), and its registration and
      cluster are not there or are somebody else's. */
  lemma ReleasedIsCleanedUp(w: ClusterWorld, store: ClusterStore, uid: Uid, env: ClusterEnv)
    requires uid in store && store[uid].deleting && WellFormed(w.domains, w.nextId)
    requires FINALIZER in store[uid].finalizers && ReconcileRun(w, store, uid, env).store != store
    requires env.deleteToken.Honest() && env.deleteDomain.Honest() && env.deleteCluster.Honest()
    ensures var out := ReconcileRun(w, store, uid, env);
            var t := store[uid].status;
            && (t.tokenID != NO_ID ==> t.tokenID !in out.world.tokens)
            && (forall d :: d in out.world.domains && d.id == t.domainID && t.domainID != NO_ID ==>
                  DomainUsed(store, uid, d.body.domain, d.id))
            && (ClusterAt(out.world, t.clusterAddress) && t.clusterAddress != "" ==> AddressOwned(store, uid, t.clusterAddress))
  {
    DeleteEnds(w, store, uid, env);
    var t := store[uid].status;
    var w1 := DropToken(w, t.tokenID, env);
    DropDomainEnds(w1, store, uid, t, env);
    var (w2, err2) := DropDomain(w1, store, uid, t.domainID, env);
    DropClusterEnds(w2, store, uid, t, env);
    var out := ReconcileRun(w, store, uid, env);
    forall d | d in out.world.domains && d.id == t.domainID && t.domainID != NO_ID ensures DomainUsed(store, uid, d.body.domain, d.id) {
      StaysOnlyIfUsed(w, store, uid, env, w2, d);
    }
  }

  lemma StaysOnlyIfUsed(w: ClusterWorld, store: ClusterStore, uid: Uid, env: ClusterEnv, w2: ClusterWorld, d: Rec<Domain>)
    requires uid in store && WellFormed(w.domains, w.nextId) && env.deleteDomain.Honest()
    requires var t := store[uid].status;
             && DomainDone(w, store, uid, t, env) && d.id == t.domainID && t.domainID != NO_ID
             && w2 == DropDomain(DropToken(w, t.tokenID, env), store, uid, t.domainID, env).0
    requires d in w2.domains
    ensures DomainUsed(store, uid, d.body.domain, d.id)
  {
    var t := store[uid].status;
    DropDomainEnds(DropToken(w, t.tokenID, env), store, uid, t, env);
    assert d in w.domains;
    var i :| 0 <= i < |w.domains| && w.domains[i] == d;
    SameId(w.domains, w.nextId, d, Get(w.domains, t.domainID));
  }

  // ---- Enrolment tokens over whole runs ----

  /** Recorded tokens were issued, nobody shares one, and those of live objects work. */
  ghost predicate TokensOk(s: Clusters) {
    && 0 < s.world.nextId
    && (forall u :: u in s.store ==> s.store[u].status.tokenID < s.world.nextId)
    && (forall u, v :: u in s.store && v in s.store && u != v && s.store[u].status.tokenID != NO_ID ==>
          s.store[u].status.tokenID != s.store[v].status.tokenID)
    && (forall u :: u in s.store && !s.store[u].deleting && s.store[u].status.tokenID != NO_ID ==>
          s.store[u].status.tokenID in s.world.tokens)
  }

  lemma ConfirmKeepsTokens(w: ClusterWorld, store: ClusterStore, uid: Uid, obj: ClusterObject, id: Id, env: ClusterEnv)
    requires uid in store && !obj.deleting && store[uid].status.tokenID == obj.status.tokenID
    ensures var out := Confirm(w, store, uid, obj, id, env);
            out.world == w && uid in out.store && out.store[uid].status.tokenID == obj.status.tokenID
  {
  }

  lemma RegisterKeepsTokens(w: ClusterWorld, store: ClusterStore, uid: Uid, obj: ClusterObject, env: ClusterEnv)
    requires uid in store && !obj.deleting && store[uid].status.tokenID == obj.status.tokenID
    ensures var out := Register(w, store, uid, obj, env);
            out.world.tokens == w.tokens && uid in out.store && out.store[uid].status.tokenID == obj.status.tokenID
  {
    var e := EnsuredDomain(w, store, uid, obj.spec, env);
    EnsureIsDomainStep(w, store, uid, obj.spec, env);
    if e.reply.Ok? {
      ConfirmKeepsTokens(e.world, store, uid, obj, e.reply.value, env);
    }
  }

  lemma DeployKeepsTokens(w: ClusterWorld, store: ClusterStore, uid: Uid, obj: ClusterObject, env: ClusterEnv)
    requires uid in store && !obj.deleting && store[uid].status.tokenID == obj.status.tokenID
    ensures var out := Deploy(w, store, uid, obj, env);
            out.world.tokens == w.tokens && uid in out.store && out.store[uid].status.tokenID == obj.status.tokenID
  {
    if Enrolled(w, obj.spec.address, env) {
      var l := LookupOwn(w, obj.spec.address, env);
      var obj1 := obj.(status := obj.status.(loadBalancerIP := env.addresses[0]));
      var obj2 := obj1.(status := obj1.status.(clusterAddress := obj.spec.address, online := l.found.item.online,
                                               connectedProxies := l.found.item.connectedProxies));
      RegisterKeepsTokens(w.(cache := l.cache), store, uid, obj2, env);
      assert Deploy(w, store, uid, obj, env) == Register(w.(cache := l.cache), store, uid, obj2, env);
    }
  }

  /** A reconcile of a live object keeps a recorded token, or records a new one that works. */
  lemma LiveTokens(w: ClusterWorld, store: ClusterStore, uid: Uid, env: ClusterEnv)
    requires uid in store && !store[uid].deleting
    ensures var out := ReconcileRun(w, store, uid, env);
            && uid in out.store && w.tokens <= out.world.tokens
            && (out.store[uid].status.tokenID == store[uid].status.tokenID ||
                (store[uid].status.tokenID == NO_ID && out.store[uid].status.tokenID == w.nextId && w.nextId in out.world.tokens))
  {
    var obj := store[uid].(finalizers := store[uid].finalizers + {FINALIZER});
    var store1 := Patched(store, uid, obj, env.add);
    if env.add.Fine? {
      if obj.status.tokenID != NO_ID {
        DeployKeepsTokens(w, store1, uid, obj, env);
      } else {
        var m := MintToken(w, store1, uid, obj, env);
        if m.err.None? {
          DeployKeepsTokens(m.world, m.store, uid, m.obj, env);
        }
      }
    }
  }

  /** A new token is recorded exactly when none was, its Secret was stored and the
      patch took effect: the plain token is shown only once, so an id is never recorded
      without its Secret. */
  lemma TokenIsRecordedIff(w: ClusterWorld, store: ClusterStore, uid: Uid, env: ClusterEnv)
    requires uid in store && !store[uid].deleting && 0 < w.nextId
    ensures var out := ReconcileRun(w, store, uid, env);
            uid in out.store &&
            (out.store[uid].status.tokenID != store[uid].status.tokenID <==>
             store[uid].status.tokenID == NO_ID && env.add.Fine? && env.token.Fine? && env.secret.Fine? && !env.patchToken.Lost?)
  {
    var obj := store[uid].(finalizers := store[uid].finalizers + {FINALIZER});
    var store1 := Patched(store, uid, obj, env.add);
    if env.add.Fine? {
      if obj.status.tokenID != NO_ID {
        DeployKeepsTokens(w, store1, uid, obj, env);
      } else {
        var m := MintToken(w, store1, uid, obj, env);
        if m.err.None? {
          DeployKeepsTokens(m.world, m.store, uid, m.obj, env);
        }
      }
    }
  }

  lemma LiveKeepsTokens(s: Clusters, uid: Uid, env: ClusterEnv)
    requires Sound(s) && TokensOk(s) && uid in s.store && !s.store[uid].deleting
    ensures TokensOk(Next(s, Reconcile(uid, env)))
  {
    LiveReconcile(s.world, s.store, uid, env);
    LiveTokens(s.world, s.store, uid, env);
    LiveIssues(s.world, s.store, uid, env);
  }

  lemma LiveIssues(w: ClusterWorld, store: ClusterStore, uid: Uid, env: ClusterEnv)
    requires uid in store && !store[uid].deleting && store[uid].spec.address != "" && WellFormed(w.domains, w.nextId)
    ensures var out := ReconcileRun(w, store, uid, env);
            uid in out.store && w.nextId <= out.world.nextId &&
            (out.store[uid].status.tokenID == w.nextId && store[uid].status.tokenID == NO_ID ==> w.nextId < out.world.nextId)
  {
    LiveReconcile(w, store, uid, env);
    var obj := store[uid].(finalizers := store[uid].finalizers + {FINALIZER});
    var store1 := Patched(store, uid, obj, env.add);
    if env.add.Fine? && obj.status.tokenID == NO_ID {
      var m := MintToken(w, store1, uid, obj, env);
      MintedIsAhead(w, store1, uid, obj, env);
      if m.err.None? {
        DeployStage(m.world, m.store, uid, m.obj, env);
      }
    }
  }

  lemma DeleteKeepsTokens(s: Clusters, uid: Uid, env: ClusterEnv)
    requires Sound(s) && TokensOk(s) && uid in s.store && s.store[uid].deleting
    ensures TokensOk(Next(s, Reconcile(uid, env)))
  {
    DeleteEnds(s.world, s.store, uid, env);
    DeleteReconcile(s.world, s.store, uid, env);
  }

  lemma StepKeepsTokens(s: Clusters, step: ClusterStep)
    requires Sound(s) && TokensOk(s)
    ensures TokensOk(Next(s, step))
  {
    if step.Reconcile? && step.uid in s.store {
      if s.store[step.uid].deleting {
        DeleteKeepsTokens(s, step.uid, step.env);
      } else {
        LiveKeepsTokens(s, step.uid, step.env);
      }
    }
  }

  /** In every state of every run the token a live object has recorded is one that
      was minted and not revoked, and no two objects share a token. */
  lemma {:induction false} RecordedTokensWork(s: Clusters, steps: seq<ClusterStep>)
    requires Initial(s)
    ensures TokensOk(After(s, steps))
  {
    if steps != [] {
      var prefix := steps[..|steps| - 1];
      RecordedTokensWork(s, prefix);
      RunsAreSound(s, prefix);
      StepKeepsTokens(After(s, prefix), steps[|steps| - 1]);
    }
  }
}
