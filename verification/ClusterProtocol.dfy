/** Safety of shared registrations over every run of ReverseProxyCluster objects. */
module ClusterProtocol {
  import opened Api
  import opened Records
  import opened ListCaches
  import opened Kube
  import M = Mirror
  import opened ReverseProxyCluster
  import opened ClusterRuns

  type Clusters = M.State<ClusterWorld, ClusterSpec, ClusterStatus>

  /** Users create, edit and delete objects, proxies enrol and vanish, lookups
      elsewhere leave anything in the shared cluster cache, reconciles run with
      any answers. Registrations change only through reconciles. */
  datatype ClusterStep =
    | Create(spec: ClusterSpec, foreign: set<string>)
    | Edit(uid: Uid, newSpec: ClusterSpec)
    | MarkDeleting(uid: Uid)
    | ForeignFinalizers(uid: Uid, others: set<string>)
    | Enrolled(clusters: seq<Cluster>)
    | CacheChanged(cache: Cache<Cluster>)
    | Reconcile(uid: Uid, env: ClusterEnv)

  /** What CRD validation lets through. */
  predicate Valid(spec: ClusterSpec) {
    spec.address != "" && spec.domain != ""
  }

  function Next(s: Clusters, step: ClusterStep): Clusters {
    match step
    case Create(spec, foreign) => if Valid(spec) then M.Next(s, FINALIZER, BLANK, M.Create(spec, foreign)) else s
    case Edit(uid, spec) => if Valid(spec) then M.Next(s, FINALIZER, BLANK, M.Edit(uid, spec)) else s
    case MarkDeleting(uid) => M.Next(s, FINALIZER, BLANK, M.MarkDeleting(uid))
    case ForeignFinalizers(uid, others) => M.Next(s, FINALIZER, BLANK, M.ForeignFinalizers(uid, others))
    case Enrolled(clusters) => s.(world := s.world.(clusters := clusters))
    case CacheChanged(cache) => s.(world := s.world.(cache := cache))
    case Reconcile(uid, env) =>
      var out := ReconcileRun(s.world, s.store, uid, env);
      s.(world := out.world, store := out.store)
  }

  function After(s: Clusters, steps: seq<ClusterStep>): Clusters {
    if steps == [] then s else Next(After(s, steps[..|steps| - 1]), steps[|steps| - 1])
  }

  ghost predicate Sound(s: Clusters) {
    && WellFormed(s.world.domains, s.world.nextId)
    && (forall u :: u in s.store ==> u < s.nextUid && s.store[u].spec.address != "")
    && (forall u :: u in s.store && !s.store[u].deleting && s.store[u].status != BLANK ==>
          FINALIZER in s.store[u].finalizers)
  }

  ghost predicate Initial(s: Clusters) {
    s.store == map[] && WellFormed(s.world.domains, s.world.nextId)
  }

  // ---- One delete reconcile ----

  /** A delete reconcile touches only the registration and the cluster the object
      has recorded, and each only when no other live object uses it. */
  ghost predicate DeleteShape(w: ClusterWorld, store: ClusterStore, uid: Uid, out: Out)
    requires uid in store
  {
    var t := store[uid].status;
    && out.world.nextId == w.nextId
    && (out.world.domains == w.domains ||
        (out.world.domains == Remove(w.domains, t.domainID) &&
         forall d :: d in w.domains && d.id == t.domainID ==> !DomainUsed(store, uid, d.body.domain, d.id)))
    && (out.world.clusters == w.clusters ||
        (out.world.clusters == WithoutCluster(w.clusters, t.clusterAddress) && !AddressOwned(store, uid, t.clusterAddress)))
    && (out.store == store || out.store == Written(store, uid, store[uid].(finalizers := store[uid].finalizers - {FINALIZER})))
  }

  lemma DropDomainShape(w: ClusterWorld, store: ClusterStore, uid: Uid, id: Id, env: ClusterEnv)
    requires WellFormed(w.domains, w.nextId)
    ensures var w' := DropDomain(w, store, uid, id, env).0;
            && w' == w.(domains := w'.domains)
            && (w'.domains == w.domains ||
                (w'.domains == Remove(w.domains, id) &&
                 forall d :: d in w.domains && d.id == id ==> !DomainUsed(store, uid, d.body.domain, d.id)))
  {
    var found := Scan(w.domains, WithId(id));
    if found.Some? {
      assert WithId(id)(found.value) && found.value in w.domains;
      forall d | d in w.domains && d.id == id ensures d == found.value {
        SameId(w.domains, w.nextId, d, found.value);
      }
    }
  }

  lemma DeleteReconcile(w: ClusterWorld, store: ClusterStore, uid: Uid, env: ClusterEnv)
    requires uid in store && store[uid].deleting && WellFormed(w.domains, w.nextId)
    ensures DeleteShape(w, store, uid, ReconcileRun(w, store, uid, env))
  {
    var t := store[uid].status;
    var w1 := DropToken(w, t.tokenID, env);
    DropDomainShape(w1, store, uid, t.domainID, env);
    DropClusterShape(DropDomain(w1, store, uid, t.domainID, env).0, store, uid, t.clusterAddress, env);
  }

  lemma DropClusterShape(w: ClusterWorld, store: ClusterStore, uid: Uid, address: string, env: ClusterEnv)
    ensures var w' := DropCluster(w, store, uid, address, env).0;
            && w' == w.(clusters := w'.clusters)
            && (w'.clusters == w.clusters ||
                (w'.clusters == WithoutCluster(w.clusters, address) && !AddressOwned(store, uid, address)))
  {
  }

  // ---- Soundness of every run ----

  lemma StepKeepsSound(s: Clusters, step: ClusterStep)
    requires Sound(s)
    ensures Sound(Next(s, step))
  {
    if step.Reconcile? && step.uid in s.store {
      if s.store[step.uid].deleting {
        DeleteKeepsSound(s, step.uid, step.env);
      } else {
        LiveKeepsSound(s, step.uid, step.env);
      }
    }
  }

  lemma DeleteKeepsSound(s: Clusters, uid: Uid, env: ClusterEnv)
    requires Sound(s) && uid in s.store && s.store[uid].deleting
    ensures Sound(Next(s, Reconcile(uid, env)))
  {
    DeleteReconcile(s.world, s.store, uid, env);
    RemoveKeepsWellFormed(s.world.domains, s.store[uid].status.domainID, s.world.nextId);
  }

  lemma LiveKeepsSound(s: Clusters, uid: Uid, env: ClusterEnv)
    requires Sound(s) && uid in s.store && !s.store[uid].deleting
    ensures Sound(Next(s, Reconcile(uid, env)))
  {
    LiveReconcile(s.world, s.store, uid, env);
    var out := ReconcileRun(s.world, s.store, uid, env);
    DomainStepKeepsWellFormed(s.world, s.store, uid, s.store[uid].spec, env.deleteDomain.Honest(), out.world);
    RecordedMeansFinalized(s.world, s.store, uid, env);
  }

  lemma RecordedMeansFinalized(w: ClusterWorld, store: ClusterStore, uid: Uid, env: ClusterEnv)
    requires uid in store && !store[uid].deleting && store[uid].spec.address != "" && WellFormed(w.domains, w.nextId)
    requires store[uid].status != BLANK ==> FINALIZER in store[uid].finalizers
    ensures var o := ReconcileRun(w, store, uid, env).store;
            uid in o && (o[uid].status != BLANK ==> FINALIZER in o[uid].finalizers)
  {
    LiveReconcile(w, store, uid, env);
    if env.add.Fine? {
      var obj := store[uid].(finalizers := store[uid].finalizers + {FINALIZER});
      MintStage(w, Patched(store, uid, obj, env.add), uid, obj, env);
    }
  }

  lemma {:induction false} RunsAreSound(s: Clusters, steps: seq<ClusterStep>)
    requires Initial(s)
    ensures Sound(After(s, steps))
  {
    if steps != [] {
      RunsAreSound(s, steps[..|steps| - 1]);
      StepKeepsSound(After(s, steps[..|steps| - 1]), steps[|steps| - 1]);
    }
  }

  // ---- One registration per domain ----

  ghost predicate UniqueDomains(ds: seq<Rec<Domain>>) {
    forall x, y :: x in ds && y in ds && x.body.domain == y.body.domain ==> x.id == y.id
  }

  // ---- No hijack ----

  /** A registration disappears in a step of a run only as dead state repaired by
      a live object of the same domain, or as the recorded registration of a
      deleting object that no other live object uses. */
  lemma OnlyDeadOrUnusedRegistrationsGo(s: Clusters, steps: seq<ClusterStep>, step: ClusterStep, d: Rec<Domain>)
    requires Initial(s)
    requires d in After(s, steps).world.domains && d !in Next(After(s, steps), step).world.domains
    ensures var now := After(s, steps);
            && step.Reconcile? && step.uid in now.store
            && (if now.store[step.uid].deleting
                then && now.store[step.uid].status.domainID == d.id
                     && forall u :: u in now.store && u != step.uid && !now.store[u].deleting ==>
                          now.store[u].spec.domain != d.body.domain && now.store[u].status.domainID != d.id
                else Dead(now.world, now.store, step.uid, now.store[step.uid].spec, d))
  {
    RunsAreSound(s, steps);
    GoesOnlyWhenDeadOrUnused(After(s, steps), step, d);
  }

  lemma GoesOnlyWhenDeadOrUnused(now: Clusters, step: ClusterStep, d: Rec<Domain>)
    requires Sound(now) && d in now.world.domains && d !in Next(now, step).world.domains
    ensures step.Reconcile? && step.uid in now.store
    ensures if now.store[step.uid].deleting
            then now.store[step.uid].status.domainID == d.id && !DomainUsed(now.store, step.uid, d.body.domain, d.id)
            else Dead(now.world, now.store, step.uid, now.store[step.uid].spec, d)
  {
    if step.Reconcile? && step.uid in now.store {
      var out := ReconcileRun(now.world, now.store, step.uid, step.env);
      if now.store[step.uid].deleting {
        DeleteReconcile(now.world, now.store, step.uid, step.env);
      } else {
        LiveReconcile(now.world, now.store, step.uid, step.env);
        RemovedIsDead(now.world, now.store, step.uid, now.store[step.uid].spec, step.env.deleteDomain.Honest(), out.world, d);
      }
    }
  }

  lemma RemovedIsDead(w: ClusterWorld, store: ClusterStore, uid: Uid, spec: ClusterSpec, honest: bool, w': ClusterWorld, d: Rec<Domain>)
    requires WellFormed(w.domains, w.nextId) && DomainStep(w, store, uid, spec, honest, w')
    requires d in w.domains && d !in w'.domains
    ensures Dead(w, store, uid, spec, d)
  {
    var e :| Dead(w, store, uid, spec, e) && FirstFor(w.domains, spec.domain, e) && ReplacedBy(w, spec, honest, e, w');
    assert d.id == e.id;
    SameId(w.domains, w.nextId, d, e);
  }

  // ---- No flapping ----

  /** a is alive and runs its proxy where the registration d points. */
  ghost predicate Anchored(s: Clusters, a: Uid, d: Rec<Domain>) {
    && Sound(s) && d in s.world.domains && d.body.target != ""
    && a in s.store && !s.store[a].deleting && s.store[a].spec.address == d.body.target
  }

  /** Anything but deletions and an edit of a: reconciles of live objects with
      any answers, new objects, edits of others, proxies coming and going. */
  ghost predicate Calm(s: Clusters, a: Uid, step: ClusterStep) {
    && !step.MarkDeleting? && (step.Edit? ==> step.uid != a)
    && (step.Reconcile? && step.uid in s.store ==> !s.store[step.uid].deleting)
  }

  ghost predicate CalmRun(s: Clusters, a: Uid, steps: seq<ClusterStep>) {
    forall k :: 0 <= k < |steps| ==> Calm(After(s, steps[..k]), a, steps[k])
  }

  lemma CalmKeepsAnchor(s: Clusters, a: Uid, d: Rec<Domain>, step: ClusterStep)
    requires Anchored(s, a, d) && Calm(s, a, step)
    ensures Anchored(Next(s, step), a, d)
  {
    StepKeepsSound(s, step);
    if d !in Next(s, step).world.domains {
      GoesOnlyWhenDeadOrUnused(s, step, d);
    }
    if step.Reconcile? && step.uid in s.store {
      LiveReconcile(s.world, s.store, step.uid, step.env);
    }
  }

  /** Once a registration points at the address of a live object, no sequence of
      reconciles of live objects re-points, replaces or removes it. */
  lemma {:induction false} NoFlapping(s: Clusters, a: Uid, d: Rec<Domain>, steps: seq<ClusterStep>)
    requires Anchored(s, a, d) && CalmRun(s, a, steps)
    ensures Anchored(After(s, steps), a, d)
  {
    if steps != [] {
      var prefix := steps[..|steps| - 1];
      forall k | 0 <= k < |prefix| ensures Calm(After(s, prefix[..k]), a, prefix[k]) {
        assert prefix[..k] == steps[..k];
      }
      NoFlapping(s, a, d, prefix);
      CalmKeepsAnchor(After(s, prefix), a, d, steps[|steps| - 1]);
    }
  }

  /** Every call of a reconcile of a live object is answered. */
  predicate Quiet(env: ClusterEnv) {
    && env.add.Fine? && env.token.Fine? && env.secret.Fine? && env.patchToken.Fine?
    && env.zone.Fine? && env.deployment.Fine? && env.service.Fine? && env.records.Fine?
    && env.fetch0.Fine? && env.fetch1.Fine? && env.listDomains.Fine? && env.listObjects.Fine?
    && env.patchDomain.Fine? && env.validate.Fine? && env.patchStatus.Fine?
  }

  /** An object that declares the same domain with another address is never
      reported ready, leaves the registrations alone, and ends not-ready whenever
      its calls are answered. */
  lemma RivalEndsNotReady(s: Clusters, a: Uid, d: Rec<Domain>, b: Uid, env: ClusterEnv)
    requires Anchored(s, a, d) && UniqueDomains(s.world.domains)
    requires b in s.store && b != a && !s.store[b].deleting
    requires s.store[b].spec.domain == d.body.domain && s.store[b].spec.address != d.body.target
    ensures var out := ReconcileRun(s.world, s.store, b, env);
            && b in out.store && out.world.domains == s.world.domains
            && out.wrote != Some(Ready)
            && (Quiet(env) ==> out.result == M.DependencyRetry && out.store[b].condition == NotReadyYet)
  {
    var out := ReconcileRun(s.world, s.store, b, env);
    LiveReconcile(s.world, s.store, b, env);
    assert out.world.domains == s.world.domains by {
      var spec := s.store[b].spec;
      assert !Unregistered(s.world.domains, spec.domain) by {
        var i :| 0 <= i < |s.world.domains| && s.world.domains[i] == d;
      }
      if out.world.domains != s.world.domains {
        var e :| Dead(s.world, s.store, b, spec, e) && FirstFor(s.world.domains, spec.domain, e)
                 && ReplacedBy(s.world, spec, env.deleteDomain.Honest(), e, out.world);
        SameId(s.world.domains, s.world.nextId, d, e);
      }
    }
    if out.wrote == Some(Ready) {
      var x :| x in s.world.domains && x.body.domain == d.body.domain
               && (x.body.target == "" || x.body.target == s.store[b].spec.address);
      SameId(s.world.domains, s.world.nextId, d, x);
    }
    if Quiet(env) {
      RivalWaits(s.world, s.store, a, d, b, env);
    }
  }

  /** While the registration is another live object's, the stages from enrolment
      on end in a wait when their calls are answered. */
  lemma RivalWaitsAtEnrolment(w: ClusterWorld, store: ClusterStore, a: Uid, d: Rec<Domain>, b: Uid, obj: ClusterObject, env: ClusterEnv)
    requires UniqueDomains(w.domains) && WellFormed(w.domains, w.nextId) && d in w.domains && d.body.target != ""
    requires a in store && a != b && !store[a].deleting && store[a].spec.address == d.body.target
    requires obj.spec.domain == d.body.domain && obj.spec.address != d.body.target && Quiet(env)
    ensures Enrol(w, store, b, obj, env).result == M.DependencyRetry
  {
    var l := LookupOwn(w, obj.spec.address, env);
    assert ClusterFetch(w.clusters, env.fetch0, env.fetch1)(0) == Answer(env.fetch0, Ok(w.clusters));
    assert ClusterFetch(w.clusters, env.fetch0, env.fetch1)(1) == Answer(env.fetch1, Ok(w.clusters));
    assert !l.found.Broken?;
    if l.found.Hit? {
      var w1 := w.(cache := l.cache);
      var found := Scan(w1.domains, ForDomain(obj.spec.domain));
      assert ForDomain(obj.spec.domain)(d);
      assert found.Some? && ForDomain(obj.spec.domain)(found.value) && found.value in w.domains;
      SameId(w.domains, w.nextId, d, found.value);
      assert AddressOwned(store, b, d.body.target);
      assert EnsuredDomain(w1, store, b, obj.spec, env) == Ensured(w1, Fail(NotReady));
    }
  }

  lemma QuietMint(w: ClusterWorld, store: ClusterStore, uid: Uid, obj: ClusterObject, env: ClusterEnv)
    requires Quiet(env) && !obj.deleting
    ensures var m := MintToken(w, store, uid, obj, env);
            && m.err.None? && m.world == w.(tokens := w.tokens + {w.nextId}, nextId := w.nextId + 1)
            && m.store == store[uid := m.obj] && m.obj.spec == obj.spec
  {
  }

  lemma RivalWaitsAtDeployment(w: ClusterWorld, store: ClusterStore, a: Uid, d: Rec<Domain>, b: Uid, obj: ClusterObject, env: ClusterEnv)
    requires UniqueDomains(w.domains) && WellFormed(w.domains, w.nextId) && d in w.domains && d.body.target != ""
    requires a in store && a != b && !store[a].deleting && store[a].spec.address == d.body.target
    requires obj.spec.domain == d.body.domain && obj.spec.address != d.body.target && Quiet(env)
    ensures Deploy(w, store, b, obj, env).result == M.DependencyRetry
  {
    if env.addresses != [] {
      RivalWaitsAtEnrolment(w, store, a, d, b, obj.(status := obj.status.(loadBalancerIP := env.addresses[0])), env);
    }
  }

  lemma RivalWaits(w: ClusterWorld, store: ClusterStore, a: Uid, d: Rec<Domain>, b: Uid, env: ClusterEnv)
    requires UniqueDomains(w.domains) && WellFormed(w.domains, w.nextId) && d in w.domains && d.body.target != ""
    requires a in store && a != b && !store[a].deleting && store[a].spec.address == d.body.target
    requires b in store && !store[b].deleting && Quiet(env)
    requires store[b].spec.domain == d.body.domain && store[b].spec.address != d.body.target
    ensures ReconcileRun(w, store, b, env).result == M.DependencyRetry
  {
    var obj := store[b].(finalizers := store[b].finalizers + {FINALIZER});
    var store1 := store[b := obj];
    if obj.status.tokenID != NO_ID {
      RivalWaitsAtDeployment(w, store1, a, d, b, obj, env);
    } else {
      QuietMint(w, store1, b, obj, env);
      var m := MintToken(w, store1, b, obj, env);
      RivalWaitsAtDeployment(m.world, m.store, a, d, b, m.obj, env);
    }
  }

  // ---- Delete keys over whole runs ----

  /** What reconcileDelete will need is never lost: once an object has recorded a
      token, a registration or a cluster address, every later state of the run
      that still holds the object has one recorded. */
  lemma {:induction false} DeleteKeysNeverVanish(s: Clusters, steps: seq<ClusterStep>, u: Uid)
    requires Sound(s) && u in s.store && u in After(s, steps).store
    ensures KeysKept(s.store[u].status, After(s, steps).store[u].status)
  {
    if steps != [] {
      var prefix := steps[..|steps| - 1];
      SoundFrom(s, prefix);
      var now := After(s, prefix);
      var step := steps[|steps| - 1];
      StaysUnlessGone(s, prefix, step, u);
      DeleteKeysNeverVanish(s, prefix, u);
      if step.Reconcile? && step.uid in now.store {
        if now.store[step.uid].deleting {
          DeleteReconcile(now.world, now.store, step.uid, step.env);
        } else {
          LiveReconcile(now.world, now.store, step.uid, step.env);
        }
      }
    }
  }

  lemma {:induction false} SoundFrom(s: Clusters, steps: seq<ClusterStep>)
    requires Sound(s)
    ensures Sound(After(s, steps)) && s.nextUid <= After(s, steps).nextUid
  {
    if steps != [] {
      SoundFrom(s, steps[..|steps| - 1]);
      StepKeepsSound(After(s, steps[..|steps| - 1]), steps[|steps| - 1]);
    }
  }

  /** Uids are not reused: an object that was there at the start and is there
      after a step was there before that step. */
  lemma StaysUnlessGone(s: Clusters, prefix: seq<ClusterStep>, step: ClusterStep, u: Uid)
    requires Sound(s) && u in s.store && u in Next(After(s, prefix), step).store
    ensures u in After(s, prefix).store
  {
    SoundFrom(s, prefix);
    var now := After(s, prefix);
    if step.Reconcile? && step.uid in now.store {
      if now.store[step.uid].deleting {
        DeleteReconcile(now.world, now.store, step.uid, step.env);
      } else {
        LiveReconcile(now.world, now.store, step.uid, step.env);
      }
    }
  }

  // ---- The last object standing ----

  /** u has recorded id and has not been through its clean-up yet. */
  ghost predicate DomainPending(s: Clusters, u: Uid, id: Id) {
    u in s.store && s.store[u].status.domainID == id && FINALIZER in s.store[u].finalizers
  }

  ghost predicate ClusterPending(s: Clusters, u: Uid, address: string) {
    u in s.store && s.store[u].status.clusterAddress == address && FINALIZER in s.store[u].finalizers
  }

  /** A deletion mark, or a delete reconcile in which no call fails. */
  ghost predicate Deletion(s: Clusters, step: ClusterStep) {
    || step.MarkDeleting?
    || (&& step.Reconcile? && (step.uid in s.store ==> s.store[step.uid].deleting)
        && step.env.deleteToken.Fine? && step.env.listDomains.Fine? && step.env.listObjects.Fine?
        && step.env.deleteDomain.Fine? && step.env.listObjectsAgain.Fine? && step.env.deleteCluster.Fine?
        && step.env.remove.Fine?)
  }

  ghost predicate OnlyDeletions(s: Clusters, steps: seq<ClusterStep>) {
    forall k :: 0 <= k < |steps| ==> Deletion(After(s, steps[..k]), steps[k])
  }

  /** The registration d is used by the objects that recorded it and by nobody else alive. */
  ghost predicate DomainWindingDown(s: Clusters, d: Rec<Domain>) {
    && Sound(s) && d.id != NO_ID
    && (forall u :: u in s.store && !s.store[u].deleting && s.store[u].spec.domain == d.body.domain ==>
          s.store[u].status.domainID == d.id)
    && (forall x :: x in s.world.domains && x.id == d.id ==> x == d)
    && (d in s.world.domains <== exists u :: u in s.store && !s.store[u].deleting && s.store[u].status.domainID == d.id)
    && (d in s.world.domains ==> exists u :: DomainPending(s, u, d.id))
  }

  ghost predicate ClusterAt(w: ClusterWorld, address: string) {
    exists c :: c in w.clusters && c.address == address
  }

  ghost predicate ClusterWindingDown(s: Clusters, c: Cluster) {
    && Sound(s) && c.address != ""
    && (forall u :: u in s.store && !s.store[u].deleting && s.store[u].spec.address == c.address ==>
          s.store[u].status.clusterAddress == c.address)
    && (c in s.world.clusters <== exists u :: u in s.store && !s.store[u].deleting && s.store[u].status.clusterAddress == c.address)
    && (ClusterAt(s.world, c.address) ==> exists u :: ClusterPending(s, u, c.address))
  }

  /** With every call answered, a delete reconcile drops exactly what nobody
      else uses, and releases the object. */
  lemma QuietDelete(s: Clusters, step: ClusterStep)
    requires Sound(s) && Deletion(s, step) && step.Reconcile? && step.uid in s.store
    ensures var out := ReconcileRun(s.world, s.store, step.uid, step.env);
            var t := s.store[step.uid].status;
            && out.store == Written(s.store, step.uid, s.store[step.uid].(finalizers := s.store[step.uid].finalizers - {FINALIZER}))
            && (forall d :: d in s.world.domains ==>
                  (d !in out.world.domains <==> d.id == t.domainID && !DomainUsed(s.store, step.uid, d.body.domain, d.id)))
            && (forall d :: d in out.world.domains ==> d in s.world.domains)
            && out.world.clusters == if t.clusterAddress == "" || AddressOwned(s.store, step.uid, t.clusterAddress)
                                     then s.world.clusters else WithoutCluster(s.world.clusters, t.clusterAddress)
  {
    var t := s.store[step.uid].status;
    var w1 := DropToken(s.world, t.tokenID, step.env);
    QuietDrop(w1, s.store, step.uid, t.domainID, step.env);
  }

  lemma QuietDrop(w: ClusterWorld, store: ClusterStore, uid: Uid, id: Id, env: ClusterEnv)
    requires WellFormed(w.domains, w.nextId) && env.listDomains.Fine? && env.listObjects.Fine? && env.deleteDomain.Fine?
    ensures var (w', err) := DropDomain(w, store, uid, id, env);
            && err.None? && w' == w.(domains := w'.domains)
            && (forall d :: d in w.domains ==> (d !in w'.domains <==> d.id == id && !DomainUsed(store, uid, d.body.domain, d.id)))
            && (forall d :: d in w'.domains ==> d in w.domains)
  {
    var found := Scan(w.domains, WithId(id));
    forall d | d in w.domains && d.id == id ensures found == Some(d) {
      assert WithId(id)(d);
      assert WithId(id)(found.value) && found.value in w.domains;
      SameId(w.domains, w.nextId, d, found.value);
    }
  }

  /** One failure-free delete reconcile, said of the states alone. */
  ghost predicate QuietStep(s: Clusters, s': Clusters, uid: Uid)
    requires uid in s.store
  {
    var t := s.store[uid].status;
    && M.DeleteShape(s.store, s'.store, uid)
    && (forall d :: d in s.world.domains ==>
          (d !in s'.world.domains <==> d.id == t.domainID && !DomainUsed(s.store, uid, d.body.domain, d.id)))
    && (forall d :: d in s'.world.domains ==> d in s.world.domains)
    && s'.world.clusters == if t.clusterAddress == "" || AddressOwned(s.store, uid, t.clusterAddress)
                            then s.world.clusters else WithoutCluster(s.world.clusters, t.clusterAddress)
  }

  lemma DeletionIsQuietStep(s: Clusters, step: ClusterStep)
    requires Sound(s) && Deletion(s, step) && step.Reconcile? && step.uid in s.store
    ensures QuietStep(s, Next(s, step), step.uid)
  {
    QuietDelete(s, step);
  }

  lemma DeletionKeepsDomainWindingDown(s: Clusters, step: ClusterStep, d: Rec<Domain>)
    requires DomainWindingDown(s, d) && Deletion(s, step)
    ensures DomainWindingDown(Next(s, step), d)
  {
    StepKeepsSound(s, step);
    if step.MarkDeleting? {
      MarkKeepsDomainWindingDown(s, step.uid, d);
    } else if step.uid in s.store {
      DeletionIsQuietStep(s, step);
      QuietStepKeepsDomain(s, Next(s, step), step.uid, d);
    }
  }

  lemma MarkKeepsDomainWindingDown(s: Clusters, uid: Uid, d: Rec<Domain>)
    requires DomainWindingDown(s, d) && Sound(Next(s, MarkDeleting(uid)))
    ensures DomainWindingDown(Next(s, MarkDeleting(uid)), d)
  {
    if d in s.world.domains {
      var u :| DomainPending(s, u, d.id);
      assert DomainPending(Next(s, MarkDeleting(uid)), u, d.id);
    }
  }

  lemma QuietStepKeepsDomain(s: Clusters, s': Clusters, uid: Uid, d: Rec<Domain>)
    requires DomainWindingDown(s, d) && Sound(s') && uid in s.store && s.store[uid].deleting && QuietStep(s, s', uid)
    ensures DomainWindingDown(s', d)
  {
    if d in s'.world.domains {
      var v: Uid;
      if s.store[uid].status.domainID == d.id {
        v :| v in s.store && v != uid && !s.store[v].deleting &&
             (s.store[v].spec.domain == d.body.domain || s.store[v].status.domainID == d.id);
      } else {
        v :| DomainPending(s, v, d.id);
      }
      assert DomainPending(s', v, d.id);
    }
  }

  /** Whatever the order of deletion marks and failure-free delete reconciles, and
      however specs were renamed since the id was recorded: the registration
      stays, unchanged, while a live object has it recorded, and is gone once
      every object that recorded it has been through its clean-up. */
  lemma {:induction false} LastDomainStanding(s: Clusters, steps: seq<ClusterStep>, d: Rec<Domain>)
    requires DomainWindingDown(s, d) && OnlyDeletions(s, steps)
    ensures DomainWindingDown(After(s, steps), d)
    ensures (forall u :: !DomainPending(After(s, steps), u, d.id)) ==> !Has(After(s, steps).world.domains, d.id)
  {
    if steps != [] {
      PrefixOnlyDeletions(s, steps);
      LastDomainStanding(s, steps[..|steps| - 1], d);
      DeletionKeepsDomainWindingDown(After(s, steps[..|steps| - 1]), steps[|steps| - 1], d);
    }
    var ds := After(s, steps).world.domains;
    if Has(ds, d.id) {
      var i :| 0 <= i < |ds| && ds[i].id == d.id;
      assert ds[i] in ds;
    }
  }

  lemma PrefixOnlyDeletions(s: Clusters, steps: seq<ClusterStep>)
    requires steps != [] && OnlyDeletions(s, steps)
    ensures OnlyDeletions(s, steps[..|steps| - 1])
    ensures Deletion(After(s, steps[..|steps| - 1]), steps[|steps| - 1])
  {
    var prefix := steps[..|steps| - 1];
    forall k | 0 <= k < |prefix| ensures Deletion(After(s, prefix[..k]), prefix[k]) {
      assert prefix[..k] == steps[..k];
    }
  }

  lemma DeletionKeepsClusterWindingDown(s: Clusters, step: ClusterStep, c: Cluster)
    requires ClusterWindingDown(s, c) && Deletion(s, step)
    ensures ClusterWindingDown(Next(s, step), c)
  {
    StepKeepsSound(s, step);
    if step.MarkDeleting? {
      MarkKeepsClusterWindingDown(s, step.uid, c);
    } else if step.uid in s.store {
      DeletionIsQuietStep(s, step);
      QuietStepKeepsCluster(s, Next(s, step), step.uid, c);
    }
  }

  lemma MarkKeepsClusterWindingDown(s: Clusters, uid: Uid, c: Cluster)
    requires ClusterWindingDown(s, c) && Sound(Next(s, MarkDeleting(uid)))
    ensures ClusterWindingDown(Next(s, MarkDeleting(uid)), c)
  {
    if ClusterAt(s.world, c.address) {
      var u :| ClusterPending(s, u, c.address);
      assert ClusterPending(Next(s, MarkDeleting(uid)), u, c.address);
    }
  }

  lemma QuietStepKeepsCluster(s: Clusters, s': Clusters, uid: Uid, c: Cluster)
    requires ClusterWindingDown(s, c) && Sound(s') && uid in s.store && s.store[uid].deleting && QuietStep(s, s', uid)
    ensures ClusterWindingDown(s', c)
  {
    if ClusterAt(s'.world, c.address) {
      var v: Uid;
      if s.store[uid].status.clusterAddress == c.address {
        v :| v in s.store && v != uid && !s.store[v].deleting &&
             (s.store[v].spec.address == c.address || s.store[v].status.clusterAddress == c.address);
      } else {
        v :| ClusterPending(s, v, c.address);
      }
      assert ClusterPending(s', v, c.address);
    }
  }

  /** The same for the account's cluster, which is shared by address. */
  lemma {:induction false} LastClusterStanding(s: Clusters, steps: seq<ClusterStep>, c: Cluster)
    requires ClusterWindingDown(s, c) && OnlyDeletions(s, steps)
    ensures ClusterWindingDown(After(s, steps), c)
    ensures (forall u :: !ClusterPending(After(s, steps), u, c.address)) ==> !ClusterAt(After(s, steps).world, c.address)
  {
    if steps != [] {
      PrefixOnlyDeletions(s, steps);
      LastClusterStanding(s, steps[..|steps| - 1], c);
      DeletionKeepsClusterWindingDown(After(s, steps[..|steps| - 1]), steps[|steps| - 1], c);
    }
  }
}
