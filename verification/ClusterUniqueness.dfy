/** At most one registration per domain: kept by every step of every run but one
    kind, which is named exactly. */
module ClusterUniqueness {
  import opened Api
  import opened Records
  import opened ListCaches
  import opened Kube
  import M = Mirror
  import opened ReverseProxyCluster
  import opened ClusterRuns
  import opened ClusterProtocol

  // ---- One call of ensureDomain ----

  /** ensureDomain gets as far as deleting the registration it found for the domain. */
  predicate Repairs(w: ClusterWorld, store: ClusterStore, uid: Uid, spec: ClusterSpec, env: ClusterEnv) {
    var found := Scan(w.domains, ForDomain(spec.domain));
    && env.listDomains.Fine? && found.Some?
    && found.value.body.target != "" && found.value.body.target != spec.address
    && env.listObjects.Fine? && !AddressOwned(store, uid, found.value.body.target)
    && LookupTarget(w, found.value.body.target, env).found.Miss?
  }

  /** The delete leaves the registration there but answers "not found", and the
      create that follows takes effect. */
  predicate DeniedThenCreated(env: ClusterEnv) {
    !env.deleteDomain.Honest() && env.createDomain.Acts()
  }

  lemma AppendedIsUniqueIff(ds: seq<Rec<Domain>>, nextId: Id, x: Rec<Domain>)
    requires WellFormed(ds, nextId) && nextId <= x.id && UniqueDomains(ds)
    ensures UniqueDomains(ds + [x]) <==> Unregistered(ds, x.body.domain)
  {
    var all := ds + [x];
    assert x in all;
    if !Unregistered(ds, x.body.domain) {
      var i :| 0 <= i < |ds| && ds[i].body.domain == x.body.domain;
      assert ds[i] in all && ds[i].id != x.id;
    } else {
      assert forall d :: d in ds ==> d.body.domain != x.body.domain;
      assert forall d :: d in all ==> d in ds || d == x;
    }
  }

  lemma CreateKeepsUnique(w: ClusterWorld, spec: ClusterSpec, f: Fault)
    requires WellFormed(w.domains, w.nextId) && UniqueDomains(w.domains)
    ensures UniqueDomains(CreateDomain(w, spec, f).world.domains) <==> !f.Acts() || Unregistered(w.domains, spec.domain)
  {
    AppendedIsUniqueIff(w.domains, w.nextId, Rec(w.nextId, Domain(spec.domain, spec.address)));
  }

  lemma ScanMeansRegistered(ds: seq<Rec<Domain>>, domain: string)
    ensures Scan(ds, ForDomain(domain)).None? <==> Unregistered(ds, domain)
    ensures Scan(ds, ForDomain(domain)).Some? ==>
              Scan(ds, ForDomain(domain)).value in ds && Scan(ds, ForDomain(domain)).value.body.domain == domain
  {
    assert forall i :: 0 <= i < |ds| ==> (ForDomain(domain)(ds[i]) <==> ds[i].body.domain == domain);
    if Scan(ds, ForDomain(domain)).Some? {
      assert ForDomain(domain)(Scan(ds, ForDomain(domain)).value);
    }
  }

  /** Without the one registration of a domain there is none left. */
  lemma RemovedIsUnregistered(ds: seq<Rec<Domain>>, nextId: Id, d: Rec<Domain>)
    requires WellFormed(ds, nextId) && UniqueDomains(ds) && d in ds
    ensures WellFormed(Remove(ds, d.id), nextId) && UniqueDomains(Remove(ds, d.id))
    ensures Unregistered(Remove(ds, d.id), d.body.domain)
  {
    RemoveKeepsWellFormed(ds, d.id, nextId);
    var r := Remove(ds, d.id);
    forall i | 0 <= i < |r| ensures r[i].body.domain != d.body.domain {
      assert r[i] in ds;
    }
  }

  function AfterDelete(w: ClusterWorld, d: Rec<Domain>, env: ClusterEnv): ClusterWorld {
    if env.deleteDomain.Acts() then w.(domains := Remove(w.domains, d.id)) else w
  }

  lemma ReplaceKeepsUniqueIff(w: ClusterWorld, spec: ClusterSpec, d: Rec<Domain>, env: ClusterEnv)
    requires WellFormed(w.domains, w.nextId) && UniqueDomains(w.domains) && d in w.domains && d.body.domain == spec.domain
    ensures UniqueDomains(AfterDelete(w, d, env).domains)
    ensures UniqueDomains(CreateDomain(AfterDelete(w, d, env), spec, env.createDomain).world.domains) <==>
            env.deleteDomain.Acts() || !env.createDomain.Acts()
  {
    if env.deleteDomain.Acts() {
      RemovedIsUnregistered(w.domains, w.nextId, d);
    }
    CreateKeepsUnique(AfterDelete(w, d, env), spec, env.createDomain);
  }

  lemma RepairDomains(w: ClusterWorld, store: ClusterStore, uid: Uid, spec: ClusterSpec, d: Rec<Domain>, env: ClusterEnv)
    ensures var reaches := env.listObjects.Fine? && !AddressOwned(store, uid, d.body.target) && LookupTarget(w, d.body.target, env).found.Miss?;
            Repair(w, store, uid, spec, d, env).world.domains ==
            if !reaches then w.domains
            else if Refused(env.deleteDomain) then AfterDelete(w, d, env).domains
            else CreateDomain(AfterDelete(w, d, env), spec, env.createDomain).world.domains
  {
  }

  /** ensureDomain keeps registrations unique exactly when it does not go on to
      create after a delete that was denied with a false "not found". */
  lemma EnsureKeepsUniqueIff(w: ClusterWorld, store: ClusterStore, uid: Uid, spec: ClusterSpec, env: ClusterEnv)
    requires WellFormed(w.domains, w.nextId) && UniqueDomains(w.domains)
    ensures UniqueDomains(EnsuredDomain(w, store, uid, spec, env).world.domains) <==>
            !(Repairs(w, store, uid, spec, env) && DeniedThenCreated(env))
  {
    ScanMeansRegistered(w.domains, spec.domain);
    var found := Scan(w.domains, ForDomain(spec.domain));
    if !env.listDomains.Fine? {
    } else if found.None? {
      CreateKeepsUnique(w, spec, env.createDomain);
    } else if found.value.body.target != "" && found.value.body.target != spec.address {
      RepairDomains(w, store, uid, spec, found.value, env);
      ReplaceKeepsUniqueIff(w, spec, found.value, env);
      assert EnsuredDomain(w, store, uid, spec, env) == Repair(w, store, uid, spec, found.value, env);
    }
  }

  // ---- One reconcile ----

  /** A reconcile of the live object o gets as far as ensureDomain. */
  predicate Registers(w: ClusterWorld, o: ClusterObject, env: ClusterEnv) {
    && env.add.Fine? && (o.status.tokenID == NO_ID ==> env.token.Fine? && env.secret.Fine? && env.patchToken.Fine?)
    && env.zone.Fine? && env.deployment.Fine? && env.service.Fine? && env.addresses != [] && env.records.Fine?
    && LookupOwn(w, o.spec.address, env).found.Hit?
  }

  /** The world ensureDomain then sees: a token may have been minted, and the
      object's own cluster looked up. */
  function SeenBy(w: ClusterWorld, o: ClusterObject, env: ClusterEnv): ClusterWorld {
    var w1 := if o.status.tokenID == NO_ID then w.(tokens := w.tokens + {w.nextId}, nextId := w.nextId + 1) else w;
    w1.(cache := LookupOwn(w, o.spec.address, env).cache)
  }

  /** The stages up to enrolment, from an object whose finalizer and token are settled. */
  lemma DeployDomains(w: ClusterWorld, store: ClusterStore, uid: Uid, obj: ClusterObject, env: ClusterEnv)
    ensures var reaches := env.zone.Fine? && env.deployment.Fine? && env.service.Fine? && env.addresses != [] && env.records.Fine?
                           && LookupOwn(w, obj.spec.address, env).found.Hit?;
            Deploy(w, store, uid, obj, env).world.domains ==
            if reaches then EnsuredDomain(w.(cache := LookupOwn(w, obj.spec.address, env).cache), store, uid, obj.spec, env).world.domains
            else w.domains
  {
  }

  ghost predicate SameOthers(store: ClusterStore, store': ClusterStore, uid: Uid) {
    forall u :: u != uid ==> (u in store <==> u in store') && (u in store ==> store[u] == store'[u])
  }

  lemma OwnersIgnoreSelf(store: ClusterStore, store': ClusterStore, uid: Uid, a: string)
    requires SameOthers(store, store', uid)
    ensures AddressOwned(store, uid, a) <==> AddressOwned(store', uid, a)
  {
    if u :| u in store && u != uid && !store[u].deleting && (store[u].spec.address == a || store[u].status.clusterAddress == a) {
      assert u in store' && store'[u] == store[u];
    }
    if u :| u in store' && u != uid && !store'[u].deleting && (store'[u].spec.address == a || store'[u].status.clusterAddress == a) {
      assert u in store && store[u] == store'[u];
    }
  }

  /** What an object has stored itself does not matter to its own repair. */
  lemma RepairsIgnoresSelf(w: ClusterWorld, store: ClusterStore, store': ClusterStore, uid: Uid, spec: ClusterSpec, env: ClusterEnv)
    requires SameOthers(store, store', uid)
    ensures Repairs(w, store, uid, spec, env) <==> Repairs(w, store', uid, spec, env)
  {
    var found := Scan(w.domains, ForDomain(spec.domain));
    if found.Some? {
      OwnersIgnoreSelf(store, store', uid, found.value.body.target);
    }
  }

  lemma DeployKeepsUniqueIff(w: ClusterWorld, store0: ClusterStore, store: ClusterStore, uid: Uid, obj: ClusterObject, env: ClusterEnv)
    requires WellFormed(w.domains, w.nextId) && UniqueDomains(w.domains) && SameOthers(store0, store, uid)
    ensures UniqueDomains(Deploy(w, store, uid, obj, env).world.domains) <==>
            !(&& env.zone.Fine? && env.deployment.Fine? && env.service.Fine? && env.addresses != [] && env.records.Fine?
              && LookupOwn(w, obj.spec.address, env).found.Hit?
              && Repairs(w.(cache := LookupOwn(w, obj.spec.address, env).cache), store0, uid, obj.spec, env) && DeniedThenCreated(env))
  {
    var w1 := w.(cache := LookupOwn(w, obj.spec.address, env).cache);
    DeployDomains(w, store, uid, obj, env);
    EnsureKeepsUniqueIff(w1, store, uid, obj.spec, env);
    RepairsIgnoresSelf(w1, store0, store, uid, obj.spec, env);
  }

  /** The step is the reconcile of a live object that repairs dead state, is told
      that the registration is not there although it is, and creates another. */
  predicate Duplicating(s: Clusters, step: ClusterStep) {
    && step.Reconcile? && step.uid in s.store && !s.store[step.uid].deleting
    && var o := s.store[step.uid];
       Registers(s.world, o, step.env) && Repairs(SeenBy(s.world, o, step.env), s.store, step.uid, o.spec, step.env)
       && DeniedThenCreated(step.env)
  }

  lemma MintedSees(w: ClusterWorld, store: ClusterStore, uid: Uid, obj: ClusterObject, env: ClusterEnv)
    requires !obj.deleting && env.token.Fine? && env.secret.Fine? && env.patchToken.Fine?
    ensures var m := MintToken(w, store, uid, obj, env);
            && m.err.None? && m.obj.spec == obj.spec && m.store == store[uid := m.obj]
            && m.world == w.(tokens := w.tokens + {w.nextId}, nextId := w.nextId + 1)
            && LookupOwn(m.world, obj.spec.address, env) == LookupOwn(w, obj.spec.address, env)
  {
  }

  lemma LiveKeepsUniqueIff(s: Clusters, uid: Uid, env: ClusterEnv)
    requires Sound(s) && UniqueDomains(s.world.domains) && uid in s.store && !s.store[uid].deleting
    ensures UniqueDomains(ReconcileRun(s.world, s.store, uid, env).world.domains) <==> !Duplicating(s, Reconcile(uid, env))
  {
    var obj := s.store[uid].(finalizers := s.store[uid].finalizers + {FINALIZER});
    var store1 := s.store[uid := obj];
    if env.add.Fine? {
      if obj.status.tokenID != NO_ID {
        DeployKeepsUniqueIff(s.world, s.store, store1, uid, obj, env);
      } else if env.token.Fine? && env.secret.Fine? && env.patchToken.Fine? {
        MintedSees(s.world, store1, uid, obj, env);
        var m := MintToken(s.world, store1, uid, obj, env);
        DeployKeepsUniqueIff(m.world, s.store, m.store, uid, m.obj, env);
      }
    }
  }

  /** Every step but a duplicating one keeps registrations unique, and a
      duplicating one never does. */
  lemma StepKeepsUniqueIff(s: Clusters, step: ClusterStep)
    requires Sound(s) && UniqueDomains(s.world.domains)
    ensures UniqueDomains(Next(s, step).world.domains) <==> !Duplicating(s, step)
  {
    if step.Reconcile? && step.uid in s.store {
      if s.store[step.uid].deleting {
        DeleteReconcile(s.world, s.store, step.uid, step.env);
      } else {
        LiveKeepsUniqueIff(s, step.uid, step.env);
      }
    }
  }

  // ---- Every run ----

  ghost predicate AlwaysUnique(s: Clusters, steps: seq<ClusterStep>) {
    forall k :: 0 <= k <= |steps| ==> UniqueDomains(After(s, steps[..k]).world.domains)
  }

  ghost predicate NeverDuplicating(s: Clusters, steps: seq<ClusterStep>) {
    forall k :: 0 <= k < |steps| ==> !Duplicating(After(s, steps[..k]), steps[k])
  }

  lemma AlwaysUniqueGrows(s: Clusters, steps: seq<ClusterStep>, step: ClusterStep)
    ensures AlwaysUnique(s, steps + [step]) <==> AlwaysUnique(s, steps) && UniqueDomains(After(s, steps + [step]).world.domains)
  {
    var all := steps + [step];
    assert all[..|all|] == all;
    assert forall k :: 0 <= k <= |steps| ==> all[..k] == steps[..k];
    if AlwaysUnique(s, all) {
      forall k | 0 <= k <= |steps| ensures UniqueDomains(After(s, steps[..k]).world.domains) {
        assert all[..k] == steps[..k];
      }
    }
  }

  lemma NeverDuplicatingGrows(s: Clusters, steps: seq<ClusterStep>, step: ClusterStep)
    ensures NeverDuplicating(s, steps + [step]) <==> NeverDuplicating(s, steps) && !Duplicating(After(s, steps), step)
  {
    var all := steps + [step];
    assert all[..|steps|] == steps && all[|steps|] == step;
    assert forall k :: 0 <= k < |steps| ==> all[..k] == steps[..k] && all[k] == steps[k];
    if NeverDuplicating(s, all) {
      forall k | 0 <= k < |steps| ensures !Duplicating(After(s, steps[..k]), steps[k]) {
        assert all[..k] == steps[..k] && all[k] == steps[k];
      }
    }
  }

  lemma LastStepIff(s: Clusters, steps: seq<ClusterStep>, step: ClusterStep)
    requires Initial(s) && AlwaysUnique(s, steps)
    ensures UniqueDomains(After(s, steps + [step]).world.domains) <==> !Duplicating(After(s, steps), step)
  {
    assert steps[..|steps|] == steps && (steps + [step])[..|steps|] == steps;
    RunsAreSound(s, steps);
    StepKeepsUniqueIff(After(s, steps), step);
  }

  /** Over every run, each domain has at most one registration at all times
      exactly when no step is a duplicating one. Crashes between the delete and
      the create, or between the create and the status patch, do no harm. */
  lemma {:induction false} AtMostOneRegistrationIff(s: Clusters, steps: seq<ClusterStep>)
    requires Initial(s) && UniqueDomains(s.world.domains)
    ensures AlwaysUnique(s, steps) <==> NeverDuplicating(s, steps)
  {
    if steps == [] {
      assert steps[..0] == [];
    } else {
      var prefix, last := steps[..|steps| - 1], steps[|steps| - 1];
      assert steps == prefix + [last];
      AtMostOneRegistrationIff(s, prefix);
      AlwaysUniqueGrows(s, prefix, last);
      NeverDuplicatingGrows(s, prefix, last);
      if AlwaysUnique(s, prefix) {
        LastStepIff(s, prefix, last);
      }
    }
  }

  /** No repair of a live object is told "not found" about a registration that stays. */
  ghost predicate HonestRepairs(s: Clusters, steps: seq<ClusterStep>) {
    forall k :: 0 <= k < |steps| && steps[k].Reconcile? && LiveIn(After(s, steps[..k]), steps[k].uid) ==>
      steps[k].env.deleteDomain.Honest()
  }

  predicate LiveIn(s: Clusters, uid: Uid) {
    uid in s.store && !s.store[uid].deleting
  }

  /** In every state of every run in which NetBird does not deny a registration
      that stays, each domain has at most one. */
  lemma AtMostOneRegistration(s: Clusters, steps: seq<ClusterStep>)
    requires Initial(s) && UniqueDomains(s.world.domains) && HonestRepairs(s, steps)
    ensures UniqueDomains(After(s, steps).world.domains)
  {
    AtMostOneRegistrationIff(s, steps);
    assert steps[..|steps|] == steps;
    assert AlwaysUnique(s, steps);
  }

  // ---- A run that breaks it ----

  function Answered(deleteDomain: Fault): ClusterEnv {
    ClusterEnv(Fine, Fine, Fine, Fine, Fine, Fine, Fine, ["10.0.0.1"], Fine, 0, Fine, Fine, Fine, Fine, 0, Fine, Fine,
               deleteDomain, Fine, Fine, Fine, Fine, Fine, Fine, Fine, Fine)
  }

  /** A domain registered for a cluster that is gone, and a proxy enrolled elsewhere. */
  function Abandoned(domain: string, gone: string, here: string): Clusters {
    M.State(ClusterWorld({}, [Rec(1, Domain(domain, gone))], [Cluster(here, true, 1)], 2, Cache([], false, 0)), map[], 0)
  }

  /** An object is created for the domain and reconciled once; the delete of the
      dead registration has no effect and answers "not found". */
  lemma FalseNotFoundDuplicates(domain: string, gone: string, here: string)
    requires domain != "" && gone != "" && here != "" && gone != here
    ensures var s := Abandoned(domain, gone, here);
            var steps := [Create(ClusterSpec(domain, here), {}), Reconcile(0, Answered(Lost(NotFound)))];
            Initial(s) && UniqueDomains(s.world.domains) && !UniqueDomains(After(s, steps).world.domains)
  {
    var s, env := Abandoned(domain, gone, here), Answered(Lost(NotFound));
    var steps := [Create(ClusterSpec(domain, here), {}), Reconcile(0, env)];
    var s1 := Next(s, steps[0]);
    assert steps[..1] == [steps[0]] && [steps[0]][..0] == [];
    assert After(s, [steps[0]]) == s1;
    assert After(s, steps) == Next(s1, steps[1]);
    RunsAreSound(s, [steps[0]]);
    var o := s1.store[0];
    assert Registers(s1.world, o, env) by {
      assert ClusterFetch(s1.world.clusters, env.fetch0, env.fetch1)(0) == Answer(env.fetch0, Ok(s1.world.clusters));
      assert AtAddress(here)(s1.world.clusters[0]);
    }
    var w1 := SeenBy(s1.world, o, env);
    assert Repairs(w1, s1.store, 0, o.spec, env) by {
      assert ForDomain(domain)(w1.domains[0]);
      assert !AtAddress(gone)(w1.clusters[0]);
      assert ClusterFetch(w1.clusters, env.targetFetch0, env.targetFetch1)(0) == Answer(env.targetFetch0, Ok(w1.clusters));
      assert ClusterFetch(w1.clusters, env.targetFetch0, env.targetFetch1)(1) == Answer(env.targetFetch1, Ok(w1.clusters));
    }
    StepKeepsUniqueIff(s1, steps[1]);
  }
}
