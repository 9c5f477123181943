/** Self-healing of a Network and its NetworkResource. */
module NetworkHealing {
  import opened Api
  import opened Records
  import opened Kube
  import opened Mirror
  import opened NetworkMirror

  datatype Pair = Pair(world: NetWorld, networks: NetworkStore, resources: ResourceStore)

  type NetworkDelete = Delete<NetWorld, NetworkSpec, NetworkStatus>
  type ResourceDelete = Delete<NetWorld, ResourceSpec, ResourceStatus>

  function NetworkApply(env: NetEnv): Apply<NetWorld, NetworkSpec, NetworkStatus> {
    (w: NetWorld, store: NetworkStore, uid: Uid) =>
      if uid in store then AppliedNetwork(w, store[uid].spec, store[uid].status, env)
      else Applied(w, NetworkStatus(NO_ID), Some(Other))
  }

  function ResourceApply(parents: NetworkStore, env: ResEnv): Apply<NetWorld, ResourceSpec, ResourceStatus> {
    (w: NetWorld, store: ResourceStore, uid: Uid) =>
      if uid in store then AppliedResource(w, parents, store[uid].spec, store[uid].status, env)
      else Applied(w, ResourceStatus(NO_ID, NO_ID), Some(Other))
  }

  const QUIET: NetEnv := NetEnv(Fine, Fine, Fine)

  function QuietWith(groups: seq<Id>): ResEnv {
    ResEnv(Fine, Ok(groups), Fine, Fine, Fine)
  }

  /** A failure-free reconcile of the parent n, then of the child r. */
  function Round(p: Pair, n: Uid, r: Uid, groups: seq<Id>, ndel: NetworkDelete, rdel: ResourceDelete): Pair {
    var a := ReconcileStep(p.world, p.networks, n, NETWORK_FINALIZER, NetworkApply(QUIET), ndel, ALL_FINE);
    var b := ReconcileStep(a.world, p.resources, r, RESOURCE_FINALIZER, ResourceApply(a.store, QuietWith(groups)), rdel, ALL_FINE);
    Pair(b.world, a.store, b.store)
  }

  ghost predicate Sound(w: NetWorld) {
    WellFormed(w.networks, w.nextId) && WellFormed(w.resources, w.nextId)
  }

  /** Both objects are alive and the child refers to the parent; nothing is said
      about what they have recorded or what NetBird still holds. */
  ghost predicate Live(p: Pair, n: Uid, r: Uid) {
    && Sound(p.world) && n in p.networks && !p.networks[n].deleting
    && r in p.resources && !p.resources[r].deleting && p.resources[r].spec.networkRef == n
  }

  ghost predicate ParentHealed(w: NetWorld, networks: NetworkStore, n: Uid)
    requires n in networks
  {
    && Rec(networks[n].status.networkID, NetworkRequest(networks[n].spec)) in w.networks
    && NetworkAsked(networks[n].spec, NetworkRequest(networks[n].spec))
    && NETWORK_FINALIZER in networks[n].finalizers && networks[n].condition == Ready
  }

  /** The recorded ids are valid, the child sits in the parent's current network,
      and NetBird holds exactly what the specs ask for. */
  ghost predicate Healed(p: Pair, n: Uid, r: Uid, groups: seq<Id>) {
    && Live(p, n, r) && ParentHealed(p.world, p.networks, n)
    && var t := p.resources[r].status;
       && t.networkID == p.networks[n].status.networkID
       && Rec(t.resourceID, ResourceRequest(t.networkID, p.resources[r].spec, groups)) in p.world.resources
       && ResourceAsked(p.resources[r].spec, t.networkID, groups, ResourceRequest(t.networkID, p.resources[r].spec, groups))
       && RESOURCE_FINALIZER in p.resources[r].finalizers && p.resources[r].condition == Ready
  }

  /** The contents a Network spec asks for. */
  ghost predicate NetworkAsked(spec: NetworkSpec, n: Network) {
    n.name == spec.name && n.description == if spec.description == "" then None else Some(spec.description)
  }

  /** The contents a NetworkResource spec asks for, in a network. */
  ghost predicate ResourceAsked(spec: ResourceSpec, network: Id, groups: seq<Id>, r: Resource) {
    && r.network == network && r.name == spec.name && r.address == spec.address && r.enabled == spec.enabled && r.groups == groups
    && r.description == if spec.description == "" then None else Some(spec.description)
  }

  /** The recorded id is empty, or a GET says that it names nothing. */
  predicate Gone(recorded: Id, present: bool, get: Fault) {
    recorded == NO_ID || (if get.Fine? then !present else get.err == NotFound)
  }

  /** A GET failed with something else. */
  predicate Unclear(recorded: Id, get: Fault) {
    recorded != NO_ID && !get.Fine? && get.err != NotFound
  }

  /** How applyNetwork ends, for any answers: a network is created only when the
      recorded one is gone, and updated otherwise; an unclear answer changes nothing. */
  lemma NetworkEnds(w: NetWorld, spec: NetworkSpec, status: NetworkStatus, env: NetEnv)
    ensures var a := AppliedNetwork(w, spec, status, env);
            var gone := Gone(status.networkID, Has(w.networks, status.networkID), env.get);
            && (Unclear(status.networkID, env.get) ==> a.world == w && a.status == status && a.err == Some(env.get.err))
            && (|a.world.networks| > |w.networks| <==> gone && !env.create.Lost?)
            && (a.err.None? <==> if Unclear(status.networkID, env.get) then false else if gone then env.create.Fine? else env.update.Fine?)
            && (gone && a.err.None? ==> a.status.networkID == w.nextId)
            && (!gone && !Unclear(status.networkID, env.get) ==> a.status == status)
            && (gone && a.err.Some? ==> a.status.networkID == NO_ID)
            && a.world.resources == w.resources
  {
  }

  /** How applyNetworkResource ends: a parent that is missing or has no id is a missing
      dependency and nothing is called; otherwise as above, under the parent's id, with
      what was recorded under another network forgotten. */
  lemma ResourceEnds(w: NetWorld, parents: NetworkStore, spec: ResourceSpec, status: ResourceStatus, env: ResEnv)
    ensures var a := AppliedResource(w, parents, spec, status, env);
            var waits := if env.getParent.Fine? then spec.networkRef !in parents || parents[spec.networkRef].status.networkID == NO_ID
                         else env.getParent.err == NotFound;
            var answered := !waits && env.getParent.Fine?;
            && (waits ==> a == Applied(w, status, Some(NotReady)))
            && (!waits && !answered ==> a == Applied(w, status, Some(env.getParent.err)))
            && (answered && env.groups.Fail? ==> a.world == w && a.err == Some(env.groups.err))
            && (answered ==> a.status.networkID == parents[spec.networkRef].status.networkID)
  {
  }

  lemma ResourceCreatesIff(w: NetWorld, parents: NetworkStore, spec: ResourceSpec, status: ResourceStatus, env: ResEnv)
    requires spec.networkRef in parents && parents[spec.networkRef].status.networkID != NO_ID && env.getParent.Fine? && env.groups.Ok?
    ensures var a := AppliedResource(w, parents, spec, status, env);
            var net := parents[spec.networkRef].status.networkID;
            var recorded := if status.networkID == NO_ID || status.networkID == net then status.resourceID else NO_ID;
            var gone := Gone(recorded, InNetwork(w.resources, net, recorded), env.get);
            && (Unclear(recorded, env.get) ==> a.world == w && a.err == Some(env.get.err))
            && (|a.world.resources| > |w.resources| <==> gone && !env.create.Lost? && Has(w.networks, net))
            && (a.err.None? <==>
                if Unclear(recorded, env.get) then false
                else if gone then env.create.Fine? && Has(w.networks, net)
                else env.update.Fine?)
            && (!gone && !Unclear(recorded, env.get) ==> a.status.resourceID == recorded)
  {
  }

  lemma NetworkHeals(w: NetWorld, spec: NetworkSpec, status: NetworkStatus)
    requires Sound(w)
    ensures var a := AppliedNetwork(w, spec, status, QUIET);
            && a.err.None? && Sound(a.world) && Rec(a.status.networkID, NetworkRequest(spec)) in a.world.networks
            && NetworkAsked(spec, NetworkRequest(spec)) && a.world.resources == w.resources
            && (Rec(status.networkID, NetworkRequest(spec)) in w.networks ==> a.world == w && a.status == status)
  {
    PutKeepsWellFormed(w.networks, status.networkID, NetworkRequest(spec), w.nextId);
    AppendKeepsWellFormed(w.networks, w.nextId, w.nextId + 1, NetworkRequest(spec));
    if Rec(status.networkID, NetworkRequest(spec)) in w.networks {
      PutOfSame(w.networks, status.networkID, NetworkRequest(spec), w.nextId);
    }
    var a := AppliedNetwork(w, spec, status, QUIET);
    if !Has(w.networks, status.networkID) || status.networkID == NO_ID {
      assert a.world.networks[|w.networks|] == Rec(w.nextId, NetworkRequest(spec));
    }
  }

  lemma UpsertHeals(w: NetWorld, req: Resource, id: Id, env: ResEnv)
    requires Sound(w) && Has(w.networks, req.network) && env.update.Fine? && env.create.Fine?
    requires id != NO_ID ==> InNetwork(w.resources, req.network, id)
    ensures var a := UpsertResource(w, req, id, env);
            && a.err.None? && Sound(a.world) && a.world.networks == w.networks && a.status.networkID == req.network
            && Rec(a.status.resourceID, req) in a.world.resources
            && (Rec(id, req) in w.resources ==> a.world == w && a.status.resourceID == id)
  {
    PutKeepsWellFormed(w.resources, id, req, w.nextId);
    AppendKeepsWellFormed(w.resources, w.nextId, w.nextId + 1, req);
    if id == NO_ID {
      assert UpsertResource(w, req, id, env).world.resources[|w.resources|] == Rec(w.nextId, req);
    }
    if Rec(id, req) in w.resources {
      PutOfSame(w.resources, id, req, w.nextId);
    }
  }

  lemma ResourceHeals(w: NetWorld, parents: NetworkStore, n: Uid, spec: ResourceSpec, status: ResourceStatus, groups: seq<Id>)
    requires Sound(w) && n in parents && spec.networkRef == n && ParentHealed(w, parents, n)
    ensures var a := AppliedResource(w, parents, spec, status, QuietWith(groups));
            var net := parents[n].status.networkID;
            && a.err.None? && Sound(a.world) && a.world.networks == w.networks && a.status.networkID == net
            && Rec(a.status.resourceID, ResourceRequest(net, spec, groups)) in a.world.resources
            && ResourceAsked(spec, net, groups, ResourceRequest(net, spec, groups))
            && (status.networkID == net && Rec(status.resourceID, ResourceRequest(net, spec, groups)) in w.resources ==>
                  a.world == w && a.status == status)
  {
    var net := parents[n].status.networkID;
    var req := ResourceRequest(net, spec, groups);
    PutOfSame(w.networks, net, NetworkRequest(parents[n].spec), w.nextId);
    var recorded := if status.networkID != NO_ID && status.networkID != net then NO_ID else status.resourceID;
    if Rec(recorded, req) in w.resources {
      PutOfSame(w.resources, recorded, req, w.nextId);
      var i :| 0 <= i < |w.resources| && w.resources[i] == Rec(recorded, req);
      assert InNetwork(w.resources, net, recorded);
    }
    var id := if recorded != NO_ID && InNetwork(w.resources, net, recorded) then recorded else NO_ID;
    UpsertHeals(w, req, id, QuietWith(groups));
    assert AppliedResource(w, parents, spec, status, QuietWith(groups)) == UpsertResource(w, req, id, QuietWith(groups));
  }

  /** From any state at all, one failure-free round heals parent and child. */
  lemma OneRoundHeals(p: Pair, n: Uid, r: Uid, groups: seq<Id>, ndel: NetworkDelete, rdel: ResourceDelete)
    requires Live(p, n, r)
    ensures Healed(Round(p, n, r, groups, ndel, rdel), n, r, groups)
  {
    NetworkHeals(p.world, p.networks[n].spec, p.networks[n].status);
    var a := ReconcileStep(p.world, p.networks, n, NETWORK_FINALIZER, NetworkApply(QUIET), ndel, ALL_FINE);
    assert a.store[n].spec == p.networks[n].spec;
    ResourceHeals(a.world, a.store, n, p.resources[r].spec, p.resources[r].status, groups);
  }

  /** A healed state is a fixpoint: another round changes no id and no content. */
  lemma HealedIsFixpoint(p: Pair, n: Uid, r: Uid, groups: seq<Id>, ndel: NetworkDelete, rdel: ResourceDelete)
    requires Healed(p, n, r, groups)
    ensures Round(p, n, r, groups, ndel, rdel) == p
  {
    NetworkHeals(p.world, p.networks[n].spec, p.networks[n].status);
    var a := ReconcileStep(p.world, p.networks, n, NETWORK_FINALIZER, NetworkApply(QUIET), ndel, ALL_FINE);
    UnchangedIfReady(p.networks, n, NETWORK_FINALIZER);
    assert a.world == p.world && a.store == p.networks;
    ResourceHeals(p.world, p.networks, n, p.resources[r].spec, p.resources[r].status, groups);
    UnchangedIfReady(p.resources, r, RESOURCE_FINALIZER);
  }
}
