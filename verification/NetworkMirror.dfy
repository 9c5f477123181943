/** Network and NetworkResource (internal/controller/network_mirror.go and
    internal/controller/networkresource_mirror.go): a parent and a child that
    heal themselves after deletions behind the operator's back. */
module NetworkMirror {
  import opened Api
  import opened Records
  import opened Kube
  import opened Mirror

  datatype NetworkSpec = NetworkSpec(name: string, description: string)
  datatype NetworkStatus = NetworkStatus(networkID: Id)
  datatype ResourceSpec = ResourceSpec(networkRef: Uid, name: string, description: string, address: string, enabled: bool)
  datatype ResourceStatus = ResourceStatus(networkID: Id, resourceID: Id)

  type NetworkStore = Store<NetworkSpec, NetworkStatus>
  type ResourceStore = Store<ResourceSpec, ResourceStatus>

  /** What NetBird stores; a resource lives in one network. */
  datatype Network = Network(name: string, description: Option<string>)
  datatype Resource = Resource(
    network: Id, name: string, description: Option<string>, address: string, enabled: bool, groups: seq<Id>)

  datatype NetWorld = NetWorld(networks: seq<Rec<Network>>, resources: seq<Rec<Resource>>, nextId: Id)

  const NETWORK_FINALIZER: string := "finalizers.netbird.io/network"
  const RESOURCE_FINALIZER: string := "finalizers.netbird.io/networkresource"

  datatype NetEnv = NetEnv(get: Fault, update: Fault, create: Fault)

  datatype ResEnv = ResEnv(getParent: Fault, groups: Reply<seq<Id>>, get: Fault, update: Fault, create: Fault)

  function Described(description: string): Option<string> {
    if description == "" then None else Some(description)
  }

  function NetworkRequest(spec: NetworkSpec): Network {
    Network(spec.name, Described(spec.description))
  }

  function ResourceRequest(network: Id, spec: ResourceSpec, groups: seq<Id>): Resource {
    Resource(network, spec.name, Described(spec.description), spec.address, spec.enabled, groups)
  }

  function Found(present: bool, f: Fault): Reply<()> {
    Answer(f, if present then Ok(()) else Fail(NotFound))
  }

  // ---- applyNetwork ----

  function AppliedNetwork(w: NetWorld, spec: NetworkSpec, status: NetworkStatus, env: NetEnv): Applied<NetWorld, NetworkStatus> {
    var verified := VerifyId(status.networkID, Found(Has(w.networks, status.networkID), env.get));
    if verified.Fail? then Applied(w, status, Some(verified.err))
    else if verified.value != NO_ID then
      var id := verified.value;
      var reply := Found(Has(w.networks, id), env.update);
      var w1 := if env.update.Acts() then w.(networks := Put(w.networks, id, NetworkRequest(spec))) else w;
      Applied(w1, NetworkStatus(id), if reply.Ok? then None else Some(reply.err))
    else
      var w1 := if env.create.Acts() then w.(networks := w.networks + [Rec(w.nextId, NetworkRequest(spec))], nextId := w.nextId + 1) else w;
      if env.create.Fine? then Applied(w1, NetworkStatus(w.nextId), None)
      else Applied(w1, NetworkStatus(NO_ID), Some(env.create.err))
  }

  // ---- applyNetworkResource ----

  /** The parent's recorded id, or not-ready while there is none. */
  function ResolveNetworkID(parents: NetworkStore, ref: Uid, f: Fault): Reply<Id> {
    if !f.Fine? then Fail(if f.err == NotFound then NotReady else f.err)
    else if ref !in parents || parents[ref].status.networkID == NO_ID then Fail(NotReady)
    else Ok(parents[ref].status.networkID)
  }

  predicate InNetwork(resources: seq<Rec<Resource>>, network: Id, id: Id) {
    exists i :: 0 <= i < |resources| && resources[i].id == id && resources[i].body.network == network
  }

  function AppliedResource(w: NetWorld, parents: NetworkStore, spec: ResourceSpec, status: ResourceStatus, env: ResEnv)
    : Applied<NetWorld, ResourceStatus>
  {
    var parent := ResolveNetworkID(parents, spec.networkRef, env.getParent);
    if parent.Fail? then Applied(w, status, Some(parent.err))
    else
      var net := parent.value;
      var recorded := if status.networkID != NO_ID && status.networkID != net then NO_ID else status.resourceID;
      if env.groups.Fail? then Applied(w, ResourceStatus(net, recorded), Some(env.groups.err))
      else
        var verified := VerifyId(recorded, Found(InNetwork(w.resources, net, recorded), env.get));
        if verified.Fail? then Applied(w, ResourceStatus(net, NO_ID), Some(verified.err))
        else UpsertResource(w, ResourceRequest(net, spec, env.groups.value), verified.value, env)
  }

  function UpsertResource(w: NetWorld, req: Resource, id: Id, env: ResEnv): Applied<NetWorld, ResourceStatus> {
    if id != NO_ID then
      var present := InNetwork(w.resources, req.network, id);
      var reply := Found(present, env.update);
      var w1 := if env.update.Acts() && present then w.(resources := Put(w.resources, id, req)) else w;
      Applied(w1, ResourceStatus(req.network, id), if reply.Ok? then None else Some(reply.err))
    else
      var reply := Found(Has(w.networks, req.network), env.create);
      var w1 := if env.create.Acts() && Has(w.networks, req.network)
                then w.(resources := w.resources + [Rec(w.nextId, req)], nextId := w.nextId + 1) else w;
      if reply.Ok? then Applied(w1, ResourceStatus(req.network, w.nextId), None)
      else Applied(w1, ResourceStatus(req.network, NO_ID), Some(reply.err))
  }

  class NetworkClient {
    var networks: seq<Rec<Network>>
    var resources: seq<Rec<Resource>>
    var nextId: Id

    function World(): NetWorld reads this { NetWorld(networks, resources, nextId) }

    constructor ()
      ensures World() == NetWorld([], [], 1)
    {
      networks, resources, nextId := [], [], 1;
    }

    method ApplyNetwork(spec: NetworkSpec, status: NetworkStatus, env: NetEnv) returns (status': NetworkStatus, err: Option<Err>)
      modifies this
      ensures Applied(World(), status', err) == AppliedNetwork(old(World()), spec, status, env)
    {
      status' := status;
      var verified := VerifyId(status.networkID, Found(Has(networks, status.networkID), env.get));
      if verified.Fail? {
        return status, Some(verified.err);
      }
      status' := NetworkStatus(verified.value);
      if status'.networkID != NO_ID {
        var reply := Found(Has(networks, status'.networkID), env.update);
        if !env.update.Lost? {
          networks := Put(networks, status'.networkID, NetworkRequest(spec));
        }
        return status', if reply.Fail? then Some(reply.err) else None;
      }
      var id := nextId;
      if !env.create.Lost? {
        networks := networks + [Rec(id, NetworkRequest(spec))];
        nextId := nextId + 1;
      }
      if !env.create.Fine? {
        return status', Some(env.create.err);
      }
      return NetworkStatus(id), None;
    }

    method ApplyNetworkResource(parents: NetworkStore, spec: ResourceSpec, status: ResourceStatus, env: ResEnv)
      returns (status': ResourceStatus, err: Option<Err>)
      modifies this
      ensures Applied(World(), status', err) == AppliedResource(old(World()), parents, spec, status, env)
    {
      status' := status;
      var parent := ResolveNetworkID(parents, spec.networkRef, env.getParent);
      if parent.Fail? {
        return status, Some(parent.err);
      }
      if status.networkID != NO_ID && status.networkID != parent.value {
        status' := status'.(resourceID := NO_ID);
      }
      status' := status'.(networkID := parent.value);
      if env.groups.Fail? {
        return status', Some(env.groups.err);
      }
      var req := ResourceRequest(parent.value, spec, env.groups.value);
      var verified := VerifyId(status'.resourceID, Found(InNetwork(resources, parent.value, status'.resourceID), env.get));
      if verified.Fail? {
        return status'.(resourceID := NO_ID), Some(verified.err);
      }
      status' := status'.(resourceID := verified.value);
      if status'.resourceID != NO_ID {
        var present := InNetwork(resources, parent.value, status'.resourceID);
        var reply := Found(present, env.update);
        if !env.update.Lost? && present {
          resources := Put(resources, status'.resourceID, req);
        }
        return status', if reply.Fail? then Some(reply.err) else None;
      }
      var created := Found(Has(networks, parent.value), env.create);
      var id := nextId;
      if !env.create.Lost? && Has(networks, parent.value) {
        resources := resources + [Rec(id, req)];
        nextId := nextId + 1;
      }
      if created.Fail? {
        return status', Some(created.err);
      }
      return status'.(resourceID := id), None;
    }
  }
}
