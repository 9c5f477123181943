/** The DNSZone mirror (internal/controller/dnszone_mirror.go): adopt a NetBird
    zone by name or create one, and delete it only as the last object standing. */
module DNSZone {
  import opened Api
  import opened Records
  import opened ListCaches
  import opened Kube
  import opened Mirror

  datatype ZoneSpec = ZoneSpec(name: string, domain: string, searchDomain: Option<bool>, enabled: bool)

  datatype ZoneStatus = ZoneStatus(zoneID: Id)

  const BLANK: ZoneStatus := ZoneStatus(NO_ID)

  const FINALIZER: string := "finalizers.netbird.io/dnszone"

  /** What NetBird stores for a zone. */
  datatype Zone = Zone(name: string, domain: string, groups: seq<Id>, search: bool, enabled: bool)

  datatype ZoneWorld = ZoneWorld(zones: seq<Rec<Zone>>, nextId: Id, cache: Cache<Rec<Zone>>)

  /** The answers one reconcile will get. groups is what resolving the
      distribution groups yields; now is the clock of the cached name lookup. */
  datatype ZoneEnv = ZoneEnv(
    groups: Reply<seq<Id>>, now: int, get: Fault, fetch0: Fault, fetch1: Fault,
    update: Fault, create: Fault, list: Fault, delete: Fault)

  function Request(spec: ZoneSpec, groups: seq<Id>): Zone {
    Zone(spec.name, spec.domain, groups, if spec.searchDomain.Some? then spec.searchDomain.value else false, spec.enabled)
  }

  function GetReply<T>(rs: seq<Rec<T>>, id: Id, f: Fault): Reply<()> {
    Answer(f, if Has(rs, id) then Ok(()) else Fail(NotFound))
  }

  /** nb.DNSZones.ListZones as the cache's fetch closure. */
  function ZoneFetch(zones: seq<Rec<Zone>>, env: ZoneEnv): Fetch<Rec<Zone>> {
    (k: nat) => Answer(if k == 0 then env.fetch0 else env.fetch1, Ok(zones))
  }

  lemma FetchIsSteady(zones: seq<Rec<Zone>>, env: ZoneEnv)
    ensures forall k: nat :: ZoneFetch(zones, env)(k).Ok? ==> ZoneFetch(zones, env)(k).value == zones
  {
    forall k: nat ensures ZoneFetch(zones, env)(k).Ok? ==> ZoneFetch(zones, env)(k).value == zones {
      assert ZoneFetch(zones, env)(k) == Answer(if k == 0 then env.fetch0 else env.fetch1, Ok(zones));
    }
  }

  function ByName(name: string): Rec<Zone> -> bool {
    (z: Rec<Zone>) => z.body.name == name
  }

  // ---- applyDNSZone ----

  /** The id to update: the recorded one while it still exists, else one adopted
      by name, else none; together with the cache the lookup leaves. */
  function Target(w: ZoneWorld, spec: ZoneSpec, recorded: Id, env: ZoneEnv): (Reply<Id>, Cache<Rec<Zone>>) {
    var verified := VerifyId(recorded, GetReply(w.zones, recorded, env.get));
    if verified.Fail? || verified.value != NO_ID then (verified, w.cache)
    else
      var l := LookedUp(w.cache, env.now, ZoneFetch(w.zones, env), ByName(spec.name));
      match l.found
      case Hit(z) => (Ok(z.id), l.cache)
      case Miss => (Ok(NO_ID), l.cache)
      case Broken(e) => (Fail(e), l.cache)
  }

  function CreateZone(w: ZoneWorld, req: Zone, status: ZoneStatus, f: Fault): Applied<ZoneWorld, ZoneStatus> {
    var w1 := if f.Acts() then w.(zones := w.zones + [Rec(w.nextId, req)], nextId := w.nextId + 1) else w;
    if f.Fine? then Applied(w1, ZoneStatus(w.nextId), None) else Applied(w1, status, Some(f.err))
  }

  function UpdateOrCreate(w: ZoneWorld, req: Zone, status: ZoneStatus, target: Id, env: ZoneEnv)
    : Applied<ZoneWorld, ZoneStatus>
  {
    if target == NO_ID then CreateZone(w, req, status, env.create)
    else
      var reply := GetReply(w.zones, target, env.update);
      var w1 := if env.update.Acts() then w.(zones := Put(w.zones, target, req)) else w;
      if reply.Ok? then Applied(w1, ZoneStatus(target), None)
      else if reply.err != NotFound then Applied(w1, status, Some(reply.err))
      else CreateZone(w1, req, status, env.create)
  }

  function ApplyZone(w: ZoneWorld, spec: ZoneSpec, status: ZoneStatus, env: ZoneEnv): Applied<ZoneWorld, ZoneStatus> {
    if env.groups.Fail? then Applied(w, status, Some(env.groups.err))
    else
      var (target, cache) := Target(w, spec, status.zoneID, env);
      if target.Fail? then Applied(w.(cache := cache), status, Some(target.err))
      else UpdateOrCreate(w.(cache := cache), Request(spec, env.groups.value), status, target.value, env)
  }

  // ---- deleteDNSZone ----

  /** Another live object owns the zone: it has recorded the same id, or it
      declares the zone's live name and has not adopted it yet. */
  predicate SharedByOther(store: Store<ZoneSpec, ZoneStatus>, uid: Uid, zoneID: Id, liveName: string) {
    AnotherLive(store, uid, (o: Object<ZoneSpec, ZoneStatus>) =>
      o.spec.name == liveName || (zoneID != NO_ID && o.status.zoneID == zoneID))
  }

  function DeleteZone(w: ZoneWorld, store: Store<ZoneSpec, ZoneStatus>, uid: Uid, status: ZoneStatus, env: ZoneEnv)
    : Deleted<ZoneWorld>
  {
    var id := status.zoneID;
    if id == NO_ID then Deleted(w, None)
    else
      var got := GetReply(w.zones, id, env.get);
      if got.Fail? then Deleted(w, if got.err == NotFound then None else Some(got.err))
      else if !env.list.Fine? then Deleted(w, Some(env.list.err))
      else if SharedByOther(store, uid, id, Get(w.zones, id).body.name) then Deleted(w, None)
      else Deleted(if env.delete.Acts() then w.(zones := Remove(w.zones, id)) else w, env.delete.Error())
  }

  function ApplyClosure(env: ZoneEnv): Apply<ZoneWorld, ZoneSpec, ZoneStatus> {
    (w: ZoneWorld, store: Store<ZoneSpec, ZoneStatus>, uid: Uid) =>
      if uid in store then ApplyZone(w, store[uid].spec, store[uid].status, env) else Applied(w, BLANK, Some(Other))
  }

  function DeleteClosure(env: ZoneEnv): Delete<ZoneWorld, ZoneSpec, ZoneStatus> {
    (w: ZoneWorld, store: Store<ZoneSpec, ZoneStatus>, uid: Uid) =>
      if uid in store then DeleteZone(w, store, uid, store[uid].status, env) else Deleted(w, None)
  }

  /** The two operations in the form the operator runs them. */
  class ZoneClient {
    var zones: seq<Rec<Zone>>
    var nextId: Id
    const cache: ListCache<Rec<Zone>>

    function World(): ZoneWorld reads this, cache { ZoneWorld(zones, nextId, cache.State()) }

    constructor ()
      ensures World() == ZoneWorld([], 1, Cache([], false, 0)) && fresh(cache)
    {
      cache := new ListCache<Rec<Zone>>();
      zones, nextId := [], 1;
    }

    method Create(req: Zone, f: Fault) returns (r: Reply<Id>)
      modifies this
      ensures World() == CreateZone(old(World()), req, BLANK, f).world
      ensures r == if f.Fine? then Ok(old(nextId)) else Fail(f.err)
    {
      r := if f.Fine? then Ok(nextId) else Fail(f.err);
      if !f.Lost? {
        zones := zones + [Rec(nextId, req)];
        nextId := nextId + 1;
      }
    }

    method ApplyDNSZone(spec: ZoneSpec, status: ZoneStatus, env: ZoneEnv) returns (status': ZoneStatus, err: Option<Err>)
      modifies this, cache
      ensures Applied(World(), status', err) == ApplyZone(old(World()), spec, status, env)
    {
      status' := status;
      if env.groups.Fail? {
        return status, Some(env.groups.err);
      }
      var req := Request(spec, env.groups.value);
      var verified := VerifyId(status.zoneID, GetReply(zones, status.zoneID, env.get));
      if verified.Fail? {
        return status, Some(verified.err);
      }
      var zoneID := verified.value;
      if zoneID == NO_ID {
        var existing, _ := cache.Lookup(env.now, ZoneFetch(zones, env), ByName(spec.name));
        match existing {
          case Hit(z) => zoneID := z.id;
          case Miss =>
          case Broken(e) => return status, Some(e);
        }
      }
      if zoneID != NO_ID {
        var reply := GetReply(zones, zoneID, env.update);
        if !env.update.Lost? {
          zones := Put(zones, zoneID, req);
        }
        if reply.Ok? {
          return ZoneStatus(zoneID), None;
        }
        if reply.err != NotFound {
          return status, Some(reply.err);
        }
      }
      var created := Create(req, env.create);
      if created.Fail? {
        return status, Some(created.err);
      }
      return ZoneStatus(created.value), None;
    }

    method DeleteDNSZone(store: Store<ZoneSpec, ZoneStatus>, uid: Uid, status: ZoneStatus, env: ZoneEnv)
      returns (err: Option<Err>)
      modifies this
      ensures Deleted(World(), err) == DeleteZone(old(World()), store, uid, status, env)
    {
      if status.zoneID == NO_ID {
        return None;
      }
      var got := GetReply(zones, status.zoneID, env.get);
      if got.Fail? {
        return if got.err == NotFound then None else Some(got.err);
      }
      var zoneName := Get(zones, status.zoneID).body.name;
      if !env.list.Fine? {
        return Some(env.list.err);
      }
      var shared := ScanLive(store, uid, (o: Object<ZoneSpec, ZoneStatus>) =>
        o.spec.name == zoneName || (status.zoneID != NO_ID && o.status.zoneID == status.zoneID));
      if shared {
        return None;
      }
      if !env.delete.Lost? {
        zones := Remove(zones, status.zoneID);
      }
      return env.delete.Error();
    }
  }
}
