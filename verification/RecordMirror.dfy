/** DNSRecord (internal/controller/dnsrecord_mirror.go): reset on a new parent,
    verify, adopt, update or create; and its self-healing under a DNSZone. */
module RecordMirror {
  import opened Api
  import opened Records
  import opened ListCaches
  import opened Kube
  import opened Mirror
  import opened ServiceAddr
  import Z = DNSZone
  import ZR = ZoneRuns

  datatype RecordSpec = RecordSpec(zoneRef: Uid, name: string, type_: string, content: string, ttl: int)
  datatype RecordStatus = RecordStatus(zoneID: Id, recordID: Id)

  type ZoneStore = Store<Z.ZoneSpec, Z.ZoneStatus>
  type RecordStore = Store<RecordSpec, RecordStatus>

  /** What NetBird stores; a record lives in one zone. */
  datatype DnsRecord = DnsRecord(zone: Id, name: string, type_: string, content: string, ttl: int)

  datatype DnsWorld = DnsWorld(zone: Z.ZoneWorld, records: seq<Rec<DnsRecord>>, nextRecordId: Id)

  const FINALIZER: string := "finalizers.netbird.io/dnsrecord"

  datatype RecordEnv = RecordEnv(getParent: Fault, get: Fault, list: Fault, update: Fault, create: Fault)

  function Request(zone: Id, spec: RecordSpec): DnsRecord {
    DnsRecord(zone, spec.name, spec.type_, spec.content, spec.ttl)
  }

  function ResolveZoneID(parents: ZoneStore, ref: Uid, f: Fault): Reply<Id> {
    if !f.Fine? then Fail(if f.err == NotFound then NotReady else f.err)
    else if ref !in parents || parents[ref].status.zoneID == NO_ID then Fail(NotReady)
    else Ok(parents[ref].status.zoneID)
  }

  predicate InZone(records: seq<Rec<DnsRecord>>, zone: Id, id: Id) {
    exists i :: 0 <= i < |records| && records[i].id == id && records[i].body.zone == zone
  }

  /** nb.DNSZones.ListRecords. */
  function ZoneRecords(records: seq<Rec<DnsRecord>>, zone: Id): (r: seq<Rec<DnsRecord>>)
    ensures forall x :: x in r <==> x in records && x.body.zone == zone
  {
    if records == [] then []
    else
      assert forall x :: x in records <==> x == records[0] || x in records[1..];
      (if records[0].body.zone == zone then [records[0]] else []) + ZoneRecords(records[1..], zone)
  }

  /** A listed record stands for the spec: same name and same match key. */
  function Adoptable(ip: IpText, spec: RecordSpec): Rec<DnsRecord> -> bool {
    (x: Rec<DnsRecord>) =>
      x.body.name == spec.name && RecordMatchKey(ip, x.body.type_, x.body.content) == RecordMatchKey(ip, spec.type_, spec.content)
  }

  function Adopted(ip: IpText, records: seq<Rec<DnsRecord>>, zone: Id, spec: RecordSpec): Id {
    match Scan(ZoneRecords(records, zone), Adoptable(ip, spec))
    case Some(x) => x.id
    case None => NO_ID
  }

  /** NetBird already holds a record with the same name, type and content in this zone. */
  predicate Duplicate(records: seq<Rec<DnsRecord>>, req: DnsRecord) {
    exists i :: 0 <= i < |records| && records[i].body.zone == req.zone && records[i].body.name == req.name
                && records[i].body.type_ == req.type_ && records[i].body.content == req.content
  }

  /** The server's answer to a create: the zone must exist, and an identical
      record is a conflict. */
  function CreateReply(w: DnsWorld, req: DnsRecord): Reply<()> {
    if !Has(w.zone.zones, req.zone) then Fail(NotFound)
    else if Duplicate(w.records, req) then Fail(Conflict)
    else Ok(())
  }

  function CreateRecord(w: DnsWorld, req: DnsRecord, id: Id, f: Fault): Applied<DnsWorld, RecordStatus> {
    var reply := CreateReply(w, req);
    var w1 := if f.Acts() && reply.Ok? then w.(records := w.records + [Rec(w.nextRecordId, req)], nextRecordId := w.nextRecordId + 1) else w;
    if f.Fine? && reply.Ok? then Applied(w1, RecordStatus(req.zone, w.nextRecordId), None)
    else Applied(w1, RecordStatus(req.zone, id), Some(if f.Fine? then reply.err else f.err))
  }

  function UpsertRecord(w: DnsWorld, req: DnsRecord, id: Id, env: RecordEnv): Applied<DnsWorld, RecordStatus> {
    if id == NO_ID then CreateRecord(w, req, id, env.create)
    else
      var present := InZone(w.records, req.zone, id);
      var w1 := if env.update.Acts() && present then w.(records := Put(w.records, id, req)) else w;
      var reply := Answer(env.update, if present then Ok(()) else Fail(NotFound));
      if reply.Ok? then Applied(w1, RecordStatus(req.zone, id), None)
      else if reply.err != NotFound then Applied(w1, RecordStatus(req.zone, id), Some(reply.err))
      else CreateRecord(w1, req, id, env.create)
  }

  function AppliedRecord(ip: IpText, w: DnsWorld, parents: ZoneStore, spec: RecordSpec, status: RecordStatus, env: RecordEnv)
    : Applied<DnsWorld, RecordStatus>
  {
    var parent := ResolveZoneID(parents, spec.zoneRef, env.getParent);
    if parent.Fail? then Applied(w, status, Some(parent.err))
    else
      var zone := parent.value;
      var recorded := if status.zoneID != NO_ID && status.zoneID != zone then NO_ID else status.recordID;
      var verified := VerifyId(recorded, Answer(env.get, if InZone(w.records, zone, recorded) then Ok(()) else Fail(NotFound)));
      if verified.Fail? then Applied(w, RecordStatus(zone, NO_ID), Some(verified.err))
      else if verified.value == NO_ID && !env.list.Fine? then Applied(w, RecordStatus(zone, NO_ID), Some(env.list.err))
      else
        var id := if verified.value == NO_ID then Adopted(ip, w.records, zone, spec) else verified.value;
        UpsertRecord(w, Request(zone, spec), id, env)
  }

  // ---- deleteDNSRecord ----

  /** Deletes whatever record the status names; nobody else is asked. */
  function DeleteRecord(w: DnsWorld, status: RecordStatus, f: Fault): Deleted<DnsWorld> {
    if status.recordID == NO_ID || status.zoneID == NO_ID then Deleted(w, None)
    else
      var present := InZone(w.records, status.zoneID, status.recordID);
      Deleted(if f.Acts() && present then w.(records := Remove(w.records, status.recordID)) else w,
              if !f.Fine? then Some(f.err) else if present then None else Some(NotFound))
  }

  class RecordClient {
    var zone: Z.ZoneWorld
    var records: seq<Rec<DnsRecord>>
    var nextRecordId: Id

    function World(): DnsWorld reads this { DnsWorld(zone, records, nextRecordId) }

    constructor (zone: Z.ZoneWorld)
      ensures World() == DnsWorld(zone, [], 1)
    {
      this.zone, records, nextRecordId := zone, [], 1;
    }

    method ApplyDNSRecord(ip: IpText, parents: ZoneStore, spec: RecordSpec, status: RecordStatus, env: RecordEnv)
      returns (status': RecordStatus, err: Option<Err>)
      modifies this
      ensures Applied(World(), status', err) == AppliedRecord(ip, old(World()), parents, spec, status, env)
    {
      status' := status;
      var parent := ResolveZoneID(parents, spec.zoneRef, env.getParent);
      if parent.Fail? {
        return status, Some(parent.err);
      }
      var zoneID := parent.value;
      if status.zoneID != NO_ID && status.zoneID != zoneID {
        status' := status'.(recordID := NO_ID);
      }
      status' := status'.(zoneID := zoneID);
      var got := Answer(env.get, if InZone(records, zoneID, status'.recordID) then Ok(()) else Fail(NotFound));
      var verified := VerifyId(status'.recordID, got);
      status' := status'.(recordID := if verified.Ok? then verified.value else NO_ID);
      if verified.Fail? {
        return status', Some(verified.err);
      }
      if status'.recordID == NO_ID {
        if !env.list.Fine? {
          return status', Some(env.list.err);
        }
        var id := Adopt(ip, zoneID, spec);
        status' := status'.(recordID := id);
      }
      status', err := UpdateOrCreate(Request(zoneID, spec), status'.recordID, env);
    }

    method DeleteDNSRecord(status: RecordStatus, f: Fault) returns (err: Option<Err>)
      modifies this
      ensures Deleted(World(), err) == DeleteRecord(old(World()), status, f)
    {
      if status.recordID == NO_ID || status.zoneID == NO_ID {
        return None;
      }
      var reply := Answer(f, if InZone(records, status.zoneID, status.recordID) then Ok(()) else Fail(NotFound));
      if !f.Lost? && InZone(records, status.zoneID, status.recordID) {
        records := Remove(records, status.recordID);
      }
      return if reply.Ok? then None else Some(reply.err);
    }

    /** Takes over the first listed record that stands for the spec. */
    method Adopt(ip: IpText, zoneID: Id, spec: RecordSpec) returns (id: Id)
      ensures id == Adopted(ip, records, zoneID, spec)
    {
      var listed := ZoneRecords(records, zoneID);
      var want := RecordMatchKey(ip, spec.type_, spec.content);
      for i := 0 to |listed|
        invariant Scan(listed, Adoptable(ip, spec)) == Scan(listed[i..], Adoptable(ip, spec))
      {
        assert listed[i..][1..] == listed[i + 1..];
        if listed[i].body.name == spec.name && RecordMatchKey(ip, listed[i].body.type_, listed[i].body.content) == want {
          return listed[i].id;
        }
      }
      return NO_ID;
    }

    method UpdateOrCreate(req: DnsRecord, id: Id, env: RecordEnv) returns (status': RecordStatus, err: Option<Err>)
      modifies this
      ensures Applied(World(), status', err) == UpsertRecord(old(World()), req, id, env)
    {
      status' := RecordStatus(req.zone, id);
      if id != NO_ID {
        var present := InZone(records, req.zone, id);
        if !env.update.Lost? && present {
          records := Put(records, id, req);
        }
        var reply := Answer(env.update, if present then Ok(()) else Fail(NotFound));
        if reply.Ok? {
          return status', None;
        }
        if reply.err != NotFound {
          return status', Some(reply.err);
        }
      }
      var reply := CreateReply(World(), req);
      var fresh_ := nextRecordId;
      if !env.create.Lost? && reply.Ok? {
        records := records + [Rec(fresh_, req)];
        nextRecordId := nextRecordId + 1;
      }
      if !env.create.Fine? {
        return status', Some(env.create.err);
      }
      if reply.Fail? {
        return status', Some(reply.err);
      }
      return RecordStatus(req.zone, fresh_), None;
    }
  }

  // ---- Self-healing of a DNSZone and its DNSRecord ----

  datatype Pair = Pair(world: DnsWorld, zones: ZoneStore, records: RecordStore)

  type ZoneDelete = Delete<Z.ZoneWorld, Z.ZoneSpec, Z.ZoneStatus>
  type RecordDelete = Delete<DnsWorld, RecordSpec, RecordStatus>

  function RecordApply(ip: IpText, parents: ZoneStore, env: RecordEnv): Apply<DnsWorld, RecordSpec, RecordStatus> {
    (w: DnsWorld, store: RecordStore, uid: Uid) =>
      if uid in store then AppliedRecord(ip, w, parents, store[uid].spec, store[uid].status, env)
      else Applied(w, RecordStatus(NO_ID, NO_ID), Some(Other))
  }

  const QUIET: RecordEnv := RecordEnv(Fine, Fine, Fine, Fine, Fine)

  function QuietZone(groups: seq<Id>, now: int): Z.ZoneEnv {
    Z.ZoneEnv(Ok(groups), now, Fine, Fine, Fine, Fine, Fine, Fine, Fine)
  }

  /** A failure-free reconcile of the zone z at time now, then of its record r.
      The zone's name lookup goes through the cache, which may be stale. */
  function Round(ip: IpText, p: Pair, z: Uid, r: Uid, groups: seq<Id>, now: int, zdel: ZoneDelete, rdel: RecordDelete): Pair {
    var a := ReconcileStep(p.world.zone, p.zones, z, Z.FINALIZER, Z.ApplyClosure(QuietZone(groups, now)), zdel, ALL_FINE);
    var b := ReconcileStep(p.world.(zone := a.world), p.records, r, FINALIZER, RecordApply(ip, a.store, QUIET), rdel, ALL_FINE);
    Pair(b.world, a.store, b.store)
  }

  ghost predicate Sound(w: DnsWorld) {
    ZR.WorldOk(w.zone) && WellFormed(w.records, w.nextRecordId)
  }

  ghost predicate Live(p: Pair, z: Uid, r: Uid) {
    && Sound(p.world) && z in p.zones && !p.zones[z].deleting
    && r in p.records && !p.records[r].deleting && p.records[r].spec.zoneRef == z
  }

  /** The contents a DNSZone spec asks for. */
  ghost predicate ZoneAsked(spec: Z.ZoneSpec, groups: seq<Id>, z: Z.Zone) {
    z.name == spec.name && z.domain == spec.domain && z.groups == groups && z.search == (spec.searchDomain == Some(true))
    && z.enabled == spec.enabled
  }

  /** The contents a DNSRecord spec asks for, in a zone. */
  ghost predicate RecordAsked(spec: RecordSpec, zone: Id, r: DnsRecord) {
    r.zone == zone && r.name == spec.name && r.type_ == spec.type_ && r.content == spec.content && r.ttl == spec.ttl
  }

  ghost predicate ParentHealed(w: Z.ZoneWorld, zones: ZoneStore, z: Uid, groups: seq<Id>)
    requires z in zones
  {
    && Rec(zones[z].status.zoneID, Z.Request(zones[z].spec, groups)) in w.zones
    && ZoneAsked(zones[z].spec, groups, Z.Request(zones[z].spec, groups))
    && Z.FINALIZER in zones[z].finalizers && zones[z].condition == Ready
  }

  ghost predicate Healed(p: Pair, z: Uid, r: Uid, groups: seq<Id>) {
    && Live(p, z, r) && ParentHealed(p.world.zone, p.zones, z, groups)
    && var t := p.records[r].status;
       && t.zoneID == p.zones[z].status.zoneID
       && Rec(t.recordID, Request(t.zoneID, p.records[r].spec)) in p.world.records
       && RecordAsked(p.records[r].spec, t.zoneID, Request(t.zoneID, p.records[r].spec))
       && FINALIZER in p.records[r].finalizers && p.records[r].condition == Ready
  }

  lemma ZoneHeals(w: Z.ZoneWorld, spec: Z.ZoneSpec, status: Z.ZoneStatus, groups: seq<Id>, now: int)
    requires ZR.WorldOk(w)
    ensures var env := QuietZone(groups, now);
            var a := Z.ApplyZone(w, spec, status, env);
            && a.err.None? && ZR.WorldOk(a.world) && Rec(a.status.zoneID, Z.Request(spec, groups)) in a.world.zones
            && ZoneAsked(spec, groups, Z.Request(spec, groups))
            && (Rec(status.zoneID, Z.Request(spec, groups)) in w.zones ==> a.world == w && a.status == status)
  {
    var env := QuietZone(groups, now);
    ZR.ApplyFacts(w, spec, status, env);
    ZR.QuietLookup(w, spec, env);
    if Rec(status.zoneID, Z.Request(spec, groups)) in w.zones {
      PutOfSame(w.zones, status.zoneID, Z.Request(spec, groups), w.nextId);
    }
  }

  /** A record stands for a spec exactly when name, type and content agree, an address
      in any spelling. */
  lemma AdoptableMeans(ip: IpText, spec: RecordSpec, x: Rec<DnsRecord>)
    requires RoundTrips(ip) && NoBar(spec.type_) && NoBar(x.body.type_)
    ensures Adoptable(ip, spec)(x) <==>
            x.body.name == spec.name && x.body.type_ == spec.type_ && SameContent(ip, x.body.content, spec.content)
  {
    RecordMatchKeyIsExact(ip, x.body.type_, x.body.content, spec.type_, spec.content);
  }

  /** How applyDNSRecord ends: a zone that is missing or has no id is a missing
      dependency and nothing is called; a failing GET or list changes nothing. */
  lemma RecordEnds(ip: IpText, w: DnsWorld, parents: ZoneStore, spec: RecordSpec, status: RecordStatus, env: RecordEnv)
    ensures var a := AppliedRecord(ip, w, parents, spec, status, env);
            var waits := if env.getParent.Fine? then spec.zoneRef !in parents || parents[spec.zoneRef].status.zoneID == NO_ID
                         else env.getParent.err == NotFound;
            var answered := !waits && env.getParent.Fine?;
            && (waits ==> a == Applied(w, status, Some(NotReady)))
            && (!waits && !answered ==> a == Applied(w, status, Some(env.getParent.err)))
            && (answered ==> a.status.zoneID == parents[spec.zoneRef].status.zoneID)
  {
  }

  /** The update of a record was answered with "not found". */
  predicate UpdateDenied(w: DnsWorld, zone: Id, id: Id, update: Fault) {
    if update.Fine? then !InZone(w.records, zone, id) else update.err == NotFound
  }

  /** How the update or the create ends: an update that is answered settles it, one that
      is denied is followed by a create, and any other error is returned. */
  lemma UpsertEnds(w: DnsWorld, req: DnsRecord, id: Id, env: RecordEnv)
    ensures var a := UpsertRecord(w, req, id, env);
            var present := InZone(w.records, req.zone, id);
            var written := if id != NO_ID && !env.update.Lost? && present then w.(records := Put(w.records, id, req)) else w;
            var creates := id == NO_ID || UpdateDenied(w, req.zone, id, env.update);
            var accepted := CreateReply(written, req).Ok?;
            && (|a.world.records| > |w.records| <==> creates && !env.create.Lost? && accepted)
            && (!creates ==> a.world == written && a.status == RecordStatus(req.zone, id) && a.err == env.update.Error())
            && (creates ==> (a.err.None? <==> env.create.Fine? && accepted))
            && (creates && a.err.None? ==> a.status == RecordStatus(req.zone, w.nextRecordId))
            && (creates && a.err.Some? ==> a.status == RecordStatus(req.zone, id))
  {
  }

  /** How applyDNSRecord goes on once the zone's id is known: the recorded record while a
      GET finds it, else the first stand-in, else none; an unclear GET or list changes
      nothing. */
  lemma RecordGoesOn(ip: IpText, w: DnsWorld, parents: ZoneStore, spec: RecordSpec, status: RecordStatus, env: RecordEnv)
    requires spec.zoneRef in parents && parents[spec.zoneRef].status.zoneID != NO_ID && env.getParent.Fine?
    ensures var a := AppliedRecord(ip, w, parents, spec, status, env);
            var zone := parents[spec.zoneRef].status.zoneID;
            var recorded := if status.zoneID == NO_ID || status.zoneID == zone then status.recordID else NO_ID;
            var kept := recorded != NO_ID && env.get.Fine? && InZone(w.records, zone, recorded);
            var unclear := recorded != NO_ID && !env.get.Fine? && env.get.err != NotFound;
            && (unclear ==> a == Applied(w, RecordStatus(zone, NO_ID), Some(env.get.err)))
            && (!unclear && !kept && !env.list.Fine? ==> a == Applied(w, RecordStatus(zone, NO_ID), Some(env.list.err)))
            && (kept ==> a == UpsertRecord(w, Request(zone, spec), recorded, env))
            && (!unclear && !kept && env.list.Fine? ==> a == UpsertRecord(w, Request(zone, spec), Adopted(ip, w.records, zone, spec), env))
  {
  }

  /** What is adopted is a record of the zone, and when nothing is, no identical
      record exists, so the create cannot be refused as a duplicate. */
  lemma AdoptionFacts(ip: IpText, w: DnsWorld, zone: Id, spec: RecordSpec)
    requires Sound(w)
    ensures var id := Adopted(ip, w.records, zone, spec);
            && (id != NO_ID ==> InZone(w.records, zone, id))
            && (id == NO_ID ==> !Duplicate(w.records, Request(zone, spec)))
  {
    var listed := ZoneRecords(w.records, zone);
    var found := Scan(listed, Adoptable(ip, spec));
    if found.Some? {
      assert found.value in listed;
      assert found.value in w.records && found.value.body.zone == zone;
      var i :| 0 <= i < |w.records| && w.records[i] == found.value;
    } else {
      forall i | 0 <= i < |w.records| && w.records[i].body.zone == zone && w.records[i].body.name == spec.name
        ensures w.records[i].body.type_ != spec.type_ || w.records[i].body.content != spec.content
      {
        assert w.records[i] in listed;
        var k :| 0 <= k < |listed| && listed[k] == w.records[i];
        assert !Adoptable(ip, spec)(listed[k]);
      }
    }
  }

  lemma UpsertHeals(w: DnsWorld, req: DnsRecord, id: Id)
    requires Sound(w) && Has(w.zone.zones, req.zone)
    requires if id == NO_ID then !Duplicate(w.records, req) else InZone(w.records, req.zone, id)
    ensures var a := UpsertRecord(w, req, id, QUIET);
            && a.err.None? && Sound(a.world) && a.world.zone == w.zone && a.status.zoneID == req.zone
            && Rec(a.status.recordID, req) in a.world.records
            && (Rec(id, req) in w.records ==> a.world == w && a.status.recordID == id)
  {
    if id == NO_ID {
      CreateHeals(w, req);
    } else {
      UpdateHeals(w, req, id);
    }
  }

  lemma CreateHeals(w: DnsWorld, req: DnsRecord)
    requires Sound(w) && Has(w.zone.zones, req.zone) && !Duplicate(w.records, req)
    ensures var a := CreateRecord(w, req, NO_ID, Fine);
            && a.err.None? && Sound(a.world) && a.world.zone == w.zone && a.status.zoneID == req.zone
            && Rec(a.status.recordID, req) in a.world.records
  {
    AppendKeepsWellFormed(w.records, w.nextRecordId, w.nextRecordId + 1, req);
    assert CreateRecord(w, req, NO_ID, Fine).world.records[|w.records|] == Rec(w.nextRecordId, req);
  }

  lemma UpdateHeals(w: DnsWorld, req: DnsRecord, id: Id)
    requires Sound(w) && id != NO_ID && InZone(w.records, req.zone, id)
    ensures var w' := w.(records := Put(w.records, id, req));
            Sound(w') && Rec(id, req) in w'.records && (Rec(id, req) in w.records ==> w' == w)
  {
    PutKeepsWellFormed(w.records, id, req, w.nextRecordId);
    var i :| 0 <= i < |w.records| && w.records[i].id == id && w.records[i].body.zone == req.zone;
    assert Put(w.records, id, req)[i] == Rec(id, req);
    if Rec(id, req) in w.records {
      PutOfSame(w.records, id, req, w.nextRecordId);
    }
  }

  lemma RecordHeals(ip: IpText, w: DnsWorld, parents: ZoneStore, z: Uid, spec: RecordSpec, status: RecordStatus, groups: seq<Id>)
    requires Sound(w) && z in parents && spec.zoneRef == z && ParentHealed(w.zone, parents, z, groups)
    ensures var a := AppliedRecord(ip, w, parents, spec, status, QUIET);
            var zone := parents[z].status.zoneID;
            && a.err.None? && Sound(a.world) && a.world.zone == w.zone && a.status.zoneID == zone
            && Rec(a.status.recordID, Request(zone, spec)) in a.world.records && RecordAsked(spec, zone, Request(zone, spec))
            && (status.zoneID == zone && Rec(status.recordID, Request(zone, spec)) in w.records ==>
                  a.world == w && a.status == status)
  {
    var zone := parents[z].status.zoneID;
    var req := Request(zone, spec);
    PutOfSame(w.zone.zones, zone, Z.Request(parents[z].spec, groups), w.zone.nextId);
    var recorded := if status.zoneID != NO_ID && status.zoneID != zone then NO_ID else status.recordID;
    if Rec(recorded, req) in w.records {
      PutOfSame(w.records, recorded, req, w.nextRecordId);
      var i :| 0 <= i < |w.records| && w.records[i] == Rec(recorded, req);
      assert InZone(w.records, zone, recorded);
    }
    AdoptionFacts(ip, w, zone, spec);
    var id := if recorded != NO_ID && InZone(w.records, zone, recorded) then recorded else Adopted(ip, w.records, zone, spec);
    UpsertHeals(w, req, id);
    assert AppliedRecord(ip, w, parents, spec, status, QUIET) == UpsertRecord(w, req, id, QUIET);
  }

  /** From any state at all, with the zone cache as stale as it likes, one
      failure-free round heals the zone and its record. */
  lemma OneRoundHeals(ip: IpText, p: Pair, z: Uid, r: Uid, groups: seq<Id>, now: int, zdel: ZoneDelete, rdel: RecordDelete)
    requires Live(p, z, r)
    ensures Healed(Round(ip, p, z, r, groups, now, zdel, rdel), z, r, groups)
  {
    ZoneHeals(p.world.zone, p.zones[z].spec, p.zones[z].status, groups, now);
    var a := ReconcileStep(p.world.zone, p.zones, z, Z.FINALIZER, Z.ApplyClosure(QuietZone(groups, now)), zdel, ALL_FINE);
    assert a.store[z].spec == p.zones[z].spec;
    RecordHeals(ip, p.world.(zone := a.world), a.store, z, p.records[r].spec, p.records[r].status, groups);
  }

  lemma HealedIsFixpoint(ip: IpText, p: Pair, z: Uid, r: Uid, groups: seq<Id>, now: int, zdel: ZoneDelete, rdel: RecordDelete)
    requires Healed(p, z, r, groups)
    ensures Round(ip, p, z, r, groups, now, zdel, rdel) == p
  {
    ZoneHeals(p.world.zone, p.zones[z].spec, p.zones[z].status, groups, now);
    var a := ReconcileStep(p.world.zone, p.zones, z, Z.FINALIZER, Z.ApplyClosure(QuietZone(groups, now)), zdel, ALL_FINE);
    UnchangedIfReady(p.zones, z, Z.FINALIZER);
    assert a.world == p.world.zone && a.store == p.zones;
    RecordHeals(ip, p.world, p.zones, z, p.records[r].spec, p.records[r].status, groups);
    UnchangedIfReady(p.records, r, FINALIZER);
  }
}
