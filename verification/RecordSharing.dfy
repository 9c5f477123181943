/** DNSRecord objects that share one NetBird record: when they come to, when the
    deletion of one takes the record from another, and that the other gets it back
    (internal/controller/dnsrecord_mirror.go). */
module RecordSharing {
  import opened Api
  import opened Records
  import opened ListCaches
  import opened Kube
  import opened Mirror
  import opened ServiceAddr
  import opened RecordMirror
  import Z = DNSZone

  function ZoneRequest(parents: ZoneStore, z: Uid, groups: seq<Id>): Z.Zone
    requires z in parents
  {
    Z.Request(parents[z].spec, groups)
  }

  /** The record a status names is there. */
  predicate Held(w: DnsWorld, status: RecordStatus) {
    status.recordID != NO_ID && status.zoneID != NO_ID && InZone(w.records, status.zoneID, status.recordID)
  }

  /** x is the first record of the zone that stands for the spec. */
  ghost predicate FirstStandIn(ip: IpText, w: DnsWorld, zone: Id, spec: RecordSpec, x: Rec<DnsRecord>) {
    FirstMatch(ZoneRecords(w.records, zone), Adoptable(ip, spec), x)
  }

  lemma AdoptsFirstStandIn(ip: IpText, w: DnsWorld, zone: Id, spec: RecordSpec, x: Rec<DnsRecord>)
    requires Sound(w) && x in w.records && x.body.zone == zone
    ensures Adopted(ip, w.records, zone, spec) == x.id <==> FirstStandIn(ip, w, zone, spec, x)
  {
    var listed := ZoneRecords(w.records, zone);
    var found := Scan(listed, Adoptable(ip, spec));
    if found.Some? {
      assert found.value in w.records by { assert found.value in listed; }
      if found.value.id == x.id {
        SameId(w.records, w.nextRecordId, found.value, x);
      }
      if FirstStandIn(ip, w, zone, spec, x) {
        FirstIsOne(listed, Adoptable(ip, spec), found.value, x);
      }
    }
  }

  lemma FirstIsOne<T>(items: seq<T>, match_: T -> bool, x: T, y: T)
    requires FirstMatch(items, match_, x) && FirstMatch(items, match_, y)
    ensures x == y
  {
    var i :| 0 <= i < |items| && items[i] == x && match_(x) && forall j :: 0 <= j < i ==> !match_(items[j]);
    var k :| 0 <= k < |items| && items[k] == y && match_(y) && forall j :: 0 <= j < k ==> !match_(items[j]);
    assert i == k;
  }

  /** An object that has recorded nothing comes to share the existing record x, in
      a failure-free apply, exactly when x is the first record of the zone with its
      name, type and content. */
  lemma SharesIff(ip: IpText, w: DnsWorld, parents: ZoneStore, z: Uid, spec: RecordSpec, status: RecordStatus, groups: seq<Id>, x: Rec<DnsRecord>)
    requires Sound(w) && z in parents && spec.zoneRef == z && ParentHealed(w.zone, parents, z, groups) && status.recordID == NO_ID
    requires x in w.records && x.body.zone == parents[z].status.zoneID
    ensures AppliedRecord(ip, w, parents, spec, status, QUIET).status.recordID == x.id <==>
            FirstStandIn(ip, w, parents[z].status.zoneID, spec, x)
  {
    var zone := parents[z].status.zoneID;
    PutOfSame(w.zone.zones, zone, ZoneRequest(parents, z, groups), w.zone.nextId);
    AdoptionFacts(ip, w, zone, spec);
    AdoptsFirstStandIn(ip, w, zone, spec, x);
    var id := Adopted(ip, w.records, zone, spec);
    assert AppliedRecord(ip, w, parents, spec, status, QUIET) == UpsertRecord(w, Request(zone, spec), id, QUIET);
    var i :| 0 <= i < |w.records| && w.records[i] == x;
    assert x.id < w.nextRecordId;
  }

  lemma InZoneIsThere(records: seq<Rec<DnsRecord>>, next: Id, zone: Id, id: Id) returns (x: Rec<DnsRecord>)
    requires WellFormed(records, next) && InZone(records, zone, id)
    ensures x in records && x.id == id && x.body.zone == zone
    ensures forall y :: y in records && y.id == id ==> y == x
  {
    var i :| 0 <= i < |records| && records[i].id == id && records[i].body.zone == zone;
    x := records[i];
    forall y | y in records && y.id == id ensures y == x {
      SameId(records, next, y, x);
    }
  }

  /** The deletion of one object takes the record another one holds exactly when
      they have recorded the same record, of the same zone, and the call takes
      effect. There is no check for other owners. */
  lemma DeleteTakesIff(w: DnsWorld, mine: RecordStatus, theirs: RecordStatus, f: Fault)
    requires Sound(w) && Held(w, theirs)
    ensures !Held(DeleteRecord(w, mine, f).world, theirs) <==> !f.Lost? && mine == theirs
    ensures DeleteRecord(w, mine, f).err.None? <==> mine.recordID == NO_ID || mine.zoneID == NO_ID || (f.Fine? && Held(w, mine))
  {
    var x := InZoneIsThere(w.records, w.nextRecordId, theirs.zoneID, theirs.recordID);
    var after := DeleteRecord(w, mine, f).world.records;
    RemoveKeepsWellFormed(w.records, mine.recordID, w.nextRecordId);
    if !f.Lost? && mine == theirs {
      assert after == Remove(w.records, mine.recordID);
    } else {
      assert x in after by {
        if after != w.records {
          var y := InZoneIsThere(w.records, w.nextRecordId, mine.zoneID, mine.recordID);
          assert x.id != mine.recordID;
        }
      }
      var i :| 0 <= i < |after| && after[i] == x;
    }
  }

  lemma DeleteKeepsSound(w: DnsWorld, status: RecordStatus, f: Fault)
    requires Sound(w)
    ensures Sound(DeleteRecord(w, status, f).world) && DeleteRecord(w, status, f).world.zone == w.zone
  {
    RemoveKeepsWellFormed(w.records, status.recordID, w.nextRecordId);
  }

  /** Whatever a deletion took, the next failure-free apply of the surviving object
      restores: its status names a record of the current zone with its contents. */
  lemma TakenRecordIsRestored(ip: IpText, w: DnsWorld, parents: ZoneStore, z: Uid, spec: RecordSpec, theirs: RecordStatus, groups: seq<Id>,
                              mine: RecordStatus, f: Fault)
    requires Sound(w) && z in parents && spec.zoneRef == z && ParentHealed(w.zone, parents, z, groups)
    ensures var a := AppliedRecord(ip, DeleteRecord(w, mine, f).world, parents, spec, theirs, QUIET);
            && a.err.None? && Held(a.world, a.status) && a.status.zoneID == parents[z].status.zoneID
            && Rec(a.status.recordID, Request(a.status.zoneID, spec)) in a.world.records
  {
    DeleteKeepsSound(w, mine, f);
    RecordHeals(ip, DeleteRecord(w, mine, f).world, parents, z, spec, theirs, groups);
    var a := AppliedRecord(ip, DeleteRecord(w, mine, f).world, parents, spec, theirs, QUIET);
    var x := Rec(a.status.recordID, Request(a.status.zoneID, spec));
    var i :| 0 <= i < |a.world.records| && a.world.records[i] == x;
    var k :| 0 <= k < |w.zone.zones| && w.zone.zones[k] == Rec(parents[z].status.zoneID, ZoneRequest(parents, z, groups));
  }

  /** It happens: of two objects with the same name, type and content, the second
      adopts what the first created, and the deletion of the first takes it. */
  lemma TwinLosesItsRecord(ip: IpText, w: DnsWorld, parents: ZoneStore, z: Uid, spec: RecordSpec, groups: seq<Id>)
    requires Sound(w) && z in parents && spec.zoneRef == z && ParentHealed(w.zone, parents, z, groups)
    ensures var blank := RecordStatus(NO_ID, NO_ID);
            var a := AppliedRecord(ip, w, parents, spec, blank, QUIET);
            var b := AppliedRecord(ip, a.world, parents, spec, blank, QUIET);
            && a.err.None? && b.err.None? && Held(b.world, b.status)
            && b.status == a.status && !Held(DeleteRecord(b.world, a.status, Fine).world, b.status)
  {
    var blank := RecordStatus(NO_ID, NO_ID);
    var zone := parents[z].status.zoneID;
    var a := AppliedRecord(ip, w, parents, spec, blank, QUIET);
    var b := AppliedRecord(ip, a.world, parents, spec, blank, QUIET);
    RecordHeals(ip, w, parents, z, spec, blank, groups);
    RecordHeals(ip, a.world, parents, z, spec, blank, groups);
    var x := Rec(a.status.recordID, Request(zone, spec));
    CreatedStandsIn(ip, w, parents, z, spec, groups);
    SharesIff(ip, a.world, parents, z, spec, blank, groups, x);
    AppliedIsHeld(b.world, parents, z, spec, groups, b.status);
    DeleteTakesIff(b.world, a.status, b.status, Fine);
  }

  lemma AppliedIsHeld(w: DnsWorld, parents: ZoneStore, z: Uid, spec: RecordSpec, groups: seq<Id>, status: RecordStatus)
    requires Sound(w) && z in parents && ParentHealed(w.zone, parents, z, groups) && status.zoneID == parents[z].status.zoneID
    requires Rec(status.recordID, Request(status.zoneID, spec)) in w.records
    ensures Held(w, status)
  {
    var i :| 0 <= i < |w.records| && w.records[i] == Rec(status.recordID, Request(status.zoneID, spec));
    var k :| 0 <= k < |w.zone.zones| && w.zone.zones[k] == Rec(status.zoneID, ZoneRequest(parents, z, groups));
  }

  /** After an apply that had nothing recorded, its record is the zone's first stand-in. */
  lemma CreatedStandsIn(ip: IpText, w: DnsWorld, parents: ZoneStore, z: Uid, spec: RecordSpec, groups: seq<Id>)
    requires Sound(w) && z in parents && spec.zoneRef == z && ParentHealed(w.zone, parents, z, groups)
    ensures var a := AppliedRecord(ip, w, parents, spec, RecordStatus(NO_ID, NO_ID), QUIET);
            var zone := parents[z].status.zoneID;
            FirstStandIn(ip, a.world, zone, spec, Rec(a.status.recordID, Request(zone, spec)))
  {
    var zone := parents[z].status.zoneID;
    var req := Request(zone, spec);
    PutOfSame(w.zone.zones, zone, ZoneRequest(parents, z, groups), w.zone.nextId);
    AdoptionFacts(ip, w, zone, spec);
    var id := Adopted(ip, w.records, zone, spec);
    var a := AppliedRecord(ip, w, parents, spec, RecordStatus(NO_ID, NO_ID), QUIET);
    assert a == UpsertRecord(w, req, id, QUIET);
    if id == NO_ID {
      AppendedStandsIn(ip, w.records, zone, spec, Rec(w.nextRecordId, req));
    } else {
      WrittenStandsIn(ip, w, zone, spec, id);
    }
  }

  lemma AppendedStandsIn(ip: IpText, records: seq<Rec<DnsRecord>>, zone: Id, spec: RecordSpec, x: Rec<DnsRecord>)
    requires x.body == Request(zone, spec) && NoMatch(ZoneRecords(records, zone), Adoptable(ip, spec))
    ensures FirstMatch(ZoneRecords(records + [x], zone), Adoptable(ip, spec), x)
  {
    ZoneRecordsOfAppend(records, x, zone);
    var listed := ZoneRecords(records, zone);
    assert Adoptable(ip, spec)(x);
    assert (listed + [x])[|listed|] == x;
  }

  lemma {:induction false} ZoneRecordsOfAppend(records: seq<Rec<DnsRecord>>, x: Rec<DnsRecord>, zone: Id)
    requires x.body.zone == zone
    ensures ZoneRecords(records + [x], zone) == ZoneRecords(records, zone) + [x]
  {
    if records == [] {
      assert records + [x] == [x];
    } else {
      ZoneRecordsOfAppend(records[1..], x, zone);
      assert (records + [x])[1..] == records[1..] + [x];
    }
  }

  lemma {:induction false} ZoneRecordsOfPut(records: seq<Rec<DnsRecord>>, id: Id, req: DnsRecord, zone: Id)
    requires req.zone == zone && forall x :: x in records && x.id == id ==> x.body.zone == zone
    ensures ZoneRecords(Put(records, id, req), zone) == Put(ZoneRecords(records, zone), id, req)
  {
    if records != [] {
      var h, t := records[0], records[1..];
      assert records == [h] + t;
      ZoneRecordsOfPut(t, id, req, zone);
      PutCons(h, t, id, req);
      if h.body.zone == zone {
        PutCons(h, ZoneRecords(t, zone), id, req);
      }
      ZoneRecordsCons(if h.id == id then Rec(id, req) else h, Put(t, id, req), zone);
      ZoneRecordsCons(h, t, zone);
    }
  }

  lemma ZoneRecordsCons(h: Rec<DnsRecord>, t: seq<Rec<DnsRecord>>, zone: Id)
    ensures ZoneRecords([h] + t, zone) == (if h.body.zone == zone then [h] else []) + ZoneRecords(t, zone)
  {
    assert ([h] + t)[1..] == t;
  }

  lemma PutCons(h: Rec<DnsRecord>, t: seq<Rec<DnsRecord>>, id: Id, req: DnsRecord)
    ensures Put([h] + t, id, req) == [if h.id == id then Rec(id, req) else h] + Put(t, id, req)
  {
  }

  lemma WrittenStandsIn(ip: IpText, w: DnsWorld, zone: Id, spec: RecordSpec, id: Id)
    requires Sound(w) && id != NO_ID && id == Adopted(ip, w.records, zone, spec)
    ensures FirstMatch(ZoneRecords(Put(w.records, id, Request(zone, spec)), zone), Adoptable(ip, spec), Rec(id, Request(zone, spec)))
  {
    var req := Request(zone, spec);
    var listed := ZoneRecords(w.records, zone);
    var found := Scan(listed, Adoptable(ip, spec)).value;
    assert found in listed;
    forall x | x in w.records && x.id == id ensures x == found {
      SameId(w.records, w.nextRecordId, x, found);
    }
    ZoneRecordsOfPut(w.records, id, req, zone);
    var i :| 0 <= i < |listed| && listed[i] == found && forall j :: 0 <= j < i ==> !Adoptable(ip, spec)(listed[j]);
    var put := Put(listed, id, req);
    assert put[i] == Rec(id, req) && Adoptable(ip, spec)(put[i]);
    forall j | 0 <= j < i ensures !Adoptable(ip, spec)(put[j]) {
      assert listed[j] in w.records by { assert listed[j] in listed; }
    }
  }
}
