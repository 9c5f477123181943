/** One zone per name: which steps keep it and which break it. */
module ZoneNames {
  import opened Api
  import opened Records
  import opened ListCaches
  import opened Kube
  import M = Mirror
  import opened DNSZone
  import opened ZoneRuns

  ghost predicate UniqueNames(zones: seq<Rec<Zone>>) {
    forall x, y :: x in zones && y in zones && x.body.name == y.body.name ==> x.id == y.id
  }

  predicate Named(zones: seq<Rec<Zone>>, name: string) {
    exists i :: 0 <= i < |zones| && zones[i].body.name == name
  }

  /** A zone other than id bears the name. */
  predicate NamedOther(zones: seq<Rec<Zone>>, id: Id, name: string) {
    exists i :: 0 <= i < |zones| && zones[i].body.name == name && zones[i].id != id
  }

  // ---- Writing and appending ----

  lemma AppendKeepsNamesIff(zones: seq<Rec<Zone>>, nextId: Id, x: Rec<Zone>)
    requires WellFormed(zones, nextId) && nextId <= x.id
    ensures UniqueNames(zones + [x]) <==> UniqueNames(zones) && !Named(zones, x.body.name)
  {
    var all := zones + [x];
    assert x in all && forall z :: z in zones ==> z in all;
    if Named(zones, x.body.name) {
      var i :| 0 <= i < |zones| && zones[i].body.name == x.body.name;
      assert zones[i] in all && zones[i].id != x.id;
    }
  }

  lemma PutKeepsNamesIff(zones: seq<Rec<Zone>>, id: Id, req: Zone)
    requires UniqueNames(zones)
    ensures UniqueNames(Put(zones, id, req)) <==> !(Has(zones, id) && NamedOther(zones, id, req.name))
    ensures Named(Put(zones, id, req), req.name) <==> Has(zones, id) || Named(zones, req.name)
    ensures !Has(zones, id) ==> Put(zones, id, req) == zones
  {
    var after := Put(zones, id, req);
    if Has(zones, id) {
      var k :| 0 <= k < |zones| && zones[k].id == id;
      assert after[k] == Rec(id, req) && after[k] in after;
      if NamedOther(zones, id, req.name) {
        var i :| 0 <= i < |zones| && zones[i].body.name == req.name && zones[i].id != id;
        assert after[i] == zones[i] && after[i] in after;
      } else {
        PutKeepsNames(zones, id, req);
      }
    } else {
      assert after == zones;
    }
  }

  lemma PutKeepsNames(zones: seq<Rec<Zone>>, id: Id, req: Zone)
    requires UniqueNames(zones) && !NamedOther(zones, id, req.name)
    ensures UniqueNames(Put(zones, id, req))
  {
    var after := Put(zones, id, req);
    forall x, y | x in after && y in after && x.body.name == y.body.name ensures x.id == y.id {
      var i, j :| 0 <= i < |zones| && 0 <= j < |zones| && after[i] == x && after[j] == y;
      assert zones[i] in zones && zones[j] in zones;
    }
  }

  // ---- One apply ----

  /** The zone an apply sets out to write: the recorded one while a GET finds it;
      else the zone remembered by the cache under the declared name; else the live
      zone of that name; else none. */
  function Aimed(w: ZoneWorld, name: string, recorded: Id, env: ZoneEnv): Option<Id> {
    if recorded != NO_ID && env.get.Fine? && Has(w.zones, recorded) then Some(recorded)
    else if recorded != NO_ID && !env.get.Fine? && env.get.err != NotFound then None
    else if Fresh(w.cache, env.now) && Scan(w.cache.items, ByName(name)).Some? then Some(Scan(w.cache.items, ByName(name)).value.id)
    else if env.fetch0.Fine? && Scan(w.zones, ByName(name)).Some? then Some(Scan(w.zones, ByName(name)).value.id)
    else None
  }

  lemma ScanByName(items: seq<Rec<Zone>>, name: string)
    ensures Scan(items, ByName(name)).Some? <==> Named(items, name)
    ensures Scan(items, ByName(name)).Some? ==>
              var z := Scan(items, ByName(name)).value; z in items && z.body.name == name
  {
    assert forall i :: 0 <= i < |items| ==> (ByName(name)(items[i]) <==> items[i].body.name == name);
    if Scan(items, ByName(name)).Some? {
      assert ByName(name)(Scan(items, ByName(name)).value);
    }
  }

  /** What the apply does with the zones: aim at one, or create, or nothing. Only
      when no zone bears the name does it create without aiming. */
  lemma AimIsTarget(w: ZoneWorld, spec: ZoneSpec, recorded: Id, env: ZoneEnv)
    requires WorldOk(w)
    ensures var target := Target(w, spec, recorded, env).0;
            match Aimed(w, spec.name, recorded, env)
            case Some(t) => target == Ok(t) && t != NO_ID
            case None => target.Fail? || (target == Ok(NO_ID) && !Named(w.zones, spec.name))
  {
    var fetch := ZoneFetch(w.zones, env);
    assert fetch(0) == Answer(env.fetch0, Ok(w.zones));
    assert fetch(1) == Answer(env.fetch1, Ok(w.zones));
    ScanByName(w.zones, spec.name);
    ScanByName(w.cache.items, spec.name);
  }

  /** The update of t was answered with "not found". */
  predicate Denied(zones: seq<Rec<Zone>>, t: Id, update: Fault) {
    if update.Fine? then !Has(zones, t) else update.err == NotFound
  }

  /** Writing the name to t, and creating a zone of that name if t is denied,
      makes two zones share it. */
  predicate Clashes(zones: seq<Rec<Zone>>, t: Id, name: string, update: Fault, create: Fault) {
    || (Has(zones, t) && update.Acts() && NamedOther(zones, t, name))
    || (Denied(zones, t, update) && create.Acts() && ((Has(zones, t) && update.Acts()) || Named(zones, name)))
  }

  lemma UpdateOrCreateKeepsNamesIff(w: ZoneWorld, req: Zone, status: ZoneStatus, t: Id, env: ZoneEnv)
    requires WorldOk(w) && UniqueNames(w.zones) && t != NO_ID
    ensures UniqueNames(UpdateOrCreate(w, req, status, t, env).world.zones) <==> !Clashes(w.zones, t, req.name, env.update, env.create)
  {
    ResultingZones(w, req, status, t, env);
    WriteThenCreateIff(w.zones, w.nextId, t, req, env.update, env.create);
  }

  function WrittenZones(zones: seq<Rec<Zone>>, t: Id, req: Zone, update: Fault): seq<Rec<Zone>> {
    if update.Acts() then Put(zones, t, req) else zones
  }

  lemma ResultingZones(w: ZoneWorld, req: Zone, status: ZoneStatus, t: Id, env: ZoneEnv)
    requires t != NO_ID
    ensures UpdateOrCreate(w, req, status, t, env).world.zones ==
            WrittenZones(w.zones, t, req, env.update) +
            (if Denied(w.zones, t, env.update) && env.create.Acts() then [Rec(w.nextId, req)] else [])
  {
  }

  lemma WrittenKeepsNamesIff(zones: seq<Rec<Zone>>, nextId: Id, t: Id, req: Zone, update: Fault)
    requires WellFormed(zones, nextId) && UniqueNames(zones)
    ensures var written := WrittenZones(zones, t, req, update);
            && WellFormed(written, nextId)
            && (UniqueNames(written) <==> !(Has(zones, t) && update.Acts() && NamedOther(zones, t, req.name)))
            && (Named(written, req.name) <==> (Has(zones, t) && update.Acts()) || Named(zones, req.name))
  {
    PutKeepsNamesIff(zones, t, req);
    PutKeepsWellFormed(zones, t, req, nextId);
  }

  lemma WriteThenCreateIff(zones: seq<Rec<Zone>>, nextId: Id, t: Id, req: Zone, update: Fault, create: Fault)
    requires WellFormed(zones, nextId) && UniqueNames(zones)
    ensures UniqueNames(WrittenZones(zones, t, req, update) +
                        (if Denied(zones, t, update) && create.Acts() then [Rec(nextId, req)] else [])) <==>
            !Clashes(zones, t, req.name, update, create)
  {
    var written := WrittenZones(zones, t, req, update);
    WrittenKeepsNamesIff(zones, nextId, t, req, update);
    if Denied(zones, t, update) && create.Acts() {
      AppendKeepsNamesIff(written, nextId, Rec(nextId, req));
    } else {
      assert written + [] == written;
    }
  }

  /** The apply makes two zones share the declared name. */
  predicate NameClash(w: ZoneWorld, spec: ZoneSpec, recorded: Id, env: ZoneEnv) {
    var aim := Aimed(w, spec.name, recorded, env);
    env.groups.Ok? && aim.Some? && Clashes(w.zones, aim.value, spec.name, env.update, env.create)
  }

  /** With any answers whatsoever, an apply keeps names unique exactly when it
      does not clash: the condition is one on the recorded id, the live zones, what
      the cache remembers, and the answers. */
  lemma ApplyKeepsNamesIff(w: ZoneWorld, spec: ZoneSpec, status: ZoneStatus, env: ZoneEnv)
    requires WorldOk(w) && UniqueNames(w.zones)
    ensures UniqueNames(ApplyZone(w, spec, status, env).world.zones) <==> !NameClash(w, spec, status.zoneID, env)
  {
    if env.groups.Ok? {
      var req := Request(spec, env.groups.value);
      var (target, cache) := Target(w, spec, status.zoneID, env);
      TargetFacts(w, spec, status.zoneID, env);
      AimIsTarget(w, spec, status.zoneID, env);
      var w1 := w.(cache := cache);
      if Aimed(w, spec.name, status.zoneID, env).Some? {
        UpdateOrCreateKeepsNamesIff(w1, req, status, target.value, env);
      } else if target.Ok? {
        AppendKeepsNamesIff(w.zones, w.nextId, Rec(w.nextId, req));
      }
    }
  }

  /** The zone to write is determined: a GET, if one is needed, finds the recorded
      zone or says that it is gone, and then the name lookup, if one is needed, is
      answered. */
  predicate Determined(w: ZoneWorld, name: string, recorded: Id, env: ZoneEnv) {
    && (recorded == NO_ID || env.get.Fine? || env.get.err == NotFound)
    && ((recorded != NO_ID && env.get.Fine? && Has(w.zones, recorded)) ||
        (Fresh(w.cache, env.now) && Named(w.cache.items, name)) ||
        (if Fresh(w.cache, env.now) then env.fetch0.Fine? else env.fetch0.Fine? && (Named(w.zones, name) || env.fetch1.Fine?)))
  }

  lemma DeterminedIff(w: ZoneWorld, spec: ZoneSpec, recorded: Id, env: ZoneEnv)
    requires WorldOk(w)
    ensures Target(w, spec, recorded, env).0.Ok? <==> Determined(w, spec.name, recorded, env)
  {
    var fetch := ZoneFetch(w.zones, env);
    assert fetch(0) == Answer(env.fetch0, Ok(w.zones));
    assert fetch(1) == Answer(env.fetch1, Ok(w.zones));
    ScanByName(w.zones, spec.name);
    ScanByName(w.cache.items, spec.name);
  }

  /** With any answers: an apply succeeds exactly when the groups resolve, the zone to
      write is determined, and it is updated, or created because there is none or the
      update was denied. */
  lemma ApplySucceedsIff(w: ZoneWorld, spec: ZoneSpec, status: ZoneStatus, env: ZoneEnv)
    requires WorldOk(w)
    ensures ApplyZone(w, spec, status, env).err.None? <==>
            && env.groups.Ok? && Determined(w, spec.name, status.zoneID, env)
            && (match Aimed(w, spec.name, status.zoneID, env)
                case None => env.create.Fine?
                case Some(t) => (env.update.Fine? && Has(w.zones, t)) || (Denied(w.zones, t, env.update) && env.create.Fine?))
  {
    DeterminedIff(w, spec, status.zoneID, env);
    AimIsTarget(w, spec, status.zoneID, env);
  }

  ghost predicate Answered(env: ZoneEnv) {
    env.groups.Ok? && env.get.Fine? && env.fetch0.Fine? && env.fetch1.Fine? && env.update.Fine? && env.create.Fine?
  }

  /** With every call answered: two zones share the name afterwards exactly when a
      zone other than the recorded one bears it, or, with none recorded or the
      recorded one gone, a zone other than the one a fresh cache remembers. */
  lemma NamesStayUniqueIff(w: ZoneWorld, spec: ZoneSpec, status: ZoneStatus, env: ZoneEnv)
    requires WorldOk(w) && UniqueNames(w.zones) && Answered(env)
    ensures UniqueNames(ApplyZone(w, spec, status, env).world.zones) <==>
            !(if status.zoneID != NO_ID && Has(w.zones, status.zoneID) then NamedOther(w.zones, status.zoneID, spec.name)
              else && Fresh(w.cache, env.now) && Scan(w.cache.items, ByName(spec.name)).Some?
                   && NamedOther(w.zones, Scan(w.cache.items, ByName(spec.name)).value.id, spec.name))
  {
    ApplyKeepsNamesIff(w, spec, status, env);
    ScanByName(w.zones, spec.name);
    AnsweredClashIff(w.zones, spec.name, env);
  }

  lemma AnsweredClashIff(zones: seq<Rec<Zone>>, name: string, env: ZoneEnv)
    requires Answered(env) && UniqueNames(zones)
    ensures forall t :: Clashes(zones, t, name, env.update, env.create) <==> NamedOther(zones, t, name)
    ensures forall z :: z in zones && z.body.name == name ==> !NamedOther(zones, z.id, name)
  {
    forall t ensures Clashes(zones, t, name, env.update, env.create) <==> NamedOther(zones, t, name) {
      if !Has(zones, t) && Named(zones, name) {
        var i :| 0 <= i < |zones| && zones[i].body.name == name;
        assert zones[i].id != t;
      }
    }
    forall z | z in zones && z.body.name == name ensures !NamedOther(zones, z.id, name) {
      forall i | 0 <= i < |zones| && zones[i].body.name == name ensures zones[i].id == z.id {
        assert zones[i] in zones;
      }
    }
  }

  /** An expired cache, with nothing recorded or the recorded zone gone, never
      clashes while the calls are answered. */
  lemma FreshLookupNeverClashes(w: ZoneWorld, spec: ZoneSpec, status: ZoneStatus, env: ZoneEnv)
    requires WorldOk(w) && UniqueNames(w.zones) && Answered(env)
    requires !Fresh(w.cache, env.now) && (status.zoneID == NO_ID || !Has(w.zones, status.zoneID))
    ensures UniqueNames(ApplyZone(w, spec, status, env).world.zones)
  {
    NamesStayUniqueIff(w, spec, status, env);
  }

  // ---- Every step and every run ----

  /** The step makes two zones share a name. */
  predicate Clashing(s: Zones, step: ZoneStep) {
    match step
    case ZoneAppears(zone) => Named(s.world.zones, zone.name)
    case ZoneEdited(id, zone) => Has(s.world.zones, id) && NamedOther(s.world.zones, id, zone.name)
    case Reconcile(uid, env, patches) =>
      && uid in s.store && !s.store[uid].deleting && patches.add.Fine?
      && NameClash(s.world, s.store[uid].spec, s.store[uid].status.zoneID, env)
    case _ => false
  }

  lemma LiveWorld(s: Zones, uid: Uid, env: ZoneEnv, patches: M.Patches)
    requires uid in s.store && !s.store[uid].deleting
    ensures Next(s, Reconcile(uid, env, patches)).world ==
            if patches.add.Fine? then ApplyZone(s.world, s.store[uid].spec, s.store[uid].status, env).world else s.world
  {
  }

  lemma RemoveKeepsNames(zones: seq<Rec<Zone>>, id: Id)
    requires UniqueNames(zones)
    ensures UniqueNames(Remove(zones, id))
  {
  }

  lemma StepKeepsNamesIff(s: Zones, step: ZoneStep)
    requires Safe(s) && UniqueNames(s.world.zones)
    ensures UniqueNames(Next(s, step).world.zones) <==> !Clashing(s, step)
  {
    match step
    case Reconcile(uid, env, patches) =>
      if uid in s.store {
        ReconcileKeepsNamesIff(s, uid, env, patches);
      }
    case ZoneAppears(zone) => AppendKeepsNamesIff(s.world.zones, s.world.nextId, Rec(s.world.nextId, zone));
    case ZoneEdited(id, zone) => PutKeepsNamesIff(s.world.zones, id, zone);
    case _ =>
  }

  lemma ReconcileKeepsNamesIff(s: Zones, uid: Uid, env: ZoneEnv, patches: M.Patches)
    requires Safe(s) && UniqueNames(s.world.zones) && uid in s.store
    ensures UniqueNames(Next(s, Reconcile(uid, env, patches)).world.zones) <==> !Clashing(s, Reconcile(uid, env, patches))
  {
    if s.store[uid].deleting {
      var s' := QuietShape(s, uid, env, patches);
      RemoveKeepsNames(s.world.zones, s.store[uid].status.zoneID);
    } else {
      LiveWorld(s, uid, env, patches);
      ApplyKeepsNamesIff(s.world, s.store[uid].spec, s.store[uid].status, env);
    }
  }

  ghost predicate AlwaysUnique(s: Zones, steps: seq<ZoneStep>) {
    forall k :: 0 <= k <= |steps| ==> UniqueNames(After(s, steps[..k]).world.zones)
  }

  ghost predicate NeverClashing(s: Zones, steps: seq<ZoneStep>) {
    forall k :: 0 <= k < |steps| ==> !Clashing(After(s, steps[..k]), steps[k])
  }

  lemma AlwaysUniqueGrows(s: Zones, steps: seq<ZoneStep>, step: ZoneStep)
    ensures AlwaysUnique(s, steps + [step]) <==> AlwaysUnique(s, steps) && UniqueNames(After(s, steps + [step]).world.zones)
  {
    var all := steps + [step];
    assert all[..|all|] == all;
    assert forall k :: 0 <= k <= |steps| ==> all[..k] == steps[..k];
    if AlwaysUnique(s, all) {
      forall k | 0 <= k <= |steps| ensures UniqueNames(After(s, steps[..k]).world.zones) {
        assert all[..k] == steps[..k];
      }
    }
  }

  lemma NeverClashingGrows(s: Zones, steps: seq<ZoneStep>, step: ZoneStep)
    ensures NeverClashing(s, steps + [step]) <==> NeverClashing(s, steps) && !Clashing(After(s, steps), step)
  {
    var all := steps + [step];
    assert all[..|steps|] == steps && all[|steps|] == step;
    assert forall k :: 0 <= k < |steps| ==> all[..k] == steps[..k] && all[k] == steps[k];
    if NeverClashing(s, all) {
      forall k | 0 <= k < |steps| ensures !Clashing(After(s, steps[..k]), steps[k]) {
        assert all[..k] == steps[..k] && all[k] == steps[k];
      }
    }
  }

  lemma LastStepIff(s: Zones, steps: seq<ZoneStep>, step: ZoneStep)
    requires Initial(s) && AlwaysUnique(s, steps)
    ensures UniqueNames(After(s, steps + [step]).world.zones) <==> !Clashing(After(s, steps), step)
  {
    assert steps[..|steps|] == steps && (steps + [step])[..|steps|] == steps;
    RecordedZonesExist(s, steps);
    StepKeepsNamesIff(After(s, steps), step);
  }

  /** Over every run, each name is borne by at most one zone at all times exactly
      when no step clashes. */
  lemma {:induction false} OneZonePerNameIff(s: Zones, steps: seq<ZoneStep>)
    requires Initial(s) && UniqueNames(s.world.zones)
    ensures AlwaysUnique(s, steps) <==> NeverClashing(s, steps)
  {
    if steps == [] {
      assert steps[..0] == [];
    } else {
      var prefix, last := steps[..|steps| - 1], steps[|steps| - 1];
      assert steps == prefix + [last];
      OneZonePerNameIff(s, prefix);
      AlwaysUniqueGrows(s, prefix, last);
      NeverClashingGrows(s, prefix, last);
      if AlwaysUnique(s, prefix) {
        LastStepIff(s, prefix, last);
      }
    }
  }
}
