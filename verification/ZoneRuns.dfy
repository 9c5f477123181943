/** What every run of DNSZone objects keeps. */
module ZoneRuns {
  import opened Api
  import opened Records
  import opened ListCaches
  import opened Kube
  import M = Mirror
  import opened DNSZone

  type Zones = M.State<ZoneWorld, ZoneSpec, ZoneStatus>

  /** Objects are created, renamed and deleted by users, zones appear and are
      edited out of band, reconciles run with any answers; nothing but a
      reconcile deletes a zone. */
  datatype ZoneStep =
    | Create(spec: ZoneSpec, foreign: set<string>)
    | Edit(uid: Uid, newSpec: ZoneSpec)
    | MarkDeleting(uid: Uid)
    | ForeignFinalizers(uid: Uid, others: set<string>)
    | ZoneAppears(zone: Zone)
    | ZoneEdited(id: Id, zone: Zone)
    | Reconcile(uid: Uid, env: ZoneEnv, patches: M.Patches)

  function Lift(s: Zones, step: ZoneStep): M.Step<ZoneWorld, ZoneSpec, ZoneStatus> {
    match step
    case Create(spec, foreign) => M.Create(spec, foreign)
    case Edit(uid, spec) => M.Edit(uid, spec)
    case MarkDeleting(uid) => M.MarkDeleting(uid)
    case ForeignFinalizers(uid, others) => M.ForeignFinalizers(uid, others)
    case ZoneAppears(zone) =>
      M.OutOfBand(s.world.(zones := s.world.zones + [Rec(s.world.nextId, zone)], nextId := s.world.nextId + 1))
    case ZoneEdited(id, zone) => M.OutOfBand(s.world.(zones := Put(s.world.zones, id, zone)))
    case Reconcile(uid, env, patches) => M.Reconcile(uid, ApplyClosure(env), DeleteClosure(env), patches)
  }

  function Next(s: Zones, step: ZoneStep): Zones {
    M.Next(s, FINALIZER, BLANK, Lift(s, step))
  }

  function After(s: Zones, steps: seq<ZoneStep>): Zones {
    if steps == [] then s else Next(After(s, steps[..|steps| - 1]), steps[|steps| - 1])
  }

  ghost predicate WorldOk(w: ZoneWorld) {
    && WellFormed(w.zones, w.nextId)
    && forall i :: 0 <= i < |w.cache.items| ==> 0 < w.cache.items[i].id < w.nextId
  }

  /** Every live object's recorded zone exists. */
  ghost predicate Safe(s: Zones) {
    && WorldOk(s.world)
    && (forall u :: u in s.store ==> u < s.nextUid && s.store[u].status.zoneID < s.world.nextId)
    && (forall u :: u in s.store && !s.store[u].deleting && s.store[u].status != BLANK ==>
          FINALIZER in s.store[u].finalizers && Has(s.world.zones, s.store[u].status.zoneID))
  }

  /** No object yet and an unused cache; NetBird may already hold zones. */
  ghost predicate Initial(s: Zones) {
    s.store == map[] && s.world.cache.items == [] && WorldOk(s.world)
  }

  /** The target is the recorded zone while that exists, else nothing or an id
      that was issued at some time; the lookup leaves sound ids in the cache. */
  lemma TargetFacts(w: ZoneWorld, spec: ZoneSpec, recorded: Id, env: ZoneEnv)
    requires WorldOk(w)
    ensures var (target, cache) := Target(w, spec, recorded, env);
            && WorldOk(w.(cache := cache))
            && (target.Ok? ==> target.value < w.nextId)
  {
    FetchIsSteady(w.zones, env);
    LookupOfSteadyList(w.cache, env.now, ZoneFetch(w.zones, env), ByName(spec.name), w.zones);
    var (target, cache) := Target(w, spec, recorded, env);
    if target.Ok? && target.value == recorded && recorded != NO_ID && Has(w.zones, recorded) {
      var i :| 0 <= i < |w.zones| && w.zones[i].id == recorded;
    }
  }

  ghost predicate Keeps(w: ZoneWorld, w': ZoneWorld) {
    && WorldOk(w') && w.nextId <= w'.nextId && |w.zones| <= |w'.zones|
    && forall i :: 0 <= i < |w.zones| ==> w'.zones[i].id == w.zones[i].id
  }

  lemma KeepsHas(w: ZoneWorld, w': ZoneWorld, id: Id)
    requires Keeps(w, w') && Has(w.zones, id)
    ensures Has(w'.zones, id)
  {
    var i :| 0 <= i < |w.zones| && w.zones[i].id == id;
    assert w'.zones[i].id == id;
  }

  lemma CreateFacts(w: ZoneWorld, req: Zone, status: ZoneStatus, f: Fault)
    requires WorldOk(w)
    ensures var r := CreateZone(w, req, status, f);
            && Keeps(w, r.world)
            && (r.err.Some? ==> r.status == status)
            && (r.err.None? ==> Rec(r.status.zoneID, req) in r.world.zones)
  {
    var r := CreateZone(w, req, status, f);
    if r.err.None? { assert r.world.zones[|w.zones|] == Rec(w.nextId, req); }
  }

  lemma UpdateFacts(w: ZoneWorld, id: Id, req: Zone)
    requires WorldOk(w)
    ensures var w' := w.(zones := Put(w.zones, id, req));
            Keeps(w, w') && (Has(w.zones, id) ==> Rec(id, req) in w'.zones)
  {
    var w' := w.(zones := Put(w.zones, id, req));
    assert w'.cache == w.cache;
    if Has(w.zones, id) {
      var i :| 0 <= i < |w.zones| && w.zones[i].id == id;
      assert w'.zones[i] == Rec(id, req);
    }
  }

  lemma UpdateOrCreateFacts(w: ZoneWorld, req: Zone, status: ZoneStatus, target: Id, env: ZoneEnv)
    requires WorldOk(w)
    ensures var r := UpdateOrCreate(w, req, status, target, env);
            && Keeps(w, r.world)
            && (r.err.Some? ==> r.status == status)
            && (r.err.None? ==> Rec(r.status.zoneID, req) in r.world.zones)
  {
    UpdateFacts(w, target, req);
    CreateFacts(w, req, status, env.create);
    CreateFacts(w.(zones := Put(w.zones, target, req)), req, status, env.create);
  }

  /** applyDNSZone never loses a zone, and when it reports success the recorded
      id names a zone that carries exactly the requested contents. */
  lemma ApplyFacts(w: ZoneWorld, spec: ZoneSpec, status: ZoneStatus, env: ZoneEnv)
    requires WorldOk(w)
    ensures var r := ApplyZone(w, spec, status, env);
            && Keeps(w, r.world)
            && (r.err.Some? ==> r.status == status)
            && (r.err.None? ==>
                  env.groups.Ok? &&
                  Rec(r.status.zoneID, Zone(spec.name, spec.domain, env.groups.value, spec.searchDomain == Some(true), spec.enabled))
                  in r.world.zones)
  {
    if env.groups.Ok? {
      TargetFacts(w, spec, status.zoneID, env);
      var (target, cache) := Target(w, spec, status.zoneID, env);
      if target.Ok? {
        UpdateOrCreateFacts(w.(cache := cache), Request(spec, env.groups.value), status, target.value, env);
      }
    }
  }

  /** deleteDNSZone removes at most the recorded zone, and that one only when no
      other live object has recorded it or declares its live name. */
  lemma DeleteFacts(w: ZoneWorld, store: Store<ZoneSpec, ZoneStatus>, uid: Uid, status: ZoneStatus, env: ZoneEnv)
    requires WorldOk(w)
    ensures var r := DeleteZone(w, store, uid, status, env);
            && WorldOk(r.world) && r.world.nextId == w.nextId && r.world.cache == w.cache
            && (r.world.zones != w.zones ==>
                  && status.zoneID != NO_ID && Has(w.zones, status.zoneID)
                  && r.world.zones == Remove(w.zones, status.zoneID)
                  && !SharedByOther(store, uid, status.zoneID, Get(w.zones, status.zoneID).body.name))
  {
    RemoveKeepsWellFormed(w.zones, status.zoneID, w.nextId);
  }

  /** How a delete ends, for any answers: the recorded zone is removed exactly when it
      is found, nobody else uses it and the call takes effect; and the object counts as
      cleaned up exactly when there is nothing recorded or nothing there, or it is
      shared, or the delete was carried out or found nothing (a list of objects does
      not answer "not found", so the last case does not occur). */
  lemma DeleteEnds(w: ZoneWorld, store: Store<ZoneSpec, ZoneStatus>, uid: Uid, status: ZoneStatus, env: ZoneEnv)
    ensures var r := DeleteZone(w, store, uid, status, env);
            var id := status.zoneID;
            var found := id != NO_ID && env.get.Fine? && Has(w.zones, id);
            var gone := id == NO_ID || (if env.get.Fine? then !Has(w.zones, id) else env.get.err == NotFound);
            var shared := found && SharedByOther(store, uid, id, Get(w.zones, id).body.name);
            && r.world == w.(zones := if found && env.list.Fine? && !shared && !env.delete.Lost? then Remove(w.zones, id) else w.zones)
            && (M.Cleaned(r) <==>
                gone || (found && env.list.Fine? && (shared || env.delete.Fine? || env.delete.err == NotFound)) ||
                (found && !env.list.Fine? && env.list.err == NotFound))
            && (r.err.Some? ==> r.err == env.get.Error() || r.err == env.list.Error() || r.err == env.delete.Error())
  {
  }

  lemma OthersSurvive(zones: seq<Rec<Zone>>, gone: Id, id: Id)
    requires Has(zones, id) && id != gone
    ensures Has(Remove(zones, gone), id)
  {
    var i :| 0 <= i < |zones| && zones[i].id == id;
    assert zones[i] in Remove(zones, gone);
  }

  /** What deleteDNSZone does to the world, said of the worlds alone. */
  ghost predicate DeleteEffect(w: ZoneWorld, w': ZoneWorld, store: Store<ZoneSpec, ZoneStatus>, uid: Uid, id: Id) {
    && WorldOk(w') && w'.nextId == w.nextId
    && (w'.zones != w.zones ==>
          && id != NO_ID && Has(w.zones, id) && w'.zones == Remove(w.zones, id)
          && !SharedByOther(store, uid, id, Get(w.zones, id).body.name))
  }

  lemma DeleteKeepsSafe(s: Zones, uid: Uid, env: ZoneEnv, patches: M.Patches)
    requires Safe(s) && uid in s.store && s.store[uid].deleting
    ensures Safe(Next(s, Reconcile(uid, env, patches)))
  {
    var s' := QuietShape(s, uid, env, patches);
    DeleteShapeKeepsSafe(s, s', uid);
  }

  lemma QuietShape(s: Zones, uid: Uid, env: ZoneEnv, patches: M.Patches) returns (s': Zones)
    requires Safe(s) && uid in s.store && s.store[uid].deleting
    ensures s' == Next(s, Reconcile(uid, env, patches))
    ensures s'.nextUid == s.nextUid && M.DeleteShape(s.store, s'.store, uid)
    ensures s'.world == DeleteZone(s.world, s.store, uid, s.store[uid].status, env).world
    ensures DeleteEffect(s.world, s'.world, s.store, uid, s.store[uid].status.zoneID)
  {
    M.DeleteHasShape(s.world, s.store, uid, FINALIZER, DeleteClosure(env), patches);
    DeleteFacts(s.world, s.store, uid, s.store[uid].status, env);
    s' := Next(s, Reconcile(uid, env, patches));
  }

  lemma DeleteShapeKeepsSafe(s: Zones, s': Zones, uid: Uid)
    requires Safe(s) && uid in s.store && s.store[uid].deleting && s'.nextUid == s.nextUid
    requires M.DeleteShape(s.store, s'.store, uid)
    requires DeleteEffect(s.world, s'.world, s.store, uid, s.store[uid].status.zoneID)
    ensures Safe(s')
  {
    forall u | u in s'.store && !s'.store[u].deleting && s'.store[u].status != BLANK
      ensures Has(s'.world.zones, s'.store[u].status.zoneID)
    {
      if s'.world.zones != s.world.zones {
        OthersSurvive(s.world.zones, s.store[uid].status.zoneID, s'.store[u].status.zoneID);
      }
    }
  }

  lemma ApplyKeepsSafe(s: Zones, uid: Uid, env: ZoneEnv, patches: M.Patches)
    requires Safe(s) && uid in s.store && !s.store[uid].deleting
    ensures Safe(Next(s, Reconcile(uid, env, patches)))
  {
    M.ReconcileHasLiveShape(s.world, s.store, uid, FINALIZER, ApplyClosure(env), DeleteClosure(env), patches);
    ApplyFacts(s.world, s.store[uid].spec, s.store[uid].status, env);
    var r := M.ReconcileStep(s.world, s.store, uid, FINALIZER, ApplyClosure(env), DeleteClosure(env), patches);
    ShapeKeepsSafe(s, r, uid, ApplyZone(s.world, s.store[uid].spec, s.store[uid].status, env));
  }

  lemma ShapeKeepsSafe(s: Zones, r: M.Reconciled<ZoneWorld, ZoneSpec, ZoneStatus>, uid: Uid,
                       a: M.Applied<ZoneWorld, ZoneStatus>)
    requires Safe(s) && uid in s.store && !s.store[uid].deleting && Keeps(s.world, a.world)
    requires M.LiveShape(s.world, s.store, r, uid, FINALIZER, a)
    requires a.status == s.store[uid].status || Has(a.world.zones, a.status.zoneID)
    ensures Safe(s.(world := r.world, store := r.store))
  {
    forall u | u in r.store
      ensures r.store[u].status.zoneID < r.world.nextId
      ensures !r.store[u].deleting && r.store[u].status != BLANK ==>
                FINALIZER in r.store[u].finalizers && Has(r.world.zones, r.store[u].status.zoneID)
    {
      if r.store[u].status == s.store[u].status {
        if !r.store[u].deleting && r.store[u].status != BLANK && r.world == a.world {
          KeepsHas(s.world, a.world, s.store[u].status.zoneID);
        }
      } else {
        var i :| 0 <= i < |a.world.zones| && a.world.zones[i].id == a.status.zoneID;
      }
    }
  }

  lemma StepKeepsSafe(s: Zones, step: ZoneStep)
    requires Safe(s)
    ensures Safe(Next(s, step))
  {
    match step
    case Reconcile(uid, env, patches) =>
      if uid in s.store {
        if s.store[uid].deleting { DeleteKeepsSafe(s, uid, env, patches); } else { ApplyKeepsSafe(s, uid, env, patches); }
      }
    case ZoneAppears(zone) => AppearanceKeepsSafe(s, zone);
    case ZoneEdited(id, zone) => EditKeepsSafe(s, id, zone);
    case Create(spec, foreign) =>
    case Edit(uid, spec) =>
    case MarkDeleting(uid) =>
    case ForeignFinalizers(uid, others) =>
  }

  lemma AppearanceKeepsSafe(s: Zones, zone: Zone)
    requires Safe(s)
    ensures Safe(Next(s, ZoneAppears(zone)))
  {
    AppendKeepsWellFormed(s.world.zones, s.world.nextId, s.world.nextId + 1, zone);
    SurvivesGrowth(s, Next(s, ZoneAppears(zone)));
  }

  lemma EditKeepsSafe(s: Zones, id: Id, zone: Zone)
    requires Safe(s)
    ensures Safe(Next(s, ZoneEdited(id, zone)))
  {
    UpdateFacts(s.world, id, zone);
    SurvivesGrowth(s, Next(s, ZoneEdited(id, zone)));
  }

  lemma SurvivesGrowth(s: Zones, s': Zones)
    requires Safe(s) && s'.store == s.store && s'.nextUid == s.nextUid && Keeps(s.world, s'.world)
    ensures Safe(s')
  {
    forall id | Has(s.world.zones, id) ensures Has(s'.world.zones, id) {
      KeepsHas(s.world, s'.world, id);
    }
  }

  /** In every state of every run, each live object's recorded id names a zone
      that still exists, whatever calls failed and wherever reconciles crashed. */
  lemma {:induction false} RecordedZonesExist(s: Zones, steps: seq<ZoneStep>)
    requires Initial(s)
    ensures Safe(After(s, steps))
  {
    if steps != [] {
      RecordedZonesExist(s, steps[..|steps| - 1]);
      StepKeepsSafe(After(s, steps[..|steps| - 1]), steps[|steps| - 1]);
    }
  }

  /** A zone disappears in a step of a run only when that step is the delete
      reconcile of an object that recorded it, and no other live object has
      recorded it or declares the name it carries. */
  lemma OnlyTheLastOwnerDeletes(s: Zones, steps: seq<ZoneStep>, step: ZoneStep, z: Rec<Zone>)
    requires Initial(s)
    requires z in After(s, steps).world.zones && !Has(Next(After(s, steps), step).world.zones, z.id)
    ensures var now := After(s, steps);
            && step.Reconcile? && step.uid in now.store
            && now.store[step.uid].deleting && now.store[step.uid].status.zoneID == z.id
            && forall u :: u in now.store && u != step.uid && !now.store[u].deleting ==>
                 now.store[u].spec.name != z.body.name && now.store[u].status.zoneID != z.id
  {
    RecordedZonesExist(s, steps);
    var now := After(s, steps);
    assert Has(now.world.zones, z.id) by {
      var i :| 0 <= i < |now.world.zones| && now.world.zones[i] == z;
    }
    DeletesOnlyItsOwn(now, step, z);
  }

  lemma LiveKeepsZones(now: Zones, uid: Uid, env: ZoneEnv, patches: M.Patches, id: Id)
    requires Safe(now) && uid in now.store && !now.store[uid].deleting && Has(now.world.zones, id)
    ensures Has(Next(now, Reconcile(uid, env, patches)).world.zones, id)
  {
    M.ReconcileHasLiveShape(now.world, now.store, uid, FINALIZER, ApplyClosure(env), DeleteClosure(env), patches);
    ApplyFacts(now.world, now.store[uid].spec, now.store[uid].status, env);
    KeepsHas(now.world, ApplyZone(now.world, now.store[uid].spec, now.store[uid].status, env).world, id);
  }

  lemma DeletesOnlyItsOwn(now: Zones, step: ZoneStep, z: Rec<Zone>)
    requires Safe(now) && z in now.world.zones && Has(now.world.zones, z.id)
    requires !Has(Next(now, step).world.zones, z.id)
    ensures step.Reconcile? && step.uid in now.store
    ensures now.store[step.uid].deleting && now.store[step.uid].status.zoneID == z.id
    ensures !SharedByOther(now.store, step.uid, z.id, z.body.name) && z.id != NO_ID
  {
    match step
    case Reconcile(uid, env, patches) =>
      if uid in now.store && !now.store[uid].deleting {
        LiveKeepsZones(now, uid, env, patches, z.id);
      } else if uid in now.store {
        DeleteRemovesOnlyItsOwn(now.world, now.store, uid, env, z);
      }
    case ZoneAppears(zone) => KeepsHas(now.world, Next(now, step).world, z.id);
    case ZoneEdited(id, zone) => KeepsHas(now.world, Next(now, step).world, z.id);
    case _ =>
  }

  lemma DeleteRemovesOnlyItsOwn(w: ZoneWorld, store: Store<ZoneSpec, ZoneStatus>, uid: Uid, env: ZoneEnv, z: Rec<Zone>)
    requires WorldOk(w) && uid in store && z in w.zones && Has(w.zones, z.id)
    requires !Has(DeleteZone(w, store, uid, store[uid].status, env).world.zones, z.id)
    ensures store[uid].status.zoneID == z.id && !SharedByOther(store, uid, z.id, z.body.name)
  {
    var id := store[uid].status.zoneID;
    DeleteFacts(w, store, uid, store[uid].status, env);
    if id != z.id { OthersSurvive(w.zones, id, z.id); }
    SameId(w.zones, w.nextId, z, Get(w.zones, z.id));
  }

  // ---- The last object standing ----

  /** u has recorded id and has not been through its clean-up yet. */
  ghost predicate Pending(s: Zones, u: Uid, id: Id) {
    u in s.store && s.store[u].status.zoneID == id && FINALIZER in s.store[u].finalizers
  }

  predicate LiveOwner(o: Object<ZoneSpec, ZoneStatus>, id: Id) {
    !o.deleting && o.status.zoneID == id
  }

  /** A deletion mark, or a delete reconcile in which no call fails. */
  ghost predicate Deletion(s: Zones, step: ZoneStep) {
    || step.MarkDeleting?
    || (&& step.Reconcile? && step.patches.remove.Fine?
        && step.env.get.Fine? && step.env.list.Fine? && step.env.delete.Fine?
        && (step.uid in s.store ==> s.store[step.uid].deleting))
  }

  ghost predicate OnlyDeletions(s: Zones, steps: seq<ZoneStep>) {
    forall k :: 0 <= k < |steps| ==> Deletion(After(s, steps[..k]), steps[k])
  }

  /** The zone z is used by objects that recorded it and by nobody else alive. */
  ghost predicate WindingDown(s: Zones, z: Rec<Zone>) {
    && Safe(s) && z.id != NO_ID
    && (forall u :: u in s.store && !s.store[u].deleting && s.store[u].spec.name == z.body.name ==>
          s.store[u].status.zoneID == z.id)
    && (forall i :: 0 <= i < |s.world.zones| && s.world.zones[i].id == z.id ==> s.world.zones[i] == z)
    && (Has(s.world.zones, z.id) ==> exists u :: Pending(s, u, z.id))
  }

  lemma DeletionKeepsWindingDown(s: Zones, step: ZoneStep, z: Rec<Zone>)
    requires WindingDown(s, z) && Deletion(s, step)
    ensures WindingDown(Next(s, step), z)
  {
    StepKeepsSafe(s, step);
    if step.MarkDeleting? {
      MarkKeepsWindingDown(s, step.uid, z);
    } else if step.uid in s.store {
      var s' := QuietShape(s, step.uid, step.env, step.patches);
      ShapeKeepsWindingDown(s, s', step.uid, step.env, z);
    }
  }

  lemma MarkKeepsWindingDown(s: Zones, uid: Uid, z: Rec<Zone>)
    requires WindingDown(s, z) && Safe(Next(s, MarkDeleting(uid)))
    ensures WindingDown(Next(s, MarkDeleting(uid)), z)
  {
    if Has(s.world.zones, z.id) {
      var u :| Pending(s, u, z.id);
      assert Pending(Next(s, MarkDeleting(uid)), u, z.id);
    }
  }

  lemma ShapeKeepsWindingDown(s: Zones, s': Zones, uid: Uid, env: ZoneEnv, z: Rec<Zone>)
    requires WindingDown(s, z) && Safe(s') && uid in s.store && s.store[uid].deleting
    requires env.get.Fine? && env.list.Fine? && env.delete.Fine?
    requires M.DeleteShape(s.store, s'.store, uid)
    requires s'.world == DeleteZone(s.world, s.store, uid, s.store[uid].status, env).world
    requires DeleteEffect(s.world, s'.world, s.store, uid, s.store[uid].status.zoneID)
    ensures WindingDown(s', z)
  {
    assert forall i :: 0 <= i < |s'.world.zones| ==> s'.world.zones[i] in s.world.zones;
    if Has(s'.world.zones, z.id) {
      var v := StillPending(s, uid, env, z);
      assert Pending(s', v, z.id);
    }
  }

  /** While a quiet delete reconcile of uid leaves z in place, somebody else
      still has to go through the clean-up. */
  lemma StillPending(s: Zones, uid: Uid, env: ZoneEnv, z: Rec<Zone>) returns (v: Uid)
    requires WindingDown(s, z) && uid in s.store && s.store[uid].deleting
    requires env.get.Fine? && env.list.Fine? && env.delete.Fine?
    requires Has(DeleteZone(s.world, s.store, uid, s.store[uid].status, env).world.zones, z.id)
    ensures v != uid && Pending(s, v, z.id)
  {
    var status := s.store[uid].status;
    DeleteFacts(s.world, s.store, uid, status, env);
    StillThere(s.world, DeleteZone(s.world, s.store, uid, status, env).world, s.store, uid, status.zoneID, z.id);
    if status.zoneID != z.id {
      v :| Pending(s, v, z.id);
    } else {
      QuietDeleteIsGuarded(s.world, s.store, uid, env, z);
      v :| v in s.store && v != uid && !s.store[v].deleting &&
           (s.store[v].spec.name == z.body.name || s.store[v].status.zoneID == z.id);
    }
  }

  lemma StillThere(w: ZoneWorld, w': ZoneWorld, store: Store<ZoneSpec, ZoneStatus>, uid: Uid, gone: Id, id: Id)
    requires DeleteEffect(w, w', store, uid, gone) && Has(w'.zones, id)
    ensures Has(w.zones, id)
  {
    var i :| 0 <= i < |w'.zones| && w'.zones[i].id == id;
    assert w'.zones[i] in w.zones;
  }

  /** A failure-free delete that leaves the recorded zone found it shared. */
  lemma QuietDeleteIsGuarded(w: ZoneWorld, store: Store<ZoneSpec, ZoneStatus>, uid: Uid, env: ZoneEnv, z: Rec<Zone>)
    requires WorldOk(w) && uid in store && store[uid].status.zoneID == z.id != NO_ID
    requires env.get.Fine? && env.list.Fine? && env.delete.Fine? && Has(w.zones, z.id) && Get(w.zones, z.id) == z
    requires Has(DeleteZone(w, store, uid, store[uid].status, env).world.zones, z.id)
    ensures SharedByOther(store, uid, z.id, z.body.name)
  {
    RemoveKeepsWellFormed(w.zones, z.id, w.nextId);
  }

  /** Whatever the order of deletion marks and failure-free delete reconciles,
      and however their specs were renamed since: the zone stays, unchanged,
      while one of its owners is alive, and it is gone once every owner has been
      through its clean-up. */
  lemma {:induction false} LastZoneStanding(s: Zones, steps: seq<ZoneStep>, z: Rec<Zone>)
    requires WindingDown(s, z) && OnlyDeletions(s, steps)
    ensures WindingDown(After(s, steps), z)
    ensures forall u :: u in After(s, steps).store && LiveOwner(After(s, steps).store[u], z.id) ==>
                          z in After(s, steps).world.zones
    ensures (forall u :: !Pending(After(s, steps), u, z.id)) ==> !Has(After(s, steps).world.zones, z.id)
  {
    if steps != [] {
      var n := |steps| - 1;
      var prefix := steps[..n];
      forall k | 0 <= k < |prefix| ensures Deletion(After(s, prefix[..k]), prefix[k]) {
        assert prefix[..k] == steps[..k];
      }
      LastZoneStanding(s, prefix, z);
      DeletionKeepsWindingDown(After(s, prefix), steps[n], z);
    }
    var t := After(s, steps);
    forall u | u in t.store && LiveOwner(t.store[u], z.id) ensures z in t.world.zones {
      var i :| 0 <= i < |t.world.zones| && t.world.zones[i].id == z.id;
      assert t.world.zones[i] == z;
    }
  }

  lemma QuietLookup(w: ZoneWorld, spec: ZoneSpec, env: ZoneEnv)
    requires env.fetch0.Fine? && env.fetch1.Fine?
    ensures !LookedUp(w.cache, env.now, ZoneFetch(w.zones, env), ByName(spec.name)).found.Broken?
  {
    assert ZoneFetch(w.zones, env)(0) == Answer(env.fetch0, Ok(w.zones));
    assert ZoneFetch(w.zones, env)(1) == Answer(env.fetch1, Ok(w.zones));
  }
}
