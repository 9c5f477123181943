/** Two runs, every call answered, that end with two zones of one name. */
module ZoneNameRuns {
  import opened Api
  import opened Records
  import opened ListCaches
  import opened Kube
  import M = Mirror
  import opened DNSZone
  import opened ZoneRuns
  import opened ZoneNames

  lemma AfterOneMore(s: Zones, steps: seq<ZoneStep>, step: ZoneStep)
    ensures After(s, steps + [step]) == Next(After(s, steps), step)
  {
    assert (steps + [step])[..|steps|] == steps;
  }

  function SpecOf(name: string): ZoneSpec {
    ZoneSpec(name, name, None, true)
  }

  function ZoneOf(name: string): Zone {
    Zone(name, name, [], false, true)
  }

  const QUIET: ZoneEnv := ZoneEnv(Ok([]), 0, Fine, Fine, Fine, Fine, Fine, Fine, Fine)

  function Blank(name: string): Object<ZoneSpec, ZoneStatus> {
    Object(SpecOf(name), BLANK, false, {}, Unknown)
  }

  function Settled(name: string, id: Id): Object<ZoneSpec, ZoneStatus> {
    Object(SpecOf(name), ZoneStatus(id), false, {FINALIZER}, Ready)
  }

  function Remembering(name: string): Cache<Rec<Zone>> {
    Cache([Rec(1, ZoneOf(name))], true, LIST_CACHE_TTL)
  }

  lemma CreateStep(s: Zones, name: string)
    ensures Next(s, Create(SpecOf(name), {})) == s.(store := s.store[s.nextUid := Blank(name)], nextUid := s.nextUid + 1)
  {
    var none: set<string> := {};
    assert none - {FINALIZER} == none;
  }

  /** A reconcile in which every call is answered, for an object that has recorded nothing. */
  lemma QuietReconcile(s: Zones, uid: Uid, name: string)
    requires uid in s.store && s.store[uid] == Blank(name)
    ensures var a := ApplyZone(s.world, SpecOf(name), BLANK, QUIET);
            a.err.None? ==>
              Next(s, Reconcile(uid, QUIET, M.ALL_FINE)) == s.(world := a.world, store := s.store[uid := Settled(name, a.status.zoneID)])
  {
    var obj := Blank(name).(finalizers := {FINALIZER});
    assert Blank(name).finalizers + {FINALIZER} == {FINALIZER};
    assert s.store[uid := obj][uid := Settled(name, 1)] == s.store[uid := Settled(name, 1)];
    var a := ApplyZone(s.world, SpecOf(name), BLANK, QUIET);
    assert s.store[uid := obj][uid := Settled(name, a.status.zoneID)] == s.store[uid := Settled(name, a.status.zoneID)];
  }

  /** With an unused cache the live zone of the name is adopted and remembered. */
  lemma AdoptsLive(zones: seq<Rec<Zone>>, nextId: Id, k: nat, name: string)
    requires k < |zones| && zones[k] == Rec(k + 1, ZoneOf(name)) && WellFormed(zones, nextId)
    requires forall i :: 0 <= i < |zones| && i != k ==> zones[i].body.name != name
    ensures ApplyZone(ZoneWorld(zones, nextId, Cache([], false, 0)), SpecOf(name), BLANK, QUIET) ==
            M.Applied(ZoneWorld(zones, nextId, Cache(zones, true, LIST_CACHE_TTL)), ZoneStatus(k + 1), None)
  {
    assert ZoneFetch(zones, QUIET)(0) == Answer(Fine, Ok(zones));
    ScanByName(zones, name);
    var z := Scan(zones, ByName(name)).value;
    assert z == zones[k];
    assert Put(zones, k + 1, ZoneOf(name)) == zones;
    assert Has(zones, k + 1);
  }

  /** While the cache remembers a zone that is gone, every new object of its name
      creates another one. */
  lemma RemembersTheDead(zones: seq<Rec<Zone>>, nextId: Id, name: string)
    requires !Has(zones, 1)
    ensures ApplyZone(ZoneWorld(zones, nextId, Remembering(name)), SpecOf(name), BLANK, QUIET) ==
            M.Applied(ZoneWorld(zones + [Rec(nextId, ZoneOf(name))], nextId + 1, Remembering(name)), ZoneStatus(nextId), None)
  {
    ScanByName(Remembering(name).items, name);
    assert Remembering(name).items[0] == Rec(1, ZoneOf(name));
    assert Put(zones, 1, ZoneOf(name)) == zones;
  }

  // A rename.

  function TwoZones(a: string, b: string): Zones {
    M.State(ZoneWorld([Rec(1, ZoneOf(a)), Rec(2, ZoneOf(b))], 3, Cache([], false, 0)), map[], 0)
  }

  function RenameSteps(a: string, b: string): seq<ZoneStep> {
    [Create(SpecOf(b), {}), Reconcile(0, QUIET, M.ALL_FINE), Edit(0, SpecOf(a)), Reconcile(0, QUIET, M.ALL_FINE)]
  }

  lemma AdoptedThenRenamed(a: string, b: string) returns (s3: Zones)
    requires a != b
    ensures s3 == After(TwoZones(a, b), RenameSteps(a, b)[..3])
    ensures s3.world.zones == TwoZones(a, b).world.zones && 0 in s3.store
    ensures s3.store[0] == Settled(b, 2).(spec := SpecOf(a))
  {
    var s0, steps := TwoZones(a, b), RenameSteps(a, b);
    var zones := s0.world.zones;
    var s1 := s0.(store := map[0 := Blank(b)], nextUid := 1);
    CreateStep(s0, b);
    AdoptsLive(zones, 3, 1, b);
    QuietReconcile(s1, 0, b);
    AfterThree(s0, steps);
    s3 := After(s0, steps[..3]);
  }

  /** An object adopts zone b, is renamed to a, and is reconciled: every call is
      answered, and two zones are named a. */
  lemma RenameBreaksUniqueness(a: string, b: string)
    requires a != b
    ensures Initial(TwoZones(a, b)) && UniqueNames(TwoZones(a, b).world.zones)
    ensures !UniqueNames(After(TwoZones(a, b), RenameSteps(a, b)).world.zones)
  {
    var s0, steps := TwoZones(a, b), RenameSteps(a, b);
    var zones := s0.world.zones;
    SafeStart(zones, 3);
    RecordedZonesExist(s0, steps[..3]);
    var s3 := AdoptedThenRenamed(a, b);
    assert zones[0].body.name == a && zones[0].id != 2;
    assert Has(zones, 2) by { assert zones[1].id == 2; }
    StepKeepsNamesIff(s3, steps[3]);
    assert steps == steps[..3] + [steps[3]];
    AfterOneMore(s0, steps[..3], steps[3]);
  }

  lemma SafeStart(zones: seq<Rec<Zone>>, nextId: Id)
    requires WellFormed(zones, nextId)
    ensures Initial(M.State(ZoneWorld(zones, nextId, Cache([], false, 0)), map[], 0))
  {
  }

  lemma AfterThree(s: Zones, steps: seq<ZoneStep>)
    requires |steps| >= 3
    ensures After(s, steps[..3]) == Next(Next(Next(s, steps[0]), steps[1]), steps[2])
  {
    assert steps[..3] == [] + [steps[0]] + [steps[1]] + [steps[2]];
    AfterOneMore(s, [], steps[0]);
    AfterOneMore(s, [] + [steps[0]], steps[1]);
    AfterOneMore(s, [] + [steps[0]] + [steps[1]], steps[2]);
  }

  lemma AfterFour(s: Zones, steps: seq<ZoneStep>)
    requires |steps| == 4
    ensures After(s, steps) == Next(Next(Next(Next(s, steps[0]), steps[1]), steps[2]), steps[3])
  {
    AfterThree(s, steps);
    assert steps == steps[..3] + [steps[3]];
    AfterOneMore(s, steps[..3], steps[3]);
  }

  // A cached zone that is gone.

  function OneZone(name: string): Zones {
    M.State(ZoneWorld([Rec(1, ZoneOf(name))], 2, Cache([], false, 0)), map[], 0)
  }

  /** An object adopts the zone and is deleted with it; then two more of the same
      name are created and reconciled, all within the lifetime of the cache. */
  function SuccessionSteps(name: string): seq<ZoneStep> {
    DeletionSteps(name) +
    [Create(SpecOf(name), {}), Reconcile(1, QUIET, M.ALL_FINE), Create(SpecOf(name), {}), Reconcile(2, QUIET, M.ALL_FINE)]
  }

  function DeletionSteps(name: string): seq<ZoneStep> {
    [Create(SpecOf(name), {}), Reconcile(0, QUIET, M.ALL_FINE), MarkDeleting(0), Reconcile(0, QUIET, M.ALL_FINE)]
  }

  /** After the deletion no zone and no object is left, but the cache remembers. */
  lemma DeletedButRemembered(name: string)
    ensures After(OneZone(name), DeletionSteps(name)) == M.State(ZoneWorld([], 2, Remembering(name)), map[], 1)
  {
    var s0, steps := OneZone(name), DeletionSteps(name);
    var zones := s0.world.zones;
    var s1 := s0.(store := map[0 := Blank(name)], nextUid := 1);
    CreateStep(s0, name);
    AdoptsLive(zones, 2, 0, name);
    QuietReconcile(s1, 0, name);
    var s2 := s1.(world := ZoneWorld(zones, 2, Remembering(name)), store := map[0 := Settled(name, 1)]);
    assert Next(s1, steps[1]) == s2;
    var s3 := s2.(store := map[0 := Settled(name, 1).(deleting := true)]);
    assert Next(s2, steps[2]) == s3;
    LastOneLeaves(s3, name);
    AfterFour(s0, steps);
  }

  lemma LastOneLeaves(s: Zones, name: string)
    requires s == M.State(ZoneWorld([Rec(1, ZoneOf(name))], 2, Remembering(name)), map[0 := Settled(name, 1).(deleting := true)], 1)
    ensures Next(s, Reconcile(0, QUIET, M.ALL_FINE)) == M.State(ZoneWorld([], 2, Remembering(name)), map[], 1)
  {
    var zones := s.world.zones;
    assert zones[0].id == 1 && Has(zones, 1);
    assert Remove(zones, 1) == [];
    assert !SharedByOther(s.store, 0, 1, Get(zones, 1).body.name);
    assert {FINALIZER} - {FINALIZER} == {};
    assert s.store - {0} == map[];
  }

  /** Every call is answered, users only create and delete objects, and still two
      zones share the name: both were created because the cache remembered a zone
      that the operator itself had deleted. */
  lemma RememberedZoneBreaksUniqueness(name: string)
    ensures Initial(OneZone(name)) && UniqueNames(OneZone(name).world.zones)
    ensures !UniqueNames(After(OneZone(name), SuccessionSteps(name)).world.zones)
  {
    var s0, steps := OneZone(name), SuccessionSteps(name);
    SafeStart(s0.world.zones, 2);
    DeletedButRemembered(name);
    var t0 := M.State(ZoneWorld([], 2, Remembering(name)), map[], 1);
    var rest := steps[4..];
    var t2 := FirstSuccessor(t0, name);
    var t3 := t2.(store := t2.store[2 := Blank(name)], nextUid := 3);
    CreateStep(t2, name);
    RemembersTheDead(t2.world.zones, 3, name);
    QuietReconcile(t3, 2, name);
    AfterFour(t0, rest);
    AfterConcat(s0, DeletionSteps(name), rest);
    assert steps == DeletionSteps(name) + rest;
    var zs := After(s0, steps).world.zones;
    assert zs == [Rec(2, ZoneOf(name)), Rec(3, ZoneOf(name))];
    assert zs[0] in zs && zs[1] in zs;
  }

  lemma FirstSuccessor(t0: Zones, name: string) returns (t2: Zones)
    requires t0 == M.State(ZoneWorld([], 2, Remembering(name)), map[], 1)
    ensures t2 == M.State(ZoneWorld([Rec(2, ZoneOf(name))], 3, Remembering(name)), map[1 := Settled(name, 2)], 2)
    ensures t2 == Next(Next(t0, Create(SpecOf(name), {})), Reconcile(1, QUIET, M.ALL_FINE))
  {
    var t1 := t0.(store := map[1 := Blank(name)], nextUid := 2);
    CreateStep(t0, name);
    assert Next(t0, Create(SpecOf(name), {})) == t1;
    RemembersTheDead([], 2, name);
    assert [] + [Rec(2, ZoneOf(name))] == [Rec(2, ZoneOf(name))];
    assert t1.store[1 := Settled(name, 2)] == map[1 := Settled(name, 2)];
    QuietReconcile(t1, 1, name);
    t2 := M.State(ZoneWorld([Rec(2, ZoneOf(name))], 3, Remembering(name)), map[1 := Settled(name, 2)], 2);
  }

  lemma {:induction false} AfterConcat(s: Zones, a: seq<ZoneStep>, b: seq<ZoneStep>)
    ensures After(s, a + b) == After(After(s, a), b)
  {
    if b == [] {
      assert a + b == a;
    } else {
      var prefix, last := b[..|b| - 1], b[|b| - 1];
      AfterConcat(s, a, prefix);
      assert a + b == (a + prefix) + [last] && b == prefix + [last];
      AfterOneMore(s, a + prefix, last);
      AfterOneMore(After(s, a), prefix, last);
    }
  }
}
