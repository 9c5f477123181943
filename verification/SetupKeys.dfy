/** The SetupKey controller's rotation: check, create, record, store, delete the
    old one (internal/controller/setupkey_controller.go). */
module SetupKeys {
  import opened Api
  import opened Records
  import opened Kube
  import M = Mirror

  datatype KeyState = ValidKey | Overused | Unusable

  /** plain is the key as handed out on creation, shown what a GET reveals of it. */
  datatype SetupKey = SetupKey(state: KeyState, plain: string, shown: string, groups: seq<Id>)

  const KEY_PREFIX_LEN: nat := 5

  /** One live SetupKey object: the id in its status, its Secret's "setup-key"
      entry (empty when the Secret lacks it), and the NetBird keys. */
  datatype Keys = Keys(
    keys: seq<Rec<SetupKey>>, nextId: Id, recorded: Id, secret: Option<string>, finalizer: bool, condition: Condition)

  /** newPlain and newShown are what the server would mint. */
  datatype KeyEnv = KeyEnv(
    add: Fault, groups: Reply<seq<Id>>, get: Fault, getSecret: Fault, update: Fault, newPlain: string, newShown: string,
    create: Fault, patchId: Fault, applySecret: Fault, deleteOld: Fault, patchReady: Fault)

  datatype KeyOut = KeyOut(state: Keys, result: M.Result)

  datatype Checked = Checked(state: Keys, reply: Reply<bool>)

  predicate SamePrefix(a: string, b: string) {
    |a| >= KEY_PREFIX_LEN && |b| >= KEY_PREFIX_LEN && a[..KEY_PREFIX_LEN] == b[..KEY_PREFIX_LEN]
  }

  /** Is the recorded key still good? Refreshes its groups when it is. */
  function Check(s: Keys, groups: seq<Id>, env: KeyEnv): Checked {
    if s.recorded == NO_ID then Checked(s, Ok(false))
    else if !env.get.Fine? then Checked(s, if env.get.err == NotFound then Ok(false) else Fail(env.get.err))
    else if !Has(s.keys, s.recorded) then Checked(s, Ok(false))
    else
      var key := Get(s.keys, s.recorded).body;
      if key.state == Overused then Checked(s, Fail(Other))
      else if key.state == Unusable then Checked(s, Ok(false))
      else if !env.getSecret.Fine? then Checked(s, if env.getSecret.err == NotFound then Ok(false) else Fail(env.getSecret.err))
      else if s.secret.None? || !SamePrefix(key.shown, s.secret.value) then Checked(s, Ok(false))
      else
        Checked(if env.update.Acts() then s.(keys := Put(s.keys, s.recorded, key.(groups := groups))) else s,
                if env.update.Fine? then Ok(true) else Fail(env.update.err))
  }

  /** A new key: create it, record its id, store it in the Secret, and only then
      delete the one recorded before. */
  function Rotate(s: Keys, groups: seq<Id>, env: KeyEnv): KeyOut {
    var old_ := s.recorded;
    var id := s.nextId;
    var key := SetupKey(ValidKey, env.newPlain, env.newShown, groups);
    var s1 := if env.create.Acts() then s.(keys := s.keys + [Rec(id, key)], nextId := s.nextId + 1) else s;
    if !env.create.Fine? then KeyOut(s1, M.Failed(env.create.err))
    else
      var s2 := if env.patchId.Acts() then s1.(recorded := id) else s1;
      if !env.patchId.Fine? then KeyOut(s2, M.Failed(env.patchId.err))
      else
        var s3 := if env.applySecret.Acts() then s2.(secret := Some(env.newPlain)) else s2;
        if !env.applySecret.Fine? then KeyOut(s3, M.Failed(env.applySecret.err))
        else
          var s4 := if old_ != NO_ID && env.deleteOld.Acts() then s3.(keys := Remove(s3.keys, old_)) else s3;
          if old_ != NO_ID && !env.deleteOld.Fine? && env.deleteOld.err != NotFound then KeyOut(s4, M.Failed(env.deleteOld.err))
          else
            KeyOut(if env.patchReady.Acts() then s4.(condition := Ready) else s4,
                   if env.patchReady.Fine? then M.Resync else M.Failed(env.patchReady.err))
  }

  function ReconcileKey(s: Keys, env: KeyEnv): KeyOut {
    var s0 := if env.add.Acts() then s.(finalizer := true) else s;
    if !env.add.Fine? then KeyOut(s0, M.Failed(env.add.err))
    else if env.groups.Fail? then KeyOut(s0, M.Failed(env.groups.err))
    else
      var c := Check(s0, env.groups.value, env);
      if c.reply.Fail? then KeyOut(c.state, M.Failed(c.reply.err))
      else if c.reply.value then KeyOut(c.state, M.Resync)
      else Rotate(c.state, env.groups.value, env)
  }

  class SetupKeyReconciler {
    var keys: seq<Rec<SetupKey>>
    var nextId: Id
    var recorded: Id
    var secret: Option<string>
    var finalizer: bool
    var condition: Condition

    function State(): Keys reads this { Keys(keys, nextId, recorded, secret, finalizer, condition) }

    constructor ()
      ensures State() == Keys([], 1, NO_ID, None, false, Unknown)
    {
      keys, nextId, recorded, secret, finalizer, condition := [], 1, NO_ID, None, false, Unknown;
    }

    method UpToDate(groups: seq<Id>, env: KeyEnv) returns (r: Reply<bool>)
      modifies this`keys
      ensures Checked(State(), r) == Check(old(State()), groups, env)
    {
      if recorded == NO_ID {
        return Ok(false);
      }
      var resp := Answer(env.get, if Has(keys, recorded) then Ok(()) else Fail(NotFound));
      if resp.Fail? {
        return if resp.err == NotFound then Ok(false) else Fail(resp.err);
      }
      var key := Get(keys, recorded).body;
      match key.state {
        case ValidKey =>
        case Overused => return Fail(Other);
        case Unusable => return Ok(false);
      }
      var got := Answer(env.getSecret, if secret.Some? then Ok(()) else Fail(NotFound));
      if got.Fail? {
        return if got.err == NotFound then Ok(false) else Fail(got.err);
      }
      var stored := secret.value;
      if |key.shown| < KEY_PREFIX_LEN || |stored| < KEY_PREFIX_LEN || key.shown[..KEY_PREFIX_LEN] != stored[..KEY_PREFIX_LEN] {
        return Ok(false);
      }
      if !env.update.Lost? {
        keys := Put(keys, recorded, key.(groups := groups));
      }
      return if env.update.Fine? then Ok(true) else Fail(env.update.err);
    }

    method Reconcile(env: KeyEnv) returns (result: M.Result)
      modifies this
      ensures KeyOut(State(), result) == ReconcileKey(old(State()), env)
    {
      if !env.add.Lost? {
        finalizer := true;
      }
      if !env.add.Fine? {
        return M.Failed(env.add.err);
      }
      if env.groups.Fail? {
        return M.Failed(env.groups.err);
      }
      var ok := UpToDate(env.groups.value, env);
      if ok.Fail? {
        return M.Failed(ok.err);
      }
      if ok.value {
        return M.Resync;
      }
      var oldSetupKeyID := recorded;
      var id := nextId;
      if !env.create.Lost? {
        keys := keys + [Rec(id, SetupKey(ValidKey, env.newPlain, env.newShown, env.groups.value))];
        nextId := nextId + 1;
      }
      if !env.create.Fine? {
        return M.Failed(env.create.err);
      }
      if !env.patchId.Lost? {
        recorded := id;
      }
      if !env.patchId.Fine? {
        return M.Failed(env.patchId.err);
      }
      if !env.applySecret.Lost? {
        secret := Some(env.newPlain);
      }
      if !env.applySecret.Fine? {
        return M.Failed(env.applySecret.err);
      }
      if oldSetupKeyID != NO_ID {
        if !env.deleteOld.Lost? {
          keys := Remove(keys, oldSetupKeyID);
        }
        if !env.deleteOld.Fine? && env.deleteOld.err != NotFound {
          return M.Failed(env.deleteOld.err);
        }
      }
      if !env.patchReady.Lost? {
        condition := Ready;
      }
      return if env.patchReady.Fine? then M.Resync else M.Failed(env.patchReady.err);
    }
  }

  // ---- What every run keeps ----

  /** The Secret holds key material that works: some existing key's. */
  ghost predicate Holds(s: Keys, plain: string) {
    exists i :: 0 <= i < |s.keys| && s.keys[i].body.plain == plain
  }

  ghost predicate Sound(s: Keys) {
    && WellFormed(s.keys, s.nextId) && s.recorded < s.nextId
    && DistinctPlain(s.keys)
    && (s.secret.Some? ==> Holds(s, s.secret.value))
  }

  /** The server does not hand out key material twice. */
  ghost predicate Unused(s: Keys, plain: string) {
    !Holds(s, plain)
  }

  ghost predicate FailureFree(env: KeyEnv) {
    && env.add.Fine? && env.groups.Ok? && env.get.Fine? && env.getSecret.Fine? && env.update.Fine? && env.create.Fine?
    && env.patchId.Fine? && env.applySecret.Fine? && env.deleteOld.Fine? && env.patchReady.Fine?
  }

  ghost predicate KeptAll(a: seq<Rec<SetupKey>>, b: seq<Rec<SetupKey>>) {
    |a| <= |b| && forall i :: 0 <= i < |a| ==> b[i].id == a[i].id && b[i].body.plain == a[i].body.plain
  }

  /** Rewriting a key without changing its material. */
  lemma PutKeepsMaterial(s: Keys, id: Id, key: SetupKey)
    requires Sound(s) && Has(s.keys, id) && key.plain == Get(s.keys, id).body.plain
    ensures var s' := s.(keys := Put(s.keys, id, key)); Sound(s') && KeptAll(s.keys, s'.keys)
  {
    var s' := s.(keys := Put(s.keys, id, key));
    PutKeepsWellFormed(s.keys, id, key, s.nextId);
    forall i | 0 <= i < |s.keys| ensures s'.keys[i].id == s.keys[i].id && s'.keys[i].body.plain == s.keys[i].body.plain {
      if s.keys[i].id == id {
        SameId(s.keys, s.nextId, s.keys[i], Get(s.keys, id));
      }
    }
    if s.secret.Some? {
      var i :| 0 <= i < |s.keys| && s.keys[i].body.plain == s.secret.value;
      assert s'.keys[i].body.plain == s.secret.value;
    }
  }

  lemma CheckOnlyRefreshes(s: Keys, groups: seq<Id>, env: KeyEnv)
    ensures var c := Check(s, groups, env);
            c.state == s ||
            (Has(s.keys, s.recorded) &&
             c.state == s.(keys := Put(s.keys, s.recorded, Get(s.keys, s.recorded).body.(groups := groups))))
  {
  }

  /** The check leaves everything but one key's groups alone. */
  ghost predicate Checks(s: Keys, s': Keys) {
    Sound(s') && s' == s.(keys := s'.keys) && KeptAll(s.keys, s'.keys) && |s'.keys| == |s.keys|
  }

  lemma CheckKeeps(s: Keys, groups: seq<Id>, env: KeyEnv)
    requires Sound(s)
    ensures Checks(s, Check(s, groups, env).state)
  {
    CheckOnlyRefreshes(s, groups, env);
    var s' := Check(s, groups, env).state;
    if s' == s {
      assert Checks(s, s);
    } else {
      PutKeepsMaterial(s, s.recorded, Get(s.keys, s.recorded).body.(groups := groups));
    }
  }

  /** The key list once the new key is in and the old one possibly out. */
  lemma {:induction false} RemoveKeepsPlain(rs: seq<Rec<SetupKey>>, id: Id, plain: string)
    requires exists i :: 0 <= i < |rs| && rs[i].body.plain == plain && rs[i].id != id
    ensures exists i :: 0 <= i < |Remove(rs, id)| && Remove(rs, id)[i].body.plain == plain
  {
    var i :| 0 <= i < |rs| && rs[i].body.plain == plain && rs[i].id != id;
    assert rs[i] in Remove(rs, id);
  }

  lemma {:induction false} RemoveKeepsDistinctPlain(rs: seq<Rec<SetupKey>>, id: Id)
    requires DistinctPlain(rs)
    ensures DistinctPlain(Remove(rs, id))
  {
    if rs != [] {
      RemoveKeepsDistinctPlain(rs[1..], id);
      var t := Remove(rs[1..], id);
      forall j | 0 <= j < |t| ensures t[j].body.plain != rs[0].body.plain {
        assert t[j] in rs[1..];
      }
      assert Remove(rs, id) == if rs[0].id == id then t else [rs[0]] + t;
    }
  }

  ghost predicate DistinctPlain(rs: seq<Rec<SetupKey>>) {
    forall i, j :: 0 <= i < j < |rs| ==> rs[i].body.plain != rs[j].body.plain
  }

  function Grown(s: Keys, groups: seq<Id>, env: KeyEnv): seq<Rec<SetupKey>> {
    s.keys + [Rec(s.nextId, SetupKey(ValidKey, env.newPlain, env.newShown, groups))]
  }

  /** How far a rotation got: nothing happened; the new key exists, and possibly
      its id is recorded, and possibly the Secret has it; or all of that, and the
      old key is gone. */
  ghost predicate RotationStage(s: Keys, groups: seq<Id>, env: KeyEnv, s': Keys) {
    || (s'.keys == s.keys && s'.nextId == s.nextId && s'.recorded == s.recorded && s'.secret == s.secret)
    || (&& s'.keys == Grown(s, groups, env) && s'.nextId == s.nextId + 1
        && (s'.recorded == s.recorded || s'.recorded == s.nextId)
        && (s'.secret == s.secret || (s'.secret == Some(env.newPlain) && s'.recorded == s.nextId)))
    || (&& s'.keys == Remove(Grown(s, groups, env), s.recorded) && s'.nextId == s.nextId + 1 && s.recorded != NO_ID
        && s'.recorded == s.nextId && s'.secret == Some(env.newPlain))
  }

  lemma RotateReachesAStage(s: Keys, groups: seq<Id>, env: KeyEnv)
    ensures RotationStage(s, groups, env, Rotate(s, groups, env).state)
  {
  }

  lemma GrownIsSound(s: Keys, groups: seq<Id>, env: KeyEnv)
    requires Sound(s) && Unused(s, env.newPlain)
    ensures WellFormed(Grown(s, groups, env), s.nextId + 1) && DistinctPlain(Grown(s, groups, env))
    ensures KeptAll(s.keys, Grown(s, groups, env))
    ensures exists i :: 0 <= i < |Grown(s, groups, env)| && Grown(s, groups, env)[i].body.plain == env.newPlain
                        && Grown(s, groups, env)[i].id != s.recorded
  {
    var grown := Grown(s, groups, env);
    AppendKeepsWellFormed(s.keys, s.nextId, s.nextId + 1, grown[|s.keys|].body);
    assert grown[|s.keys|].body.plain == env.newPlain && grown[|s.keys|].id != s.recorded;
    forall i | 0 <= i < |s.keys| ensures grown[i].body.plain != env.newPlain {
      assert grown[i] == s.keys[i];
    }
  }

  lemma StageIsSound(s: Keys, groups: seq<Id>, env: KeyEnv, s': Keys)
    requires Sound(s) && Unused(s, env.newPlain) && RotationStage(s, groups, env, s')
    ensures Sound(s')
  {
    var grown := Grown(s, groups, env);
    GrownIsSound(s, groups, env);
    if s'.keys == s.keys && s'.nextId == s.nextId {
    } else if s'.keys == grown {
      if s'.secret == s.secret && s.secret.Some? {
        var i :| 0 <= i < |s.keys| && s.keys[i].body.plain == s.secret.value;
        assert grown[i].body.plain == s.secret.value;
      }
    } else {
      RemoveKeepsWellFormed(grown, s.recorded, s.nextId + 1);
      RemoveKeepsDistinctPlain(grown, s.recorded);
      RemoveKeepsPlain(grown, s.recorded, env.newPlain);
    }
  }

  /** A reconcile with any answers keeps the Secret's key alive. */
  lemma ReconcileKeepsSound(s: Keys, env: KeyEnv)
    requires Sound(s) && Unused(s, env.newPlain)
    ensures Sound(ReconcileKey(s, env).state)
  {
    if env.add.Fine? && env.groups.Ok? {
      var s0 := s.(finalizer := true);
      assert Sound(s0);
      CheckKeeps(s0, env.groups.value, env);
      var c := Check(s0, env.groups.value, env);
      assert Unused(c.state, env.newPlain);
      RotateReachesAStage(c.state, env.groups.value, env);
      StageIsSound(c.state, env.groups.value, env, Rotate(c.state, env.groups.value, env).state);
    }
  }

  /** What happens in a run: reconciles with any answers, keys that expire or are
      revoked (or become valid again), and the Secret removed by somebody. */
  datatype KeyStep =
    | Reconcile(env: KeyEnv)
    | KeyChanges(id: Id, state: KeyState)
    | SecretRemoved

  function Next(s: Keys, step: KeyStep): Keys {
    match step
    case Reconcile(env) => ReconcileKey(s, env).state
    case KeyChanges(id, state) =>
      if Has(s.keys, id) then s.(keys := Put(s.keys, id, Get(s.keys, id).body.(state := state))) else s
    case SecretRemoved => s.(secret := None)
  }

  function After(s: Keys, steps: seq<KeyStep>): Keys {
    if steps == [] then s else Next(After(s, steps[..|steps| - 1]), steps[|steps| - 1])
  }

  /** Each reconcile that mints gets key material nobody holds. */
  ghost predicate FreshMaterial(s: Keys, steps: seq<KeyStep>) {
    forall k :: 0 <= k < |steps| && steps[k].Reconcile? ==> Unused(After(s, steps[..k]), steps[k].env.newPlain)
  }

  lemma StepKeepsSound(s: Keys, step: KeyStep)
    requires Sound(s) && (step.Reconcile? ==> Unused(s, step.env.newPlain))
    ensures Sound(Next(s, step))
  {
    match step
    case Reconcile(env) => ReconcileKeepsSound(s, env);
    case KeyChanges(id, state) =>
      if Has(s.keys, id) {
        PutKeepsMaterial(s, id, Get(s.keys, id).body.(state := state));
      }
    case SecretRemoved =>
  }

  /** Wherever the operator crashed before, and however often, and whatever
      expired or was removed meanwhile: as long as the Secret has a value, NetBird
      still has the key it belongs to. */
  lemma {:induction false} SecretAlwaysWorks(s: Keys, steps: seq<KeyStep>)
    requires Sound(s) && FreshMaterial(s, steps)
    ensures Sound(After(s, steps))
  {
    if steps != [] {
      var prefix := steps[..|steps| - 1];
      forall k | 0 <= k < |prefix| && prefix[k].Reconcile? ensures Unused(After(s, prefix[..k]), prefix[k].env.newPlain) {
        assert prefix[..k] == steps[..k];
      }
      SecretAlwaysWorks(s, prefix);
      StepKeepsSound(After(s, prefix), steps[|steps| - 1]);
    }
  }

  lemma DeletedByStage(s: Keys, groups: seq<Id>, env: KeyEnv, s': Keys, i: nat)
    requires RotationStage(s, groups, env, s') && i < |s.keys| && !Has(s'.keys, s.keys[i].id)
    ensures s.keys[i].id == s.recorded && s'.secret == Some(env.newPlain)
  {
    var grown := Grown(s, groups, env);
    assert grown[i] == s.keys[i];
  }

  /** A key that a reconcile deletes is not the one the Secret then holds. */
  lemma NeverDeletesTheHeldKey(s: Keys, env: KeyEnv, k: Rec<SetupKey>)
    requires Sound(s) && Unused(s, env.newPlain) && k in s.keys && !Has(ReconcileKey(s, env).state.keys, k.id)
    ensures k.id == s.recorded
    ensures ReconcileKey(s, env).state.secret == Some(env.newPlain) && env.newPlain != k.body.plain
    ensures Holds(ReconcileKey(s, env).state, env.newPlain)
  {
    ReconcileKeepsSound(s, env);
    var s' := ReconcileKey(s, env).state;
    var i :| 0 <= i < |s.keys| && s.keys[i] == k;
    if env.add.Fine? && env.groups.Ok? {
      var s0 := s.(finalizer := true);
      CheckKeeps(s0, env.groups.value, env);
      var c := Check(s0, env.groups.value, env);
      assert c.state.keys[i].id == k.id;
      if c.reply == Ok(false) {
        RotateReachesAStage(c.state, env.groups.value, env);
        DeletedByStage(c.state, env.groups.value, env, s', i);
      }
    }
  }

  /** The Secret agrees with the recorded key, which exists: it is that key, or
      it shows the same first five characters. */
  ghost predicate Agrees(s: Keys, minted: bool) {
    && s.recorded != NO_ID && Has(s.keys, s.recorded) && s.secret.Some?
    && var key := Get(s.keys, s.recorded).body;
       && key.state == ValidKey
       && (if minted then s.secret.value == key.plain else SamePrefix(key.shown, s.secret.value))
  }

  /** From whatever state crashes left behind, one failure-free reconcile on a key
      that is not overused ends with Secret and recorded key in agreement, and
      with the groups as asked for. */
  lemma OneReconcileSettles(s: Keys, env: KeyEnv)
    requires WellFormed(s.keys, s.nextId) && s.recorded < s.nextId && FailureFree(env)
    requires Has(s.keys, s.recorded) ==> Get(s.keys, s.recorded).body.state != Overused
    ensures var out := ReconcileKey(s, env);
            && out.result == M.Resync && Agrees(out.state, out.state.recorded != s.recorded)
            && Get(out.state.keys, out.state.recorded).body.groups == env.groups.value
  {
    var c := Check(s.(finalizer := true), env.groups.value, env);
    if c.reply == Ok(true) {
      UpToDateIsSettled(s, env);
    } else {
      assert c.reply == Ok(false) && c.state == s.(finalizer := true);
      RotationSettles(s, env);
    }
  }

  lemma UpToDateIsSettled(s: Keys, env: KeyEnv)
    requires WellFormed(s.keys, s.nextId) && FailureFree(env)
    requires Check(s.(finalizer := true), env.groups.value, env).reply == Ok(true)
    ensures var out := ReconcileKey(s, env);
            && out.result == M.Resync && out.state.recorded == s.recorded && Agrees(out.state, false)
            && Get(out.state.keys, out.state.recorded).body.groups == env.groups.value
  {
    var groups := env.groups.value;
    var out := ReconcileKey(s, env);
    var key := Get(s.keys, s.recorded).body;
    PutKeepsWellFormed(s.keys, s.recorded, key.(groups := groups), s.nextId);
    var i :| 0 <= i < |s.keys| && s.keys[i].id == s.recorded;
    assert out.state.keys[i].id == s.recorded;
    SameId(out.state.keys, s.nextId, Get(out.state.keys, s.recorded), Rec(s.recorded, key.(groups := groups)));
  }

  lemma RotationSettles(s: Keys, env: KeyEnv)
    requires WellFormed(s.keys, s.nextId) && s.recorded < s.nextId && FailureFree(env)
    requires Check(s.(finalizer := true), env.groups.value, env).reply == Ok(false)
    requires Check(s.(finalizer := true), env.groups.value, env).state == s.(finalizer := true)
    ensures var out := ReconcileKey(s, env);
            && out.result == M.Resync && out.state.recorded == s.nextId && Agrees(out.state, true)
            && Get(out.state.keys, out.state.recorded).body.groups == env.groups.value
  {
    var minted := Rec(s.nextId, SetupKey(ValidKey, env.newPlain, env.newShown, env.groups.value));
    var grown := s.keys + [minted];
    var out := ReconcileKey(s, env);
    AppendKeepsWellFormed(s.keys, s.nextId, s.nextId + 1, minted.body);
    RemoveKeepsWellFormed(grown, s.recorded, s.nextId + 1);
    assert grown[|s.keys|] == minted;
    assert minted in out.state.keys;
    var i :| 0 <= i < |out.state.keys| && out.state.keys[i] == minted;
    SameId(out.state.keys, s.nextId + 1, Get(out.state.keys, s.nextId), minted);
  }

  // ---- When a key is rotated ----

  /** The recorded key cannot be kept: there is none, it is gone or no longer valid,
      or the Secret is missing or shows different first five characters. */
  predicate MustRotate(s: Keys) {
    s.recorded == NO_ID || !Has(s.keys, s.recorded) ||
    (var key := Get(s.keys, s.recorded).body;
     || key.state == Unusable
     || (key.state == ValidKey && (s.secret.None? || |key.shown| < 5 || |s.secret.value| < 5 || key.shown[..5] != s.secret.value[..5])))
  }

  /** A failure-free reconcile rotates exactly when the key cannot be kept, and then
      the old key is gone, every other one is still there, and the object is ready. */
  lemma RotatesIff(s: Keys, env: KeyEnv)
    requires WellFormed(s.keys, s.nextId) && s.recorded < s.nextId && FailureFree(env)
    requires Has(s.keys, s.recorded) ==> Get(s.keys, s.recorded).body.state != Overused
    ensures var out := ReconcileKey(s, env).state;
            && (out.recorded != s.recorded <==> MustRotate(s))
            && (MustRotate(s) ==> out.condition == Ready && out.secret == Some(env.newPlain))
            && (MustRotate(s) && s.recorded != NO_ID ==> !Has(out.keys, s.recorded))
            && (MustRotate(s) ==> forall k :: k in s.keys && k.id != s.recorded ==> k in out.keys)
            && (!MustRotate(s) ==> out.secret == s.secret && |out.keys| == |s.keys|)
  {
    if MustRotate(s) {
      assert Check(s.(finalizer := true), env.groups.value, env) == Checked(s.(finalizer := true), Ok(false));
      var grown := s.keys + [Rec(s.nextId, SetupKey(ValidKey, env.newPlain, env.newShown, env.groups.value))];
      AppendKeepsWellFormed(s.keys, s.nextId, s.nextId + 1, grown[|s.keys|].body);
      RemoveKeepsWellFormed(grown, s.recorded, s.nextId + 1);
      assert forall k :: k in s.keys ==> k in grown;
    }
  }

  /** An overused key is reported as an error and left alone. */
  lemma OverusedIsLeftAlone(s: Keys, env: KeyEnv)
    requires FailureFree(env) && s.recorded != NO_ID && Has(s.keys, s.recorded) && Get(s.keys, s.recorded).body.state == Overused
    ensures ReconcileKey(s, env) == KeyOut(s.(finalizer := true), M.Failed(Other))
  {
  }

  /** No rotation follows an answer that leaves the key's state unclear: unresolved
      groups, or a GET of the key or the Secret that fails with something other than
      "not found". */
  lemma UnclearAnswersRotateNothing(s: Keys, env: KeyEnv)
    requires || !env.add.Fine? || env.groups.Fail?
             || (s.recorded != NO_ID && !env.get.Fine? && env.get.err != NotFound)
             || (s.recorded != NO_ID && env.get.Fine? && Has(s.keys, s.recorded) && Get(s.keys, s.recorded).body.state == ValidKey
                 && !env.getSecret.Fine? && env.getSecret.err != NotFound)
    ensures var out := ReconcileKey(s, env);
            out.result.Failed? && out.state == s.(finalizer := out.state.finalizer)
  {
  }

  /** Each step of a rotation takes effect only after the ones before it were answered:
      the id is recorded after the key was created, the Secret is written after that,
      and a key is deleted only once the Secret holds the new one. */
  lemma StepsComeInOrder(s: Keys, env: KeyEnv)
    requires WellFormed(s.keys, s.nextId) && s.recorded < s.nextId && Unused(s, env.newPlain)
    ensures var out := ReconcileKey(s, env).state;
            && (out.recorded != s.recorded ==> out.recorded == s.nextId && env.create.Fine? && !env.patchId.Lost?)
            && (out.secret != s.secret ==> out.secret == Some(env.newPlain) && env.create.Fine? && env.patchId.Fine? && !env.applySecret.Lost?)
            && (forall k :: k in s.keys && !Has(out.keys, k.id) ==>
                  k.id == s.recorded && env.applySecret.Fine? && !env.deleteOld.Lost? && out.secret == Some(env.newPlain))
  {
    if env.add.Fine? && env.groups.Ok? {
      var s0 := s.(finalizer := true);
      CheckOnlyRefreshes(s0, env.groups.value, env);
      var c := Check(s0, env.groups.value, env);
      if c.reply == Ok(false) {
        assert c.state == s0;
        DeletionComesLast(s0, env.groups.value, env);
      } else {
        assert |c.state.keys| == |s.keys| && forall i :: 0 <= i < |s.keys| ==> c.state.keys[i].id == s.keys[i].id;
      }
    }
  }

  lemma DeletionComesLast(s: Keys, groups: seq<Id>, env: KeyEnv)
    ensures var out := Rotate(s, groups, env).state;
            forall k :: k in s.keys && !Has(out.keys, k.id) ==>
              k.id == s.recorded && env.applySecret.Fine? && !env.deleteOld.Lost? && out.secret == Some(env.newPlain)
  {
    var out := Rotate(s, groups, env).state;
    RotateReachesAStage(s, groups, env);
    var grown := Grown(s, groups, env);
    forall k | k in s.keys && !Has(out.keys, k.id)
      ensures k.id == s.recorded && env.applySecret.Fine? && !env.deleteOld.Lost? && out.secret == Some(env.newPlain)
    {
      var i :| 0 <= i < |s.keys| && s.keys[i] == k;
      assert grown[i] == k && k in grown;
      DeletedByStage(s, groups, env, out, i);
    }
  }

  /** A reconcile that reports success has done all it set out to do: it kept the key
      and refreshed its groups, or it went through every step of a rotation, the old
      key deleted or gone. */
  lemma SuccessMeansEveryStep(s: Keys, env: KeyEnv)
    requires WellFormed(s.keys, s.nextId) && s.recorded < s.nextId && ReconcileKey(s, env).result == M.Resync
    ensures env.add.Fine? && env.groups.Ok?
    ensures if ReconcileKey(s, env).state.recorded == s.recorded then env.update.Fine?
            else && env.create.Fine? && env.patchId.Fine? && env.applySecret.Fine? && env.patchReady.Fine?
                 && (s.recorded != NO_ID ==> env.deleteOld.Fine? || env.deleteOld.err == NotFound)
  {
  }
}
