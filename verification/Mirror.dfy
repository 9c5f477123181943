/** The generic mirror reconciler (internal/controller/mirror.go): one finalizer
    state machine, driven by a per-kind apply and delete. */
module Mirror {
  import opened Api
  import opened Kube

  /** The outcome of a kind's apply: the new NetBird side, the in-memory status
      and the error, if any. */
  datatype Applied<+W, +St> = Applied(world: W, status: St, err: Option<Err>)

  datatype Deleted<+W> = Deleted(world: W, err: Option<Err>)

  /** Per-kind behaviour, already fixed to what the API calls of this one
      reconcile will answer. It sees the NetBird side and all objects of its kind. */
  type Apply<!W, !Sp, !St> = (W, Store<Sp, St>, Uid) -> Applied<W, St>
  type Delete<!W, !Sp, !St> = (W, Store<Sp, St>, Uid) -> Deleted<W>

  /** The fate of the reconciler's own patches: adding the finalizer, writing
      the status, removing the finalizer. */
  datatype Patches = Patches(add: Fault, status: Fault, remove: Fault)

  const ALL_FINE: Patches := Patches(Fine, Fine, Fine)

  datatype Result = Done | Resync | DependencyRetry | CleanupRetry | Failed(err: Err)

  datatype Reconciled<+W, Sp, St> = Reconciled(world: W, store: Store<Sp, St>, result: Result)

  /** del ended in success or not-found: nothing is left to clean up. */
  predicate Cleaned<W>(d: Deleted<W>) {
    d.err.None? || d.err.value == NotFound
  }

  function Outcome(f: Fault, good: Result): Result {
    if f.Fine? then good else Failed(f.err)
  }

  function DeleteStep<W, Sp, St>(world: W, store: Store<Sp, St>, uid: Uid, own: string,
                                 del: Delete<W, Sp, St>, f: Patches): Reconciled<W, Sp, St>
    requires uid in store
  {
    var d := del(world, store, uid);
    if Cleaned(d) then
      var obj := store[uid].(finalizers := store[uid].finalizers - {own});
      Reconciled(d.world, Patched(store, uid, obj, f.remove), Outcome(f.remove, Done))
    else if d.err.value == Conflict then Reconciled(d.world, store, CleanupRetry)
    else Reconciled(d.world, store, Failed(d.err.value))
  }

  function ReconcileStep<W, Sp, St>(world: W, store: Store<Sp, St>, uid: Uid, own: string,
                                    apply: Apply<W, Sp, St>, del: Delete<W, Sp, St>, f: Patches)
    : Reconciled<W, Sp, St>
  {
    if uid !in store then Reconciled(world, store, Done)
    else if store[uid].deleting then DeleteStep(world, store, uid, own, del, f)
    else
      var obj := store[uid].(finalizers := store[uid].finalizers + {own});
      var store1 := Patched(store, uid, obj, f.add);
      if !f.add.Fine? then Reconciled(world, store1, Failed(f.add.err))
      else
        var a := apply(world, store1, uid);
        if a.err.None? then
          var obj1 := obj.(status := a.status, condition := Ready);
          Reconciled(a.world, Patched(store1, uid, obj1, f.status), Outcome(f.status, Resync))
        else if a.err.value == NotReady then
          var obj1 := obj.(status := a.status, condition := NotReadyYet);
          Reconciled(a.world, Patched(store1, uid, obj1, f.status), Outcome(f.status, DependencyRetry))
        else Reconciled(a.world, store1, Failed(a.err.value))
  }

  /** What a delete reconcile does to the store: nobody else is touched, and the
      object at most loses its finalizer or goes. */
  ghost predicate DeleteShape<Sp, St>(store: Store<Sp, St>, store': Store<Sp, St>, uid: Uid) {
    && (forall u :: u in store && u != uid ==> u in store' && store'[u] == store[u])
    && (forall u :: u in store' ==> u in store)
    && (uid in store && uid in store' ==>
          store'[uid].spec == store[uid].spec && store'[uid].status == store[uid].status && store'[uid].deleting == store[uid].deleting)
  }

  lemma DeleteHasShape<W, Sp, St>(world: W, store: Store<Sp, St>, uid: Uid, own: string, del: Delete<W, Sp, St>, f: Patches)
    requires uid in store
    ensures var r := DeleteStep(world, store, uid, own, del, f);
            DeleteShape(store, r.store, uid) && r.world == del(world, store, uid).world
  {
  }

  /** What a reconcile of a live object does to the store, for any outcome a of
      its apply: nobody else is touched, and the status is kept or becomes a's
      while the finalizer is held. */
  ghost predicate LiveShape<W, Sp, St>(world: W, store: Store<Sp, St>, r: Reconciled<W, Sp, St>, uid: Uid, own: string,
                                       a: Applied<W, St>)
    requires uid in store
  {
    && r.store.Keys == store.Keys
    && (r.world == world || r.world == a.world)
    && (forall u :: u in store && u != uid ==> r.store[u] == store[u])
    && r.store[uid].spec == store[uid].spec && !r.store[uid].deleting
    && store[uid].finalizers <= r.store[uid].finalizers
    && (r.store[uid].status == store[uid].status ||
        (own in r.store[uid].finalizers && r.world == a.world && r.store[uid].status == a.status))
  }

  lemma ReconcileHasLiveShape<W, Sp, St>(world: W, store: Store<Sp, St>, uid: Uid, own: string,
                                         apply: Apply<W, Sp, St>, del: Delete<W, Sp, St>, f: Patches)
    requires uid in store && !store[uid].deleting
    ensures var obj := store[uid].(finalizers := store[uid].finalizers + {own});
            LiveShape(world, store, ReconcileStep(world, store, uid, own, apply, del, f), uid, own,
                      apply(world, store[uid := obj], uid))
  {
  }

  /** How a reconcile of a live object ends, for every apply and every answer to the
      patches: Ready and a resync exactly after a success, NotReady and a dependency
      retry exactly while a dependency is missing, and otherwise the error itself with
      condition and status as they were. */
  lemma LiveOutcome<W, Sp, St>(world: W, store: Store<Sp, St>, uid: Uid, own: string,
                               apply: Apply<W, Sp, St>, del: Delete<W, Sp, St>, f: Patches)
    requires uid in store && !store[uid].deleting
    ensures var r := ReconcileStep(world, store, uid, own, apply, del, f);
            var a := apply(world, store[uid := store[uid].(finalizers := store[uid].finalizers + {own})], uid);
            var told := a.err.None? || a.err == Some(NotReady);
            && uid in r.store
            && (if f.add.Fine? then r.world == a.world && own in r.store[uid].finalizers
                else r.world == world && r.result == Failed(f.add.err))
            && (r.result == Resync <==> f.add.Fine? && a.err.None? && f.status.Fine?)
            && (r.result == DependencyRetry <==> f.add.Fine? && a.err == Some(NotReady) && f.status.Fine?)
            && (f.add.Fine? && !told ==> r.result == Failed(a.err.value))
            && (f.add.Fine? && told && !f.status.Fine? ==> r.result == Failed(f.status.err))
            && (if f.add.Fine? && told && !f.status.Lost?
                then r.store[uid].status == a.status && r.store[uid].condition == (if a.err.None? then Ready else NotReadyYet)
                else r.store[uid].status == store[uid].status && r.store[uid].condition == store[uid].condition)
  {
  }

  /** How a delete reconcile ends, for every del: success and "not found" release
      the object, a conflict is retried later, any other error is returned; and it
      leaves Kubernetes exactly when it is released and nobody else holds it. */
  lemma DeleteOutcome<W, Sp, St>(world: W, store: Store<Sp, St>, uid: Uid, own: string,
                                 apply: Apply<W, Sp, St>, del: Delete<W, Sp, St>, f: Patches)
    requires uid in store && store[uid].deleting
    ensures var r := ReconcileStep(world, store, uid, own, apply, del, f);
            var d := del(world, store, uid);
            var cleaned := d.err.None? || d.err == Some(NotFound);
            && r.world == d.world
            && (r.result == Done <==> cleaned && f.remove.Fine?)
            && (r.result == CleanupRetry <==> d.err == Some(Conflict))
            && (cleaned && !f.remove.Fine? ==> r.result == Failed(f.remove.err))
            && (!cleaned && d.err != Some(Conflict) ==> r.result == Failed(d.err.value))
            && (uid !in r.store <==> cleaned && !f.remove.Lost? && store[uid].finalizers <= {own})
            && (uid in r.store ==>
                  r.store[uid] == if cleaned && !f.remove.Lost? then store[uid].(finalizers := store[uid].finalizers - {own}) else store[uid])
  {
  }

  class MirrorReconciler<W, Sp, St> {
    var world: W
    var store: Store<Sp, St>
    const own: string

    constructor (world: W, own: string)
      ensures this.world == world && store == map[] && this.own == own
    {
      this.world, this.own, store := world, own, map[];
    }

    method Patch(uid: Uid, obj: Object<Sp, St>, f: Fault) returns (err: Option<Err>)
      modifies this`store
      ensures store == Patched(old(store), uid, obj, f) && err == f.Error()
    {
      if !f.Lost? {
        if obj.deleting && obj.finalizers == {} {
          store := store - {uid};
        } else {
          store := store[uid := obj];
        }
      }
      err := f.Error();
    }

    method Reconcile(uid: Uid, apply: Apply<W, Sp, St>, del: Delete<W, Sp, St>, f: Patches)
      returns (result: Result)
      modifies this
      ensures Reconciled(world, store, result) == ReconcileStep(old(world), old(store), uid, own, apply, del, f)
    {
      if uid !in store {
        return Done;
      }
      var obj := store[uid];
      if obj.deleting {
        result := ReconcileDelete(uid, del, f);
        return;
      }
      obj := obj.(finalizers := obj.finalizers + {own});
      var perr := Patch(uid, obj, f.add);
      if perr.Some? {
        return Failed(perr.value);
      }
      var a := apply(world, store, uid);
      world := a.world;
      obj := obj.(status := a.status);
      if a.err.Some? {
        if a.err.value == NotReady {
          obj := obj.(condition := NotReadyYet);
          perr := Patch(uid, obj, f.status);
          return if perr.Some? then Failed(perr.value) else DependencyRetry;
        }
        return Failed(a.err.value);
      }
      obj := obj.(condition := Ready);
      perr := Patch(uid, obj, f.status);
      return if perr.Some? then Failed(perr.value) else Resync;
    }

    method ReconcileDelete(uid: Uid, del: Delete<W, Sp, St>, f: Patches) returns (result: Result)
      requires uid in store
      modifies this
      ensures Reconciled(world, store, result) == DeleteStep(old(world), old(store), uid, own, del, f)
    {
      var obj := store[uid];
      var d := del(world, store, uid);
      world := d.world;
      if d.err.Some? && d.err.value != NotFound {
        if d.err.value == Conflict {
          return CleanupRetry;
        }
        return Failed(d.err.value);
      }
      obj := obj.(finalizers := obj.finalizers - {own});
      var perr := Patch(uid, obj, f.remove);
      return if perr.Some? then Failed(perr.value) else Done;
    }
  }

  /** Returns id while get still finds the object, the empty id once a GET says
      it is gone, and the error otherwise. */
  function VerifyId(id: Id, got: Reply<()>): (r: Reply<Id>)
    ensures r.Ok? && r.value != NO_ID <==> id != NO_ID && got.Ok?
    ensures r.Ok? && r.value != NO_ID ==> r.value == id
    ensures r.Fail? <==> id != NO_ID && got.Fail? && got.err != NotFound
    ensures r.Fail? ==> r.err == got.err
  {
    if id == NO_ID then Ok(NO_ID)
    else if got.Ok? then Ok(id)
    else if got.err == NotFound then Ok(NO_ID)
    else Fail(got.err)
  }

  // ---- The finalizer protocol over whole runs ----

  datatype State<W, Sp, St> = State(world: W, store: Store<Sp, St>, nextUid: Uid)

  /** Everything that can happen to the objects of one kind. ForeignFinalizers
      is another controller setting the finalizers that are not ours. */
  datatype Step<!W, !Sp, !St> =
    | Create(spec: Sp, foreign: set<string>)
    | Edit(uid: Uid, newSpec: Sp)
    | MarkDeleting(uid: Uid)
    | ForeignFinalizers(uid: Uid, others: set<string>)
    | OutOfBand(world: W)
    | Reconcile(uid: Uid, apply: Apply<W, Sp, St>, del: Delete<W, Sp, St>, patches: Patches)

  function Next<W, Sp, St>(s: State<W, Sp, St>, own: string, blank: St, step: Step<W, Sp, St>): State<W, Sp, St> {
    match step
    case Create(spec, foreign) =>
      s.(store := s.store[s.nextUid := Object(spec, blank, false, foreign - {own}, Unknown)], nextUid := s.nextUid + 1)
    case Edit(uid, spec) =>
      if uid in s.store then s.(store := s.store[uid := s.store[uid].(spec := spec)]) else s
    case MarkDeleting(uid) =>
      if uid in s.store then s.(store := Written(s.store, uid, s.store[uid].(deleting := true))) else s
    case ForeignFinalizers(uid, others) =>
      if uid in s.store then
        s.(store := Written(s.store, uid, s.store[uid].(finalizers := (others - {own}) + (s.store[uid].finalizers * {own}))))
      else s
    case OutOfBand(world) => s.(world := world)
    case Reconcile(uid, apply, del, patches) =>
      var r := ReconcileStep(s.world, s.store, uid, own, apply, del, patches);
      s.(world := r.world, store := r.store)
  }

  /** The state after the first n steps. */
  function After<W, Sp, St>(s: State<W, Sp, St>, own: string, blank: St, steps: seq<Step<W, Sp, St>>, n: nat): State<W, Sp, St>
    requires n <= |steps|
  {
    if n == 0 then s else Next(After(s, own, blank, steps, n - 1), own, blank, steps[n - 1])
  }

  /** Step n was a delete reconcile of uid whose del ended in success or not-found. */
  ghost predicate CleanedAt<W, Sp, St>(s: State<W, Sp, St>, own: string, blank: St,
                                       steps: seq<Step<W, Sp, St>>, n: nat, uid: Uid)
    requires n < |steps|
  {
    var before := After(s, own, blank, steps, n);
    && steps[n].Reconcile? && steps[n].uid == uid
    && uid in before.store && before.store[uid].deleting
    && Cleaned(steps[n].del(before.world, before.store, uid))
  }

  ghost predicate CleanedBefore<W, Sp, St>(s: State<W, Sp, St>, own: string, blank: St,
                                           steps: seq<Step<W, Sp, St>>, n: nat, uid: Uid)
    requires n <= |steps|
  {
    exists k :: 0 <= k < n && CleanedAt(s, own, blank, steps, k, uid)
  }

  /** An object that has recorded something carries our finalizer, or is
      deleting with its clean-up behind it. */
  ghost predicate Guarded<W, Sp, St>(s: State<W, Sp, St>, own: string, blank: St,
                                     steps: seq<Step<W, Sp, St>>, n: nat)
    requires n <= |steps|
  {
    var now := After(s, own, blank, steps, n);
    && (forall u :: u in now.store ==> u < now.nextUid)
    && (forall u :: u in now.store && now.store[u].status != blank ==>
          own in now.store[u].finalizers || (now.store[u].deleting && CleanedBefore(s, own, blank, steps, n, u)))
  }

  /** In every reachable state, for every per-kind behaviour and every pattern of
      failing calls, an object with a recorded status holds the finalizer unless
      its NetBird side has already been cleaned up. */
  lemma {:induction false} FinalizerProtocol<W, Sp, St>(
    s: State<W, Sp, St>, own: string, blank: St, steps: seq<Step<W, Sp, St>>, n: nat)
    requires s.store == map[] && n <= |steps|
    ensures Guarded(s, own, blank, steps, n)
  {
    if n > 0 {
      FinalizerProtocol(s, own, blank, steps, n - 1);
      var prev := After(s, own, blank, steps, n - 1);
      var now := After(s, own, blank, steps, n);
      forall u | u in now.store && now.store[u].status != blank
        ensures own in now.store[u].finalizers || (now.store[u].deleting && CleanedBefore(s, own, blank, steps, n, u))
      {
        if own !in now.store[u].finalizers {
          GuardKept(prev, own, blank, steps[n - 1], u);
          if CleanedBefore(s, own, blank, steps, n - 1, u) {
            var k :| 0 <= k < n - 1 && CleanedAt(s, own, blank, steps, k, u);
          } else {
            assert CleanedAt(s, own, blank, steps, n - 1, u);
          }
        }
      }
    }
  }

  /** One step: an object that ends up recorded but unguarded either was so
      before, or was just cleaned up. */
  lemma GuardKept<W, Sp, St>(prev: State<W, Sp, St>, own: string, blank: St, step: Step<W, Sp, St>, u: Uid)
    requires var now := Next(prev, own, blank, step);
             u in now.store && now.store[u].status != blank && own !in now.store[u].finalizers
    requires forall v :: v in prev.store ==> v < prev.nextUid
    ensures u in prev.store && prev.store[u].status != blank
    ensures Next(prev, own, blank, step).store[u].deleting || !prev.store[u].deleting
    ensures own in prev.store[u].finalizers ==>
              step.Reconcile? && step.uid == u && prev.store[u].deleting && Cleaned(step.del(prev.world, prev.store, u))
  {
  }

  /** The only way out of Kubernetes: an object that had recorded something is
      gone only after a delete reconcile whose del ended in success or
      not-found. A conflict or error answer never lets it go. */
  lemma LeavesOnlyCleaned<W, Sp, St>(
    s: State<W, Sp, St>, own: string, blank: St, steps: seq<Step<W, Sp, St>>, n: nat, u: Uid)
    requires s.store == map[] && n < |steps|
    requires var prev := After(s, own, blank, steps, n); u in prev.store && prev.store[u].status != blank
    requires u !in After(s, own, blank, steps, n + 1).store
    ensures CleanedBefore(s, own, blank, steps, n + 1, u)
  {
    FinalizerProtocol(s, own, blank, steps, n);
    var prev := After(s, own, blank, steps, n);
    if own in prev.store[u].finalizers {
      assert CleanedAt(s, own, blank, steps, n, u);
    } else {
      var k :| 0 <= k < n && CleanedAt(s, own, blank, steps, k, u);
    }
  }
}
