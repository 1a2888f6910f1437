/** Pin conservation, and the artifact of a restored runtime until it is stopped. */
module PinProofs {
  import opened Basics
  import opened StatusCodes
  import S = SnapshotStore
  import SP = StoreProofs
  import opened RestorePins

  ghost function Holders(m: map<Key, Id>, id: Id): nat {
    |set k | k in m && m[k] == id|
  }

  lemma HoldersAdd(m: map<Key, Id>, k: Key, id: Id, x: Id)
    requires k !in m
    ensures Holders(m[k := id], x) == Holders(m, x) + if x == id then 1 else 0
  {
    var n := m[k := id];
    var before := set j | j in m && m[j] == x;
    var now := set j | j in n && n[j] == x;
    assert now == if x == id then before + {k} else before;
  }

  lemma HoldersRemove(m: map<Key, Id>, k: Key, x: Id)
    requires k in m
    ensures Holders(m, x) == Holders(m - {k}, x) + if m[k] == x then 1 else 0
  {
    HoldersAdd(m - {k}, k, m[k], x);
    assert (m - {k})[k := m[k]] == m;
  }

  lemma {:induction false} SmallerSet(smaller: set<Key>, larger: set<Key>)
    requires smaller <= larger
    ensures |smaller| <= |larger|
    decreases smaller
  {
    if smaller != {} {
      var x :| x in smaller;
      SmallerSet(smaller - {x}, larger - {x});
    }
  }

  lemma HoldersAtMost(m: map<Key, Id>, id: Id)
    ensures Holders(m, id) <= |m.Keys|
  {
    SmallerSet((set k | k in m && m[k] == id), m.Keys);
  }

  lemma NobodyHolds()
    ensures forall id :: Holders(map[], id) == 0
  {
    forall id ensures Holders(map[], id) == 0 { HoldersAtMost(map[], id); }
  }

  /** The store counts exactly the pins that requests and runtimes hold. */
  ghost predicate Conserved(s: S.Store, requests: map<Key, Id>, runtimes: map<Key, Id>) {
    forall id :: S.PinCount(s, id) == Holders(requests, id) + Holders(runtimes, id)
  }

  ghost predicate Held(store: Option<S.Store>, requests: map<Key, Id>, runtimes: map<Key, Id>) {
    match store
    case None => requests == map[] && runtimes == map[]
    case Some(s) => SP.Inv(s) && Conserved(s, requests, runtimes)
  }

  ghost predicate Inv(a: Agent) {
    Held(a.store, a.requestPins, a.runtimePins)
  }

  /** Releasing one held pin: `b` is `a` with one holder of `id` taken away. */
  lemma UnpinKeeps(a: Agent, b: Agent, id: Id, evictAfter: bool, io: S.Disk)
    requires Inv(a) && a.store.Some? && b.store == a.store
    requires forall x :: Holders(b.requestPins, x) + Holders(b.runtimePins, x) + (if x == id then 1 else 0)
                         == Holders(a.requestPins, x) + Holders(a.runtimePins, x)
    ensures Inv(UnpinStore(b, id, evictAfter, io))
  {
    var s, u := a.store.value, UnpinStore(b, id, evictAfter, io);
    SP.OpInv(s, S.DoUnpin(id, evictAfter, io));
    forall x ensures S.PinCount(u.store.value, x) == Holders(u.requestPins, x) + Holders(u.runtimePins, x) {
      SP.PinTheorem(s, S.DoUnpin(id, evictAfter, io), x);
    }
  }

  lemma ReleaseRequestKeeps(a: Agent, req: Key, io: S.Disk)
    requires Inv(a)
    ensures Inv(ReleaseRequest(a, req, io))
  {
    if req in a.requestPins {
      forall x { HoldersRemove(a.requestPins, req, x); }
      UnpinKeeps(a, a.(requestPins := a.requestPins - {req}), a.requestPins[req], !a.keepsLocal, io);
    }
  }

  lemma ReleaseRuntimeKeeps(a: Agent, runtime: Key, io: S.Disk)
    requires Inv(a)
    ensures Inv(ReleaseRuntime(a, runtime, io))
  {
    if runtime in a.runtimePins {
      forall x { HoldersRemove(a.runtimePins, runtime, x); }
      UnpinKeeps(a, a.(runtimePins := a.runtimePins - {runtime}), a.runtimePins[runtime], !a.keepsLocal, io);
    }
  }

  /** Promotion moves a pin from the request to the runtime, gives up the second pin of a
      replay, or leaves everything where it is. */
  lemma PromoteKeeps(a: Agent, req: Key, runtime: Key, io: S.Disk)
    requires Inv(a)
    ensures Inv(Promote(a, req, runtime, io))
  {
    if req in a.requestPins && runtime != "" {
      var id := a.requestPins[req];
      var b := a.(requestPins := a.requestPins - {req});
      forall x { HoldersRemove(a.requestPins, req, x); }
      if runtime !in a.runtimePins {
        forall x { HoldersAdd(a.runtimePins, runtime, id, x); }
        assert Conserved(a.store.value, b.requestPins, a.runtimePins[runtime := id]);
      } else if a.runtimePins[runtime] == id {
        UnpinKeeps(a, b, id, false, io);
      }
    }
  }

  lemma ForwardKeeps(a: Agent, req: Key, snapshot: Id, trusted: bool, same: bool)
    requires Inv(a)
    ensures Inv(ForwardStart(a, req, snapshot, trusted, same).0)
  {
    if a.store.Some? && req !in a.requestPins && S.Pin(a.store.value, snapshot).1.Ok? {
      var s := a.store.value;
      var u := S.Pin(s, snapshot).0;
      SP.OpInv(s, S.DoPin(snapshot));
      forall x ensures S.PinCount(u, x) == Holders(a.requestPins[req := snapshot], x) + Holders(a.runtimePins, x) {
        SP.PinTheorem(s, S.DoPin(snapshot), x);
        HoldersAdd(a.requestPins, req, snapshot, x);
      }
      assert Held(Some(u), a.requestPins[req := snapshot], a.runtimePins);
    }
  }

  lemma OtherKeeps(a: Agent, op: S.Op)
    requires Inv(a) && Enabled(a, Other(op))
    ensures Inv(Apply(a, Other(op)))
  {
    var s := a.store.value;
    SP.OpInv(s, op);
    forall x { SP.PinTheorem(s, op, x); }
  }

  lemma StepKeeps(a: Agent, e: Event)
    requires Inv(a) && Enabled(a, e)
    ensures Inv(Apply(a, e))
  {
    match e
    case Forward(req, snapshot, trusted, same) => ForwardKeeps(a, req, snapshot, trusted, same);
    case Started(req, _, runtime, io) =>
      ReleaseRequestKeeps(a, req, io);
      PromoteKeeps(a, req, runtime, io);
    case Stopped(_, _, runtime, io) => ReleaseRuntimeKeeps(a, runtime, io);
    case Other(op) => OtherKeeps(a, op);
    case _ =>
  }

  /** In every run, whatever is forwarded, replayed, refused, answered, promoted, retained
      and released. */
  lemma {:induction false} ConservationTheorem(a: Agent, es: seq<Event>)
    requires Inv(a) && Possible(a, es)
    ensures Inv(Run(a, es))
    decreases |es|
  {
    if es != [] {
      StepKeeps(a, es[0]);
      ConservationTheorem(Apply(a, es[0]), es[1..]);
    }
  }

  /** An agent that has just started, with or without a local store. */
  function Fresh(local: bool, limit: nat, disk: map<Id, S.Entry>, keepsLocal: bool): Agent {
    NewAgent(if local then Some(S.NewStore(limit, disk)) else None, keepsLocal)
  }

  /** So it holds in every state that an agent can reach. */
  lemma ReachableConserved(local: bool, limit: nat, disk: map<Id, S.Entry>, keepsLocal: bool, es: seq<Event>)
    requires Possible(Fresh(local, limit, disk, keepsLocal), es)
    ensures Inv(Run(Fresh(local, limit, disk, keepsLocal), es))
  {
    forall id { HoldersAtMost(map[], id); }
    ConservationTheorem(Fresh(local, limit, disk, keepsLocal), es);
  }

  /** What an accepted restore holds. */
  lemma ForwardPins(a: Agent, req: Key, snapshot: Id, trusted: bool, same: bool)
    requires Inv(a)
    ensures var (b, answer) := ForwardStart(a, req, snapshot, trusted, same);
            && b.runtimePins == a.runtimePins
            && (answer == Forwarded && snapshot != "" ==>
                  && req in b.requestPins && b.requestPins[req] == snapshot
                  && b.store.Some? && S.Pinned(b.store.value, snapshot) && snapshot in b.store.value.disk)
  {
    var (b, answer) := ForwardStart(a, req, snapshot, trusted, same);
    ForwardKeeps(a, req, snapshot, trusted, same);
    if answer == Forwarded && snapshot != "" { HoldersRemove(b.requestPins, req, snapshot); }
  }

  // --- the life of a runtime pin ------------------------------------------

  /** The codes that say the runtime is gone. */
  ghost predicate SaysGone(code: Code) {
    code in {SUCCESS, GRPC_NOT_FOUND, ERR_INSTANCE_NOT_FOUND, RUNTIME_PROCESS_NOT_FOUND, RUNTIME_NOT_FOUND}
  }

  /** The codes that leave open whether the call had an effect. */
  ghost predicate SaysNothing(code: Code) {
    code in {GRPC_CANCELLED, GRPC_DEADLINE_EXCEEDED, GRPC_UNAVAILABLE}
  }

  ghost predicate StopsRuntime(a: Agent, e: Event, runtime: Key) {
    e.Stopped? && e.runtime == runtime && e.from == a.manager && SaysGone(e.code)
  }

  lemma StartKeepsBinding(a: Agent, req: Key, code: Code, started: Key, io: S.Disk, runtime: Key)
    requires runtime in a.runtimePins
    ensures var b := StartResponse(a, req, code, started, io);
            runtime in b.runtimePins && b.runtimePins[runtime] == a.runtimePins[runtime]
  {
  }

  /** The binding of a runtime to its snapshot disappears exactly with a confirmed stop
      from the registered manager, and is never replaced by another. */
  lemma BindingTheorem(a: Agent, e: Event, runtime: Key)
    requires runtime in a.runtimePins
    ensures runtime in Apply(a, e).runtimePins <==> !StopsRuntime(a, e, runtime)
    ensures runtime in Apply(a, e).runtimePins ==> Apply(a, e).runtimePins[runtime] == a.runtimePins[runtime]
  {
    if e.Started? { StartKeepsBinding(a, e.req, e.code, e.runtime, e.io, runtime); }
  }

  ghost predicate Writes(e: Event, id: Id) {
    e.Other? && e.op.Write? && e.op.id == id
  }

  /** Every event uses the store at most once; `op` is that use. */
  lemma StoreUse(a: Agent, e: Event) returns (op: S.Op)
    requires Enabled(a, e) && a.store.Some?
    ensures Apply(a, e).store == a.store || Apply(a, e).store == Some(S.Do(a.store.value, op).0)
    ensures op.Write? ==> e == Other(op)
  {
    op := S.DoValidate("");
    match e
    case Forward(_, snapshot, _, _) => op := S.DoPin(snapshot);
    case Started(req, code, _, io) =>
      if req in a.requestPins {
        var promotes := req in a.deploying && a.registered && a.completed
                        && (code == SUCCESS || code == INSTANCE_HAS_BEEN_DEPLOYED);
        op := S.DoUnpin(a.requestPins[req], !promotes && !a.keepsLocal, io);
      }
    case Stopped(_, _, runtime, io) =>
      if runtime in a.runtimePins { op := S.DoUnpin(a.runtimePins[runtime], !a.keepsLocal, io); }
    case Other(o) => op := o;
    case _ =>
  }

  /** A pinned artifact whose pins stay positive keeps its directory through any event. */
  lemma StepDirectory(a: Agent, e: Event, id: Id)
    requires Inv(a) && Enabled(a, e) && a.store.Some? && S.Pinned(a.store.value, id)
    requires !Writes(e, id) && Apply(a, e).store.Some? && S.Pinned(Apply(a, e).store.value, id)
    ensures SP.SameDirectory(a.store.value, Apply(a, e).store.value, id)
  {
    var op := StoreUse(a, e);
    SP.PinTheorem(a.store.value, op, id);
  }

  /** No event of the run stops `runtime`, and none writes into the directory `id`. */
  ghost predicate Undisturbed(a: Agent, es: seq<Event>, runtime: Key, id: Id)
    requires Possible(a, es)
    decreases |es|
  {
    es == [] || (!StopsRuntime(a, es[0], runtime) && !Writes(es[0], id)
                 && Undisturbed(Apply(a, es[0]), es[1..], runtime, id))
  }

  lemma HeldIsPinned(a: Agent, runtime: Key)
    requires Inv(a) && runtime in a.runtimePins
    ensures a.store.Some? && S.Pinned(a.store.value, a.runtimePins[runtime])
    ensures a.runtimePins[runtime] in a.store.value.disk && a.runtimePins[runtime] in a.store.value.records
  {
    var id := a.runtimePins[runtime];
    HoldersRemove(a.runtimePins, runtime, id);
  }

  /** End to end: until its stop is confirmed by the registered manager, the snapshot of a
      restored runtime is pinned and its directory is exactly as it was, whatever the
      cache limit, evictions, deletions, cleanups and other runtimes do meanwhile. */
  lemma {:induction false} RestoredRuntimeTheorem(a: Agent, es: seq<Event>, runtime: Key)
    requires Inv(a) && Possible(a, es) && runtime in a.runtimePins
    requires Undisturbed(a, es, runtime, a.runtimePins[runtime])
    ensures var b, id := Run(a, es), a.runtimePins[runtime];
            && runtime in b.runtimePins && b.runtimePins[runtime] == id
            && a.store.Some? && b.store.Some? && S.Pinned(b.store.value, id) && id in b.store.value.disk
            && SP.SameDirectory(a.store.value, b.store.value, id)
    decreases |es|
  {
    HeldIsPinned(a, runtime);
    if es != [] {
      var b := Apply(a, es[0]);
      StepKeeps(a, es[0]);
      BindingTheorem(a, es[0], runtime);
      HeldIsPinned(b, runtime);
      StepDirectory(a, es[0], a.runtimePins[runtime]);
      RestoredRuntimeTheorem(b, es[1..], runtime);
    }
  }

  /** A trusted restore whose result is unknown keeps its request pin; every other answer
      to a request that is being deployed settles it, unless no runtime can take it over. */
  lemma RequestPinKept(a: Agent, req: Key, code: Code, runtime: Key, io: S.Disk)
    requires req in a.requestPins && req in a.deploying && a.registered && a.completed
    ensures var b, id := StartResponse(a, req, code, runtime, io), a.requestPins[req];
            req in b.requestPins <==>
              (a.deploying[req] && SaysNothing(code))
              || ((code == SUCCESS || code == INSTANCE_HAS_BEEN_DEPLOYED)
                  && (runtime == "" || (runtime in a.runtimePins && a.runtimePins[runtime] != id)))
  {
  }
}
