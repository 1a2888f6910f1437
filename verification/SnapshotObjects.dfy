/** The snapshot store and the pin tables of the agent as objects updated in place. Every
    method computes the function of the same name on the abstract state and keeps the
    proved invariant of that state. */
module SnapshotObjects {
  import opened Basics
  import R = StatusCodes
  import S = SnapshotStore
  import P = RestorePins
  import StoreProofs
  import StoreOutcomes
  import PinProofs
  import PinOutcomes

  class LocalSnapshotStore {
    const limit: nat
    var records: map<S.Id, S.Record>
    var cached: nat
    var lru: seq<S.Id>
    var pins: map<S.Id, nat>
    var evict: set<S.Id>
    var disk: map<S.Id, S.Entry>

    ghost function View(): S.Store
      reads this
    {
      S.Store(limit, records, cached, lru, pins, evict, disk)
    }

    /** The byte count is exact, the LRU list has every record once, and only artifacts
        with a record and a directory are pinned. */
    ghost predicate Valid()
      reads this
    {
      StoreProofs.Inv(View())
    }

    constructor (maxBytes: nat, root: map<S.Id, S.Entry>)
      ensures Valid() && View() == S.NewStore(maxBytes, root)
    {
      limit, records, cached, lru, pins, evict, disk := maxBytes, map[], 0, [], map[], {}, root;
    }

    method Inspect(id: S.Id) returns (size: Option<nat>)
      ensures size == S.Inspect(View(), id)
      ensures size.Some? ==> size.value > 0 && id in disk
    {
      size := None;
      if id in disk && disk[id].Directory? && disk[id].size.Some? && disk[id].size.value > 0 {
        size := disk[id].size;
      }
    }

    method Touch(id: S.Id)
      modifies this`lru
      ensures View() == S.Touch(old(View()), id)
    {
      lru := S.Without(lru, id);
      lru := [id] + lru;
    }

    method RemoveDirectory(id: S.Id, r: S.Removal) returns (code: S.Code)
      modifies this`disk
      ensures (View(), code) == S.RemoveDirectory(old(View()), id, r)
    {
      if id !in disk { return S.Ok; }
      match r {
        case Removed =>
          disk := disk - {id};
          code := S.Ok;
        case Stopped(left) =>
          disk := disk[id := left];
          code := S.Failed;
      }
    }

    method Forget(id: S.Id)
      modifies this
      ensures View() == S.Forget(old(View()), id)
    {
      if id in records {
        cached := cached - S.Min(cached, records[id].size);
      }
      records := records - {id};
      lru := S.Without(lru, id);
      pins := pins - {id};
      evict := evict - {id};
    }

    method DeleteUnlocked(id: S.Id, r: S.Removal) returns (code: S.Code)
      modifies this
      ensures (View(), code) == S.DeleteUnlocked(old(View()), id, r)
    {
      code := RemoveDirectory(id, r);
      if code == S.Ok { Forget(id); }
    }

    method EvictIfNeeded(kept: S.Id, io: S.Disk)
      modifies this
      ensures View() == S.EvictIfNeeded(old(View()), kept, io)
    {
      var remaining: nat, k := |lru|, 0;
      while limit > 0 && cached > limit && lru != [] && remaining > 0
        invariant S.EvictLoop(View(), kept, remaining, io, k) == S.EvictIfNeeded(old(View()), kept, io)
        decreases remaining
      {
        var victim := lru[|lru| - 1];
        if victim == kept || (victim in pins && pins[victim] > 0) {
          lru := [victim] + lru[..|lru| - 1];
        } else {
          var _ := DeleteUnlocked(victim, io(k));
        }
        remaining, k := remaining - 1, k + 1;
      }
    }

    /** A new empty directory, or one that is on record and usable. */
    method Prepare(r: S.Request, created: bool) returns (code: S.Code)
      requires Valid()
      modifies this`disk
      ensures Valid() && (View(), code) == S.Prepare(old(View()), r, created)
      ensures StoreProofs.PinsMoved(old(View()), View(), "", 0)
      ensures code == S.Ok && r.id !in old(disk) ==> disk == old(disk)[r.id := S.Directory(None)]
      ensures code == S.Ok && r.id in old(disk) ==>
                disk == old(disk) && r.id in records && exists n: nat :: StoreOutcomes.Usable(View(), r.id, n)
      ensures code != S.Ok ==> disk == old(disk)
    {
      StoreOutcomes.PrepareTheorem(View(), r, created);
      StoreProofs.OpInv(View(), S.DoPrepare(r, created));
      StoreProofs.OpPins(View(), S.DoPrepare(r, created));
      if !S.ValidRequest(r) { return S.ParamInvalid; }
      if r.id in disk {
        if disk[r.id].NoDirectory? { return S.Failed; }
        if r.id !in records { return S.Conflict; }
        var size := Inspect(r.id);
        return if size.Some? then S.Ok else S.NotFound;
      }
      if !created { return S.Failed; }
      disk := disk[r.id := S.Directory(None)];
      code := S.Ok;
    }

    /** Accepts exactly well-formed requests with a usable directory. Unless a removal fails,
        the store is then within its limit, or all that is left must stay. */
    method Commit(r: S.Request, io: S.Disk) returns (code: S.Code)
      requires Valid()
      modifies this
      ensures Valid() && (View(), code) == S.Commit(old(View()), r, io)
      ensures StoreProofs.PinsMoved(old(View()), View(), "", 0)
      ensures code == S.Ok ==> r.id in records && r.id in disk && disk[r.id] == old(disk)[r.id]
      ensures code == S.Ok <==>
                StoreOutcomes.WellFormed(r) && exists n: nat :: StoreOutcomes.Usable(old(View()), r.id, n)
      ensures code == S.Ok && StoreOutcomes.AllRemoved(io) ==>
                StoreOutcomes.Within(View()) || forall id | id in records :: StoreOutcomes.Stays(r.id, old(pins), id)
    {
      StoreOutcomes.CommitOutcome(View(), r, io);
      StoreProofs.OpInv(View(), S.DoCommit(r, io));
      StoreProofs.OpPins(View(), S.DoCommit(r, io));
      if S.Commit(View(), r, io).1.Ok? { StoreProofs.CommitTheorem(View(), r, io); }
      if !S.ValidRequest(r) { return S.ParamInvalid; }
      var size := Inspect(r.id);
      if size.None? { return S.NotFound; }
      Book(r, size.value);
      EvictIfNeeded(r.id, io);
      code := S.Ok;
    }

    method Book(r: S.Request, size: nat)
      modifies this
      ensures View() == S.Book(old(View()), r, size)
    {
      if r.id in records {
        cached := cached - S.Min(cached, records[r.id].size);
      }
      records := records[r.id := S.Record(r.recovery, r.instance, size)];
      cached := cached + size;
      Touch(r.id);
    }

    /** Accepts exactly the artifacts that can be restored; an accepted one becomes the most
        recently used, and the others keep their order. */
    method ValidateForRestore(id: S.Id) returns (code: S.Code)
      requires Valid()
      modifies this`lru
      ensures Valid() && (View(), code) == S.ValidateForRestore(old(View()), id)
      ensures StoreProofs.PinsMoved(old(View()), View(), "", 0)
      ensures code == S.Ok <==> S.SafeLeafName(id) && S.Inspect(View(), id).Some?
      ensures code == S.Ok ==> lru != [] && lru[0] == id && S.Without(lru, id) == S.Without(old(lru), id)
      ensures code != S.Ok ==> lru == old(lru)
    {
      StoreProofs.OpInv(View(), S.DoValidate(id));
      StoreProofs.OpPins(View(), S.DoValidate(id));
      StoreProofs.TouchOrder(lru, id);
      if !S.SafeLeafName(id) { return S.ParamInvalid; }
      var size := Inspect(id);
      if size.None? { return S.NotFound; }
      Touch(id);
      code := S.Ok;
    }

    method PinForRestore(id: S.Id) returns (code: S.Code)
      requires Valid()
      modifies this
      ensures Valid() && (View(), code) == S.Pin(old(View()), id)
      ensures if code == S.Ok then StoreProofs.PinsMoved(old(View()), View(), id, 1)
              else StoreProofs.PinsMoved(old(View()), View(), "", 0)
      ensures code == S.Ok <==> StoreOutcomes.Leaf(id) && exists n: nat :: StoreOutcomes.Usable(old(View()), id, n)
      ensures code == S.Ok ==> lru != [] && lru[0] == id && disk == old(disk) && id in records
    {
      StoreOutcomes.PinOutcome(View(), id);
      StoreProofs.OpInv(View(), S.DoPin(id));
      StoreProofs.OpPins(View(), S.DoPin(id));
      if !S.SafeLeafName(id) { return S.ParamInvalid; }
      var size := Inspect(id);
      if size.None? { return S.NotFound; }
      AddPin(id, size.value);
      code := S.Ok;
    }

    method AddPin(id: S.Id, size: nat)
      modifies this
      ensures View() == S.AddPin(old(View()), id, size)
    {
      if id !in records {
        records := records[id := S.Record(false, "", size)];
        cached := cached + size;
      }
      pins := pins[id := (if id in pins then pins[id] else 0) + 1];
      Touch(id);
    }

    /** The last pin of a marked artifact takes the artifact with it; the last one of another
        leaves it to the limit of the store. */
    method UnpinAfterRestore(id: S.Id, evictAfter: bool, io: S.Disk) returns (code: S.Code)
      requires Valid()
      modifies this
      ensures Valid() && (View(), code) == S.Unpin(old(View()), id, evictAfter, io)
      ensures if S.Pinned(old(View()), id) then StoreProofs.PinsMoved(old(View()), View(), id, -1)
              else StoreProofs.PinsMoved(old(View()), View(), "", 0)
      ensures S.PinCount(old(View()), id) == 1 ==>
                if evictAfter || id in old(evict) then StoreOutcomes.Given(old(View()), View(), code, id, io(0))
                else StoreOutcomes.Kept(old(View()), View(), code, id, io)
    {
      StoreOutcomes.UnpinOutcome(View(), id, evictAfter, io);
      StoreProofs.OpInv(View(), S.DoUnpin(id, evictAfter, io));
      StoreProofs.OpPins(View(), S.DoUnpin(id, evictAfter, io));
      code := DropPin(id, evictAfter, io);
    }

    method DropPin(id: S.Id, evictAfter: bool, io: S.Disk) returns (code: S.Code)
      modifies this
      ensures (View(), code) == S.Unpin(old(View()), id, evictAfter, io)
    {
      if id !in pins || pins[id] == 0 { return S.ParamInvalid; }
      if evictAfter {
        evict := evict + {id};
      }
      if pins[id] - 1 != 0 {
        pins := pins[id := pins[id] - 1];
        return S.Ok;
      }
      pins := pins - {id};
      if id in evict {
        evict := evict - {id};
        code := DeleteUnlocked(id, io(0));
        return;
      }
      assert evict - {id} == evict;
      EvictIfNeeded("", io);
      code := S.Ok;
    }

    method EvictLocalArtifact(id: S.Id, r: S.Removal) returns (code: S.Code)
      requires Valid()
      modifies this
      ensures Valid() && (View(), code) == S.Evict(old(View()), id, r)
      ensures StoreProofs.PinsMoved(old(View()), View(), "", 0)
      ensures id in old(pins) ==> code == S.Ok && View() == old(View()).(evict := old(evict) + {id})
      ensures id !in old(pins) && id in old(disk) && r.Stopped? ==>
                code == S.Failed && View() == old(View()).(disk := old(disk)[id := r.left])
      ensures id !in old(pins) && (id !in old(disk) || r.Removed?) ==>
                code == S.Ok && id !in disk && id !in records && id !in lru && evict == old(evict)
    {
      StoreOutcomes.EvictOutcome(View(), id, r);
      StoreProofs.OpInv(View(), S.DoEvict(id, r));
      StoreProofs.OpPins(View(), S.DoEvict(id, r));
      if id in pins && pins[id] > 0 {
        evict := evict + {id};
        return S.Ok;
      }
      code := DeleteUnlocked(id, r);
    }

    /** A pinned artifact is only marked; another one goes with its record, and a failed
        removal leaves the record. */
    method Delete(id: S.Id, r: S.Removal) returns (code: S.Code)
      requires Valid()
      modifies this
      ensures Valid() && (View(), code) == S.Delete(old(View()), id, r)
      ensures StoreProofs.PinsMoved(old(View()), View(), "", 0)
      ensures S.SafeLeafName(id) && S.Pinned(old(View()), id) ==>
                code == S.Ok && id in evict && records == old(records) && disk == old(disk)
      ensures S.SafeLeafName(id) && !S.Pinned(old(View()), id) && code == S.Ok ==>
                id !in disk && records == old(records) - {id} && id !in lru
      ensures code != S.Ok ==> records == old(records) && lru == old(lru)
    {
      StoreProofs.OpInv(View(), S.DoDelete(id, r));
      StoreProofs.OpPins(View(), S.DoDelete(id, r));
      StoreProofs.DeleteCases(View(), id, r);
      if !S.SafeLeafName(id) { return S.ParamInvalid; }
      code := EvictLocalArtifact(id, r);
    }

    /** Never touches an artifact on record. */
    method DiscardPrepared(id: S.Id, r: S.Removal) returns (code: S.Code)
      requires Valid()
      modifies this`disk
      ensures Valid() && (View(), code) == S.DiscardPrepared(old(View()), id, r)
      ensures StoreProofs.PinsMoved(old(View()), View(), "", 0)
      ensures id in old(records) ==> code != S.Ok && disk == old(disk)
      ensures code == S.Ok ==> id !in disk && forall x | x in old(disk) && x != id ::
                x in disk && disk[x] == old(disk)[x]
      ensures code == S.Ok <==> StoreOutcomes.Leaf(id) && id !in records && (id in old(disk) ==> r.Removed?)
      ensures code == S.Failed ==> r.Stopped? && disk == old(disk)[id := r.left]
    {
      StoreOutcomes.DiscardOutcome(View(), id, r);
      StoreProofs.OpInv(View(), S.DoDiscard(id, r));
      StoreProofs.OpPins(View(), S.DoDiscard(id, r));
      if !S.SafeLeafName(id) { return S.ParamInvalid; }
      if id in records { return S.Conflict; }
      code := RemoveDirectory(id, r);
    }

    method Candidates(instance: string) returns (ids: seq<S.Id>)
      ensures forall id :: id in ids <==> S.Candidate(View(), instance, id)
    {
      ids := [];
      var todo := records.Keys;
      while todo != {}
        invariant todo <= records.Keys
        invariant forall id :: id in ids <==> id !in todo && S.Candidate(View(), instance, id)
        decreases todo
      {
        var id :| id in todo;
        if records[id].recovery && records[id].instance == instance {
          ids := ids + [id];
        }
        todo := todo - {id};
      }
    }

    /** Stops at the first failed removal; candidates that are pinned go later. */
    method DeleteRecoveryCandidatesForInstance(instance: string, io: S.Disk)
      returns (code: S.Code, ghost ids: seq<S.Id>)
      requires Valid()
      modifies this
      ensures S.Possible(old(View()), S.DoDeleteRecovery(instance, ids, io))
      ensures Valid() && (View(), code) == S.DeleteRecovery(old(View()), instance, ids, io)
      ensures StoreProofs.PinsMoved(old(View()), View(), "", 0)
      ensures instance == "" ==> code == S.ParamInvalid && View() == old(View())
      ensures instance != "" && StoreOutcomes.AllRemoved(io) ==> code == S.Ok
    {
      var all := Candidates(instance);
      ids := all;
      StoreOutcomes.CleanUpOutcome(View(), instance, ids, io);
      StoreProofs.OpInv(View(), S.DoDeleteRecovery(instance, ids, io));
      StoreProofs.OpPins(View(), S.DoDeleteRecovery(instance, ids, io));
      if instance == "" { return S.ParamInvalid, ids; }
      var k := 0;
      while k < |all|
        invariant k <= |all| && Valid()
        invariant S.DeleteAll(View(), all[k..], io, k) == S.DeleteAll(old(View()), all, io, 0)
      {
        assert all[k..][1..] == all[k + 1..];
        code := EvictLocalArtifact(all[k], io(k));
        if code != S.Ok { return; }
        k := k + 1;
      }
      code := S.Ok;
    }
  }

  class PinAgent {
    const store: LocalSnapshotStore?
    const keepsLocal: bool
    var registered: bool
    var manager: (string, string)
    var completed: bool
    var deploying: map<P.Key, bool>
    var requestPins: map<P.Key, P.Id>
    var runtimePins: map<P.Key, P.Id>

    ghost function View(): P.Agent
      reads this, store
    {
      P.Agent(if store == null then None else Some(store.View()), keepsLocal, registered, manager, completed,
              deploying, requestPins, runtimePins)
    }

    /** The store is consistent and counts exactly the pins of requests and runtimes. */
    ghost predicate Valid()
      reads this, store
    {
      PinProofs.Inv(View())
    }

    constructor (s: LocalSnapshotStore?, keeps: bool)
      requires s != null ==> s.Valid() && s.pins == map[]
      ensures store == s && Valid()
      ensures View() == P.NewAgent(if s == null then None else Some(s.View()), keeps)
    {
      store, keepsLocal, registered, manager, completed := s, keeps, false, ("", ""), false;
      deploying, requestPins, runtimePins := map[], map[], map[];
      new;
      PinProofs.NobodyHolds();
    }

    /** A forwarded restore has its snapshot pinned, with its directory in place. A request that
        holds another snapshot, or whose snapshot cannot be pinned, is refused. */
    method ForwardStartRuntime(req: P.Key, snapshot: P.Id, trusted: bool, same: bool) returns (answer: P.Answer)
      requires Valid()
      modifies this, store
      ensures Valid() && (View(), answer) == P.ForwardStart(old(View()), req, snapshot, trusted, same)
      ensures answer == P.Forwarded && snapshot != "" ==>
                && req in requestPins && requestPins[req] == snapshot
                && store != null && S.Pinned(store.View(), snapshot) && snapshot in store.disk
      ensures runtimePins == old(runtimePins)
      ensures answer == P.NotRegistered <==> !registered
      ensures answer == P.PinConflict <==>
                registered && snapshot != "" && req in old(requestPins) && old(requestPins)[req] != snapshot
      ensures answer == P.PinFailed <==>
                registered && snapshot != "" && req !in old(requestPins)
                && !PinOutcomes.Restorable(old(View()), snapshot)
      ensures answer == P.PinConflict || answer == P.PinFailed ==>
                deploying == old(deploying) - {req} && requestPins == old(requestPins)
    {
      ghost var a := View();
      PinOutcomes.ForwardTheorem(a, req, snapshot, trusted, same);
      answer := Forward(req, snapshot, trusted, same);
      PinProofs.ForwardKeeps(a, req, snapshot, trusted, same);
      PinProofs.ForwardPins(a, req, snapshot, trusted, same);
    }

    method Forward(req: P.Key, snapshot: P.Id, trusted: bool, same: bool) returns (answer: P.Answer)
      requires Valid()
      modifies this, store
      ensures (View(), answer) == P.ForwardStart(old(View()), req, snapshot, trusted, same)
    {
      if !registered { return P.NotRegistered; }
      if snapshot != "" {
        if req in requestPins && requestPins[req] != snapshot {
          deploying := deploying - {req};
          return P.PinConflict;
        }
        if req !in requestPins {
          if store == null {
            deploying := deploying - {req};
            return P.PinFailed;
          }
          var code := store.PinForRestore(snapshot);
          if code != S.Ok {
            deploying := deploying - {req};
            return P.PinFailed;
          }
          requestPins := requestPins[req := snapshot];
        }
      }
      if req in deploying && same {
        deploying := deploying[req := trusted];
      }
      answer := P.Forwarded;
    }

    /** With the last pin the artifact stays if local copies are kept, and goes otherwise. */
    method ReleaseRestoreSnapshotPin(req: P.Key, io: S.Disk)
      requires Valid()
      modifies this, store
      ensures Valid() && View() == P.ReleaseRequest(old(View()), req, io)
      ensures deploying == old(deploying) && req !in requestPins && runtimePins == old(runtimePins)
      ensures req in old(requestPins) ==>
                store != null &&
                var id := old(requestPins)[req];
                PinOutcomes.Released(old(store.View()), store.View(), id,
                                     PinOutcomes.Sole(old(requestPins), old(runtimePins), req, id), keepsLocal, io)
    {
      PinProofs.ReleaseRequestKeeps(View(), req, io);
      if req in requestPins { PinOutcomes.ReleaseRequestTheorem(View(), req, io); }
      DropRequestPin(req, io);
    }

    method DropRequestPin(req: P.Key, io: S.Disk)
      requires Valid()
      modifies this, store
      ensures View() == P.ReleaseRequest(old(View()), req, io)
    {
      if req !in requestPins { return; }
      var id := requestPins[req];
      requestPins := requestPins - {req};
      if store == null { return; }
      var _ := store.UnpinAfterRestore(id, !keepsLocal, io);
    }

    method PromoteRestoreSnapshotPin(req: P.Key, runtime: P.Key, io: S.Disk)
      requires Valid()
      modifies this, store
      ensures Valid() && View() == P.Promote(old(View()), req, runtime, io)
      ensures deploying == old(deploying)
      ensures forall r | r in old(runtimePins) :: r in runtimePins && runtimePins[r] == old(runtimePins)[r]
      ensures req in old(requestPins) ==> PinOutcomes.Promoted(old(View()), View(), req, runtime)
    {
      if req in requestPins { PinOutcomes.PromoteTheorem(View(), req, runtime, io); }
      PinProofs.PromoteKeeps(View(), req, runtime, io);
      MovePin(req, runtime, io);
    }

    method MovePin(req: P.Key, runtime: P.Key, io: S.Disk)
      requires Valid()
      modifies this, store
      ensures View() == P.Promote(old(View()), req, runtime, io)
    {
      if req !in requestPins { return; }
      if runtime == "" { return; }
      var id := requestPins[req];
      if runtime !in runtimePins {
        runtimePins := runtimePins[runtime := id];
        requestPins := requestPins - {req};
        return;
      }
      if runtimePins[runtime] != id { return; }
      requestPins := requestPins - {req};
      if store != null {
        var _ := store.UnpinAfterRestore(id, false, io);
      }
    }

    /** With the last pin the artifact stays if local copies are kept, and goes otherwise. */
    method ReleaseRuntimeRestoreSnapshotPin(runtime: P.Key, io: S.Disk)
      requires Valid()
      modifies this, store
      ensures Valid() && View() == P.ReleaseRuntime(old(View()), runtime, io)
      ensures runtime !in runtimePins && requestPins == old(requestPins)
      ensures runtime in old(runtimePins) ==>
                store != null &&
                var id := old(runtimePins)[runtime];
                PinOutcomes.Released(old(store.View()), store.View(), id,
                                     PinOutcomes.Sole(old(runtimePins), old(requestPins), runtime, id), keepsLocal, io)
    {
      PinProofs.ReleaseRuntimeKeeps(View(), runtime, io);
      if runtime in runtimePins { PinOutcomes.ReleaseRuntimeTheorem(View(), runtime, io); }
      DropRuntimePin(runtime, io);
    }

    method DropRuntimePin(runtime: P.Key, io: S.Disk)
      requires Valid()
      modifies this, store
      ensures View() == P.ReleaseRuntime(old(View()), runtime, io)
    {
      if runtime !in runtimePins { return; }
      var id := runtimePins[runtime];
      runtimePins := runtimePins - {runtime};
      if store == null { return; }
      var _ := store.UnpinAfterRestore(id, !keepsLocal, io);
    }

    /** No answer to a start unbinds a runtime from its snapshot. A success binds the runtime
        to the snapshot of its request. */
    method CompleteStartInstanceResponse(req: P.Key, reply: R.Code, runtime: P.Key, io: S.Disk)
      requires Valid()
      modifies this, store
      ensures Valid() && View() == P.StartResponse(old(View()), req, reply, runtime, io)
      ensures forall r | r in old(runtimePins) :: r in runtimePins && runtimePins[r] == old(runtimePins)[r]
      ensures PinOutcomes.Active(old(View()), req) ==> deploying == old(deploying) - {req}
      ensures PinOutcomes.Active(old(View()), req) && PinOutcomes.Runs(reply) && req in old(requestPins) ==>
                PinOutcomes.Promoted(old(View()), View(), req, runtime)
    {
      ghost var a := View();
      PinProofs.StepKeeps(a, P.Started(req, reply, runtime, io));
      PinOutcomes.StartedTheorem(a, req, reply, runtime, io);
      forall r | r in runtimePins ensures r in P.StartResponse(a, req, reply, runtime, io).runtimePins
                                  && P.StartResponse(a, req, reply, runtime, io).runtimePins[r] == a.runtimePins[r] {
        PinProofs.StartKeepsBinding(a, req, reply, runtime, io, r);
      }
      SettleStart(req, reply, runtime, io);
    }

    method SettleStart(req: P.Key, reply: R.Code, runtime: P.Key, io: S.Disk)
      requires Valid()
      modifies this, store
      ensures View() == P.StartResponse(old(View()), req, reply, runtime, io)
    {
      if req !in deploying {
        if !R.ResultUnknown(reply) { DropRequestPin(req, io); }
        return;
      }
      if !registered || !completed {
        if !R.ResultUnknown(reply) { DropRequestPin(req, io); }
        return;
      }
      var code := reply;
      if code == R.INSTANCE_HAS_BEEN_DEPLOYED {
        code := R.SUCCESS;
      }
      SettleRestorePin(req, code, runtime, io);
      deploying := deploying - {req};
    }

    method SettleRestorePin(req: P.Key, code: R.Code, runtime: P.Key, io: S.Disk)
      requires Valid() && req in deploying
      modifies this, store
      ensures View() == if code == R.SUCCESS then P.Promote(old(View()), req, runtime, io)
                        else if old(deploying)[req] && R.ResultUnknown(code) then old(View())
                        else P.ReleaseRequest(old(View()), req, io)
    {
      var unknown := code != R.SUCCESS && deploying[req] && R.ResultUnknown(code);
      if code == R.SUCCESS {
        MovePin(req, runtime, io);
      } else if !unknown {
        DropRequestPin(req, io);
      }
    }

    /** A runtime loses its snapshot exactly with a confirmed stop from the manager. */
    method StopInstanceResponse(from: (string, string), code: R.Code, runtime: P.Key, io: S.Disk)
      requires Valid()
      modifies this, store
      ensures Valid() && View() == P.StopResponse(old(View()), from, code, runtime, io)
      ensures runtime in old(runtimePins) ==> (runtime in runtimePins <==> from != manager || !PinProofs.SaysGone(code))
      ensures runtime in old(runtimePins) && runtime !in runtimePins ==>
                store != null &&
                var id := old(runtimePins)[runtime];
                PinOutcomes.Released(old(store.View()), store.View(), id,
                                     PinOutcomes.Sole(old(runtimePins), old(requestPins), runtime, id), keepsLocal, io)
    {
      if from == manager && R.StopConfirmed(code) {
        ReleaseRuntimeRestoreSnapshotPin(runtime, io);
      }
    }
  }
}
