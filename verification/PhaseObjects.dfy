/** The tables of the agent that hold snapshot requests and finalizations, as objects whose
    handlers change them in place and compute the functions of the transition systems. */
module PhaseObjects {
  import opened Basics
  import R = StatusCodes
  import P = SnapshotPhases
  import F = FinalizeChain
  import PhaseProofs
  import PhaseLives
  import PhaseCareful
  import PhaseMessages

  class SnapshotAgent {
    const config: P.Config
    var manager: P.Manager
    var complete: bool
    var records: map<P.Name, P.Record>
    var publishing: multiset<P.Flight>
    var sent: seq<P.Message>

    ghost function View(): P.State
      reads this
    {
      P.State(config, manager, complete, records, publishing, sent)
    }

    /** The invariant of every reachable state of the transition system. */
    ghost predicate Valid()
      reads this
    {
      PhaseProofs.Inv(View())
    }

    constructor (c: P.Config)
      ensures View() == P.Init(c) && Valid()
    {
      config, manager, complete := c, P.Manager((P.EMPTY, P.EMPTY), P.EMPTY, false), false;
      records, publishing, sent := map[], multiset{}, [];
    }

    method Save(id: P.Name, r: P.Record)
      modifies this`records
      ensures View() == P.Save(old(View()), id, r)
    {
      records := records[id := r];
    }

    /** Marks the record complete and sends the response of its phase. */
    method Complete(id: P.Name, r: P.Record)
      modifies this`records, this`sent
      ensures View() == P.Finish(old(View()), id, r)
    {
      Save(id, r);
      if r.publicationStarted {
        sent := sent + [P.PublishReply(r.publishCaller, r.completedResponse)];
      } else {
        sent := sent + [P.SnapshotReply(r.caller, r.completedResponse)];
      }
    }

    method ContinueSnapshotAfterLocalCommit(id: P.Name, pending: P.Record, response: P.Response, publish: bool)
      modifies this`records, this`sent, this`publishing
      ensures View() == P.Continue(old(View()), id, pending, response, publish)
    {
      var r := pending;
      ghost var next := P.Advance(pending, response, publish, config.distributed);
      if !publish && r.request.internal {
        r := r.(storage := P.LOCAL, objectKey := r.request.snapshot);
        r := P.Completed(r, P.Facts(r.localSize, P.EMPTY), false);
        assert r == next;
        Complete(id, r);
        return;
      }
      if !publish && P.Deferred(r.request) {
        r := r.(localReady := true, localReadyResponse := response);
        assert r == next;
        Save(id, r);
        sent := sent + [P.SnapshotReply(r.caller, response)];
        return;
      }
      if !config.distributed {
        r := r.(storage := P.LOCAL, objectKey := r.request.snapshot);
        r := P.Completed(r, P.Facts(r.localSize, P.EMPTY), r.request.returnArtifact);
        assert r == next;
        Complete(id, r);
        return;
      }
      if r.request.returnArtifact {
        r := r.(completedResponse := response);
      }
      r := r.(launches := r.launches + 1);
      assert r == next;
      Save(id, r);
      publishing := publishing + multiset{P.Flight(id, r.request.returnArtifact)};
    }

    /** A request whose record lives starts no publication, whatever it says. A new one is
        refused with one message, or remembered; while its record waits for an answer, the
        one message is the request as remembered, to the manager that is registered. */
    method SnapshotRuntime(from: P.Address, q: P.Request, io: P.Stores)
      requires Valid()
      modifies this`records, this`sent, this`publishing
      ensures Valid() && View() == P.SnapshotRuntime(old(View()), from, q, io)
      ensures q.id in old(records) ==> publishing == old(publishing) && records.Keys == old(records).Keys
      ensures forall id | id in old(records) && id != q.id :: id in records && records[id] == old(records)[id]
      ensures from == config.scheduler && q.id !in old(records) ==>
                (q.id in records <==> PhaseMessages.Refusal(old(View()), q, io).None?)
      ensures from == config.scheduler && q.id !in old(records) && q.id !in records ==>
                sent == old(sent) + [P.SnapshotReply(from, P.Plain(
                          q.id, PhaseMessages.Refusal(old(View()), q, io).value, false, true))]
      ensures q.id !in old(records) && q.id in records && !records[q.id].answered ==>
                && io.prepared.Some? && records[q.id].caller == from
                && records[q.id].request == PhaseMessages.Full(old(View()), q, io.prepared.value.0)
                && sent == old(sent) + [P.ForwardSnapshot(manager.address, records[q.id].request)]
    {
      PhaseProofs.SnapshotInv(View(), from, q, io);
      if q.id !in records { PhaseMessages.RequestTheorem(View(), from, q, io); }
      if from != config.scheduler { return; }
      if !manager.registered || !complete {
        sent := sent + [P.SnapshotReply(from, P.Plain(q.id, P.FUNC_AGENT_NOT_REGISTERED, false, true))];
        return;
      }
      var named := q;
      if q.snapshot == P.EMPTY {
        named := q.(snapshot := config.digest(q.id, q.instance));
      }
      if !config.safe(named.snapshot) {
        sent := sent + [P.SnapshotReply(from, P.Plain(q.id, P.ERR_PARAM_INVALID, false, true))];
        return;
      }
      Handle(from, named, io);
    }

    method Handle(from: P.Address, q: P.Request, io: P.Stores)
      modifies this`records, this`sent, this`publishing
      ensures View() == P.Handle(old(View()), from, q, io)
      ensures q.id in old(records) ==> publishing == old(publishing) && records.Keys == old(records).Keys
      ensures forall id | id in old(records) && id != q.id :: id in records && records[id] == old(records)[id]
    {
      PhaseLives.HandleFrame(View(), from, q, io);
      var missing := !q.internal && config.distributed
                     && (!config.hasStorage || q.objectKey == P.EMPTY || q.temporaryKey == P.EMPTY);
      if q.id == P.EMPTY || q.instance == P.EMPTY || q.runtime == P.EMPTY || q.snapshot == P.EMPTY
         || q.tenant == P.EMPTY || q.version <= 0 || missing {
        sent := sent + [P.SnapshotReply(from, P.Plain(q.id, P.ERR_PARAM_INVALID, false, true))];
        return;
      }
      if q.id in records {
        Replay(from, q);
        return;
      }
      if !config.hasStore {
        sent := sent + [P.SnapshotReply(from, P.Plain(q.id, P.ERR_PARAM_INVALID, false, true))];
        return;
      }
      Accept(from, q, io);
    }

    method Replay(from: P.Address, q: P.Request)
      requires q.id in records
      modifies this`records, this`sent
      ensures View() == P.Replay(old(View()), from, q)
    {
      var r := records[q.id];
      if r.request != q {
        sent := sent + [P.SnapshotReply(from, P.Plain(q.id, P.PARAMETER_ERROR, false, false))];
        return;
      }
      Save(q.id, r.(caller := from));
      if r.localReady && !q.internal {
        sent := sent + [P.SnapshotReply(from, r.localReadyResponse)];
      } else if r.completed {
        sent := sent + [P.SnapshotReply(from, r.completedResponse)];
      }
    }

    method Accept(from: P.Address, q: P.Request, io: P.Stores)
      modifies this`records, this`sent, this`publishing
      ensures View() == P.Accept(old(View()), from, q, io)
    {
      var storage := P.LOCAL;
      if !q.internal && config.distributed {
        if io.backend.None? {
          sent := sent + [P.SnapshotReply(from, P.Plain(q.id, P.OtherCode(0), false, true))];
          return;
        }
        storage := io.backend.value;
      }
      if io.prepared.None? {
        sent := sent + [P.SnapshotReply(from, P.Plain(q.id, P.OtherCode(1), false, true))];
        return;
      }
      var r := P.Record(from, (P.EMPTY, P.EMPTY), q.(checkpointDir := io.prepared.value.0), manager.address, manager.id,
                        storage, if q.internal then q.snapshot else q.objectKey, 0, false, false, false,
                        P.Plain(P.EMPTY, P.SUCCESS, false, false), P.Plain(P.EMPTY, P.SUCCESS, false, false), false, 0);
      if !io.prepared.value.1 {
        Save(q.id, r);
        sent := sent + [P.ForwardSnapshot(manager.address, r.request)];
        return;
      }
      if io.valid.None? {
        sent := sent + [P.SnapshotReply(from, P.Plain(q.id, P.OtherCode(2), false, true))];
        return;
      }
      ContinueSnapshotAfterLocalCommit(q.id, P.Measured(r, io.valid.value), P.StoredBefore(q, io.valid.value), false);
    }

    /** Publication is launched at most once, only from a described local copy that is not
        published yet; afterwards the record remembers that it was. */
    method PublishSnapshotArtifact(from: P.Address, id: P.Name, snapshot: P.Name, instance: P.Name)
      requires Valid()
      modifies this`records, this`sent, this`publishing
      ensures Valid() && View() == P.Publish(old(View()), from, id, snapshot, instance)
      ensures records.Keys == old(records).Keys
      ensures publishing != old(publishing) ==>
                && id in old(records) && !old(records)[id].publicationStarted && !old(records)[id].completed
                && old(records)[id].launches == 0
                && PhaseProofs.Describes(old(records)[id].localReadyResponse, old(records)[id])
                && records[id].publicationStarted && records[id].launches == 1
      ensures from == config.scheduler && (id !in old(records) || old(records)[id].request.snapshot != snapshot
                                           || old(records)[id].request.instance != instance) ==>
                sent == old(sent) + [P.PublishReply(from, P.Plain(id, P.ERR_PARAM_INVALID, false, false))]
      ensures from == config.scheduler && id in old(records) && old(records)[id].request.snapshot == snapshot
              && old(records)[id].request.instance == instance ==>
                var r := old(records)[id];
                && records[id].publishCaller == from
                && if r.completed then sent == old(sent) + [P.PublishReply(from, r.completedResponse)]
                   else if !r.localReady then
                     sent == old(sent) + [P.PublishReply(from, P.Plain(id, P.ERR_INSTANCE_BUSY, false, false))]
                   else if r.publicationStarted then sent == old(sent) && publishing == old(publishing)
                   else PhaseMessages.Publishes(old(View()), View(), from, id)
    {
      PhaseMessages.PublishTheorem(View(), from, id, snapshot, instance);
      PhaseProofs.PublishInv(View(), from, id, snapshot, instance);
      PhaseLives.PublishOnce(View(), from, id, snapshot, instance);
      if from != config.scheduler { return; }
      if id !in records || records[id].request.snapshot != snapshot || records[id].request.instance != instance {
        sent := sent + [P.PublishReply(from, P.Plain(id, P.ERR_PARAM_INVALID, false, false))];
        return;
      }
      var r := records[id].(publishCaller := from);
      if r.completed {
        Save(id, r);
        sent := sent + [P.PublishReply(from, r.completedResponse)];
        return;
      }
      if !r.localReady {
        Save(id, r);
        sent := sent + [P.PublishReply(from, P.Plain(id, P.ERR_INSTANCE_BUSY, false, false))];
        return;
      }
      if r.publicationStarted {
        Save(id, r);
        return;
      }
      ContinueSnapshotAfterLocalCommit(id, r.(publicationStarted := true), r.localReadyResponse, true);
    }

    /** Only an answer of the manager that the request went to does anything, and only to
        that request; a failed one makes the agent forget it. */
    method SnapshotRuntimeResponse(from: P.Address, response: P.Response, committed: Option<nat>)
      requires Valid()
      modifies this`records, this`sent, this`publishing
      ensures Valid() && View() == P.Answer(old(View()), from, response, committed)
      ensures from != manager.address ==> View() == old(View())
      ensures forall id | id in old(records) && id != response.id :: id in records && records[id] == old(records)[id]
      ensures response.id in old(records) && from == manager.address ==>
                (response.id in records <==>
                   response.code == P.SUCCESS && response.checkpoint == old(records)[response.id].request.snapshot
                   && committed.Some?)
      ensures response.id in old(records) && from == manager.address ==>
                match PhaseMessages.Failure(old(records)[response.id], response, committed)
                case Some(code) =>
                  sent == old(sent) + [P.SnapshotReply(old(records)[response.id].caller, response.(code := code))]
                case None => PhaseMessages.Succeeded(old(View()), View(), response, committed.value)
    {
      PhaseProofs.AnswerInv(View(), from, response, committed);
      PhaseMessages.AnswerTheorem(View(), from, response, committed);
      PhaseLives.AnswerFrame(View(), from, response, committed);
      var id := response.id;
      if id !in records { return; }
      var r := records[id];
      if from != r.manager { return; }
      if response.code != P.SUCCESS {
        sent := sent + [P.SnapshotReply(r.caller, response)];
        records := records - {id};
        return;
      }
      if response.checkpoint != r.request.snapshot {
        sent := sent + [P.SnapshotReply(r.caller, response.(code := P.ERR_PARAM_INVALID))];
        records := records - {id};
        return;
      }
      if committed.None? {
        sent := sent + [P.SnapshotReply(r.caller, response.(code := P.OtherCode(3)))];
        records := records - {id};
        return;
      }
      ContinueSnapshotAfterLocalCommit(id, P.Measured(r, committed.value), P.Sized(response, committed.value), false);
    }

    method CompleteError(f: P.Flight, code: P.Code, unknown: bool, known: P.Facts)
      requires f.id in records
      modifies this`records, this`sent
      ensures View() == P.PublishFailed(old(View()), f, old(records)[f.id], code, unknown, known)
    {
      var r := records[f.id];
      var facts := P.KnownFacts(r, known);
      if f.reusable && facts.size > 0 && facts.sha256 != P.EMPTY && r.storage != P.EMPTY && r.objectKey != P.EMPTY {
        Complete(f.id, r.(completed := true,
                          completedResponse := P.Response(r.request.id, code, unknown, false, P.EMPTY, Some(facts),
                                                          r.storage, r.objectKey, true)));
        return;
      }
      sent := sent + [P.PhaseReply(r, P.Plain(r.request.id, code, unknown, false))];
      records := records - {f.id};
    }

    /** The end of a publication is reported once, to whoever waits for the phase of the
        record: as the response that completes it, or as the failure that ends it. */
    method OnArtifactPublished(f: P.Flight, o: P.Outcome)
      requires Valid() && f in publishing
      modifies this`records, this`sent, this`publishing
      ensures Valid() && View() == P.Published(old(View()), f, o)
      ensures f.id !in old(records) ==> records == old(records) && sent == old(sent)
      ensures f.id in old(records) ==>
                var r := old(records)[f.id];
                match PhaseCareful.Ending(r, f, o)
                case Some(response) =>
                  && records == old(records)[f.id := r.(completed := true, completedResponse := response)]
                  && sent == old(sent) + [PhaseCareful.Told(r, response)]
                case None =>
                  && records == old(records) - {f.id}
                  && sent == old(sent) + [PhaseCareful.Told(r, P.Plain(r.request.id, PhaseCareful.FailureCode(o),
                                                                       PhaseCareful.FailureUnknown(o), false))]
    {
      PhaseProofs.PublishedInv(View(), f, o);
      PhaseCareful.CompletionTheorem(View(), f, o);
      publishing := publishing - multiset{f};
      if f.id !in records { return; }
      match o {
        case Broken => CompleteError(f, P.ERR_INNER_COMMUNICATION, true, P.Facts(0, P.EMPTY));
        case Refused(code, unknown, known) => CompleteError(f, P.OtherCode(code), unknown, known);
        case Stored(facts) => Complete(f.id, P.Completed(records[f.id], facts, f.reusable));
      }
    }

    /** Erases the records of an incarnation while going through the table. */
    method DrainPendingPauseRequests(managerId: P.Name) returns (ghost ids: seq<P.Name>)
      modifies this`records, this`sent
      ensures P.Lists(old(View()), ids)
      ensures View() == P.Drain(old(View()), managerId, ids)
    {
      ids := [];
      var todo := records.Keys;
      while todo != {}
        invariant todo <= old(records).Keys && forall id | id in todo ::
                    id in records && records[id] == old(records)[id]
        invariant forall id :: id in ids <==> id in old(records) && id !in todo
        invariant forall i, j | 0 <= i < j < |ids| :: ids[i] != ids[j]
        invariant View() == P.Drain(old(View()), managerId, ids)
        decreases todo
      {
        var id :| id in todo;
        P.DrainSnoc(old(View()), managerId, ids, id);
        DrainRecord(managerId, id);
        todo, ids := todo - {id}, ids + [id];
      }
    }

    method DrainRecord(managerId: P.Name, id: P.Name)
      requires id in records
      modifies this`records, this`sent
      ensures View() == P.DrainOne(old(View()), managerId, id)
      ensures forall x | x != id && x in old(records) :: x in records && records[x] == old(records)[x]
    {
      if records[id].managerId == managerId {
        sent := sent + [P.LostReply(records[id])];
        records := records - {id};
      }
    }

    /** Losing the current incarnation empties the table with one reply per record. */
    method MarkRuntimeManagerUnavailable(id: P.Name) returns (ghost ids: seq<P.Name>)
      requires Valid()
      modifies this`records, this`sent, this`manager
      ensures Valid() && P.Lists(old(View()), ids)
      ensures View() == P.MarkUnavailable(old(View()), id, ids)
      ensures if id == old(manager).id then PhaseProofs.Emptied(old(View()), View(), ids) else View() == old(View())
    {
      if manager.id != id {
        ids := Listing();
        return;
      }
      manager := manager.(registered := false);
      ids := DrainPendingPauseRequests(id);
      PhaseProofs.DrainEmpties(old(View()), old(View()).(manager := manager), ids);
    }

    /** Another incarnation finds an empty table; the same one changes nothing. */
    method ReceiveRegister(address: P.Address, id: P.Name) returns (ghost ids: seq<P.Name>)
      requires Valid()
      modifies this`records, this`sent, this`manager
      ensures Valid() && P.Lists(old(View()), ids)
      ensures View() == P.ReceiveRegister(old(View()), address, id, ids)
      ensures if id != old(manager).id then PhaseProofs.Emptied(old(View()), View(), ids) else View() == old(View())
    {
      if manager.id == id {
        ids := Listing();
        return;
      }
      ids := DrainPendingPauseRequests(manager.id);
      PhaseProofs.RegisterEmpties(old(View()), address, id, ids);
      manager := P.Manager(address, id, true);
    }

    ghost method Listing() returns (ids: seq<P.Name>)
      ensures P.Lists(View(), ids)
    {
      ids := [];
      var todo := records.Keys;
      while todo != {}
        invariant todo <= records.Keys
        invariant forall id :: id in ids <==> id in records && id !in todo
        invariant forall i, j | 0 <= i < j < |ids| :: ids[i] != ids[j]
        decreases todo
      {
        var id :| id in todo;
        todo, ids := todo - {id}, ids + [id];
      }
    }
  }

  /** The attempts that wait for the stop of their runtime. `chains` is the history of all
      finalizations; the chains in it that wait are the ones in the table. */
  class FinalizeAgent {
    var config: F.Config
    var waiting: map<F.Name, (F.Address, F.Request)>
    ghost var chains: F.State

    /** The invariant of the chains, of which the table holds the waiting ones. */
    ghost predicate Valid()
      reads this
    {
      && F.Inv(chains) && chains.config == config && waiting.Keys == chains.stops.Keys
      && forall a | a in waiting :: waiting[a] == (Waits(a).caller, Waits(a).request)
    }

    ghost function Waits(a: F.Name): F.Chain
      requires F.Inv(chains) && a in chains.stops
      reads this
    {
      chains.chains[chains.stops[a]]
    }

    constructor (c: F.Config)
      ensures Valid() && config == c && chains == F.Init(c)
    {
      config, waiting, chains := c, map[], F.Init(c);
    }

    /** Registration and loss of the runtime manager touch no chain. */
    method RuntimeManagerChanged(address: F.Address, registered: bool, complete: bool)
      requires Valid()
      modifies this`config, this`chains
      ensures Valid() && chains == F.Apply(old(chains), F.Manager(address, registered, complete))
    {
      config := config.(manager := address, registered := registered, complete := complete);
      chains := F.Apply(chains, F.Manager(address, registered, complete));
    }

    /** What an answer tells the caller: success only if the local delete did not fail, no
        stop was asked for, and there is no remote key. A second finalization of an attempt
        takes the place of the first. */
    method SnapshotAttemptFinalize(from: F.Address, q: F.Request, local: Option<R.Code>)
      returns (action: Option<F.Action>)
      requires Valid() && local != Some(R.SUCCESS)
      modifies this`waiting, this`chains
      ensures Valid() && chains == F.Apply(old(chains), F.Finalize(from, q, local))
      ensures action.None? <==> from != config.scheduler
      ensures action.Some? ==>
                && |chains.chains| == |old(chains).chains| + 1
                && chains.chains[|old(chains).chains|].phase == F.PhaseOf(action.value)
      ensures action.Some? && action.value.Answer? && action.value.reply.code == R.SUCCESS ==>
                (q.deleteLocal ==> local.None?) && !q.deleteRuntime && (config.distributed ==> q.keys == [])
      ensures action.Some? ==> action.value == F.First(config, q, local)
      ensures waiting == if action == Some(F.AwaitStop) then old(waiting)[q.attempt := (from, q)] else old(waiting)
    {
      if from != config.scheduler { return None; }
      F.BeginInv(chains, from, q, local);
      F.FirstAnswer(chains, q, local);
      chains := F.Apply(chains, F.Finalize(from, q, local));
      var first := FirstAction(q, local);
      if first.AwaitStop? {
        waiting := waiting[q.attempt := (from, q)];
      }
      return Some(first);
    }

    method FirstAction(q: F.Request, local: Option<R.Code>) returns (action: F.Action)
      ensures action == F.Begin(config, q, local)
    {
      if F.Invalid(config, q) { return F.Answer(F.Reply(R.ERR_PARAM_INVALID, false, false, false)); }
      if q.deleteLocal && local.Some? { return F.Answer(F.Reply(local.value, false, false, false)); }
      if q.deleteRuntime {
        if !config.registered || !config.complete {
          return F.Answer(F.Reply(R.FUNC_AGENT_NOT_REGISTERED, false, true, false));
        }
        return F.AwaitStop;
      }
      action := ContinuePhysicalSnapshotFinalize(q, 0);
    }

    method ContinuePhysicalSnapshotFinalize(q: F.Request, i: nat) returns (action: F.Action)
      ensures action == F.NextKey(config, q, i)
    {
      if !config.distributed || i >= |q.keys| {
        return F.Answer(F.Reply(R.SUCCESS, false, true, true));
      }
      return F.DeleteKey(i);
    }

    /** The result of deleting key `i` of chain `c`: the next key follows an accepted
        result only, and success means that every key was tried once, in order, and
        accepted. */
    method OnPhysicalSnapshotObjectDeleted(ghost c: nat, q: F.Request, i: nat, d: F.Deletion) returns (action: F.Action)
      requires Valid() && c < |chains.chains| && chains.chains[c].phase == F.Deleting(i)
               && chains.chains[c].request == q
      requires F.ValidDeletion(d)
      modifies this`chains
      ensures Valid() && chains == F.Apply(old(chains), F.KeyDone(c, d))
      ensures chains.chains[c].phase == F.PhaseOf(action) && chains.chains[c].request == q
      ensures action.DeleteKey? ==> F.Accepted(d) && action.i == i + 1 < |q.keys|
      ensures action == F.Answer(F.Reply(R.SUCCESS, false, true, true)) ==>
                |chains.chains[c].tried| == |q.keys|
                && forall k | 0 <= k < |q.keys| ::
                     chains.chains[c].tried[k].0 == q.keys[k] && F.Accepted(chains.chains[c].tried[k].1)
      ensures action.Answer? && action.reply.code != R.SUCCESS ==> !F.Accepted(d) && !action.reply.remoteComplete
    {
      action := NextAction(q, i, d);
      F.KeyInv(chains, c, d);
      F.KeyMeaning(chains, c, d);
      chains := F.Apply(chains, F.KeyDone(c, d));
    }

    method NextAction(q: F.Request, i: nat, d: F.Deletion) returns (action: F.Action)
      ensures action == F.AfterDelete(config, q, i, d)
    {
      if d.Broken? { return F.Answer(F.Reply(R.ERR_INNER_COMMUNICATION, true, true, false)); }
      if d.Refused? && d.code != R.FILE_NOT_FOUND && d.code != R.BP_DATASYSTEM_ERROR {
        return F.Answer(F.Reply(d.code, false, true, false));
      }
      action := ContinuePhysicalSnapshotFinalize(q, i + 1);
    }

    /** Only the registered manager, speaking of the right runtime, ends the wait; remote
        keys are touched only after a confirmed stop. */
    method HandleStopResponse(from: F.Address, attempt: F.Name, runtime: F.Name, code: R.Code)
      returns (handled: bool, action: Option<F.Action>)
      requires Valid()
      modifies this`waiting, this`chains
      ensures Valid() && chains == F.Apply(old(chains), F.StopAnswer(from, attempt, runtime, code))
      ensures handled <==> attempt in old(waiting)
      ensures action.Some? <==> handled && from == config.manager && runtime == old(waiting)[attempt].1.runtime
      ensures waiting == if action.Some? then old(waiting) - {attempt} else old(waiting)
      ensures action.Some? ==>
                && chains.chains[old(chains).stops[attempt]].phase == F.PhaseOf(action.value)
                && (R.StopConfirmed(code) <==> action.value.DeleteKey? || action.value.reply.code == R.SUCCESS)
    {
      F.StopInv(chains, from, attempt, runtime, code);
      F.StopMeaning(chains, from, attempt, runtime, code);
      if attempt !in waiting { return false, None; }
      var q := waiting[attempt].1;
      if from != config.manager || runtime != q.runtime { return true, None; }
      chains := F.Apply(chains, F.StopAnswer(from, attempt, runtime, code));
      waiting := waiting - {attempt};
      var next := StoppedAction(q, code);
      return true, Some(next);
    }

    method StoppedAction(q: F.Request, code: R.Code) returns (action: F.Action)
      ensures action == F.AfterStop(config, q, code)
    {
      if !R.StopConfirmed(code) {
        return F.Answer(F.Reply(code, R.ResultUnknown(code), false, false));
      }
      action := ContinuePhysicalSnapshotFinalize(q, 0);
    }
  }
}
