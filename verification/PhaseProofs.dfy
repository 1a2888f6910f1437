/** What holds of snapshot requests in every run, whatever request IDs are used again and
    however often a runtime manager answers; and what becomes of lost incarnations. */
module PhaseProofs {
  import opened Basics
  import opened SnapshotPhases

  /** The record belongs to the runtime manager that is registered now. */
  ghost predicate Owned(s: State, r: Record) {
    s.manager.registered && r.manager == s.manager.address && r.managerId == s.manager.id
  }

  /** The response says what the record knows. */
  ghost predicate Describes(response: Response, r: Record) {
    && response.id == r.request.id && response.code == SUCCESS && response.checkpoint == r.request.snapshot
    && response.facts.Some? && response.facts.value.size == r.localSize
  }

  /** Whether an answer of the runtime manager launches publication at once. */
  predicate Direct(q: Request, distributed: bool) {
    NextStep(q, false, distributed).Launch?
  }

  /** Where a record can stand. Publication needs a local copy, which only deferred requests
      announce; they are launched at most once, internal ones never, and the others once
      per successful answer. */
  ghost predicate RecordOk(distributed: bool, id: Name, r: Record) {
    && r.request.id == id
    && (r.publicationStarted ==> r.localReady)
    && (r.localReady ==> Deferred(r.request) && !r.request.internal && r.answered && Describes(r.localReadyResponse, r))
    && (r.request.internal ==> r.launches == 0)
    && (Deferred(r.request) ==> r.launches <= 1 && (r.launches == 1 ==> r.publicationStarted))
    && (r.launches > 0 ==> r.answered && distributed)
    && (r.answered && Direct(r.request, distributed) ==> r.launches > 0)
    && r.completedResponse.code != PARAMETER_ERROR
  }

  ghost predicate Inv(s: State) {
    forall id | id in s.records :: RecordOk(s.config.distributed, id, s.records[id]) && Owned(s, s.records[id])
  }

  // --- the handlers keep it -----------------------------------------------

  lemma SaveInv(s: State, id: Name, r: Record)
    requires Inv(s) && RecordOk(s.config.distributed, id, r) && Owned(s, r)
    ensures Inv(Save(s, id, r))
  {
  }

  /** Messages and flights do not matter. */
  lemma TableInv(s: State, t: State)
    requires Inv(s) && t.config == s.config && t.manager == s.manager
    requires forall id | id in t.records :: id in s.records && t.records[id] == s.records[id]
    ensures Inv(t)
  {
  }

  lemma AdvanceOk(d: bool, id: Name, r: Record, response: Response, publish: bool)
    requires r.request.id == id && r.answered && Describes(response, r) && r.completedResponse.code != PARAMETER_ERROR
    requires (r.publicationStarted ==> r.localReady)
    requires r.localReady ==> Deferred(r.request) && !r.request.internal
    requires r.localReady && publish ==> Describes(r.localReadyResponse, r)
    requires r.request.internal ==> r.launches == 0
    requires Deferred(r.request) ==> r.launches <= 1 && (r.launches == 1 ==> r.publicationStarted)
    requires r.launches > 0 ==> d
    requires publish ==> r.localReady && r.publicationStarted && r.launches == 0
    ensures RecordOk(d, id, Advance(r, response, publish, d))
  {
  }

  lemma ContinueInv(s: State, id: Name, r: Record, response: Response, publish: bool)
    requires Inv(s) && Owned(s, r)
             && RecordOk(s.config.distributed, id, Advance(r, response, publish, s.config.distributed))
    ensures Inv(Continue(s, id, r, response, publish))
  {
    var u := Advance(r, response, publish, s.config.distributed);
    SaveInv(s, id, u);
    TableInv(Save(s, id, u), Continue(s, id, r, response, publish));
  }

  lemma AcceptInv(s: State, from: Address, q: Request, io: Stores)
    requires Inv(s) && s.manager.registered
    ensures Inv(Accept(s, from, q, io))
  {
    if Backend(s, q, io).None? || io.prepared.None? || (io.prepared.value.1 && io.valid.None?) {
      TableInv(s, Accept(s, from, q, io));
    } else {
      var r := NewRecord(s, from, q, Backend(s, q, io).value, io.prepared.value.0);
      if !io.prepared.value.1 {
        SaveInv(s, q.id, r);
        TableInv(Save(s, q.id, r), Accept(s, from, q, io));
      } else {
        var m := Measured(r, io.valid.value);
        AdvanceOk(s.config.distributed, q.id, m, StoredBefore(q, io.valid.value), false);
        ContinueInv(s, q.id, m, StoredBefore(q, io.valid.value), false);
      }
    }
  }

  lemma ReplayInv(s: State, from: Address, q: Request)
    requires Inv(s) && q.id in s.records
    ensures Inv(Replay(s, from, q))
  {
    var u := s.records[q.id].(caller := from);
    assert RecordOk(s.config.distributed, q.id, s.records[q.id]);
    SaveInv(s, q.id, u);
    if s.records[q.id].request != q { TableInv(s, Replay(s, from, q)); }
    else { TableInv(Save(s, q.id, u), Replay(s, from, q)); }
  }

  lemma HandleInv(s: State, from: Address, q: Request, io: Stores)
    requires Inv(s) && s.manager.registered
    ensures Inv(Handle(s, from, q, io))
  {
    if !Incomplete(s, q) && q.id in s.records { ReplayInv(s, from, q); }
    else if !Incomplete(s, q) && s.config.hasStore { AcceptInv(s, from, q, io); }
    else { TableInv(s, Handle(s, from, q, io)); }
  }

  lemma SnapshotInv(s: State, from: Address, q: Request, io: Stores)
    requires Inv(s)
    ensures Inv(SnapshotRuntime(s, from, q, io))
  {
    if from == s.config.scheduler && s.manager.registered && s.complete && s.config.safe(Named(s, q).snapshot) {
      HandleInv(s, from, Named(s, q), io);
    } else {
      TableInv(s, SnapshotRuntime(s, from, q, io));
    }
  }

  lemma AnswerInv(s: State, from: Address, response: Response, committed: Option<nat>)
    requires Inv(s)
    ensures Inv(Answer(s, from, response, committed))
  {
    var id, t := response.id, Answer(s, from, response, committed);
    if id in s.records && from == s.records[id].manager && AnswerError(s.records[id], response, committed).None? {
      var r := s.records[id];
      assert RecordOk(s.config.distributed, id, r);
      var m := Measured(r, committed.value);
      AdvanceOk(s.config.distributed, id, m, Sized(response, committed.value), false);
      ContinueInv(s, id, m, Sized(response, committed.value), false);
    } else {
      TableInv(s, t);
    }
  }

  lemma StartPublishInv(s: State, id: Name, r: Record)
    requires Inv(s) && Owned(s, r) && RecordOk(s.config.distributed, id, r) && r.localReady && !r.publicationStarted
    ensures Inv(Continue(s, id, r.(publicationStarted := true), r.localReadyResponse, true))
  {
    var p := r.(publicationStarted := true);
    AdvanceOk(s.config.distributed, id, p, r.localReadyResponse, true);
    ContinueInv(s, id, p, r.localReadyResponse, true);
  }

  lemma PublishInv(s: State, from: Address, id: Name, snapshot: Name, instance: Name)
    requires Inv(s)
    ensures Inv(Publish(s, from, id, snapshot, instance))
  {
    var t := Publish(s, from, id, snapshot, instance);
    if from != s.config.scheduler || id !in s.records || s.records[id].request.snapshot != snapshot
       || s.records[id].request.instance != instance {
      TableInv(s, t);
    } else {
      var r := s.records[id].(publishCaller := from);
      assert RecordOk(s.config.distributed, id, s.records[id]);
      SaveInv(s, id, r);
      if r.localReady && !r.completed && !r.publicationStarted { StartPublishInv(s, id, r); }
      else { TableInv(Save(s, id, r), t); }
    }
  }

  lemma PublishedInv(s: State, f: Flight, o: Outcome)
    requires Inv(s) && f in s.publishing
    ensures Inv(Published(s, f, o))
  {
    var t := Published(s, f, o);
    if f.id in s.records && f.id in t.records {
      var r := s.records[f.id];
      assert RecordOk(s.config.distributed, f.id, r);
      var u := r.(completed := true, completedResponse := t.records[f.id].completedResponse);
      SaveInv(s, f.id, u);
      TableInv(Save(s, f.id, u), t);
    } else {
      TableInv(s, t);
    }
  }

  // --- losing the runtime manager -----------------------------------------

  /** Draining the current incarnation visits the records one by one: each gets one
      result-unknown reply to its caller, in the order visited. */
  lemma {:induction false} DrainAll(s: State, managerId: Name, ids: seq<Name>)
    requires forall id | id in ids :: id in s.records && s.records[id].managerId == managerId
    requires forall i, j | 0 <= i < j < |ids| :: ids[i] != ids[j]
    ensures var t := Drain(s, managerId, ids);
            && (forall id :: id in t.records <==> id in s.records && id !in ids)
            && |t.sent| == |s.sent| + |ids| && t.sent[..|s.sent|] == s.sent
            && (forall i | 0 <= i < |ids| :: t.sent[|s.sent| + i] == LostReply(s.records[ids[i]]))
            && t.publishing == s.publishing && t.config == s.config && t.manager == s.manager
    decreases |ids|
  {
    if ids != [] {
      var u, rest := DrainOne(s, managerId, ids[0]), ids[1..];
      assert ids == [ids[0]] + rest;
      assert ids[0] !in rest;
      DrainAll(u, managerId, rest);
      DrainedReplies(s, u, Drain(s, managerId, ids), ids);
    }
  }

  /** The replies of the rest, behind the reply to the first. */
  lemma DrainedReplies(s: State, u: State, t: State, ids: seq<Name>)
    requires ids != [] && (forall id | id in ids :: id in s.records) && (forall i | 0 < i < |ids| :: ids[i] != ids[0])
    requires u.sent == s.sent + [LostReply(s.records[ids[0]])] && u.records == s.records - {ids[0]}
    requires |t.sent| == |u.sent| + |ids| - 1 && t.sent[..|u.sent|] == u.sent
    requires forall i | 0 <= i < |ids| - 1 ::
               ids[1..][i] in u.records && t.sent[|u.sent| + i] == LostReply(u.records[ids[1..][i]])
    ensures t.sent[..|s.sent|] == s.sent
    ensures forall i | 0 <= i < |ids| :: t.sent[|s.sent| + i] == LostReply(s.records[ids[i]])
  {
    assert t.sent[..|s.sent|] == u.sent[..|s.sent|];
    assert t.sent[|s.sent|] == t.sent[..|u.sent|][|s.sent|];
    forall i | 0 < i < |ids| ensures t.sent[|s.sent| + i] == LostReply(s.records[ids[i]]) {
      assert ids[1..][i - 1] == ids[i];
      assert t.sent[|u.sent| + (i - 1)] == LostReply(u.records[ids[1..][i - 1]]);
    }
  }

  /** What an event that loses or replaces the incarnation leaves: an empty table, and one
      reply per record, to its caller, saying that the result is unknown. */
  ghost predicate Emptied(s: State, t: State, ids: seq<Name>) {
    && t.records == map[] && t.publishing == s.publishing
    && |t.sent| == |s.sent| + |ids| && t.sent[..|s.sent|] == s.sent
    && forall i | 0 <= i < |ids| ::
         ids[i] in s.records && t.sent[|s.sent| + i] ==
           SnapshotReply(s.records[ids[i]].caller, Plain(ids[i], ERR_INNER_COMMUNICATION, true, false))
  }

  lemma LostReplies(s: State, u: State, t: State, ids: seq<Name>)
    requires Inv(s) && Lists(s, ids) && u.records == s.records && u.sent == s.sent && |t.sent| == |s.sent| + |ids|
    requires forall i | 0 <= i < |ids| :: ids[i] in u.records && t.sent[|s.sent| + i] == LostReply(u.records[ids[i]])
    ensures forall i | 0 <= i < |ids| ::
              ids[i] in s.records && t.sent[|s.sent| + i] ==
                SnapshotReply(s.records[ids[i]].caller, Plain(ids[i], ERR_INNER_COMMUNICATION, true, false))
  {
    forall i | 0 <= i < |ids| ensures s.records[ids[i]].request.id == ids[i] {
      assert RecordOk(s.config.distributed, ids[i], s.records[ids[i]]);
    }
  }

  lemma AllCurrent(s: State, ids: seq<Name>)
    requires Inv(s) && Lists(s, ids)
    ensures forall id | id in ids :: id in s.records && s.records[id].managerId == s.manager.id
    ensures forall i | 0 <= i < |ids| :: ids[i] in s.records
  {
    forall id | id in ids ensures id in s.records && s.records[id].managerId == s.manager.id {
      assert Owned(s, s.records[id]);
    }
  }

  /** The drain of a table that `ids` lists, whatever becomes of the manager meanwhile. */
  lemma DrainListed(u: State, managerId: Name, ids: seq<Name>)
    requires Lists(u, ids) && forall id | id in ids :: id in u.records && u.records[id].managerId == managerId
    ensures var t := Drain(u, managerId, ids);
            && t.records == map[] && t.publishing == u.publishing && t.config == u.config && t.manager == u.manager
            && |t.sent| == |u.sent| + |ids| && t.sent[..|u.sent|] == u.sent
            && forall i | 0 <= i < |ids| :: ids[i] in u.records && t.sent[|u.sent| + i] == LostReply(u.records[ids[i]])
  {
    DrainAll(u, managerId, ids);
    var t := Drain(u, managerId, ids);
    assert t.records == map[] by { assert forall id :: id !in t.records; }
    assert forall i | 0 <= i < |ids| :: ids[i] in ids;
  }

  lemma DrainEmpties(s: State, u: State, ids: seq<Name>)
    requires Inv(s) && Lists(s, ids)
    requires u.records == s.records && u.sent == s.sent && u.publishing == s.publishing && u.config == s.config
    ensures Emptied(s, Drain(u, s.manager.id, ids), ids)
    ensures Drain(u, s.manager.id, ids).config == u.config && Drain(u, s.manager.id, ids).manager == u.manager
  {
    AllCurrent(s, ids);
    DrainListed(u, s.manager.id, ids);
    LostReplies(s, u, Drain(u, s.manager.id, ids), ids);
  }

  lemma ManagerInv(s: State, e: Event)
    requires Inv(s) && Enabled(s, e) && (e.HeartbeatLost? || e.Register?)
    ensures Inv(Apply(s, e))
    ensures Apply(s, e) == s || Apply(s, e).records == map[]
  {
    if e.Register? && e.managerId != s.manager.id { RegisterEmpties(s, e.address, e.managerId, e.ids); }
    if e.HeartbeatLost? { DrainEmpties(s, s.(manager := s.manager.(registered := false)), e.ids); }
  }

  lemma StepInv(s: State, e: Event)
    requires Inv(s) && Enabled(s, e)
    ensures Inv(Apply(s, e))
  {
    match e
    case Snapshot(from, q, io) => SnapshotInv(s, from, q, io);
    case Answered(from, response, committed) => AnswerInv(s, from, response, committed);
    case PublishRequest(from, id, snapshot, instance) => PublishInv(s, from, id, snapshot, instance);
    case PublishDone(f, o) => PublishedInv(s, f, o);
    case HeartbeatLost(_, _) => ManagerInv(s, e);
    case Register(_, _, _) => ManagerInv(s, e);
    case RegisterComplete(_) => TableInv(s, Apply(s, e));
    case Forget(_) => TableInv(s, Apply(s, e));
  }

  ghost predicate Reachable(s: State) {
    exists config: Config, es: seq<Event> :: Possible(Init(config), es) && s == Run(Init(config), es)
  }

  lemma {:induction false} RunInv(s: State, es: seq<Event>)
    requires Inv(s) && Possible(s, es)
    ensures Inv(Run(s, es)) && Run(s, es).config == s.config
    decreases |es|
  {
    if es != [] {
      StepInv(s, es[0]);
      StepConfig(s, es[0]);
      RunInv(Apply(s, es[0]), es[1..]);
    }
  }

  lemma {:induction false} DrainConfig(s: State, managerId: Name, ids: seq<Name>)
    ensures Drain(s, managerId, ids).config == s.config && Drain(s, managerId, ids).manager == s.manager
    decreases |ids|
  {
    if ids != [] { DrainConfig(DrainOne(s, managerId, ids[0]), managerId, ids[1..]); }
  }

  lemma StepConfig(s: State, e: Event)
    requires Enabled(s, e)
    ensures Apply(s, e).config == s.config
  {
    if e.HeartbeatLost? || e.Register? {
      DrainConfig(s, s.manager.id, e.ids);
      DrainConfig(s.(manager := s.manager.(registered := false)), s.manager.id, e.ids);
    }
  }

  lemma ReachableInv(s: State)
    requires Reachable(s)
    ensures Inv(s)
  {
    var config: Config, es: seq<Event> :| Possible(Init(config), es) && s == Run(Init(config), es);
    RunInv(Init(config), es);
  }

  // --- in every reachable state -------------------------------------------

  /** Every record belongs to the registered incarnation; publication implies a local copy
      that its stored response describes; an internal checkpoint is never published, a
      deferred one at most once. */
  lemma PhaseTheorem(s: State, id: Name)
    requires Reachable(s) && id in s.records
    ensures Owned(s, s.records[id])
    ensures s.records[id].publicationStarted ==> s.records[id].localReady
    ensures s.records[id].localReady ==> Describes(s.records[id].localReadyResponse, s.records[id])
    ensures s.records[id].request.internal ==> s.records[id].launches == 0
    ensures Deferred(s.records[id].request) ==> s.records[id].launches <= 1
  {
    ReachableInv(s);
    assert RecordOk(s.config.distributed, id, s.records[id]);
  }

  /** Losing the registered incarnation, or registering another one, empties the table with
      exactly one result-unknown reply per record; any other such event changes nothing. */
  lemma IncarnationTheorem(s: State, managerId: Name, address: Address, ids: seq<Name>)
    requires Reachable(s) && Lists(s, ids)
    ensures if managerId == s.manager.id
            then Emptied(s, Apply(s, HeartbeatLost(managerId, ids)), ids)
                 && !Apply(s, HeartbeatLost(managerId, ids)).manager.registered
                 && Apply(s, Register(address, managerId, ids)) == s
            else Emptied(s, Apply(s, Register(address, managerId, ids)), ids)
                 && Apply(s, Register(address, managerId, ids)).manager == Manager(address, managerId, true)
                 && Apply(s, HeartbeatLost(managerId, ids)) == s
  {
    ReachableInv(s);
    if managerId == s.manager.id {
      DrainEmpties(s, s.(manager := s.manager.(registered := false)), ids);
    } else {
      RegisterEmpties(s, address, managerId, ids);
    }
  }

  lemma RegisterEmpties(s: State, address: Address, managerId: Name, ids: seq<Name>)
    requires Inv(s) && Lists(s, ids) && managerId != s.manager.id
    ensures Emptied(s, ReceiveRegister(s, address, managerId, ids), ids)
    ensures ReceiveRegister(s, address, managerId, ids).manager == Manager(address, managerId, true)
  {
    DrainEmpties(s, s, ids);
  }

  lemma StepManager(s: State, e: Event)
    requires Enabled(s, e)
    ensures Apply(s, e).manager.id != s.manager.id ==> e.Register? && Apply(s, e).manager.id == e.managerId
  {
    if e.HeartbeatLost? {
      DrainConfig(s.(manager := s.manager.(registered := false)), s.manager.id, e.ids);
    }
  }

  /** Once an incarnation has been replaced, and until it registers again, its timeouts
      change nothing in any run and no record belongs to it. */
  lemma {:induction false} StaleTimeoutTheorem(s: State, es: seq<Event>, replaced: Name)
    requires Reachable(s) && Possible(s, es) && s.manager.id != replaced
    requires forall i | 0 <= i < |es| :: !(es[i].Register? && es[i].managerId == replaced)
    ensures var t := Run(s, es);
            && (forall ids :: Apply(t, HeartbeatLost(replaced, ids)) == t)
            && (forall id | id in t.records :: t.records[id].managerId != replaced)
  {
    ReachableInv(s);
    RunInv(s, es);
    StaysReplaced(s, es, replaced);
  }

  lemma {:induction false} StaysReplaced(s: State, es: seq<Event>, replaced: Name)
    requires Possible(s, es) && s.manager.id != replaced
    requires forall i | 0 <= i < |es| :: !(es[i].Register? && es[i].managerId == replaced)
    ensures Run(s, es).manager.id != replaced
    decreases |es|
  {
    if es != [] {
      StepManager(s, es[0]);
      StaysReplaced(Apply(s, es[0]), es[1..], replaced);
    }
  }
}
