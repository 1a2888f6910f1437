/** What the agent sends, to whom, and what it remembers of it: requests, answers of the
    runtime manager and requests to publish, stated by the contents of the messages. */
module PhaseMessages {
  import opened Basics
  import opened SnapshotPhases
  import opened PhaseProofs
  import opened PhaseLives
  import PhaseCareful

  // --- a request without a record -----------------------------------------

  /** The snapshot ID of a request: its own, or one that request and instance determine. */
  ghost function SnapshotId(s: State, q: Request): Name {
    if q.snapshot == EMPTY then s.config.digest(q.id, q.instance) else q.snapshot
  }

  /** The artifact of the request goes to remote storage. */
  ghost predicate Remote(s: State, q: Request) {
    !q.internal && s.config.distributed
  }

  ghost predicate Malformed(s: State, q: Request) {
    || !s.config.safe(SnapshotId(s, q)) || SnapshotId(s, q) == EMPTY || q.id == EMPTY || q.instance == EMPTY
    || q.runtime == EMPTY || q.tenant == EMPTY || q.version <= 0 || !s.config.hasStore
    || (Remote(s, q) && (!s.config.hasStorage || q.objectKey == EMPTY || q.temporaryKey == EMPTY))
  }

  /** The code with which the agent refuses a request that it has no record of. */
  ghost function Refusal(s: State, q: Request, io: Stores): Option<Code> {
    if !s.manager.registered || !s.complete then Some(FUNC_AGENT_NOT_REGISTERED)
    else if Malformed(s, q) then Some(ERR_PARAM_INVALID)
    else if Remote(s, q) && io.backend.None? then Some(OtherCode(0))
    else if io.prepared.None? then Some(OtherCode(1))
    else if io.prepared.value.1 && io.valid.None? then Some(OtherCode(2))
    else None
  }

  /** The request as it is remembered and forwarded. */
  ghost function Full(s: State, q: Request, dir: Name): Request {
    q.(snapshot := SnapshotId(s, q), checkpointDir := dir)
  }

  /** Only the record `id` and the flights under it are written; `more` is sent. */
  ghost predicate Writing(s: State, t: State, id: Name, more: seq<Message>) {
    && t == s.(records := t.records, publishing := t.publishing, sent := s.sent + more)
    && id in t.records && t.records == s.records[id := t.records[id]]
  }

  /** The record of an accepted request. */
  ghost predicate Remembers(s: State, from: Address, q: Request, io: Stores, r: Record)
    requires io.prepared.Some? && (Remote(s, q) ==> io.backend.Some?)
  {
    && r.caller == from && r.request == Full(s, q, io.prepared.value.0)
    && r.manager == s.manager.address && r.managerId == s.manager.id
    && (!r.completed ==> r.storage == (if Remote(s, q) then io.backend.value else LOCAL)
                         && r.objectKey == if q.internal then SnapshotId(s, q) else q.objectKey)
  }

  /** The response for a checkpoint of `size` bytes that stays where it is. */
  ghost function LocalResponse(q: Request, size: nat, artifact: bool): Response {
    Response(q.id, SUCCESS, false, false, q.snapshot, Some(Facts(size, EMPTY)), LOCAL, q.snapshot, artifact)
  }

  /** The record is completed with a checkpoint that stays where it is. */
  ghost predicate CompletedHere(r: Record, size: nat, artifact: bool) {
    && r.completed && r.completedResponse == LocalResponse(r.request, size, artifact) && r.localSize == size
    && r.storage == LOCAL && r.objectKey == r.request.snapshot
  }

  /** The snapshot is new: the runtime manager is asked for it and the record waits. */
  ghost predicate Asked(s: State, t: State, q: Request, dir: Name) {
    && Writing(s, t, q.id, [ForwardSnapshot(s.manager.address, Full(s, q, dir))]) && t.publishing == s.publishing
    && var r := t.records[q.id];
       !r.answered && !r.localReady && !r.publicationStarted && !r.completed && r.launches == 0
  }

  /** The snapshot is in the local store already, with `size` bytes. */
  ghost predicate FoundLocally(s: State, t: State, from: Address, q: Request, size: nat) {
    var id := SnapshotId(s, q);
    q.id in t.records && t.records[q.id].answered && t.records[q.id].localSize == size &&
    if q.internal || (q.kind.OtherKind? && !s.config.distributed) then
      var artifact := q.returnArtifact && !q.internal;
      && Writing(s, t, q.id, [SnapshotReply(from, LocalResponse(q.(snapshot := id), size, artifact))])
      && t.publishing == s.publishing && CompletedHere(t.records[q.id], size, artifact)
    else if !q.kind.OtherKind? then
      var response := Response(q.id, SUCCESS, false, false, id, Some(Facts(size, EMPTY)), EMPTY, EMPTY, false);
      && Writing(s, t, q.id, [SnapshotReply(from, response)]) && t.publishing == s.publishing
      && var r := t.records[q.id];
         r.localReady && r.localReadyResponse == response && !r.publicationStarted && !r.completed && r.launches == 0
    else
      && Writing(s, t, q.id, []) && t.publishing == s.publishing + multiset{Flight(q.id, q.returnArtifact)}
      && t.records[q.id].launches == 1 && !t.records[q.id].localReady && !t.records[q.id].completed
      && (q.returnArtifact ==> t.records[q.id].completedResponse.facts == Some(Facts(size, EMPTY)))
  }

  lemma Admission(s: State, from: Address, q: Request, io: Stores)
    requires from == s.config.scheduler && q.id !in s.records
    ensures var t := Apply(s, Snapshot(from, q, io));
            match Refusal(s, q, io)
            case Some(code) =>
              t == Send(s, SnapshotReply(from, Response(q.id, code, false, true, EMPTY, None, EMPTY, EMPTY, false)))
            case None =>
              && io.prepared.Some? && (Remote(s, q) ==> io.backend.Some?)
              && t == Accept(s, from, q.(snapshot := SnapshotId(s, q)), io)
  {
    assert Named(s, q) == q.(snapshot := SnapshotId(s, q));
  }

  lemma Asking(s: State, from: Address, q: Request, io: Stores)
    requires Refusal(s, q, io).None? && !io.prepared.value.1
    ensures var t := Accept(s, from, q.(snapshot := SnapshotId(s, q)), io);
            Asked(s, t, q, io.prepared.value.0) && Remembers(s, from, q, io, t.records[q.id])
  {
  }

  lemma Finding(s: State, from: Address, q: Request, io: Stores)
    requires Refusal(s, q, io).None? && io.prepared.value.1
    ensures var t := Accept(s, from, q.(snapshot := SnapshotId(s, q)), io);
            FoundLocally(s, t, from, q, io.valid.value) && Remembers(s, from, q, io, t.records[q.id])
  {
    var named := q.(snapshot := SnapshotId(s, q));
    var r := Measured(NewRecord(s, from, named, Backend(s, named, io).value, io.prepared.value.0), io.valid.value);
    assert Accept(s, from, named, io) == Continue(s, q.id, r, StoredBefore(named, io.valid.value), false);
    assert s.sent + [] == s.sent;
  }

  /** A request that the agent has no record of: strangers are ignored; a refused request
      leaves nothing but one message with its code, saying that nothing was started; an
      accepted one has a record afterwards and is forwarded with its directory, or is
      answered from the local store, or, launched at once, is not answered yet. */
  lemma RequestTheorem(s: State, from: Address, q: Request, io: Stores)
    requires q.id !in s.records
    ensures var t := Apply(s, Snapshot(from, q, io));
            if from != s.config.scheduler then t == s
            else match Refusal(s, q, io)
                 case Some(code) =>
                   t == s.(sent := s.sent + [SnapshotReply(
                         from, Response(q.id, code, false, true, EMPTY, None, EMPTY, EMPTY, false))])
                 case None =>
                   && io.prepared.Some? && (Remote(s, q) ==> io.backend.Some?)
                   && q.id in t.records && Remembers(s, from, q, io, t.records[q.id])
                   && if io.prepared.value.1 then io.valid.Some? && FoundLocally(s, t, from, q, io.valid.value)
                      else Asked(s, t, q, io.prepared.value.0)
  {
    if from == s.config.scheduler {
      Admission(s, from, q, io);
      if Refusal(s, q, io).None? {
        if io.prepared.value.1 { Finding(s, from, q, io); } else { Asking(s, from, q, io); }
      }
    }
  }

  // --- the answer of the runtime manager ----------------------------------

  /** The code with which an answer ends its request, if it does. */
  ghost function Failure(r: Record, response: Response, committed: Option<nat>): Option<Code> {
    if response.code != SUCCESS then Some(response.code)
    else if response.checkpoint != r.request.snapshot then Some(ERR_PARAM_INVALID)
    else if committed.None? then Some(OtherCode(3))
    else None
  }

  /** What a successful answer with a checkpoint of `size` bytes leads to. A launched record
      remembers the answer if its artifact is to be returned. */
  ghost predicate Succeeded(s: State, t: State, response: Response, size: nat)
    requires response.id in s.records
  {
    var id, r := response.id, s.records[response.id];
    var q := r.request;
    id in t.records && t.records[id].answered && t.records[id].localSize == size && t.records[id].request == q &&
    if q.internal || (q.kind.OtherKind? && !s.config.distributed) then
      var artifact := q.returnArtifact && !q.internal;
      && Writing(s, t, id, [SnapshotReply(r.caller, LocalResponse(q, size, artifact))])
      && t.publishing == s.publishing && CompletedHere(t.records[id], size, artifact)
    else if !q.kind.OtherKind? then
      && Writing(s, t, id, [SnapshotReply(r.caller, Measuring(response, size))]) && t.publishing == s.publishing
      && t.records[id].localReady && t.records[id].localReadyResponse == Measuring(response, size)
    else
      && Writing(s, t, id, []) && t.publishing == s.publishing + multiset{Flight(id, q.returnArtifact)}
      && t.records[id].launches == r.launches + 1
      && t.records[id].completedResponse == if q.returnArtifact then Measuring(response, size) else r.completedResponse
  }

  /** The answer with the size that the local store found, and the digest that it brought. */
  ghost function Measuring(response: Response, size: nat): Response {
    response.(facts := Some(Facts(size, if response.facts.Some? then response.facts.value.sha256 else EMPTY)))
  }

  lemma Succeeding(s: State, from: Address, response: Response, size: nat)
    requires Inv(s) && response.id in s.records && from == s.manager.address
    requires Failure(s.records[response.id], response, Some(size)).None?
    ensures Succeeded(s, Apply(s, Answered(from, response, Some(size))), response, size)
  {
    var id, r := response.id, s.records[response.id];
    assert RecordOk(s.config.distributed, id, r) && Owned(s, r);
    var m := Measured(r, size);
    assert Apply(s, Answered(from, response, Some(size))) == Continue(s, id, m, Sized(response, size), false);
    assert s.sent + [] == s.sent;
  }

  /** An answer of the runtime manager: from anybody else, or to a request without record, it
      is ignored; a failure is passed on to the caller with its code and the record is gone;
      a success completes the record or makes it ready, with one message to the caller that
      says so, or launches its publication without a message. */
  lemma AnswerTheorem(s: State, from: Address, response: Response, committed: Option<nat>)
    requires Inv(s)
    ensures var id, t := response.id, Apply(s, Answered(from, response, committed));
            if id !in s.records || from != s.manager.address then t == s
            else match Failure(s.records[id], response, committed)
                 case Some(code) =>
                   t == s.(records := s.records - {id},
                           sent := s.sent + [SnapshotReply(s.records[id].caller, response.(code := code))])
                 case None => committed.Some? && Succeeded(s, t, response, committed.value)
  {
    if response.id in s.records {
      assert Owned(s, s.records[response.id]);
      if from == s.manager.address && Failure(s.records[response.id], response, committed).None? {
        Succeeding(s, from, response, committed.value);
      }
    }
  }

  // --- the request to publish ---------------------------------------------

  /** A local copy that has not been published: without remote storage it is the artifact,
      otherwise its publication is launched and the caller waits. */
  ghost predicate Publishes(s: State, t: State, from: Address, id: Name)
    requires id in s.records
  {
    var r := s.records[id];
    var q := r.request;
    id in t.records && t.records[id].publishCaller == from && t.records[id].publicationStarted &&
    if s.config.distributed then
      && Writing(s, t, id, []) && t.publishing == s.publishing + multiset{Flight(id, q.returnArtifact)}
      && t.records[id].launches == 1 && !t.records[id].completed
      && t.records[id].completedResponse == if q.returnArtifact then r.localReadyResponse else r.completedResponse
    else
      && Writing(s, t, id, [PublishReply(from, LocalResponse(q, r.localSize, q.returnArtifact))])
      && t.publishing == s.publishing && CompletedHere(t.records[id], r.localSize, q.returnArtifact)
  }

  lemma Publishing(s: State, from: Address, id: Name)
    requires Inv(s) && id in s.records && s.records[id].localReady
    requires !s.records[id].completed && !s.records[id].publicationStarted
    ensures Publishes(s, Continue(s, id, s.records[id].(publishCaller := from, publicationStarted := true),
                                  s.records[id].localReadyResponse, true), from, id)
  {
    assert RecordOk(s.config.distributed, id, s.records[id]);
    assert s.sent + [] == s.sent;
  }

  /** A request to publish: strangers are ignored, a request that names no record is refused;
      otherwise whoever asked last waits for the publication. A completed record answers
      again, one without local copy is busy, one under way says nothing, and any other is
      published. */
  lemma PublishTheorem(s: State, from: Address, id: Name, snapshot: Name, instance: Name)
    requires Inv(s)
    ensures var t := Apply(s, PublishRequest(from, id, snapshot, instance));
            if from != s.config.scheduler then t == s
            else if id !in s.records || s.records[id].request.snapshot != snapshot
                    || s.records[id].request.instance != instance then
              t == s.(sent := s.sent + [PublishReply(
                      from, Response(id, ERR_PARAM_INVALID, false, false, EMPTY, None, EMPTY, EMPTY, false))])
            else
              var r := s.records[id];
              var asked := s.(records := s.records[id := r.(publishCaller := from)]);
              if r.completed then t == asked.(sent := s.sent + [PublishReply(from, r.completedResponse)])
              else if !r.localReady then
                t == asked.(sent := s.sent + [PublishReply(
                            from, Response(id, ERR_INSTANCE_BUSY, false, false, EMPTY, None, EMPTY, EMPTY, false))])
              else if r.publicationStarted then t == asked
              else Publishes(s, t, from, id)
  {
    if id in s.records && s.records[id].localReady && !s.records[id].completed && !s.records[id].publicationStarted {
      Publishing(s, from, id);
    }
  }

  // --- forwarded requests -------------------------------------------------

  /** What an event sends is appended, and nothing but a snapshot request is forwarded. */
  ghost predicate Replies(s: State, t: State) {
    && s.sent <= t.sent
    && forall i | |s.sent| <= i < |t.sent| :: !t.sent[i].ForwardSnapshot?
  }

  lemma AnswerReplies(s: State, e: Event)
    requires e.Answered?
    ensures Replies(s, Apply(s, e))
  {
    var id := e.response.id;
    if id in s.records && Accepts(s, e, id) {
      assert Apply(s, e) == Continue(s, id, Measured(s.records[id], e.committed.value),
                                     Sized(e.response, e.committed.value), false);
    }
  }

  lemma PublishReplies(s: State, e: Event)
    requires e.PublishRequest?
    ensures Replies(s, Apply(s, e))
  {
    if e.id in s.records && Starts(s, e, e.id) {
      var p := s.records[e.id].(publishCaller := e.from, publicationStarted := true);
      assert Apply(s, e) == Continue(s, e.id, p, p.localReadyResponse, true);
    }
  }

  lemma LandReplies(s: State, e: Event)
    requires e.PublishDone? && Enabled(s, e)
    ensures Replies(s, Apply(s, e))
  {
    PhaseCareful.CompletionTheorem(s, e.f, e.o);
  }

  lemma ManagerReplies(s: State, e: Event)
    requires Inv(s) && Enabled(s, e) && (e.HeartbeatLost? || e.Register?)
    ensures Replies(s, Apply(s, e))
  {
    if e.HeartbeatLost? && e.managerId == s.manager.id {
      DrainEmpties(s, s.(manager := s.manager.(registered := false)), e.ids);
      EmptiedReplies(s, Apply(s, e), e.ids);
    } else if e.Register? && e.managerId != s.manager.id {
      RegisterEmpties(s, e.address, e.managerId, e.ids);
      EmptiedReplies(s, Apply(s, e), e.ids);
    }
  }

  lemma EmptiedReplies(s: State, t: State, ids: seq<Name>)
    requires Emptied(s, t, ids)
    ensures Replies(s, t)
  {
    forall i | |s.sent| <= i < |t.sent| ensures !t.sent[i].ForwardSnapshot? {
      var k := i - |s.sent|;
      assert ids[k] in s.records && t.sent[|s.sent| + k] == t.sent[i];
    }
  }

  lemma OtherReplies(s: State, e: Event)
    requires Inv(s) && Enabled(s, e) && !e.Snapshot?
    ensures Replies(s, Apply(s, e))
  {
    match e
    case Answered(_, _, _) => AnswerReplies(s, e);
    case PublishRequest(_, _, _, _) => PublishReplies(s, e);
    case PublishDone(_, _) => LandReplies(s, e);
    case HeartbeatLost(_, _) => ManagerReplies(s, e);
    case Register(_, _, _) => ManagerReplies(s, e);
    case RegisterComplete(_) =>
    case Forget(_) =>
  }

  /** The request that an event forwards, if any: one that is accepted and whose snapshot is
      not in the local store. */
  ghost function Forwarded(s: State, e: Event): seq<Message> {
    if e.Snapshot? && e.from == s.config.scheduler && e.q.id !in s.records && Refusal(s, e.q, e.io).None?
       && !e.io.prepared.value.1
    then [ForwardSnapshot(s.manager.address, Full(s, e.q, e.io.prepared.value.0))] else []
  }

  ghost function Forwards(sent: seq<Message>): seq<Message> {
    if sent == [] then []
    else Forwards(sent[..|sent| - 1]) + if sent[|sent| - 1].ForwardSnapshot? then [sent[|sent| - 1]] else []
  }

  lemma {:induction false} RepliesOnly(s: State, t: State)
    requires Replies(s, t)
    ensures Forwards(t.sent) == Forwards(s.sent)
    decreases |t.sent|
  {
    if |t.sent| > |s.sent| {
      var n := |t.sent| - 1;
      RepliesOnly(s, t.(sent := t.sent[..n]));
    } else {
      assert t.sent == s.sent;
    }
  }

  lemma ForwardsSnoc(sent: seq<Message>, m: Message)
    ensures Forwards(sent + [m]) == Forwards(sent) + if m.ForwardSnapshot? then [m] else []
  {
    assert (sent + [m])[..|sent|] == sent;
  }

  lemma KnownReplies(s: State, e: Event)
    requires e.Snapshot? && e.q.id in s.records
    ensures Replies(s, Apply(s, e))
  {
  }

  lemma StepForwards(s: State, e: Event)
    requires Inv(s) && Enabled(s, e)
    ensures Forwards(Apply(s, e).sent) == Forwards(s.sent) + Forwarded(s, e) && s.sent <= Apply(s, e).sent
  {
    var t := Apply(s, e);
    if e.Snapshot? && e.q.id !in s.records {
      RequestTheorem(s, e.from, e.q, e.io);
      if Forwarded(s, e) != [] { ForwardsSnoc(s.sent, Forwarded(s, e)[0]); } else { RepliesOnly(s, t); }
    } else {
      if e.Snapshot? { KnownReplies(s, e); } else { OtherReplies(s, e); }
      RepliesOnly(s, t);
    }
  }

  /** The requests that a run forwards, in order. */
  ghost function AllForwarded(s: State, es: seq<Event>): seq<Message>
    requires Possible(s, es)
    decreases |es|
  {
    if es == [] then [] else Forwarded(s, es[0]) + AllForwarded(Apply(s, es[0]), es[1..])
  }

  lemma HeadForwards(s: State, es: seq<Event>)
    requires Inv(s) && es != [] && Possible(s, es)
    ensures var t := Apply(s, es[0]);
            Forwards(t.sent) + AllForwarded(t, es[1..]) == Forwards(s.sent) + AllForwarded(s, es)
  {
    StepForwards(s, es[0]);
  }

  lemma {:induction false} RunForwards(s: State, es: seq<Event>)
    requires Inv(s) && Possible(s, es)
    ensures Forwards(Run(s, es).sent) == Forwards(s.sent) + AllForwarded(s, es)
    decreases |es|
  {
    if es == [] {
      assert Forwards(s.sent) + [] == Forwards(s.sent);
    } else {
      HeadForwards(s, es);
      StepInv(s, es[0]);
      RunForwards(Apply(s, es[0]), es[1..]);
    }
  }

  /** The runtime manager is asked once for each accepted request that needs a checkpoint, in
      the order of acceptance and with the prepared directory filled in, and for nothing else. */
  lemma ForwardTheorem(config: Config, es: seq<Event>)
    requires Possible(Init(config), es)
    ensures Forwards(Run(Init(config), es).sent) == AllForwarded(Init(config), es)
  {
    RunForwards(Init(config), es);
  }

  // --- every record that waits has been forwarded -------------------------

  ghost predicate Waiting(s: State, id: Name) {
    id in s.records && !s.records[id].answered ==>
      ForwardSnapshot(s.records[id].manager, s.records[id].request) in s.sent
  }

  lemma StepWaiting(s: State, e: Event, id: Name)
    requires Inv(s) && Enabled(s, e) && Waiting(s, id)
    ensures Waiting(Apply(s, e), id)
  {
    var t := Apply(s, e);
    StepForwards(s, e);
    if id in s.records {
      if id in t.records {
        StepChange(s, e, id);
        ChangeForward(s, e, id, t.records[id]);
        assert forall m | m in s.sent :: m in t.sent;
      }
    } else if id in t.records {
      NewWaiting(s, e, id);
    }
  }

  lemma NewWaiting(s: State, e: Event, id: Name)
    requires Inv(s) && Enabled(s, e) && id !in s.records && id in Apply(s, e).records
    ensures Waiting(Apply(s, e), id)
  {
    if e.Snapshot? {
      if e.q.id in s.records { SnapshotKeys(s, e); } else { RequestTheorem(s, e.from, e.q, e.io); }
    } else {
      PhaseCareful.NoNewKeys(s, e);
    }
  }

  lemma SnapshotKeys(s: State, e: Event)
    requires e.Snapshot? && e.q.id in s.records
    ensures Apply(s, e).records.Keys == s.records.Keys
  {
  }

  lemma {:induction false} RunWaiting(s: State, es: seq<Event>, id: Name)
    requires Inv(s) && Possible(s, es) && Waiting(s, id)
    ensures Waiting(Run(s, es), id)
    decreases |es|
  {
    if es != [] {
      StepWaiting(s, es[0], id);
      StepInv(s, es[0]);
      RunWaiting(Apply(s, es[0]), es[1..], id);
    }
  }

  /** In every reachable state a record that has not been answered has been forwarded, as it
      stands, to the manager it belongs to. */
  lemma WaitingTheorem(s: State, id: Name)
    requires Reachable(s) && id in s.records && !s.records[id].answered
    ensures ForwardSnapshot(s.records[id].manager, s.records[id].request) in s.sent
  {
    var config: Config, es: seq<Event> :| Possible(Init(config), es) && s == Run(Init(config), es);
    RunWaiting(Init(config), es, id);
  }

  // --- registration -------------------------------------------------------

  /** What the last registration message said, if there was one. */
  ghost function LastDone(es: seq<Event>, before: bool): bool {
    if es == [] then before
    else LastDone(es[1..], if es[0].RegisterComplete? then es[0].done else before)
  }

  ghost function LastManager(es: seq<Event>, before: Name): Name {
    if es == [] then before
    else LastManager(es[1..], if es[0].Register? then es[0].managerId else before)
  }

  lemma {:induction false} DrainComplete(s: State, managerId: Name, ids: seq<Name>)
    ensures Drain(s, managerId, ids).complete == s.complete
    decreases |ids|
  {
    if ids != [] { DrainComplete(DrainOne(s, managerId, ids[0]), managerId, ids[1..]); }
  }

  lemma StepRegistration(s: State, e: Event)
    requires Enabled(s, e)
    ensures Apply(s, e).complete == if e.RegisterComplete? then e.done else s.complete
    ensures Apply(s, e).manager.id == if e.Register? then e.managerId else s.manager.id
  {
    StepManager(s, e);
    if e.HeartbeatLost? || e.Register? {
      DrainComplete(s, s.manager.id, e.ids);
      DrainComplete(s.(manager := s.manager.(registered := false)), s.manager.id, e.ids);
      DrainConfig(s, s.manager.id, e.ids);
    }
  }

  /** Over any run the agent is registered as complete as the last such message said, and its
      manager is the one that registered last. */
  lemma {:induction false} RegistrationTheorem(s: State, es: seq<Event>)
    requires Possible(s, es)
    ensures Run(s, es).complete == LastDone(es, s.complete)
    ensures Run(s, es).manager.id == LastManager(es, s.manager.id)
    decreases |es|
  {
    if es != [] {
      StepRegistration(s, es[0]);
      RegistrationTheorem(Apply(s, es[0]), es[1..]);
    }
  }

  // --- forgotten requests -------------------------------------------------

  lemma {:induction false} StaysGone(s: State, es: seq<Event>, id: Name)
    requires Inv(s) && Possible(s, es) && id !in s.records
    requires forall i | 0 <= i < |es| :: !(es[i].Snapshot? && es[i].q.id == id)
    ensures id !in Run(s, es).records
    decreases |es|
  {
    if es != [] {
      if es[0].Snapshot? {
        if es[0].q.id in s.records { SnapshotKeys(s, es[0]); }
        else { RequestTheorem(s, es[0].from, es[0].q, es[0].io); }
      } else {
        PhaseCareful.NoNewKeys(s, es[0]);
      }
      StepInv(s, es[0]);
      StaysGone(Apply(s, es[0]), es[1..], id);
    }
  }

  /** Finalizing an attempt makes the agent forget its record and nothing else. Until the
      request comes again, answers to it are ignored and requests to publish it refused. */
  lemma ForgetTheorem(s: State, id: Name, es: seq<Event>, from: Address, snapshot: Name, instance: Name)
    requires Reachable(s) && Possible(Apply(s, Forget(id)), es) && from == s.config.scheduler
    requires forall i | 0 <= i < |es| :: !(es[i].Snapshot? && es[i].q.id == id)
    ensures Apply(s, Forget(id)) == s.(records := map x | x in s.records && x != id :: s.records[x])
    ensures var t := Run(Apply(s, Forget(id)), es);
            && id !in t.records
            && (forall e: Event | e.Answered? && e.response.id == id :: Apply(t, e) == t)
            && Apply(t, PublishRequest(from, id, snapshot, instance)) ==
                 t.(sent := t.sent + [PublishReply(
                    from, Response(id, ERR_PARAM_INVALID, false, false, EMPTY, None, EMPTY, EMPTY, false))])
  {
    ReachableInv(s);
    StepInv(s, Forget(id));
    assert id !in Apply(s, Forget(id)).records;
    StaysGone(Apply(s, Forget(id)), es, id);
    RunInv(Apply(s, Forget(id)), es);
  }
}
