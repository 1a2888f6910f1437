/** Requests that come again while their record lives, and runs that show what reused request
    IDs and repeated answers do. */
module PhaseReplays {
  import opened Basics
  import opened SnapshotPhases
  import opened PhaseProofs
  import opened PhaseLives

  /** The agent gets as far as looking the request up. */
  predicate LooksUp(s: State, from: Address, q: Request) {
    && from == s.config.scheduler && s.manager.registered && s.complete
    && s.config.safe(Named(s, q).snapshot) && !Incomplete(s, Named(s, q))
  }

  /** The response with which a record answers a replay, if it has one. */
  function Known(r: Record): Option<Response> {
    if r.localReady then Some(r.localReadyResponse) else if r.completed then Some(r.completedResponse) else None
  }

  lemma AcceptStores(s: State, from: Address, q: Request, io: Stores)
    requires q.id !in s.records && q.id in Accept(s, from, q, io).records
    ensures io.prepared.Some?
    ensures Accept(s, from, q, io).records[q.id].request == q.(checkpointDir := io.prepared.value.0)
  {
  }

  /** What a looked-up request does when its record is there. */
  lemma FoundAgain(s: State, from: Address, again: Request, io: Stores)
    requires Inv(s) && LooksUp(s, from, again) && again.id in s.records
    ensures var id, r, t := again.id, s.records[again.id], Apply(s, Snapshot(from, again, io));
            if r.request == Named(s, again) then
              && t.records == s.records[id := r.(caller := from)] && t.publishing == s.publishing
              && t.sent == s.sent + (if Known(r).Some? then [SnapshotReply(from, Known(r).value)] else [])
            else
              t == Send(s, SnapshotReply(from, Plain(id, PARAMETER_ERROR, false, false)))
  {
    assert RecordOk(s.config.distributed, again.id, s.records[again.id]);
    assert Apply(s, Snapshot(from, again, io)) == Replay(s, from, Named(s, again));
  }

  /** What the record of an accepted request remembers as long as it lives. */
  lemma Remembered(s: State, e: Event, es: seq<Event>)
    requires Inv(s) && e.Snapshot? && e.q.id !in s.records && e.q.id in Apply(s, e).records
    requires Possible(Apply(s, e), es) && Lives(Apply(s, e), es, e.q.id)
    ensures e.io.prepared.Some? && Inv(Run(Apply(s, e), es)) && e.q.id in Run(Apply(s, e), es).records
    ensures Run(Apply(s, e), es).records[e.q.id].request == Named(s, e.q).(checkpointDir := e.io.prepared.value.0)
  {
    StepInv(s, e);
    AcceptStores(s, e.from, Named(s, e.q), e.io);
    assert Apply(s, e) == Accept(s, e.from, Named(s, e.q), e.io);
    LifeTheorem(Apply(s, e), es, e.q.id);
    RunInv(Apply(s, e), es);
  }

  /** A request accepted in any reachable state, and any run through which its record lives:
      a later request with the same ID is refused as a conflict if and only if it differs from
      the original with its snapshot ID filled in and the prepared directory in it. Otherwise
      it is a replay: nothing is launched, the caller is replaced, and it gets the response
      for the local copy, or else the completed one, or else none yet. */
  lemma ReplayTheorem(s: State, from: Address, q: Request, io: Stores, es: seq<Event>, caller: Address, again: Request,
                      later: Stores)
    requires Reachable(s) && q.id !in s.records && q.id in Apply(s, Snapshot(from, q, io)).records && again.id == q.id
    requires Possible(Apply(s, Snapshot(from, q, io)), es) && Lives(Apply(s, Snapshot(from, q, io)), es, q.id)
    requires LooksUp(Run(Apply(s, Snapshot(from, q, io)), es), caller, again)
    ensures io.prepared.Some?
    ensures var t := Run(Apply(s, Snapshot(from, q, io)), es);
            var u := Apply(t, Snapshot(caller, again, later));
            q.id in t.records &&
            if Named(t, again) == Named(s, q).(checkpointDir := io.prepared.value.0) then
              && u.records == t.records[q.id := t.records[q.id].(caller := caller)] && u.publishing == t.publishing
              && u.sent == t.sent + (if Known(t.records[q.id]).Some?
                                     then [SnapshotReply(caller, Known(t.records[q.id]).value)] else [])
            else
              u == Send(t, SnapshotReply(caller, Plain(q.id, PARAMETER_ERROR, false, false)))
  {
    ReachableInv(s);
    Remembered(s, Snapshot(from, q, io), es);
    FoundAgain(Run(Apply(s, Snapshot(from, q, io)), es), caller, again, later);
  }

  /** A recognised replay is never answered with the conflict code. */
  lemma KnownIsNoConflict(s: State, id: Name)
    requires Reachable(s) && id in s.records && Known(s.records[id]).Some?
    ensures Known(s.records[id]).value.code != PARAMETER_ERROR
  {
    ReachableInv(s);
    assert RecordOk(s.config.distributed, id, s.records[id]);
  }

  // --- reachable states, step by step -------------------------------------

  lemma {:induction false} RunSnoc(s: State, es: seq<Event>, e: Event)
    requires Possible(s, es) && Enabled(Run(s, es), e)
    ensures Possible(s, es + [e]) && Run(s, es + [e]) == Apply(Run(s, es), e)
    decreases |es|
  {
    if es == [] {
      assert [e][1..] == [] && es + [e] == [e];
      assert Possible(Apply(s, e), []);
    } else {
      assert (es + [e])[0] == es[0] && (es + [e])[1..] == es[1..] + [e];
      RunSnoc(Apply(s, es[0]), es[1..], e);
    }
  }

  lemma ReachableStep(s: State, e: Event)
    requires Reachable(s) && Enabled(s, e)
    ensures Reachable(Apply(s, e))
  {
    var config: Config, es: seq<Event> :| Possible(Init(config), es) && s == Run(Init(config), es);
    RunSnoc(Init(config), es, e);
  }

  /** A distributed agent whose runtime manager has registered. */
  ghost function Ready(distributed: bool): State {
    Init(Config((7, 8), distributed, true, true, (id, instance) => id + 1, snapshot => true))
      .(complete := true, manager := Manager((9, 9), 1, true))
  }

  lemma ReadyReachable(distributed: bool)
    ensures Reachable(Ready(distributed))
  {
    var s := Init(Ready(distributed).config);
    assert Possible(s, []) && Run(s, []) == s;
    var e, f := Register((9, 9), 1, []), RegisterComplete(true);
    ReachableStep(s, e);
    ReachableStep(Apply(s, e), f);
    assert Apply(Apply(s, e), f) == Ready(distributed);
  }

  /** Retransmitting a request as it is, while its record lives, is refused: the original
      names no directory and the record remembers the prepared one. */
  lemma RetransmissionMissed() returns (s: State, q: Request, io: Stores)
    ensures Reachable(s) && q.id !in s.records
    ensures var t := SnapshotRuntime(s, s.config.scheduler, q, io);
            && q.id in t.records && !t.records[q.id].completed
            && SnapshotRuntime(t, s.config.scheduler, q, io)
                 == Send(t, SnapshotReply(s.config.scheduler, Plain(q.id, PARAMETER_ERROR, false, false)))
  {
    q := Request(1, 2, 3, 4, 5, 1, true, PauseResumeKind, false, EMPTY, EMPTY, EMPTY);
    io := Stores(None, Some((6, false)), None);
    s := Ready(false);
    ReadyReachable(false);
  }

  ghost const DIRECT: Request := Request(1, 2, 3, 4, 5, 1, false, OtherKind, true, 10, 11, EMPTY)

  ghost const SUCCEEDED: Response := Response(1, SUCCESS, false, false, 2, None, EMPTY, EMPTY, false)

  /** A direct request has been accepted. */
  lemma OnceAccepted() returns (s: State)
    ensures Reachable(s) && s.config == Ready(true).config && s.complete && s.manager == Manager((9, 9), 1, true)
    ensures s.records.Keys == {1} && s.records[1].launches == 0
    ensures s.records[1].request == DIRECT.(checkpointDir := 6) && s.records[1].manager == (9, 9)
    ensures s.publishing == multiset{}
  {
    var e := Snapshot((7, 8), DIRECT, Stores(Some(12), Some((6, false)), None));
    ReadyReachable(true);
    ReachableStep(Ready(true), e);
    s := Apply(Ready(true), e);
  }

  /** A direct request has been accepted and answered. */
  lemma OnceAnswered() returns (s: State)
    ensures Reachable(s) && s.config == Ready(true).config && s.complete && s.manager == Manager((9, 9), 1, true)
    ensures s.records.Keys == {1} && s.records[1].launches == 1 && s.records[1].answered
    ensures s.records[1].request == DIRECT.(checkpointDir := 6) && s.records[1].manager == (9, 9)
    ensures s.publishing == multiset{Flight(1, true)}
  {
    var a := OnceAccepted();
    var e := Answered((9, 9), SUCCEEDED, Some(20));
    ReachableStep(a, e);
    s := Apply(a, e);
  }

  /** A repeated answer launches the same publication again. */
  lemma TwoLaunches() returns (s: State, e: Event)
    ensures Reachable(s) && Enabled(s, e) && e.Answered? && s.records.Keys == {1} && s.records[1].launches == 1
    ensures Relaunches(s, e, 1) && 1 in Apply(s, e).records && Apply(s, e).records[1].launches == 2
  {
    s := OnceAnswered();
    e := Answered((9, 9), SUCCEEDED, Some(20));
  }

  /** The runtime manager is lost while a publication is in flight. */
  lemma LostInFlight() returns (s: State)
    ensures Reachable(s) && s.config == Ready(true).config && s.complete && s.manager.id == 1
    ensures s.records == map[] && s.publishing == multiset{Flight(1, true)}
  {
    var a := OnceAnswered();
    assert Lists(a, [1]);
    ReachableStep(a, HeartbeatLost(1, [1]));
    ReachableInv(a);
    LostOne(a);
    s := Apply(a, HeartbeatLost(1, [1]));
  }

  /** Another one has registered. */
  lemma Replaced() returns (s: State)
    ensures Reachable(s) && s.config == Ready(true).config && s.complete && s.manager == Manager((9, 9), 2, true)
    ensures s.records == map[] && s.publishing == multiset{Flight(1, true)}
  {
    var a := LostInFlight();
    assert Lists(a, []);
    ReachableStep(a, Register((9, 9), 2, []));
    s := Apply(a, Register((9, 9), 2, []));
  }

  /** The same request is accepted again with its snapshot in the store. */
  lemma TwiceInFlight() returns (s: State)
    ensures Reachable(s) && s.records.Keys == {1} && InFlight(s, 1) == 2
    ensures s.records[1].request.id == 1 && s.records[1].storage == 12 && s.records[1].objectKey == 10
    ensures s.publishing == multiset{Flight(1, true), Flight(1, true)}
  {
    var a := Replaced();
    var retry := Snapshot((7, 8), DIRECT, Stores(Some(12), Some((6, true)), Some(20)));
    ReachableStep(a, retry);
    s := Apply(a, retry);
    assert s == Accept(a, (7, 8), DIRECT, Stores(Some(12), Some((6, true)), Some(20)));
  }

  lemma LostOne(a: State)
    requires a.records.Keys == {1} && a.manager.id == 1 && a.records[1].managerId == 1
    ensures var b := Apply(a, HeartbeatLost(1, [1]));
            && b.records == map[] && b.publishing == a.publishing && b.config == a.config && b.complete == a.complete
            && b.manager.id == 1
  {
    var u := a.(manager := a.manager.(registered := false));
    assert [1][1..] == [];
    assert Drain(u, 1, [1]) == Drain(DrainOne(u, 1, 1), 1, []);
    assert (a.records - {1}).Keys == {};
  }

  /** The old publication and the new one both end under the same record, and the second end
      changes its completed response. */
  lemma ResponseReplaced() returns (s: State, e: Event)
    ensures Reachable(s) && Enabled(s, e) && s.records.Keys == {1} && s.records[1].completed && InFlight(s, 1) == 1
    ensures 1 in Apply(s, e).records
    ensures s.records[1].completedResponse.code == OtherCode(77)
    ensures Apply(s, e).records[1].completedResponse.code == SUCCESS
  {
    var a := TwiceInFlight();
    var refused := PublishDone(Flight(1, true), Refused(77, false, Facts(20, 30)));
    ReachableStep(a, refused);
    s := Apply(a, refused);
    assert s.publishing == multiset{Flight(1, true)};
    e := PublishDone(Flight(1, true), Stored(Facts(20, 30)));
  }
}
