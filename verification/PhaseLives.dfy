/** The life of one record: how often it is launched and when its completed response is
    final. Nothing is assumed about request IDs being used again or about repeated answers. */
module PhaseLives {
  import opened Basics
  import opened SnapshotPhases
  import opened PhaseProofs

  // --- one event ----------------------------------------------------------

  /** The event is an answer of the record's manager that the agent goes on with. */
  ghost predicate Accepts(s: State, e: Event, id: Name)
    requires id in s.records
  {
    e.Answered? && e.response.id == id && e.from == s.records[id].manager
    && AnswerError(s.records[id], e.response, e.committed).None?
  }

  /** The event is the request that starts the publication of the record. */
  ghost predicate Starts(s: State, e: Event, id: Name)
    requires id in s.records
  {
    var r := s.records[id];
    && e.PublishRequest? && e.id == id && e.from == s.config.scheduler
    && e.snapshot == r.request.snapshot && e.instance == r.request.instance
    && r.localReady && !r.completed && !r.publicationStarted
  }

  /** The event is the end of a publication launched under the record's request ID. */
  ghost predicate Lands(e: Event, id: Name) {
    e.PublishDone? && e.f.id == id
  }

  /** The response of a completed record: the request it answers, the checkpoint it asked
      for, exact facts, and the place where they are stored. */
  ghost predicate Reports(response: Response, r: Record) {
    && response.id == r.request.id && response.facts.Some?
    && response.storage == r.storage && response.objectKey == r.objectKey
    && (response.code == SUCCESS ==> response.checkpoint == r.request.snapshot)
  }

  /** The response is a success with exactly what was stored, or the failure that was reported. */
  ghost predicate Says(o: Outcome, response: Response) {
    match o
    case Stored(facts) => response.code == SUCCESS && response.facts == Some(facts)
    case Refused(code, unknown, _) => response.code == OtherCode(code) && response.unknown == unknown
    case Broken => response.code == ERR_INNER_COMMUNICATION && response.unknown
  }

  /** What one event makes of a record that survives it. */
  ghost predicate Changed(s: State, e: Event, id: Name, u: Record)
    requires id in s.records
  {
    var r, d := s.records[id], s.config.distributed;
    if Accepts(s, e, id) then
      u == Advance(Measured(r, e.committed.value), Sized(e.response, e.committed.value), false, d)
    else if Starts(s, e, id) then
      u == Advance(r.(publishCaller := e.from, publicationStarted := true), r.localReadyResponse, true, d)
    else if Lands(e, id) then
      && u == r.(completed := true, completedResponse := u.completedResponse) && Reports(u.completedResponse, r)
      && Says(e.o, u.completedResponse)
    else
      u == r.(caller := u.caller, publishCaller := u.publishCaller)
  }

  lemma SnapshotChange(s: State, e: Event, id: Name)
    requires e.Snapshot? && id in s.records
    ensures id in Apply(s, e).records && Changed(s, e, id, Apply(s, e).records[id])
  {
    var q, t := Named(s, e.q), Apply(s, e);
    if q.id in s.records {
      assert t.records == s.records || t.records == Save(s, q.id, s.records[q.id].(caller := e.from)).records;
    } else {
      AcceptTable(s, e.from, q, e.io, id);
      assert t.records == s.records || t.records == Accept(s, e.from, q, e.io).records;
    }
  }

  /** Accepting a new request leaves the other records alone. */
  lemma AcceptTable(s: State, from: Address, q: Request, io: Stores, id: Name)
    requires id in s.records && q.id !in s.records
    ensures var t := Accept(s, from, q, io); id in t.records && t.records[id] == s.records[id]
  {
  }

  lemma AnswerChange(s: State, e: Event, id: Name)
    requires e.Answered? && id in s.records && id in Apply(s, e).records
    ensures Changed(s, e, id, Apply(s, e).records[id])
  {
    var t := Apply(s, e);
    if Accepts(s, e, id) {
      assert t == Continue(s, id, Measured(s.records[id], e.committed.value), Sized(e.response, e.committed.value),
          false);
    } else {
      assert t.records[id] == s.records[id];
    }
  }

  lemma PublishChange(s: State, e: Event, id: Name)
    requires e.PublishRequest? && id in s.records
    ensures id in Apply(s, e).records && Changed(s, e, id, Apply(s, e).records[id])
  {
    var t := Apply(s, e);
    if Starts(s, e, id) {
      var p := s.records[id].(publishCaller := e.from, publicationStarted := true);
      assert t == Continue(s, id, p, s.records[id].localReadyResponse, true);
    } else if e.id in s.records {
      PublishTable(s, e, id);
    }
  }

  lemma PublishTable(s: State, e: Event, id: Name)
    requires e.PublishRequest? && id in s.records && e.id in s.records && !Starts(s, e, id)
    ensures var t := Apply(s, e);
            id in t.records && (t.records[id] == s.records[id]
                || t.records[id] == s.records[id].(publishCaller := e.from))
  {
    var r := s.records[e.id].(publishCaller := e.from);
    if Starts(s, e, e.id) {
      var p := Advance(r.(publicationStarted := true), r.localReadyResponse, true, s.config.distributed);
      assert Apply(s, e).records == Save(s, e.id, p).records;
    } else {
      assert Apply(s, e).records == s.records || Apply(s, e).records == Save(s, e.id, r).records;
    }
  }

  /** A publication that ends completes its record, or makes the agent forget it. */
  ghost predicate Landed(records: map<Name, Record>, id: Name, o: Outcome, t: State) {
    || t.records == records - {id}
    || (id in records && id in t.records
        && Reports(t.records[id].completedResponse, records[id]) && Says(o, t.records[id].completedResponse)
        && t.records == records[id := records[id].(completed := true,
            completedResponse := t.records[id].completedResponse)])
  }

  lemma FailedTable(s: State, f: Flight, o: Outcome, code: Code, unknown: bool, known: Facts)
    requires f.id in s.records && code != SUCCESS
    requires (o == Broken && code == ERR_INNER_COMMUNICATION && unknown)
             || (o.Refused? && code == OtherCode(o.code) && unknown == o.unknown)
    ensures Landed(s.records, f.id, o, PublishFailed(s, f, s.records[f.id], code, unknown, known))
  {
  }

  lemma LandTable(s: State, f: Flight, o: Outcome)
    requires f in s.publishing
    ensures Landed(s.records, f.id, o, Published(s, f, o))
  {
    if f.id in s.records {
      var t := s.(publishing := s.publishing - multiset{f});
      match o
      case Broken => FailedTable(t, f, o, ERR_INNER_COMMUNICATION, true, Facts(0, EMPTY));
      case Refused(code, unknown, known) => FailedTable(t, f, o, OtherCode(code), unknown, known);
      case Stored(_) =>
    } else {
      assert Published(s, f, o).records == s.records - {f.id};
    }
  }

  lemma LandChange(s: State, e: Event, id: Name)
    requires e.PublishDone? && Enabled(s, e) && id in s.records && id in Apply(s, e).records
    ensures Changed(s, e, id, Apply(s, e).records[id])
  {
    LandTable(s, e.f, e.o);
  }

  /** Asking for publication launches it at most once, from a described local copy. */
  lemma PublishOnce(s: State, from: Address, id: Name, snapshot: Name, instance: Name)
    requires Inv(s)
    ensures var t := Publish(s, from, id, snapshot, instance);
            && t.records.Keys == s.records.Keys
            && (t.publishing != s.publishing ==>
                  && id in s.records && !s.records[id].publicationStarted && !s.records[id].completed
                  && s.records[id].launches == 0 && Describes(s.records[id].localReadyResponse, s.records[id])
                  && t.records[id].publicationStarted && t.records[id].launches == 1)
  {
    var e := PublishRequest(from, id, snapshot, instance);
    if id in s.records {
      assert RecordOk(s.config.distributed, id, s.records[id]);
      if Starts(s, e, id) {
        var p := s.records[id].(publishCaller := from, publicationStarted := true);
        assert Publish(s, from, id, snapshot, instance) == Continue(s, id, p, s.records[id].localReadyResponse, true);
      }
    }
  }

  /** Only an answer of the registered manager does anything, and only to the request that
      it names; the record stays if and only if the answer is a success for the checkpoint
      asked for, and the local store commits it. */
  lemma AnswerFrame(s: State, from: Address, response: Response, committed: Option<nat>)
    requires Inv(s)
    ensures var t := Answer(s, from, response, committed);
            && (from != s.manager.address ==> t == s)
            && (forall id | id in s.records && id != response.id :: id in t.records && t.records[id] == s.records[id])
            && (response.id in s.records && from == s.manager.address ==>
                  (response.id in t.records <==>
                     response.code == SUCCESS && response.checkpoint == s.records[response.id].request.snapshot
                     && committed.Some?))
  {
    var id := response.id;
    if id in s.records {
      assert Owned(s, s.records[id]);
      if Accepts(s, Answered(from, response, committed), id) {
        var m := Measured(s.records[id], committed.value);
        assert Answer(s, from, response, committed) == Continue(s, id, m, Sized(response, committed.value), false);
      }
    }
  }

  /** A request whose record lives launches nothing, and others are not touched. */
  lemma HandleFrame(s: State, from: Address, q: Request, io: Stores)
    ensures var t := Handle(s, from, q, io);
            && (q.id in s.records ==> t.publishing == s.publishing && t.records.Keys == s.records.Keys)
            && (forall id | id in s.records && id != q.id :: id in t.records && t.records[id] == s.records[id])
  {
    if q.id !in s.records {
      forall id | id in s.records && id != q.id
        ensures var t := Handle(s, from, q, io); id in t.records && t.records[id] == s.records[id]
      {
        AcceptTable(s, from, q, io, id);
      }
    }
  }

  lemma StepChange(s: State, e: Event, id: Name)
    requires Inv(s) && Enabled(s, e) && id in s.records && id in Apply(s, e).records
    ensures Changed(s, e, id, Apply(s, e).records[id])
  {
    match e
    case Snapshot(_, _, _) => SnapshotChange(s, e, id);
    case Answered(_, _, _) => AnswerChange(s, e, id);
    case PublishRequest(_, _, _, _) => PublishChange(s, e, id);
    case PublishDone(_, _) => LandChange(s, e, id);
    case HeartbeatLost(_, _) => ManagerInv(s, e);
    case Register(_, _, _) => ManagerInv(s, e);
    case RegisterComplete(_) =>
    case Forget(_) =>
  }

  // --- phases move forward ------------------------------------------------

  ghost predicate Forward(r: Record, u: Record) {
    && u.request == r.request && u.manager == r.manager && u.managerId == r.managerId
    && (r.answered ==> u.answered) && (r.localReady ==> u.localReady)
    && (r.publicationStarted ==> u.publicationStarted) && (r.completed ==> u.completed)
    && r.launches <= u.launches
  }

  lemma ChangeForward(s: State, e: Event, id: Name, u: Record)
    requires id in s.records && Changed(s, e, id, u)
    ensures Forward(s.records[id], u)
  {
  }

  /** The record `id` lives through the whole run. */
  ghost predicate Lives(s: State, es: seq<Event>, id: Name)
    requires Possible(s, es)
    decreases |es|
  {
    id in s.records && (es == [] || Lives(Apply(s, es[0]), es[1..], id))
  }

  /** While a record lives its request and its incarnation stay and its phases move forward. */
  lemma {:induction false} LifeTheorem(s: State, es: seq<Event>, id: Name)
    requires Inv(s) && Possible(s, es) && Lives(s, es, id)
    ensures id in Run(s, es).records && Forward(s.records[id], Run(s, es).records[id])
    decreases |es|
  {
    if es != [] {
      StepChange(s, es[0], id);
      ChangeForward(s, es[0], id, Apply(s, es[0]).records[id]);
      StepInv(s, es[0]);
      LifeTheorem(Apply(s, es[0]), es[1..], id);
    }
  }

  // --- at most one launch -------------------------------------------------

  /** An answer that is accepted again for a request that is launched by its answers. */
  ghost predicate Relaunches(s: State, e: Event, id: Name)
    requires id in s.records
  {
    Accepts(s, e, id) && s.records[id].answered && Direct(s.records[id].request, s.config.distributed)
  }

  lemma StepLaunches(s: State, e: Event, id: Name)
    requires Inv(s) && Enabled(s, e) && id in s.records && id in Apply(s, e).records
    requires s.records[id].launches <= 1
    ensures Apply(s, e).records[id].launches <= 1 <==> !Relaunches(s, e, id)
  {
    StepChange(s, e, id);
    assert RecordOk(s.config.distributed, id, s.records[id]);
  }

  ghost predicate NeverRelaunched(s: State, es: seq<Event>, id: Name)
    requires Possible(s, es) && Lives(s, es, id)
    decreases |es|
  {
    es == [] || (!Relaunches(s, es[0], id) && NeverRelaunched(Apply(s, es[0]), es[1..], id))
  }

  /** Remote publication is launched at most once in the life of a record if and only if no
      answer is accepted a second time for a request that its answers launch. */
  lemma {:induction false} LaunchTheorem(s: State, es: seq<Event>, id: Name)
    requires Inv(s) && Possible(s, es) && Lives(s, es, id) && s.records[id].launches <= 1
    ensures id in Run(s, es).records
    ensures Run(s, es).records[id].launches <= 1 <==> NeverRelaunched(s, es, id)
    decreases |es|
  {
    if es != [] {
      StepLaunches(s, es[0], id);
      StepInv(s, es[0]);
      if Relaunches(s, es[0], id) {
        LifeTheorem(Apply(s, es[0]), es[1..], id);
      } else {
        LaunchTheorem(Apply(s, es[0]), es[1..], id);
      }
    }
  }

  // --- the completed response ---------------------------------------------

  /** Whether an accepted answer writes the completed response. */
  predicate AnswerCompletes(q: Request, distributed: bool) {
    match NextStep(q, false, distributed)
    case CompleteLocally => true
    case BecomeReady => false
    case Launch => q.returnArtifact
  }

  /** The event writes the completed response of a record. */
  ghost predicate Writes(s: State, e: Event, id: Name)
    requires id in s.records
  {
    Lands(e, id) || (Accepts(s, e, id) && AnswerCompletes(s.records[id].request, s.config.distributed))
  }

  lemma StepFinal(s: State, e: Event, id: Name)
    requires Inv(s) && Enabled(s, e) && id in s.records && id in Apply(s, e).records
    requires s.records[id].completed && !Writes(s, e, id)
    ensures Apply(s, e).records[id].completed
    ensures Apply(s, e).records[id].completedResponse == s.records[id].completedResponse
  {
    StepChange(s, e, id);
  }

  ghost predicate NeverWritten(s: State, es: seq<Event>, id: Name)
    requires Possible(s, es) && Lives(s, es, id)
    decreases |es|
  {
    es == [] || (!Writes(s, es[0], id) && NeverWritten(Apply(s, es[0]), es[1..], id))
  }

  /** A completed response stays as it is in every run in which no publication under its
      request ID ends and no answer that completes is accepted. */
  lemma {:induction false} FinalResponseTheorem(s: State, es: seq<Event>, id: Name)
    requires Inv(s) && Possible(s, es) && Lives(s, es, id) && NeverWritten(s, es, id) && s.records[id].completed
    ensures id in Run(s, es).records && Run(s, es).records[id].completed
    ensures Run(s, es).records[id].completedResponse == s.records[id].completedResponse
    decreases |es|
  {
    if es != [] {
      StepFinal(s, es[0], id);
      StepInv(s, es[0]);
      FinalResponseTheorem(Apply(s, es[0]), es[1..], id);
    }
  }

  /** Once a publication has been stored, the response of its record is a success with the
      size and the digest that were stored, as long as nothing writes it again. */
  lemma StoredTheorem(s: State, f: Flight, facts: Facts, es: seq<Event>)
    requires Reachable(s) && f in s.publishing && f.id in s.records
    requires Possible(Apply(s, PublishDone(f, Stored(facts))), es)
    requires Lives(Apply(s, PublishDone(f, Stored(facts))), es, f.id)
    requires NeverWritten(Apply(s, PublishDone(f, Stored(facts))), es, f.id)
    ensures var r, t := s.records[f.id], Run(Apply(s, PublishDone(f, Stored(facts))), es);
            && f.id in t.records && t.records[f.id].completed
            && t.records[f.id].completedResponse ==
                 Response(r.request.id, SUCCESS, false, false, r.request.snapshot, Some(facts), r.storage, r.objectKey,
                          f.reusable)
  {
    var t := Apply(s, PublishDone(f, Stored(facts)));
    ReachableInv(s);
    StepInv(s, PublishDone(f, Stored(facts)));
    FinalResponseTheorem(t, es, f.id);
  }

  /** The response is the same at the end of every run through which the record lives. */
  ghost predicate Final(s: State, id: Name)
    requires id in s.records
  {
    forall es | Possible(s, es) && Lives(s, es, id) ::
      id in Run(s, es).records && Run(s, es).records[id].completedResponse == s.records[id].completedResponse
  }

  lemma StepFlights(s: State, e: Event, id: Name)
    requires Inv(s) && Enabled(s, e) && id in s.records && id in Apply(s, e).records
    requires s.records[id].completed && InFlight(s, id) == 0 && !Accepts(s, e, id)
    ensures InFlight(Apply(s, e), id) == 0
  {
    match e
    case Snapshot(_, _, _) => SnapshotFlights(s, e, id);
    case Answered(_, _, _) => AnswerFlights(s, e, id);
    case PublishRequest(_, _, _, _) => PublishFlights(s, e, id);
    case PublishDone(_, _) => LandFlights(s, e, id);
    case HeartbeatLost(_, _) => ManagerInv(s, e);
    case Register(_, _, _) => ManagerInv(s, e);
    case RegisterComplete(_) =>
    case Forget(_) =>
  }

  lemma ContinueFlights(s: State, key: Name, r: Record, response: Response, publish: bool, id: Name)
    requires key != id
    ensures InFlight(Continue(s, key, r, response, publish), id) == InFlight(s, id)
  {
  }

  lemma AnswerFlights(s: State, e: Event, id: Name)
    requires e.Answered? && id in s.records && !Accepts(s, e, id)
    ensures InFlight(Apply(s, e), id) == InFlight(s, id)
  {
    var key := e.response.id;
    if key in s.records && Accepts(s, e, key) {
      ContinueFlights(s, key, Measured(s.records[key], e.committed.value), Sized(e.response, e.committed.value),
          false, id);
    }
  }

  lemma PublishFlights(s: State, e: Event, id: Name)
    requires e.PublishRequest? && id in s.records && s.records[id].completed
    ensures InFlight(Apply(s, e), id) == InFlight(s, id)
  {
    if e.id in s.records && Starts(s, e, e.id) {
      var r := s.records[e.id].(publishCaller := e.from);
      ContinueFlights(s, e.id, r.(publicationStarted := true), r.localReadyResponse, true, id);
    }
  }

  lemma LandFlights(s: State, e: Event, id: Name)
    requires e.PublishDone? && Enabled(s, e) && InFlight(s, id) == 0
    ensures InFlight(Apply(s, e), id) == 0
  {
    assert Apply(s, e).publishing == s.publishing - multiset{e.f};
  }

  lemma SnapshotFlights(s: State, e: Event, id: Name)
    requires e.Snapshot? && id in s.records
    ensures InFlight(Apply(s, e), id) == InFlight(s, id)
  {
    var q := Named(s, e.q);
    if q.id !in s.records { AcceptFlights(s, e.from, q, e.io, id); }
  }

  lemma AcceptFlights(s: State, from: Address, q: Request, io: Stores, id: Name)
    requires q.id != id
    ensures InFlight(Accept(s, from, q, io), id) == InFlight(s, id)
  {
  }

  lemma {:induction false} DeferredFinal(s: State, es: seq<Event>, id: Name)
    requires Inv(s) && Possible(s, es) && Lives(s, es, id) && s.records[id].completed && InFlight(s, id) == 0
    requires NextStep(s.records[id].request, false, s.config.distributed).BecomeReady?
    ensures id in Run(s, es).records && Run(s, es).records[id].completedResponse == s.records[id].completedResponse
    decreases |es|
  {
    if es != [] {
      var t := Apply(s, es[0]);
      assert !Lands(es[0], id);
      StepFinal(s, es[0], id);
      StepChange(s, es[0], id);
      StepInv(s, es[0]);
      StepConfig(s, es[0]);
      if !Accepts(s, es[0], id) { StepFlights(s, es[0], id); }
      DeferredFinal(t, es[1..], id);
    }
  }

  lemma RunOfOne(s: State, e: Event, id: Name)
    requires Enabled(s, e) && id in s.records && id in Apply(s, e).records
    ensures Possible(s, [e]) && Lives(s, [e], id) && Run(s, [e]) == Apply(s, e)
  {
    assert [e][1..] == [];
    assert Possible(Apply(s, e), []) && Lives(Apply(s, e), [], id);
  }

  /** A publication in flight under the ID can end with other facts. */
  lemma FlightRewrites(s: State, id: Name)
    requires id in s.records && InFlight(s, id) > 0
    ensures !Final(s, id)
  {
    var r := s.records[id];
    var f := if Flight(id, true) in s.publishing then Flight(id, true) else Flight(id, false);
    var n := if r.completedResponse.facts.Some? then r.completedResponse.facts.value.size + 1 else 0;
    var e := PublishDone(f, Stored(Facts(n, EMPTY)));
    RunOfOne(s, e, id);
    assert Apply(s, e).records[id].completedResponse.facts == Some(Facts(n, EMPTY));
  }

  /** The manager can answer again with another size. */
  ghost function OtherAnswer(r: Record): Event {
    var n := if r.completedResponse.facts.Some? then r.completedResponse.facts.value.size + 1 else 0;
    Answered(r.manager, Response(r.request.id, SUCCESS, false, false, r.request.snapshot, None, EMPTY, EMPTY, false),
        Some(n))
  }

  lemma AnswerRewrites(s: State, id: Name)
    requires Inv(s) && id in s.records && AnswerCompletes(s.records[id].request, s.config.distributed)
    ensures !Final(s, id)
  {
    var r := s.records[id];
    var e := OtherAnswer(r);
    assert RecordOk(s.config.distributed, id, r);
    assert Apply(s, e) == Continue(s, id, Measured(r, e.committed.value), Sized(e.response, e.committed.value), false);
    RunOfOne(s, e, id);
  }

  /** A launched answer without artifact brings a publication into flight. */
  lemma LaunchRewrites(s: State, id: Name)
    requires Inv(s) && id in s.records && NextStep(s.records[id].request, false, s.config.distributed).Launch?
    requires !s.records[id].request.returnArtifact
    ensures !Final(s, id)
  {
    var r := s.records[id];
    var e := OtherAnswer(r);
    assert RecordOk(s.config.distributed, id, r);
    var t := Apply(s, e);
    assert t == Continue(s, id, Measured(r, e.committed.value), Sized(e.response, e.committed.value), false);
    assert InFlight(t, id) > 0 && t.records[id].completedResponse == r.completedResponse;
    FlightRewrites(t, id);
    if Final(s, id) {
      forall es | Possible(t, es) && Lives(t, es, id)
        ensures id in Run(t, es).records && Run(t, es).records[id].completedResponse == t.records[id].completedResponse
      {
        assert ([e] + es)[0] == e && ([e] + es)[1..] == es;
        assert Possible(s, [e] + es) && Lives(s, [e] + es, id) && Run(s, [e] + es) == Run(t, es);
      }
    }
  }

  /** A completed response is final, against everything that may still happen while the
      record lives, if and only if no publication is in flight under its request ID and its
      request is one that answers only make ready. */
  lemma FinalTheorem(s: State, id: Name)
    requires Reachable(s) && id in s.records && s.records[id].completed
    ensures Final(s, id) <==>
              InFlight(s, id) == 0 && NextStep(s.records[id].request, false, s.config.distributed).BecomeReady?
  {
    ReachableInv(s);
    if InFlight(s, id) > 0 {
      FlightRewrites(s, id);
    } else if AnswerCompletes(s.records[id].request, s.config.distributed) {
      AnswerRewrites(s, id);
    } else if NextStep(s.records[id].request, false, s.config.distributed).Launch? {
      LaunchRewrites(s, id);
    } else {
      forall es | Possible(s, es) && Lives(s, es, id)
        ensures id in Run(s, es).records && Run(s, es).records[id].completedResponse == s.records[id].completedResponse
      {
        DeferredFinal(s, es, id);
      }
    }
  }

  /** Launches stay at one at the end of every run through which the record lives. */
  ghost predicate LaunchedOnce(s: State, id: Name) {
    forall es | Possible(s, es) && Lives(s, es, id) :: id in Run(s, es).records && Run(s, es).records[id].launches <= 1
  }

  lemma {:induction false} NotDirectOnce(s: State, es: seq<Event>, id: Name)
    requires Inv(s) && Possible(s, es) && Lives(s, es, id)
    requires !Direct(s.records[id].request, s.config.distributed)
    ensures NeverRelaunched(s, es, id)
    decreases |es|
  {
    if es != [] {
      StepChange(s, es[0], id);
      StepInv(s, es[0]);
      StepConfig(s, es[0]);
      NotDirectOnce(Apply(s, es[0]), es[1..], id);
    }
  }

  lemma AnswersLaunch(s: State, id: Name)
    requires Inv(s) && id in s.records && Direct(s.records[id].request, s.config.distributed)
    ensures !LaunchedOnce(s, id)
  {
    var e := OtherAnswer(s.records[id]);
    assert RecordOk(s.config.distributed, id, s.records[id]);
    var t := Apply(s, e);
    assert id in t.records && t.records[id].launches == s.records[id].launches + 1
        && t.records[id].request == s.records[id].request;
    StepConfig(s, e);
    StepInv(s, e);
    var f := OtherAnswer(t.records[id]);
    var u := Apply(t, f);
    assert RecordOk(s.config.distributed, id, t.records[id]);
    assert id in u.records && u.records[id].launches == t.records[id].launches + 1;
    RunOfOne(t, f, id);
    assert [e, f][0] == e && [e, f][1..] == [f];
    assert Possible(s, [e, f]) && Lives(s, [e, f], id) && Run(s, [e, f]) == u;
  }

  /** A record is launched at most once against everything that may still happen, if and only
      if it has not been launched twice already and its request is not one that answers launch. */
  lemma OnceTheorem(s: State, id: Name)
    requires Reachable(s) && id in s.records
    ensures LaunchedOnce(s, id) <==>
              s.records[id].launches <= 1 && !Direct(s.records[id].request, s.config.distributed)
  {
    ReachableInv(s);
    if Direct(s.records[id].request, s.config.distributed) {
      AnswersLaunch(s, id);
    } else if s.records[id].launches <= 1 {
      forall es | Possible(s, es) && Lives(s, es, id)
        ensures id in Run(s, es).records && Run(s, es).records[id].launches <= 1
      {
        NotDirectOnce(s, es, id);
        LaunchTheorem(s, es, id);
      }
    } else {
      assert Possible(s, []) && Lives(s, [], id) && Run(s, []) == s;
    }
  }
}
