/** Runs in which no request ID is used again while a publication under it is in flight, and
    no answer is accepted twice: what the phases promise there. */
module PhaseCareful {
  import opened Basics
  import opened SnapshotPhases
  import opened PhaseProofs
  import opened PhaseLives

  ghost predicate Careful(s: State, e: Event) {
    match e
    case Snapshot(_, q, _) => q.id !in s.records ==> InFlight(s, q.id) == 0
    case Answered(_, response, _) =>
      response.id in s.records && Accepts(s, e, response.id) ==> !s.records[response.id].answered
    case _ => true
  }

  ghost predicate CarefulRun(s: State, es: seq<Event>)
    requires Possible(s, es)
    decreases |es|
  {
    es == [] || (Careful(s, es[0]) && CarefulRun(Apply(s, es[0]), es[1..]))
  }

  /** Where a record with `n` publications in flight stands. */
  ghost predicate PhaseOk(r: Record, n: nat) {
    && n <= r.launches <= 1
    && (r.completed ==> n == 0 && Reports(r.completedResponse, r))
    && (!r.answered ==> !r.localReady && !r.completed && r.launches == 0)
    && (r.localReady && !r.publicationStarted ==> r.launches == 0 && !r.completed)
    && (r.completed && r.request.internal ==>
          r.storage == LOCAL && r.objectKey == r.request.snapshot
          && r.completedResponse.facts == Some(Facts(r.localSize, EMPTY)))
  }

  ghost predicate Strict(s: State) {
    Inv(s) && forall id | id in s.records :: PhaseOk(s.records[id], InFlight(s, id))
  }

  // --- flights ------------------------------------------------------------

  /** Flights under an ID grow with a launch and shrink with an end. */
  ghost function FlightsAfter(s: State, e: Event, id: Name): int
    requires id in s.records
  {
    var r, d := s.records[id], s.config.distributed;
    InFlight(s, id)
    + (if (Accepts(s, e, id) && Direct(r.request, d)) || (Starts(s, e, id) && d) then 1 else 0)
    - (if Lands(e, id) then 1 else 0)
  }

  lemma ContinueOwnFlights(s: State, id: Name, r: Record, response: Response, publish: bool)
    ensures InFlight(Continue(s, id, r, response, publish), id)
            == InFlight(s, id) + if NextStep(r.request, publish, s.config.distributed).Launch? then 1 else 0
  {
  }

  lemma AnswerFlightCount(s: State, e: Event, id: Name)
    requires e.Answered? && id in s.records
    ensures InFlight(Apply(s, e), id) == FlightsAfter(s, e, id)
  {
    if Accepts(s, e, id) {
      ContinueOwnFlights(s, id, Measured(s.records[id], e.committed.value), Sized(e.response, e.committed.value),
          false);
    } else {
      AnswerFlights(s, e, id);
    }
  }

  lemma LandFlightCount(s: State, e: Event, id: Name)
    requires e.PublishDone? && Enabled(s, e) && id in s.records
    ensures InFlight(Apply(s, e), id) == FlightsAfter(s, e, id)
  {
    assert Apply(s, e).publishing == s.publishing - multiset{e.f};
  }

  lemma StepFlightCount(s: State, e: Event, id: Name)
    requires Inv(s) && Enabled(s, e) && id in s.records && id in Apply(s, e).records
    ensures InFlight(Apply(s, e), id) == FlightsAfter(s, e, id)
  {
    match e
    case Snapshot(_, _, _) => SnapshotFlights(s, e, id);
    case Answered(_, _, _) => AnswerFlightCount(s, e, id);
    case PublishRequest(_, _, _, _) => PublishFlightCount(s, e, id);
    case PublishDone(_, _) => LandFlightCount(s, e, id);
    case HeartbeatLost(_, _) => ManagerInv(s, e);
    case Register(_, _, _) => ManagerInv(s, e);
    case RegisterComplete(_) =>
    case Forget(_) =>
  }

  lemma PublishFlightCount(s: State, e: Event, id: Name)
    requires e.PublishRequest? && id in s.records
    ensures InFlight(Apply(s, e), id) == FlightsAfter(s, e, id)
  {
    if e.id in s.records && Starts(s, e, e.id) {
      var p := s.records[e.id].(publishCaller := e.from, publicationStarted := true);
      if e.id == id { ContinueOwnFlights(s, id, p, p.localReadyResponse, true); }
      else { ContinueFlights(s, e.id, p, p.localReadyResponse, true, id); }
    }
  }

  // --- one record ---------------------------------------------------------

  lemma ChangeOk(s: State, e: Event, id: Name, u: Record)
    requires id in s.records && RecordOk(s.config.distributed, id, s.records[id])
    requires PhaseOk(s.records[id], InFlight(s, id)) && Careful(s, e) && Changed(s, e, id, u)
    requires FlightsAfter(s, e, id) >= 0 && (Lands(e, id) ==> InFlight(s, id) > 0)
    ensures PhaseOk(u, FlightsAfter(s, e, id))
  {
    if Accepts(s, e, id) { AcceptedOk(s, e, id, u); }
    else if Starts(s, e, id) { StartedOk(s, e, id, u); }
  }

  lemma AcceptedOk(s: State, e: Event, id: Name, u: Record)
    requires id in s.records && RecordOk(s.config.distributed, id, s.records[id])
    requires PhaseOk(s.records[id], InFlight(s, id)) && Careful(s, e) && Changed(s, e, id, u) && Accepts(s, e, id)
    ensures PhaseOk(u, FlightsAfter(s, e, id))
  {
  }

  lemma StartedOk(s: State, e: Event, id: Name, u: Record)
    requires id in s.records && RecordOk(s.config.distributed, id, s.records[id])
    requires PhaseOk(s.records[id], InFlight(s, id)) && Changed(s, e, id, u) && Starts(s, e, id)
    ensures PhaseOk(u, FlightsAfter(s, e, id))
  {
  }

  lemma AnswerKeys(s: State, e: Event)
    requires e.Answered?
    ensures Apply(s, e).records.Keys <= s.records.Keys
  {
    var id := e.response.id;
    if id in s.records && Accepts(s, e, id) {
      assert Apply(s, e) == Continue(s, id, Measured(s.records[id], e.committed.value),
          Sized(e.response, e.committed.value), false);
    }
  }

  lemma PublishKeys(s: State, e: Event)
    requires e.PublishRequest?
    ensures Apply(s, e).records.Keys <= s.records.Keys
  {
  }

  /** Only a snapshot request makes records. */
  lemma NoNewKeys(s: State, e: Event)
    requires Inv(s) && Enabled(s, e) && !e.Snapshot?
    ensures Apply(s, e).records.Keys <= s.records.Keys
  {
    match e
    case Answered(_, _, _) => AnswerKeys(s, e);
    case PublishRequest(_, _, _, _) => PublishKeys(s, e);
    case PublishDone(f, o) => LandTable(s, f, o);
    case HeartbeatLost(_, _) => ManagerInv(s, e);
    case Register(_, _, _) => ManagerInv(s, e);
    case RegisterComplete(_) =>
    case Forget(_) =>
  }

  lemma HandleNew(s: State, from: Address, q: Request, io: Stores, id: Name)
    requires id !in s.records && id in Handle(s, from, q, io).records
    ensures id == q.id && Handle(s, from, q, io) == Accept(s, from, q, io)
  {
    if !Incomplete(s, q) && q.id !in s.records && s.config.hasStore {
      assert Accept(s, from, q, io).records.Keys <= s.records.Keys + {q.id};
    }
  }

  /** A record that a step creates. */
  lemma NewOk(s: State, e: Event, id: Name)
    requires Inv(s) && Enabled(s, e) && Careful(s, e) && id !in s.records && id in Apply(s, e).records
    ensures PhaseOk(Apply(s, e).records[id], InFlight(Apply(s, e), id))
  {
    if !e.Snapshot? { NoNewKeys(s, e); }
    var q := Named(s, e.q);
    assert Apply(s, e) == Handle(s, e.from, q, e.io);
    HandleNew(s, e.from, q, e.io, id);
    AcceptedNew(s, e.from, q, e.io);
  }

  lemma AcceptedNew(s: State, from: Address, q: Request, io: Stores)
    requires q.id !in s.records && InFlight(s, q.id) == 0
    ensures var t := Accept(s, from, q, io);
            q.id in t.records ==> PhaseOk(t.records[q.id], InFlight(t, q.id))
  {
    if Backend(s, q, io).Some? && io.prepared.Some? && io.prepared.value.1 && io.valid.Some? {
      var r := NewRecord(s, from, q, Backend(s, q, io).value, io.prepared.value.0);
      ContinueOwnFlights(s, q.id, Measured(r, io.valid.value), StoredBefore(q, io.valid.value), false);
    }
  }

  // --- runs ---------------------------------------------------------------

  lemma StepStrict(s: State, e: Event)
    requires Strict(s) && Enabled(s, e) && Careful(s, e)
    ensures Strict(Apply(s, e))
  {
    var t := Apply(s, e);
    StepInv(s, e);
    forall id | id in t.records ensures PhaseOk(t.records[id], InFlight(t, id)) {
      if id in s.records { StepRecordStrict(s, e, id); } else { NewOk(s, e, id); }
    }
  }

  lemma StepRecordStrict(s: State, e: Event, id: Name)
    requires Strict(s) && Enabled(s, e) && Careful(s, e) && id in s.records && id in Apply(s, e).records
    ensures PhaseOk(Apply(s, e).records[id], InFlight(Apply(s, e), id))
  {
    StepChange(s, e, id);
    StepFlightCount(s, e, id);
    ChangeOk(s, e, id, Apply(s, e).records[id]);
  }

  lemma {:induction false} RunStrict(s: State, es: seq<Event>)
    requires Strict(s) && Possible(s, es) && CarefulRun(s, es)
    ensures Strict(Run(s, es))
    decreases |es|
  {
    if es != [] {
      StepStrict(s, es[0]);
      RunStrict(Apply(s, es[0]), es[1..]);
    }
  }

  /** After every careful run a request is launched at most once, its completed response
      reports what was asked for and stored, and nothing under its ID is still in flight; an
      internal checkpoint completes with its local copy. */
  lemma CarefulTheorem(config: Config, es: seq<Event>, id: Name)
    requires Possible(Init(config), es) && CarefulRun(Init(config), es) && id in Run(Init(config), es).records
    ensures var s := Run(Init(config), es);
            var r := s.records[id];
            && InFlight(s, id) <= r.launches <= 1
            && (r.completed ==> InFlight(s, id) == 0 && Reports(r.completedResponse, r))
            && (r.completed && r.request.internal ==>
                  r.storage == LOCAL && r.completedResponse.facts == Some(Facts(r.localSize, EMPTY)))
  {
    RunStrict(Init(config), es);
  }

  /** In a careful run a completed record is not written again. */
  lemma {:induction false} CarefulNeverWritten(s: State, es: seq<Event>, id: Name)
    requires Strict(s) && Possible(s, es) && CarefulRun(s, es) && Lives(s, es, id) && s.records[id].completed
    ensures NeverWritten(s, es, id)
    decreases |es|
  {
    if es != [] {
      assert PhaseOk(s.records[id], InFlight(s, id));
      StepFinal(s, es[0], id);
      StepStrict(s, es[0]);
      CarefulNeverWritten(Apply(s, es[0]), es[1..], id);
    }
  }

  /** A completed response never changes while its record lives, over any careful run. */
  lemma CarefulResponseTheorem(config: Config, es: seq<Event>, later: seq<Event>, id: Name)
    requires Possible(Init(config), es) && CarefulRun(Init(config), es)
    requires Possible(Run(Init(config), es), later) && CarefulRun(Run(Init(config), es), later)
    requires Lives(Run(Init(config), es), later, id) && Run(Init(config), es).records[id].completed
    ensures var s := Run(Init(config), es);
            var t := Run(s, later);
            id in t.records && t.records[id].completed
                && t.records[id].completedResponse == s.records[id].completedResponse
  {
    var s := Run(Init(config), es);
    RunStrict(Init(config), es);
    CarefulNeverWritten(s, later, id);
    FinalResponseTheorem(s, later, id);
  }

  // --- the end of a publication -------------------------------------------

  predicate Exact(facts: Facts) {
    facts.size > 0 && facts.sha256 != EMPTY
  }

  /** What is known of an artifact whose publication failed: the exact facts reported with the
      failure, or else those of an earlier response. */
  ghost function Salvaged(r: Record, o: Outcome): Option<Facts> {
    if o.Refused? && Exact(o.known) then Some(o.known)
    else if r.completedResponse.facts.Some? && Exact(r.completedResponse.facts.value) then r.completedResponse.facts
    else None
  }

  /** The response with which the end of a publication completes its record: what was stored,
      or the failure together with a reusable artifact of which everything is known. */
  ghost function Ending(r: Record, f: Flight, o: Outcome): Option<Response> {
    match o
    case Stored(facts) =>
      Some(Response(r.request.id, SUCCESS, false, false, r.request.snapshot, Some(facts), r.storage, r.objectKey,
                    f.reusable))
    case _ =>
      if f.reusable && r.storage != EMPTY && r.objectKey != EMPTY && Salvaged(r, o).Some? then
        Some(Response(r.request.id, FailureCode(o), FailureUnknown(o), false, EMPTY, Salvaged(r, o), r.storage,
                      r.objectKey, true))
      else None
  }

  ghost function FailureCode(o: Outcome): Code {
    if o.Refused? then OtherCode(o.code) else ERR_INNER_COMMUNICATION
  }

  /** After a failure of the transfer itself nobody knows what was stored. */
  ghost predicate FailureUnknown(o: Outcome) {
    o.Refused? ==> o.unknown
  }

  /** To whoever waits for the record: the one who asked for publication once it has started,
      and the one who asked for the snapshot before. */
  ghost function Told(r: Record, response: Response): Message {
    if r.publicationStarted then PublishReply(r.publishCaller, response) else SnapshotReply(r.caller, response)
  }

  /** The end of a publication sends one message, to whoever waits for the phase of the
      record: the response with which the record is completed, or the failure with which it
      is forgotten. Nothing else changes, and without a record nothing at all. */
  lemma CompletionTheorem(s: State, f: Flight, o: Outcome)
    requires f in s.publishing
    ensures var t, landed := Published(s, f, o), s.(publishing := s.publishing - multiset{f});
            if f.id !in s.records then t == landed
            else
              var r := s.records[f.id];
              match Ending(r, f, o)
              case Some(response) =>
                t == landed.(records := s.records[f.id := r.(completed := true, completedResponse := response)],
                             sent := s.sent + [Told(r, response)])
              case None =>
                t == landed.(records := s.records - {f.id},
                             sent := s.sent + [Told(r, Response(r.request.id, FailureCode(o), FailureUnknown(o), false,
                                                                EMPTY, None, EMPTY, EMPTY, false))])
  {
  }
}
