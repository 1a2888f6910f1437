/** Snapshot requests of the function agent: local commit, deferred publication, replays,
    and the runtime-manager incarnation that every request belongs to. One event is one
    handler of the actor; outcomes of the stores are parameters. */
module SnapshotPhases {
  import opened Basics

  /** Strings are only compared here, so names stand for them. */
  type Name = nat

  const EMPTY: Name := 0
  const LOCAL: Name := 1

  type Address = (Name, Name)

  datatype Code =
    | SUCCESS | FUNC_AGENT_NOT_REGISTERED | ERR_PARAM_INVALID | PARAMETER_ERROR
    | ERR_INNER_COMMUNICATION | ERR_INSTANCE_BUSY | OtherCode(n: int)

  datatype Kind = SnapshotKind | PauseResumeKind | OtherKind

  datatype Request = Request(
    id: Name, snapshot: Name, instance: Name, runtime: Name, tenant: Name, version: int,
    internal: bool, kind: Kind, returnArtifact: bool, objectKey: Name, temporaryKey: Name,
    checkpointDir: Name)

  datatype Facts = Facts(size: nat, sha256: Name)

  datatype Response = Response(
    id: Name, code: Code, unknown: bool, notStarted: bool, checkpoint: Name,
    facts: Option<Facts>, storage: Name, objectKey: Name, artifact: bool)

  /** `answered` and `launches` are history: whether the runtime manager has answered, and
      how often remote publication was launched for this record. */
  datatype Record = Record(
    caller: Address, publishCaller: Address, request: Request, manager: Address, managerId: Name,
    storage: Name, objectKey: Name, localSize: nat,
    completed: bool, localReady: bool, publicationStarted: bool,
    localReadyResponse: Response, completedResponse: Response,
    answered: bool, launches: nat)

  datatype Manager = Manager(address: Address, id: Name, registered: bool)

  datatype Message =
    | SnapshotReply(to: Address, r: Response)
    | PublishReply(to: Address, r: Response)
    | ForwardSnapshot(to: Address, request: Request)

  /** A publication in flight: the request it was launched for, and whether its end is
      handled as that of a reusable artifact. */
  datatype Flight = Flight(id: Name, reusable: bool)

  /** What is fixed when the agent starts. `digest` derives a snapshot ID from request and
      instance; `safe` is the test that every snapshot ID has to pass. */
  datatype Config = Config(
    scheduler: Address, distributed: bool, hasStore: bool, hasStorage: bool,
    digest: (Name, Name) -> Name, safe: Name -> bool)

  /** `publishing` holds the publications in flight. A record that is gone leaves its own
      behind, and its request ID may be used again. */
  datatype State = State(
    config: Config, manager: Manager, complete: bool,
    records: map<Name, Record>, publishing: multiset<Flight>, sent: seq<Message>)

  function Init(config: Config): State {
    State(config, Manager((EMPTY, EMPTY), EMPTY, false), false, map[], multiset{}, [])
  }

  /** How many publications launched under this request ID are in flight. */
  function InFlight(s: State, id: Name): nat {
    s.publishing[Flight(id, false)] + s.publishing[Flight(id, true)]
  }

  function Send(s: State, m: Message): State {
    s.(sent := s.sent + [m])
  }

  function Plain(id: Name, code: Code, unknown: bool, notStarted: bool): Response {
    Response(id, code, unknown, notStarted, EMPTY, None, EMPTY, EMPTY, false)
  }

  function Save(s: State, id: Name, r: Record): State {
    s.(records := s.records[id := r])
  }

  function Erase(s: State, id: Name): State {
    s.(records := s.records - {id})
  }

  /** The reply of the phase that a record is in. */
  function PhaseReply(r: Record, response: Response): Message {
    if r.publicationStarted then PublishReply(r.publishCaller, response) else SnapshotReply(r.caller, response)
  }

  // --- completion ---------------------------------------------------------

  function Completed(r: Record, facts: Facts, artifact: bool): Record {
    r.(completed := true,
       completedResponse := Response(r.request.id, SUCCESS, false, false, r.request.snapshot, Some(facts),
                                     r.storage, r.objectKey, artifact))
  }

  /** Saves a completed record and sends its response. */
  function Finish(s: State, id: Name, r: Record): State {
    Send(Save(s, id, r), PhaseReply(r, r.completedResponse))
  }

  predicate Deferred(q: Request) {
    q.kind.SnapshotKind? || q.kind.PauseResumeKind?
  }

  datatype Step = CompleteLocally | BecomeReady | Launch

  /** What follows the local commit, or the request to publish. */
  function NextStep(q: Request, publish: bool, distributed: bool): Step {
    if !publish && q.internal then CompleteLocally
    else if !publish && Deferred(q) then BecomeReady
    else if !distributed then CompleteLocally
    else Launch
  }

  function Advance(r: Record, response: Response, publish: bool, distributed: bool): Record {
    match NextStep(r.request, publish, distributed)
    case CompleteLocally =>
      Completed(r.(storage := LOCAL, objectKey := r.request.snapshot), Facts(r.localSize, EMPTY),
                r.request.returnArtifact && (publish || !r.request.internal))
    case BecomeReady => r.(localReady := true, localReadyResponse := response)
    case Launch =>
      r.(launches := r.launches + 1,
         completedResponse := if r.request.returnArtifact then response else r.completedResponse)
  }

  function Continue(s: State, id: Name, r: Record, response: Response, publish: bool): State {
    var u := Advance(r, response, publish, s.config.distributed);
    match NextStep(r.request, publish, s.config.distributed)
    case CompleteLocally => Finish(s, id, u)
    case BecomeReady => Send(Save(s, id, u), SnapshotReply(r.caller, response))
    case Launch => Save(s, id, u).(publishing := s.publishing + multiset{Flight(id, r.request.returnArtifact)})
  }

  // --- a new request ------------------------------------------------------

  /** What the stores answer to a new request: the storage backend, the prepared directory
      and whether it holds a committed snapshot, and the size found there. */
  datatype Stores = Stores(backend: Option<Name>, prepared: Option<(Name, bool)>, valid: Option<nat>)

  /** A request without a snapshot ID gets one that request and instance determine. */
  function Named(s: State, q: Request): Request {
    if q.snapshot == EMPTY then q.(snapshot := s.config.digest(q.id, q.instance)) else q
  }

  predicate Incomplete(s: State, q: Request) {
    || q.id == EMPTY || q.instance == EMPTY || q.runtime == EMPTY || q.snapshot == EMPTY
    || q.tenant == EMPTY || q.version <= 0
    || (!q.internal && s.config.distributed
        && (!s.config.hasStorage || q.objectKey == EMPTY || q.temporaryKey == EMPTY))
  }

  function NewRecord(s: State, from: Address, q: Request, storage: Name, dir: Name): Record {
    Record(from, (EMPTY, EMPTY), q.(checkpointDir := dir), s.manager.address, s.manager.id,
           storage, if q.internal then q.snapshot else q.objectKey, 0,
           false, false, false, Plain(EMPTY, SUCCESS, false, false), Plain(EMPTY, SUCCESS, false, false),
           false, 0)
  }

  function Replay(s: State, from: Address, q: Request): State
    requires q.id in s.records
  {
    var r := s.records[q.id];
    if r.request != q then Send(s, SnapshotReply(from, Plain(q.id, PARAMETER_ERROR, false, false)))
    else
      var t := Save(s, q.id, r.(caller := from));
      if r.localReady && !q.internal then Send(t, SnapshotReply(from, r.localReadyResponse))
      else if r.completed then Send(t, SnapshotReply(from, r.completedResponse))
      else t
  }

  function Backend(s: State, q: Request, io: Stores): Option<Name> {
    if q.internal || !s.config.distributed then Some(LOCAL) else io.backend
  }

  /** The record once its checkpoint is in the local store with `size` bytes. */
  function Measured(r: Record, size: nat): Record {
    r.(localSize := size, answered := true)
  }

  /** The response for a snapshot that is in the local store already. */
  function StoredBefore(q: Request, size: nat): Response {
    Response(q.id, SUCCESS, false, false, q.snapshot, Some(Facts(size, EMPTY)), EMPTY, EMPTY, false)
  }

  function Accept(s: State, from: Address, q: Request, io: Stores): State {
    if Backend(s, q, io).None? then Send(s, SnapshotReply(from, Plain(q.id, OtherCode(0), false, true)))
    else if io.prepared.None? then Send(s, SnapshotReply(from, Plain(q.id, OtherCode(1), false, true)))
    else
      var r := NewRecord(s, from, q, Backend(s, q, io).value, io.prepared.value.0);
      if !io.prepared.value.1 then
        Send(Save(s, q.id, r), ForwardSnapshot(s.manager.address, r.request))
      else if io.valid.None? then Send(s, SnapshotReply(from, Plain(q.id, OtherCode(2), false, true)))
      else Continue(s, q.id, Measured(r, io.valid.value), StoredBefore(q, io.valid.value), false)
  }

  /** The handler once the request has its snapshot ID. */
  function Handle(s: State, from: Address, q: Request, io: Stores): State {
    if Incomplete(s, q) then Send(s, SnapshotReply(from, Plain(q.id, ERR_PARAM_INVALID, false, true)))
    else if q.id in s.records then Replay(s, from, q)
    else if !s.config.hasStore then Send(s, SnapshotReply(from, Plain(q.id, ERR_PARAM_INVALID, false, true)))
    else Accept(s, from, q, io)
  }

  function SnapshotRuntime(s: State, from: Address, q: Request, io: Stores): State {
    if from != s.config.scheduler then s
    else if !s.manager.registered || !s.complete then
      Send(s, SnapshotReply(from, Plain(q.id, FUNC_AGENT_NOT_REGISTERED, false, true)))
    else if !s.config.safe(Named(s, q).snapshot) then
      Send(s, SnapshotReply(from, Plain(q.id, ERR_PARAM_INVALID, false, true)))
    else Handle(s, from, Named(s, q), io)
  }

  // --- the answer of the runtime manager ----------------------------------

  /** The answer with the size that the local store found. */
  function Sized(response: Response, size: nat): Response {
    response.(facts := Some(Facts(size, if response.facts.Some? then response.facts.value.sha256 else EMPTY)))
  }

  /** The error with which an answer ends the request, if it does. */
  function AnswerError(r: Record, response: Response, committed: Option<nat>): Option<Code> {
    if response.code != SUCCESS then Some(response.code)
    else if response.checkpoint != r.request.snapshot then Some(ERR_PARAM_INVALID)
    else if committed.None? then Some(OtherCode(3))
    else None
  }

  /** `committed` is the size that the local store committed, if it did. */
  function Answer(s: State, from: Address, response: Response, committed: Option<nat>): State {
    if response.id !in s.records || from != s.records[response.id].manager then s
    else
      var r := s.records[response.id];
      var error := AnswerError(r, response, committed);
      if error.Some? then Erase(Send(s, SnapshotReply(r.caller, response.(code := error.value))), response.id)
      else Continue(s, response.id, Measured(r, committed.value), Sized(response, committed.value), false)
  }

  // --- publication --------------------------------------------------------

  function Publish(s: State, from: Address, id: Name, snapshot: Name, instance: Name): State {
    if from != s.config.scheduler then s
    else if id !in s.records || s.records[id].request.snapshot != snapshot
            || s.records[id].request.instance != instance then
      Send(s, PublishReply(from, Plain(id, ERR_PARAM_INVALID, false, false)))
    else
      var r := s.records[id].(publishCaller := from);
      if r.completed then Send(Save(s, id, r), PublishReply(from, r.completedResponse))
      else if !r.localReady then Send(Save(s, id, r), PublishReply(from, Plain(id, ERR_INSTANCE_BUSY, false, false)))
      else if r.publicationStarted then Save(s, id, r)
      else Continue(s, id, r.(publicationStarted := true), r.localReadyResponse, true)
  }

  datatype Outcome = Broken | Refused(code: int, unknown: bool, known: Facts) | Stored(facts: Facts)

  /** The exact facts of an artifact whose publication failed, as far as they are known. */
  function KnownFacts(r: Record, known: Facts): Facts {
    if (known.size == 0 || known.sha256 == EMPTY) && r.completedResponse.facts.Some?
       && r.completedResponse.facts.value.size > 0 && r.completedResponse.facts.value.sha256 != EMPTY
    then r.completedResponse.facts.value else known
  }

  /** The end of a failed publication: a reusable artifact with exact facts completes the
      record with the error, anything else makes the agent forget it. */
  function PublishFailed(s: State, f: Flight, r: Record, code: Code, unknown: bool, known: Facts): State {
    var facts := KnownFacts(r, known);
    if f.reusable && facts.size > 0 && facts.sha256 != EMPTY && r.storage != EMPTY && r.objectKey != EMPTY
    then
      Finish(s, f.id, r.(completed := true,
                         completedResponse := Response(r.request.id, code, unknown, false, EMPTY, Some(facts),
                                                       r.storage, r.objectKey, true)))
    else
      Erase(Send(s, PhaseReply(r, Plain(r.request.id, code, unknown, false))), f.id)
  }

  function Published(s: State, f: Flight, o: Outcome): State
    requires f in s.publishing
  {
    var t := s.(publishing := s.publishing - multiset{f});
    if f.id !in s.records then t
    else
      var r := s.records[f.id];
      match o
      case Broken => PublishFailed(t, f, r, ERR_INNER_COMMUNICATION, true, Facts(0, EMPTY))
      case Refused(code, unknown, known) => PublishFailed(t, f, r, OtherCode(code), unknown, known)
      case Stored(facts) => Finish(t, f.id, Completed(r, facts, f.reusable))
  }

  // --- incarnations -------------------------------------------------------

  function LostReply(r: Record): Message {
    SnapshotReply(r.caller, Plain(r.request.id, ERR_INNER_COMMUNICATION, true, false))
  }

  /** A record of the incarnation is answered and erased; others stay. */
  function DrainOne(s: State, managerId: Name, id: Name): State {
    if id !in s.records || s.records[id].managerId != managerId then s
    else Erase(Send(s, LostReply(s.records[id])), id)
  }

  /** Visits the records in the order `ids` of the hash table. */
  function Drain(s: State, managerId: Name, ids: seq<Name>): State
    decreases |ids|
  {
    if ids == [] then s else Drain(DrainOne(s, managerId, ids[0]), managerId, ids[1..])
  }

  lemma {:induction false} DrainSnoc(s: State, managerId: Name, ids: seq<Name>, id: Name)
    ensures Drain(s, managerId, ids + [id]) == DrainOne(Drain(s, managerId, ids), managerId, id)
    decreases |ids|
  {
    if ids == [] {
      assert [id][1..] == [];
    } else {
      assert (ids + [id])[1..] == ids[1..] + [id];
      DrainSnoc(DrainOne(s, managerId, ids[0]), managerId, ids[1..], id);
    }
  }

  function MarkUnavailable(s: State, id: Name, ids: seq<Name>): State {
    if s.manager.id != id then s
    else Drain(s.(manager := s.manager.(registered := false)), id, ids)
  }

  function ReceiveRegister(s: State, address: Address, id: Name, ids: seq<Name>): State {
    if s.manager.id == id then s
    else Drain(s, s.manager.id, ids).(manager := Manager(address, id, true))
  }

  // --- runs ---------------------------------------------------------------

  /** `Forget` is the finalization of an attempt, which erases its record. */
  datatype Event =
    | Snapshot(from: Address, q: Request, io: Stores)
    | Answered(from: Address, response: Response, committed: Option<nat>)
    | PublishRequest(from: Address, id: Name, snapshot: Name, instance: Name)
    | PublishDone(f: Flight, o: Outcome)
    | HeartbeatLost(managerId: Name, ids: seq<Name>)
    | Register(address: Address, managerId: Name, ids: seq<Name>)
    | RegisterComplete(done: bool)
    | Forget(id: Name)

  /** `ids` lists exactly the records, each once. */
  ghost predicate Lists(s: State, ids: seq<Name>) {
    && (forall id :: id in ids <==> id in s.records)
    && (forall i, j | 0 <= i < j < |ids| :: ids[i] != ids[j])
  }

  /** Only a publication in flight can end, and hash tables are gone through once. */
  ghost predicate Enabled(s: State, e: Event) {
    match e
    case PublishDone(f, _) => f in s.publishing
    case HeartbeatLost(_, ids) => Lists(s, ids)
    case Register(_, _, ids) => Lists(s, ids)
    case _ => true
  }

  function Apply(s: State, e: Event): State
    requires e.PublishDone? ==> e.f in s.publishing
  {
    match e
    case Snapshot(from, q, io) => SnapshotRuntime(s, from, q, io)
    case Answered(from, response, committed) => Answer(s, from, response, committed)
    case PublishRequest(from, id, snapshot, instance) => Publish(s, from, id, snapshot, instance)
    case PublishDone(f, o) => Published(s, f, o)
    case HeartbeatLost(managerId, ids) => MarkUnavailable(s, managerId, ids)
    case Register(address, managerId, ids) => ReceiveRegister(s, address, managerId, ids)
    case RegisterComplete(done) => s.(complete := done)
    case Forget(id) => Erase(s, id)
  }

  ghost predicate Possible(s: State, es: seq<Event>)
    decreases |es|
  {
    es == [] || (Enabled(s, es[0]) && Possible(Apply(s, es[0]), es[1..]))
  }

  ghost function Run(s: State, es: seq<Event>): State
    requires Possible(s, es)
    decreases |es|
  {
    if es == [] then s else Run(Apply(s, es[0]), es[1..])
  }
}
