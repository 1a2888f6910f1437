/** The actor scheduler as a transition system. Any number of senders, actors and
    workers share one ready queue. One event is one critical section of the mailbox
    lock, of the ready-queue lock or of the registry lock, or one step of a worker
    between two of them. */
module Scheduler {
  import opened Basics
  import opened ActorPolicy

  /** Where a worker is. From the dequeue until `GetMsgs` reports nothing or until
      `Quit` returns, the worker is running an actor. */
  datatype Phase =
    | Idle
    | Fetching(a: ActorId)              // about to call GetMsgs
    | Handling(a: ActorId, next: nat)   // iterating the batch, `next` is the iterator
    | Removing(a: ActorId)              // in Quit, about to leave the registry
    | Marking(a: ActorId)               // in Quit, about to set `terminated`
    | Unlocking(a: ActorId)             // in Quit, about to release the waiter lock
    | Exited

  function On(ph: Phase): Option<ActorId> {
    match ph
    case Idle => None
    case Exited => None
    case _ => Some(ph.a)
  }

  /** `sent`, `handled` and `quits` are history: every message accepted by the
      mailbox, every message given to a handler, and the calls of `Quit`; `cursor`
      repeats the iterator of the worker that runs the actor. */
  datatype Actor = Actor(
    name: string, policy: Policy, waiterHeld: bool, listed: bool,
    sent: seq<Message>, handled: seq<Message>, cursor: nat, quits: nat)

  /** `queueLog` is every entry ever put on the ready queue and `taken` how many have
      been dequeued; `sentinels` counts the nulls that `Finalize` has pushed. */
  datatype State = State(
    actors: seq<Actor>, registry: map<string, ActorId>,
    queue: seq<Option<ActorId>>, workers: seq<Phase>,
    sentinels: nat, queueLog: seq<Option<ActorId>>, taken: nat)

  function Init(threads: nat): State {
    State([], map[], [], seq(threads, _ => Idle), 0, [], 0)
  }

  datatype Event =
    | Spawn(name: string)
    | Enque(a: ActorId, m: Message)
    | SetStatus(a: ActorId, startRun: bool)
    | Sentinel
    | Dequeue(w: nat)
    | Fetch(w: nat)
    | Handle(w: nat)
    | ClearBatch(w: nat)
    | Remove(w: nat)
    | Mark(w: nat)
    | Unlock(w: nat)

  predicate WorkerEvent(e: Event) {
    !e.Spawn? && !e.Enque? && !e.SetStatus? && !e.Sentinel?
  }

  /** A worker's phase names an actor that exists. */
  predicate Runs(s: State, w: nat) {
    w < |s.workers| && On(s.workers[w]).Some? && On(s.workers[w]).value < |s.actors|
  }

  function RunBy(s: State, w: nat): ActorId
    requires Runs(s, w)
  {
    On(s.workers[w]).value
  }

  predicate Enabled(s: State, e: Event) {
    match e
    case Spawn(name) => name !in s.registry
    case Enque(a, _) => a < |s.actors|
    case SetStatus(a, _) => a < |s.actors|
    case Sentinel => s.sentinels < |s.workers|
    case Dequeue(w) => w < |s.workers| && s.workers[w].Idle? && s.queue != []
    case Fetch(w) => Runs(s, w) && s.workers[w].Fetching?
    case Handle(w) => Runs(s, w) && s.workers[w].Handling?
                      && s.workers[w].next < |s.actors[RunBy(s, w)].policy.deque|
    case ClearBatch(w) => Runs(s, w) && s.workers[w].Handling?
                          && s.workers[w].next >= |s.actors[RunBy(s, w)].policy.deque|
    case Remove(w) => Runs(s, w) && s.workers[w].Removing?
    case Mark(w) => Runs(s, w) && s.workers[w].Marking?
    case Unlock(w) => Runs(s, w) && s.workers[w].Unlocking?
  }

  function Push(s: State, entries: seq<Option<ActorId>>): State {
    s.(queue := s.queue + entries, queueLog := s.queueLog + entries)
  }

  /** The actor record written by a critical section on its mailbox. */
  function EnqueActor(record: Actor, m: Message): Actor {
    record.(policy := EnqueMessage(record.policy, m), sent := record.sent + [m])
  }

  function FetchActor(record: Actor): Actor {
    record.(policy := GetMsgs(record.policy), cursor := 0)
  }

  /** One iteration of the batch loop. A terminate message starts `Quit` and ends the loop. */
  function HandleActor(record: Actor, i: nat): Actor
    requires i < |record.policy.deque|
  {
    var m := record.policy.deque[i];
    if m.kind == KTERMINATE then record.(quits := record.quits + 1)
    else record.(handled := record.handled + [m], cursor := i + 1)
  }

  function HandlePhase(record: Actor, a: ActorId, i: nat): Phase
    requires i < |record.policy.deque|
  {
    if record.policy.deque[i].kind == KTERMINATE then Removing(a) else Handling(a, i + 1)
  }

  function ClearActor(record: Actor): Actor {
    record.(policy := record.policy.(deque := []), cursor := 0)
  }

  /** Worker `w` moves to `ph` and actor `a` becomes `record`; nothing else changes. */
  function Local(s: State, w: nat, ph: Phase, a: ActorId, record: Actor): State
    requires w < |s.workers| && a < |s.actors|
  {
    s.(workers := s.workers[w := ph], actors := s.actors[a := record])
  }

  function Apply(s: State, e: Event): State
    requires Enabled(s, e)
  {
    match e
    case Spawn(name) =>
      var a := |s.actors|;
      s.(actors := s.actors + [Actor(name, NewPolicy(a), true, true, [], [], 0, 0)],
         registry := s.registry[name := a])
    case Enque(a, m) =>
      var record := s.actors[a];
      Push(s.(actors := s.actors[a := EnqueActor(record, m)]), Scheduled(MustSchedule(record.policy), record.policy))
    case SetStatus(a, b) =>
      var record := s.actors[a];
      var p := record.policy.(start := b);
      Push(s.(actors := s.actors[a := record.(policy := SetRunningStatus(record.policy, b))]),
           Scheduled(NotifySchedules(p), p))
    case Sentinel =>
      Push(s, [None]).(sentinels := s.sentinels + 1)
    case Dequeue(w) =>
      var ph := if s.queue[0].None? then Exited else Fetching(s.queue[0].value);
      s.(queue := s.queue[1..], taken := s.taken + 1, workers := s.workers[w := ph])
    case Fetch(w) =>
      var a := RunBy(s, w);
      Local(s, w, if s.actors[a].policy.enque == [] then Idle else Handling(a, 0), a, FetchActor(s.actors[a]))
    case Handle(w) =>
      var a, i := RunBy(s, w), s.workers[w].next;
      Local(s, w, HandlePhase(s.actors[a], a, i), a, HandleActor(s.actors[a], i))
    case ClearBatch(w) =>
      var a := RunBy(s, w);
      Local(s, w, Fetching(a), a, ClearActor(s.actors[a]))
    case Remove(w) =>
      var a := RunBy(s, w);
      Local(s, w, Marking(a), a, s.actors[a].(listed := false))
      .(registry := s.registry - {s.actors[a].name})
    case Mark(w) =>
      var a := RunBy(s, w);
      Local(s, w, Unlocking(a), a, s.actors[a].(policy := Terminate(s.actors[a].policy)))
    case Unlock(w) =>
      var a := RunBy(s, w);
      Local(s, w, Idle, a, s.actors[a].(waiterHeld := false))
  }

  /** A sequence of events that can happen one after another from `s`. */
  ghost predicate Possible(s: State, es: seq<Event>)
    decreases |es|
  {
    es == [] || (Enabled(s, es[0]) && Possible(Apply(s, es[0]), es[1..]))
  }

  ghost function Run(s: State, es: seq<Event>): State
    requires Possible(s, es)
    decreases |es|
  {
    if es == [] then s else Run(Apply(s, es[0]), es[1..])
  }

  // --- counting -----------------------------------------------------------

  ghost function Queued(q: seq<Option<ActorId>>, x: Option<ActorId>): nat {
    multiset(q)[x]
  }

  /** How many workers run actor `a`. */
  ghost function Running(ws: seq<Phase>, a: ActorId): nat {
    if ws == [] then 0 else (if On(ws[0]) == Some(a) then 1 else 0) + Running(ws[1..], a)
  }

  ghost function ExitedCount(ws: seq<Phase>): nat {
    if ws == [] then 0 else (if ws[0].Exited? then 1 else 0) + ExitedCount(ws[1..])
  }

  // --- the invariant ------------------------------------------------------

  /** Exactly one owner while scheduled and none otherwise; none at all on the queue
      once terminated. */
  ghost predicate SingleRunner(s: State, a: ActorId)
    requires a < |s.actors|
  {
    var p := s.actors[a].policy;
    && (!p.terminated ==>
          Queued(s.queue, Some(a)) + Running(s.workers, a) == if p.ready then 1 else 0)
    && (p.terminated ==> Queued(s.queue, Some(a)) == 0 && Running(s.workers, a) <= 1)
  }

  ghost predicate NoLostWakeup(record: Actor) {
    record.policy.start && !record.policy.terminated && record.policy.enque != [] ==> record.policy.ready
  }

  /** The two mailboxes and the iterator refine one queue. */
  ghost predicate Fifo(record: Actor) {
    && record.cursor <= |record.policy.deque|
    && record.sent == record.handled + record.policy.deque[record.cursor..] + record.policy.enque
    && record.policy.msgCount == |record.policy.enque|
    && (forall m | m in record.handled :: m.kind != KTERMINATE)
  }

  ghost predicate AtTerminate(record: Actor) {
    record.cursor < |record.policy.deque| && record.policy.deque[record.cursor].kind == KTERMINATE
  }

  ghost predicate Life(s: State, a: ActorId)
    requires a < |s.actors|
  {
    var record := s.actors[a];
    && record.policy.actor == (if record.policy.terminated then None else Some(a))
    && record.quits <= 1
    && (record.policy.terminated ==> record.quits == 1)
    && (record.quits == 1 ==> AtTerminate(record))
    && (record.quits == 0 ==> record.listed && record.waiterHeld)
    && (record.policy.terminated ==> !record.listed)
    && (Running(s.workers, a) == 0 && !record.policy.terminated ==> record.policy.deque == [] && record.quits == 0)
    && (!record.waiterHeld <==> record.policy.terminated && Running(s.workers, a) == 0)
  }

  ghost predicate ActorInv(s: State, a: ActorId)
    requires a < |s.actors|
  {
    SingleRunner(s, a) && NoLostWakeup(s.actors[a]) && Fifo(s.actors[a]) && Life(s, a)
  }

  ghost predicate WorkerInv(s: State, w: nat)
    requires w < |s.workers|
  {
    var ph := s.workers[w];
    On(ph).Some? ==>
      && Runs(s, w)
      && var record := s.actors[RunBy(s, w)];
         match ph
         case Fetching(_) => !record.policy.terminated && record.policy.deque == [] && record.quits == 0
         case Handling(_, i) => !record.policy.terminated && i == record.cursor && record.quits == 0
         case Removing(_) => !record.policy.terminated && record.quits == 1 && record.listed && record.waiterHeld
         case Marking(_) => !record.policy.terminated && record.quits == 1 && !record.listed && record.waiterHeld
         case Unlocking(_) => record.policy.terminated && record.quits == 1 && record.waiterHeld
  }

  /** The registry holds exactly the actors that have not left it, each under its own name. */
  ghost predicate RegistryInv(s: State) {
    && (forall n | n in s.registry ::
          s.registry[n] < |s.actors| && s.actors[s.registry[n]].name == n && s.actors[s.registry[n]].listed)
    && (forall a | 0 <= a < |s.actors| && s.actors[a].listed ::
          s.actors[a].name in s.registry && s.registry[s.actors[a].name] == a)
  }

  /** Every null on the queue came from `Finalize`, and each worker that left took one. */
  ghost predicate QueueInv(s: State) {
    && s.sentinels <= |s.workers|
    && s.taken <= |s.queueLog|
    && s.queue == s.queueLog[s.taken..]
    && Queued(s.queue, None) + ExitedCount(s.workers) == s.sentinels
    && (forall x: ActorId | Some(x) in s.queue :: x < |s.actors|)
    && (0 < |s.workers| == ExitedCount(s.workers) ==> s.taken > 0 && s.queueLog[s.taken - 1].None?)
  }

  ghost predicate Inv(s: State) {
    && (forall a | 0 <= a < |s.actors| :: ActorInv(s, a))
    && (forall w | 0 <= w < |s.workers| :: WorkerInv(s, w))
    && RegistryInv(s)
    && QueueInv(s)
  }
}
