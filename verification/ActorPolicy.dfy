/** The mailbox of one shared-thread actor: the state of `ShardedThread` and the
    critical sections on it, as functions on values. The class of that name runs the
    same critical sections on two mailbox objects whose roles are exchanged by reference. */
module ActorPolicy {
  import opened Basics

  type ActorId = nat

  datatype MessageType = KMSG | KUDP | KHTTP | KASYNC | KLOCAL | KEXIT | KTERMINATE

  datatype Message = Message(kind: MessageType, tag: nat)

  /** `actor` is what `SetActorReady` puts on the shared ready queue: the actor, or
      null once the actor has terminated. A null on that queue stops a worker. */
  datatype Policy = Policy(
    enque: seq<Message>, deque: seq<Message>, msgCount: nat,
    start: bool, ready: bool, terminated: bool, actor: Option<ActorId>)

  function NewPolicy(a: ActorId): Policy {
    Policy([], [], 0, false, false, false, Some(a))
  }

  /** Whether a critical section schedules the actor, before it sets `ready`. */
  predicate MustSchedule(p: Policy) {
    p.start && !p.ready && !p.terminated
  }

  function EnqueMessage(p: Policy, m: Message): Policy {
    p.(enque := p.enque + [m], msgCount := p.msgCount + 1, ready := p.ready || MustSchedule(p))
  }

  predicate NotifySchedules(p: Policy) {
    MustSchedule(p) && p.msgCount > 0
  }

  function SetRunningStatus(p: Policy, startRun: bool): Policy {
    var q := p.(start := startRun);
    q.(ready := q.ready || NotifySchedules(q))
  }

  function SwapMailbox(p: Policy): Policy {
    p.(enque := p.deque, deque := p.enque, msgCount := 0)
  }

  /** The new state; a null result is reported when nothing was waiting. */
  function GetMsgs(p: Policy): Policy {
    if p.enque == [] then p.(ready := false) else SwapMailbox(p).(ready := true)
  }

  function Terminate(p: Policy): Policy {
    p.(terminated := true, actor := None)
  }

  /** What one critical section adds to the ready queue. */
  function Scheduled(b: bool, p: Policy): seq<Option<ActorId>> {
    if b then [p.actor] else []
  }

  /** The messages before the first terminate message: what a run of the actor handles. */
  function BeforeTerminate(ms: seq<Message>): (r: seq<Message>)
    ensures r <= ms
    ensures forall m | m in r :: m.kind != KTERMINATE
    ensures |r| < |ms| ==> ms[|r|].kind == KTERMINATE
  {
    if ms == [] || ms[0].kind == KTERMINATE then [] else [ms[0]] + BeforeTerminate(ms[1..])
  }
}
