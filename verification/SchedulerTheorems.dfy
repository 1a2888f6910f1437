/** What the scheduler promises, for every number of workers and every run. */
module SchedulerTheorems {
  import opened Basics
  import opened ActorPolicy
  import opened Scheduler
  import opened SchedulerProofs

  ghost predicate Reachable(s: State) {
    exists threads: nat, es: seq<Event> :: Possible(Init(threads), es) && s == Run(Init(threads), es)
  }

  lemma ReachableInv(s: State)
    requires Reachable(s)
    ensures Inv(s)
  {
    var threads, es :| Possible(Init(threads), es) && s == Run(Init(threads), es);
    InitInv(threads);
    RunKeeps(Init(threads), es);
  }

  // --- single runner and no lost wakeup -----------------------------------

  /** A live actor occurs once on the queue or in one worker exactly when it is
      `ready`; a terminated one is not on the queue; and two workers never hold
      the same actor. */
  lemma SingleRunnerTheorem(s: State, a: ActorId)
    requires Reachable(s) && a < |s.actors|
    ensures SingleRunner(s, a)
    ensures forall v, w | Runs(s, v) && Runs(s, w) && RunBy(s, v) == RunBy(s, w) :: v == w
  {
    ReachableInv(s);
    assert ActorInv(s, a);
    forall v, w | Runs(s, v) && Runs(s, w) && RunBy(s, v) == RunBy(s, w) ensures v == w {
      OneWorkerPerActor(s, v, w);
    }
  }

  /** A started live actor with waiting mail has an owner, whatever sends, pauses and
      resumes came before. */
  lemma NoLostWakeupTheorem(s: State, a: ActorId)
    requires Reachable(s) && a < |s.actors|
    requires s.actors[a].policy.start && !s.actors[a].policy.terminated && s.actors[a].policy.enque != []
    ensures Some(a) in s.queue || exists w :: Runs(s, w) && RunBy(s, w) == a
  {
    ReachableInv(s);
    assert ActorInv(s, a);
    if Running(s.workers, a) > 0 {
      var w := SomeoneRuns(s.workers, a);
      assert Runs(s, w) && RunBy(s, w) == a;
    }
  }

  lemma {:induction false} SomeoneRuns(ws: seq<Phase>, a: ActorId) returns (w: nat)
    requires Running(ws, a) > 0
    ensures w < |ws| && On(ws[w]) == Some(a)
  {
    if On(ws[0]) == Some(a) {
      w := 0;
    } else {
      w := SomeoneRuns(ws[1..], a);
      w := w + 1;
    }
  }

  // --- order, exactly once, termination -----------------------------------

  lemma {:induction false} BeforeTerminateOf(done: seq<Message>, rest: seq<Message>)
    requires forall m | m in done :: m.kind != KTERMINATE
    ensures BeforeTerminate(done + rest) == done + BeforeTerminate(rest)
  {
    if done == [] {
      assert done + rest == rest;
    } else {
      assert (done + rest)[1..] == done[1..] + rest;
      BeforeTerminateOf(done[1..], rest);
    }
  }

  /** The two mailboxes behave as one queue: the messages handled are the first ones
      sent, in order and once each, never past the first terminate message; `Quit`
      runs at most once, and once it has started exactly the messages before the
      first terminate message have been handled. */
  lemma FifoTheorem(s: State, a: ActorId)
    requires Reachable(s) && a < |s.actors|
    ensures var actor := s.actors[a];
            && actor.cursor <= |actor.policy.deque|
            && actor.sent == actor.handled + actor.policy.deque[actor.cursor..] + actor.policy.enque
            && actor.policy.msgCount == |actor.policy.enque|
            && actor.handled <= BeforeTerminate(actor.sent)
            && actor.quits <= 1
            && (actor.quits == 1 ==> actor.handled == BeforeTerminate(actor.sent) && |actor.handled| < |actor.sent|)
  {
    ReachableInv(s);
    var actor := s.actors[a];
    assert ActorInv(s, a);
    var rest := actor.policy.deque[actor.cursor..] + actor.policy.enque;
    assert actor.sent == actor.handled + rest;
    BeforeTerminateOf(actor.handled, rest);
    if actor.quits == 1 { assert rest[0] == actor.policy.deque[actor.cursor]; }
  }

  /** What one event does to an actor: it never takes back a handled message, and
      after `Quit` has started it handles none and `terminated` stays. */
  lemma StepHistory(s: State, e: Event, a: ActorId)
    requires Inv(s) && Enabled(s, e) && a < |s.actors|
    ensures var t := Apply(s, e);
            && a < |t.actors|
            && s.actors[a].handled <= t.actors[a].handled
            && s.actors[a].sent <= t.actors[a].sent
            && s.actors[a].quits <= t.actors[a].quits
            && (s.actors[a].policy.terminated ==> t.actors[a].policy.terminated)
            && (!s.actors[a].waiterHeld ==> !t.actors[a].waiterHeld)
            && (s.actors[a].quits == 1 ==> t.actors[a].handled == s.actors[a].handled)
  {
    if e.Handle? { RunnerFacts(s, e.w); }
  }

  lemma {:induction false} RunHistory(s: State, es: seq<Event>, a: ActorId)
    requires Inv(s) && Possible(s, es) && a < |s.actors|
    ensures var t := Run(s, es);
            && Inv(t) && a < |t.actors|
            && s.actors[a].handled <= t.actors[a].handled
            && s.actors[a].quits <= t.actors[a].quits
            && (s.actors[a].policy.terminated ==> t.actors[a].policy.terminated)
            && (!s.actors[a].waiterHeld ==> !t.actors[a].waiterHeld)
            && (s.actors[a].quits == 1 ==> t.actors[a].handled == s.actors[a].handled)
    decreases |es|
  {
    if es != [] {
      StepHistory(s, es[0], a);
      StepKeeps(s, es[0]);
      var t := Apply(s, es[0]);
      assert ActorInv(t, a);
      RunHistory(t, es[1..], a);
    }
  }

  /** Once terminated, an actor is never queued again and handles nothing more; once
      its waiter lock is free, which is what `Await` waits for, no worker touches it
      again. */
  lemma TerminatedForGood(s: State, es: seq<Event>, a: ActorId)
    requires Reachable(s) && Possible(s, es) && a < |s.actors| && s.actors[a].policy.terminated
    ensures var t := Run(s, es);
            && a < |t.actors| && t.actors[a].policy.terminated
            && Some(a) !in t.queue
            && t.actors[a].handled == s.actors[a].handled
            && t.actors[a].quits == 1
            && (!s.actors[a].waiterHeld ==> forall w | Runs(t, w) :: RunBy(t, w) != a)
  {
    ReachableInv(s);
    assert ActorInv(s, a);
    RunHistory(s, es, a);
    var t := Run(s, es);
    assert ActorInv(t, a);
    forall w | Runs(t, w) && !s.actors[a].waiterHeld ensures RunBy(t, w) != a {
      if RunBy(t, w) == a { RunningPositive(t.workers, w, a); }
    }
  }

  // --- shutdown of the workers --------------------------------------------

  /** When every worker has left, each took one null of `Finalize`, and what was never
      dequeued is exactly what was queued after the last of them. */
  lemma ShutdownTheorem(s: State)
    requires Reachable(s) && s.workers != []
    requires forall w | 0 <= w < |s.workers| :: s.workers[w].Exited?
    ensures s.sentinels == |s.workers|
    ensures None !in s.queue
    ensures 0 < s.taken <= |s.queueLog| && s.queueLog == s.queueLog[..s.taken - 1] + [None] + s.queue
    ensures Queued(s.queueLog, None) == |s.workers|
  {
    ReachableInv(s);
    AllExited(s.workers);
    assert s.queueLog == s.queueLog[..s.taken - 1] + [s.queueLog[s.taken - 1]] + s.queueLog[s.taken..];
    NullsOfLog(s);
  }

  /** A worker leaves only with a null, one each, so everything queued before the first
      null is dequeued before any worker leaves. */
  lemma FirstSentinelTheorem(s: State, w: nat)
    requires Reachable(s) && w < |s.workers| && s.workers[w].Exited?
    ensures s.taken <= |s.queueLog| && Queued(s.queueLog[..s.taken], None) == ExitedCount(s.workers)
    ensures exists i :: 0 <= i < s.taken && s.queueLog[i].None? && forall k | 0 <= k < i :: s.queueLog[k].Some?
  {
    ReachableInv(s);
    NullsOfLog(s);
    assert s.queueLog == s.queueLog[..s.taken] + s.queue;
    assert Queued(s.queueLog, None) == Queued(s.queueLog[..s.taken], None) + Queued(s.queue, None);
    ExitedPositive(s.workers, w);
    var i := FirstNull(s.queueLog[..s.taken]);
    assert forall k | 0 <= k <= i :: s.queueLog[..s.taken][k] == s.queueLog[k];
  }

  lemma {:induction false} ExitedPositive(ws: seq<Phase>, w: nat)
    requires w < |ws| && ws[w].Exited?
    ensures ExitedCount(ws) > 0
  {
    if w > 0 { ExitedPositive(ws[1..], w - 1); }
  }

  lemma {:induction false} FirstNull(q: seq<Option<ActorId>>) returns (i: nat)
    requires None in q
    ensures i < |q| && q[i].None? && forall k | 0 <= k < i :: q[k].Some?
  {
    if q[0].None? {
      i := 0;
    } else {
      i := FirstNull(q[1..]);
      i := i + 1;
    }
  }

  lemma {:induction false} AllExited(ws: seq<Phase>)
    requires forall w | 0 <= w < |ws| :: ws[w].Exited?
    ensures ExitedCount(ws) == |ws|
  {
    if ws != [] { AllExited(ws[1..]); }
  }

  lemma NullsOfLog(s: State)
    requires Reachable(s)
    ensures Queued(s.queueLog, None) == s.sentinels
  {
    var threads, es :| Possible(Init(threads), es) && s == Run(Init(threads), es);
    InitInv(threads);
    NullsOfRun(Init(threads), es);
  }

  /** Only `Finalize` puts a null on the queue: scheduling an actor never does. */
  lemma {:induction false} NullsOfRun(s: State, es: seq<Event>)
    requires Inv(s) && Possible(s, es) && Queued(s.queueLog, None) == s.sentinels
    ensures Queued(Run(s, es).queueLog, None) == Run(s, es).sentinels
    decreases |es|
  {
    if es != [] {
      var e := es[0];
      StepKeeps(s, e);
      if e.Enque? || e.SetStatus? { assert ActorInv(s, e.a); }
      NullsOfRun(Apply(s, e), es[1..]);
    }
  }

  // --- draining -----------------------------------------------------------

  ghost function Mail(actor: Actor): nat {
    var batch := |actor.policy.deque|;
    4 * |actor.policy.enque| + if actor.cursor <= batch then 2 * (batch - actor.cursor) else 0
  }

  ghost function AllMail(mailboxes: seq<Actor>): nat {
    if mailboxes == [] then 0 else Mail(mailboxes[0]) + AllMail(mailboxes[1..])
  }

  ghost function Effort(ph: Phase): nat {
    match ph
    case Idle => 0
    case Exited => 0
    case Unlocking(_) => 1
    case Marking(_) => 2
    case Removing(_) => 3
    case Fetching(_) => 4
    case Handling(_, _) => 5
  }

  ghost function AllEffort(ws: seq<Phase>): nat {
    if ws == [] then 0 else Effort(ws[0]) + AllEffort(ws[1..])
  }

  /** Bounds how many steps the workers can take without new mail. */
  ghost function Measure(s: State): nat {
    AllMail(s.actors) + AllEffort(s.workers) + 5 * |s.queue|
  }

  lemma {:induction false} MailUpdate(mailboxes: seq<Actor>, a: nat, actor: Actor)
    requires a < |mailboxes|
    ensures AllMail(mailboxes[a := actor]) == AllMail(mailboxes) - Mail(mailboxes[a]) + Mail(actor)
  {
    if a == 0 {
      assert mailboxes[0 := actor][1..] == mailboxes[1..];
    } else {
      assert mailboxes[a := actor][1..] == mailboxes[1..][a - 1 := actor];
      MailUpdate(mailboxes[1..], a - 1, actor);
    }
  }

  lemma {:induction false} EffortUpdate(ws: seq<Phase>, w: nat, ph: Phase)
    requires w < |ws|
    ensures AllEffort(ws[w := ph]) == AllEffort(ws) - Effort(ws[w]) + Effort(ph)
  {
    if w == 0 {
      assert ws[0 := ph][1..] == ws[1..];
    } else {
      assert ws[w := ph][1..] == ws[1..][w - 1 := ph];
      EffortUpdate(ws[1..], w - 1, ph);
    }
  }

  lemma LocalMeasure(s: State, w: nat, ph: Phase, actor: Actor)
    requires Runs(s, w)
    ensures Measure(Local(s, w, ph, RunBy(s, w), actor))
         == Measure(s) - Mail(s.actors[RunBy(s, w)]) + Mail(actor) - Effort(s.workers[w]) + Effort(ph)
  {
    MailUpdate(s.actors, RunBy(s, w), actor);
    EffortUpdate(s.workers, w, ph);
  }

  /** What a step of a worker does to its actor and its phase. */
  lemma RunnerEffort(s: State, e: Event)
    requires Inv(s) && Enabled(s, e) && WorkerEvent(e) && !e.Dequeue?
    ensures var t, a := Apply(s, e), RunBy(s, e.w);
            Mail(t.actors[a]) + Effort(t.workers[e.w]) < Mail(s.actors[a]) + Effort(s.workers[e.w])
  {
    RunnerFacts(s, e.w);
  }

  lemma RunnerLocal(s: State, e: Event)
    requires Enabled(s, e) && WorkerEvent(e) && !e.Dequeue?
    ensures var t, a := Apply(s, e), RunBy(s, e.w);
            var l := Local(s, e.w, t.workers[e.w], a, t.actors[a]);
            t.actors == l.actors && t.workers == l.workers && t.queue == l.queue
  {
  }

  lemma WorkerStepDecreases(s: State, e: Event)
    requires Inv(s) && Enabled(s, e) && WorkerEvent(e)
    ensures Measure(Apply(s, e)) < Measure(s)
  {
    var t := Apply(s, e);
    if e.Dequeue? {
      EffortUpdate(s.workers, e.w, t.workers[e.w]);
    } else {
      RunnerEffort(s, e);
      RunnerLocal(s, e);
      LocalMeasure(s, e.w, t.workers[e.w], t.actors[RunBy(s, e.w)]);
    }
  }

  /** Without new mail the workers take boundedly many steps. */
  lemma {:induction false} DrainBound(s: State, es: seq<Event>)
    requires Inv(s) && Possible(s, es) && (forall e | e in es :: WorkerEvent(e))
    ensures |es| <= Measure(s)
    decreases |es|
  {
    if es != [] {
      assert es[0] in es;
      WorkerStepDecreases(s, es[0]);
      StepKeeps(s, es[0]);
      DrainBound(Apply(s, es[0]), es[1..]);
    }
  }

  /** No worker can move: each waits on the empty queue or has left. */
  ghost predicate Quiescent(s: State) {
    forall e | WorkerEvent(e) :: !Enabled(s, e)
  }

  /** And they can always go on until they come to rest. */
  lemma {:induction false} ComesToRest(s: State) returns (es: seq<Event>)
    requires Inv(s)
    ensures Possible(s, es) && (forall e | e in es :: WorkerEvent(e)) && Quiescent(Run(s, es))
    decreases Measure(s)
  {
    if Quiescent(s) {
      es := [];
    } else {
      var e :| WorkerEvent(e) && Enabled(s, e);
      WorkerStepDecreases(s, e);
      StepKeeps(s, e);
      var rest := ComesToRest(Apply(s, e));
      es := [e] + rest;
      assert es[1..] == rest;
    }
  }

  /** When the workers come to rest and one of them is still there, nothing is queued
      or being run, and every actor that is started or has terminated has handled
      exactly the messages before its first terminate message. */
  lemma DeliveryTheorem(s: State, w: nat, a: ActorId)
    requires Reachable(s) && Quiescent(s)
    requires w < |s.workers| && !s.workers[w].Exited?
    requires a < |s.actors| && (s.actors[a].policy.start || s.actors[a].policy.terminated)
    ensures s.queue == []
    ensures s.actors[a].handled == BeforeTerminate(s.actors[a].sent)
    ensures s.actors[a].policy.terminated <==> exists m :: m in s.actors[a].sent && m.kind == KTERMINATE
    ensures s.actors[a].policy.terminated ==> !s.actors[a].waiterHeld && !s.actors[a].listed
  {
    ReachableInv(s);
    AtRest(s, w);
    var actor := s.actors[a];
    assert ActorInv(s, a);
    NobodyRuns(s.workers, a);
    FifoTheorem(s, a);
    if actor.policy.terminated {
      assert actor.sent[|actor.handled|].kind == KTERMINATE;
    } else {
      assert actor.handled == actor.sent;
      BeforeTerminateOf(actor.handled, []);
      assert actor.handled + [] == actor.handled;
    }
  }

  lemma AtRest(s: State, w: nat)
    requires Inv(s) && Quiescent(s) && w < |s.workers| && !s.workers[w].Exited?
    ensures s.queue == []
    ensures forall v | 0 <= v < |s.workers| :: On(s.workers[v]) == None
  {
    forall v: nat | 0 <= v < |s.workers| ensures On(s.workers[v]) == None {
      assert WorkerInv(s, v);
      assert !Enabled(s, Fetch(v)) && !Enabled(s, Handle(v)) && !Enabled(s, ClearBatch(v));
      assert !Enabled(s, Remove(v)) && !Enabled(s, Mark(v)) && !Enabled(s, Unlock(v));
    }
    assert !Enabled(s, Dequeue(w));
  }

  /** Once `Finalize` has pushed all its nulls, the workers come to rest only by all
      leaving, so joining them returns. */
  lemma JoinTheorem(s: State)
    requires Reachable(s) && Quiescent(s) && s.sentinels == |s.workers|
    ensures forall w | 0 <= w < |s.workers| :: s.workers[w].Exited?
  {
    ReachableInv(s);
    ExitedBound(s.workers);
    if w: nat :| w < |s.workers| && !s.workers[w].Exited? { AtRest(s, w); }
  }
}
