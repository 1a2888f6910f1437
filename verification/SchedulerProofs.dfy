/** Every event keeps the scheduler invariant, so it holds after every run. */
module SchedulerProofs {
  import opened Basics
  import opened ActorPolicy
  import opened Scheduler

  // --- counting -----------------------------------------------------------

  lemma {:induction false} RunningUpdate(ws: seq<Phase>, w: nat, ph: Phase, a: ActorId)
    requires w < |ws|
    ensures Running(ws[w := ph], a)
         == Running(ws, a) - (if On(ws[w]) == Some(a) then 1 else 0) + (if On(ph) == Some(a) then 1 else 0)
  {
    if w == 0 {
      assert ws[0 := ph][1..] == ws[1..];
    } else {
      assert ws[w := ph][1..] == ws[1..][w - 1 := ph];
      RunningUpdate(ws[1..], w - 1, ph, a);
    }
  }

  lemma {:induction false} ExitedUpdate(ws: seq<Phase>, w: nat, ph: Phase)
    requires w < |ws|
    ensures ExitedCount(ws[w := ph])
         == ExitedCount(ws) - (if ws[w].Exited? then 1 else 0) + (if ph.Exited? then 1 else 0)
  {
    if w == 0 {
      assert ws[0 := ph][1..] == ws[1..];
    } else {
      assert ws[w := ph][1..] == ws[1..][w - 1 := ph];
      ExitedUpdate(ws[1..], w - 1, ph);
    }
  }

  lemma {:induction false} RunningPositive(ws: seq<Phase>, w: nat, a: ActorId)
    requires w < |ws| && On(ws[w]) == Some(a)
    ensures Running(ws, a) >= 1
  {
    if w > 0 { RunningPositive(ws[1..], w - 1, a); }
  }

  lemma {:induction false} RunningTwo(ws: seq<Phase>, v: nat, w: nat, a: ActorId)
    requires v < w < |ws| && On(ws[v]) == Some(a) && On(ws[w]) == Some(a)
    ensures Running(ws, a) >= 2
  {
    if v == 0 { RunningPositive(ws[1..], w - 1, a); } else { RunningTwo(ws[1..], v - 1, w - 1, a); }
  }

  lemma {:induction false} NobodyRuns(ws: seq<Phase>, a: ActorId)
    requires forall w | 0 <= w < |ws| :: On(ws[w]) != Some(a)
    ensures Running(ws, a) == 0
  {
    if ws != [] { NobodyRuns(ws[1..], a); }
  }

  lemma {:induction false} ExitedBound(ws: seq<Phase>)
    ensures ExitedCount(ws) <= |ws|
    ensures ExitedCount(ws) == |ws| ==> forall w | 0 <= w < |ws| :: ws[w].Exited?
    ensures ExitedCount(ws) == 0 <==> forall w | 0 <= w < |ws| :: !ws[w].Exited?
  {
    if ws != [] {
      ExitedBound(ws[1..]);
      assert forall w | 0 <= w < |ws| :: w == 0 || ws[w] == ws[1..][w - 1];
      assert forall w | 0 <= w < |ws| - 1 :: ws[1..][w] == ws[w + 1];
    }
  }

  /** Two workers never run the same actor. */
  lemma OneWorkerPerActor(s: State, v: nat, w: nat)
    requires Inv(s) && Runs(s, v) && Runs(s, w) && RunBy(s, v) == RunBy(s, w)
    ensures v == w
  {
    var a := RunBy(s, v);
    assert ActorInv(s, a);
    if v < w { RunningTwo(s.workers, v, w, a); }
    if w < v { RunningTwo(s.workers, w, v, a); }
  }

  lemma QueueAppend(q: seq<Option<ActorId>>, x: Option<ActorId>, y: Option<ActorId>)
    ensures Queued(q + [y], x) == Queued(q, x) + if x == y then 1 else 0
  {
  }

  lemma QueueTail(q: seq<Option<ActorId>>, x: Option<ActorId>)
    requires q != []
    ensures Queued(q, x) == Queued(q[1..], x) + if x == q[0] then 1 else 0
  {
    assert q == [q[0]] + q[1..];
  }

  // --- steps local to one worker and its actor ----------------------------

  /** A step of worker `w` on its own actor keeps the invariant if it keeps the parts
      about that worker and that actor: nobody else sees the difference. */
  lemma LocalStep(s: State, w: nat, ph: Phase, actor: Actor)
    requires Inv(s) && Runs(s, w)
    requires On(ph) == None || On(ph) == Some(RunBy(s, w))
    requires !ph.Exited?
    requires actor.name == s.actors[RunBy(s, w)].name && actor.listed == s.actors[RunBy(s, w)].listed
    requires ActorInv(Local(s, w, ph, RunBy(s, w), actor), RunBy(s, w))
    requires WorkerInv(Local(s, w, ph, RunBy(s, w), actor), w)
    ensures Inv(Local(s, w, ph, RunBy(s, w), actor))
  {
    var a := RunBy(s, w);
    var t := Local(s, w, ph, a, actor);
    OthersKept(s, w, ph, actor);
    ExitedUpdate(s.workers, w, ph);
    assert RegistryInv(t);
  }

  lemma OthersKept(s: State, w: nat, ph: Phase, actor: Actor)
    requires Inv(s) && Runs(s, w)
    requires On(ph) == None || On(ph) == Some(RunBy(s, w))
    ensures var a := RunBy(s, w);
            var t := Local(s, w, ph, a, actor);
            && (forall b | 0 <= b < |t.actors| && b != a :: ActorInv(t, b))
            && (forall v | 0 <= v < |t.workers| && v != w :: WorkerInv(t, v))
  {
    var a := RunBy(s, w);
    var t := Local(s, w, ph, a, actor);
    forall b | 0 <= b < |t.actors| && b != a ensures ActorInv(t, b) {
      assert ActorInv(s, b);
      RunningUpdate(s.workers, w, ph, b);
    }
    forall v | 0 <= v < |t.workers| && v != w ensures WorkerInv(t, v) {
      assert WorkerInv(s, v);
      if On(s.workers[v]).Some? && RunBy(s, v) == a { OneWorkerPerActor(s, v, w); }
    }
  }

  /** What is known of an actor that a worker runs. */
  lemma RunnerFacts(s: State, w: nat)
    requires Inv(s) && Runs(s, w)
    ensures ActorInv(s, RunBy(s, w)) && WorkerInv(s, w)
    ensures Running(s.workers, RunBy(s, w)) == 1 && Queued(s.queue, Some(RunBy(s, w))) == 0
    ensures !s.actors[RunBy(s, w)].policy.terminated ==> s.actors[RunBy(s, w)].policy.ready
  {
    assert ActorInv(s, RunBy(s, w));
    RunningPositive(s.workers, w, RunBy(s, w));
  }

  lemma FetchKeeps(s: State, w: nat)
    requires Inv(s) && Enabled(s, Fetch(w))
    ensures Inv(Apply(s, Fetch(w)))
  {
    RunnerFacts(s, w);
    var a := RunBy(s, w);
    var actor := FetchActor(s.actors[a]);
    var ph := if s.actors[a].policy.enque == [] then Idle else Handling(a, 0);
    RunningUpdate(s.workers, w, ph, a);
    LocalStep(s, w, ph, actor);
  }

  lemma HandleKeeps(s: State, w: nat)
    requires Inv(s) && Enabled(s, Handle(w))
    ensures Inv(Apply(s, Handle(w)))
  {
    RunnerFacts(s, w);
    var a, i := RunBy(s, w), s.workers[w].next;
    var actor, ph := HandleActor(s.actors[a], i), HandlePhase(s.actors[a], a, i);
    RunningUpdate(s.workers, w, ph, a);
    var d := s.actors[a].policy.deque;
    assert d[i..] == [d[i]] + d[i + 1..];
    LocalStep(s, w, ph, actor);
  }

  lemma ClearKeeps(s: State, w: nat)
    requires Inv(s) && Enabled(s, ClearBatch(w))
    ensures Inv(Apply(s, ClearBatch(w)))
  {
    RunnerFacts(s, w);
    var a := RunBy(s, w);
    RunningUpdate(s.workers, w, Fetching(a), a);
    LocalStep(s, w, Fetching(a), ClearActor(s.actors[a]));
  }

  /** Leaving the registry erases the actor's own entry and no other. */
  lemma RemoveKeeps(s: State, w: nat)
    requires Inv(s) && Enabled(s, Remove(w))
    ensures Inv(Apply(s, Remove(w)))
  {
    RunnerFacts(s, w);
    var a := RunBy(s, w);
    var actor := s.actors[a].(listed := false);
    var t := Local(s, w, Marking(a), a, actor);
    RunningUpdate(s.workers, w, Marking(a), a);
    OthersKept(s, w, Marking(a), actor);
    ExitedUpdate(s.workers, w, Marking(a));
    assert ActorInv(t, a) && WorkerInv(t, w);
    assert QueueInv(t);
    Unlisted(s, a, t);
  }

  lemma Unlisted(s: State, a: ActorId, t: State)
    requires RegistryInv(s) && a < |s.actors| && s.actors[a].listed
    requires t.actors == s.actors[a := s.actors[a].(listed := false)]
    requires forall b | 0 <= b < |t.actors| :: ActorInv(t, b)
    requires forall v | 0 <= v < |t.workers| :: WorkerInv(t, v)
    requires QueueInv(t)
    ensures Inv(t.(registry := s.registry - {s.actors[a].name}))
  {
    var u := t.(registry := s.registry - {s.actors[a].name});
    forall b | 0 <= b < |u.actors| ensures ActorInv(u, b) { assert ActorInv(t, b); }
    forall v | 0 <= v < |u.workers| ensures WorkerInv(u, v) { assert WorkerInv(t, v); }
    forall b | 0 <= b < |u.actors| && u.actors[b].listed
      ensures u.actors[b].name in u.registry && u.registry[u.actors[b].name] == b
    {
      assert s.actors[b].listed && s.registry[s.actors[b].name] == b;
      assert s.registry[s.actors[a].name] == a;
    }
  }

  lemma MarkKeeps(s: State, w: nat)
    requires Inv(s) && Enabled(s, Mark(w))
    ensures Inv(Apply(s, Mark(w)))
  {
    RunnerFacts(s, w);
    var a := RunBy(s, w);
    RunningUpdate(s.workers, w, Unlocking(a), a);
    LocalStep(s, w, Unlocking(a), s.actors[a].(policy := Terminate(s.actors[a].policy)));
  }

  lemma UnlockKeeps(s: State, w: nat)
    requires Inv(s) && Enabled(s, Unlock(w))
    ensures Inv(Apply(s, Unlock(w)))
  {
    RunnerFacts(s, w);
    var a := RunBy(s, w);
    RunningUpdate(s.workers, w, Idle, a);
    LocalStep(s, w, Idle, s.actors[a].(waiterHeld := false));
  }

  // --- steps of the senders, of the registry and of the queue -------------

  /** A mailbox step: it changes only what senders may change, and never turns
      `ready` off nor, after termination, on. */
  ghost predicate SenderStep(actor: Actor, after: Actor) {
    && after == actor.(policy := after.policy, sent := after.sent)
    && after.policy == actor.policy.(enque := after.policy.enque, msgCount := after.policy.msgCount,
                             start := after.policy.start, ready := after.policy.ready)
    && (actor.policy.ready ==> after.policy.ready)
    && (after.policy.terminated ==> after.policy.ready == actor.policy.ready)
    && NoLostWakeup(after) && Fifo(after)
  }

  ghost function Woken(actor: Actor, after: Actor, a: ActorId): seq<Option<ActorId>> {
    if after.policy.ready == actor.policy.ready then [] else [Some(a)]
  }

  lemma MailboxActors(s: State, a: ActorId, after: Actor)
    requires Inv(s) && a < |s.actors| && SenderStep(s.actors[a], after)
    ensures var t := Push(s.(actors := s.actors[a := after]), Woken(s.actors[a], after, a));
            forall b | 0 <= b < |t.actors| :: ActorInv(t, b)
  {
    var t := Push(s.(actors := s.actors[a := after]), Woken(s.actors[a], after, a));
    forall b | 0 <= b < |t.actors| ensures ActorInv(t, b) {
      assert ActorInv(s, b);
      QueueAppend(s.queue, Some(b), Some(a));
      assert Queued(t.queue, Some(b)) ==
             Queued(s.queue, Some(b)) + if b == a && Woken(s.actors[a], after, a) != [] then 1 else 0;
      if b == a {
        assert AtTerminate(after) == AtTerminate(s.actors[a]);
      }
    }
  }

  lemma MailboxQueue(s: State, entries: seq<Option<ActorId>>, actors: seq<Actor>)
    requires QueueInv(s) && |actors| == |s.actors|
    requires entries == [] || (|entries| == 1 && entries[0].Some? && entries[0].value < |s.actors|)
    ensures QueueInv(Push(s.(actors := actors), entries))
  {
    if entries != [] { QueueAppend(s.queue, None, entries[0]); }
    assert entries == [] || entries == [entries[0]];
    assert s.queueLog[s.taken..] + entries == (s.queueLog + entries)[s.taken..];
    assert s.taken > 0 ==> (s.queueLog + entries)[s.taken - 1] == s.queueLog[s.taken - 1];
  }

  /** Such a step keeps the invariant when the actor is put on the queue exactly when
      the step turns `ready` on. */
  lemma MailboxStep(s: State, a: ActorId, after: Actor)
    requires Inv(s) && a < |s.actors| && SenderStep(s.actors[a], after)
    ensures Inv(Push(s.(actors := s.actors[a := after]), Woken(s.actors[a], after, a)))
  {
    var t := Push(s.(actors := s.actors[a := after]), Woken(s.actors[a], after, a));
    MailboxActors(s, a, after);
    forall v | 0 <= v < |t.workers| ensures WorkerInv(t, v) {
      assert WorkerInv(s, v);
    }
    MailboxQueue(s, Woken(s.actors[a], after, a), t.actors);
  }

  lemma EnqueKeeps(s: State, a: ActorId, m: Message)
    requires Inv(s) && Enabled(s, Enque(a, m))
    ensures Inv(Apply(s, Enque(a, m)))
  {
    assert ActorInv(s, a);
    MailboxStep(s, a, EnqueActor(s.actors[a], m));
  }

  lemma SetStatusKeeps(s: State, a: ActorId, b: bool)
    requires Inv(s) && Enabled(s, SetStatus(a, b))
    ensures Inv(Apply(s, SetStatus(a, b)))
  {
    assert ActorInv(s, a);
    MailboxStep(s, a, s.actors[a].(policy := SetRunningStatus(s.actors[a].policy, b)));
  }

  lemma SpawnKeeps(s: State, name: string)
    requires Inv(s) && Enabled(s, Spawn(name))
    ensures Inv(Apply(s, Spawn(name)))
  {
    var n := |s.actors|;
    var t := Apply(s, Spawn(name));
    forall b | 0 <= b < |t.actors| ensures ActorInv(t, b) {
      if b < n {
        assert ActorInv(s, b);
      } else {
        forall w | 0 <= w < |s.workers| ensures On(s.workers[w]) != Some(n) { assert WorkerInv(s, w); }
        NobodyRuns(s.workers, n);
        assert Some(n) !in s.queue;
      }
    }
    forall v | 0 <= v < |t.workers| ensures WorkerInv(t, v) { assert WorkerInv(s, v); }
    forall b | 0 <= b < n && s.actors[b].listed ensures s.actors[b].name != name {}
  }

  lemma SentinelKeeps(s: State)
    requires Inv(s) && Enabled(s, Sentinel)
    ensures Inv(Apply(s, Sentinel))
  {
    var t := Apply(s, Sentinel);
    forall b | 0 <= b < |t.actors| ensures ActorInv(t, b) {
      assert ActorInv(s, b);
      QueueAppend(s.queue, Some(b), None);
    }
    forall v | 0 <= v < |t.workers| ensures WorkerInv(t, v) { assert WorkerInv(s, v); }
    QueueAppend(s.queue, None, None);
    assert s.queueLog[s.taken..] + [None] == (s.queueLog + [None])[s.taken..];
    assert s.taken > 0 ==> (s.queueLog + [None])[s.taken - 1] == s.queueLog[s.taken - 1];
  }

  lemma DequeueKeeps(s: State, w: nat)
    requires Inv(s) && Enabled(s, Dequeue(w))
    ensures Inv(Apply(s, Dequeue(w)))
  {
    var t := Apply(s, Dequeue(w));
    var ph := t.workers[w];
    forall b | 0 <= b < |t.actors| ensures ActorInv(t, b) {
      assert ActorInv(s, b);
      RunningUpdate(s.workers, w, ph, b);
      QueueTail(s.queue, Some(b));
    }
    DequeueWorkers(s, w);
    QueueTail(s.queue, None);
    ExitedUpdate(s.workers, w, ph);
    ExitedBound(s.workers);
    assert s.queueLog[s.taken..][1..] == s.queueLog[s.taken + 1..];
    assert s.queueLog[s.taken] == s.queue[0];
  }

  lemma DequeueWorkers(s: State, w: nat)
    requires Inv(s) && Enabled(s, Dequeue(w))
    ensures var t := Apply(s, Dequeue(w)); forall v | 0 <= v < |t.workers| :: WorkerInv(t, v)
  {
    var t := Apply(s, Dequeue(w));
    forall v | 0 <= v < |t.workers| ensures WorkerInv(t, v) {
      if v != w {
        assert WorkerInv(s, v);
      } else if s.queue[0].Some? {
        var a := s.queue[0].value;
        assert Some(a) in s.queue;
        assert ActorInv(s, a);
        assert Queued(s.queue, Some(a)) >= 1;
      }
    }
  }

  // --- every run ----------------------------------------------------------

  lemma StepKeeps(s: State, e: Event)
    requires Inv(s) && Enabled(s, e)
    ensures Inv(Apply(s, e))
  {
    match e
    case Spawn(name) => SpawnKeeps(s, name);
    case Enque(a, m) => EnqueKeeps(s, a, m);
    case SetStatus(a, b) => SetStatusKeeps(s, a, b);
    case Sentinel => SentinelKeeps(s);
    case Dequeue(w) => DequeueKeeps(s, w);
    case Fetch(w) => FetchKeeps(s, w);
    case Handle(w) => HandleKeeps(s, w);
    case ClearBatch(w) => ClearKeeps(s, w);
    case Remove(w) => RemoveKeeps(s, w);
    case Mark(w) => MarkKeeps(s, w);
    case Unlock(w) => UnlockKeeps(s, w);
  }

  lemma InitInv(threads: nat)
    ensures Inv(Init(threads))
  {
    ExitedBound(Init(threads).workers);
  }

  lemma {:induction false} RunKeeps(s: State, es: seq<Event>)
    requires Inv(s) && Possible(s, es)
    ensures Inv(Run(s, es))
    decreases |es|
  {
    if es != [] {
      StepKeeps(s, es[0]);
      RunKeeps(Apply(s, es[0]), es[1..]);
    }
  }
}
