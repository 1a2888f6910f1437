/** What the scheduler makes of the calls of its users: which messages it counts as sent,
    which actors run and which are paused, and exactly when one is put on the ready queue. */
module SchedulerEvents {
  import opened Basics
  import opened ActorPolicy
  import opened Scheduler
  import opened SchedulerProofs
  import opened SchedulerTheorems

  /** The messages given to actor `a`, in order. */
  ghost function GivenTo(es: seq<Event>, a: ActorId): seq<Message> {
    if es == [] then []
    else (if es[0].Enque? && es[0].a == a then [es[0].m] else []) + GivenTo(es[1..], a)
  }

  /** Whether the last status given to actor `a` was to run; `was` if none was given. */
  ghost function LastStatus(es: seq<Event>, a: ActorId, was: bool): bool {
    if es == [] then was
    else LastStatus(es[1..], a, if es[0].SetStatus? && es[0].a == a then es[0].startRun else was)
  }

  ghost function Names(es: seq<Event>): seq<string> {
    if es == [] then [] else (if es[0].Spawn? then [es[0].name] else []) + Names(es[1..])
  }

  ghost function Sentinels(es: seq<Event>): nat {
    if es == [] then 0 else (if es[0].Sentinel? then 1 else 0) + Sentinels(es[1..])
  }

  /** What is sent to an actor that does not exist yet is nothing, and it is paused. */
  ghost function SentTo(s: State, a: ActorId): seq<Message> {
    if a < |s.actors| then s.actors[a].sent else []
  }

  ghost predicate Started(s: State, a: ActorId) {
    a < |s.actors| && s.actors[a].policy.start
  }

  lemma StepSent(s: State, e: Event, a: ActorId)
    requires Enabled(s, e)
    ensures SentTo(Apply(s, e), a) == SentTo(s, a) + if e.Enque? && e.a == a then [e.m] else []
    ensures Started(Apply(s, e), a) <==> if e.SetStatus? && e.a == a then e.startRun else Started(s, a)
  {
  }

  ghost function NamesOf(s: State): seq<string> {
    seq(|s.actors|, i requires 0 <= i < |s.actors| => s.actors[i].name)
  }

  lemma StepNames(s: State, e: Event)
    requires Enabled(s, e)
    ensures NamesOf(Apply(s, e)) == NamesOf(s) + if e.Spawn? then [e.name] else []
    ensures Apply(s, e).sentinels == s.sentinels + if e.Sentinel? then 1 else 0
    ensures |Apply(s, e).workers| == |s.workers|
  {
  }

  lemma {:induction false} RunSent(s: State, es: seq<Event>, a: ActorId)
    requires Possible(s, es)
    ensures SentTo(Run(s, es), a) == SentTo(s, a) + GivenTo(es, a)
    ensures Started(Run(s, es), a) == LastStatus(es, a, Started(s, a))
    decreases |es|
  {
    if es != [] {
      StepSent(s, es[0], a);
      RunSent(Apply(s, es[0]), es[1..], a);
    }
  }

  lemma {:induction false} RunNames(s: State, es: seq<Event>)
    requires Possible(s, es)
    ensures NamesOf(Run(s, es)) == NamesOf(s) + Names(es)
    ensures Run(s, es).sentinels == s.sentinels + Sentinels(es) && |Run(s, es).workers| == |s.workers|
    decreases |es|
  {
    if es != [] {
      StepNames(s, es[0]);
      RunNames(Apply(s, es[0]), es[1..]);
    }
  }

  /** After any run the actors are the ones spawned, in order; each has been sent exactly
      the messages given to it, in order; it is started if and only if the last status given
      to it was to run; and there are as many sentinels as `Finalize` pushed. */
  lemma CallsTheorem(threads: nat, es: seq<Event>, a: ActorId)
    requires Possible(Init(threads), es) && a < |Run(Init(threads), es).actors|
    ensures var s := Run(Init(threads), es);
            && |s.actors| == |Names(es)| && s.actors[a].name == Names(es)[a]
            && s.actors[a].sent == GivenTo(es, a)
            && (s.actors[a].policy.start <==> LastStatus(es, a, false))
            && s.sentinels == Sentinels(es) && |s.workers| == threads
  {
    var s := Run(Init(threads), es);
    RunSent(Init(threads), es, a);
    RunNames(Init(threads), es);
    assert NamesOf(s)[a] == s.actors[a].name;
  }

  /** At rest with a worker left, an actor whose last status was to run has handled exactly
      the messages given to it before the first terminate message. */
  lemma DeliveredTheorem(threads: nat, es: seq<Event>, w: nat, a: ActorId)
    requires Possible(Init(threads), es) && Quiescent(Run(Init(threads), es))
    requires w < |Run(Init(threads), es).workers| && !Run(Init(threads), es).workers[w].Exited?
    requires a < |Run(Init(threads), es).actors| && LastStatus(es, a, false)
    ensures Run(Init(threads), es).actors[a].handled == BeforeTerminate(GivenTo(es, a))
  {
    CallsTheorem(threads, es, a);
    DeliveryTheorem(Run(Init(threads), es), w, a);
  }

  /** The event wakes actor `a`: the actor is live and not scheduled yet, its last status,
      this event included, is to run, and there is mail for it, this event included. */
  ghost predicate Wakes(s: State, es: seq<Event>, e: Event, a: ActorId) {
    && ((e.Enque? && e.a == a) || (e.SetStatus? && e.a == a && e.startRun && |GivenTo(es, a)| > Taken(s, a)))
    && LastStatus(es + [e], a, false)
    && a < |s.actors| && !s.actors[a].policy.ready && !s.actors[a].policy.terminated
  }

  /** How many messages of an actor have been fetched. */
  ghost function Taken(s: State, a: ActorId): int {
    if a < |s.actors| then |s.actors[a].sent| - |s.actors[a].policy.enque| else 0
  }

  lemma {:induction false} LastStatusSnoc(es: seq<Event>, e: Event, a: ActorId, was: bool)
    ensures LastStatus(es + [e], a, was)
            == if e.SetStatus? && e.a == a then e.startRun else LastStatus(es, a, was)
    decreases |es|
  {
    if es == [] {
      assert es + [e] == [e] && [e][1..] == [];
    } else {
      assert (es + [e])[0] == es[0] && (es + [e])[1..] == es[1..] + [e];
      LastStatusSnoc(es[1..], e, a, if es[0].SetStatus? && es[0].a == a then es[0].startRun else was);
    }
  }

  /** What an event adds to the ready queue after any run: a null for a sentinel, the actor
      that it wakes, and nothing else. So a paused actor is never put on it. */
  lemma ScheduleTheorem(threads: nat, es: seq<Event>, e: Event)
    requires Possible(Init(threads), es) && Enabled(Run(Init(threads), es), e)
    ensures var s := Run(Init(threads), es);
            var t := Apply(s, e);
            && (e.Sentinel? ==> t.queueLog == s.queueLog + [None])
            && (forall a | Wakes(s, es, e, a) :: t.queueLog == s.queueLog + [Some(a)])
            && (!e.Sentinel? && !(exists a :: Wakes(s, es, e, a)) ==> t.queueLog == s.queueLog)
  {
    var s := Run(Init(threads), es);
    var t := Apply(s, e);
    InitInv(threads);
    RunKeeps(Init(threads), es);
    if e.Enque? || e.SetStatus? {
      var a := e.a;
      assert ActorInv(s, a);
      RunSent(Init(threads), es, a);
      LastStatusSnoc(es, e, a, false);
      assert Wakes(s, es, e, a) ==> t.queueLog == s.queueLog + [Some(a)];
      assert !Wakes(s, es, e, a) ==> t.queueLog == s.queueLog;
    }
  }
}
