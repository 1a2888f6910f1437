/** The scheduler's objects in place: two mailbox lists exchanged by reference, the
    shared ready queue with its worker loop, the batch loop of one actor and the
    registry. Each critical section is proved against its function in `ActorPolicy`. */
module ActorObjects {
  import opened Basics
  import opened ActorPolicy

  class MessageList {
    var items: seq<Message>

    constructor ()
      ensures items == []
    {
      items := [];
    }
  }

  class ActorThread {
    var readyActors: seq<Option<ActorId>>
    var workers: nat

    constructor ()
      ensures readyActors == [] && workers == 0
    {
      readyActors, workers := [], 0;
    }

    method AddThread(threadCount: int)
      modifies this`workers
      ensures workers == old(workers) + if threadCount > 0 then threadCount else 0
    {
      var i := 0;
      while i < threadCount
        invariant 0 <= i && (i <= threadCount || i == 0)
        invariant workers == old(workers) + i
      {
        workers := workers + 1;
        i := i + 1;
      }
    }

    method EnqueReadyActor(actor: Option<ActorId>)
      modifies this`readyActors
      ensures readyActors == old(readyActors) + [actor]
    {
      readyActors := readyActors + [actor];
    }

    method DequeReadyActor() returns (actor: Option<ActorId>)
      requires readyActors != []
      modifies this`readyActors
      ensures old(readyActors) == [actor] + readyActors
    {
      actor := readyActors[0];
      readyActors := readyActors[1..];
    }

    /** One null per worker, after everything queued so far. */
    method Finalize()
      modifies this
      ensures readyActors == old(readyActors) + seq(old(workers), _ => None)
      ensures workers == 0
    {
      var i := 0;
      while i < workers
        invariant i <= workers == old(workers)
        invariant readyActors == old(readyActors) + seq(i, _ => None)
      {
        EnqueReadyActor(None);
        i := i + 1;
      }
      workers := 0;
    }

    /** The loop of a worker that has the queue to itself: it runs every actor queued
        before the first null and stops there. */
    method Run() returns (ran: seq<Option<ActorId>>)
      requires None in readyActors
      modifies this`readyActors
      ensures old(readyActors) == ran + [None] + readyActors
      ensures None !in ran
    {
      ran := [];
      var terminate := false;
      while !terminate
        invariant terminate ==> old(readyActors) == ran + [None] + readyActors
        invariant !terminate ==> old(readyActors) == ran + readyActors && None in readyActors
        invariant None !in ran
        decreases !terminate, |readyActors|
      {
        ghost var before := readyActors;
        var actor := DequeReadyActor();
        assert old(readyActors) == ran + [actor] + readyActors;
        if actor != None {
          assert before == [actor] + readyActors;
          ran := ran + [actor];
        } else {
          terminate := true;
        }
      }
    }
  }

  class ShardedThread {
    const mailbox1: MessageList
    const mailbox2: MessageList
    var enqueMailbox: MessageList
    var dequeMailbox: MessageList
    var msgCount: nat
    var start: bool
    var ready: bool
    var terminated: bool
    var actor: Option<ActorId>

    ghost predicate Valid()
      reads this
    {
      && mailbox1 != mailbox2
      && ((enqueMailbox == mailbox1 && dequeMailbox == mailbox2)
          || (enqueMailbox == mailbox2 && dequeMailbox == mailbox1))
    }

    ghost function View(): Policy
      reads this, enqueMailbox, dequeMailbox
    {
      Policy(enqueMailbox.items, dequeMailbox.items, msgCount, start, ready, terminated, actor)
    }

    constructor (a: ActorId)
      ensures Valid() && View() == NewPolicy(a)
      ensures fresh(mailbox1) && fresh(mailbox2)
    {
      var m1 := new MessageList();
      var m2 := new MessageList();
      mailbox1, mailbox2 := m1, m2;
      enqueMailbox, dequeMailbox := m1, m2;
      msgCount, start, ready, terminated, actor := 0, false, false, false, Some(a);
    }

    /** The batch that a worker is iterating is not touched. */
    method Enque(msg: Message, pool: ActorThread) returns (result: nat)
      requires Valid()
      modifies this, enqueMailbox, pool`readyActors
      ensures Valid() && View() == EnqueMessage(old(View()), msg)
      ensures enqueMailbox == old(enqueMailbox) && enqueMailbox.items == old(enqueMailbox.items) + [msg]
      ensures result == msgCount == old(msgCount) + 1
      ensures pool.readyActors == old(pool.readyActors) + Scheduled(MustSchedule(old(View())), old(View()))
      ensures dequeMailbox == old(dequeMailbox) && unchanged(dequeMailbox)
    {
      enqueMailbox.items := enqueMailbox.items + [msg];
      if start && ready == false && terminated == false {
        pool.EnqueReadyActor(actor);
        ready := true;
      }
      msgCount := msgCount + 1;
      result := msgCount;
    }

    method Notify(pool: ActorThread)
      requires Valid()
      modifies this`ready, pool`readyActors
      ensures Valid() && View() == old(View()).(ready := old(ready) || NotifySchedules(old(View())))
      ensures pool.readyActors == old(pool.readyActors) + Scheduled(NotifySchedules(old(View())), old(View()))
    {
      if start && ready == false && terminated == false && msgCount > 0 {
        pool.EnqueReadyActor(actor);
        ready := true;
      }
    }

    method SetStatus(startRun: bool, pool: ActorThread)
      requires Valid()
      modifies this`start, this`ready, pool`readyActors
      ensures Valid() && View() == SetRunningStatus(old(View()), startRun) && start == startRun
      ensures var p := old(View()).(start := startRun);
              pool.readyActors == old(pool.readyActors) + Scheduled(NotifySchedules(p), p)
    {
      start := startRun;
      Notify(pool);
    }

    method Swap()
      requires Valid()
      modifies this`enqueMailbox, this`dequeMailbox, this`msgCount
      ensures Valid() && View() == SwapMailbox(old(View()))
      ensures enqueMailbox == old(dequeMailbox) && dequeMailbox == old(enqueMailbox)
    {
      var temp := enqueMailbox;
      enqueMailbox := dequeMailbox;
      dequeMailbox := temp;
      msgCount := 0;
    }

    method Get() returns (result: MessageList?)
      requires Valid()
      modifies this`enqueMailbox, this`dequeMailbox, this`msgCount, this`ready
      ensures Valid() && View() == GetMsgs(old(View()))
      ensures result == null <==> old(enqueMailbox.items) == []
      ensures result != null ==> result == dequeMailbox == old(enqueMailbox)
    {
      if enqueMailbox.items == [] {
        ready := false;
        result := null;
      } else {
        ready := true;
        Swap();
        result := dequeMailbox;
      }
    }

    method MarkTerminated()
      requires Valid()
      modifies this`terminated, this`actor
      ensures Valid() && View() == Terminate(old(View()))
    {
      terminated := true;
      actor := None;
    }
  }

  class ActorMgr {
    var actors: map<string, ActorId>

    constructor ()
      ensures actors == map[]
    {
      actors := map[];
    }

    /** A taken name is refused and changes nothing. */
    method Add(name: string, a: ActorId) returns (ok: bool)
      modifies this
      ensures ok <==> name !in old(actors)
      ensures actors == if ok then old(actors)[name := a] else old(actors)
    {
      if name in actors {
        return false;
      }
      actors := actors[name := a];
      ok := true;
    }

    method RemoveActor(name: string)
      modifies this
      ensures actors == old(actors) - {name}
    {
      actors := actors - {name};
    }
  }

  /** An actor with its mailbox; `handled` and `quits` record the run. */
  class ActorBase {
    const name: string
    const actorThread: ShardedThread
    var waiterHeld: bool
    var handled: seq<Message>
    var quits: nat

    constructor (name: string, thread: ShardedThread)
      ensures this.name == name && actorThread == thread
      ensures waiterHeld && handled == [] && quits == 0
    {
      this.name, actorThread := name, thread;
      waiterHeld, handled, quits := true, [], 0;
    }

    method Quit(mgr: ActorMgr)
      requires actorThread.Valid()
      modifies this`waiterHeld, this`quits, actorThread`terminated, actorThread`actor, mgr
      ensures actorThread.Valid() && actorThread.View() == Terminate(old(actorThread.View()))
      ensures mgr.actors == old(mgr.actors) - {name}
      ensures !waiterHeld && quits == old(quits) + 1
    {
      quits := quits + 1;
      mgr.RemoveActor(name);
      actorThread.MarkTerminated();
      waiterHeld := false;
    }

    /** A run that is not disturbed by senders: it handles what is waiting up to the
        first terminate message. Without one it leaves both mailboxes empty and the
        actor not ready; with one it quits once. */
    method Run(mgr: ActorMgr)
      requires actorThread.Valid() && actorThread.dequeMailbox.items == []
      modifies this, actorThread, actorThread.mailbox1, actorThread.mailbox2, mgr
      ensures actorThread.Valid()
      ensures handled == old(handled) + BeforeTerminate(old(actorThread.enqueMailbox.items))
      ensures var quit := |BeforeTerminate(old(actorThread.enqueMailbox.items))|
                          < |old(actorThread.enqueMailbox.items)|;
              && quits == old(quits) + (if quit then 1 else 0)
              && waiterHeld == (old(waiterHeld) && !quit)
              && actorThread.terminated == (old(actorThread.terminated) || quit)
              && mgr.actors == (if quit then old(mgr.actors) - {name} else old(mgr.actors))
              && (!quit ==> !actorThread.ready && actorThread.enqueMailbox.items == []
                            && actorThread.dequeMailbox.items == [])
    {
      ghost var all := actorThread.enqueMailbox.items;
      ghost var before := handled;
      while true
        invariant actorThread.Valid() && actorThread.dequeMailbox.items == []
        invariant (actorThread.enqueMailbox.items == all && handled == before)
                  || (actorThread.enqueMailbox.items == [] && handled == before + all
                      && BeforeTerminate(all) == all)
        invariant quits == old(quits) && waiterHeld == old(waiterHeld)
        invariant actorThread.terminated == old(actorThread.terminated) && mgr.actors == old(mgr.actors)
        decreases |actorThread.enqueMailbox.items|
      {
        var msgs := actorThread.Get();
        if msgs == null {
          return;
        }
        var it := 0;
        while it < |msgs.items|
          invariant it <= |all| && msgs.items == all && msgs == actorThread.dequeMailbox
          invariant actorThread.Valid() && actorThread.enqueMailbox.items == []
          invariant forall i | 0 <= i < it :: all[i].kind != KTERMINATE
          invariant handled == before + all[..it]
          invariant quits == old(quits) && waiterHeld == old(waiterHeld)
          invariant actorThread.terminated == old(actorThread.terminated) && mgr.actors == old(mgr.actors)
        {
          var msg := msgs.items[it];
          if msg.kind == KTERMINATE {
            StopsAt(all, it);
            Quit(mgr);
            return;
          }
          handled := handled + [msg];
          it := it + 1;
        }
        StopsAt(all, |all|);
        msgs.items := [];
      }
    }
  }

  lemma {:induction false} StopsAt(ms: seq<Message>, i: nat)
    requires i <= |ms|
    requires forall j | 0 <= j < i :: ms[j].kind != KTERMINATE
    requires i < |ms| ==> ms[i].kind == KTERMINATE
    ensures BeforeTerminate(ms) == ms[..i]
  {
    if i > 0 { StopsAt(ms[1..], i - 1); }
  }
}
