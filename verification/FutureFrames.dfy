/** What an event leaves alone: everything that concerns a root future, unless the event is
    about that future. */
module FutureFrames {
  import opened Basics
  import opened Futures
  import Cells = FutureCells
  import opened ThenChains
  import Collects
  import opened FutureTheorems
  import opened FutureRaces

  // --- what concerns future `f` -------------------------------------------

  /** A thread is about to set, associate or link `f`. */
  predicate About(x: Task, f: FutId) {
    (x.SetTo? || x.Associating? || x.Link?) && x.dst == f
  }

  /** Registration `k` of `h` completes `f`. */
  ghost predicate CompletesAt(s: State, f: FutId, h: FutId, k: nat) {
    h < |s.cells| && k < |s.cells[h].regs| && s.cells[h].regs[k] == Complete(f)
  }

  /** Nothing that concerns `f` changes. */
  ghost predicate Kept(s: State, t: State, f: FutId) {
    && f < |s.cells| <= |t.cells|
    && t.cells[f].origin == s.cells[f].origin && t.cells[f].associated == s.cells[f].associated
    && t.cells[f].outcome == s.cells[f].outcome && t.cells[f].cause == s.cells[f].cause
    && (forall x: Task | About(x, f) :: multiset(t.tasks)[x] == multiset(s.tasks)[x])
    && (forall h: FutId, k: nat | CompletesAt(t, f, h, k) ::
          CompletesAt(s, f, h, k) && (k in t.cells[h].ran ==> k in s.cells[h].ran))
    && (forall h: FutId, k: nat | CompletesAt(s, f, h, k) :: CompletesAt(t, f, h, k))
  }

  lemma KeptTrans(s: State, t: State, u: State, f: FutId)
    requires Kept(s, t, f) && Kept(t, u, f)
    ensures Kept(s, u, f)
  {
  }

  lemma KeptTasks(s: State, t: State, f: FutId)
    requires f < |s.cells| && t == s.(tasks := t.tasks, collects := t.collects)
    requires forall x: Task | About(x, f) :: multiset(t.tasks)[x] == multiset(s.tasks)[x]
    ensures Kept(s, t, f)
  {
  }

  lemma KeptAdd(s: State, x: Task, f: FutId)
    requires f < |s.cells| && !About(x, f)
    ensures Kept(s, AddTask(s, x), f)
  {
    KeptTasks(s, AddTask(s, x), f);
  }

  lemma KeptBecome(s: State, t: nat, x: Task, f: FutId)
    requires f < |s.cells| && t < |s.tasks| && !About(s.tasks[t], f) && !About(x, f)
    ensures Kept(s, Become(s, t, x), f)
  {
    KeptTasks(s, Become(s, t, x), f);
  }

  /** A cell whose registrations are the same and whose calls do not complete `f`. */
  lemma KeptPut(s: State, h: FutId, cell: Cell, f: FutId)
    requires f < |s.cells| && h < |s.cells| && cell.regs == s.cells[h].regs
    requires forall k | k in cell.ran && k !in s.cells[h].ran :: !CompletesAt(s, f, h, k)
    requires h == f ==> cell.origin == s.cells[f].origin && cell.associated == s.cells[f].associated
                        && cell.outcome == s.cells[f].outcome && cell.cause == s.cells[f].cause
    ensures Kept(s, Put(s, h, cell), f)
  {
  }

  lemma KeptSettle(s: State, h: FutId, o: Outcome, cause: Cause, f: FutId)
    requires f < |s.cells| && h < |s.cells| && (h == f ==> Settled(s, f))
    ensures Kept(s, Settle(s, h, o, cause), f)
  {
    if s.cells[h].outcome.None? {
      var after := s.cells[h].(outcome := Some(o), cause := cause, frozen := |s.cells[h].regs|);
      KeptPut(s, h, after, f);
      KeptAdd(Put(s, h, after), Drain(h, 0), f);
      KeptTrans(s, Put(s, h, after), Settle(s, h, o, cause), f);
    }
  }

  /** One more registration that does not complete `f`. */
  lemma KeptRegister(s: State, h: FutId, cell: Cell, cb: Callback, f: FutId)
    requires f < |s.cells| && h < |s.cells| && cb != Complete(f) && |s.cells[h].regs| !in s.cells[h].ran
    requires cell == s.cells[h].(callbacks := cell.callbacks, regs := s.cells[h].regs + [cb])
    ensures Kept(s, Put(s, h, cell), f)
  {
  }

  lemma KeptOnComplete(s: State, h: FutId, cb: Callback, f: FutId)
    requires f < |s.cells| && h < |s.cells| && cb != Complete(f) && |s.cells[h].regs| !in s.cells[h].ran
    ensures Kept(s, OnComplete(s, h, cb), f)
  {
    var cell := s.cells[h];
    if cell.outcome.None? {
      KeptRegister(s, h, cell.(callbacks := cell.callbacks + [cb], regs := cell.regs + [cb]), cb, f);
    } else {
      var t := Put(s, h, cell.(regs := cell.regs + [cb]));
      KeptRegister(s, h, cell.(regs := cell.regs + [cb]), cb, f);
      KeptAdd(t, Call(h, |cell.regs|, cb), f);
      KeptTrans(s, t, OnComplete(s, h, cb), f);
    }
  }

  lemma KeptPromise(s: State, h: FutId, o: Outcome, f: FutId)
    requires f < |s.cells| && h < |s.cells| && h != f
    ensures Kept(s, PromiseSet(s, h, o), f)
  {
    if MayOwnerSet(s.cells[h], o) { KeptAdd(s, SetTo(h, o), f); } else { KeptTasks(s, s, f); }
  }

  // --- callbacks ----------------------------------------------------------

  /** The callback does not set, associate or complete `f`. */
  ghost predicate Elsewhere(s: State, cb: Callback, f: FutId) {
    match cb
    case User(_) => true
    case Complete(d) => d != f
    case Then(_, d) => d != f
    case Thenf(_, d) => d != f
    case Waited(c, _) => c < |s.collects| && s.collects[c].result != f
    case Discarded(_) => true
  }

  lemma KeptAct(s: State, o: Outcome, cb: Callback, g: FutId, f: FutId)
    requires InHeap(s, cb) && f < |s.cells| && Elsewhere(s, cb, f)
    ensures Kept(s, Act(s, o, cb, g), f)
  {
    match cb
    case User(_) => KeptTasks(s, s, f);
    case Complete(d) => KeptSettle(s, d, o, Owner, f);
    case Then(k, d) =>
      if o.Failed? {
        KeptPromise(s, d, o, f);
      } else {
        var t := Put(s, d, s.cells[d].(called := true));
        KeptPut(s, d, s.cells[d].(called := true), f);
        KeptPromise(t, d, Ok(s.stage(k, o.v)), f);
        KeptTrans(s, t, Act(s, o, cb, g), f);
      }
    case Thenf(k, d) =>
      if o.Failed? {
        KeptPromise(s, d, o, f);
      } else {
        var t := Put(s, d, s.cells[d].(called := true, assoc := Asked(g)));
        KeptPut(s, d, s.cells[d].(called := true, assoc := Asked(g)), f);
        KeptAdd(t, Associating(d, g), f);
        KeptTrans(s, t, Act(s, o, cb, g), f);
      }
    case Waited(c, j) => if o.Failed? { KeptPromise(s, s.collects[c].result, o, f); } else { KeptWaited(s, c, j, f); }
    case Discarded(c) => KeptAdd(s, Discarding(c, 0), f);
  }

  lemma KeptWaited(s: State, c: nat, j: nat, f: FutId)
    requires c < |s.collects| && s.collects[c].result < |s.cells| && f < |s.cells| && s.collects[c].result != f
    ensures Kept(s, WaitedOk(s, c, j), f)
  {
    var join := s.collects[c];
    var t := s.(collects := s.collects[c := join.(ready := join.ready + 1, doneOk := join.doneOk + {j})]);
    KeptTasks(s, t, f);
    if join.ready + 1 == |join.inputs| {
      KeptPromise(t, join.result, Ok(Gather(s, join.inputs)), f);
      KeptTrans(s, t, WaitedOk(s, c, j), f);
    }
  }

  /** A registered callback concerns a root future only by completing it. */
  lemma RootElsewhere(s: State, h: FutId, k: nat, f: FutId)
    requires AllInv(s) && f < |s.cells| && s.cells[f].origin.Root? && h < |s.cells| && k < |s.cells[h].regs|
    requires s.cells[h].regs[k] != Complete(f)
    ensures InHeap(s, s.cells[h].regs[k]) && Elsewhere(s, s.cells[h].regs[k], f)
  {
    assert Cells.CellOk(s, h);
    assert ThenChains.RegOk(s, h, k) && Collects.RegOk(s, h, k);
    var cb := s.cells[h].regs[k];
    if cb.Waited? { assert Collects.CollectOk(s, None, cb.c); }
  }

  // --- steps --------------------------------------------------------------

  /** The step of thread `t` is about `f`, or completes it. */
  ghost predicate Concerns(s: State, t: nat, f: FutId) {
    t < |s.tasks| && (About(s.tasks[t], f) || Due(s, t) == Complete(f))
  }

  lemma KeptNext(s: State, t: nat, f: FutId)
    requires t < |s.tasks| && f < |s.cells| && s.tasks[t].Drain? && s.tasks[t].f < |s.cells|
    requires !CompletesAt(s, f, s.tasks[t].f, s.tasks[t].i)
    ensures Kept(s, TakeNext(s, t), f)
  {
    var x := s.tasks[t];
    var cell := s.cells[x.f];
    KeptRan(s, t, cell.(started := cell.started + 1, ran := cell.ran + [x.i]), x.i, Drain(x.f, x.i + 1), f);
  }

  /** Registration `k` of the future of a thread is called, and the thread goes on. */
  lemma KeptRan(s: State, t: nat, after: Cell, k: nat, y: Task, f: FutId)
    requires t < |s.tasks| && f < |s.cells| && (s.tasks[t].Drain? || s.tasks[t].Call?) && s.tasks[t].f < |s.cells|
    requires after == s.cells[s.tasks[t].f].(started := after.started, ran := s.cells[s.tasks[t].f].ran + [k])
    requires !CompletesAt(s, f, s.tasks[t].f, k) && !About(y, f)
    ensures Kept(s, Become(Put(s, s.tasks[t].f, after), t, y), f)
  {
    var u := Put(s, s.tasks[t].f, after);
    KeptPut(s, s.tasks[t].f, after, f);
    KeptBecome(u, t, y, f);
    KeptTrans(s, u, Become(u, t, y), f);
  }

  lemma KeptLate(s: State, t: nat, f: FutId)
    requires t < |s.tasks| && f < |s.cells| && s.tasks[t].Call? && s.tasks[t].f < |s.cells|
    requires !CompletesAt(s, f, s.tasks[t].f, s.tasks[t].k)
    ensures Kept(s, TakeLate(s, t), f)
  {
    var x := s.tasks[t];
    KeptRan(s, t, s.cells[x.f].(ran := s.cells[x.f].ran + [x.k]), x.k, Done, f);
  }

  lemma KeptClear(s: State, t: nat, f: FutId)
    requires t < |s.tasks| && f < |s.cells| && s.tasks[t].Drain? && s.tasks[t].f < |s.cells|
    ensures Kept(s, Clear(s, t), f)
  {
    var h := s.tasks[t].f;
    var after := s.cells[h].(callbacks := [], drained := true);
    KeptPut(s, h, after, f);
    KeptBecome(Put(s, h, after), t, Done, f);
    KeptTrans(s, Put(s, h, after), Clear(s, t), f);
  }

  /** The callback that a thread is about to run is a registration, and leaves `f` alone. */
  lemma DueElsewhere(s: State, t: nat, f: FutId)
    requires AllInv(s) && t < |s.tasks| && f < |s.cells| && s.cells[f].origin.Root? && Due(s, t) != Complete(f)
    requires s.tasks[t].Drain? || s.tasks[t].Call?
    ensures s.tasks[t].f < |s.cells| && InHeap(s, Due(s, t)) && Elsewhere(s, Due(s, t), f)
    ensures s.tasks[t].Drain? && s.tasks[t].i < |s.cells[s.tasks[t].f].callbacks| ==>
              !CompletesAt(s, f, s.tasks[t].f, s.tasks[t].i)
    ensures s.tasks[t].Call? ==> !CompletesAt(s, f, s.tasks[t].f, s.tasks[t].k)
  {
    var x := s.tasks[t];
    assert x in s.tasks && Cells.TaskOk(s, x);
    assert Cells.CellOk(s, x.f);
    if x.Call? { RootElsewhere(s, x.f, x.k, f); }
    else if x.i < |s.cells[x.f].callbacks| {
      assert s.cells[x.f].regs[x.i] == Due(s, t);
      RootElsewhere(s, x.f, x.i, f);
    }
  }

  /** A step that runs a callback which does not complete the root future `f`. */
  lemma KeptCall(s: State, t: nat, g: FutId, f: FutId)
    requires AllInv(s) && TaskEnabled(s, t, g) && (s.tasks[t].Drain? || s.tasks[t].Call?)
    requires f < |s.cells| && s.cells[f].origin.Root? && !Concerns(s, t, f)
    ensures Kept(s, TaskStep(s, t, g), f)
  {
    DueElsewhere(s, t, f);
    KeptCalled(s, t, g, f);
  }

  lemma KeptCalled(s: State, t: nat, g: FutId, f: FutId)
    requires TaskEnabled(s, t, g) && (s.tasks[t].Drain? || s.tasks[t].Call?) && f < |s.cells|
    requires InHeap(s, Due(s, t)) && Elsewhere(s, Due(s, t), f)
    requires s.tasks[t].Drain? && s.tasks[t].i < |s.cells[s.tasks[t].f].callbacks| ==>
               !CompletesAt(s, f, s.tasks[t].f, s.tasks[t].i)
    requires s.tasks[t].Call? ==> !CompletesAt(s, f, s.tasks[t].f, s.tasks[t].k)
    ensures Kept(s, TaskStep(s, t, g), f)
  {
    var x := s.tasks[t];
    if x.Drain? && x.i >= |s.cells[x.f].callbacks| {
      KeptClear(s, t, f);
    } else {
      var u := if x.Drain? then TakeNext(s, t) else TakeLate(s, t);
      if x.Drain? { KeptNext(s, t, f); } else { KeptLate(s, t, f); }
      KeptAct(u, s.cells[x.f].outcome.value, Due(s, t), g, f);
      KeptTrans(s, u, TaskStep(s, t, g), f);
    }
  }

  lemma KeptAssociating(s: State, t: nat, f: FutId)
    requires TaskEnabled(s, t, 0) && s.tasks[t].Associating? && f < |s.cells| && s.tasks[t].dst != f
    ensures Kept(s, Associate(s, t), f)
  {
    var x := s.tasks[t];
    var cell := s.cells[x.dst];
    var won := cell.outcome.None? && !cell.associated;
    var after := if won then cell.(associated := true, assoc := Linking(x.g)) else cell.(assoc := Dropped(x.g));
    KeptPut(s, x.dst, after, f);
    KeptBecome(Put(s, x.dst, after), t, if won then Link(x.dst, x.g) else Done, f);
    KeptTrans(s, Put(s, x.dst, after), Associate(s, t), f);
  }

  lemma KeptLinking(s: State, t: nat, f: FutId)
    requires TaskEnabled(s, t, 0) && s.tasks[t].Link? && f < |s.cells| && s.tasks[t].dst != f
    requires |s.cells[s.tasks[t].g].regs| !in s.cells[s.tasks[t].g].ran
    ensures Kept(s, LinkTo(s, t), f)
  {
    var x := s.tasks[t];
    var after := s.cells[x.dst].(assoc := Linked(x.g, |s.cells[x.g].regs|));
    var u := Become(Put(s, x.dst, after), t, Done);
    KeptMoved(s, t, x.dst, after, f);
    KeptOnComplete(u, x.g, Complete(x.dst), f);
    KeptTrans(s, u, LinkTo(s, t), f);
  }

  lemma KeptMoved(s: State, t: nat, h: FutId, after: Cell, f: FutId)
    requires t < |s.tasks| && f < |s.cells| && h < |s.cells| && h != f && !About(s.tasks[t], f)
    requires after == s.cells[h].(assoc := after.assoc)
    ensures Kept(s, Become(Put(s, h, after), t, Done), f)
  {
    KeptPut(s, h, after, f);
    KeptBecome(Put(s, h, after), t, Done, f);
    KeptTrans(s, Put(s, h, after), Become(Put(s, h, after), t, Done), f);
  }

  lemma KeptAssociate(s: State, t: nat, f: FutId)
    requires Cells.Inv(s) && TaskEnabled(s, t, 0) && (s.tasks[t].Associating? || s.tasks[t].Link?)
    requires f < |s.cells| && !Concerns(s, t, f)
    ensures Kept(s, TaskStep(s, t, 0), f)
  {
    if s.tasks[t].Associating? {
      KeptAssociating(s, t, f);
    } else {
      NotRunYet(s, s.tasks[t].g);
      KeptLinking(s, t, f);
    }
  }

  /** A registration that does not exist yet has not been called. */
  lemma NotRunYet(s: State, h: FutId)
    requires Cells.Inv(s) && h < |s.cells|
    ensures |s.cells[h].regs| !in s.cells[h].ran
  {
    assert Cells.CellOk(s, h);
  }

  lemma KeptDiscard(s: State, t: nat, f: FutId)
    requires TaskEnabled(s, t, 0) && s.tasks[t].Discarding? && f < |s.cells|
    requires var join, j := s.collects[s.tasks[t].c], s.tasks[t].j;
             j < |join.inputs| && join.inputs[j] == f ==> Settled(s, f)
    ensures Kept(s, DiscardNext(s, t), f)
  {
    var c, j := s.tasks[t].c, s.tasks[t].j;
    var join := s.collects[c];
    if j < |join.inputs| {
      var u := Settle(s, join.inputs[j], Failed(KERROR), Discard(c));
      KeptSettle(s, join.inputs[j], Failed(KERROR), Discard(c), f);
      KeptBecome(u, t, Discarding(c, j + 1), f);
      KeptTrans(s, u, DiscardNext(s, t), f);
    } else {
      KeptBecome(s, t, Done, f);
    }
  }

  lemma KeptEntered(s: State, t: nat, h: FutId, updated: Collected, cb: Callback, y: Task, f: FutId)
    requires t < |s.tasks| && s.tasks[t].Collecting? && s.tasks[t].c < |s.collects| && (y.Done? || y.Collecting?)
    requires f < |s.cells| && h < |s.cells| && cb != Complete(f) && |s.cells[h].regs| !in s.cells[h].ran
    ensures Kept(s, OnComplete(Become(s.(collects := s.collects[s.tasks[t].c := updated]), t, y), h, cb), f)
  {
    var u := Become(s.(collects := s.collects[s.tasks[t].c := updated]), t, y);
    KeptTasks(s, u, f);
    KeptOnComplete(u, h, cb, f);
    KeptTrans(s, u, OnComplete(u, h, cb), f);
  }

  /** What `Collect` registers next, and where. */
  ghost function Entry(s: State, t: nat): (FutId, Collected, Callback, Task)
    requires TaskEnabled(s, t, 0) && s.tasks[t].Collecting?
  {
    var c, j := s.tasks[t].c, s.tasks[t].j;
    var join := s.collects[c];
    if j < |join.inputs| then
      var h := join.inputs[j];
      (h, join.(at := join.at + [|s.cells[h].regs|]), Waited(c, j), Collecting(c, j + 1))
    else
      (join.result, join.(discardAt := Some(|s.cells[join.result].regs|)), Discarded(c), Done)
  }

  lemma NextEntry(s: State, t: nat)
    requires TaskEnabled(s, t, 0) && s.tasks[t].Collecting?
    ensures var (h, updated, cb, y) := Entry(s, t);
            && h < |s.cells| && !cb.Complete? && (y.Done? || y.Collecting?)
            && CollectNext(s, t) == OnComplete(Become(s.(collects := s.collects[s.tasks[t].c := updated]), t, y), h, cb)
  {
  }

  lemma KeptCollecting(s: State, t: nat, f: FutId)
    requires Cells.Inv(s) && TaskEnabled(s, t, 0) && s.tasks[t].Collecting? && f < |s.cells|
    ensures Kept(s, CollectNext(s, t), f)
  {
    var (h, updated, cb, y) := Entry(s, t);
    NextEntry(s, t);
    NotRunYet(s, h);
    KeptEntered(s, t, h, updated, cb, y, f);
  }

  lemma NotDiscarded(s: State, t: nat, g: FutId, f: FutId)
    requires TaskEnabled(s, t, g) && s.tasks[t].Discarding? && (!Offering(s, Step(t, g), f) || Settled(s, f))
    ensures var join, j := s.collects[s.tasks[t].c], s.tasks[t].j;
            j < |join.inputs| && join.inputs[j] == f ==> Settled(s, f)
  {
    assert !Offering(s, Step(t, g), f) ==> !Offers(s, Step(t, g), f, Failed(KERROR));
  }

  lemma KeptTask(s: State, t: nat, g: FutId, f: FutId)
    requires AllInv(s) && TaskEnabled(s, t, g) && f < |s.cells| && s.cells[f].origin.Root? && !Concerns(s, t, f)
    requires !Offering(s, Step(t, g), f) || Settled(s, f)
    ensures Kept(s, TaskStep(s, t, g), f)
  {
    match s.tasks[t]
    case Drain(_, _) => KeptCall(s, t, g, f);
    case Call(_, _, _) => KeptCall(s, t, g, f);
    case SetTo(d, o) =>
      KeptBecome(s, t, Done, f);
      KeptSettle(Become(s, t, Done), d, o, Owner, f);
      KeptTrans(s, Become(s, t, Done), TaskStep(s, t, g), f);
    case Associating(_, _) => KeptAssociate(s, t, f);
    case Link(_, _) => KeptAssociate(s, t, f);
    case Discarding(_, _) =>
      NotDiscarded(s, t, g, f);
      KeptDiscard(s, t, f);
    case Collecting(_, _) => KeptCollecting(s, t, f);
  }

  lemma KeptAlloc(s: State, origin: Origin, f: FutId)
    requires f < |s.cells|
    ensures Kept(s, Alloc(s, origin), f)
  {
  }

  lemma KeptThen(s: State, e: Event, f: FutId)
    requires Enabled(s, e) && e.CallThen? && f < |s.cells| && |s.cells[e.f].regs| !in s.cells[e.f].ran
    ensures Kept(s, Apply(s, e), f)
  {
    var origin := ThenOf(e.f, e.k, e.async, |s.cells[e.f].regs|);
    KeptAlloc(s, origin, f);
    KeptOnComplete(Alloc(s, origin), e.f, ThenCallback(e.k, e.async, |s.cells|), f);
    KeptTrans(s, Alloc(s, origin), Apply(s, e), f);
  }

  lemma KeptCollect(s: State, e: Event, f: FutId)
    requires Enabled(s, e) && e.CallCollect? && f < |s.cells|
    ensures Kept(s, Apply(s, e), f)
  {
    var origin := if e.inputs == [] then Root else CollectOf(|s.collects|);
    KeptAlloc(s, origin, f);
    if e.inputs == [] { KeptSettle(Alloc(s, Root), |s.cells|, Ok(List([])), Owner, f); }
    else { KeptTasks(Alloc(s, origin), Apply(s, e), f); }
    KeptTrans(s, Alloc(s, origin), Apply(s, e), f);
  }

  /** The event is one on the promise of `f`. */
  ghost predicate OnPromise(e: Event, f: FutId) {
    (e.SetPromise? || e.JoinPromise?) && e.f == f
  }

  /** An event that is not about the root future `f` and hands it nothing leaves it alone. */
  lemma KeptStep(s: State, e: Event, f: FutId)
    requires AllInv(s) && Enabled(s, e) && f < |s.cells| && s.cells[f].origin.Root?
    requires !OnPromise(e, f) && (e.Step? ==> !Concerns(s, e.t, f)) && (!Offering(s, e, f) || Settled(s, f))
    ensures Kept(s, Apply(s, e), f)
  {
    match e
    case New => KeptAlloc(s, Root, f);
    case Register(h, tag) =>
      NotRunYet(s, h);
      KeptOnComplete(s, h, User(tag), f);
    case SetFuture(h, o) =>
      assert h == f ==> Offers(s, e, f, o);
      KeptSettle(s, h, o, Outside, f);
    case SetPromise(h, o) => KeptPromise(s, h, o, f);
    case JoinPromise(h, g) => KeptAdd(s, Associating(h, g), f);
    case CallThen(h, _, _) =>
      NotRunYet(s, h);
      KeptThen(s, e, f);
    case CallCollect(_) => KeptCollect(s, e, f);
    case Step(t, g) => KeptTask(s, t, g, f);
  }
}
