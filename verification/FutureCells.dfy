/** Each registered callback is started exactly once: never while its future is
    unsettled, pending ones in registration order, and the callback list is frozen from
    the moment the future is settled. */
module FutureCells {
  import opened Basics
  import opened Futures

  /** The started registrations that were pending when the future was settled. */
  ghost function Below(r: seq<nat>, n: nat): seq<nat> {
    if r == [] then []
    else Below(r[..|r| - 1], n) + if r[|r| - 1] < n then [r[|r| - 1]] else []
  }

  ghost function Upto(n: nat): seq<nat> {
    seq(n, i => i)
  }

  lemma BelowAppend(r: seq<nat>, n: nat, x: nat)
    ensures Below(r + [x], n) == Below(r, n) + if x < n then [x] else []
  {
    assert (r + [x])[..|r|] == r;
  }

  /** Registration `k` of future `f` is either still to come or has been started once. */
  ghost predicate Once(s: State, f: FutId, k: nat)
    requires f < |s.cells| && k < |s.cells[f].regs|
  {
    var cell := s.cells[f];
    multiset(cell.ran)[k]
    + (if cell.outcome.None? || cell.started <= k < cell.frozen then 1 else 0)
    + multiset(s.tasks)[Call(f, k, cell.regs[k])] == 1
  }

  ghost predicate ListOk(cell: Cell) {
    && (forall k | k in cell.ran :: k < |cell.regs|)
    && (cell.outcome.None? ==> cell.callbacks == cell.regs && cell.ran == [] && cell.started == 0 && !cell.drained)
    && (cell.outcome.Some? ==>
          && ValidOutcome(cell.outcome.value)
          && cell.started <= cell.frozen <= |cell.regs|
          && cell.callbacks == (if cell.drained then [] else cell.regs[..cell.frozen])
          && (cell.drained ==> cell.started == cell.frozen)
          && Below(cell.ran, cell.frozen) == Upto(cell.started))
  }

  /** A settled future has one thread running its callbacks until the list is cleared. */
  ghost predicate OneDrainer(s: State, f: FutId)
    requires f < |s.cells|
  {
    var cell := s.cells[f];
    multiset(s.tasks)[Drain(f, cell.started)] == if cell.outcome.Some? && !cell.drained then 1 else 0
  }

  ghost predicate CellOk(s: State, f: FutId)
    requires f < |s.cells|
  {
    && ListOk(s.cells[f])
    && OneDrainer(s, f)
    && (forall k | 0 <= k < |s.cells[f].regs| :: Once(s, f, k) && InHeap(s, s.cells[f].regs[k]))
  }

  ghost predicate InputsOk(s: State, c: nat)
    requires c < |s.collects|
  {
    var join := s.collects[c];
    join.result < |s.cells| && forall j | 0 <= j < |join.inputs| :: join.inputs[j] < |s.cells|
  }

  ghost predicate TaskOk(s: State, x: Task) {
    match x
    case Done => true
    case Drain(f, i) =>
      f < |s.cells| && s.cells[f].outcome.Some? && i == s.cells[f].started && !s.cells[f].drained
    case Call(f, k, cb) =>
      && f < |s.cells| && s.cells[f].outcome.Some?
      && s.cells[f].frozen <= k < |s.cells[f].regs| && cb == s.cells[f].regs[k]
    case SetTo(dst, o) => dst < |s.cells| && ValidOutcome(o)
    case Associating(dst, g) => dst < |s.cells| && g < |s.cells|
    case Link(dst, g) => dst < |s.cells| && g < |s.cells|
    case Discarding(c, j) => c < |s.collects|
    case Collecting(c, j) => c < |s.collects|
  }

  ghost predicate Inv(s: State) {
    && (forall f | 0 <= f < |s.cells| :: CellOk(s, f))
    && (forall c | 0 <= c < |s.collects| :: InputsOk(s, c))
    && (forall x | x in s.tasks :: TaskOk(s, x))
  }

  predicate Quiet(x: Task) {
    !x.Drain? && !x.Call?
  }

  // --- each critical section keeps the invariant --------------------------

  /** Tasks other than callback loops and direct calls do not matter to the count. */
  lemma AddQuiet(s: State, x: Task)
    requires Inv(s) && Quiet(x) && TaskOk(s, x)
    ensures Inv(AddTask(s, x))
  {
    var u := AddTask(s, x);
    forall f | 0 <= f < |u.cells| ensures CellOk(u, f) {
      assert CellOk(s, f);
      forall k | 0 <= k < |u.cells[f].regs| ensures Once(u, f, k) { assert Once(s, f, k); }
    }
    forall c | 0 <= c < |u.collects| ensures InputsOk(u, c) { assert InputsOk(s, c); }
    forall y | y in u.tasks ensures TaskOk(u, y) { assert y == x || y in s.tasks; }
  }

  lemma BecomeQuiet(s: State, t: nat, x: Task)
    requires Inv(s) && t < |s.tasks| && Quiet(s.tasks[t]) && Quiet(x) && TaskOk(s, x)
    ensures Inv(Become(s, t, x))
  {
    var u := Become(s, t, x);
    forall f | 0 <= f < |u.cells| ensures CellOk(u, f) {
      assert CellOk(s, f);
      forall k | 0 <= k < |u.cells[f].regs| ensures Once(u, f, k) { assert Once(s, f, k); }
    }
    forall c | 0 <= c < |u.collects| ensures InputsOk(u, c) { assert InputsOk(s, c); }
    forall y | y in u.tasks ensures TaskOk(u, y) { assert y == x || y in s.tasks; }
  }

  /** Cells that differ only in fields the count does not read. */
  ghost predicate SameList(cell: Cell, after: Cell) {
    after == cell.(associated := after.associated, assoc := after.assoc, called := after.called)
  }

  lemma PutQuiet(s: State, f: FutId, after: Cell)
    requires Inv(s) && f < |s.cells| && SameList(s.cells[f], after)
    ensures Inv(Put(s, f, after))
  {
    var u := Put(s, f, after);
    forall g | 0 <= g < |u.cells| ensures CellOk(u, g) {
      assert CellOk(s, g);
      forall k | 0 <= k < |u.cells[g].regs| ensures Once(u, g, k) && InHeap(u, u.cells[g].regs[k]) {
        assert Once(s, g, k);
      }
    }
    forall c | 0 <= c < |u.collects| ensures InputsOk(u, c) { assert InputsOk(s, c); }
    forall y | y in u.tasks ensures TaskOk(u, y) { assert TaskOk(s, y); }
  }

  lemma CollectsQuiet(s: State, u: State)
    requires Inv(s) && u == s.(collects := u.collects) && |s.collects| <= |u.collects|
    requires forall c | 0 <= c < |u.collects| :: InputsOk(u, c)
    ensures Inv(u)
  {
    forall g | 0 <= g < |u.cells| ensures CellOk(u, g) {
      assert CellOk(s, g);
      forall k | 0 <= k < |u.cells[g].regs| ensures Once(u, g, k) && InHeap(u, u.cells[g].regs[k]) {
        assert Once(s, g, k) && InHeap(s, s.cells[g].regs[k]);
        if u.cells[g].regs[k].Waited? { assert InputsOk(u, u.cells[g].regs[k].c); }
      }
    }
    forall y | y in u.tasks ensures TaskOk(u, y) { assert TaskOk(s, y); }
  }

  lemma AllocKeeps(s: State, origin: Origin)
    requires Inv(s)
    ensures Inv(Alloc(s, origin))
  {
    var u := Alloc(s, origin);
    var n := |s.cells|;
    forall f | 0 <= f < |u.cells| ensures CellOk(u, f) {
      if f < n {
        assert CellOk(s, f);
        forall k | 0 <= k < |u.cells[f].regs| ensures Once(u, f, k) && InHeap(u, u.cells[f].regs[k]) {
          assert Once(s, f, k) && InHeap(s, s.cells[f].regs[k]);
        }
      } else {
        assert !TaskOk(s, Drain(n, 0));
      }
    }
    forall c | 0 <= c < |u.collects| ensures InputsOk(u, c) { assert InputsOk(s, c); }
    forall y | y in u.tasks ensures TaskOk(u, y) { assert TaskOk(s, y); }
  }

  /** A step on the callbacks of `f` leaves every other future alone. */
  lemma OtherCells(s: State, u: State, f: FutId)
    requires Inv(s) && f < |s.cells|
    requires |u.cells| == |s.cells| && u == s.(cells := s.cells[f := u.cells[f]], tasks := u.tasks)
    requires forall x: Task | (x.Drain? || x.Call?) && x.f != f :: multiset(u.tasks)[x] == multiset(s.tasks)[x]
    requires CellOk(u, f)
    requires forall x | x in u.tasks :: TaskOk(u, x)
    ensures Inv(u)
  {
    forall g | 0 <= g < |u.cells| ensures CellOk(u, g) {
      if g != f {
        assert CellOk(s, g);
        forall k | 0 <= k < |u.cells[g].regs| ensures Once(u, g, k) && InHeap(u, u.cells[g].regs[k]) {
          assert Once(s, g, k) && InHeap(s, s.cells[g].regs[k]);
        }
      }
    }
    forall c | 0 <= c < |u.collects| ensures InputsOk(u, c) { assert InputsOk(s, c); }
  }

  lemma SettleKeeps(s: State, f: FutId, o: Outcome, cause: Cause)
    requires Inv(s) && f < |s.cells| && ValidOutcome(o)
    ensures Inv(Settle(s, f, o, cause))
  {
    if s.cells[f].outcome.None? {
      var u := Settle(s, f, o, cause);
      assert CellOk(s, f);
      forall k | 0 <= k < |u.cells[f].regs| ensures Once(u, f, k) && InHeap(u, u.cells[f].regs[k]) {
        assert Once(s, f, k) && InHeap(s, s.cells[f].regs[k]);
      }
      assert u.cells[f].regs[..|u.cells[f].regs|] == u.cells[f].regs;
      forall x | x in u.tasks ensures TaskOk(u, x) {
        if x != Drain(f, 0) { assert x in s.tasks && TaskOk(s, x); }
      }
      OtherCells(s, u, f);
    }
  }

  lemma OnCompletePending(s: State, f: FutId, cb: Callback)
    requires Inv(s) && f < |s.cells| && InHeap(s, cb) && s.cells[f].outcome.None?
    ensures Inv(OnComplete(s, f, cb))
  {
    var u := OnComplete(s, f, cb);
    var n := |s.cells[f].regs|;
    assert CellOk(s, f);
    forall g | 0 <= g < |u.cells| ensures CellOk(u, g) {
      assert CellOk(s, g);
      forall k | 0 <= k < |u.cells[g].regs| ensures Once(u, g, k) && InHeap(u, u.cells[g].regs[k]) {
        if g == f && k == n {
          assert !TaskOk(s, Call(f, n, cb));
        } else {
          assert Once(s, g, k) && InHeap(s, s.cells[g].regs[k]);
        }
      }
    }
    forall c | 0 <= c < |u.collects| ensures InputsOk(u, c) { assert InputsOk(s, c); }
    forall y | y in u.tasks ensures TaskOk(u, y) { assert TaskOk(s, y); }
  }

  lemma OnCompleteLate(s: State, f: FutId, cb: Callback)
    requires Inv(s) && f < |s.cells| && InHeap(s, cb) && s.cells[f].outcome.Some?
    ensures Inv(OnComplete(s, f, cb))
  {
    var u := OnComplete(s, f, cb);
    var n := |s.cells[f].regs|;
    assert CellOk(s, f);
    forall k | 0 <= k < |u.cells[f].regs| ensures Once(u, f, k) && InHeap(u, u.cells[f].regs[k]) {
      if k == n {
        assert !TaskOk(s, Call(f, n, cb));
        assert n !in s.cells[f].ran;
      } else {
        assert Once(s, f, k) && InHeap(s, s.cells[f].regs[k]);
      }
    }
    forall x | x in u.tasks ensures TaskOk(u, x) {
      if x != Call(f, n, cb) { assert x in s.tasks && TaskOk(s, x); }
    }
    OtherCells(s, u, f);
  }

  /** A registration either joins the list of an unsettled future or is called directly. */
  lemma OnCompleteKeeps(s: State, f: FutId, cb: Callback)
    requires Inv(s) && f < |s.cells| && InHeap(s, cb)
    ensures Inv(OnComplete(s, f, cb))
  {
    if s.cells[f].outcome.None? { OnCompletePending(s, f, cb); } else { OnCompleteLate(s, f, cb); }
  }

  // --- the callback loop --------------------------------------------------

  lemma TakeNextKeeps(s: State, t: nat)
    requires Inv(s) && t < |s.tasks| && s.tasks[t].Drain?
    requires s.tasks[t].f < |s.cells| && s.tasks[t].i < |s.cells[s.tasks[t].f].callbacks|
    ensures Inv(TakeNext(s, t))
  {
    var u, f, i := TakeNext(s, t), s.tasks[t].f, s.tasks[t].i;
    assert s.tasks[t] in s.tasks && TaskOk(s, Drain(f, i)) && CellOk(s, f);
    assert !TaskOk(s, Drain(f, i + 1));
    TakeNextList(s.cells[f], i);
    assert OneDrainer(u, f);
    forall k | 0 <= k < |u.cells[f].regs| ensures Once(u, f, k) && InHeap(u, u.cells[f].regs[k]) {
      assert Once(s, f, k) && InHeap(s, s.cells[f].regs[k]);
    }
    TakeNextTasks(s, t);
    OtherCells(s, u, f);
  }

  lemma TakeNextList(cell: Cell, i: nat)
    requires ListOk(cell) && cell.outcome.Some? && i == cell.started && i < |cell.callbacks|
    ensures ListOk(cell.(started := cell.started + 1, ran := cell.ran + [i]))
  {
    BelowAppend(cell.ran, cell.frozen, i);
    assert Upto(i) + [i] == Upto(i + 1);
  }

  lemma TakeNextTasks(s: State, t: nat)
    requires Inv(s) && t < |s.tasks| && s.tasks[t].Drain? && s.tasks[t].f < |s.cells|
    ensures forall x | x in TakeNext(s, t).tasks :: TaskOk(TakeNext(s, t), x)
  {
    var u, f, i := TakeNext(s, t), s.tasks[t].f, s.tasks[t].i;
    assert s.tasks[t] in s.tasks && TaskOk(s, Drain(f, i)) && CellOk(s, f);
    assert multiset(u.tasks)[Drain(f, i)] == 0;
    assert Drain(f, i) !in u.tasks;
    forall x | x in u.tasks ensures TaskOk(u, x) {
      if x != Drain(f, i + 1) { assert x in s.tasks && TaskOk(s, x); }
    }
  }

  lemma ClearKeeps(s: State, t: nat)
    requires Inv(s) && t < |s.tasks| && s.tasks[t].Drain?
    requires s.tasks[t].f < |s.cells| && s.tasks[t].i >= |s.cells[s.tasks[t].f].callbacks|
    ensures Inv(Clear(s, t))
  {
    var u, f, i := Clear(s, t), s.tasks[t].f, s.tasks[t].i;
    assert s.tasks[t] in s.tasks && TaskOk(s, Drain(f, i)) && CellOk(s, f);
    forall k | 0 <= k < |u.cells[f].regs| ensures Once(u, f, k) && InHeap(u, u.cells[f].regs[k]) {
      assert Once(s, f, k) && InHeap(s, s.cells[f].regs[k]);
    }
    assert multiset(u.tasks)[Drain(f, i)] == 0;
    assert Drain(f, i) !in u.tasks;
    forall x | x in u.tasks ensures TaskOk(u, x) {
      if x != Done { assert x in s.tasks && TaskOk(s, x); }
    }
    OtherCells(s, u, f);
  }

  lemma TakeLateKeeps(s: State, t: nat)
    requires Inv(s) && t < |s.tasks| && s.tasks[t].Call? && s.tasks[t].f < |s.cells|
    ensures Inv(TakeLate(s, t))
  {
    var u, f, k := TakeLate(s, t), s.tasks[t].f, s.tasks[t].k;
    assert s.tasks[t] in s.tasks && TaskOk(s, s.tasks[t]) && CellOk(s, f);
    BelowAppend(s.cells[f].ran, s.cells[f].frozen, k);
    TakeLateOnce(s, t);
    forall x | x in u.tasks ensures TaskOk(u, x) {
      if x != Done { assert x in s.tasks && TaskOk(s, x); }
    }
    OtherCells(s, u, f);
  }

  lemma TakeLateOnce(s: State, t: nat)
    requires Inv(s) && t < |s.tasks| && s.tasks[t].Call? && s.tasks[t].f < |s.cells|
    ensures var u, f := TakeLate(s, t), s.tasks[t].f;
            forall m | 0 <= m < |u.cells[f].regs| :: Once(u, f, m) && InHeap(u, u.cells[f].regs[m])
  {
    var u, f, k := TakeLate(s, t), s.tasks[t].f, s.tasks[t].k;
    assert s.tasks[t] in s.tasks && TaskOk(s, s.tasks[t]) && CellOk(s, f);
    forall m | 0 <= m < |u.cells[f].regs| ensures Once(u, f, m) && InHeap(u, u.cells[f].regs[m]) {
      assert Once(s, f, m) && InHeap(s, s.cells[f].regs[m]);
      assert multiset(u.cells[f].ran)[m] == multiset(s.cells[f].ran)[m] + if m == k then 1 else 0;
    }
  }

  // --- callbacks, tasks, events -------------------------------------------

  lemma PromiseSetKeeps(s: State, dst: FutId, o: Outcome)
    requires Inv(s) && dst < |s.cells| && ValidOutcome(o)
    ensures Inv(PromiseSet(s, dst, o))
  {
    AddQuiet(s, SetTo(dst, o));
  }

  lemma WaitedOkKeeps(s: State, c: nat, j: nat)
    requires Inv(s) && c < |s.collects| && s.collects[c].result < |s.cells|
    ensures Inv(WaitedOk(s, c, j))
  {
    var join := s.collects[c];
    var t := s.(collects := s.collects[c := join.(ready := join.ready + 1, doneOk := join.doneOk + {j})]);
    forall d | 0 <= d < |t.collects| ensures InputsOk(t, d) { assert InputsOk(s, d); }
    CollectsQuiet(s, t);
    PromiseSetKeeps(t, join.result, Ok(Gather(s, join.inputs)));
  }

  lemma ActKeeps(s: State, o: Outcome, cb: Callback, g: FutId)
    requires Inv(s) && InHeap(s, cb) && ValidOutcome(o) && g < |s.cells|
    ensures Inv(Act(s, o, cb, g))
  {
    match cb
    case User(_) =>
    case Complete(dst) => SettleKeeps(s, dst, o, Owner);
    case Then(k, dst) =>
      var cell := s.cells[dst].(called := true);
      PutQuiet(s, dst, cell);
      if o.Failed? { PromiseSetKeeps(s, dst, o); }
      else { PromiseSetKeeps(Put(s, dst, cell), dst, Ok(s.stage(k, o.v))); }
    case Thenf(k, dst) =>
      var cell := s.cells[dst].(called := true, assoc := Asked(g));
      PutQuiet(s, dst, cell);
      if o.Failed? { PromiseSetKeeps(s, dst, o); }
      else { AddQuiet(Put(s, dst, cell), Associating(dst, g)); }
    case Waited(c, j) =>
      if o.Failed? { PromiseSetKeeps(s, s.collects[c].result, o); } else { WaitedOkKeeps(s, c, j); }
    case Discarded(c) => AddQuiet(s, Discarding(c, 0));
  }

  lemma AssociateKeeps(s: State, t: nat)
    requires Inv(s) && t < |s.tasks| && s.tasks[t].Associating?
    requires s.tasks[t].dst < |s.cells| && s.tasks[t].g < |s.cells|
    ensures Inv(Associate(s, t))
  {
    var dst, g := s.tasks[t].dst, s.tasks[t].g;
    var cell := s.cells[dst];
    if cell.outcome.None? && !cell.associated {
      var after := cell.(associated := true, assoc := Linking(g));
      PutQuiet(s, dst, after);
      BecomeQuiet(Put(s, dst, after), t, Link(dst, g));
    } else {
      PutQuiet(s, dst, cell.(assoc := Dropped(g)));
      BecomeQuiet(Put(s, dst, cell.(assoc := Dropped(g))), t, Done);
    }
  }

  lemma LinkKeeps(s: State, t: nat)
    requires Inv(s) && t < |s.tasks| && s.tasks[t].Link?
    requires s.tasks[t].dst < |s.cells| && s.tasks[t].g < |s.cells|
    ensures Inv(LinkTo(s, t))
  {
    var dst, g := s.tasks[t].dst, s.tasks[t].g;
    var after := s.cells[dst].(assoc := Linked(g, |s.cells[g].regs|));
    PutQuiet(s, dst, after);
    BecomeQuiet(Put(s, dst, after), t, Done);
    OnCompleteKeeps(Become(Put(s, dst, after), t, Done), g, Complete(dst));
  }

  lemma DiscardKeeps(s: State, t: nat)
    requires Inv(s) && TaskEnabled(s, t, 0) && s.tasks[t].Discarding?
    ensures Inv(DiscardNext(s, t))
  {
    var c, j := s.tasks[t].c, s.tasks[t].j;
    var join := s.collects[c];
    if j < |join.inputs| {
      SettleKeeps(s, join.inputs[j], Failed(KERROR), Discard(c));
      var u := Settle(s, join.inputs[j], Failed(KERROR), Discard(c));
      assert u.tasks[t] == s.tasks[t];
      BecomeQuiet(u, t, Discarding(c, j + 1));
    } else {
      BecomeQuiet(s, t, Done);
    }
  }

  lemma CollectKeeps(s: State, t: nat)
    requires Inv(s) && TaskEnabled(s, t, 0) && s.tasks[t].Collecting?
    ensures Inv(CollectNext(s, t))
  {
    var c, j := s.tasks[t].c, s.tasks[t].j;
    var join := s.collects[c];
    var updated := if j < |join.inputs| then join.(at := join.at + [|s.cells[join.inputs[j]].regs|])
             else join.(discardAt := Some(|s.cells[join.result].regs|));
    var u := s.(collects := s.collects[c := updated]);
    forall d | 0 <= d < |u.collects| ensures InputsOk(u, d) { assert InputsOk(s, d); }
    CollectsQuiet(s, u);
    if j < |join.inputs| {
      BecomeQuiet(u, t, Collecting(c, j + 1));
      OnCompleteKeeps(Become(u, t, Collecting(c, j + 1)), join.inputs[j], Waited(c, j));
    } else {
      BecomeQuiet(u, t, Done);
      OnCompleteKeeps(Become(u, t, Done), join.result, Discarded(c));
    }
  }

  lemma TaskStepKeeps(s: State, t: nat, g: FutId)
    requires Inv(s) && TaskEnabled(s, t, g)
    ensures Inv(TaskStep(s, t, g))
  {
    assert s.tasks[t] in s.tasks && TaskOk(s, s.tasks[t]);
    match s.tasks[t]
    case Drain(f, i) =>
      assert CellOk(s, f);
      if i < |s.cells[f].callbacks| {
        TakeNextKeeps(s, t);
        ActKeeps(TakeNext(s, t), s.cells[f].outcome.value, s.cells[f].callbacks[i], g);
      } else {
        ClearKeeps(s, t);
      }
    case Call(f, k, cb) =>
      assert CellOk(s, f);
      TakeLateKeeps(s, t);
      ActKeeps(TakeLate(s, t), s.cells[f].outcome.value, cb, g);
    case SetTo(dst, o) =>
      BecomeQuiet(s, t, Done);
      SettleKeeps(Become(s, t, Done), dst, o, Owner);
    case Associating(_, _) => AssociateKeeps(s, t);
    case Link(_, _) => LinkKeeps(s, t);
    case Discarding(_, _) => DiscardKeeps(s, t);
    case Collecting(_, _) => CollectKeeps(s, t);
  }

  lemma CallCollectKeeps(s: State, inputs: seq<FutId>)
    requires Inv(s) && Enabled(s, CallCollect(inputs))
    ensures Inv(Apply(s, CallCollect(inputs)))
  {
    if inputs == [] {
      AllocKeeps(s, Root);
      SettleKeeps(Alloc(s, Root), |s.cells|, Ok(List([])), Owner);
    } else {
      var c := |s.collects|;
      AllocKeeps(s, CollectOf(c));
      var a := Alloc(s, CollectOf(c));
      var u := a.(collects := s.collects + [Collected(inputs, |s.cells|, 0, [], None, {})]);
      forall d | 0 <= d < |u.collects| ensures InputsOk(u, d) { if d < c { assert InputsOk(s, d); } }
      CollectsQuiet(a, u);
      AddQuiet(u, Collecting(c, 0));
    }
  }

  lemma StepKeeps(s: State, e: Event)
    requires Inv(s) && Enabled(s, e)
    ensures Inv(Apply(s, e))
  {
    match e
    case New => AllocKeeps(s, Root);
    case Register(f, tag) => OnCompleteKeeps(s, f, User(tag));
    case SetFuture(f, o) => SettleKeeps(s, f, o, Outside);
    case SetPromise(f, o) => PromiseSetKeeps(s, f, o);
    case JoinPromise(f, g) => AddQuiet(s, Associating(f, g));
    case CallThen(f, k, async) =>
      var origin := ThenOf(f, k, async, |s.cells[f].regs|);
      AllocKeeps(s, origin);
      OnCompleteKeeps(Alloc(s, origin), f, ThenCallback(k, async, |s.cells|));
    case CallCollect(inputs) => CallCollectKeeps(s, inputs);
    case Step(t, g) => TaskStepKeeps(s, t, g);
  }
}
