/** Once callers stop calling, the threads finish: every step of a thread makes a measure
    smaller, and a thread with something left to do can always step. */
module FutureProgress {
  import opened Basics
  import opened Futures
  import Cells = FutureCells
  import opened FutureTheorems

  /** The number of inputs of each collect, which never changes. */
  ghost function Sizes(s: State): seq<nat> {
    seq(|s.collects|, i requires 0 <= i < |s.collects| => |s.collects[i].inputs|)
  }

  ghost function Size(n: seq<nat>, c: nat): nat {
    if c < |n| then n[c] else 0
  }

  /** What the callback may still cause when it is started. */
  ghost function CallbackWeight(n: seq<nat>, cb: Callback): nat
    ensures CallbackWeight(n, cb) >= 1
  {
    match cb
    case User(_) => 1
    case Complete(_) => 1
    case Then(_, _) => 2
    case Thenf(_, _) => 4
    case Waited(_, _) => 2
    case Discarded(c) => Size(n, c) + 3
  }

  ghost function Waiting(n: seq<nat>, regs: seq<Callback>, ran: seq<nat>): nat {
    if regs == [] then 0
    else
      var m := |regs| - 1;
      Waiting(n, regs[..m], ran) + if m in ran then 0 else CallbackWeight(n, regs[m])
  }

  ghost function CellWeight(n: seq<nat>, cell: Cell): nat {
    (if cell.outcome.None? then 1 else 0) + Waiting(n, cell.regs, cell.ran)
  }

  ghost function CellsWeight(n: seq<nat>, cs: seq<Cell>): nat {
    if cs == [] then 0 else CellsWeight(n, cs[..|cs| - 1]) + CellWeight(n, cs[|cs| - 1])
  }

  ghost function TaskWeight(n: seq<nat>, x: Task): nat {
    match x
    case Done => 0
    case Drain(_, _) => 1
    case Call(_, _, _) => 0
    case SetTo(_, _) => 1
    case Associating(_, _) => 3
    case Link(_, _) => 2
    case Discarding(c, j) => (if j < Size(n, c) then Size(n, c) - j else 0) + 1
    case Collecting(c, j) => (if j < Size(n, c) then 3 * (Size(n, c) - j) else 0) + Size(n, c) + 5
  }

  ghost function TasksWeight(n: seq<nat>, xs: seq<Task>): nat {
    if xs == [] then 0 else TasksWeight(n, xs[..|xs| - 1]) + TaskWeight(n, xs[|xs| - 1])
  }

  ghost function Measure(s: State): nat {
    CellsWeight(Sizes(s), s.cells) + TasksWeight(Sizes(s), s.tasks)
  }

  // --- sums under update --------------------------------------------------

  lemma {:induction false} CellUpdated(n: seq<nat>, cs: seq<Cell>, f: nat, after: Cell)
    requires f < |cs|
    ensures CellsWeight(n, cs[f := after]) == CellsWeight(n, cs) - CellWeight(n, cs[f]) + CellWeight(n, after)
  {
    var m := |cs| - 1;
    if f == m {
      assert cs[f := after][..m] == cs[..m];
    } else {
      CellUpdated(n, cs[..m], f, after);
      assert cs[f := after][..m] == cs[..m][f := after];
    }
  }

  lemma {:induction false} TaskUpdated(n: seq<nat>, xs: seq<Task>, t: nat, y: Task)
    requires t < |xs|
    ensures TasksWeight(n, xs[t := y]) == TasksWeight(n, xs) - TaskWeight(n, xs[t]) + TaskWeight(n, y)
  {
    var m := |xs| - 1;
    if t == m {
      assert xs[t := y][..m] == xs[..m];
    } else {
      TaskUpdated(n, xs[..m], t, y);
      assert xs[t := y][..m] == xs[..m][t := y];
    }
  }

  lemma TaskAdded(n: seq<nat>, xs: seq<Task>, y: Task)
    ensures TasksWeight(n, xs + [y]) == TasksWeight(n, xs) + TaskWeight(n, y)
  {
    assert (xs + [y])[..|xs|] == xs;
  }

  lemma {:induction false} WaitingTaken(n: seq<nat>, regs: seq<Callback>, ran: seq<nat>, k: nat)
    requires k !in ran
    ensures Waiting(n, regs, ran + [k])
            == Waiting(n, regs, ran) - if k < |regs| then CallbackWeight(n, regs[k]) else 0
    decreases |regs|
  {
    if regs != [] { WaitingTaken(n, regs[..|regs| - 1], ran, k); }
  }

  lemma WaitingAdded(n: seq<nat>, regs: seq<Callback>, ran: seq<nat>, cb: Callback)
    requires |regs| !in ran
    ensures Waiting(n, regs + [cb], ran) == Waiting(n, regs, ran) + CallbackWeight(n, cb)
  {
    assert (regs + [cb])[..|regs|] == regs;
  }

  // --- the critical sections ----------------------------------------------

  lemma PutMeasure(s: State, f: FutId, after: Cell)
    requires f < |s.cells|
    ensures Measure(Put(s, f, after)) == Measure(s) - CellWeight(Sizes(s), s.cells[f]) + CellWeight(Sizes(s), after)
  {
    CellUpdated(Sizes(s), s.cells, f, after);
    assert Sizes(Put(s, f, after)) == Sizes(s);
  }

  lemma BecomeMeasure(s: State, t: nat, y: Task)
    requires t < |s.tasks|
    ensures Measure(Become(s, t, y)) == Measure(s) - TaskWeight(Sizes(s), s.tasks[t]) + TaskWeight(Sizes(s), y)
    ensures Sizes(Become(s, t, y)) == Sizes(s)
  {
    TaskUpdated(Sizes(s), s.tasks, t, y);
    assert Sizes(Become(s, t, y)) == Sizes(s);
  }

  lemma AddMeasure(s: State, y: Task)
    ensures Measure(AddTask(s, y)) == Measure(s) + TaskWeight(Sizes(s), y)
  {
    TaskAdded(Sizes(s), s.tasks, y);
    assert Sizes(AddTask(s, y)) == Sizes(s);
  }

  lemma SettleMeasure(s: State, f: FutId, o: Outcome, cause: Cause)
    requires f < |s.cells|
    ensures Measure(Settle(s, f, o, cause)) <= Measure(s)
    ensures Sizes(Settle(s, f, o, cause)) == Sizes(s)
  {
    var cell := s.cells[f];
    var u := Put(s, f, cell.(outcome := Some(o), cause := cause, frozen := |cell.regs|));
    PutMeasure(s, f, u.cells[f]);
    AddMeasure(u, Drain(f, 0));
    assert Sizes(Settle(s, f, o, cause)) == Sizes(s);
  }

  lemma OnCompleteMeasure(s: State, f: FutId, cb: Callback)
    requires f < |s.cells| && |s.cells[f].regs| !in s.cells[f].ran
    ensures Measure(OnComplete(s, f, cb)) == Measure(s) + CallbackWeight(Sizes(s), cb)
  {
    var cell := s.cells[f];
    WaitingAdded(Sizes(s), cell.regs, cell.ran, cb);
    var after := if cell.outcome.None? then cell.(callbacks := cell.callbacks + [cb], regs := cell.regs + [cb])
             else cell.(regs := cell.regs + [cb]);
    PutMeasure(s, f, after);
    AddMeasure(Put(s, f, after), Call(f, |cell.regs|, cb));
  }

  lemma CollectsMeasure(s: State, c: nat, updated: Collected)
    requires c < |s.collects| && updated.inputs == s.collects[c].inputs
    ensures var u := s.(collects := s.collects[c := updated]); Sizes(u) == Sizes(s) && Measure(u) == Measure(s)
  {
    var u := s.(collects := s.collects[c := updated]);
    assert Sizes(u) == Sizes(s);
  }

  lemma PromiseSetMeasure(s: State, d: FutId, o: Outcome)
    requires d < |s.cells|
    ensures Measure(PromiseSet(s, d, o)) <= Measure(s) + 1
  {
    AddMeasure(s, SetTo(d, o));
  }

  lemma ActMeasure(s: State, o: Outcome, cb: Callback, g: FutId)
    requires InHeap(s, cb)
    ensures Measure(Act(s, o, cb, g)) < Measure(s) + CallbackWeight(Sizes(s), cb)
  {
    match cb
    case User(_) =>
    case Complete(d) => SettleMeasure(s, d, o, Owner);
    case Then(k, d) =>
      PutMeasure(s, d, s.cells[d].(called := true));
      if o.Failed? { PromiseSetMeasure(s, d, o); }
      else { PromiseSetMeasure(Put(s, d, s.cells[d].(called := true)), d, Ok(s.stage(k, o.v))); }
    case Thenf(k, d) =>
      if o.Failed? { PromiseSetMeasure(s, d, o); }
      else {
        var after := s.cells[d].(called := true, assoc := Asked(g));
        PutMeasure(s, d, after);
        AddMeasure(Put(s, d, after), Associating(d, g));
      }
    case Waited(c, j) =>
      var join := s.collects[c];
      if o.Failed? { PromiseSetMeasure(s, join.result, o); }
      else {
        var updated := join.(ready := join.ready + 1, doneOk := join.doneOk + {j});
        CollectsMeasure(s, c, updated);
        PromiseSetMeasure(s.(collects := s.collects[c := updated]), join.result, Ok(Gather(s, join.inputs)));
      }
    case Discarded(c) => AddMeasure(s, Discarding(c, 0));
  }

  // --- what threads do next ------------------------------------------------

  /** A registration that is started leaves the sum. */
  lemma TakenMeasure(s: State, t: nat, f: FutId, k: nat, after: Cell, y: Task)
    requires f < |s.cells| && t < |s.tasks| && k < |s.cells[f].regs| && k !in s.cells[f].ran
    requires after == s.cells[f].(ran := s.cells[f].ran + [k], started := after.started)
    requires TaskWeight(Sizes(s), y) == TaskWeight(Sizes(s), s.tasks[t])
    ensures var u := Become(Put(s, f, after), t, y);
            Sizes(u) == Sizes(s)
            && Measure(u) + CallbackWeight(Sizes(s), s.cells[f].regs[k]) == Measure(s)
  {
    WaitingTaken(Sizes(s), s.cells[f].regs, s.cells[f].ran, k);
    PutMeasure(s, f, after);
    BecomeMeasure(Put(s, f, after), t, y);
  }

  lemma NextToRun(s: State, t: nat)
    requires Cells.Inv(s) && t < |s.tasks| && s.tasks[t].Drain? && s.tasks[t].f < |s.cells|
    requires s.tasks[t].i < |s.cells[s.tasks[t].f].callbacks|
    ensures var cell, i := s.cells[s.tasks[t].f], s.tasks[t].i;
            i < |cell.regs| && cell.regs[i] == cell.callbacks[i] && i !in cell.ran
  {
    var f, i := s.tasks[t].f, s.tasks[t].i;
    assert s.tasks[t] in s.tasks && Cells.TaskOk(s, s.tasks[t]) && Cells.CellOk(s, f);
    assert Cells.Once(s, f, i);
  }

  lemma DrainMeasure(s: State, t: nat, g: FutId)
    requires Cells.Inv(s) && TaskEnabled(s, t, g) && s.tasks[t].Drain?
    ensures Measure(TaskStep(s, t, g)) < Measure(s)
  {
    var f, i := s.tasks[t].f, s.tasks[t].i;
    var cell := s.cells[f];
    if i < |cell.callbacks| {
      NextToRun(s, t);
      TakenMeasure(s, t, f, i, cell.(started := cell.started + 1, ran := cell.ran + [i]), Drain(f, i + 1));
      ActMeasure(TakeNext(s, t), cell.outcome.value, cell.callbacks[i], g);
    } else {
      var after := cell.(callbacks := [], drained := true);
      PutMeasure(s, f, after);
      BecomeMeasure(Put(s, f, after), t, Done);
    }
  }

  lemma LateMeasure(s: State, t: nat, g: FutId)
    requires Cells.Inv(s) && TaskEnabled(s, t, g) && s.tasks[t].Call?
    ensures Measure(TaskStep(s, t, g)) < Measure(s)
  {
    var f, k := s.tasks[t].f, s.tasks[t].k;
    var cell := s.cells[f];
    assert s.tasks[t] in s.tasks && Cells.TaskOk(s, s.tasks[t]) && Cells.CellOk(s, f);
    assert Cells.Once(s, f, k);
    TakenMeasure(s, t, f, k, cell.(ran := cell.ran + [k]), Done);
    ActMeasure(TakeLate(s, t), cell.outcome.value, s.tasks[t].cb, g);
  }

  lemma LinkMeasure(s: State, t: nat)
    requires Cells.Inv(s) && TaskEnabled(s, t, 0) && (s.tasks[t].Associating? || s.tasks[t].Link?)
    ensures Measure(TaskStep(s, t, 0)) < Measure(s)
  {
    var d, g := s.tasks[t].dst, s.tasks[t].g;
    var cell := s.cells[d];
    if s.tasks[t].Link? {
      var after := cell.(assoc := Linked(g, |s.cells[g].regs|));
      PutMeasure(s, d, after);
      BecomeMeasure(Put(s, d, after), t, Done);
      assert Cells.CellOk(s, g);
      OnCompleteMeasure(Become(Put(s, d, after), t, Done), g, Complete(d));
    } else {
      var won := cell.outcome.None? && !cell.associated;
      var after := if won then cell.(associated := true, assoc := Linking(g)) else cell.(assoc := Dropped(g));
      PutMeasure(s, d, after);
      BecomeMeasure(Put(s, d, after), t, if won then Link(d, g) else Done);
    }
  }

  lemma DiscardMeasure(s: State, t: nat)
    requires TaskEnabled(s, t, 0) && s.tasks[t].Discarding?
    ensures Measure(TaskStep(s, t, 0)) < Measure(s)
  {
    var c, j := s.tasks[t].c, s.tasks[t].j;
    var join := s.collects[c];
    if j < |join.inputs| {
      var u := Settle(s, join.inputs[j], Failed(KERROR), Discard(c));
      SettleMeasure(s, join.inputs[j], Failed(KERROR), Discard(c));
      BecomeMeasure(u, t, Discarding(c, j + 1));
    } else {
      BecomeMeasure(s, t, Done);
    }
  }

  lemma RegisterMeasure(s: State, t: nat, f: FutId, updated: Collected, cb: Callback, y: Task)
    requires t < |s.tasks| && s.tasks[t].Collecting? && s.tasks[t].c < |s.collects|
    requires f < |s.cells| && |s.cells[f].regs| !in s.cells[f].ran
    requires updated.inputs == s.collects[s.tasks[t].c].inputs
    requires TaskWeight(Sizes(s), y) + CallbackWeight(Sizes(s), cb) < TaskWeight(Sizes(s), s.tasks[t])
    ensures Measure(OnComplete(Become(s.(collects := s.collects[s.tasks[t].c := updated]), t, y), f, cb)) < Measure(s)
  {
    var c := s.tasks[t].c;
    var u := s.(collects := s.collects[c := updated]);
    CollectsMeasure(s, c, updated);
    BecomeMeasure(u, t, y);
    OnCompleteMeasure(Become(u, t, y), f, cb);
  }

  lemma CollectMeasure(s: State, t: nat)
    requires Cells.Inv(s) && TaskEnabled(s, t, 0) && s.tasks[t].Collecting?
    ensures Measure(TaskStep(s, t, 0)) < Measure(s)
  {
    var c, j := s.tasks[t].c, s.tasks[t].j;
    var join := s.collects[c];
    if j < |join.inputs| {
      var f := join.inputs[j];
      assert Cells.CellOk(s, f);
      RegisterMeasure(s, t, f, join.(at := join.at + [|s.cells[f].regs|]), Waited(c, j), Collecting(c, j + 1));
    } else {
      var f := join.result;
      assert Cells.CellOk(s, f);
      RegisterMeasure(s, t, f, join.(discardAt := Some(|s.cells[f].regs|)), Discarded(c), Done);
    }
  }

  lemma TaskMeasure(s: State, t: nat, g: FutId)
    requires Cells.Inv(s) && TaskEnabled(s, t, g)
    ensures Measure(TaskStep(s, t, g)) < Measure(s)
  {
    match s.tasks[t]
    case Drain(_, _) => DrainMeasure(s, t, g);
    case Call(_, _, _) => LateMeasure(s, t, g);
    case SetTo(d, o) =>
      BecomeMeasure(s, t, Done);
      SettleMeasure(Become(s, t, Done), d, o, Owner);
    case Associating(_, _) => LinkMeasure(s, t);
    case Link(_, _) => LinkMeasure(s, t);
    case Discarding(_, _) => DiscardMeasure(s, t);
    case Collecting(_, _) => CollectMeasure(s, t);
  }

  /** However the threads are scheduled, they can take no more than `Measure(s)` steps. */
  lemma {:induction false} BoundedTheorem(s: State, es: seq<Event>)
    requires AllInv(s) && Possible(s, es) && forall i | 0 <= i < |es| :: es[i].Step?
    ensures |es| + Measure(Run(s, es)) <= Measure(s)
    decreases |es|
  {
    if es != [] {
      assert es[0].Step?;
      TaskMeasure(s, es[0].t, es[0].g);
      StepInv(s, es[0]);
      BoundedTheorem(Apply(s, es[0]), es[1..]);
    }
  }

  /** And they can always go on to a state in which nothing is left to do. */
  lemma {:induction false} FinishesTheorem(s: State) returns (es: seq<Event>)
    requires AllInv(s)
    ensures Possible(s, es) && Quiescent(Run(s, es)) && forall i | 0 <= i < |es| :: es[i].Step?
    decreases Measure(s)
  {
    if Quiescent(s) {
      es := [];
    } else {
      var x :| x in s.tasks && !x.Done?;
      var t :| 0 <= t < |s.tasks| && s.tasks[t] == x;
      NeverStuck(s, t);
      TaskMeasure(s, t, 0);
      StepInv(s, Step(t, 0));
      var rest := FinishesTheorem(Apply(s, Step(t, 0)));
      es := [Step(t, 0)] + rest;
      assert es[1..] == rest;
    }
  }
}
