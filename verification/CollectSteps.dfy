/** Every event keeps the invariant of the collects. */
module CollectSteps {
  import opened Basics
  import opened Futures
  import Cells = FutureCells
  import opened ThenChains
  import C = Collects

  /** What is known when the callback of registration `k` of `f` acts. */
  ghost predicate Begun(s: State, f: FutId, k: nat) {
    && C.Inv(s, Some((f, k))) && Cells.Inv(s)
    && Settled(s, f) && k < |s.cells[f].regs| && k in s.cells[f].ran
  }

  lemma {:induction false} Pigeons(items: set<nat>, n: nat)
    requires forall j | j in items :: j < n
    ensures |items| <= n
    ensures |items| == n ==> forall j: nat | j < n :: j in items
  {
    if n == 0 {
      assert items == {};
    } else if n - 1 in items {
      var others := items - {n - 1};
      Pigeons(others, n - 1);
      assert items == others + {n - 1};
    } else {
      Pigeons(items, n - 1);
    }
  }

  /** A step that touches the record of collect `c` only, or adds that collect. */
  lemma FrameBut(s: State, cur: Current, u: State, now: Current, c: nat)
    requires C.Inv(s, cur) && C.Frame(s, u) && c < |u.collects| && |u.collects| <= |s.collects| + 1
    requires |u.collects| == |s.collects| || c == |s.collects|
    requires c < |s.collects| ==>
               && s.collects[c].at <= u.collects[c].at && |u.collects[c].at| <= |u.collects[c].inputs|
               && (s.collects[c].discardAt.Some? ==> u.collects[c].discardAt == s.collects[c].discardAt)
    requires C.CollectOk(u, now, c)
    requires forall d | 0 <= d < |s.collects| && d != c ::
               |s.collects[d].at| <= |s.collects[d].inputs| && C.Untouched(s, cur, u, now, d)
    requires forall x | x in u.tasks && (x !in s.tasks || x.Collecting?) :: C.TaskOk(u, x)
    requires forall f, k | 0 <= f < |u.cells| && 0 <= k < |u.cells[f].regs|
                           && (f >= |s.cells| || k >= |s.cells[f].regs|) :: C.RegOk(u, f, k)
    requires forall f | |s.cells| <= f < |u.cells| :: C.CauseOk(u, f)
    ensures C.Inv(u, now)
  {
    forall f, k | 0 <= f < |u.cells| && 0 <= k < |u.cells[f].regs| ensures C.RegOk(u, f, k) {
      if f < |s.cells| && k < |s.cells[f].regs| { OldReg(s, cur, u, now, c, f, k); }
    }
    forall d | 0 <= d < |u.collects| ensures C.CollectOk(u, now, d) {
      if d != c {
        assert C.CollectOk(s, cur, d);
        C.FrameCollect(s, cur, u, now, d);
      }
    }
    forall f | 0 <= f < |u.cells| ensures C.CauseOk(u, f) {
      if f < |s.cells| { OldCause(s, cur, u, f); }
    }
    forall x | x in u.tasks ensures C.TaskOk(u, x) {
      if x in s.tasks && !x.Collecting? {
        assert C.TaskOk(s, x);
        C.FrameTask(s, u, x);
      }
    }
  }

  lemma OldReg(s: State, cur: Current, u: State, now: Current, c: nat, f: FutId, k: nat)
    requires C.Inv(s, cur) && C.Frame(s, u) && c < |u.collects|
    requires c < |s.collects| ==>
               && s.collects[c].at <= u.collects[c].at && |u.collects[c].at| <= |u.collects[c].inputs|
               && (s.collects[c].discardAt.Some? ==> u.collects[c].discardAt == s.collects[c].discardAt)
    requires forall d | 0 <= d < |s.collects| && d != c ::
               |s.collects[d].at| <= |s.collects[d].inputs| && C.Untouched(s, cur, u, now, d)
    requires f < |s.cells| && k < |s.cells[f].regs|
    ensures k < |u.cells[f].regs| && C.RegOk(u, f, k)
  {
    assert C.SameCell(s.cells[f], u.cells[f]) && C.RegOk(s, f, k);
    var cb := s.cells[f].regs[k];
    if cb.Complete? { assert C.SameCell(s.cells[cb.dst], u.cells[cb.dst]); }
  }

  lemma OldCause(s: State, cur: Current, u: State, f: FutId)
    requires C.Inv(s, cur) && C.Frame(s, u) && f < |s.cells|
    ensures C.CauseOk(u, f)
  {
    assert C.SameCell(s.cells[f], u.cells[f]) && C.NewlySettled(s, u, f) && C.CauseOk(s, f);
    if u.cells[f].outcome.Some? && u.cells[f].cause.Discard? {
      C.FrameSettled(s, u, s.collects[u.cells[f].cause.c].result);
    }
  }

  // --- the callbacks of a collect -----------------------------------------

  lemma WaitedFailed(s: State, f: FutId, k: nat)
    requires Begun(s, f, k) && s.cells[f].regs[k].Waited? && Result(s, f).Failed?
    ensures InHeap(s, s.cells[f].regs[k])
    ensures C.Inv(Act(s, Result(s, f), s.cells[f].regs[k], 0), None)
  {
    var c, j, o := s.cells[f].regs[k].c, s.cells[f].regs[k].j, Result(s, f);
    assert C.RegOk(s, f, k) && C.CollectOk(s, Some((f, k)), c) && C.CauseOk(s, f);
    var d := s.collects[c].result;
    var u := AddTask(s, SetTo(d, o));
    assert u == Act(s, o, s.cells[f].regs[k], 0);
    if !Settled(s, d) { assert C.GenuineFailure(u, c, j, o); }
    C.AddKeeps(s, Some((f, k)), SetTo(d, o));
    assert u.tasks[|s.tasks|] == SetTo(d, o);
    assert SetTo(d, o) in u.tasks;
    C.Finish(u, f, k);
  }

  lemma DiscardedKeeps(s: State, f: FutId, k: nat)
    requires Begun(s, f, k) && s.cells[f].regs[k].Discarded?
    ensures InHeap(s, s.cells[f].regs[k])
    ensures C.Inv(Act(s, Result(s, f), s.cells[f].regs[k], 0), None)
  {
    var c := s.cells[f].regs[k].c;
    assert C.RegOk(s, f, k);
    var u := AddTask(s, Discarding(c, 0));
    C.AddKeeps(s, Some((f, k)), Discarding(c, 0));
    assert u.tasks[|s.tasks|] == Discarding(c, 0);
    assert C.Discarder(u, c);
    C.Finish(u, f, k);
  }

  /** `u` is `s` after registration `k` of `f` has counted its input. */
  ghost predicate Counted(s: State, f: FutId, k: nat, u: State) {
    && Settled(s, f) && Result(s, f).Ok? && k < |s.cells[f].regs| && k in s.cells[f].ran
    && s.cells[f].regs[k].Waited? && C.RegOk(s, f, k)
    && var c, j := s.cells[f].regs[k].c, s.cells[f].regs[k].j;
    && C.CollectOk(s, Some((f, k)), c)
    && var join := s.collects[c];
    && u.cells == s.cells
    && u.collects == s.collects[c := join.(ready := join.ready + 1, doneOk := join.doneOk + {j})]
    && u.tasks == (if join.ready + 1 == |join.inputs| && !Settled(s, join.result)
                   then s.tasks + [SetTo(join.result, Ok(Gather(s, join.inputs)))] else s.tasks)
  }

  lemma WaitedOkKeeps(s: State, f: FutId, k: nat)
    requires Begun(s, f, k) && s.cells[f].regs[k].Waited? && Result(s, f).Ok?
    ensures InHeap(s, s.cells[f].regs[k])
    ensures C.Inv(Act(s, Result(s, f), s.cells[f].regs[k], 0), None)
  {
    var c, j := s.cells[f].regs[k].c, s.cells[f].regs[k].j;
    assert C.RegOk(s, f, k) && C.CollectOk(s, Some((f, k)), c);
    CountedShape(s, f, k);
    CountedKeeps(s, f, k, WaitedOk(s, c, j));
  }

  lemma CountedShape(s: State, f: FutId, k: nat)
    requires Settled(s, f) && Result(s, f).Ok? && k < |s.cells[f].regs| && k in s.cells[f].ran
    requires s.cells[f].regs[k].Waited? && C.RegOk(s, f, k) && C.CollectOk(s, Some((f, k)), s.cells[f].regs[k].c)
    ensures Counted(s, f, k, WaitedOk(s, s.cells[f].regs[k].c, s.cells[f].regs[k].j))
  {
  }

  lemma CountedKeeps(s: State, f: FutId, k: nat, u: State)
    requires C.Inv(s, Some((f, k))) && Counted(s, f, k, u)
    ensures C.Inv(u, None)
  {
    var c := s.cells[f].regs[k].c;
    CountedFrame(s, f, k, u);
    CountedCollect(s, f, k, u);
    forall d | 0 <= d < |s.collects| && d != c
      ensures |s.collects[d].at| <= |s.collects[d].inputs| && C.Untouched(s, Some((f, k)), u, None, d)
    {
      assert C.CollectOk(s, Some((f, k)), d);
      CountedOther(s, f, k, u, d);
    }
    forall x | x in u.tasks && (x !in s.tasks || x.Collecting?) ensures C.TaskOk(u, x) {
      if x in s.tasks { assert C.TaskOk(s, x); }
      CountedTask(s, f, k, u, x);
    }
    FrameBut(s, Some((f, k)), u, None, c);
  }

  lemma CountedFrame(s: State, f: FutId, k: nat, u: State)
    requires Counted(s, f, k, u)
    ensures C.Frame(s, u)
  {
    C.TasksKept(s, u);
  }

  lemma CountedOther(s: State, f: FutId, k: nat, u: State, d: nat)
    requires Counted(s, f, k, u)
    requires d < |s.collects| && d != s.cells[f].regs[k].c && C.CollectOk(s, Some((f, k)), d)
    ensures C.Untouched(s, Some((f, k)), u, None, d)
  {
  }

  /** The input was not counted before, and reaching the length means that every input
      has been counted, hence is OK. */
  lemma LastOne(s: State, f: FutId, k: nat, u: State)
    requires Counted(s, f, k, u)
    ensures var join := s.collects[s.cells[f].regs[k].c];
            && s.cells[f].regs[k].j !in join.doneOk
            && |join.doneOk + {s.cells[f].regs[k].j}| == join.ready + 1
            && (join.ready + 1 == |join.inputs| ==> C.AllOk(s, s.cells[f].regs[k].c))
  {
    var c, j := s.cells[f].regs[k].c, s.cells[f].regs[k].j;
    var join := s.collects[c];
    if join.ready + 1 == |join.inputs| { Pigeons(join.doneOk + {j}, |join.inputs|); }
  }

  lemma CountedActs(s: State, f: FutId, k: nat, u: State)
    requires Counted(s, f, k, u)
    ensures var join := s.collects[s.cells[f].regs[k].c];
            && |join.at| <= |join.inputs|
            && (forall i | 0 <= i < |join.at| ::
                  Acted(u, None, join.inputs[i], join.at[i])
                  == (Acted(s, Some((f, k)), join.inputs[i], join.at[i]) || i == s.cells[f].regs[k].j))
            && (join.discardAt.Some? ==>
                  Acted(u, None, join.result, join.discardAt.value)
                  == Acted(s, Some((f, k)), join.result, join.discardAt.value))
  {
  }

  lemma CountedDecided(s: State, f: FutId, k: nat, u: State)
    requires Counted(s, f, k, u)
    ensures var c := s.cells[f].regs[k].c;
            && (C.Decided(s, c) ==> C.Decided(u, c))
            && (|u.collects[c].doneOk| == |u.collects[c].inputs| ==> C.Decided(u, c))
  {
    var c := s.cells[f].regs[k].c;
    var join := s.collects[c];
    CountedFrame(s, f, k, u);
    LastOne(s, f, k, u);
    if C.Decided(s, c) { C.FrameDecided(s, u, c); }
    if join.ready + 1 == |join.inputs| && !Settled(s, join.result) {
      assert u.tasks[|s.tasks|] == SetTo(join.result, Ok(Gather(s, join.inputs)));
    }
  }

  lemma CountedCollect(s: State, f: FutId, k: nat, u: State)
    requires Counted(s, f, k, u)
    ensures C.CollectOk(u, None, s.cells[f].regs[k].c)
  {
    var c := s.cells[f].regs[k].c;
    var join := s.collects[c];
    CountedFrame(s, f, k, u);
    LastOne(s, f, k, u);
    CountedActs(s, f, k, u);
    CountedDecided(s, f, k, u);
    if Settled(s, join.result) && s.cells[join.result].cause == Owner { C.FrameGood(s, u, c, Result(s, join.result)); }
    CountedMoving(s, f, k, u);
    assert multiset(u.tasks)[Collecting(c, |join.at|)] == multiset(s.tasks)[Collecting(c, |join.at|)];
    assert C.Registering(u, c);
    assert C.Counting(u, None, c);
  }

  lemma CountedMoving(s: State, f: FutId, k: nat, u: State)
    requires Counted(s, f, k, u)
    ensures C.Moving(u, None, s.cells[f].regs[k].c)
  {
    var c := s.cells[f].regs[k].c;
    CountedActs(s, f, k, u);
    CountedDecided(s, f, k, u);
    C.TasksKept(s, u);
    assert C.AllSettled(s, c) == C.AllSettled(u, c);
  }

  lemma CountedTask(s: State, f: FutId, k: nat, u: State, x: Task)
    requires Counted(s, f, k, u) && x in u.tasks && (x in s.tasks ==> C.TaskOk(s, x))
    ensures C.TaskOk(u, x)
  {
    var c := s.cells[f].regs[k].c;
    CountedFrame(s, f, k, u);
    if x !in s.tasks {
      LastOne(s, f, k, u);
      C.FrameGood(s, u, c, x.o);
    } else if !x.Collecting? {
      C.FrameTask(s, u, x);
    }
  }

  // --- the other callbacks ------------------------------------------------

  /** Callbacks of `Then`: fields of one `Then` future and at most one task for it. */
  lemma StageKeeps(s: State, d: FutId, after: Cell, x: seq<Task>)
    requires C.Inv(s, None) && d < |s.cells| && !s.cells[d].origin.CollectOf?
    requires after == s.cells[d].(called := after.called, assoc := after.assoc)
    requires forall y | y in x :: (y.SetTo? || y.Associating?) && y.dst == d
    ensures C.Inv(StageCalled(s, d, after, x), None)
  {
    var u := StageCalled(s, d, after, x);
    C.TasksKept(s, u);
    assert forall y: Task | y.Collecting? :: y !in x;
    C.FrameKeeps(s, None, u, None);
  }

  lemma ThenKeeps(s: State, f: FutId, k: nat, g: FutId)
    requires Begun(s, f, k) && ThenChains.RegOk(s, f, k)
    requires s.cells[f].regs[k].Then? || s.cells[f].regs[k].Thenf?
    ensures InHeap(s, s.cells[f].regs[k])
    ensures C.Inv(Act(s, Result(s, f), s.cells[f].regs[k], g), None)
  {
    C.Finish(s, f, k);
    var cb, o := s.cells[f].regs[k], Result(s, f);
    var d := cb.dst;
    var u := Act(s, o, cb, g);
    assert s.tasks + [] == s.tasks;
    assert s.cells[d := s.cells[d]] == s.cells;
    var x := u.tasks[|s.tasks|..];
    assert u == StageCalled(s, d, u.cells[d], x);
    StageKeeps(s, d, u.cells[d], x);
  }

  /** `Complete` settles a future whose promise was joined, which is no result. */
  lemma CompleteKeeps(s: State, f: FutId, k: nat)
    requires Begun(s, f, k) && s.cells[f].regs[k].Complete?
    ensures InHeap(s, s.cells[f].regs[k])
    ensures C.Inv(Act(s, Result(s, f), s.cells[f].regs[k], 0), None)
  {
    assert C.RegOk(s, f, k);
    C.Finish(s, f, k);
    C.SettleKeeps(s, None, s.cells[f].regs[k].dst, Result(s, f), Owner);
  }

  lemma ActKeeps(s: State, f: FutId, k: nat, g: FutId)
    requires Begun(s, f, k) && ThenChains.RegOk(s, f, k)
    ensures InHeap(s, s.cells[f].regs[k])
    ensures C.Inv(Act(s, Result(s, f), s.cells[f].regs[k], g), None)
  {
    match s.cells[f].regs[k]
    case User(_) => C.Finish(s, f, k);
    case Complete(_) => CompleteKeeps(s, f, k);
    case Then(_, _) => ThenKeeps(s, f, k, g);
    case Thenf(_, _) => ThenKeeps(s, f, k, g);
    case Waited(_, _) => if Result(s, f).Ok? { WaitedOkKeeps(s, f, k); } else { WaitedFailed(s, f, k); }
    case Discarded(_) => DiscardedKeeps(s, f, k);
  }

  // --- the registration loop ----------------------------------------------

  /** `u` is `s` after the loop at `t` registered `cb` on `f`; `updated` is the new
      record of its collect and `y` the loop's next position. */
  ghost predicate Registered(s: State, t: nat, u: State, f: FutId, updated: Collected, cb: Callback, y: Task) {
    && t < |s.tasks| && s.tasks[t].Collecting? && f < |s.cells| && s.tasks[t].c < |s.collects|
    && var c, n := s.tasks[t].c, |s.cells[f].regs|;
    && C.CollectOk(s, None, c) && C.TaskOk(s, s.tasks[t])
    && (forall x | x in s.tasks :: C.TaskOk(s, x))
    && (forall k | k in s.cells[f].ran :: k < n)
    && u.collects == s.collects[c := updated]
    && |u.cells| == |s.cells|
    && (forall g | 0 <= g < |s.cells| ::
          u.cells[g] == s.cells[g].(callbacks := u.cells[g].callbacks,
                                    regs := if g == f then s.cells[g].regs + [cb] else s.cells[g].regs))
    && u.tasks == s.tasks[t := y] + (if s.cells[f].outcome.None? then [] else [Call(f, n, cb)])
    && var join := s.collects[c];
    && if |join.at| < |join.inputs|
       then f == join.inputs[|join.at|] && updated == join.(at := join.at + [n]) && cb == Waited(c, |join.at|)
            && y == Collecting(c, |join.at| + 1)
       else f == join.result && updated == join.(discardAt := Some(n)) && cb == Discarded(c) && y == Done
  }

  lemma RegisteredFrame(s: State, t: nat, u: State, f: FutId, updated: Collected, cb: Callback, y: Task)
    requires Registered(s, t, u, f, updated, cb, y)
    ensures C.Frame(s, u)
  {
    forall x | x in s.tasks && !x.Collecting? ensures x in u.tasks {
      C.StillThere(s, t, y, x);
    }
    forall c | C.Discarder(s, c) ensures C.Discarder(u, c) {
      var j :| Discarding(c, j) in s.tasks;
      assert Discarding(c, j) in u.tasks;
    }
  }

  lemma RegisteredOther(s: State, t: nat, u: State, f: FutId, updated: Collected, cb: Callback, y: Task, d: nat)
    requires Registered(s, t, u, f, updated, cb, y)
    requires d < |s.collects| && d != s.tasks[t].c && C.CollectOk(s, None, d)
    ensures C.Untouched(s, None, u, None, d)
  {
    var x := Collecting(d, |s.collects[d].at|);
    assert multiset(s.tasks[t := y])[x] == multiset(s.tasks)[x];
  }

  /** The loop is where the record says, and nowhere else. */
  lemma RegisteredTasks(s: State, t: nat, u: State, f: FutId, updated: Collected, cb: Callback, y: Task)
    requires Registered(s, t, u, f, updated, cb, y)
    ensures var c := s.tasks[t].c;
            && multiset(u.tasks)[Collecting(c, |updated.at|)] == (if updated.discardAt.None? then 1 else 0)
            && (forall j | Collecting(c, j) in u.tasks :: j == |updated.at| && updated.discardAt.None?)
  {
    var c := s.tasks[t].c;
    var n := |s.collects[c].at|;
    forall j | Collecting(c, j) in s.tasks ensures j == n { assert C.TaskOk(s, Collecting(c, j)); }
    assert multiset(s.tasks)[Collecting(c, n)] == 1;
    assert Collecting(c, n + 1) !in s.tasks;
    assert multiset(s.tasks[t := y])[Collecting(c, n)] == 0;
    assert Collecting(c, n) !in s.tasks[t := y];
    assert forall x | x in s.tasks[t := y] && x != y :: x in s.tasks;
  }

  lemma RegisteredAt(s: State, t: nat, u: State, f: FutId, updated: Collected, cb: Callback, y: Task, j: nat)
    requires Registered(s, t, u, f, updated, cb, y) && j < |updated.at|
    ensures |updated.at| <= |updated.inputs| && updated.inputs[j] < |u.cells|
            && updated.at[j] < |u.cells[updated.inputs[j]].regs|
    ensures u.cells[updated.inputs[j]].regs[updated.at[j]] == Waited(s.tasks[t].c, j)
  {
    var join := s.collects[s.tasks[t].c];
    if j < |join.at| { assert updated.at[j] == join.at[j]; }
  }

  lemma RegisteredRegistering(s: State, t: nat, u: State, f: FutId, updated: Collected, cb: Callback, y: Task)
    requires Registered(s, t, u, f, updated, cb, y)
    ensures C.Registering(u, s.tasks[t].c)
  {
    RegisteredTasks(s, t, u, f, updated, cb, y);
    forall j | 0 <= j < |updated.at|
      ensures updated.inputs[j] < |u.cells| && updated.at[j] < |u.cells[updated.inputs[j]].regs|
              && u.cells[updated.inputs[j]].regs[updated.at[j]] == Waited(s.tasks[t].c, j)
    {
      RegisteredAt(s, t, u, f, updated, cb, y, j);
    }
  }

  lemma RegisteredCounting(s: State, t: nat, u: State, f: FutId, updated: Collected, cb: Callback, y: Task)
    requires Registered(s, t, u, f, updated, cb, y)
    ensures |updated.at| <= |updated.inputs| && C.Counting(u, None, s.tasks[t].c)
  {
  }

  lemma RegisteredCollect(s: State, t: nat, u: State, f: FutId, updated: Collected, cb: Callback, y: Task)
    requires Registered(s, t, u, f, updated, cb, y)
    ensures C.CollectOk(u, None, s.tasks[t].c)
  {
    var c := s.tasks[t].c;
    RegisteredFrame(s, t, u, f, updated, cb, y);
    if Settled(s, updated.result) && s.cells[updated.result].cause == Owner {
      C.FrameGood(s, u, c, Result(s, updated.result));
    }
    RegisteredRegistering(s, t, u, f, updated, cb, y);
    RegisteredCounting(s, t, u, f, updated, cb, y);
    RegisteredMoving(s, t, u, f, updated, cb, y);
  }

  lemma RegisteredMoving(s: State, t: nat, u: State, f: FutId, updated: Collected, cb: Callback, y: Task)
    requires Registered(s, t, u, f, updated, cb, y)
    ensures C.Registering(s, s.tasks[t].c) && C.Moving(u, None, s.tasks[t].c)
  {
    var c := s.tasks[t].c;
    RegisteredFrame(s, t, u, f, updated, cb, y);
    if C.Decided(s, c) { C.FrameDecided(s, u, c); }
  }

  lemma RegisteredOthers(s: State, t: nat, u: State, f: FutId, updated: Collected, cb: Callback, y: Task)
    requires C.Inv(s, None) && Registered(s, t, u, f, updated, cb, y)
    ensures forall d | 0 <= d < |s.collects| && d != s.tasks[t].c ::
              |s.collects[d].at| <= |s.collects[d].inputs| && C.Untouched(s, None, u, None, d)
  {
    forall d | 0 <= d < |s.collects| && d != s.tasks[t].c
      ensures |s.collects[d].at| <= |s.collects[d].inputs| && C.Untouched(s, None, u, None, d)
    {
      assert C.CollectOk(s, None, d);
      RegisteredOther(s, t, u, f, updated, cb, y, d);
    }
  }

  lemma RegisteredKeeps(s: State, t: nat, u: State, f: FutId, updated: Collected, cb: Callback, y: Task)
    requires C.Inv(s, None) && Registered(s, t, u, f, updated, cb, y)
    ensures C.Inv(u, None)
  {
    var c := s.tasks[t].c;
    RegisteredFrame(s, t, u, f, updated, cb, y);
    RegisteredCollect(s, t, u, f, updated, cb, y);
    RegisteredOthers(s, t, u, f, updated, cb, y);
    forall x | x in u.tasks && (x !in s.tasks || x.Collecting?) ensures C.TaskOk(u, x) {
      if x in s.tasks { assert C.TaskOk(s, x); }
      RegisteredTask(s, t, u, f, updated, cb, y, x);
    }
    RegisteredNew(s, t, u, f, updated, cb, y);
    FrameBut(s, None, u, None, c);
  }

  lemma RegisteredNew(s: State, t: nat, u: State, f: FutId, updated: Collected, cb: Callback, y: Task)
    requires Registered(s, t, u, f, updated, cb, y)
    ensures forall g, k | 0 <= g < |u.cells| && 0 <= k < |u.cells[g].regs| && k >= |s.cells[g].regs| :: C.RegOk(u, g, k)
  {
  }

  lemma RegisteredTask(s: State, t: nat, u: State, f: FutId, updated: Collected, cb: Callback, y: Task, x: Task)
    requires Registered(s, t, u, f, updated, cb, y)
    requires x in u.tasks && (x !in s.tasks || x.Collecting?) && (x in s.tasks ==> C.TaskOk(s, x))
    ensures C.TaskOk(u, x)
  {
    RegisteredTasks(s, t, u, f, updated, cb, y);
    if x in s.tasks && x.c != s.tasks[t].c { assert u.collects[x.c] == s.collects[x.c]; }
  }

  lemma CollectNextKeeps(s: State, t: nat)
    requires C.Inv(s, None) && Cells.Inv(s) && TaskEnabled(s, t, 0) && s.tasks[t].Collecting?
    ensures C.Inv(CollectNext(s, t), None)
  {
    var c := s.tasks[t].c;
    assert s.tasks[t] in s.tasks && C.TaskOk(s, s.tasks[t]) && C.CollectOk(s, None, c);
    var join, u := s.collects[c], CollectNext(s, t);
    var j := |join.at|;
    var f := if j < |join.inputs| then join.inputs[j] else join.result;
    var updated := if j < |join.inputs| then join.(at := join.at + [|s.cells[f].regs|])
        else join.(discardAt := Some(|s.cells[f].regs|));
    var cb := if j < |join.inputs| then Waited(c, j) else Discarded(c);
    var y := if j < |join.inputs| then Collecting(c, j + 1) else Done;
    assert Cells.CellOk(s, f);
    assert s.tasks[t := y] + [] == s.tasks[t := y];
    RegisteredKeeps(s, t, u, f, updated, cb, y);
  }

  lemma CallCollectKeeps(s: State, inputs: seq<FutId>)
    requires C.Inv(s, None) && Cells.Inv(s) && Enabled(s, CallCollect(inputs))
    ensures C.Inv(Apply(s, CallCollect(inputs)), None)
  {
    var c, u := |s.collects|, Apply(s, CallCollect(inputs));
    if inputs == [] {
      C.AllocKeeps(s, None, Root);
      C.SettleKeeps(Alloc(s, Root), None, |s.cells|, Ok(List([])), Owner);
    } else {
      C.TasksKept(s, u);
      assert Collecting(c, 0) !in s.tasks by { assert !C.TaskOk(s, Collecting(c, 0)); }
      assert C.CollectOk(u, None, c);
      forall d | 0 <= d < |s.collects|
        ensures |s.collects[d].at| <= |s.collects[d].inputs| && C.Untouched(s, None, u, None, d)
      {
        assert C.CollectOk(s, None, d);
      }
      forall x | x in u.tasks && x.Collecting? ensures C.TaskOk(u, x) {
        if x in s.tasks { assert C.TaskOk(s, x); }
      }
      FrameBut(s, None, u, None, c);
    }
  }

  // --- every event --------------------------------------------------------

  lemma DrainKeeps(s: State, t: nat, g: FutId)
    requires C.Inv(s, None) && Cells.Inv(s) && ThenChains.Inv(s, None)
    requires TaskEnabled(s, t, g) && s.tasks[t].Drain?
    ensures C.Inv(TaskStep(s, t, g), None)
  {
    var f, i := s.tasks[t].f, s.tasks[t].i;
    assert s.tasks[t] in s.tasks && Cells.TaskOk(s, s.tasks[t]) && Cells.CellOk(s, f);
    if i < |s.cells[f].callbacks| {
      assert Cells.Once(s, f, i) && ThenChains.RegOk(s, f, i);
      var u := TakeNext(s, t);
      Cells.TakeNextKeeps(s, t);
      C.TakeKeeps(s, u, f, i);
      assert ThenChains.RegOk(u, f, i);
      ActKeeps(u, f, i, g);
    } else {
      C.MoveKeeps(s, Clear(s, t), None, t, Done);
    }
  }

  lemma LateKeeps(s: State, t: nat, g: FutId)
    requires C.Inv(s, None) && Cells.Inv(s) && ThenChains.Inv(s, None)
    requires TaskEnabled(s, t, g) && s.tasks[t].Call?
    ensures C.Inv(TaskStep(s, t, g), None)
  {
    var f, k := s.tasks[t].f, s.tasks[t].k;
    assert s.tasks[t] in s.tasks && Cells.TaskOk(s, s.tasks[t]) && Cells.CellOk(s, f);
    assert Cells.Once(s, f, k) && ThenChains.RegOk(s, f, k);
    var u := TakeLate(s, t);
    Cells.TakeLateKeeps(s, t);
    C.TakeKeeps(s, u, f, k);
    assert ThenChains.RegOk(u, f, k);
    ActKeeps(u, f, k, g);
  }

  lemma SetKeeps(s: State, t: nat)
    requires C.Inv(s, None) && t < |s.tasks| && s.tasks[t].SetTo? && s.tasks[t].dst < |s.cells|
    ensures C.Inv(Settle(Become(s, t, Done), s.tasks[t].dst, s.tasks[t].o, Owner), None)
  {
    var d, o := s.tasks[t].dst, s.tasks[t].o;
    assert s.tasks[t] in s.tasks && C.TaskOk(s, s.tasks[t]);
    var u := Settle(s, d, o, Owner);
    C.SettleKeeps(s, None, d, o, Owner);
    assert u.tasks[t] == s.tasks[t];
    C.MoveKeeps(u, Become(u, t, Done), None, t, Done);
    assert s.tasks[t := Done] + [Drain(d, 0)] == (s.tasks + [Drain(d, 0)])[t := Done];
  }

  lemma DiscardKeeps(s: State, t: nat)
    requires C.Inv(s, None) && TaskEnabled(s, t, 0) && s.tasks[t].Discarding?
    ensures C.Inv(DiscardNext(s, t), None)
  {
    var c, j := s.tasks[t].c, s.tasks[t].j;
    var join := s.collects[c];
    assert s.tasks[t] in s.tasks && C.TaskOk(s, s.tasks[t]);
    if j < |join.inputs| {
      var u := Settle(s, join.inputs[j], Failed(KERROR), Discard(c));
      C.SettleKeeps(s, None, join.inputs[j], Failed(KERROR), Discard(c));
      assert u.tasks[t] == s.tasks[t] && u.tasks[t] in u.tasks && C.TaskOk(u, u.tasks[t]);
      C.MoveKeeps(u, Become(u, t, Discarding(c, j + 1)), None, t, Discarding(c, j + 1));
    } else {
      C.MoveKeeps(s, Become(s, t, Done), None, t, Done);
    }
  }

  lemma AssociateKeeps(s: State, t: nat)
    requires C.Inv(s, None) && t < |s.tasks| && s.tasks[t].Associating? && s.tasks[t].dst < |s.cells|
    ensures C.Inv(Associate(s, t), None)
  {
    assert s.tasks[t] in s.tasks && C.TaskOk(s, s.tasks[t]);
    var u := Associate(s, t);
    C.MoveKeeps(s, u, None, t, u.tasks[t]);
  }

  lemma LinkKeeps(s: State, t: nat)
    requires C.Inv(s, None) && t < |s.tasks| && s.tasks[t].Link?
    requires s.tasks[t].dst < |s.cells| && s.tasks[t].g < |s.cells|
    ensures C.Inv(LinkTo(s, t), None)
  {
    var d, g := s.tasks[t].dst, s.tasks[t].g;
    assert s.tasks[t] in s.tasks && C.TaskOk(s, s.tasks[t]);
    var u := Become(Put(s, d, s.cells[d].(assoc := Linked(g, |s.cells[g].regs|))), t, Done);
    C.MoveKeeps(s, u, None, t, Done);
    C.OnCompleteKeeps(u, None, g, Complete(d));
  }

  lemma StepKeeps(s: State, e: Event)
    requires C.Inv(s, None) && Cells.Inv(s) && ThenChains.Inv(s, None) && Enabled(s, e)
    ensures C.Inv(Apply(s, e), None)
  {
    match e
    case New => C.AllocKeeps(s, None, Root);
    case Register(f, tag) => C.OnCompleteKeeps(s, None, f, User(tag));
    case SetFuture(f, o) => C.SettleKeeps(s, None, f, o, Outside);
    case SetPromise(f, o) => C.AddKeeps(s, None, SetTo(f, o));
    case JoinPromise(f, g) => C.AddKeeps(s, None, Associating(f, g));
    case CallThen(f, k, async) =>
      var o := ThenOf(f, k, async, |s.cells[f].regs|);
      C.AllocKeeps(s, None, o);
      C.OnCompleteKeeps(Alloc(s, o), None, f, ThenCallback(k, async, |s.cells|));
    case CallCollect(inputs) => CallCollectKeeps(s, inputs);
    case Step(t, g) =>
      match s.tasks[t] {
        case Drain(_, _) => DrainKeeps(s, t, g);
        case Call(_, _, _) => LateKeeps(s, t, g);
        case SetTo(_, _) => SetKeeps(s, t);
        case Associating(_, _) => AssociateKeeps(s, t);
        case Link(_, _) => LinkKeeps(s, t);
        case Discarding(_, _) => DiscardKeeps(s, t);
        case Collecting(_, _) => CollectNextKeeps(s, t);
      }
  }
}
