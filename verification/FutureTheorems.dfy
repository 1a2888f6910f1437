/** What futures, `Then` and `Collect` promise, for every run of the transition system. */
module FutureTheorems {
  import opened Basics
  import opened Futures
  import Cells = FutureCells
  import opened ThenChains
  import Collects
  import CollectSteps

  ghost predicate AllInv(s: State) {
    Cells.Inv(s) && ThenChains.Inv(s, None) && Collects.Inv(s, None)
  }

  ghost predicate Reachable(s: State) {
    exists stage: (nat, Value) -> Value, es: seq<Event> :: Possible(Init(stage), es) && s == Run(Init(stage), es)
  }

  lemma StepInv(s: State, e: Event)
    requires AllInv(s) && Enabled(s, e)
    ensures AllInv(Apply(s, e))
  {
    Cells.StepKeeps(s, e);
    forall c | 0 <= c < |s.collects|
      ensures s.collects[c].result < |s.cells| && s.cells[s.collects[c].result].origin == CollectOf(c)
    {
      assert Collects.CollectOk(s, None, c);
    }
    ThenChains.StepKeeps(s, e);
    CollectSteps.StepKeeps(s, e);
  }

  lemma {:induction false} RunInv(s: State, es: seq<Event>)
    requires AllInv(s) && Possible(s, es)
    ensures AllInv(Run(s, es))
    decreases |es|
  {
    if es != [] {
      StepInv(s, es[0]);
      RunInv(Apply(s, es[0]), es[1..]);
    }
  }

  lemma ReachableInv(s: State)
    requires Reachable(s)
    ensures AllInv(s)
  {
    var stage: (nat, Value) -> Value, es: seq<Event> :| Possible(Init(stage), es) && s == Run(Init(stage), es);
    RunInv(Init(stage), es);
  }

  lemma {:induction false} RunAppend(s: State, es: seq<Event>, fs: seq<Event>)
    requires Possible(s, es) && Possible(Run(s, es), fs)
    ensures Possible(s, es + fs) && Run(s, es + fs) == Run(Run(s, es), fs)
    decreases |es|
  {
    if es == [] {
      assert es + fs == fs;
    } else {
      var t, all := Apply(s, es[0]), es + fs;
      assert all[0] == es[0] && all[1..] == es[1..] + fs;
      assert Run(s, es) == Run(t, es[1..]);
      RunAppend(t, es[1..], fs);
      assert Possible(s, all) && Run(s, all) == Run(t, all[1..]);
    }
  }

  lemma ReachableOn(s: State, es: seq<Event>)
    requires Reachable(s) && Possible(s, es)
    ensures Reachable(Run(s, es))
  {
    var stage: (nat, Value) -> Value, before: seq<Event> :|
      Possible(Init(stage), before) && s == Run(Init(stage), before);
    RunAppend(Init(stage), before, es);
  }

  lemma ReachableNext(s: State, e: Event, es: seq<Event>)
    requires Reachable(s) && Enabled(s, e) && Possible(Apply(s, e), es)
    ensures Reachable(Apply(s, e)) && Reachable(Run(Apply(s, e), es))
  {
    var t := Apply(s, e);
    assert Possible(s, [e]) && Run(s, [e]) == t by { assert [e][1..] == []; }
    ReachableOn(s, [e]);
    ReachableOn(t, es);
  }

  /** No thread has anything left to do. */
  predicate Quiescent(s: State) {
    forall x | x in s.tasks :: x.Done?
  }

  // --- callbacks ----------------------------------------------------------

  /** Never while the future is unsettled; those registered before it was settled in
      registration order; none twice; and all of them by the time all threads are
      done. Late registrations are no exception. */
  lemma ExactlyOnceTheorem(s: State, f: FutId, k: nat)
    requires Reachable(s) && f < |s.cells| && k < |s.cells[f].regs|
    ensures multiset(s.cells[f].ran)[k] <= 1
    ensures !Settled(s, f) ==> s.cells[f].ran == []
    ensures Settled(s, f) ==>
              Cells.Below(s.cells[f].ran, s.cells[f].frozen) == Cells.Upto(s.cells[f].started)
    ensures Settled(s, f) && Quiescent(s) ==> multiset(s.cells[f].ran)[k] == 1
  {
    ReachableInv(s);
    assert Cells.CellOk(s, f);
    assert Cells.Once(s, f, k);
    if Settled(s, f) && Quiescent(s) {
      assert Drain(f, s.cells[f].started) !in s.tasks;
      assert Call(f, k, s.cells[f].regs[k]) !in s.tasks;
    }
  }

  /** What no event can undo: outcome, cause, the set of pending callbacks at the
      moment of settling, registrations and started callbacks. */
  ghost predicate Later(cell: Cell, after: Cell) {
    && after.origin == cell.origin && cell.regs <= after.regs && cell.ran <= after.ran
        && (cell.associated ==> after.associated)
    && (cell.outcome.Some? ==>
          after.outcome == cell.outcome && after.cause == cell.cause && after.frozen == cell.frozen)
  }

  ghost predicate AllLater(s: State, u: State) {
    && |s.cells| <= |u.cells| && u.stage == s.stage
    && forall f | 0 <= f < |s.cells| :: Later(s.cells[f], u.cells[f])
  }

  lemma ActLater(s: State, o: Outcome, cb: Callback, g: FutId)
    requires InHeap(s, cb)
    ensures AllLater(s, Act(s, o, cb, g))
  {
  }

  lemma CallLater(s: State, t: nat, g: FutId)
    requires TaskEnabled(s, t, g) && (s.tasks[t].Drain? || s.tasks[t].Call?)
    ensures AllLater(s, TaskStep(s, t, g))
  {
    var f := s.tasks[t].f;
    if s.tasks[t].Call? {
      var u := TakeLate(s, t);
      assert AllLater(s, u);
      ActLater(u, s.cells[f].outcome.value, s.tasks[t].cb, g);
    } else if s.tasks[t].i < |s.cells[f].callbacks| {
      var u := TakeNext(s, t);
      assert AllLater(s, u);
      ActLater(u, s.cells[f].outcome.value, s.cells[f].callbacks[s.tasks[t].i], g);
    }
  }

  lemma LinkLater(s: State, t: nat, g: FutId)
    requires TaskEnabled(s, t, g) && (s.tasks[t].Associating? || s.tasks[t].Link?)
    ensures AllLater(s, TaskStep(s, t, g))
  {
  }

  lemma LoopLater(s: State, t: nat, g: FutId)
    requires TaskEnabled(s, t, g) && (s.tasks[t].SetTo? || s.tasks[t].Discarding? || s.tasks[t].Collecting?)
    ensures AllLater(s, TaskStep(s, t, g))
  {
  }

  lemma TaskLater(s: State, t: nat, g: FutId)
    requires TaskEnabled(s, t, g)
    ensures AllLater(s, TaskStep(s, t, g))
  {
    var x := s.tasks[t];
    if x.Drain? || x.Call? { CallLater(s, t, g); }
    else if x.Associating? || x.Link? { LinkLater(s, t, g); }
    else { LoopLater(s, t, g); }
  }

  lemma StepLater(s: State, e: Event)
    requires Enabled(s, e)
    ensures AllLater(s, Apply(s, e))
  {
    if e.Step? { TaskLater(s, e.t, e.g); }
  }

  /** The first setter wins for good, whichever events follow. */
  lemma {:induction false} WriteOnceTheorem(s: State, es: seq<Event>)
    requires Possible(s, es)
    ensures AllLater(s, Run(s, es))
    decreases |es|
  {
    if es != [] {
      StepLater(s, es[0]);
      WriteOnceTheorem(Apply(s, es[0]), es[1..]);
    }
  }

  /** Event `e` hands future `f` the outcome `o`. */
  ghost predicate Offers(s: State, e: Event, f: FutId, o: Outcome) {
    match e
    case SetFuture(g, p) => g == f && p == o
    case Step(t, _) =>
      t < |s.tasks| && (
        match s.tasks[t]
        case SetTo(d, p) => d == f && p == o
        case Drain(g, i) =>
          Settled(s, g) && i < |s.cells[g].callbacks| && s.cells[g].callbacks[i] == Complete(f) && Result(s, g) == o
        case Call(g, _, cb) => cb == Complete(f) && Settled(s, g) && Result(s, g) == o
        case Discarding(c, j) =>
          c < |s.collects| && j < |s.collects[c].inputs| && s.collects[c].inputs[j] == f && o == Failed(KERROR)
        case _ => false)
    case _ => false
  }

  lemma ActSettles(s: State, o: Outcome, cb: Callback, g: FutId, f: FutId)
    requires InHeap(s, cb) && f < |s.cells| && !Settled(s, f) && Settled(Act(s, o, cb, g), f)
    ensures cb == Complete(f) && Result(Act(s, o, cb, g), f) == o
  {
  }

  lemma TaskOffers(s: State, t: nat, g: FutId, f: FutId)
    requires TaskEnabled(s, t, g) && f < |s.cells| && !Settled(s, f) && Settled(TaskStep(s, t, g), f)
    ensures Offers(s, Step(t, g), f, Result(TaskStep(s, t, g), f))
  {
    match s.tasks[t]
    case Drain(h, i) =>
      if i < |s.cells[h].callbacks| {
        ActSettles(TakeNext(s, t), s.cells[h].outcome.value, s.cells[h].callbacks[i], g, f);
      }
    case Call(h, _, cb) => ActSettles(TakeLate(s, t), s.cells[h].outcome.value, cb, g, f);
    case _ =>
  }

  /** A future takes the whole outcome, status and value, of one competitor. */
  lemma OneCompetitor(s: State, e: Event, f: FutId)
    requires Enabled(s, e) && f < |s.cells| && !Settled(s, f) && Settled(Apply(s, e), f)
    ensures Offers(s, e, f, Result(Apply(s, e), f))
  {
    if e.Step? { TaskOffers(s, e.t, e.g, f); }
  }

  /** Whatever a thread still has to do, it can do now. */
  lemma NeverStuck(s: State, t: nat)
    requires AllInv(s) && t < |s.tasks| && !s.tasks[t].Done?
    ensures TaskEnabled(s, t, 0)
  {
    var x := s.tasks[t];
    assert x in s.tasks && Cells.TaskOk(s, x);
    if x.Collecting? || x.Discarding? { assert Cells.InputsOk(s, x.c); }
    if x.Drain? || x.Call? { assert Cells.CellOk(s, x.f); }
  }

  // --- Then ---------------------------------------------------------------

  /** A link of a chain: a stage that returns a value, or one that returns a future
      which in the end has outcome `o`. */
  datatype Stage = Sync(k: nat) | Async(o: Outcome)

  /** Reference semantics of a chain: thread the value through the stages, stop at the
      first error. */
  function Fold(stage: (nat, Value) -> Value, stages: seq<Stage>, o: Outcome): Outcome {
    if stages == [] || o.Failed? then o
    else Fold(stage, stages[1..], if stages[0].Sync? then Ok(stage(stages[0].k, o.v)) else stages[0].o)
  }

  /** `fs` is a chain: each future is the `Then` future of the one before it, with the
      stage listed; nobody but the chain settled them. */
  ghost predicate Chain(s: State, fs: seq<FutId>, stages: seq<Stage>) {
    && |fs| == |stages| + 1
    && (forall i | 0 <= i < |stages| :: LinkOf(s, fs[i], fs[i + 1], stages[i]))
  }

  ghost predicate LinkOf(s: State, f: FutId, d: FutId, st: Stage) {
    && d < |s.cells| && s.cells[d].origin.ThenOf? && s.cells[d].origin.src == f
    && (s.cells[d].outcome.Some? ==> s.cells[d].cause == Owner)
    && match st
       case Sync(k) => !s.cells[d].origin.async && s.cells[d].origin.k == k
       case Async(o) =>
         s.cells[d].origin.async
         && (s.cells[d].assoc.Linked? && Settled(s, s.cells[d].assoc.g) ==> Result(s, s.cells[d].assoc.g) == o)
  }

  lemma OneLink(s: State, f: FutId, d: FutId, st: Stage)
    requires AllInv(s) && LinkOf(s, f, d, st) && Settled(s, d)
    ensures Settled(s, f) && Result(s, d) == Fold(s.stage, [st], Result(s, f))
    ensures s.cells[d].called <==> Result(s, f).Ok?
  {
    assert ThenOk(s, None, d);
    assert Right(s, d, Result(s, d));
    assert [st][1..] == [];
  }

  lemma {:induction false} FoldSnoc(stage: (nat, Value) -> Value, stages: seq<Stage>, st: Stage, o: Outcome)
    ensures Fold(stage, stages + [st], o) == Fold(stage, [st], Fold(stage, stages, o))
    decreases |stages|
  {
    if stages == [] || o.Failed? {
      assert stages == [] ==> stages + [st] == [st];
    } else {
      assert (stages + [st])[1..] == stages[1..] + [st];
      FoldSnoc(stage, stages[1..], st, if stages[0].Sync? then Ok(stage(stages[0].k, o.v)) else stages[0].o);
    }
  }

  /** Chains of any length: the last outcome is the fold of the stages over the first. */
  lemma {:induction false} ThenFoldTheorem(s: State, fs: seq<FutId>, stages: seq<Stage>)
    requires Reachable(s) && Chain(s, fs, stages) && Settled(s, fs[|stages|])
    ensures Settled(s, fs[0]) && Result(s, fs[|stages|]) == Fold(s.stage, stages, Result(s, fs[0]))
    decreases |stages|
  {
    ReachableInv(s);
    if stages != [] {
      var n := |stages| - 1;
      assert LinkOf(s, fs[n], fs[n + 1], stages[n]);
      OneLink(s, fs[n], fs[n + 1], stages[n]);
      assert fs[..n + 1][n] == fs[n];
      ThenFoldTheorem(s, fs[..n + 1], stages[..n]);
      FoldSnoc(s.stage, stages[..n], stages[n], Result(s, fs[0]));
      assert stages[..n] + [stages[n]] == stages;
    }
  }

  /** A stage function has been called only if everything before it went well, and
      the first error passes through every later link unchanged. */
  lemma {:induction false} ShortCircuitTheorem(s: State, fs: seq<FutId>, stages: seq<Stage>, i: nat)
    requires Reachable(s) && Chain(s, fs, stages) && i <= |stages| && Settled(s, fs[|stages|])
    ensures Settled(s, fs[i])
    ensures Result(s, fs[i]).Failed? ==> Result(s, fs[|stages|]) == Result(s, fs[i])
    ensures forall j | i < j < |fs| && Result(s, fs[i]).Failed? :: fs[j] < |s.cells| && !s.cells[fs[j]].called
    ensures forall j | 0 < j <= i && Result(s, fs[i]).Ok? :: fs[j] < |s.cells| && s.cells[fs[j]].called
    decreases |stages|
  {
    ReachableInv(s);
    if stages != [] {
      var n := |stages| - 1;
      assert LinkOf(s, fs[n], fs[n + 1], stages[n]);
      OneLink(s, fs[n], fs[n + 1], stages[n]);
      assert fs[..n + 1][n] == fs[n];
      var m := if i <= n then i else n;
      ShortCircuitTheorem(s, fs[..n + 1], stages[..n], m);
      assert forall j | 0 <= j <= n :: fs[..n + 1][j] == fs[j];
    }
  }

  /** When all threads are done, a settled source has settled its `Then` future, unless
      the future returned by an asynchronous stage is itself unsettled. */
  lemma ThenCompletes(s: State, d: FutId)
    requires Reachable(s) && Quiescent(s) && d < |s.cells| && s.cells[d].origin.ThenOf?
    ensures s.cells[d].origin.src < |s.cells|
    ensures Settled(s, s.cells[d].origin.src) ==>
              (s.cells[d].called <==> Result(s, s.cells[d].origin.src).Ok?)
    ensures Settled(s, s.cells[d].origin.src) && !Settled(s, d) ==>
              && s.cells[d].origin.async && s.cells[d].called
              && s.cells[d].assoc.Linked? && !Settled(s, s.cells[d].assoc.g)
  {
    ReachableInv(s);
    assert ThenOk(s, None, d);
    var thenOf := s.cells[d].origin;
    if Settled(s, thenOf.src) {
      ExactlyOnceTheorem(s, thenOf.src, thenOf.idx);
      assert thenOf.idx in s.cells[thenOf.src].ran;
      if s.cells[d].assoc.Linked? && Settled(s, s.cells[d].assoc.g) {
        ExactlyOnceTheorem(s, s.cells[d].assoc.g, s.cells[d].assoc.at);
        assert Acted(s, None, s.cells[d].assoc.g, s.cells[d].assoc.at);
      }
      if !Settled(s, d) {
        assert !Promised(s, d);
        assert forall x: Task | !x.Done? :: multiset(s.tasks)[x] == 0;
      }
    }
  }

  /** The future that an asynchronous stage returned has been settled, if the link got as far
      as being associated with it. */
  ghost predicate Returned(s: State, d: FutId, st: Stage) {
    st.Async? && d < |s.cells| && s.cells[d].assoc.Linked? ==> Settled(s, s.cells[d].assoc.g)
  }

  lemma LinkCompletes(s: State, f: FutId, d: FutId, st: Stage)
    requires Reachable(s) && Quiescent(s) && LinkOf(s, f, d, st) && Settled(s, f)
    ensures Settled(s, d) <==> Returned(s, d, st)
  {
    ReachableInv(s);
    assert ThenOk(s, None, d);
    ThenCompletes(s, d);
    if Settled(s, d) { assert Right(s, d, Result(s, d)); }
  }

  /** When all threads are done, settling the root has settled the whole chain if and only if
      the futures that its asynchronous stages returned are settled; synchronous stages never
      hold it up. The last outcome is then the fold. */
  lemma {:induction false} ChainCompletesTheorem(s: State, fs: seq<FutId>, stages: seq<Stage>)
    requires Reachable(s) && Quiescent(s) && Chain(s, fs, stages) && Settled(s, fs[0])
    ensures (forall i | 0 <= i < |fs| :: Settled(s, fs[i]))
            <==> forall i | 0 <= i < |stages| :: Returned(s, fs[i + 1], stages[i])
    ensures (forall i | 0 <= i < |fs| :: Settled(s, fs[i])) ==>
              Result(s, fs[|stages|]) == Fold(s.stage, stages, Result(s, fs[0]))
    decreases |stages|
  {
    if stages != [] {
      var n := |stages| - 1;
      assert LinkOf(s, fs[n], fs[n + 1], stages[n]);
      ChainCompletesTheorem(s, fs[..n + 1], stages[..n]);
      assert forall i | 0 <= i <= n :: fs[..n + 1][i] == fs[i];
      assert forall i | 0 <= i < n :: stages[..n][i] == stages[i] && fs[..n + 1][i + 1] == fs[i + 1];
      if Settled(s, fs[n]) { LinkCompletes(s, fs[n], fs[n + 1], stages[n]); }
    }
    if Settled(s, fs[|stages|]) { ThenFoldTheorem(s, fs, stages); }
  }

  // --- Collect ------------------------------------------------------------

  /** The outcome is the list of the values of the inputs, one for each, in list order. */
  ghost predicate InOrder(s: State, inputs: seq<FutId>, o: Outcome) {
    && o.Ok? && o.v.List? && |o.v.vs| == |inputs|
    && forall j | 0 <= j < |inputs| ::
         Settled(s, inputs[j]) && Result(s, inputs[j]).Ok? && o.v.vs[j] == Result(s, inputs[j]).v
  }

  /** Unless somebody else settled it, the result is OK exactly when every input is, with
      the values in list order, and otherwise it is the failure of an input that the
      collect did not discard itself. */
  lemma CollectTheorem(s: State, c: nat)
    requires Reachable(s) && c < |s.collects|
    requires Settled(s, s.collects[c].result) && s.cells[s.collects[c].result].cause == Owner
    ensures Result(s, s.collects[c].result).Ok? <==> Collects.AllOk(s, c)
    ensures Collects.AllOk(s, c) ==> InOrder(s, s.collects[c].inputs, Result(s, s.collects[c].result))
    ensures Result(s, s.collects[c].result).Failed? ==>
              exists j :: Collects.GenuineFailure(s, c, j, Result(s, s.collects[c].result))
  {
    ReachableInv(s);
    assert Collects.CollectOk(s, None, c);
  }

  /** When all threads are done: the result is settled as soon as one input has failed
      or all are OK, and a settled result leaves no input pending. */
  lemma CollectCompletesTheorem(s: State, c: nat)
    requires Reachable(s) && Quiescent(s) && c < |s.collects|
    ensures Settled(s, s.collects[c].result) ==> Collects.AllSettled(s, c)
    ensures Collects.AllSettled(s, c) ==> Settled(s, s.collects[c].result)
    ensures forall j | 0 <= j < |s.collects[c].inputs| && Settled(s, s.collects[c].inputs[j])
                       && Result(s, s.collects[c].inputs[j]).Failed? :: Settled(s, s.collects[c].result)
  {
    ReachableInv(s);
    assert Collects.CollectOk(s, None, c);
    var join := s.collects[c];
    assert Collecting(c, |join.at|) !in s.tasks;
    assert !Promised(s, join.result) && !Collects.Discarder(s, c);
    if Settled(s, join.result) { ExactlyOnceTheorem(s, join.result, join.discardAt.value); }
    forall j | 0 <= j < |join.inputs| && Settled(s, join.inputs[j]) ensures Acted(s, None, join.inputs[j], join.at[j]) {
      ExactlyOnceTheorem(s, join.inputs[j], join.at[j]);
    }
    if Collects.AllOk(s, c) {
      assert forall j: nat | j < |join.inputs| :: Acted(s, None, join.inputs[j], join.at[j]);
      Everyone(join.doneOk, |join.inputs|);
    }
  }

  lemma {:induction false} Everyone(items: set<nat>, n: nat)
    requires forall j: nat | j < n :: j in items
    requires forall j | j in items :: j < n
    ensures |items| == n
  {
    if n == 0 {
      assert items == {};
    } else {
      Everyone(items - {n - 1}, n - 1);
      assert items == (items - {n - 1}) + {n - 1};
    }
  }
}
