/** `Collect`: the n-way join over any list of futures, settled in any order. */
module Collects {
  import opened Basics
  import opened Futures
  import opened ThenChains

  ghost predicate AllSettled(s: State, c: nat)
    requires c < |s.collects|
  {
    forall j | 0 <= j < |s.collects[c].inputs| :: Settled(s, s.collects[c].inputs[j])
  }

  ghost predicate AllOk(s: State, c: nat)
    requires c < |s.collects|
  {
    forall j | 0 <= j < |s.collects[c].inputs| ::
      Settled(s, s.collects[c].inputs[j]) && Result(s, s.collects[c].inputs[j]).Ok?
  }

  /** Input `j` failed with outcome `o`, and not because collect `c` discarded it. */
  ghost predicate GenuineFailure(s: State, c: nat, j: nat, o: Outcome)
    requires c < |s.collects|
  {
    && j < |s.collects[c].inputs| && Settled(s, s.collects[c].inputs[j])
    && Result(s, s.collects[c].inputs[j]) == o
    && s.cells[s.collects[c].inputs[j]].cause != Discard(c)
  }

  /** What the inputs allow as the result: all values in list order, or the code of an
      input that failed by itself. */
  ghost predicate Good(s: State, c: nat, o: Outcome)
    requires c < |s.collects|
  {
    match o
    case Ok(_) => AllOk(s, c) && o == Ok(Gather(s, s.collects[c].inputs))
    case Failed(_) => exists j :: GenuineFailure(s, c, j, o)
  }

  ghost predicate Discarder(s: State, c: nat) {
    exists j :: Discarding(c, j) in s.tasks
  }

  ghost predicate RegOk(s: State, f: FutId, k: nat)
    requires f < |s.cells| && k < |s.cells[f].regs|
  {
    match s.cells[f].regs[k]
    case Waited(c, j) =>
      && c < |s.collects| && j < |s.collects[c].at| <= |s.collects[c].inputs|
      && s.collects[c].inputs[j] == f && s.collects[c].at[j] == k
    case Discarded(c) => c < |s.collects| && s.collects[c].result == f && s.collects[c].discardAt == Some(k)
    case Complete(d) => d < |s.cells| && !s.cells[d].origin.CollectOf?
    case _ => true
  }

  /** The registration loop: one thread, at the next input. */
  ghost predicate Registering(s: State, c: nat)
    requires c < |s.collects|
  {
    var join := s.collects[c];
    && join.inputs != [] && |join.at| <= |join.inputs|
    && multiset(s.tasks)[Collecting(c, |join.at|)] == (if join.discardAt.None? then 1 else 0)
    && (forall j | 0 <= j < |join.at| ::
          && join.inputs[j] < |s.cells| && join.at[j] < |s.cells[join.inputs[j]].regs|
          && s.cells[join.inputs[j]].regs[join.at[j]] == Waited(c, j))
    && (join.discardAt.Some? ==>
          && |join.at| == |join.inputs| && join.result < |s.cells| && join.discardAt.value < |s.cells[join.result].regs|
          && s.cells[join.result].regs[join.discardAt.value] == Discarded(c))
  }

  /** The counter counts inputs, each once. */
  ghost predicate Counting(s: State, cur: Current, c: nat)
    requires c < |s.collects| && |s.collects[c].at| <= |s.collects[c].inputs|
  {
    var join := s.collects[c];
    && join.ready == |join.doneOk|
    && (forall j | j in join.doneOk ::
          && j < |join.at| && Acted(s, cur, join.inputs[j], join.at[j])
          && Settled(s, join.inputs[j]) && Result(s, join.inputs[j]).Ok?)
  }

  ghost predicate Decided(s: State, c: nat)
    requires c < |s.collects|
  {
    Settled(s, s.collects[c].result) || Promised(s, s.collects[c].result)
  }

  ghost predicate Moving(s: State, cur: Current, c: nat)
    requires c < |s.collects| && |s.collects[c].at| <= |s.collects[c].inputs|
  {
    var join := s.collects[c];
    && (forall j | 0 <= j < |join.at| && Acted(s, cur, join.inputs[j], join.at[j]) ::
          && Settled(s, join.inputs[j])
          && (Result(s, join.inputs[j]).Ok? ==> j in join.doneOk)
          && (Result(s, join.inputs[j]).Failed? ==> Decided(s, c)))
    && (|join.doneOk| == |join.inputs| ==> Decided(s, c))
    && (join.discardAt.Some? && Acted(s, cur, join.result, join.discardAt.value) ==>
          Discarder(s, c) || AllSettled(s, c))
  }

  ghost predicate CollectOk(s: State, cur: Current, c: nat)
    requires c < |s.collects|
  {
    var join := s.collects[c];
    && join.result < |s.cells| && s.cells[join.result].origin == CollectOf(c) && !s.cells[join.result].associated
    && (s.cells[join.result].outcome.Some? && s.cells[join.result].cause == Owner ==>
          Good(s, c, s.cells[join.result].outcome.value))
    && Registering(s, c)
    && Counting(s, cur, c)
    && Moving(s, cur, c)
  }

  /** A future is discarded only by a collect whose result is known. */
  ghost predicate CauseOk(s: State, f: FutId)
    requires f < |s.cells|
  {
    var cell := s.cells[f];
    && (cell.outcome.Some? && cell.cause.Discard? ==>
          cell.cause.c < |s.collects| && Settled(s, s.collects[cell.cause.c].result))
    && (cell.origin.CollectOf? ==> cell.origin.c < |s.collects| && s.collects[cell.origin.c].result == f)
  }

  ghost predicate TaskOk(s: State, x: Task) {
    match x
    case SetTo(d, o) =>
      && d < |s.cells|
      && (s.cells[d].origin.CollectOf? ==>
            s.cells[d].origin.c < |s.collects| && (Settled(s, d) || Good(s, s.cells[d].origin.c, o)))
    case Associating(d, _) => d < |s.cells| && !s.cells[d].origin.CollectOf?
    case Link(d, _) => d < |s.cells| && !s.cells[d].origin.CollectOf?
    case Collecting(c, j) => c < |s.collects| && j == |s.collects[c].at| && s.collects[c].discardAt.None?
    case Discarding(c, j) =>
      && c < |s.collects| && Settled(s, s.collects[c].result)
      && (forall i | 0 <= i < |s.collects[c].inputs| && i < j :: Settled(s, s.collects[c].inputs[i]))
    case _ => true
  }

  ghost predicate Inv(s: State, cur: Current) {
    && (forall f, k | 0 <= f < |s.cells| && 0 <= k < |s.cells[f].regs| :: RegOk(s, f, k))
    && (forall c | 0 <= c < |s.collects| :: CollectOk(s, cur, c))
    && (forall f | 0 <= f < |s.cells| :: CauseOk(s, f))
    && (forall x | x in s.tasks :: TaskOk(s, x))
  }

  // --- frame --------------------------------------------------------------

  ghost predicate SameCell(cell: Cell, after: Cell) {
    && after.origin == cell.origin && cell.regs <= after.regs
    && (cell.origin.CollectOf? ==> after.associated == cell.associated)
    && (cell.outcome.Some? ==> after.outcome == cell.outcome && after.cause == cell.cause)
  }

  /** Futures that become settled do so as the invariant asks. */
  ghost predicate NewlySettled(s: State, u: State, f: FutId)
    requires f < |s.cells| && f < |u.cells|
  {
    s.cells[f].outcome.None? && u.cells[f].outcome.Some? ==>
      && (u.cells[f].cause.Discard? ==>
            u.cells[f].cause.c < |s.collects| && Settled(s, s.collects[u.cells[f].cause.c].result))
      && (u.cells[f].origin.CollectOf? && u.cells[f].cause == Owner && u.cells[f].origin.c < |s.collects| ==>
            Good(s, u.cells[f].origin.c, u.cells[f].outcome.value))
  }

  /** What a step does to futures and tasks: futures may be settled, created and
      registered on; promised results stay promised and discarding goes on. */
  ghost predicate Frame(s: State, u: State) {
    && |s.cells| <= |u.cells| && |s.collects| <= |u.collects|
    && (forall c | 0 <= c < |s.collects| ::
          u.collects[c].inputs == s.collects[c].inputs && u.collects[c].result == s.collects[c].result)
    && (forall f | 0 <= f < |s.cells| :: SameCell(s.cells[f], u.cells[f]) && NewlySettled(s, u, f))
    && (forall x | x in s.tasks && x.SetTo? :: x in u.tasks || Settled(u, x.dst))
    && (forall c | 0 <= c < |s.collects| && Discarder(s, c) :: Discarder(u, c) || AllSettled(u, c))
  }

  /** The step does not concern the record of collect `c`, nor its registrations. */
  ghost predicate Untouched(s: State, cur: Current, u: State, now: Current, c: nat)
    requires c < |s.collects| && c < |u.collects| && |s.collects[c].at| <= |s.collects[c].inputs|
  {
    var join := s.collects[c];
    && u.collects[c] == join
    && multiset(u.tasks)[Collecting(c, |join.at|)] == multiset(s.tasks)[Collecting(c, |join.at|)]
    && (forall j | 0 <= j < |join.at| ::
          Acted(u, now, join.inputs[j], join.at[j]) == Acted(s, cur, join.inputs[j], join.at[j]))
    && (join.discardAt.Some? ==>
          Acted(u, now, join.result, join.discardAt.value) == Acted(s, cur, join.result, join.discardAt.value))
  }

  lemma FrameSettled(s: State, u: State, f: FutId)
    requires Frame(s, u) && Settled(s, f)
    ensures Settled(u, f) && Result(u, f) == Result(s, f) && u.cells[f].cause == s.cells[f].cause
  {
    assert SameCell(s.cells[f], u.cells[f]);
  }

  lemma FrameGood(s: State, u: State, c: nat, o: Outcome)
    requires Frame(s, u) && c < |s.collects| && Good(s, c, o)
    ensures Good(u, c, o)
  {
    var join := s.collects[c];
    match o
    case Ok(_) =>
      forall j | 0 <= j < |join.inputs|
        ensures Settled(u, join.inputs[j]) && Result(u, join.inputs[j]) == Result(s, join.inputs[j])
      {
        FrameSettled(s, u, join.inputs[j]);
      }
      assert Gather(u, join.inputs) == Gather(s, join.inputs);
    case Failed(_) =>
      var j: nat :| GenuineFailure(s, c, j, o);
      FrameSettled(s, u, join.inputs[j]);
      assert GenuineFailure(u, c, j, o);
  }

  lemma FrameDecided(s: State, u: State, c: nat)
    requires Frame(s, u) && c < |s.collects| && Decided(s, c)
    ensures Decided(u, c)
  {
    var d := s.collects[c].result;
    if Settled(s, d) {
      FrameSettled(s, u, d);
    } else {
      var o :| SetTo(d, o) in s.tasks;
      assert SetTo(d, o) in u.tasks || Settled(u, d);
    }
  }

  lemma FrameCounting(s: State, cur: Current, u: State, now: Current, c: nat)
    requires Frame(s, u) && c < |s.collects| && CollectOk(s, cur, c) && Untouched(s, cur, u, now, c)
    ensures Counting(u, now, c)
  {
    var join := s.collects[c];
    forall j | j in join.doneOk
      ensures Acted(u, now, join.inputs[j], join.at[j]) && Settled(u, join.inputs[j])
              && Result(u, join.inputs[j]) == Result(s, join.inputs[j])
    {
      FrameSettled(s, u, join.inputs[j]);
    }
  }

  lemma FrameMoving(s: State, cur: Current, u: State, now: Current, c: nat)
    requires Frame(s, u) && c < |s.collects| && CollectOk(s, cur, c) && Untouched(s, cur, u, now, c)
    ensures Moving(u, now, c)
  {
    var join := s.collects[c];
    if Decided(s, c) { FrameDecided(s, u, c); }
    forall j | 0 <= j < |join.at| && Acted(u, now, join.inputs[j], join.at[j])
      ensures Acted(s, cur, join.inputs[j], join.at[j]) && Settled(u, join.inputs[j])
              && Result(u, join.inputs[j]) == Result(s, join.inputs[j])
    {
      assert Acted(s, cur, join.inputs[j], join.at[j]);
      FrameSettled(s, u, join.inputs[j]);
    }
    if AllSettled(s, c) {
      forall j | 0 <= j < |join.inputs| ensures Settled(u, join.inputs[j]) {
        FrameSettled(s, u, join.inputs[j]);
      }
    }
  }

  lemma FrameRegistering(s: State, cur: Current, u: State, now: Current, c: nat)
    requires Frame(s, u) && c < |s.collects| && CollectOk(s, cur, c) && Untouched(s, cur, u, now, c)
    ensures Registering(u, c)
  {
    var join := s.collects[c];
    assert SameCell(s.cells[join.result], u.cells[join.result]);
    forall j | 0 <= j < |join.at|
      ensures join.at[j] < |u.cells[join.inputs[j]].regs| && u.cells[join.inputs[j]].regs[join.at[j]] == Waited(c, j)
    {
      assert SameCell(s.cells[join.inputs[j]], u.cells[join.inputs[j]]);
    }
  }

  lemma FrameCollect(s: State, cur: Current, u: State, now: Current, c: nat)
    requires Frame(s, u) && c < |s.collects| && CollectOk(s, cur, c) && Untouched(s, cur, u, now, c)
    ensures CollectOk(u, now, c)
  {
    var join := s.collects[c];
    assert SameCell(s.cells[join.result], u.cells[join.result]) && NewlySettled(s, u, join.result);
    FrameRegistering(s, cur, u, now, c);
    FrameCounting(s, cur, u, now, c);
    FrameMoving(s, cur, u, now, c);
    if u.cells[join.result].outcome.Some? && u.cells[join.result].cause == Owner {
      FrameGood(s, u, c, u.cells[join.result].outcome.value);
    }
  }

  lemma FrameTask(s: State, u: State, x: Task)
    requires Frame(s, u) && x in s.tasks && TaskOk(s, x)
    requires x.Collecting? ==> u.collects[x.c] == s.collects[x.c]
    ensures TaskOk(u, x)
  {
    match x
    case SetTo(d, o) =>
      assert SameCell(s.cells[d], u.cells[d]);
      if s.cells[d].origin.CollectOf? && !Settled(s, d) {
        FrameGood(s, u, s.cells[d].origin.c, o);
      }
    case Associating(d, _) => assert SameCell(s.cells[d], u.cells[d]);
    case Link(d, _) => assert SameCell(s.cells[d], u.cells[d]);
    case Discarding(c, j) =>
      FrameSettled(s, u, s.collects[c].result);
      forall i | 0 <= i < |s.collects[c].inputs| && i < j ensures Settled(u, s.collects[c].inputs[i]) {
        FrameSettled(s, u, s.collects[c].inputs[i]);
      }
    case _ =>
  }

  predicate Harmless(s: State, cb: Callback) {
    !cb.Waited? && !cb.Discarded? && (cb.Complete? ==> cb.dst < |s.cells| && !s.cells[cb.dst].origin.CollectOf?)
  }

  lemma FrameKeeps(s: State, cur: Current, u: State, now: Current)
    requires Inv(s, cur) && Frame(s, u) && u.collects == s.collects
    requires forall f, k | 0 <= f < |s.cells| && 0 <= k < |s.cells[f].regs| ::
               Acted(u, now, f, k) == Acted(s, cur, f, k)
    requires forall x: Task | x.Collecting? :: multiset(u.tasks)[x] == multiset(s.tasks)[x]
    requires forall x | x in u.tasks && x !in s.tasks :: TaskOk(u, x)
    requires forall f, k | 0 <= f < |u.cells| && 0 <= k < |u.cells[f].regs|
                           && (f >= |s.cells| || k >= |s.cells[f].regs|) :: Harmless(s, u.cells[f].regs[k])
    requires forall f | |s.cells| <= f < |u.cells| :: u.cells[f].outcome.None? && !u.cells[f].origin.CollectOf?
    ensures Inv(u, now)
  {
    forall f, k | 0 <= f < |u.cells| && 0 <= k < |u.cells[f].regs| ensures RegOk(u, f, k) {
      if f < |s.cells| && k < |s.cells[f].regs| {
        assert SameCell(s.cells[f], u.cells[f]) && RegOk(s, f, k);
      }
      var cb := u.cells[f].regs[k];
      if cb.Complete? { assert SameCell(s.cells[cb.dst], u.cells[cb.dst]); }
    }
    forall c | 0 <= c < |u.collects| ensures CollectOk(u, now, c) {
      assert CollectOk(s, cur, c);
      FrameCollect(s, cur, u, now, c);
    }
    forall f | 0 <= f < |u.cells| ensures CauseOk(u, f) {
      if f < |s.cells| {
        assert SameCell(s.cells[f], u.cells[f]) && NewlySettled(s, u, f) && CauseOk(s, f);
        if u.cells[f].outcome.Some? && u.cells[f].cause.Discard? {
          FrameSettled(s, u, s.collects[u.cells[f].cause.c].result);
        }
      }
    }
    forall x | x in u.tasks ensures TaskOk(u, x) {
      if x in s.tasks { FrameTask(s, u, x); }
    }
  }

  lemma SettleKeeps(s: State, cur: Current, f: FutId, o: Outcome, cause: Cause)
    requires Inv(s, cur) && f < |s.cells|
    requires cause.Discard? ==> cause.c < |s.collects| && Settled(s, s.collects[cause.c].result)
    requires s.cells[f].outcome.None? && s.cells[f].origin.CollectOf? && cause == Owner ==>
               s.cells[f].origin.c < |s.collects| && Good(s, s.cells[f].origin.c, o)
    ensures Inv(Settle(s, f, o, cause), cur)
  {
    var u := Settle(s, f, o, cause);
    forall c | 0 <= c < |s.collects| && Discarder(s, c) ensures Discarder(u, c) {
      var j :| Discarding(c, j) in s.tasks;
      assert Discarding(c, j) in u.tasks;
    }
    FrameKeeps(s, cur, u, cur);
  }

  lemma AddKeeps(s: State, cur: Current, x: Task)
    requires Inv(s, cur) && !x.Collecting? && TaskOk(AddTask(s, x), x)
    ensures Inv(AddTask(s, x), cur)
  {
    var u := AddTask(s, x);
    forall c | 0 <= c < |s.collects| && Discarder(s, c) ensures Discarder(u, c) {
      var j :| Discarding(c, j) in s.tasks;
      assert Discarding(c, j) in u.tasks;
    }
    FrameKeeps(s, cur, u, cur);
  }

  /** Every task but the one at `t` is still there. */
  lemma StillThere(s: State, t: nat, x: Task, y: Task)
    requires t < |s.tasks| && y in s.tasks && y != s.tasks[t]
    ensures y in s.tasks[t := x]
  {
    var i :| 0 <= i < |s.tasks| && s.tasks[i] == y;
    assert s.tasks[t := x][i] == y;
  }

  /** Moves a task, and with it fields of futures that collects do not read. */
  lemma MoveKeeps(s: State, u: State, cur: Current, t: nat, x: Task)
    requires Inv(s, cur) && t < |s.tasks| && u.tasks == s.tasks[t := x] && u.collects == s.collects
    requires |u.cells| == |s.cells|
    requires forall f | 0 <= f < |s.cells| ::
               && SameCell(s.cells[f], u.cells[f]) && u.cells[f].outcome == s.cells[f].outcome
               && u.cells[f].regs == s.cells[f].regs && u.cells[f].ran == s.cells[f].ran
    requires !s.tasks[t].Collecting? && !x.Collecting? && TaskOk(u, x)
    requires s.tasks[t].SetTo? ==> Settled(s, s.tasks[t].dst)
    requires s.tasks[t].Discarding? && s.tasks[t].c < |s.collects| ==>
               (x.Discarding? && x.c == s.tasks[t].c) || AllSettled(s, s.tasks[t].c)
    ensures Inv(u, cur)
  {
    forall y | y in s.tasks && y.SetTo? ensures y in u.tasks || Settled(u, y.dst) {
      if y != s.tasks[t] { StillThere(s, t, x, y); }
    }
    forall c | 0 <= c < |s.collects| && Discarder(s, c) ensures Discarder(u, c) || AllSettled(u, c) {
      var j :| Discarding(c, j) in s.tasks;
      if Discarding(c, j) != s.tasks[t] {
        StillThere(s, t, x, Discarding(c, j));
        assert Discarder(u, c);
      } else if x.Discarding? && x.c == c {
        assert u.tasks[t] == Discarding(c, x.j);
      }
    }
    FrameKeeps(s, cur, u, cur);
  }

  // --- registrations, new futures, starting a callback --------------------

  lemma OnCompleteKeeps(s: State, cur: Current, f: FutId, cb: Callback)
    requires Inv(s, cur) && f < |s.cells| && Harmless(s, cb)
    ensures Inv(OnComplete(s, f, cb), cur)
  {
    var u := OnComplete(s, f, cb);
    TasksKept(s, u);
    FrameKeeps(s, cur, u, cur);
  }

  lemma AllocKeeps(s: State, cur: Current, origin: Origin)
    requires Inv(s, cur) && !origin.CollectOf?
    ensures Inv(Alloc(s, origin), cur)
  {
    var u := Alloc(s, origin);
    TasksKept(s, u);
    FrameKeeps(s, cur, u, cur);
  }

  lemma TasksKept(s: State, u: State)
    requires forall x | x in s.tasks :: x in u.tasks
    ensures forall c | Discarder(s, c) :: Discarder(u, c)
  {
    forall c | Discarder(s, c) ensures Discarder(u, c) {
      var j :| Discarding(c, j) in s.tasks;
      assert Discarding(c, j) in u.tasks;
    }
  }

  lemma TakeKeeps(s: State, u: State, f: FutId, k: nat)
    requires Inv(s, None) && f < |s.cells| && k !in s.cells[f].ran && u.collects == s.collects
    requires |u.cells| == |s.cells| && u.cells == s.cells[f := u.cells[f]]
    requires u.cells[f] == s.cells[f].(ran := s.cells[f].ran + [k], started := u.cells[f].started)
    requires forall x: Task | !x.Drain? && !x.Call? && !x.Done? :: multiset(u.tasks)[x] == multiset(s.tasks)[x]
    ensures Inv(u, Some((f, k)))
  {
    forall c | Discarder(s, c) ensures Discarder(u, c) {
      var j :| Discarding(c, j) in s.tasks;
      assert multiset(u.tasks)[Discarding(c, j)] > 0;
      assert Discarding(c, j) in u.tasks;
    }
    forall x | x in s.tasks && x.SetTo? ensures x in u.tasks { assert multiset(u.tasks)[x] > 0; }
    forall x | x in u.tasks && !x.Drain? && !x.Call? && !x.Done? ensures x in s.tasks {
      assert multiset(s.tasks)[x] > 0;
    }
    FrameKeeps(s, None, u, Some((f, k)));
  }

  /** What collect `c` owes for the current registration is done. */
  ghost predicate Honoured(s: State, f: FutId, k: nat)
    requires f < |s.cells| && k < |s.cells[f].regs| && Settled(s, f)
  {
    match s.cells[f].regs[k]
    case Waited(c, j) =>
      c < |s.collects| && if Result(s, f).Ok? then j in s.collects[c].doneOk else Decided(s, c)
    case Discarded(c) => c < |s.collects| && (Discarder(s, c) || AllSettled(s, c))
    case _ => true
  }

  lemma Finish(s: State, f: FutId, k: nat)
    requires Inv(s, Some((f, k))) && Settled(s, f) && k < |s.cells[f].regs| && k in s.cells[f].ran
    requires Honoured(s, f, k)
    ensures Inv(s, None)
  {
    assert RegOk(s, f, k);
    forall c | 0 <= c < |s.collects| ensures CollectOk(s, None, c) {
      assert CollectOk(s, Some((f, k)), c);
      var join := s.collects[c];
      assert forall g: nat, m: nat | (g, m) != (f, k) :: Acted(s, None, g, m) <==> Acted(s, Some((f, k)), g, m);
    }
  }
}
