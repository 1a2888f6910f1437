/** Chains of `Then`: the outcome of a `Then` future is decided by its source and its
    stage, in whatever order threads settle and run callbacks. */
module ThenChains {
  import opened Basics
  import opened Futures
  import Cells = FutureCells

  predicate Settled(s: State, f: FutId) {
    f < |s.cells| && s.cells[f].outcome.Some?
  }

  function Result(s: State, f: FutId): Outcome
    requires Settled(s, f)
  {
    s.cells[f].outcome.value
  }

  /** The registration whose callback has just been started and has not acted yet. */
  type Current = Option<(nat, nat)>

  ghost predicate Acted(s: State, cur: Current, f: FutId, k: nat) {
    f < |s.cells| && k in s.cells[f].ran && cur != Some((f, k))
  }

  /** `o` is what source and stage make of the `Then` future `d`. */
  ghost predicate Right(s: State, d: FutId, o: Outcome)
    requires d < |s.cells| && s.cells[d].origin.ThenOf?
  {
    var cell := s.cells[d];
    && Settled(s, cell.origin.src)
    && match Result(s, cell.origin.src)
       case Failed(_) => o == Result(s, cell.origin.src)
       case Ok(v) =>
         && cell.called
         && if cell.origin.async
            then cell.assoc.Linked? && Settled(s, cell.assoc.g) && o == Result(s, cell.assoc.g)
            else o == Ok(s.stage(cell.origin.k, v))
  }

  ghost predicate Promised(s: State, d: FutId) {
    exists o :: SetTo(d, o) in s.tasks
  }

  ghost predicate RegOk(s: State, f: FutId, k: nat)
    requires f < |s.cells| && k < |s.cells[f].regs|
  {
    match s.cells[f].regs[k]
    case Then(n, d) => d < |s.cells| && s.cells[d].origin == ThenOf(f, n, false, k)
    case Thenf(n, d) => d < |s.cells| && s.cells[d].origin == ThenOf(f, n, true, k)
    case Complete(d) => d < |s.cells| && (s.cells[d].origin.ThenOf? ==> s.cells[d].assoc == Linked(f, k))
    case _ => true
  }

  /** Where the association of an asynchronous stage stands, and what keeps it moving. */
  ghost predicate AssocOk(s: State, cur: Current, d: FutId)
    requires d < |s.cells| && s.cells[d].origin.ThenOf?
  {
    var cell := s.cells[d];
    && (cell.assoc.NoAssoc? <==> !(cell.called && cell.origin.async))
    && (cell.associated <==> cell.assoc.Linking? || cell.assoc.Linked?)
    && match cell.assoc
       case NoAssoc => true
       case Asked(g) => multiset(s.tasks)[Associating(d, g)] == 1
       case Linking(g) => multiset(s.tasks)[Link(d, g)] == 1
       case Linked(g, at) =>
         && g < |s.cells| && at < |s.cells[g].regs| && s.cells[g].regs[at] == Complete(d)
         && (Acted(s, cur, g, at) ==> Settled(s, d))
       case Dropped(_) => Settled(s, d)
  }

  ghost predicate ThenOk(s: State, cur: Current, d: FutId)
    requires d < |s.cells| && s.cells[d].origin.ThenOf?
  {
    var cell := s.cells[d];
    var thenOf := cell.origin;
    && thenOf.src < |s.cells| && thenOf.idx < |s.cells[thenOf.src].regs|
    && s.cells[thenOf.src].regs[thenOf.idx] == ThenCallback(thenOf.k, thenOf.async, d)
    && (cell.outcome.Some? && cell.cause == Owner ==> Right(s, d, cell.outcome.value))
    && (cell.called ==> Acted(s, cur, thenOf.src, thenOf.idx) && Settled(s, thenOf.src) && Result(s, thenOf.src).Ok?)
    && (Acted(s, cur, thenOf.src, thenOf.idx) && Settled(s, thenOf.src) ==>
          && (Result(s, thenOf.src).Failed? || !thenOf.async ==> Settled(s, d) || Promised(s, d))
          && (Result(s, thenOf.src).Ok? ==> cell.called))
    && AssocOk(s, cur, d)
  }

  ghost predicate TaskOk(s: State, x: Task) {
    match x
    case SetTo(d, o) => d < |s.cells| && (s.cells[d].origin.ThenOf? ==> Right(s, d, o))
    case Associating(d, g) => d < |s.cells| && (s.cells[d].origin.ThenOf? ==> s.cells[d].assoc == Asked(g))
    case Link(d, g) => d < |s.cells| && (s.cells[d].origin.ThenOf? ==> s.cells[d].assoc == Linking(g))
    case _ => true
  }

  ghost predicate Inv(s: State, cur: Current) {
    && (forall f, k | 0 <= f < |s.cells| && 0 <= k < |s.cells[f].regs| :: RegOk(s, f, k))
    && (forall d | 0 <= d < |s.cells| && s.cells[d].origin.ThenOf? :: ThenOk(s, cur, d))
    && (forall x | x in s.tasks :: TaskOk(s, x))
  }

  // --- frame --------------------------------------------------------------

  /** A cell that may have been settled, but is otherwise the same to this invariant. */
  ghost predicate SameCell(cell: Cell, after: Cell) {
    && after.origin == cell.origin && after.called == cell.called && after.assoc == cell.assoc
        && after.associated == cell.associated
    && after.regs == cell.regs && after.ran == cell.ran
    && (cell.outcome.Some? ==> after.outcome == cell.outcome && after.cause == cell.cause)
  }

  predicate Special(x: Task) {
    x.SetTo? || x.Associating? || x.Link?
  }

  /** Steps that settle futures and move tasks, but neither start callbacks nor register. */
  ghost predicate Frame(s: State, u: State) {
    && |u.cells| == |s.cells| && u.stage == s.stage
    && (forall f | 0 <= f < |s.cells| :: SameCell(s.cells[f], u.cells[f]))
    && (forall f | 0 <= f < |s.cells| && s.cells[f].outcome.None? && u.cells[f].outcome.Some?
                   && u.cells[f].origin.ThenOf? && u.cells[f].cause == Owner ::
          Right(s, f, u.cells[f].outcome.value))
    && (forall x: Task | x.Associating? || x.Link? :: multiset(u.tasks)[x] == multiset(s.tasks)[x])
    && (forall x | x in s.tasks && x.SetTo? :: x in u.tasks || Settled(u, x.dst))
    && (forall x | x in u.tasks && x.SetTo? && x !in s.tasks :: TaskOk(s, x))
  }

  lemma FrameRight(s: State, u: State, d: FutId, o: Outcome)
    requires Frame(s, u) && d < |s.cells| && s.cells[d].origin.ThenOf? && Right(s, d, o)
    ensures Right(u, d, o)
  {
    assert SameCell(s.cells[d], u.cells[d]);
    var src := s.cells[d].origin.src;
    assert SameCell(s.cells[src], u.cells[src]);
    if s.cells[d].assoc.Linked? && Settled(s, s.cells[d].assoc.g) {
      assert SameCell(s.cells[s.cells[d].assoc.g], u.cells[s.cells[d].assoc.g]);
    }
  }

  lemma FrameKeeps(s: State, u: State, cur: Current)
    requires Inv(s, cur) && Frame(s, u) && Cells.Inv(s)
    ensures Inv(u, cur)
  {
    forall f, k | 0 <= f < |u.cells| && 0 <= k < |u.cells[f].regs| ensures RegOk(u, f, k) {
      assert SameCell(s.cells[f], u.cells[f]) && RegOk(s, f, k);
      FrameReg(s, u, f, k);
    }
    forall d | 0 <= d < |u.cells| && u.cells[d].origin.ThenOf? ensures ThenOk(u, cur, d) {
      assert SameCell(s.cells[d], u.cells[d]) && ThenOk(s, cur, d);
      FrameThen(s, u, cur, d);
    }
    forall x | x in u.tasks ensures TaskOk(u, x) {
      FrameTask(s, u, x);
    }
  }

  lemma FrameReg(s: State, u: State, f: FutId, k: nat)
    requires Frame(s, u) && f < |s.cells| && k < |s.cells[f].regs| && u.cells[f].regs == s.cells[f].regs
    requires RegOk(s, f, k)
    ensures RegOk(u, f, k)
  {
    var cb := s.cells[f].regs[k];
    if cb.Then? || cb.Thenf? || cb.Complete? { assert SameCell(s.cells[cb.dst], u.cells[cb.dst]); }
  }

  lemma FrameTask(s: State, u: State, x: Task)
    requires Frame(s, u) && x in u.tasks && (forall y | y in s.tasks :: TaskOk(s, y))
    ensures TaskOk(u, x)
  {
    if Special(x) {
      if x.Associating? || x.Link? { assert multiset(s.tasks)[x] > 0; }
      assert TaskOk(s, x);
      assert SameCell(s.cells[x.dst], u.cells[x.dst]);
      if x.SetTo? && s.cells[x.dst].origin.ThenOf? { FrameRight(s, u, x.dst, x.o); }
    }
  }

  lemma FrameThen(s: State, u: State, cur: Current, d: FutId)
    requires Frame(s, u) && Cells.Inv(s)
    requires d < |s.cells| && s.cells[d].origin.ThenOf? && u.cells[d].origin == s.cells[d].origin
    requires ThenOk(s, cur, d)
    ensures ThenOk(u, cur, d)
  {
    var cell, after := s.cells[d], u.cells[d];
    var src := cell.origin.src;
    assert SameCell(cell, after) && SameCell(s.cells[src], u.cells[src]);
    if after.outcome.Some? && after.cause == Owner { FrameRight(s, u, d, after.outcome.value); }
    if Promised(s, d) {
      var o :| SetTo(d, o) in s.tasks;
      assert SetTo(d, o) in u.tasks || Settled(u, d);
    }
    assert Cells.CellOk(s, src);
    if cell.assoc.Linked? { assert SameCell(s.cells[cell.assoc.g], u.cells[cell.assoc.g]); }
  }

  lemma SettleKeeps(s: State, cur: Current, f: FutId, o: Outcome, cause: Cause)
    requires Inv(s, cur) && Cells.Inv(s) && f < |s.cells|
    requires cause == Owner && s.cells[f].origin.ThenOf? && s.cells[f].outcome.None? ==> Right(s, f, o)
    ensures Inv(Settle(s, f, o, cause), cur)
  {
    FrameKeeps(s, Settle(s, f, o, cause), cur);
  }

  lemma AddKeeps(s: State, cur: Current, x: Task)
    requires Inv(s, cur) && Cells.Inv(s) && !x.Associating? && !x.Link? && TaskOk(s, x)
    ensures Inv(AddTask(s, x), cur)
  {
    FrameKeeps(s, AddTask(s, x), cur);
  }

  lemma PromiseSetKeeps(s: State, cur: Current, d: FutId, o: Outcome)
    requires Inv(s, cur) && Cells.Inv(s) && d < |s.cells|
    requires s.cells[d].origin.ThenOf? ==> Right(s, d, o)
    ensures Inv(PromiseSet(s, d, o), cur)
  {
    AddKeeps(s, cur, SetTo(d, o));
  }

  lemma BecomeKeeps(s: State, cur: Current, t: nat, x: Task)
    requires Inv(s, cur) && Cells.Inv(s) && t < |s.tasks| && !Special(x)
    requires !s.tasks[t].Associating? && !s.tasks[t].Link?
    requires s.tasks[t].SetTo? ==> Settled(s, s.tasks[t].dst)
    ensures Inv(Become(s, t, x), cur)
  {
    var u := Become(s, t, x);
    forall y | y in s.tasks && y.SetTo? ensures y in u.tasks || Settled(u, y.dst) {
      var i :| 0 <= i < |s.tasks| && s.tasks[i] == y;
      if i != t { assert u.tasks[i] == y; }
    }
    FrameKeeps(s, u, cur);
  }

  /** The bookkeeping of collects and of the callback loop is not read here. */
  lemma UnreadKeeps(s: State, cur: Current, u: State)
    requires Inv(s, cur) && Cells.Inv(s)
    requires u.stage == s.stage && u.tasks == s.tasks && |u.cells| == |s.cells|
    requires forall f | 0 <= f < |s.cells| ::
               SameCell(s.cells[f], u.cells[f]) && u.cells[f].outcome == s.cells[f].outcome
    ensures Inv(u, cur)
  {
    FrameKeeps(s, u, cur);
  }

  // --- registrations and new futures --------------------------------------

  predicate Harmless(cb: Callback) {
    cb.User? || cb.Waited? || cb.Discarded?
  }

  /** More futures, more registrations and more direct calls; the rest is the same. */
  ghost predicate Extends(s: State, u: State) {
    && |s.cells| <= |u.cells| && u.stage == s.stage
    && (forall f | 0 <= f < |s.cells| ::
          var cell, after := s.cells[f], u.cells[f];
          after == cell.(regs := after.regs, callbacks := after.callbacks) && cell.regs <= after.regs)
    && (forall x | Special(x) :: multiset(u.tasks)[x] == multiset(s.tasks)[x])
    && (forall x | x in s.tasks :: x in u.tasks)
  }

  lemma ExtendsThen(s: State, u: State, cur: Current, d: FutId)
    requires Extends(s, u) && d < |s.cells| && s.cells[d].origin.ThenOf? && ThenOk(s, cur, d)
    ensures u.cells[d].origin.ThenOf? && ThenOk(u, cur, d)
  {
    if Promised(s, d) {
      var o :| SetTo(d, o) in s.tasks;
      assert SetTo(d, o) in u.tasks;
    }
  }

  lemma ExtendsTask(s: State, u: State, x: Task)
    requires Extends(s, u) && x in u.tasks && (forall y | y in s.tasks :: TaskOk(s, y))
    ensures TaskOk(u, x)
  {
    if Special(x) {
      assert multiset(s.tasks)[x] > 0;
      assert TaskOk(s, x);
    }
  }

  lemma ExtendsReg(s: State, u: State, f: FutId, k: nat)
    requires Extends(s, u) && f < |s.cells| && k < |s.cells[f].regs| && RegOk(s, f, k)
    ensures k < |u.cells[f].regs| && RegOk(u, f, k)
  {
  }

  /** What remains to be shown after an extension: the new registrations and futures. */
  lemma ExtendsKeeps(s: State, u: State, cur: Current)
    requires Inv(s, cur) && Extends(s, u)
    requires forall f, k | 0 <= f < |u.cells| && 0 <= k < |u.cells[f].regs|
                           && (f >= |s.cells| || k >= |s.cells[f].regs|) :: RegOk(u, f, k)
    requires forall d | |s.cells| <= d < |u.cells| && u.cells[d].origin.ThenOf? :: ThenOk(u, cur, d)
    ensures Inv(u, cur)
  {
    forall f, k | 0 <= f < |u.cells| && 0 <= k < |u.cells[f].regs| ensures RegOk(u, f, k) {
      if f < |s.cells| && k < |s.cells[f].regs| { ExtendsReg(s, u, f, k); }
    }
    forall d | 0 <= d < |u.cells| && u.cells[d].origin.ThenOf? ensures ThenOk(u, cur, d) {
      if d < |s.cells| { ExtendsThen(s, u, cur, d); }
    }
    forall x | x in u.tasks ensures TaskOk(u, x) { ExtendsTask(s, u, x); }
  }

  lemma OnCompleteKeeps(s: State, cur: Current, f: FutId, cb: Callback)
    requires Inv(s, cur) && f < |s.cells| && Harmless(cb)
    ensures Inv(OnComplete(s, f, cb), cur)
  {
    ExtendsKeeps(s, OnComplete(s, f, cb), cur);
  }

  lemma AllocKeeps(s: State, cur: Current, origin: Origin)
    requires Inv(s, cur) && !origin.ThenOf?
    ensures Inv(Alloc(s, origin), cur)
  {
    ExtendsKeeps(s, Alloc(s, origin), cur);
  }

  lemma CallThenKeeps(s: State, f: FutId, k: nat, async: bool)
    requires Inv(s, None) && Cells.Inv(s) && f < |s.cells|
    ensures Inv(Apply(s, CallThen(f, k, async)), None)
  {
    var u, d := Apply(s, CallThen(f, k, async)), |s.cells|;
    CallThenExtends(s, f, k, async);
    assert Cells.CellOk(s, f);
    assert u.cells[d] == NewCell(ThenOf(f, k, async, |s.cells[f].regs|));
    assert ThenOk(u, None, d);
    ExtendsKeeps(s, u, None);
  }

  lemma CallThenExtends(s: State, f: FutId, k: nat, async: bool)
    requires f < |s.cells|
    ensures var u, n := Apply(s, CallThen(f, k, async)), |s.cells[f].regs|;
            && Extends(s, u) && |u.cells| == |s.cells| + 1
            && u.cells[f].regs == s.cells[f].regs + [ThenCallback(k, async, |s.cells|)]
            && (forall g | 0 <= g < |s.cells| && g != f :: u.cells[g] == s.cells[g])
            && RegOk(u, f, n)
  {
    var n, cb := |s.cells[f].regs|, ThenCallback(k, async, |s.cells|);
    var a := Alloc(s, ThenOf(f, k, async, n));
    assert forall x | Special(x) :: multiset(a.tasks + [Call(f, n, cb)])[x] == multiset(a.tasks)[x];
  }

  // --- starting a callback ------------------------------------------------

  /** Registration `k` of `f` is started: it is new in `ran` and becomes current. */
  lemma TakeKeeps(s: State, u: State, f: FutId, k: nat)
    requires Inv(s, None) && f < |s.cells| && k !in s.cells[f].ran
    requires u.stage == s.stage && |u.cells| == |s.cells|
    requires u.cells == s.cells[f := u.cells[f]]
    requires u.cells[f] == s.cells[f].(ran := s.cells[f].ran + [k], started := u.cells[f].started)
    requires forall x | Special(x) :: multiset(u.tasks)[x] == multiset(s.tasks)[x]
    ensures Inv(u, Some((f, k)))
  {
    forall g, m | 0 <= g < |u.cells| && 0 <= m < |u.cells[g].regs| ensures RegOk(u, g, m) {
      assert RegOk(s, g, m);
    }
    forall d | 0 <= d < |u.cells| && u.cells[d].origin.ThenOf? ensures ThenOk(u, Some((f, k)), d) {
      assert ThenOk(s, None, d);
      TakeThen(s, u, f, k, d);
    }
    forall x | x in u.tasks ensures TaskOk(u, x) {
      if Special(x) {
        assert multiset(s.tasks)[x] > 0;
        assert TaskOk(s, x);
      }
    }
  }

  lemma TakeThen(s: State, u: State, f: FutId, k: nat, d: FutId)
    requires f < |s.cells| && k !in s.cells[f].ran
    requires u.stage == s.stage && |u.cells| == |s.cells|
    requires u.cells == s.cells[f := u.cells[f]]
    requires u.cells[f] == s.cells[f].(ran := s.cells[f].ran + [k], started := u.cells[f].started)
    requires forall x | Special(x) :: multiset(u.tasks)[x] == multiset(s.tasks)[x]
    requires d < |s.cells| && s.cells[d].origin.ThenOf? && ThenOk(s, None, d)
    ensures ThenOk(u, Some((f, k)), d)
  {
    assert forall g, m :: Acted(u, Some((f, k)), g, m) <==> Acted(s, None, g, m);
    assert forall x | Special(x) :: x in s.tasks ==> multiset(u.tasks)[x] > 0;
    if Promised(s, d) {
      var o :| SetTo(d, o) in s.tasks;
      assert SetTo(d, o) in u.tasks;
    }
  }

  /** A callback that concerns no `Then` future leaves nothing to do. */
  lemma Finish(s: State, f: FutId, k: nat)
    requires Inv(s, Some((f, k))) && f < |s.cells| && k < |s.cells[f].regs|
    requires Harmless(s.cells[f].regs[k])
             || (s.cells[f].regs[k].Complete? && Settled(s, s.cells[f].regs[k].dst))
    ensures Inv(s, None)
  {
    forall d | 0 <= d < |s.cells| && s.cells[d].origin.ThenOf? ensures ThenOk(s, None, d) {
      assert ThenOk(s, Some((f, k)), d);
      assert forall g: nat, m: nat | (g, m) != (f, k) :: Acted(s, None, g, m) <==> Acted(s, Some((f, k)), g, m);
    }
  }

  // --- the callbacks ------------------------------------------------------

  /** What is known when the callback of registration `k` of `f` acts. */
  ghost predicate Starting(s: State, f: FutId, k: nat) {
    && Inv(s, Some((f, k))) && Cells.Inv(s)
    && Settled(s, f) && k < |s.cells[f].regs| && k in s.cells[f].ran
  }

  lemma ActComplete(s: State, f: FutId, k: nat)
    requires Starting(s, f, k) && s.cells[f].regs[k].Complete?
    ensures InHeap(s, s.cells[f].regs[k])
    ensures Inv(Act(s, Result(s, f), s.cells[f].regs[k], 0), None)
  {
    var d, o := s.cells[f].regs[k].dst, Result(s, f);
    assert RegOk(s, f, k);
    var u := Settle(s, d, o, Owner);
    if s.cells[d].origin.ThenOf? { assert ThenOk(s, Some((f, k)), d); }
    SettleKeeps(s, Some((f, k)), d, o, Owner);
    Finish(u, f, k);
  }

  /** Only the `Then` future of the registration itself is still owed something. */
  lemma OthersActed(s: State, f: FutId, k: nat, d: FutId, e: FutId)
    requires f < |s.cells| && k < |s.cells[f].regs|
    requires s.cells[f].regs[k].Then? || s.cells[f].regs[k].Thenf?
    requires d == s.cells[f].regs[k].dst
    requires e < |s.cells| && e != d && s.cells[e].origin.ThenOf? && ThenOk(s, Some((f, k)), e)
    ensures ThenOk(s, None, e)
  {
    assert forall g: nat, m: nat | (g, m) != (f, k) :: Acted(s, None, g, m) <==> Acted(s, Some((f, k)), g, m);
  }

  lemma ActFailed(s: State, f: FutId, k: nat, d: FutId)
    requires Starting(s, f, k) && Result(s, f).Failed? && d < |s.cells|
    requires s.cells[f].regs[k].Then? || s.cells[f].regs[k].Thenf?
    requires d == s.cells[f].regs[k].dst
    ensures Inv(PromiseSet(s, d, Result(s, f)), None)
  {
    var o := Result(s, f);
    assert RegOk(s, f, k) && ThenOk(s, Some((f, k)), d);
    var u := PromiseSet(s, d, o);
    PromiseSetKeeps(s, Some((f, k)), d, o);
    assert u == AddTask(s, SetTo(d, o));
    assert SetTo(d, o) in u.tasks;
    forall e | 0 <= e < |u.cells| && u.cells[e].origin.ThenOf? ensures ThenOk(u, None, e) {
      assert ThenOk(u, Some((f, k)), e);
      if e != d { OthersActed(u, f, k, d, e); } else { assert Promised(u, d); }
    }
  }

  /** The stage function of `d` has been called: `after` records it, `x` is what is left to do. */
  ghost function StageCalled(s: State, d: FutId, after: Cell, x: seq<Task>): State
    requires d < |s.cells|
  {
    Put(s, d, after).(tasks := s.tasks + x)
  }

  ghost predicate FirstCall(s: State, f: FutId, k: nat, d: FutId, after: Cell, x: seq<Task>) {
    && Starting(s, f, k) && Result(s, f).Ok? && d < |s.cells| && s.cells[d].origin.ThenOf?
    && (s.cells[f].regs[k].Then? || s.cells[f].regs[k].Thenf?) && d == s.cells[f].regs[k].dst
    && after == s.cells[d].(called := true, assoc := after.assoc)
    && |x| <= 1 && (forall y | y in x :: Special(y) && y.dst == d)
  }

  lemma NotCalledBefore(s: State, f: FutId, k: nat, d: FutId, after: Cell, x: seq<Task>)
    requires FirstCall(s, f, k, d, after, x)
    ensures ThenOk(s, Some((f, k)), d) && RegOk(s, f, k)
    ensures !s.cells[d].called && s.cells[d].assoc == NoAssoc && !s.cells[d].associated
    ensures forall y | y in s.tasks && Special(y) :: y.dst != d
    ensures forall g, m | 0 <= g < |s.cells| && 0 <= m < |s.cells[g].regs| :: s.cells[g].regs[m] != Complete(d)
  {
    assert RegOk(s, f, k) && ThenOk(s, Some((f, k)), d);
    forall y | y in s.tasks && Special(y) ensures y.dst != d { assert TaskOk(s, y); }
    forall g, m | 0 <= g < |s.cells| && 0 <= m < |s.cells[g].regs| ensures s.cells[g].regs[m] != Complete(d) {
      assert RegOk(s, g, m);
    }
  }

  lemma StageOthers(s: State, f: FutId, k: nat, d: FutId, after: Cell, x: seq<Task>, e: FutId)
    requires FirstCall(s, f, k, d, after, x)
    requires e < |s.cells| && e != d && s.cells[e].origin.ThenOf?
    ensures ThenOk(StageCalled(s, d, after, x), None, e)
  {
    var u := StageCalled(s, d, after, x);
    assert ThenOk(s, Some((f, k)), e);
    OthersActed(s, f, k, d, e);
    if Promised(s, e) {
      var o :| SetTo(e, o) in s.tasks;
      assert SetTo(e, o) in u.tasks;
    }
  }

  lemma StageKeeps(s: State, f: FutId, k: nat, d: FutId, after: Cell, x: seq<Task>)
    requires FirstCall(s, f, k, d, after, x)
    requires ThenOk(StageCalled(s, d, after, x), None, d)
    requires forall y | y in x :: TaskOk(StageCalled(s, d, after, x), y)
    ensures Inv(StageCalled(s, d, after, x), None)
  {
    var u := StageCalled(s, d, after, x);
    NotCalledBefore(s, f, k, d, after, x);
    forall g, m | 0 <= g < |u.cells| && 0 <= m < |u.cells[g].regs| ensures RegOk(u, g, m) {
      assert u.cells[g].regs == s.cells[g].regs && RegOk(s, g, m);
    }
    forall e | 0 <= e < |u.cells| && u.cells[e].origin.ThenOf? ensures ThenOk(u, None, e) {
      if e != d { StageOthers(s, f, k, d, after, x, e); }
    }
    forall y | y in u.tasks ensures TaskOk(u, y) {
      if y !in x {
        assert y in s.tasks && TaskOk(s, y);
        StageTask(s, f, k, d, after, x, y);
      }
    }
  }

  lemma StageTask(s: State, f: FutId, k: nat, d: FutId, after: Cell, x: seq<Task>, y: Task)
    requires FirstCall(s, f, k, d, after, x) && y in s.tasks
    ensures TaskOk(StageCalled(s, d, after, x), y)
  {
    NotCalledBefore(s, f, k, d, after, x);
    assert TaskOk(s, y);
  }

  lemma ActThen(s: State, f: FutId, k: nat)
    requires Starting(s, f, k) && s.cells[f].regs[k].Then?
    ensures InHeap(s, s.cells[f].regs[k])
    ensures Inv(Act(s, Result(s, f), s.cells[f].regs[k], 0), None)
  {
    var d, o := s.cells[f].regs[k].dst, Result(s, f);
    assert RegOk(s, f, k);
    if o.Failed? {
      ActFailed(s, f, k, d);
    } else {
      var after := s.cells[d].(called := true);
      var p := Ok(s.stage(s.cells[f].regs[k].k, o.v));
      var x := if s.cells[d].outcome.None? then [SetTo(d, p)] else [];
      assert FirstCall(s, f, k, d, after, x);
      NotCalledBefore(s, f, k, d, after, x);
      var u := StageCalled(s, d, after, x);
      assert s.tasks + [] == s.tasks;
      assert u == Act(s, o, s.cells[f].regs[k], 0);
      assert x != [] ==> SetTo(d, p) in u.tasks;
      assert Settled(u, d) || Promised(u, d);
      StageKeeps(s, f, k, d, after, x);
    }
  }

  lemma ActThenf(s: State, f: FutId, k: nat, g: FutId)
    requires Starting(s, f, k) && s.cells[f].regs[k].Thenf? && g < |s.cells|
    ensures InHeap(s, s.cells[f].regs[k])
    ensures Inv(Act(s, Result(s, f), s.cells[f].regs[k], g), None)
  {
    var d, o := s.cells[f].regs[k].dst, Result(s, f);
    assert RegOk(s, f, k);
    if o.Failed? {
      ActFailed(s, f, k, d);
    } else {
      var after := s.cells[d].(called := true, assoc := Asked(g));
      var x := [Associating(d, g)];
      assert FirstCall(s, f, k, d, after, x);
      NotCalledBefore(s, f, k, d, after, x);
      var u := StageCalled(s, d, after, x);
      assert u == Act(s, o, s.cells[f].regs[k], g);
      assert Associating(d, g) !in s.tasks;
      assert multiset(u.tasks)[Associating(d, g)] == 1;
      StageKeeps(s, f, k, d, after, x);
    }
  }

  // --- association --------------------------------------------------------

  /** A step of the association of `d`: only its `assoc` fields and one task change. */
  lemma AssocStep(s: State, d: FutId, after: Cell, t: nat, x: Task)
    requires Inv(s, None) && d < |s.cells| && t < |s.tasks|
    requires (s.tasks[t].Associating? || s.tasks[t].Link?) && s.tasks[t].dst == d
    requires (x.Link? && x.dst == d) || x.Done?
    requires after == s.cells[d].(associated := after.associated, assoc := after.assoc)
    requires s.cells[d].origin.ThenOf? ==>
               && !s.cells[d].assoc.Linked?
               && ThenOk(Become(Put(s, d, after), t, x), None, d)
               && (forall y | y in s.tasks[t := x] && Special(y) && y.dst == d ::
                     TaskOk(Become(Put(s, d, after), t, x), y))
    ensures Inv(Become(Put(s, d, after), t, x), None)
  {
    var u := Become(Put(s, d, after), t, x);
    forall g, m | 0 <= g < |u.cells| && 0 <= m < |u.cells[g].regs| ensures RegOk(u, g, m) {
      assert u.cells[g].regs == s.cells[g].regs && RegOk(s, g, m);
    }
    forall e | 0 <= e < |u.cells| && u.cells[e].origin.ThenOf? ensures ThenOk(u, None, e) {
      if e != d { AssocOthers(s, d, after, t, x, e); }
    }
    forall y | y in u.tasks ensures TaskOk(u, y) {
      if y != x { assert y in s.tasks && TaskOk(s, y); }
    }
  }

  lemma AssocOthers(s: State, d: FutId, after: Cell, t: nat, x: Task, e: FutId)
    requires Inv(s, None) && d < |s.cells| && t < |s.tasks|
    requires (s.tasks[t].Associating? || s.tasks[t].Link?) && s.tasks[t].dst == d
    requires (x.Link? && x.dst == d) || x.Done?
    requires after == s.cells[d].(associated := after.associated, assoc := after.assoc)
    requires e < |s.cells| && e != d && s.cells[e].origin.ThenOf?
    ensures ThenOk(Become(Put(s, d, after), t, x), None, e)
  {
    var u := Become(Put(s, d, after), t, x);
    assert ThenOk(s, None, e);
    if Promised(s, e) {
      var o :| SetTo(e, o) in s.tasks;
      var i :| 0 <= i < |s.tasks| && s.tasks[i] == SetTo(e, o);
      assert u.tasks[i] == SetTo(e, o);
    }
  }

  lemma AssociateKeeps(s: State, t: nat)
    requires Inv(s, None) && t < |s.tasks| && s.tasks[t].Associating? && s.tasks[t].dst < |s.cells|
    ensures Inv(Associate(s, t), None)
  {
    var d, g := s.tasks[t].dst, s.tasks[t].g;
    var cell := s.cells[d];
    assert s.tasks[t] in s.tasks && TaskOk(s, s.tasks[t]);
    var won := cell.outcome.None? && !cell.associated;
    var after := if won then cell.(associated := true, assoc := Linking(g)) else cell.(assoc := Dropped(g));
    var x := if won then Link(d, g) else Done;
    var u := Become(Put(s, d, after), t, x);
    if cell.origin.ThenOf? {
      assert ThenOk(s, None, d);
      assert Link(d, g) !in s.tasks;
      assert multiset(u.tasks)[Associating(d, g)] == 0;
      assert Associating(d, g) !in u.tasks;
      AssocThen(s, d, after, t, x);
      forall y | y in s.tasks[t := x] && Special(y) && y.dst == d ensures TaskOk(u, y) {
        if y != x { assert y in s.tasks && TaskOk(s, y); }
      }
    }
    AssocStep(s, d, after, t, x);
  }

  /** What becomes of the cell and the task of an association attempt. */
  ghost predicate Attempt(cell: Cell, after: Cell, d: FutId, g: FutId, x: Task) {
    if cell.outcome.None? && !cell.associated
    then after == cell.(associated := true, assoc := Linking(g)) && x == Link(d, g)
    else after == cell.(assoc := Dropped(g)) && x == Done
  }

  lemma AssocThen(s: State, d: FutId, after: Cell, t: nat, x: Task)
    requires Inv(s, None) && t < |s.tasks| && s.tasks[t].Associating? && s.tasks[t].dst == d < |s.cells|
    requires s.cells[d].origin.ThenOf? && Attempt(s.cells[d], after, d, s.tasks[t].g, x)
    ensures ThenOk(Become(Put(s, d, after), t, x), None, d)
  {
    var u, g := Become(Put(s, d, after), t, x), s.tasks[t].g;
    assert s.tasks[t] in s.tasks && TaskOk(s, s.tasks[t]) && ThenOk(s, None, d);
    assert Link(d, g) in s.tasks ==> TaskOk(s, Link(d, g));
  }

  /** What registering `Complete(d)` on `g` changes, as far as this invariant reads it. */
  ghost predicate LinkShape(s: State, t: nat, u: State) {
    && t < |s.tasks| && s.tasks[t].Link?
    && var d, g := s.tasks[t].dst, s.tasks[t].g;
    && d < |s.cells| && g < |s.cells| && |u.cells| == |s.cells| && u.stage == s.stage
    && (forall e | 0 <= e < |s.cells| ::
          && u.cells[e].assoc == (if e == d then Linked(g, |s.cells[g].regs|) else s.cells[e].assoc)
          && u.cells[e].regs == (if e == g then s.cells[e].regs + [Complete(d)] else s.cells[e].regs)
          && u.cells[e] == s.cells[e].(assoc := u.cells[e].assoc, regs := u.cells[e].regs,
                                       callbacks := u.cells[e].callbacks))
    && (forall x | Special(x) ::
          multiset(u.tasks)[x] == multiset(s.tasks)[x] - if x == s.tasks[t] then 1 else 0)
  }

  lemma LinkHasShape(s: State, t: nat)
    requires t < |s.tasks| && s.tasks[t].Link?
    requires s.tasks[t].dst < |s.cells| && s.tasks[t].g < |s.cells|
    ensures LinkShape(s, t, LinkTo(s, t))
  {
  }

  lemma LinkKeeps(s: State, t: nat)
    requires Inv(s, None) && Cells.Inv(s) && t < |s.tasks| && s.tasks[t].Link?
    requires s.tasks[t].dst < |s.cells| && s.tasks[t].g < |s.cells|
    ensures Inv(LinkTo(s, t), None)
  {
    LinkHasShape(s, t);
    LinkInv(s, t, LinkTo(s, t));
  }

  lemma LinkInv(s: State, t: nat, u: State)
    requires Inv(s, None) && Cells.Inv(s) && LinkShape(s, t, u)
    ensures Inv(u, None)
  {
    forall f, k | 0 <= f < |u.cells| && 0 <= k < |u.cells[f].regs| ensures RegOk(u, f, k) {
      LinkReg(s, t, u, f, k);
    }
    forall e | 0 <= e < |u.cells| && u.cells[e].origin.ThenOf? ensures ThenOk(u, None, e) {
      if e == s.tasks[t].dst { LinkThen(s, t, u); } else { LinkOther(s, t, u, e); }
    }
    forall y | y in u.tasks ensures TaskOk(u, y) {
      LinkTask(s, t, u, y);
    }
  }

  lemma LinkReg(s: State, t: nat, u: State, f: FutId, k: nat)
    requires Inv(s, None) && LinkShape(s, t, u) && f < |u.cells| && k < |u.cells[f].regs|
    ensures RegOk(u, f, k)
  {
    assert s.tasks[t] in s.tasks && TaskOk(s, s.tasks[t]);
    if k < |s.cells[f].regs| { assert RegOk(s, f, k); }
  }

  lemma LinkOther(s: State, t: nat, u: State, e: FutId)
    requires Inv(s, None) && LinkShape(s, t, u)
    requires e < |s.cells| && s.cells[e].origin.ThenOf? && e != s.tasks[t].dst
    ensures u.cells[e].origin.ThenOf? && ThenOk(u, None, e)
  {
    assert ThenOk(s, None, e);
    if Promised(s, e) {
      var o :| SetTo(e, o) in s.tasks;
      assert multiset(s.tasks)[SetTo(e, o)] > 0;
      assert SetTo(e, o) in u.tasks;
    }
  }

  lemma LinkThen(s: State, t: nat, u: State)
    requires Inv(s, None) && Cells.Inv(s) && LinkShape(s, t, u)
    requires s.cells[s.tasks[t].dst].origin.ThenOf?
    ensures u.cells[s.tasks[t].dst].origin.ThenOf? && ThenOk(u, None, s.tasks[t].dst)
  {
    var d, g := s.tasks[t].dst, s.tasks[t].g;
    assert s.tasks[t] in s.tasks && TaskOk(s, s.tasks[t]);
    assert ThenOk(s, None, d) && Cells.ListOk(s.cells[g]) by { assert Cells.CellOk(s, g); }
    assert |s.cells[g].regs| !in u.cells[g].ran;
  }

  lemma LinkTask(s: State, t: nat, u: State, y: Task)
    requires Inv(s, None) && LinkShape(s, t, u) && y in u.tasks
    ensures TaskOk(u, y)
  {
    if Special(y) {
      assert multiset(u.tasks)[y] > 0;
      assert s.tasks[t] in s.tasks && TaskOk(s, s.tasks[t]);
      assert y in s.tasks && TaskOk(s, y);
      if s.cells[s.tasks[t].dst].origin.ThenOf? { assert ThenOk(s, None, s.tasks[t].dst); }
    }
  }

  // --- every event --------------------------------------------------------

  lemma WaitedOkKeeps(s: State, cur: Current, c: nat, j: nat)
    requires Inv(s, cur) && Cells.Inv(s) && c < |s.collects|
    requires s.collects[c].result < |s.cells| && !s.cells[s.collects[c].result].origin.ThenOf?
    ensures Inv(WaitedOk(s, c, j), cur)
  {
    var join := s.collects[c];
    var t := s.(collects := s.collects[c := join.(ready := join.ready + 1, doneOk := join.doneOk + {j})]);
    UnreadKeeps(s, cur, t);
    Cells.WaitedOkKeeps(s, c, j);
    if join.ready + 1 == |join.inputs| {
      forall d | 0 <= d < |t.collects| ensures Cells.InputsOk(t, d) { assert Cells.InputsOk(s, d); }
      Cells.CollectsQuiet(s, t);
      PromiseSetKeeps(t, cur, join.result, Ok(Gather(s, join.inputs)));
    }
  }

  /** The result of a collect is not a `Then` future. */
  ghost predicate ResultsOk(s: State) {
    forall c | 0 <= c < |s.collects| ::
      s.collects[c].result < |s.cells| && s.cells[s.collects[c].result].origin == CollectOf(c)
  }

  lemma ActKeeps(s: State, f: FutId, k: nat, g: FutId)
    requires Starting(s, f, k) && ResultsOk(s) && g < |s.cells|
    ensures InHeap(s, s.cells[f].regs[k])
    ensures Inv(Act(s, Result(s, f), s.cells[f].regs[k], g), None)
  {
    var cb, o := s.cells[f].regs[k], Result(s, f);
    assert Cells.CellOk(s, f);
    assert InHeap(s, cb);
    match cb
    case Complete(_) => ActComplete(s, f, k);
    case Then(_, _) => ActThen(s, f, k);
    case Thenf(_, _) => ActThenf(s, f, k, g);
    case User(_) => Finish(s, f, k);
    case Waited(c, j) =>
      Finish(s, f, k);
      if o.Failed? { PromiseSetKeeps(s, None, s.collects[c].result, o); } else { WaitedOkKeeps(s, None, c, j); }
    case Discarded(c) =>
      Finish(s, f, k);
      AddKeeps(s, None, Discarding(c, 0));
  }

  lemma DrainKeeps(s: State, t: nat, g: FutId)
    requires Inv(s, None) && Cells.Inv(s) && ResultsOk(s) && TaskEnabled(s, t, g) && s.tasks[t].Drain?
    ensures Inv(TaskStep(s, t, g), None)
  {
    var f, i := s.tasks[t].f, s.tasks[t].i;
    assert s.tasks[t] in s.tasks && Cells.TaskOk(s, s.tasks[t]) && Cells.CellOk(s, f);
    if i < |s.cells[f].callbacks| {
      assert Cells.Once(s, f, i);
      var u := TakeNext(s, t);
      Cells.TakeNextKeeps(s, t);
      TakeKeeps(s, u, f, i);
      ActKeeps(u, f, i, g);
    } else {
      UnreadClear(s, t);
    }
  }

  lemma UnreadClear(s: State, t: nat)
    requires Inv(s, None) && Cells.Inv(s) && t < |s.tasks| && s.tasks[t].Drain? && s.tasks[t].f < |s.cells|
    ensures Inv(Clear(s, t), None)
  {
    var u := Clear(s, t);
    forall y | y in s.tasks && y.SetTo? ensures y in u.tasks {
      var i :| 0 <= i < |s.tasks| && s.tasks[i] == y;
      assert u.tasks[i] == y;
    }
    FrameKeeps(s, u, None);
  }

  lemma LateKeeps(s: State, t: nat, g: FutId)
    requires Inv(s, None) && Cells.Inv(s) && ResultsOk(s) && TaskEnabled(s, t, g) && s.tasks[t].Call?
    ensures Inv(TaskStep(s, t, g), None)
  {
    var f, k := s.tasks[t].f, s.tasks[t].k;
    assert s.tasks[t] in s.tasks && Cells.TaskOk(s, s.tasks[t]) && Cells.CellOk(s, f);
    assert Cells.Once(s, f, k);
    var u := TakeLate(s, t);
    Cells.TakeLateKeeps(s, t);
    TakeKeeps(s, u, f, k);
    ActKeeps(u, f, k, g);
  }

  lemma SetKeeps(s: State, t: nat)
    requires Inv(s, None) && Cells.Inv(s) && t < |s.tasks| && s.tasks[t].SetTo? && s.tasks[t].dst < |s.cells|
    ensures Inv(Settle(Become(s, t, Done), s.tasks[t].dst, s.tasks[t].o, Owner), None)
  {
    var d, o := s.tasks[t].dst, s.tasks[t].o;
    assert s.tasks[t] in s.tasks && TaskOk(s, s.tasks[t]) && Cells.TaskOk(s, s.tasks[t]);
    var u := Settle(s, d, o, Owner);
    SettleKeeps(s, None, d, o, Owner);
    Cells.SettleKeeps(s, d, o, Owner);
    assert u.tasks[t] == s.tasks[t];
    BecomeKeeps(u, None, t, Done);
    assert s.tasks[t := Done] + [Drain(d, 0)] == (s.tasks + [Drain(d, 0)])[t := Done];
  }

  lemma DiscardKeeps(s: State, t: nat)
    requires Inv(s, None) && Cells.Inv(s) && TaskEnabled(s, t, 0) && s.tasks[t].Discarding?
    ensures Inv(DiscardNext(s, t), None)
  {
    var c, j := s.tasks[t].c, s.tasks[t].j;
    var join := s.collects[c];
    if j < |join.inputs| {
      var u := Settle(s, join.inputs[j], Failed(KERROR), Discard(c));
      SettleKeeps(s, None, join.inputs[j], Failed(KERROR), Discard(c));
      Cells.SettleKeeps(s, join.inputs[j], Failed(KERROR), Discard(c));
      assert u.tasks[t] == s.tasks[t];
      BecomeKeeps(u, None, t, Discarding(c, j + 1));
    } else {
      BecomeKeeps(s, None, t, Done);
    }
  }

  lemma CollectingKeeps(s: State, t: nat)
    requires Inv(s, None) && Cells.Inv(s) && TaskEnabled(s, t, 0) && s.tasks[t].Collecting?
    ensures Inv(CollectNext(s, t), None)
  {
    var c, j := s.tasks[t].c, s.tasks[t].j;
    var join := s.collects[c];
    var updated := if j < |join.inputs| then join.(at := join.at + [|s.cells[join.inputs[j]].regs|])
             else join.(discardAt := Some(|s.cells[join.result].regs|));
    var x := if j < |join.inputs| then Collecting(c, j + 1) else Done;
    BecomeKeeps(s, None, t, x);
    var u := Become(s, t, x);
    var v := u.(collects := s.collects[c := updated]);
    Cells.BecomeQuiet(s, t, x);
    UnreadKeeps(u, None, v);
    if j < |join.inputs| {
      OnCompleteKeeps(v, None, join.inputs[j], Waited(c, j));
    } else {
      OnCompleteKeeps(v, None, join.result, Discarded(c));
    }
  }

  lemma JoinKeeps(s: State, f: FutId, g: FutId)
    requires Inv(s, None) && f < |s.cells| && !s.cells[f].origin.ThenOf?
    ensures Inv(AddTask(s, Associating(f, g)), None)
  {
    var u := AddTask(s, Associating(f, g));
    forall d | 0 <= d < |u.cells| && u.cells[d].origin.ThenOf? ensures ThenOk(u, None, d) {
      assert ThenOk(s, None, d);
      if Promised(s, d) {
        var o :| SetTo(d, o) in s.tasks;
        assert SetTo(d, o) in u.tasks;
      }
    }
    forall f, k | 0 <= f < |u.cells| && 0 <= k < |u.cells[f].regs| ensures RegOk(u, f, k) {
      assert RegOk(s, f, k);
    }
    forall y | y in u.tasks ensures TaskOk(u, y) {
      if y != Associating(f, g) { assert y in s.tasks && TaskOk(s, y); }
    }
  }

  lemma CallCollectKeeps(s: State, inputs: seq<FutId>)
    requires Inv(s, None) && Cells.Inv(s) && Enabled(s, CallCollect(inputs))
    ensures Inv(Apply(s, CallCollect(inputs)), None)
  {
    if inputs == [] {
      AllocKeeps(s, None, Root);
      Cells.AllocKeeps(s, Root);
      SettleKeeps(Alloc(s, Root), None, |s.cells|, Ok(List([])), Owner);
    } else {
      var c := |s.collects|;
      AllocKeeps(s, None, CollectOf(c));
      Cells.AllocKeeps(s, CollectOf(c));
      var a := Alloc(s, CollectOf(c));
      AddKeeps(a, None, Collecting(c, 0));
      var b := AddTask(a, Collecting(c, 0));
      var u := Apply(s, CallCollect(inputs));
      assert u == b.(collects := u.collects);
      CollectsOnly(b, u);
    }
  }

  /** The table of collects is not read here at all. */
  lemma CollectsOnly(s: State, u: State)
    requires Inv(s, None) && u == s.(collects := u.collects)
    ensures Inv(u, None)
  {
    forall d | 0 <= d < |u.cells| && u.cells[d].origin.ThenOf? ensures ThenOk(u, None, d) {
      assert ThenOk(s, None, d);
      if Promised(s, d) {
        var o :| SetTo(d, o) in s.tasks;
        assert SetTo(d, o) in u.tasks;
      }
    }
    forall f, k | 0 <= f < |u.cells| && 0 <= k < |u.cells[f].regs| ensures RegOk(u, f, k) {
      assert RegOk(s, f, k);
    }
    forall y | y in u.tasks ensures TaskOk(u, y) { assert TaskOk(s, y); }
  }

  lemma StepKeeps(s: State, e: Event)
    requires Inv(s, None) && Cells.Inv(s) && ResultsOk(s) && Enabled(s, e)
    ensures Inv(Apply(s, e), None)
  {
    match e
    case New => AllocKeeps(s, None, Root);
    case Register(f, tag) => OnCompleteKeeps(s, None, f, User(tag));
    case SetFuture(f, o) => SettleKeeps(s, None, f, o, Outside);
    case SetPromise(f, o) => PromiseSetKeeps(s, None, f, o);
    case JoinPromise(f, g) => JoinKeeps(s, f, g);
    case CallThen(f, k, async) => CallThenKeeps(s, f, k, async);
    case CallCollect(inputs) => CallCollectKeeps(s, inputs);
    case Step(t, g) =>
      match s.tasks[t] {
        case Drain(_, _) => DrainKeeps(s, t, g);
        case Call(_, _, _) => LateKeeps(s, t, g);
        case SetTo(_, _) => SetKeeps(s, t);
        case Associating(_, _) => AssociateKeeps(s, t);
        case Link(_, _) => LinkKeeps(s, t);
        case Discarding(_, _) => DiscardKeeps(s, t);
        case Collecting(_, _) => CollectingKeeps(s, t);
      }
  }
}
