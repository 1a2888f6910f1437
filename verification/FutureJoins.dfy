/** What the holder of a promise can do: set it, or join its future to another one. */
module FutureJoins {
  import opened Basics
  import opened Futures
  import Cells = FutureCells
  import opened ThenChains
  import opened FutureTheorems
  import opened FutureRaces
  import opened FutureFrames

  // --- joining and setting ------------------------------------------------

  /** How often a thread is about to do `x`. */
  ghost function Count(s: State, x: Task): nat {
    multiset(s.tasks)[x]
  }

  /** No thread is about to do anything with `f` but `x`. */
  ghost predicate OnlyTask(s: State, f: FutId, x: Task) {
    Count(s, x) == 1 && forall y: Task | About(y, f) && y != x :: Count(s, y) == 0
  }

  ghost predicate NoTask(s: State, f: FutId) {
    forall y: Task | About(y, f) :: Count(s, y) == 0
  }

  ghost predicate NeverCompleted(s: State, f: FutId) {
    forall h: FutId, k: nat :: !CompletesAt(s, f, h, k)
  }

  /** The promise of `f` has not been used: nothing is under way for it. */
  ghost predicate Unused(s: State, f: FutId) {
    && f < |s.cells| && s.cells[f].origin.Root? && !Settled(s, f) && !s.cells[f].associated && NoTask(s, f)
  }

  /** Somebody else has settled `f`. */
  ghost predicate Foreign(s: State, f: FutId) {
    Settled(s, f) && s.cells[f].cause != Owner
  }

  /** The promise of `f` has been set to `o`, or is about to be. */
  ghost predicate Setting(s: State, f: FutId, o: Outcome) {
    && f < |s.cells| && s.cells[f].origin.Root? && NeverCompleted(s, f)
    && if Settled(s, f) then s.cells[f].cause == Owner && Result(s, f) == o && NoTask(s, f)
       else !s.cells[f].associated && OnlyTask(s, f, SetTo(f, o))
  }

  /** Registration `at` of `g` is the only one that completes `f`; once called it has. */
  ghost predicate LinkedAt(s: State, f: FutId, g: FutId, at: nat) {
    && CompletesAt(s, f, g, at) && (at in s.cells[g].ran ==> Settled(s, f))
    && forall h: FutId, k: nat | CompletesAt(s, f, h, k) :: h == g && k == at
  }

  /** How far `f` is with joining `g`. */
  ghost predicate Joining(s: State, f: FutId, g: FutId) {
    && f < |s.cells| && g < |s.cells| && s.cells[f].origin.Root?
    && if Settled(s, f) then
         && s.cells[f].cause == Owner && NoTask(s, f)
         && Settled(s, g) && Result(s, f) == Result(s, g) && exists at :: LinkedAt(s, f, g, at)
       else if !s.cells[f].associated then NeverCompleted(s, f) && OnlyTask(s, f, Associating(f, g))
       else if NoTask(s, f) then exists at :: LinkedAt(s, f, g, at)
       else NeverCompleted(s, f) && OnlyTask(s, f, Link(f, g))
  }

  lemma KeptSetting(s: State, t: State, f: FutId, o: Outcome)
    requires Setting(s, f, o) && Kept(s, t, f)
    ensures Setting(t, f, o)
  {
  }

  lemma KeptJoining(s: State, t: State, f: FutId, g: FutId)
    requires Joining(s, f, g) && Kept(s, t, f) && AllLater(s, t)
    ensures Joining(t, f, g)
  {
    assert Later(s.cells[g], t.cells[g]);
    if at: nat :| LinkedAt(s, f, g, at) { assert LinkedAt(t, f, g, at); }
  }

  // --- the steps that do concern `f` --------------------------------------

  lemma OneLess(s: State, t: nat, x: Task, y: Task)
    requires t < |s.tasks|
    ensures Count(Become(s, t, x), y) == Count(s, y) - (if y == s.tasks[t] then 1 else 0) + (if y == x then 1 else 0)
  {
  }

  lemma SameRegs(s: State, t: State, f: FutId)
    requires NeverCompleted(s, f) && |t.cells| == |s.cells|
    requires forall h | 0 <= h < |s.cells| :: t.cells[h].regs == s.cells[h].regs
    ensures NeverCompleted(t, f)
  {
    forall h: FutId, k: nat ensures !CompletesAt(t, f, h, k) { assert !CompletesAt(s, f, h, k); }
  }

  lemma SetToStep(s: State, t: nat, g: FutId, f: FutId, o: Outcome)
    requires TaskEnabled(s, t, g) && s.tasks[t] == SetTo(f, o) && Setting(s, f, o) && !Settled(s, f)
    ensures Setting(TaskStep(s, t, g), f, o)
  {
    var u, v := Become(s, t, Done), TaskStep(s, t, g);
    assert v.tasks == u.tasks + [Drain(f, 0)];
    forall y: Task | About(y, f) ensures Count(v, y) == 0 {
      OneLess(s, t, Done, y);
      assert Count(v, y) == Count(u, y);
    }
    SameRegs(s, v, f);
  }

  lemma AssociateStep(s: State, t: nat, g: FutId, f: FutId)
    requires TaskEnabled(s, t, 0) && s.tasks[t] == Associating(f, g) && Joining(s, f, g) && !Settled(s, f)
    requires !s.cells[f].associated
    ensures Joining(TaskStep(s, t, 0), f, g)
  {
    var v := TaskStep(s, t, 0);
    forall y: Task | About(y, f) ensures Count(v, y) == if y == Link(f, g) then 1 else 0 {
      OneLess(s, t, Link(f, g), y);
    }
    assert About(Link(f, g), f);
    SameRegs(s, v, f);
  }

  lemma LinkTasks(s: State, t: nat, g: FutId, f: FutId)
    requires TaskEnabled(s, t, 0) && s.tasks[t] == Link(f, g) && OnlyTask(s, f, Link(f, g))
    ensures NoTask(TaskStep(s, t, 0), f)
  {
    var u, v := Become(s, t, Done), TaskStep(s, t, 0);
    forall y: Task | About(y, f) ensures Count(v, y) == 0 {
      OneLess(s, t, Done, y);
      assert v.tasks == u.tasks || v.tasks == u.tasks + [Call(g, |s.cells[g].regs|, Complete(f))];
    }
  }

  lemma LinkRegs(s: State, t: nat, g: FutId, f: FutId)
    requires Cells.Inv(s) && TaskEnabled(s, t, 0) && s.tasks[t] == Link(f, g) && NeverCompleted(s, f)
    ensures LinkedAt(TaskStep(s, t, 0), f, g, |s.cells[g].regs|)
  {
    var v, at := TaskStep(s, t, 0), |s.cells[g].regs|;
    assert Cells.CellOk(s, g);
    forall h: FutId, k: nat | CompletesAt(v, f, h, k) ensures h == g && k == at { assert !CompletesAt(s, f, h, k); }
  }

  lemma LinkStep(s: State, t: nat, g: FutId, f: FutId)
    requires Cells.Inv(s) && TaskEnabled(s, t, 0) && s.tasks[t] == Link(f, g) && Joining(s, f, g) && !Settled(s, f)
    requires s.cells[f].associated && NeverCompleted(s, f) && OnlyTask(s, f, Link(f, g))
    ensures Joining(TaskStep(s, t, 0), f, g)
  {
    LinkTasks(s, t, g, f);
    LinkRegs(s, t, g, f);
  }

  /** The registration a thread is about to call. */
  lemma DueAt(s: State, t: nat, k: FutId, f: FutId) returns (h: FutId, at: nat)
    requires Cells.Inv(s) && TaskEnabled(s, t, k) && Due(s, t) == Complete(f)
    ensures (s.tasks[t].Drain? || s.tasks[t].Call?) && h == s.tasks[t].f && Settled(s, h) && CompletesAt(s, f, h, at)
    ensures s.tasks[t].Drain? ==> at == s.tasks[t].i < |s.cells[h].callbacks| && s.cells[h].callbacks[at] == Complete(f)
    ensures s.tasks[t].Call? ==> at == s.tasks[t].k && s.tasks[t].cb == Complete(f)
  {
    var x := s.tasks[t];
    assert x in s.tasks && Cells.TaskOk(s, x);
    h, at := x.f, if x.Drain? then x.i else x.k;
    assert Cells.CellOk(s, h);
  }

  /** The callback that completes `f` hands it the outcome of `g`. */
  lemma CompleteShape(s: State, t: nat, k: FutId, f: FutId)
    requires Cells.Inv(s) && TaskEnabled(s, t, k) && Due(s, t) == Complete(f) && f < |s.cells|
    ensures var h, u := s.tasks[t].f, TaskStep(s, t, k);
            && |u.cells| == |s.cells| && Settled(s, h) && Settled(u, h) && Result(u, h) == Result(s, h)
            && u.cells[f].origin == s.cells[f].origin && u.cells[f].associated == s.cells[f].associated
            && (Settled(s, f) ==> u.cells[f].outcome == s.cells[f].outcome && u.cells[f].cause == s.cells[f].cause)
            && (!Settled(s, f) ==> u.cells[f].outcome == Some(Result(s, h)) && u.cells[f].cause == Owner)
            && (forall e | 0 <= e < |s.cells| :: u.cells[e].regs == s.cells[e].regs)
  {
    var h, at := DueAt(s, t, k, f);
  }

  lemma CompleteTasks(s: State, t: nat, k: FutId, f: FutId)
    requires Cells.Inv(s) && TaskEnabled(s, t, k) && Due(s, t) == Complete(f) && f < |s.cells| && NoTask(s, f)
    ensures NoTask(TaskStep(s, t, k), f)
  {
    var h, at := DueAt(s, t, k, f);
    var x := if s.tasks[t].Drain? then Drain(h, at + 1) else Done;
    var u, v := Become(s, t, x), TaskStep(s, t, k);
    forall y: Task | About(y, f) ensures Count(v, y) == 0 {
      OneLess(s, t, x, y);
      assert v.tasks == u.tasks || v.tasks == u.tasks + [Drain(f, 0)];
    }
  }

  lemma CompleteStep(s: State, t: nat, k: FutId, f: FutId, g: FutId)
    requires Cells.Inv(s) && TaskEnabled(s, t, k) && Due(s, t) == Complete(f) && Joining(s, f, g)
    ensures Joining(TaskStep(s, t, k), f, g)
  {
    var v := TaskStep(s, t, k);
    var h, at := DueAt(s, t, k, f);
    assert CompletesAt(s, f, h, at);
    var it: nat :| LinkedAt(s, f, g, it);
    CompleteShape(s, t, k, f);
    CompleteTasks(s, t, k, f);
    assert LinkedAt(v, f, g, it) by {
      forall e: FutId, m: nat | CompletesAt(v, f, e, m) ensures e == g && m == it { assert CompletesAt(s, f, e, m); }
    }
    if Settled(s, f) { assert Settled(v, g) && Result(v, g) == Result(s, g) by { TaskLater(s, t, k); } }
  }

  // --- over runs ----------------------------------------------------------

  /** What hands an outcome to `f` besides its promise comes from outside. */
  lemma OutsideOffer(s: State, e: Event, f: FutId)
    requires Enabled(s, e) && f < |s.cells| && !Settled(s, f) && Offering(s, e, f)
    requires e.Step? ==> !Concerns(s, e.t, f)
    ensures Foreign(Apply(s, e), f)
  {
    var o :| Offers(s, e, f, o);
    OfferSettles(s, e, f, o);
    OfferCause(s, e, f, o);
  }

  lemma JoinStep(s: State, e: Event, f: FutId, g: FutId)
    requires AllInv(s) && Enabled(s, e) && !OnPromise(e, f) && Joining(s, f, g)
    ensures Foreign(Apply(s, e), f) || Joining(Apply(s, e), f, g)
  {
    if e.Step? && Due(s, e.t) == Complete(f) {
      CompleteStep(s, e.t, e.g, f, g);
    } else if e.Step? && Concerns(s, e.t, f) {
      var x := s.tasks[e.t];
      assert x in s.tasks && Count(s, x) > 0;
      if x.Associating? { AssociateStep(s, e.t, g, f); } else { LinkStep(s, e.t, g, f); }
    } else if !Settled(s, f) && Offering(s, e, f) {
      OutsideOffer(s, e, f);
    } else {
      KeptStep(s, e, f);
      StepLater(s, e);
      KeptJoining(s, Apply(s, e), f, g);
    }
  }

  lemma SetStep(s: State, e: Event, f: FutId, o: Outcome)
    requires AllInv(s) && Enabled(s, e) && !OnPromise(e, f) && Setting(s, f, o)
    ensures Foreign(Apply(s, e), f) || Setting(Apply(s, e), f, o)
  {
    if e.Step? && Due(s, e.t) == Complete(f) {
      var h, at := DueAt(s, e.t, e.g, f);
      assert false;
    } else if e.Step? && Concerns(s, e.t, f) {
      var x := s.tasks[e.t];
      assert x in s.tasks && Count(s, x) > 0;
      SetToStep(s, e.t, e.g, f, o);
    } else if !Settled(s, f) && Offering(s, e, f) {
      OutsideOffer(s, e, f);
    } else {
      KeptStep(s, e, f);
      KeptSetting(s, Apply(s, e), f, o);
    }
  }

  /** No event of the run uses the promise of `f`. */
  ghost predicate NoneOnPromise(es: seq<Event>, f: FutId) {
    forall i | 0 <= i < |es| :: !OnPromise(es[i], f)
  }

  lemma ForeignStays(s: State, es: seq<Event>, f: FutId)
    requires Possible(s, es) && Foreign(s, f)
    ensures Foreign(Run(s, es), f)
  {
    WriteOnceTheorem(s, es);
    assert Later(s.cells[f], Run(s, es).cells[f]);
  }

  lemma {:induction false} JoinRun(s: State, es: seq<Event>, f: FutId, g: FutId)
    requires AllInv(s) && Possible(s, es) && NoneOnPromise(es, f) && Joining(s, f, g)
    ensures Foreign(Run(s, es), f) || Joining(Run(s, es), f, g)
    decreases |es|
  {
    if es != [] {
      assert !OnPromise(es[0], f);
      JoinStep(s, es[0], f, g);
      StepInv(s, es[0]);
      if Joining(Apply(s, es[0]), f, g) { JoinRun(Apply(s, es[0]), es[1..], f, g); }
      else { ForeignStays(Apply(s, es[0]), es[1..], f); }
    }
  }

  lemma {:induction false} SetRun(s: State, es: seq<Event>, f: FutId, o: Outcome)
    requires AllInv(s) && Possible(s, es) && NoneOnPromise(es, f) && Setting(s, f, o)
    ensures Foreign(Run(s, es), f) || Setting(Run(s, es), f, o)
    decreases |es|
  {
    if es != [] {
      assert !OnPromise(es[0], f);
      SetStep(s, es[0], f, o);
      StepInv(s, es[0]);
      if Setting(Apply(s, es[0]), f, o) { SetRun(Apply(s, es[0]), es[1..], f, o); }
      else { ForeignStays(Apply(s, es[0]), es[1..], f); }
    }
  }

  // --- what a promise that has not been used leaves -----------------------

  /** Only an association links a root future to another one. */
  ghost predicate Idle(s: State, f: FutId) {
    f < |s.cells| && s.cells[f].origin.Root? && !s.cells[f].associated ==>
      NeverCompleted(s, f) && forall g: FutId :: Count(s, Link(f, g)) == 0
  }

  ghost predicate SameLinks(s: State, t: State, f: FutId) {
    && f < |s.cells| && |t.cells| == |s.cells| && t.cells[f].origin == s.cells[f].origin
    && (t.cells[f].associated <==> s.cells[f].associated)
    && (forall h | 0 <= h < |s.cells| :: t.cells[h].regs == s.cells[h].regs)
    && (forall g: FutId :: Count(t, Link(f, g)) == Count(s, Link(f, g)))
  }

  lemma SameLinksIdle(s: State, t: State, f: FutId)
    requires Idle(s, f) && SameLinks(s, t, f)
    ensures Idle(t, f)
  {
    if t.cells[f].origin.Root? && !t.cells[f].associated { SameRegs(s, t, f); }
  }

  lemma SettleLinks(s: State, h: FutId, o: Outcome, cause: Cause, f: FutId)
    requires h < |s.cells| && f < |s.cells|
    ensures SameLinks(s, Settle(s, h, o, cause), f)
  {
    var t := Settle(s, h, o, cause);
    assert t.tasks == s.tasks || t.tasks == s.tasks + [Drain(h, 0)];
  }

  lemma BecomeLinks(s: State, t: nat, x: Task, f: FutId)
    requires t < |s.tasks| && f < |s.cells| && !s.tasks[t].Link? && !x.Link?
    ensures SameLinks(s, Become(s, t, x), f)
  {
    forall h: FutId ensures Count(Become(s, t, x), Link(f, h)) == Count(s, Link(f, h)) { OneLess(s, t, x, Link(f, h)); }
  }

  /** Steps that settle a future for its promise or for a collect. */
  lemma SetterIdle(s: State, t: nat, g: FutId, f: FutId)
    requires TaskEnabled(s, t, g) && (s.tasks[t].SetTo? || s.tasks[t].Discarding?) && Idle(s, f) && f < |s.cells|
    ensures Idle(TaskStep(s, t, g), f)
  {
    var x, v := s.tasks[t], TaskStep(s, t, g);
    if x.SetTo? {
      BecomeLinks(s, t, Done, f);
      SettleLinks(Become(s, t, Done), x.dst, x.o, Owner, f);
    } else if x.j < |s.collects[x.c].inputs| {
      var h := s.collects[x.c].inputs[x.j];
      SettleLinks(s, h, Failed(KERROR), Discard(x.c), f);
      BecomeLinks(Settle(s, h, Failed(KERROR), Discard(x.c)), t, Discarding(x.c, x.j + 1), f);
    } else {
      BecomeLinks(s, t, Done, f);
    }
    assert SameLinks(s, v, f);
    SameLinksIdle(s, v, f);
  }

  lemma AssociatingIdle(s: State, t: nat, f: FutId)
    requires TaskEnabled(s, t, 0) && s.tasks[t].Associating? && s.tasks[t].dst == f && Idle(s, f)
    ensures Idle(TaskStep(s, t, 0), f)
  {
    var v := TaskStep(s, t, 0);
    if !v.cells[f].associated {
      BecomeLinks(s, t, Done, f);
      assert SameLinks(s, v, f);
      SameLinksIdle(s, v, f);
    }
  }

  lemma PromiseIdle(s: State, e: Event, f: FutId)
    requires Enabled(s, e) && (e.SetPromise? || e.JoinPromise? || e.SetFuture?) && f < |s.cells| && Idle(s, f)
    ensures Idle(Apply(s, e), f)
  {
    if e.SetFuture? { SettleLinks(s, e.f, e.o, Outside, f); }
    SameLinksIdle(s, Apply(s, e), f);
  }

  lemma IdleStep(s: State, e: Event, f: FutId)
    requires AllInv(s) && Enabled(s, e) && f < |s.cells| && Idle(s, f)
    ensures Idle(Apply(s, e), f)
  {
    StepLater(s, e);
    if s.cells[f].associated || !s.cells[f].origin.Root? {
    } else if e.SetPromise? || e.JoinPromise? || e.SetFuture? {
      PromiseIdle(s, e, f);
    } else if e.Step? && (s.tasks[e.t].SetTo? || s.tasks[e.t].Discarding?) {
      SetterIdle(s, e.t, e.g, f);
    } else if e.Step? && Due(s, e.t) == Complete(f) {
      var h, at := DueAt(s, e.t, e.g, f);
      assert false;
    } else if e.Step? && Concerns(s, e.t, f) {
      var x := s.tasks[e.t];
      assert x in s.tasks && Count(s, x) > 0;
      AssociatingIdle(s, e.t, f);
    } else {
      KeptStep(s, e, f);
    }
  }

  /** Nothing names a future that does not exist yet. */
  ghost predicate Unnamed(s: State, d: FutId) {
    NeverCompleted(s, d) && forall y: Task | About(y, d) :: Count(s, y) == 0
  }

  lemma NotYet(s: State)
    requires AllInv(s)
    ensures Unnamed(s, |s.cells|)
  {
    var d := |s.cells|;
    forall h: FutId, k: nat ensures !CompletesAt(s, d, h, k) {
      if h < |s.cells| && k < |s.cells[h].regs| { assert Cells.CellOk(s, h); }
    }
    forall y | y in s.tasks ensures !About(y, d) { assert Cells.TaskOk(s, y); }
  }

  lemma AllocUnnamed(s: State, origin: Origin)
    requires Unnamed(s, |s.cells|)
    ensures Unnamed(Alloc(s, origin), |s.cells|)
  {
    var d := |s.cells|;
    forall h: FutId, k: nat ensures !CompletesAt(Alloc(s, origin), d, h, k) { assert !CompletesAt(s, d, h, k); }
  }

  lemma IdleNew(s: State, e: Event)
    requires AllInv(s) && Enabled(s, e) && !e.Step? && |s.cells| < |Apply(s, e).cells|
    ensures Idle(Apply(s, e), |s.cells|)
  {
    var u, d := Apply(s, e), |s.cells|;
    NotYet(s);
    match e
    case New => AllocUnnamed(s, Root);
    case CallCollect(inputs) =>
      if inputs == [] {
        AllocUnnamed(s, Root);
        SettleLinks(Alloc(s, Root), d, Ok(List([])), Owner, d);
        SameLinksIdle(Alloc(s, Root), u, d);
      }
    case _ =>
  }

  lemma TaskCells(s: State, t: nat, g: FutId)
    requires TaskEnabled(s, t, g)
    ensures |TaskStep(s, t, g).cells| == |s.cells|
  {
  }

  lemma IdleEvent(s: State, e: Event, f: FutId)
    requires AllInv(s) && Enabled(s, e) && Idle(s, f)
    ensures Idle(Apply(s, e), f)
  {
    if f < |s.cells| {
      IdleStep(s, e, f);
    } else if f < |Apply(s, e).cells| {
      if e.Step? { TaskCells(s, e.t, e.g); }
      IdleNew(s, e);
    }
  }

  lemma {:induction false} IdleRun(s: State, es: seq<Event>, f: FutId)
    requires AllInv(s) && Possible(s, es) && Idle(s, f)
    ensures Idle(Run(s, es), f)
    decreases |es|
  {
    if es != [] {
      var t := Apply(s, es[0]);
      StepInv(s, es[0]);
      IdleEvent(s, es[0], f);
      IdleRun(t, es[1..], f);
    }
  }

  lemma ReachableIdle(s: State, f: FutId)
    requires Reachable(s)
    ensures Idle(s, f)
  {
    var stage: (nat, Value) -> Value, es: seq<Event> :| Possible(Init(stage), es) && s == Run(Init(stage), es);
    IdleRun(Init(stage), es, f);
  }

  // --- the theorems -------------------------------------------------------

  /** A new promise has not been used. */
  lemma NewTheorem(s: State)
    requires Reachable(s)
    ensures |Apply(s, New).cells| == |s.cells| + 1 && Unused(Apply(s, New), |s.cells|)
  {
    ReachableInv(s);
    NotYet(s);
  }

  /** A promise that has not been used is joined to `g` and left alone. Unless somebody else
      settles its future, that future is settled exactly when `g` is, with the same outcome. */
  lemma JoinTheorem(s: State, f: FutId, g: FutId, es: seq<Event>)
    requires Reachable(s) && Unused(s, f) && g < |s.cells|
    requires Possible(Apply(s, JoinPromise(f, g)), es) && NoneOnPromise(es, f)
    requires Quiescent(Run(Apply(s, JoinPromise(f, g)), es))
    ensures var u := Run(Apply(s, JoinPromise(f, g)), es);
            Foreign(u, f)
            || ((Settled(u, f) <==> Settled(u, g)) && (Settled(u, f) ==> Result(u, f) == Result(u, g)))
  {
    var t := Apply(s, JoinPromise(f, g));
    var u := Run(t, es);
    ReachableInv(s);
    ReachableIdle(s, f);
    StepInv(s, JoinPromise(f, g));
    SameRegs(s, t, f);
    assert OnlyTask(t, f, Associating(f, g)) by { assert About(Associating(f, g), f); }
    JoinRun(t, es, f, g);
    if !Foreign(u, f) && !Settled(u, f) {
      assert forall y: Task | !y.Done? :: Count(u, y) == 0;
      var at: nat :| LinkedAt(u, f, g, at);
      if Settled(u, g) {
        ReachableNext(s, JoinPromise(f, g), es);
        ExactlyOnceTheorem(u, g, at);
      }
    }
  }

  /** A promise that has not been used is set to `o` and left alone. Unless somebody else
      settles its future, that future ends up settled with `o`. */
  lemma SetPromiseTheorem(s: State, f: FutId, o: Outcome, es: seq<Event>)
    requires Reachable(s) && Unused(s, f) && ValidOutcome(o)
    requires Possible(Apply(s, SetPromise(f, o)), es) && NoneOnPromise(es, f)
    requires Quiescent(Run(Apply(s, SetPromise(f, o)), es))
    ensures var u := Run(Apply(s, SetPromise(f, o)), es);
            Foreign(u, f) || (Settled(u, f) && Result(u, f) == o)
  {
    var t := Apply(s, SetPromise(f, o));
    var u := Run(t, es);
    ReachableInv(s);
    ReachableIdle(s, f);
    StepInv(s, SetPromise(f, o));
    SameRegs(s, t, f);
    assert OnlyTask(t, f, SetTo(f, o)) by { assert About(SetTo(f, o), f); }
    SetRun(t, es, f, o);
    assert forall y: Task | !y.Done? :: Count(u, y) == 0;
  }
}
