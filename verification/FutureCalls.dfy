/** What the calls of the interface come to: the futures that `Then` and `Collect` return
    and the callbacks that `OnComplete` registers, from the call to the end of a run. */
module FutureCalls {
  import opened Basics
  import opened Futures
  import Cells = FutureCells
  import opened ThenChains
  import Collects
  import opened FutureTheorems
  import opened FutureRaces
  import opened FutureJoins

  // --- registrations ------------------------------------------------------

  /** The callback that event `e` registers on future `h`, if any. */
  ghost function Entered(s: State, e: Event, h: FutId): seq<Callback> {
    match e
    case Register(f, tag) => if f == h then [User(tag)] else []
    case CallThen(f, k, async) =>
      if f != h then [] else if async then [Thenf(k, |s.cells|)] else [Then(k, |s.cells|)]
    case Step(t, _) =>
      if t >= |s.tasks| then []
      else if s.tasks[t].Link? && s.tasks[t].g == h then [Complete(s.tasks[t].dst)]
      else if s.tasks[t].Collecting? && s.tasks[t].c < |s.collects| then
        var c, j := s.tasks[t].c, s.tasks[t].j;
        var join := s.collects[c];
        if j < |join.inputs| then (if join.inputs[j] == h then [Waited(c, j)] else [])
        else if join.result == h then [Discarded(c)] else []
      else []
    case _ => []
  }

  lemma ActRegs(s: State, o: Outcome, cb: Callback, g: FutId, h: FutId)
    requires InHeap(s, cb) && h < |s.cells|
    ensures |Act(s, o, cb, g).cells| == |s.cells| && Act(s, o, cb, g).cells[h].regs == s.cells[h].regs
  {
  }

  lemma TaskRegs(s: State, t: nat, g: FutId, h: FutId)
    requires TaskEnabled(s, t, g) && h < |s.cells|
    ensures |TaskStep(s, t, g).cells| == |s.cells|
    ensures TaskStep(s, t, g).cells[h].regs == s.cells[h].regs + Entered(s, Step(t, g), h)
  {
    match s.tasks[t]
    case Drain(f, i) =>
      if i < |s.cells[f].callbacks| {
        ActRegs(TakeNext(s, t), s.cells[f].outcome.value, s.cells[f].callbacks[i], g, h);
      }
    case Call(f, _, cb) => ActRegs(TakeLate(s, t), s.cells[f].outcome.value, cb, g, h);
    case _ =>
  }

  lemma StepRegs(s: State, e: Event, h: FutId)
    requires Enabled(s, e) && h < |s.cells|
    ensures h < |Apply(s, e).cells| && Apply(s, e).cells[h].regs == s.cells[h].regs + Entered(s, e, h)
  {
    if e.Step? { TaskRegs(s, e.t, e.g, h); }
  }

  lemma StepNew(s: State, e: Event, h: FutId)
    requires Enabled(s, e) && |s.cells| <= h < |Apply(s, e).cells|
    ensures Apply(s, e).cells[h].regs == []
  {
    if e.Step? { TaskRegs(s, e.t, e.g, 0); }
  }

  /** The callbacks of callers among the registrations. */
  ghost function Tags(regs: seq<Callback>): seq<nat> {
    if regs == [] then []
    else Tags(regs[..|regs| - 1]) + if regs[|regs| - 1].User? then [regs[|regs| - 1].tag] else []
  }

  ghost function TagsOf(s: State, f: FutId): seq<nat> {
    if f < |s.cells| then Tags(s.cells[f].regs) else []
  }

  /** The callbacks that a run hands to `f`. */
  ghost function Registered(es: seq<Event>, f: FutId): seq<nat> {
    if es == [] then []
    else (if es[0].Register? && es[0].f == f then [es[0].tag] else []) + Registered(es[1..], f)
  }

  lemma StepTags(s: State, e: Event, f: FutId)
    requires Enabled(s, e)
    ensures TagsOf(Apply(s, e), f) == TagsOf(s, f) + if e.Register? && e.f == f then [e.tag] else []
  {
    if f < |s.cells| {
      StepRegs(s, e, f);
      var regs, more := s.cells[f].regs, Entered(s, e, f);
      if more == [] { assert regs + more == regs; } else { assert (regs + more)[..|regs|] == regs; }
    } else if f < |Apply(s, e).cells| {
      StepNew(s, e, f);
    }
  }

  lemma HeadTags(s: State, es: seq<Event>, f: FutId)
    requires es != [] && Enabled(s, es[0])
    ensures TagsOf(Apply(s, es[0]), f) + Registered(es[1..], f) == TagsOf(s, f) + Registered(es, f)
  {
    StepTags(s, es[0], f);
    Regroup(TagsOf(s, f), if es[0].Register? && es[0].f == f then [es[0].tag] else [], Registered(es[1..], f));
  }

  lemma Regroup(a: seq<nat>, b: seq<nat>, c: seq<nat>)
    ensures (a + b) + c == a + (b + c)
  {
  }

  lemma {:induction false} RunTags(s: State, es: seq<Event>, f: FutId)
    requires Possible(s, es)
    ensures TagsOf(Run(s, es), f) == TagsOf(s, f) + Registered(es, f)
    decreases |es|
  {
    if es == [] {
      assert TagsOf(s, f) + [] == TagsOf(s, f);
    } else {
      HeadTags(s, es, f);
      RunTags(Apply(s, es[0]), es[1..], f);
    }
  }

  /** The callbacks of callers on a future are those that `OnComplete` was given, all of
      them and in order; each of them runs as ExactlyOnceTheorem says. */
  lemma RegisterTheorem(stage: (nat, Value) -> Value, es: seq<Event>, f: FutId)
    requires Possible(Init(stage), es) && f < |Run(Init(stage), es).cells|
    ensures Tags(Run(Init(stage), es).cells[f].regs) == Registered(es, f)
  {
    RunTags(Init(stage), es, f);
  }

  // --- Then ---------------------------------------------------------------

  /** Event `e` calls stage `k` for the `Then` future `d`, and the stage returns `g`. */
  ghost predicate Calls(s: State, e: Event, k: nat, d: FutId, g: FutId) {
    e.Step? && e.t < |s.tasks| && Due(s, e.t) == Thenf(k, d) && e.g == g
  }

  lemma ActAssoc(s: State, o: Outcome, cb: Callback, g: FutId, d: FutId)
    requires InHeap(s, cb) && d < |s.cells|
    ensures Act(s, o, cb, g).cells[d].assoc == s.cells[d].assoc
            || (cb.Thenf? && cb.dst == d && Act(s, o, cb, g).cells[d].assoc == Asked(g))
  {
  }

  /** The callback of a `Then` future that is still to be called finds it without association. */
  lemma CalledFirst(s: State, h: FutId, i: nat, d: FutId)
    requires AllInv(s) && h < |s.cells| && i < |s.cells[h].regs| && d < |s.cells| && s.cells[d].origin.ThenOf?
    ensures s.cells[h].regs[i].Thenf? && s.cells[h].regs[i].dst == d ==>
              s.cells[h].regs[i].k == s.cells[d].origin.k && (i !in s.cells[h].ran ==> s.cells[d].assoc.NoAssoc?)
  {
    assert ThenChains.RegOk(s, h, i) && ThenOk(s, None, d);
  }

  /** How an association goes on: it is about the future that the stage returned. */
  ghost predicate AssocGoesOn(s: State, t: nat, g: FutId, d: FutId, a: Assoc, b: Assoc)
    requires d < |s.cells| && s.cells[d].origin.ThenOf?
  {
    if a.NoAssoc? then b.NoAssoc? || (Calls(s, Step(t, g), s.cells[d].origin.k, d, g) && b == Asked(g))
    else !b.NoAssoc? && b.g == a.g
  }

  lemma DueFirst(s: State, t: nat, g: FutId) returns (h: FutId, i: nat)
    requires Cells.Inv(s) && TaskEnabled(s, t, g) && (s.tasks[t].Drain? || s.tasks[t].Call?)
    requires s.tasks[t].Drain? ==> s.tasks[t].i < |s.cells[s.tasks[t].f].callbacks|
    ensures h == s.tasks[t].f < |s.cells| && i < |s.cells[h].regs| && s.cells[h].regs[i] == Due(s, t)
    ensures i !in s.cells[h].ran
  {
    var x := s.tasks[t];
    assert x in s.tasks && Cells.TaskOk(s, x);
    h, i := x.f, if x.Drain? then x.i else x.k;
    assert Cells.CellOk(s, h);
    assert Cells.Once(s, h, i);
    assert x.Call? ==> multiset(s.tasks)[x] > 0;
  }

  lemma CallAssoc(s: State, t: nat, g: FutId, d: FutId)
    requires AllInv(s) && TaskEnabled(s, t, g) && (s.tasks[t].Drain? || s.tasks[t].Call?)
    requires d < |s.cells| && s.cells[d].origin.ThenOf?
    ensures d < |TaskStep(s, t, g).cells|
    ensures AssocGoesOn(s, t, g, d, s.cells[d].assoc, TaskStep(s, t, g).cells[d].assoc)
  {
    var x := s.tasks[t];
    TaskRegs(s, t, g, d);
    if x.Call? || x.i < |s.cells[x.f].callbacks| {
      var h, i := DueFirst(s, t, g);
      CalledFirst(s, h, i, d);
      if x.Drain? { ActAssoc(TakeNext(s, t), s.cells[h].outcome.value, Due(s, t), g, d); }
      else { ActAssoc(TakeLate(s, t), s.cells[h].outcome.value, Due(s, t), g, d); }
    }
  }

  lemma LinkAssoc(s: State, t: nat, g: FutId, d: FutId)
    requires ThenChains.Inv(s, None) && TaskEnabled(s, t, g) && (s.tasks[t].Associating? || s.tasks[t].Link?)
    requires d < |s.cells| && s.cells[d].origin.ThenOf?
    ensures d < |TaskStep(s, t, g).cells|
    ensures AssocGoesOn(s, t, g, d, s.cells[d].assoc, TaskStep(s, t, g).cells[d].assoc)
  {
    assert s.tasks[t] in s.tasks && ThenChains.TaskOk(s, s.tasks[t]);
  }

  lemma TaskAssoc(s: State, t: nat, g: FutId, d: FutId)
    requires AllInv(s) && TaskEnabled(s, t, g) && d < |s.cells| && s.cells[d].origin.ThenOf?
    ensures d < |TaskStep(s, t, g).cells|
    ensures AssocGoesOn(s, t, g, d, s.cells[d].assoc, TaskStep(s, t, g).cells[d].assoc)
  {
    var x := s.tasks[t];
    if x.Drain? || x.Call? { CallAssoc(s, t, g, d); }
    else if x.Associating? || x.Link? { LinkAssoc(s, t, g, d); }
  }

  lemma StepAssoc(s: State, e: Event, d: FutId)
    requires AllInv(s) && Enabled(s, e) && d < |s.cells| && s.cells[d].origin.ThenOf?
    ensures d < |Apply(s, e).cells| && Apply(s, e).cells[d].origin == s.cells[d].origin
    ensures var a, b := s.cells[d].assoc, Apply(s, e).cells[d].assoc;
            if a.NoAssoc? then b.NoAssoc? || (b.Asked? && Calls(s, e, s.cells[d].origin.k, d, b.g))
            else !b.NoAssoc? && b.g == a.g
  {
    StepLater(s, e);
    if e.Step? { TaskAssoc(s, e.t, e.g, d); }
  }

  lemma {:induction false} AskedFor(s: State, es: seq<Event>, d: FutId) returns (i: nat)
    requires AllInv(s) && Possible(s, es) && d < |s.cells| && s.cells[d].origin.ThenOf?
    requires d < |Run(s, es).cells| && !Run(s, es).cells[d].assoc.NoAssoc?
    ensures !s.cells[d].assoc.NoAssoc? ==> Run(s, es).cells[d].assoc.g == s.cells[d].assoc.g
    ensures s.cells[d].assoc.NoAssoc? ==>
              i < |es| && Calls(StateAt(s, es, i), es[i], s.cells[d].origin.k, d, Run(s, es).cells[d].assoc.g)
    decreases |es|
  {
    if es == [] {
      i := 0;
    } else {
      var t := Apply(s, es[0]);
      StepInv(s, es[0]);
      StepAssoc(s, es[0], d);
      var m := AskedFor(t, es[1..], d);
      i := if t.cells[d].assoc.NoAssoc? then m + 1 else 0;
    }
  }

  lemma AtRest(u: State, f: FutId, k: nat, async: bool, d: FutId)
    requires Reachable(u) && Quiescent(u) && d < |u.cells| && !Foreign(u, d)
    requires u.cells[d].origin.ThenOf? && u.cells[d].origin.src == f && u.cells[d].origin.k == k
    requires u.cells[d].origin.async == async
    ensures !Settled(u, f) ==> !Settled(u, d)
    ensures Settled(u, f) && Result(u, f).Failed? ==> Settled(u, d) && Result(u, d) == Result(u, f)
    ensures Settled(u, f) && Result(u, f).Ok? && !async ==>
              Settled(u, d) && Result(u, d) == Ok(u.stage(k, Result(u, f).v))
    ensures Settled(u, f) && Result(u, f).Ok? && async ==>
              && !u.cells[d].assoc.NoAssoc? && (Settled(u, d) <==> Settled(u, u.cells[d].assoc.g))
              && (Settled(u, d) ==> Result(u, d) == Result(u, u.cells[d].assoc.g))
  {
    ReachableInv(u);
    assert ThenOk(u, None, d);
    ThenCompletes(u, d);
    if Settled(u, d) { assert Right(u, d, Result(u, d)); }
  }

  /** What the future `d` of a `Then` on `f` has come to, given the future that an
      asynchronous stage returned for it. */
  ghost predicate ThenEnds(
    stage: (nat, Value) -> Value, t: State, es: seq<Event>, f: FutId, k: nat, async: bool, d: FutId)
    requires Possible(t, es)
  {
    var u := Run(t, es);
    if !Settled(u, f) then !Settled(u, d)
    else match Result(u, f)
         case Failed(_) => Settled(u, d) && Result(u, d) == Result(u, f)
         case Ok(v) =>
           if !async then Settled(u, d) && Result(u, d) == Ok(stage(k, v))
           else exists i: nat, g: FutId ::
                  && i < |es| && Calls(StateAt(t, es, i), es[i], k, d, g)
                  && (Settled(u, d) <==> Settled(u, g)) && (Settled(u, d) ==> Result(u, d) == Result(u, g))
  }

  /** The future that `Then` returns, when all threads are done: unless somebody else settled
      it, it is unsettled while its source is, takes over a failure of the source, and for
      a value of the source has the value of the stage, or is settled exactly when the
      future that the stage returned is, with the same outcome. */
  lemma ThenTheorem(s: State, f: FutId, k: nat, async: bool, es: seq<Event>)
    requires Reachable(s) && f < |s.cells| && Possible(Apply(s, CallThen(f, k, async)), es)
    requires Quiescent(Run(Apply(s, CallThen(f, k, async)), es))
    ensures var t, d := Apply(s, CallThen(f, k, async)), |s.cells|;
            Foreign(Run(t, es), d) || ThenEnds(s.stage, t, es, f, k, async, d)
  {
    var t, d := Apply(s, CallThen(f, k, async)), |s.cells|;
    assert t.cells[d] == NewCell(ThenOf(f, k, async, |s.cells[f].regs|)) && t.stage == s.stage;
    ReachableNext(s, CallThen(f, k, async), es);
    ReachableInv(t);
    EndsFrom(t, es, f, k, async, d);
  }

  lemma EndsFrom(t: State, es: seq<Event>, f: FutId, k: nat, async: bool, d: FutId)
    requires AllInv(t) && Possible(t, es) && d < |t.cells| && t.cells[d].assoc.NoAssoc?
    requires t.cells[d].origin.ThenOf? && t.cells[d].origin.src == f && t.cells[d].origin.k == k
    requires t.cells[d].origin.async == async && Reachable(Run(t, es)) && Quiescent(Run(t, es))
    ensures Foreign(Run(t, es), d) || ThenEnds(t.stage, t, es, f, k, async, d)
  {
    var u := Run(t, es);
    WriteOnceTheorem(t, es);
    assert Later(t.cells[d], u.cells[d]);
    if !Foreign(u, d) {
      AtRest(u, f, k, async, d);
      if Settled(u, f) && Result(u, f).Ok? && async {
        var i := AskedFor(t, es, d);
        assert Calls(StateAt(t, es, i), es[i], k, d, u.cells[d].assoc.g);
      }
    }
  }

  // --- Collect ------------------------------------------------------------

  /** Collects keep their inputs and their result. */
  ghost predicate SameCalls(s: State, u: State) {
    && |s.collects| <= |u.collects|
    && forall c | 0 <= c < |s.collects| ::
         u.collects[c].inputs == s.collects[c].inputs && u.collects[c].result == s.collects[c].result
  }

  lemma ActCalls(s: State, o: Outcome, cb: Callback, g: FutId)
    requires InHeap(s, cb)
    ensures SameCalls(s, Act(s, o, cb, g))
  {
  }

  lemma StepCalls(s: State, e: Event)
    requires Enabled(s, e)
    ensures SameCalls(s, Apply(s, e))
  {
    if e.Step? {
      var x := s.tasks[e.t];
      if x.Drain? && x.i < |s.cells[x.f].callbacks| {
        ActCalls(TakeNext(s, e.t), s.cells[x.f].outcome.value, s.cells[x.f].callbacks[x.i], e.g);
      } else if x.Call? {
        ActCalls(TakeLate(s, e.t), s.cells[x.f].outcome.value, x.cb, e.g);
      }
    }
  }

  lemma {:induction false} RunCalls(s: State, es: seq<Event>)
    requires Possible(s, es)
    ensures SameCalls(s, Run(s, es))
    decreases |es|
  {
    if es != [] {
      StepCalls(s, es[0]);
      RunCalls(Apply(s, es[0]), es[1..]);
    }
  }

  /** The future that `Collect` returns for no inputs has an empty list of values for good. */
  lemma EmptyCollectTheorem(s: State, es: seq<Event>)
    requires Possible(Apply(s, CallCollect([])), es)
    ensures var u := Run(Apply(s, CallCollect([])), es);
            Settled(u, |s.cells|) && Result(u, |s.cells|) == Ok(List([]))
  {
    var t := Apply(s, CallCollect([]));
    assert Settled(t, |s.cells|) && Result(t, |s.cells|) == Ok(List([]));
    WriteOnceTheorem(t, es);
    assert Later(t.cells[|s.cells|], Run(t, es).cells[|s.cells|]);
  }

  ghost predicate AllIn(u: State, inputs: seq<FutId>) {
    forall j | 0 <= j < |inputs| :: Settled(u, inputs[j])
  }

  /** The future that `Collect` returns for `inputs`, when all threads are done: it is settled
      exactly when all inputs are. Unless somebody else settled it, it has their values in
      list order if all are OK, and otherwise the failure of one of them that this collect
      did not bring about itself. */
  lemma CollectCallTheorem(s: State, inputs: seq<FutId>, es: seq<Event>)
    requires Reachable(s) && inputs != [] && Enabled(s, CallCollect(inputs))
    requires Possible(Apply(s, CallCollect(inputs)), es) && Quiescent(Run(Apply(s, CallCollect(inputs)), es))
    ensures var u, d := Run(Apply(s, CallCollect(inputs)), es), |s.cells|;
            && (Settled(u, d) <==> AllIn(u, inputs))
            && (Settled(u, d) && !Foreign(u, d) ==>
                  if forall j | 0 <= j < |inputs| :: Result(u, inputs[j]).Ok? then InOrder(u, inputs, Result(u, d))
                  else Result(u, d).Failed?
                       && exists j: nat | j < |inputs| :: Result(u, inputs[j]) == Result(u, d)
                                                  && u.cells[inputs[j]].cause != Discard(|s.collects|))
  {
    var t, d, c := Apply(s, CallCollect(inputs)), |s.cells|, |s.collects|;
    var u := Run(t, es);
    assert t.collects[c].inputs == inputs && t.collects[c].result == d;
    RunCalls(t, es);
    assert u.collects[c].inputs == inputs && u.collects[c].result == d;
    ReachableNext(s, CallCollect(inputs), es);
    CollectCompletesTheorem(u, c);
    assert AllIn(u, inputs) <==> Collects.AllSettled(u, c);
    if Settled(u, d) && !Foreign(u, d) {
      CollectTheorem(u, c);
      if Result(u, d).Failed? {
        var j: nat :| Collects.GenuineFailure(u, c, j, Result(u, d));
      }
    }
  }
}
