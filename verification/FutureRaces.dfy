/** Races for a future: over any run it takes the outcome that is handed to it first, and
    what association leaves of the race. */
module FutureRaces {
  import opened Basics
  import opened Futures
  import Cells = FutureCells
  import opened ThenChains
  import Collects
  import opened FutureTheorems

  ghost predicate Offering(s: State, e: Event, f: FutId) {
    exists o :: Offers(s, e, f, o)
  }

  lemma TakeKeepsCell(s: State, t: nat, f: FutId)
    requires t < |s.tasks| && f < |s.cells| && !Settled(s, f)
    requires (s.tasks[t].Drain? || s.tasks[t].Call?) && s.tasks[t].f < |s.cells| && Settled(s, s.tasks[t].f)
    ensures s.tasks[t].Drain? ==> !Settled(TakeNext(s, t), f) && f < |TakeNext(s, t).cells|
    ensures s.tasks[t].Call? ==> !Settled(TakeLate(s, t), f) && f < |TakeLate(s, t).cells|
  {
  }

  /** Whoever hands an outcome to a future that is not settled settles it. */
  lemma OfferSettles(s: State, e: Event, f: FutId, o: Outcome)
    requires Enabled(s, e) && f < |s.cells| && !Settled(s, f) && Offers(s, e, f, o)
    ensures Settled(Apply(s, e), f) && Result(Apply(s, e), f) == o
  {
    if e.Step? && (s.tasks[e.t].Drain? || s.tasks[e.t].Call?) { TakeKeepsCell(s, e.t, f); }
  }

  /** The state before event `k`. */
  ghost function StateAt(s: State, es: seq<Event>, k: nat): State
    requires Possible(s, es) && k <= |es|
    decreases k
  {
    if k == 0 then s else StateAt(Apply(s, es[0]), es[1..], k - 1)
  }

  lemma {:induction false} EnabledAt(s: State, es: seq<Event>, k: nat)
    requires Possible(s, es) && k < |es|
    ensures Enabled(StateAt(s, es, k), es[k])
    decreases k
  {
    if k > 0 { EnabledAt(Apply(s, es[0]), es[1..], k - 1); }
  }

  /** Over any run, a future that becomes settled takes the outcome of the first event that
      hands it one, and nothing of any other. */
  lemma {:induction false} FirstOfferTheorem(s: State, es: seq<Event>, f: FutId) returns (k: nat)
    requires Possible(s, es) && f < |s.cells| && !Settled(s, f) && Settled(Run(s, es), f)
    ensures k < |es| && Offers(StateAt(s, es, k), es[k], f, Result(Run(s, es), f))
    ensures f < |StateAt(s, es, k).cells| && !Settled(StateAt(s, es, k), f)
    ensures forall i | 0 <= i < k :: !Offering(StateAt(s, es, i), es[i], f)
    decreases |es|
  {
    var t := Apply(s, es[0]);
    StepLater(s, es[0]);
    if Settled(t, f) {
      k := 0;
      OneCompetitor(s, es[0], f);
      WriteOnceTheorem(t, es[1..]);
    } else {
      var m := FirstOfferTheorem(t, es[1..], f);
      k := m + 1;
      forall i | 0 <= i < k ensures !Offering(StateAt(s, es, i), es[i], f) {
        if i == 0 {
          forall o ensures !Offers(s, es[0], f, o) { if Offers(s, es[0], f, o) { OfferSettles(s, es[0], f, o); } }
        } else {
          assert es[1..][i - 1] == es[i];
          assert !Offering(StateAt(t, es[1..], i - 1), es[1..][i - 1], f);
        }
      }
    }
  }

  // --- association --------------------------------------------------------

  /** No promise passes its test once its future is associated. */
  ghost predicate NoNewSetter(s: State, u: State, f: FutId) {
    forall o | SetTo(f, o) in u.tasks :: SetTo(f, o) in s.tasks
  }

  lemma ActSetters(s: State, o: Outcome, cb: Callback, g: FutId, f: FutId)
    requires InHeap(s, cb) && f < |s.cells| && s.cells[f].associated
    ensures NoNewSetter(s, Act(s, o, cb, g), f)
  {
  }

  lemma TaskSetters(s: State, t: nat, g: FutId, f: FutId)
    requires TaskEnabled(s, t, g) && f < |s.cells| && s.cells[f].associated
    ensures NoNewSetter(s, TaskStep(s, t, g), f)
  {
    match s.tasks[t]
    case Drain(h, i) =>
      if i < |s.cells[h].callbacks| {
        assert NoNewSetter(s, TakeNext(s, t), f);
        ActSetters(TakeNext(s, t), s.cells[h].outcome.value, s.cells[h].callbacks[i], g, f);
      }
    case Call(h, _, cb) =>
      assert NoNewSetter(s, TakeLate(s, t), f);
      ActSetters(TakeLate(s, t), s.cells[h].outcome.value, cb, g, f);
    case _ =>
  }

  lemma StepSetters(s: State, e: Event, f: FutId)
    requires Enabled(s, e) && f < |s.cells| && s.cells[f].associated
    ensures NoNewSetter(s, Apply(s, e), f)
  {
    if e.Step? { TaskSetters(s, e.t, e.g, f); }
  }

  lemma {:induction false} SettersAt(s: State, es: seq<Event>, f: FutId, k: nat)
    requires Possible(s, es) && k <= |es| && f < |s.cells| && s.cells[f].associated
    ensures NoNewSetter(s, StateAt(s, es, k), f)
    decreases k
  {
    if k > 0 {
      StepSetters(s, es[0], f);
      StepLater(s, es[0]);
      SettersAt(Apply(s, es[0]), es[1..], f, k - 1);
    }
  }

  /** Who can still win once a future is associated: a future that was told to complete it,
      a caller of the public setters, a collect that discards it, or a promise that had
      passed its test before; no other promise. */
  lemma AssociatedTheorem(s: State, es: seq<Event>, f: FutId) returns (k: nat)
    requires Possible(s, es) && f < |s.cells| && s.cells[f].associated && !Settled(s, f) && Settled(Run(s, es), f)
    ensures k < |es| && Offers(StateAt(s, es, k), es[k], f, Result(Run(s, es), f))
    ensures es[k].SetFuture? || es[k].Step?
    ensures es[k].Step? ==>
              && es[k].t < |StateAt(s, es, k).tasks|
              && var x := StateAt(s, es, k).tasks[es[k].t];
                 x.Drain? || x.Call? || x.Discarding? || (x == SetTo(f, Result(Run(s, es), f)) && x in s.tasks)
  {
    k := FirstOfferTheorem(s, es, f);
    SettersAt(s, es, f, k);
  }

  // --- collects -----------------------------------------------------------

  lemma {:induction false} ReachableRun(s: State, es: seq<Event>, k: nat)
    requires AllInv(s) && Possible(s, es) && k <= |es|
    ensures AllInv(StateAt(s, es, k))
    decreases k
  {
    if k > 0 {
      StepInv(s, es[0]);
      ReachableRun(Apply(s, es[0]), es[1..], k - 1);
    }
  }

  /** The callback that a thread is about to run. */
  ghost function Due(s: State, t: nat): Callback
    requires t < |s.tasks|
  {
    match s.tasks[t]
    case Drain(f, i) => if f < |s.cells| && i < |s.cells[f].callbacks| then s.cells[f].callbacks[i] else User(0)
    case Call(_, _, cb) => cb
    case _ => User(0)
  }

  /** Nobody is told to complete the result of a collect. */
  lemma CompletesOthers(s: State, t: nat)
    requires AllInv(s) && t < |s.tasks|
    ensures Due(s, t).Complete? ==> Due(s, t).dst < |s.cells| && !s.cells[Due(s, t).dst].origin.CollectOf?
  {
    var x := s.tasks[t];
    assert x in s.tasks && Cells.TaskOk(s, x);
    if x.Drain? && x.i < |s.cells[x.f].callbacks| {
      assert Cells.CellOk(s, x.f);
      assert s.cells[x.f].regs[x.i] == s.cells[x.f].callbacks[x.i];
      assert Collects.RegOk(s, x.f, x.i);
    }
    if x.Call? { assert Collects.RegOk(s, x.f, x.k); }
  }

  lemma NotCompleted(s: State, t: nat, g: FutId, f: FutId, o: Outcome)
    requires AllInv(s) && t < |s.tasks| && f < |s.cells| && s.cells[f].origin.CollectOf?
    requires Offers(s, Step(t, g), f, o)
    ensures s.tasks[t].SetTo? || s.tasks[t].Discarding?
  {
    CompletesOthers(s, t);
  }

  /** The cause that an offer leaves. */
  lemma OfferCause(s: State, e: Event, f: FutId, o: Outcome)
    requires Enabled(s, e) && f < |s.cells| && !Settled(s, f) && Offers(s, e, f, o)
    ensures e.SetFuture? ==> Settled(Apply(s, e), f) && Apply(s, e).cells[f].cause == Outside
    ensures e.Step? && s.tasks[e.t].Discarding? ==> Settled(Apply(s, e), f) && Apply(s, e).cells[f].cause.Discard?
  {
  }

  /** The cause does not change any more. */
  lemma {:induction false} CauseAt(s: State, es: seq<Event>, f: FutId, k: nat)
    requires Possible(s, es) && k < |es| && f < |StateAt(s, es, k).cells| && Enabled(StateAt(s, es, k), es[k])
    requires Settled(Apply(StateAt(s, es, k), es[k]), f)
    ensures Settled(Run(s, es), f)
    ensures Run(s, es).cells[f].cause == Apply(StateAt(s, es, k), es[k]).cells[f].cause
    decreases k
  {
    if k == 0 { WriteOnceTheorem(Apply(s, es[0]), es[1..]); }
    else { CauseAt(Apply(s, es[0]), es[1..], f, k - 1); }
  }

  /** Which result a collect delivers: the one of the first of its settings to take the lock
      of the result. Nothing was handed to the result before it. */
  lemma CollectFirstTheorem(s: State, es: seq<Event>, c: nat) returns (k: nat)
    requires Reachable(s) && Possible(s, es) && c < |s.collects| && s.collects[c].result < |s.cells|
    requires !Settled(s, s.collects[c].result) && Settled(Run(s, es), s.collects[c].result)
    requires Run(s, es).cells[s.collects[c].result].cause == Owner
    ensures k < |es| && es[k].Step? && es[k].t < |StateAt(s, es, k).tasks|
    ensures StateAt(s, es, k).tasks[es[k].t] == SetTo(s.collects[c].result, Result(Run(s, es), s.collects[c].result))
    ensures forall i | 0 <= i < k :: !Offering(StateAt(s, es, i), es[i], s.collects[c].result)
  {
    var f := s.collects[c].result;
    ReachableInv(s);
    assert Collects.CollectOk(s, None, c);
    k := FirstOfferTheorem(s, es, f);
    var u, o := StateAt(s, es, k), Result(Run(s, es), f);
    EnabledAt(s, es, k);
    OfferSettles(u, es[k], f, o);
    OfferCause(u, es[k], f, o);
    CauseAt(s, es, f, k);
    ReachableRun(s, es, k);
    OriginAt(s, es, f, k);
    if es[k].Step? { NotCompleted(u, es[k].t, es[k].g, f, o); }
  }

  lemma {:induction false} OriginAt(s: State, es: seq<Event>, f: FutId, k: nat)
    requires Possible(s, es) && k <= |es| && f < |s.cells|
    ensures f < |StateAt(s, es, k).cells| && StateAt(s, es, k).cells[f].origin == s.cells[f].origin
    decreases k
  {
    if k > 0 {
      StepLater(s, es[0]);
      OriginAt(Apply(s, es[0]), es[1..], f, k - 1);
    }
  }
}
