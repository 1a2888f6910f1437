/** References of instances to packages: when they are in place, what drops them, what a
    sweep may clear, and how cleaning ends. */
module PackageRefers {
  import opened Basics
  import opened CodePackages
  import opened PackageProofs
  import opened PackageProgress

  // --- what drops a reference ---------------------------------------------

  /** The event makes the agent refuse a request of the instance. */
  predicate Refuses(s: State, e: Event, instance: Name) {
    match e
    case Arrive(id, i, _, _) => i == instance && id in s.failed
    case Continue(r, _) =>
      && r < |s.requests| && s.requests[r].instance == instance
      && (s.requests[r].id in s.failed || (s.requests[r].phase.Notified? && s.requests[r].phase.r.Error?))
    case _ => false
  }

  /** What drops the reference of an instance: cleaning, an explicit release, or refusing a
      request of the same instance whose packages are rebuilt. */
  predicate Drops(s: State, e: Event, dst: Name, instance: Name) {
    || e.Clean?
    || (e.Release? && e.dst == dst && e.instance == instance)
    || (Refuses(s, e, instance) && dst in e.w.rebuilt)
  }

  /** A walk that does not begin with a failure adds references and drops none. */
  lemma {:induction false} WalkRefers(s: State, r: nat, w: World, dst: Name, instance: Name)
    requires r < |s.requests| && s.requests[r].id !in s.failed
    ensures Refers(s.refers, dst, instance) ==> Refers(Walk(s, r, w).refers, dst, instance)
    ensures Walk(s, r, w).dropped <= s.dropped
    decreases |s.requests[r].queue|
  {
    var q := s.requests[r];
    if q.queue != [] && q.queue[0].dst !in s.deploying && w.deployed(q.queue[0].dst) {
      WalkRefers(SkipFound(s, r), r, w, dst, instance);
    }
  }

  /** A walk that begins with a failure drops the references to what is rebuilt. */
  lemma RefusedRefers(s: State, r: nat, w: World, dst: Name, instance: Name)
    requires r < |s.requests| && s.requests[r].id in s.failed && Refers(s.refers, dst, instance)
    ensures Refers(Walk(s, r, w).refers, dst, instance) <==> !(s.requests[r].instance == instance && dst in w.rebuilt)
  {
  }

  /** A reference survives an event if and only if the event does not drop it. */
  lemma StepRefers(s: State, e: Event, dst: Name, instance: Name)
    requires Enabled(s, e) && Refers(s.refers, dst, instance)
    ensures Refers(Apply(s, e).refers, dst, instance) <==> !Drops(s, e, dst, instance)
  {
    match e
    case Arrive(id, _, _, w) =>
      if id in s.failed { RefusedRefers(Arrived(s, e), |s.requests|, w, dst, instance); }
      else { WalkRefers(Arrived(s, e), |s.requests|, w, dst, instance); }
    case Continue(r, w) =>
      ResumeWalks(s, r, w);
      if Noted(s, r).requests[r].id in Noted(s, r).failed { RefusedRefers(Noted(s, r), r, w, dst, instance); }
      else { WalkRefers(Noted(s, r), r, w, dst, instance); }
    case _ =>
  }

  ghost predicate NeverDropped(s: State, es: seq<Event>, dst: Name, instance: Name)
    requires Possible(s, es)
    decreases |es|
  {
    es == [] || (!Drops(s, es[0], dst, instance) && NeverDropped(Apply(s, es[0]), es[1..], dst, instance))
  }

  /** The state before event `k`. */
  ghost function StateAt(s: State, es: seq<Event>, k: nat): State
    requires Possible(s, es) && k <= |es|
    decreases k
  {
    if k == 0 then s else StateAt(Apply(s, es[0]), es[1..], k - 1)
  }

  /** A package that an instance refers to stays referred to, whatever happens to other
      instances that share it, and no sweep of the run clears it, as long as no event drops
      that very reference. */
  lemma {:induction false} HeldTheorem(s: State, es: seq<Event>, dst: Name, instance: Name, k: nat)
    requires Possible(s, es) && Refers(s.refers, dst, instance) && k <= |es|
    requires NeverDropped(s, es, dst, instance)
    ensures Refers(StateAt(s, es, k).refers, dst, instance)
    ensures k < |es| && es[k].Timer? ==> dst !in Cleared(StateAt(s, es, k).refers, es[k].v)
    decreases k
  {
    if k > 0 {
      StepRefers(s, es[0], dst, instance);
      HeldTheorem(Apply(s, es[0]), es[1..], dst, instance, k - 1);
    }
  }

  // --- the packages of a request ------------------------------------------

  /** The first `n` packages that are not delegates are referred to, unless their
      references have been dropped since. */
  ghost predicate HeldUpTo(refers: map<Name, Info>, dropped: set<(Name, Name)>, q: Request, n: nat)
    requires n <= |q.all|
  {
    forall k | 0 <= k < n && !q.all[k].delegate ::
      Refers(refers, q.all[k].dst, q.instance) || (q.all[k].dst, q.instance) in dropped
  }

  /** So it is for every package that the request has taken from its queue. */
  ghost predicate Held(s: State, q: Request) {
    |q.queue| <= |q.all| && q.queue == q.all[|q.all| - |q.queue|..]
    && HeldUpTo(s.refers, s.dropped, q, |q.all| - |q.queue|)
  }

  ghost predicate AllHeld(s: State) {
    forall i | 0 <= i < |s.requests| && !s.requests[i].phase.Refused? :: Held(s, s.requests[i])
  }

  /** No reference is lost without being noted. */
  ghost predicate Kept(s: State, t: State) {
    forall dst: Name, instance: Name | Refers(s.refers, dst, instance) || (dst, instance) in s.dropped ::
      Refers(t.refers, dst, instance) || (dst, instance) in t.dropped
  }

  lemma KeptHeld(s: State, t: State, q: Request)
    requires Held(s, q) && Kept(s, t)
    ensures Held(t, q)
  {
  }

  lemma KeptTrans(s: State, t: State, u: State)
    requires Kept(s, t) && Kept(t, u)
    ensures Kept(s, u)
  {
    forall dst: Name, instance: Name | Refers(s.refers, dst, instance) || (dst, instance) in s.dropped
      ensures Refers(u.refers, dst, instance) || (dst, instance) in u.dropped
    {
      assert Refers(t.refers, dst, instance) || (dst, instance) in t.dropped;
    }
  }

  lemma ReferredKept(s: State, r: nat)
    requires r < |s.requests| && s.requests[r].queue != []
    ensures Kept(s, Referred(s, r))
    ensures var p := s.requests[r].queue[0];
            p.delegate || Refers(Referred(s, r).refers, p.dst, s.requests[r].instance)
  {
  }

  lemma RefuseKept(s: State, r: nat, w: World)
    requires r < |s.requests| && s.requests[r].id in s.failed
    ensures Kept(s, Refuse(s, r, w))
  {
    var t, instance := Refuse(s, r, w), s.requests[r].instance;
    forall dst: Name, i: Name | Refers(s.refers, dst, i) || (dst, i) in s.dropped
      ensures Refers(t.refers, dst, i) || (dst, i) in t.dropped
    {
      if dst in w.rebuilt && i == instance { assert (dst, i) in t.dropped; }
    }
  }

  /** Taking the next package keeps what is held and holds that package. */
  lemma NextHeld(s: State, r: nat, q: Request)
    requires r < |s.requests| && s.requests[r].queue != [] && Held(s, s.requests[r])
    requires q.instance == s.requests[r].instance && q.all == s.requests[r].all && q.queue == s.requests[r].queue[1..]
    ensures Held(Referred(s, r), q)
  {
    var n := |q.all| - |s.requests[r].queue|;
    ReferredKept(s, r);
    KeptHeld(s, Referred(s, r), s.requests[r]);
    assert s.requests[r].queue[0] == q.all[n];
    assert q.all[n..][1..] == q.all[n + 1..];
  }

  /** A walk that stops at its next package. */
  lemma StopKept(s: State, r: nat, w: World)
    requires r < |s.requests| && Held(s, s.requests[r]) && s.requests[r].id !in s.failed && s.requests[r].queue != []
    requires s.requests[r].queue[0].dst in s.deploying || !w.deployed(s.requests[r].queue[0].dst)
    ensures |Walk(s, r, w).requests| == |s.requests| && Kept(s, Walk(s, r, w))
    ensures Held(Walk(s, r, w), Walk(s, r, w).requests[r])
  {
    var t := Walk(s, r, w);
    assert t.refers == Referred(s, r).refers && t.dropped == Referred(s, r).dropped;
    ReferredKept(s, r);
    NextHeld(s, r, t.requests[r]);
  }

  lemma {:induction false} WalkKept(s: State, r: nat, w: World)
    requires r < |s.requests| && Held(s, s.requests[r])
    ensures |Walk(s, r, w).requests| == |s.requests| && Kept(s, Walk(s, r, w))
    ensures Walk(s, r, w).requests[r].phase.Refused? || Held(Walk(s, r, w), Walk(s, r, w).requests[r])
    decreases |s.requests[r].queue|
  {
    var q := s.requests[r];
    if q.id in s.failed {
      RefuseKept(s, r, w);
    } else if q.queue == [] {
      assert Kept(s, Walk(s, r, w));
    } else if q.queue[0].dst !in s.deploying && w.deployed(q.queue[0].dst) {
      FoundKept(s, r);
      WalkKept(SkipFound(s, r), r, w);
      KeptTrans(s, SkipFound(s, r), Walk(s, r, w));
    } else {
      StopKept(s, r, w);
    }
  }

  lemma FoundKept(s: State, r: nat)
    requires r < |s.requests| && Held(s, s.requests[r]) && s.requests[r].queue != []
    ensures Kept(s, SkipFound(s, r)) && Held(SkipFound(s, r), SkipFound(s, r).requests[r])
  {
    ReferredKept(s, r);
    NextHeld(s, r, SkipFound(s, r).requests[r]);
  }

  lemma WalkHeld(s: State, r: nat, w: World)
    requires r < |s.requests| && AllHeld(s) && !s.requests[r].phase.Refused?
    ensures AllHeld(Walk(s, r, w))
  {
    var t := Walk(s, r, w);
    WalkKept(s, r, w);
    forall i | 0 <= i < |t.requests| && !t.requests[i].phase.Refused? ensures Held(t, t.requests[i]) {
      if i != r {
        WalkOthers(s, r, w, i);
        KeptHeld(s, t, s.requests[i]);
      }
    }
  }

  lemma TableHeld(s: State, t: State)
    requires AllHeld(s) && Kept(s, t) && t.requests == s.requests
    ensures AllHeld(t)
  {
    forall i | 0 <= i < |t.requests| && !t.requests[i].phase.Refused? ensures Held(t, t.requests[i]) {
      KeptHeld(s, t, s.requests[i]);
    }
  }

  lemma CleanKept(s: State)
    ensures Kept(s, CleanStatus(s))
  {
    var t := CleanStatus(s);
    forall dst: Name, i: Name | Refers(s.refers, dst, i) || (dst, i) in s.dropped
      ensures Refers(t.refers, dst, i) || (dst, i) in t.dropped
    {
    }
  }

  lemma StepHeld(s: State, e: Event)
    requires AllHeld(s) && Enabled(s, e)
    ensures AllHeld(Apply(s, e))
  {
    match e
    case Arrive(_, _, _, w) => WalkHeld(Arrived(s, e), |s.requests|, w);
    case DownloadDone(r, result) =>
      var t := Apply(s, e);
      forall i | 0 <= i < |t.requests| && !t.requests[i].phase.Refused? ensures Held(t, t.requests[i]) {
        assert Held(s, s.requests[i]);
      }
    case Continue(r, w) =>
      ResumeWalks(s, r, w);
      WalkHeld(Noted(s, r), r, w);
    case Adopt(_, _) => TableHeld(s, Apply(s, e));
    case Release(_, _, _) => TableHeld(s, Apply(s, e));
    case Timer(_) => TableHeld(s, Apply(s, e));
    case Clean =>
      CleanKept(s);
      TableHeld(s, Apply(s, e));
  }

  lemma {:induction false} RunHeld(s: State, es: seq<Event>)
    requires AllHeld(s) && Possible(s, es)
    ensures AllHeld(Run(s, es))
    decreases |es|
  {
    if es != [] {
      StepHeld(s, es[0]);
      RunHeld(Apply(s, es[0]), es[1..]);
    }
  }

  /** In every reachable state, each package that a request found, awaits or has fetched,
      unless it is a delegate, is referred to by its instance or has had that reference
      dropped since; in the first case no sweep clears it. */
  lemma ReferencedTheorem(s: State, i: nat, k: nat, v: Sweep)
    requires Reachable(s) && i < |s.requests| && !s.requests[i].phase.Refused?
    requires k + |s.requests[i].queue| < |s.requests[i].all| && !s.requests[i].all[k].delegate
    ensures var dst, instance := s.requests[i].all[k].dst, s.requests[i].instance;
            (dst, instance) !in s.dropped ==> Refers(s.refers, dst, instance) && dst !in Cleared(s.refers, v)
  {
    var es: seq<Event> :| Possible(Init(), es) && s == Run(Init(), es);
    RunHeld(Init(), es);
    assert Held(s, s.requests[i]);
  }

  lemma RefusedDropped(s: State, r: nat, w: World, dst: Name, instance: Name)
    requires r < |s.requests| && s.requests[r].id in s.failed
    requires (dst, instance) in Walk(s, r, w).dropped && (dst, instance) !in s.dropped
    ensures s.requests[r].instance == instance && dst in w.rebuilt
  {
  }

  /** A reference counts as dropped only through an event that drops it. */
  lemma DroppedTheorem(s: State, e: Event, dst: Name, instance: Name)
    requires Enabled(s, e) && (dst, instance) in Apply(s, e).dropped && (dst, instance) !in s.dropped
    ensures Drops(s, e, dst, instance)
  {
    match e
    case Arrive(id, _, _, w) =>
      if id in s.failed { RefusedDropped(Arrived(s, e), |s.requests|, w, dst, instance); }
      else { WalkRefers(Arrived(s, e), |s.requests|, w, dst, instance); }
    case Continue(r, w) =>
      ResumeWalks(s, r, w);
      if Noted(s, r).requests[r].id in Noted(s, r).failed { RefusedDropped(Noted(s, r), r, w, dst, instance); }
      else { WalkRefers(Noted(s, r), r, w, dst, instance); }
    case _ =>
  }

  // --- how cleaning ends --------------------------------------------------

  ghost predicate NoClean(es: seq<Event>) {
    forall i | 0 <= i < |es| :: !es[i].Clean?
  }

  ghost function TimerCount(es: seq<Event>): nat {
    if es == [] then 0 else (if es[0].Timer? then 1 else 0) + TimerCount(es[1..])
  }

  lemma {:induction false} WalkClock(s: State, r: nat, w: World)
    requires r < |s.requests|
    ensures var t := Walk(s, r, w);
            t.remaining == s.remaining && t.cleaning == s.cleaning && t.ticking == s.ticking && t.result == s.result
    decreases |s.requests[r].queue|
  {
    var q := s.requests[r];
    if q.id !in s.failed && q.queue != [] && q.queue[0].dst !in s.deploying && w.deployed(q.queue[0].dst) {
      WalkClock(SkipFound(s, r), r, w);
    }
  }

  lemma StepClock(s: State, e: Event)
    requires Enabled(s, e) && !e.Timer? && !e.Clean?
    ensures var t := Apply(s, e);
            t.remaining == s.remaining && t.cleaning == s.cleaning && t.ticking == s.ticking && t.result == s.result
  {
    match e
    case Arrive(_, _, _, w) => WalkClock(Arrived(s, e), |s.requests|, w);
    case Continue(r, w) =>
      ResumeWalks(s, r, w);
      WalkClock(Noted(s, r), r, w);
    case _ =>
  }

  /** After the state has been cleaned the sweep goes on for at most `remaining + 1` ticks:
      as long as it has not stopped, the ticks so far have been counted down. */
  lemma {:induction false} CountdownTheorem(s: State, es: seq<Event>)
    requires Possible(s, es) && NoClean(es) && s.cleaning && s.remaining >= 0
    ensures var t := Run(s, es);
            t.cleaning && t.remaining >= 0 && TimerCount(es) <= s.remaining - t.remaining + (if t.ticking then 0 else 1)
    decreases |es|
  {
    if es != [] {
      var e, t := es[0], Apply(s, es[0]);
      assert !e.Clean?;
      if !e.Timer? { StepClock(s, e); }
      CountdownTheorem(t, es[1..]);
      if !t.ticking { StaysStopped(t, es[1..]); }
    }
  }

  lemma {:induction false} StaysStopped(s: State, es: seq<Event>)
    requires Possible(s, es) && NoClean(es) && !s.ticking
    ensures var t := Run(s, es); !t.ticking && t.remaining == s.remaining && t.result == s.result && TimerCount(es) == 0
    decreases |es|
  {
    if es != [] {
      assert !es[0].Clean? && !es[0].Timer?;
      StepClock(s, es[0]);
      StaysStopped(Apply(s, es[0]), es[1..]);
    }
  }

  /** So it stops within RETRY_TIMES + 1 ticks of a cleaned state. */
  lemma CleanStopsTheorem(s: State, es: seq<Event>)
    requires Possible(CleanStatus(s), es) && NoClean(es)
    ensures TimerCount(es) <= RETRY_TIMES + 1
    ensures TimerCount(es) == RETRY_TIMES + 1 ==> !Run(CleanStatus(s), es).ticking
  {
    CountdownTheorem(CleanStatus(s), es);
  }

  /** Event `k` is a tick that finds the table empty after fewer than `n` others. */
  ghost predicate FindsEmpty(s: State, es: seq<Event>, k: nat, n: int)
    requires Possible(s, es)
  {
    k < |es| && es[k].Timer? && StateAt(s, es, k).refers == map[] && TimerCount(es[..k]) < n
  }

  lemma FindsLater(s: State, es: seq<Event>, k: nat, n: int)
    requires Possible(s, es) && es != []
    ensures FindsEmpty(s, es, k + 1, n)
            <==> FindsEmpty(Apply(s, es[0]), es[1..], k, if es[0].Timer? then n - 1 else n)
  {
    if k + 1 < |es| { assert es[..k + 1][1..] == es[1..][..k]; }
  }

  lemma FindsShift(s: State, es: seq<Event>, n: int, m: int)
    requires Possible(s, es) && es != [] && !FindsEmpty(s, es, 0, n) && m == n - if es[0].Timer? then 1 else 0
    ensures (exists k: nat :: FindsEmpty(s, es, k, n))
            <==> exists k: nat :: FindsEmpty(Apply(s, es[0]), es[1..], k, m)
  {
    if k: nat :| FindsEmpty(s, es, k, n) {
      FindsLater(s, es, k - 1, n);
    }
    if k: nat :| FindsEmpty(Apply(s, es[0]), es[1..], k, m) {
      FindsLater(s, es, k, n);
    }
  }

  lemma {:induction false} Outcome(s: State, es: seq<Event>)
    requires Possible(s, es) && NoClean(es) && s.cleaning && s.remaining >= 0 && s.ticking && s.result.None?
    ensures Run(s, es).result == if exists k: nat :: FindsEmpty(s, es, k, s.remaining) then Some(SUCCESS)
                                 else if TimerCount(es) > s.remaining then Some(CLEAN_CODE_PACKAGE_TIME_OUT) else None
    decreases |es|
  {
    if es != [] {
      var e, t := es[0], Apply(s, es[0]);
      assert !e.Clean?;
      assert es[..0] == [];
      if FindsEmpty(s, es, 0, s.remaining) {
        StaysStopped(t, es[1..]);
      } else {
        FindsShift(s, es, s.remaining, s.remaining - if e.Timer? then 1 else 0);
        if !e.Timer? {
          StepClock(s, e);
          Outcome(t, es[1..]);
        } else if s.remaining == 0 {
          StaysStopped(t, es[1..]);
          NothingFound(t, es[1..]);
        } else {
          Outcome(t, es[1..]);
        }
      }
    }
  }

  lemma NothingFound(s: State, es: seq<Event>)
    requires Possible(s, es)
    ensures !exists k: nat :: FindsEmpty(s, es, k, -1)
  {
  }

  /** How cleaning ends, over any run: with success if and only if one of its first
      RETRY_TIMES ticks finds the table empty; with a time-out if and only if none does and
      there is one more tick; and not yet otherwise. */
  lemma SuccessTheorem(s: State, es: seq<Event>)
    requires s.ticking && s.result.None? && Possible(CleanStatus(s), es) && NoClean(es)
    ensures Run(CleanStatus(s), es).result
            == if exists k: nat :: FindsEmpty(CleanStatus(s), es, k, RETRY_TIMES) then Some(SUCCESS)
               else if TimerCount(es) > RETRY_TIMES then Some(CLEAN_CODE_PACKAGE_TIME_OUT) else None
  {
    Outcome(CleanStatus(s), es);
  }
}
