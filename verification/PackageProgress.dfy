/** Every deployment request ends, once, after a bounded number of steps. */
module PackageProgress {
  import opened CodePackages
  import opened PackageProofs

  /** The steps that requests take by themselves or when their downloads end. */
  predicate RequestStep(e: Event) {
    e.DownloadDone? || e.Continue?
  }

  ghost function Arrived(s: State, e: Event): State
    requires e.Arrive?
  {
    s.(requests := s.requests + [Request(e.id, e.instance, e.packages, Running, e.packages, [])])
  }

  lemma {:induction false} WalkOthers(s: State, r: nat, w: World, i: nat)
    requires r < |s.requests| && i < |s.requests| && i != r
    ensures |Walk(s, r, w).requests| == |s.requests| && Walk(s, r, w).requests[i] == s.requests[i]
    decreases |s.requests[r].queue|
  {
    var q := s.requests[r];
    if q.id !in s.failed && q.queue != [] && q.queue[0].dst !in s.deploying && w.deployed(q.queue[0].dst) {
      WalkOthers(SkipFound(s, r), r, w, i);
    }
  }

  lemma StepEnded(s: State, e: Event, i: nat)
    requires Enabled(s, e) && i < |s.requests| && Ended(s.requests[i])
    ensures i < |Apply(s, e).requests| && Apply(s, e).requests[i] == s.requests[i]
  {
    match e
    case Arrive(_, _, _, w) => WalkOthers(Arrived(s, e), |s.requests|, w, i);
    case Continue(r, w) =>
      ResumeWalks(s, r, w);
      WalkOthers(Noted(s, r), r, w, i);
    case _ =>
  }

  /** A request that has been started or refused stays as it is over any run: it gets one
      answer. */
  lemma {:induction false} EndsOnce(s: State, es: seq<Event>, i: nat)
    requires Possible(s, es) && i < |s.requests| && Ended(s.requests[i])
    ensures i < |Run(s, es).requests| && Run(s, es).requests[i] == s.requests[i]
    decreases |es|
  {
    if es != [] {
      StepEnded(s, es[0], i);
      EndsOnce(Apply(s, es[0]), es[1..], i);
    }
  }

  /** A request that is not over can go on by itself, or waits for a download whose end,
      with any result, lets it go on. */
  lemma NeverStuck(s: State, i: nat, w: World, result: Result) returns (e: Event)
    requires Reachable(s) && i < |s.requests| && !Ended(s.requests[i])
    ensures Enabled(s, e) && RequestStep(e)
    ensures if s.requests[i].phase.Running? || s.requests[i].phase.Notified? then e == Continue(i, w)
            else e.DownloadDone? && s.requests[e.r].phase == Downloading(s.requests[i].phase.dst)
                 && i < |Apply(s, e).requests| && Enabled(Apply(s, e), Continue(i, w))
  {
    ReachableInv(s);
    var q := s.requests[i];
    if q.phase.Running? || q.phase.Notified? {
      e := Continue(i, w);
    } else {
      assert FlightOk(s, q);
      var j :| 0 <= j < |s.requests| && s.requests[j].phase == Downloading(q.phase.dst);
      e := DownloadDone(j, result);
    }
  }

  // --- how much there is left to do ---------------------------------------

  ghost function Weight(q: Request): nat {
    3 * |q.queue| + match q.phase
      case Started => 0
      case Refused(_) => 0
      case Running => 1
      case Notified(_) => 1
      case Downloading(_) => 2
      case Waiting(_) => 2
  }

  ghost function Total(qs: seq<Request>): nat {
    if qs == [] then 0 else Total(qs[..|qs| - 1]) + Weight(qs[|qs| - 1])
  }

  lemma {:induction false} TotalSmaller(qs: seq<Request>, rs: seq<Request>, r: nat)
    requires |rs| == |qs| && r < |qs| && Weight(rs[r]) < Weight(qs[r])
    requires forall i | 0 <= i < |qs| :: Weight(rs[i]) <= Weight(qs[i])
    ensures Total(rs) < Total(qs)
  {
    var n := |qs| - 1;
    if r == n { TotalAtMost(qs[..n], rs[..n]); } else { TotalSmaller(qs[..n], rs[..n], r); }
  }

  lemma {:induction false} TotalAtMost(qs: seq<Request>, rs: seq<Request>)
    requires |rs| == |qs| && forall i | 0 <= i < |qs| :: Weight(rs[i]) <= Weight(qs[i])
    ensures Total(rs) <= Total(qs)
  {
    if qs != [] { TotalAtMost(qs[..|qs| - 1], rs[..|qs| - 1]); }
  }

  lemma {:induction false} WalkWeight(s: State, r: nat, w: World)
    requires r < |s.requests| && s.requests[r].phase.Running?
    ensures |Walk(s, r, w).requests| == |s.requests|
    ensures Weight(Walk(s, r, w).requests[r]) < Weight(s.requests[r])
    decreases |s.requests[r].queue|
  {
    var q := s.requests[r];
    if q.id !in s.failed && q.queue != [] && q.queue[0].dst !in s.deploying && w.deployed(q.queue[0].dst) {
      WalkWeight(SkipFound(s, r), r, w);
    }
  }

  lemma WalkDecreases(s: State, r: nat, w: World)
    requires r < |s.requests| && s.requests[r].phase.Running?
    ensures Total(Walk(s, r, w).requests) < Total(s.requests)
  {
    var t := Walk(s, r, w);
    WalkWeight(s, r, w);
    forall i | 0 <= i < |s.requests| && i != r ensures t.requests[i] == s.requests[i] { WalkOthers(s, r, w, i); }
    TotalSmaller(s.requests, t.requests, r);
  }

  /** Every step of a request makes the remaining work smaller. */
  lemma StepDecreases(s: State, e: Event)
    requires Enabled(s, e) && RequestStep(e)
    ensures Total(Apply(s, e).requests) < Total(s.requests)
  {
    if e.DownloadDone? {
      TotalSmaller(s.requests, Apply(s, e).requests, e.r);
    } else {
      ResumeWalks(s, e.r, e.w);
      WalkDecreases(Noted(s, e.r), e.r, e.w);
      TotalAtMost(s.requests, Noted(s, e.r).requests);
    }
  }

  /** An arriving request brings three units per package, and one. */
  ghost function Brought(es: seq<Event>): nat {
    if es == [] then 0 else (if es[0].Arrive? then 3 * |es[0].packages| + 1 else 0) + Brought(es[1..])
  }

  ghost function Steps(es: seq<Event>): nat {
    if es == [] then 0 else (if RequestStep(es[0]) then 1 else 0) + Steps(es[1..])
  }

  lemma StepWork(s: State, e: Event)
    requires Enabled(s, e)
    ensures Total(Apply(s, e).requests) + (if RequestStep(e) then 1 else 0)
            <= Total(s.requests) + (if e.Arrive? then 3 * |e.packages| + 1 else 0)
  {
    if RequestStep(e) {
      StepDecreases(s, e);
    } else if e.Arrive? {
      var t := Arrived(s, e);
      assert t.requests[..|s.requests|] == s.requests;
      WalkDecreases(t, |s.requests|, e.w);
    }
  }

  /** Over any run the steps of all requests are paid for by what was left to do and what
      arrived. */
  lemma {:induction false} BoundedTheorem(s: State, es: seq<Event>)
    requires Possible(s, es)
    ensures Steps(es) + Total(Run(s, es).requests) <= Total(s.requests) + Brought(es)
    decreases |es|
  {
    if es != [] {
      StepWork(s, es[0]);
      BoundedTheorem(Apply(s, es[0]), es[1..]);
    }
  }

  // --- the end ------------------------------------------------------------

  ghost predicate AllEnded(s: State) {
    forall i | 0 <= i < |s.requests| :: Ended(s.requests[i])
  }

  /** When no step of a request is possible any more, every request has ended. */
  lemma QuietTheorem(s: State)
    requires Reachable(s) && forall e | RequestStep(e) :: !Enabled(s, e)
    ensures AllEnded(s)
  {
    forall i | 0 <= i < |s.requests| ensures Ended(s.requests[i]) {
      if !Ended(s.requests[i]) {
        var e := NeverStuck(s, i, World(x => true, {}, 0), OK);
      }
    }
  }

  /** From every reachable state, whatever the downloads bring and the deployers say, a
      bounded number of steps of the requests ends them all. */
  lemma {:induction false} FinishesTheorem(s: State, w: World, result: Result) returns (es: seq<Event>)
    requires Reachable(s)
    ensures Possible(s, es) && (forall k | 0 <= k < |es| :: RequestStep(es[k])) && |es| <= Total(s.requests)
    ensures AllEnded(Run(s, es)) && |Run(s, es).requests| == |s.requests|
    decreases Total(s.requests)
  {
    if AllEnded(s) {
      es := [];
    } else {
      var i :| 0 <= i < |s.requests| && !Ended(s.requests[i]);
      var e := NeverStuck(s, i, w, result);
      StepDecreases(s, e);
      ReachableStep(s, e);
      StepLength(s, e);
      var rest := FinishesTheorem(Apply(s, e), w, result);
      es := [e] + rest;
      assert es[1..] == rest;
    }
  }

  lemma StepLength(s: State, e: Event)
    requires Enabled(s, e) && RequestStep(e)
    ensures |Apply(s, e).requests| == |s.requests|
  {
    if e.Continue? {
      ResumeWalks(s, e.r, e.w);
      WalkWeight(Noted(s, e.r), e.r, e.w);
    }
  }
}
