/** Single flight and the order in which requests deal with their packages, in every run. */
module PackageProofs {
  import opened CodePackages

  // --- one request --------------------------------------------------------

  predicate Good(h: How) {
    h.Found? || h.r.OK?
  }

  ghost predicate AllGood(done: seq<Item>) {
    forall i | 0 <= i < |done| :: Good(done[i].how)
  }

  /** All packages but the last were got; the last download failed with `r`. */
  ghost predicate LastBad(done: seq<Item>, r: Result) {
    done != [] && r.Error? && done[|done| - 1].how == Fetched(r) && AllGood(done[..|done| - 1])
  }

  /** The packages dealt with are the first ones asked for, in order. */
  ghost predicate Along(q: Request, n: nat) {
    && n <= |q.all| && |q.done| <= n && q.queue == q.all[n..]
    && forall i | 0 <= i < |q.done| :: q.done[i].dst == q.all[i].dst
  }

  ghost predicate RequestOk(q: Request) {
    match q.phase
    case Running => Along(q, |q.done|)
    case Downloading(dst) => Along(q, |q.done| + 1) && q.all[|q.done|].dst == dst
    case Waiting(dst) => Along(q, |q.done| + 1) && q.all[|q.done|].dst == dst
    case Notified(_) => Along(q, |q.done|)
    case Started => Along(q, |q.all|) && |q.done| == |q.all|
    case Refused(_) => Along(q, |q.done|)
  }

  ghost predicate FlightOk(s: State, q: Request) {
    (q.phase.Downloading? || q.phase.Waiting?) ==> q.phase.dst in s.deploying
  }

  ghost predicate SingleFlight(s: State) {
    forall i, j | 0 <= i < j < |s.requests| && s.requests[i].phase.Downloading? ::
      s.requests[j].phase != s.requests[i].phase
  }

  /** Every destination in flight has its downloader. */
  ghost predicate Backed(s: State) {
    forall dst | dst in s.deploying :: exists i :: 0 <= i < |s.requests| && s.requests[i].phase == Downloading(dst)
  }

  ghost predicate Inv(s: State) {
    && (forall i | 0 <= i < |s.requests| :: RequestOk(s.requests[i]) && FlightOk(s, s.requests[i]))
    && SingleFlight(s) && Backed(s)
  }

  /** The request at `r` is replaced by `q`, with whose phase a destination may come. */
  ghost predicate Replaced(s: State, t: State, r: nat, q: Request) {
    && r < |s.requests| && !s.requests[r].phase.Downloading? && t.requests == s.requests[r := q]
    && t.deploying == (if q.phase.Downloading? then s.deploying + {q.phase.dst} else s.deploying)
    && (q.phase.Downloading? ==> q.phase.dst !in s.deploying)
  }

  lemma ReplacedBacked(s: State, t: State, r: nat, q: Request)
    requires Backed(s) && Replaced(s, t, r, q)
    ensures Backed(t)
  {
    forall dst | dst in t.deploying
      ensures exists i :: 0 <= i < |t.requests| && t.requests[i].phase == Downloading(dst)
    {
      if q.phase == Downloading(dst) {
        assert t.requests[r].phase == Downloading(dst);
      } else {
        var i :| 0 <= i < |s.requests| && s.requests[i].phase == Downloading(dst);
        assert t.requests[i].phase == Downloading(dst);
      }
    }
  }

  lemma PutInv(s: State, t: State, r: nat, q: Request)
    requires Inv(s) && Replaced(s, t, r, q) && RequestOk(q) && FlightOk(t, q)
    ensures Inv(t)
  {
    ReplacedBacked(s, t, r, q);
    forall i | 0 <= i < |t.requests| ensures RequestOk(t.requests[i]) && FlightOk(t, t.requests[i]) {
      if i != r { assert t.requests[i] == s.requests[i]; }
    }
    forall i | 0 <= i < |t.requests| && i != r && t.requests[i].phase.Downloading?
      ensures t.requests[i].phase != q.phase
    {
      assert FlightOk(s, s.requests[i]);
    }
  }

  /** The next package of a running request. */
  lemma NextOk(q: Request, dst: Name)
    requires RequestOk(q) && q.phase.Running? && q.queue != [] && dst == q.queue[0].dst
    ensures RequestOk(q.(queue := q.queue[1..], phase := Waiting(dst)))
    ensures RequestOk(q.(queue := q.queue[1..], phase := Downloading(dst)))
    ensures RequestOk(q.(queue := q.queue[1..], done := q.done + [Item(dst, Found)]))
  {
    assert q.all[|q.done|..][1..] == q.all[|q.done| + 1..];
    assert q.all[|q.done|] == q.queue[0];
  }

  ghost predicate HasNext(s: State, r: nat) {
    Inv(s) && r < |s.requests| && s.requests[r].phase.Running? && s.requests[r].queue != []
  }

  lemma WaitInv(s: State, r: nat)
    requires HasNext(s, r) && s.requests[r].queue[0].dst in s.deploying
    ensures var q := s.requests[r];
            Inv(Put(Referred(s, r), r, q.(queue := q.queue[1..], phase := Waiting(q.queue[0].dst))))
  {
    var q := s.requests[r];
    NextOk(q, q.queue[0].dst);
    var waiting := q.(queue := q.queue[1..], phase := Waiting(q.queue[0].dst));
    PutInv(s, Put(Referred(s, r), r, waiting), r, waiting);
  }

  lemma FoundInv(s: State, r: nat)
    requires HasNext(s, r)
    ensures Inv(SkipFound(s, r)) && SkipFound(s, r).requests[r].phase.Running?
  {
    var q := s.requests[r];
    NextOk(q, q.queue[0].dst);
    PutInv(s, SkipFound(s, r), r, SkipFound(s, r).requests[r]);
  }

  lemma DownloadInv(s: State, r: nat)
    requires HasNext(s, r) && s.requests[r].queue[0].dst !in s.deploying
    ensures var q := s.requests[r];
            Inv(Put(Referred(s, r), r, q.(queue := q.queue[1..], phase := Downloading(q.queue[0].dst)))
                  .(deploying := s.deploying + {q.queue[0].dst}))
  {
    var q := s.requests[r];
    NextOk(q, q.queue[0].dst);
    var loading := q.(queue := q.queue[1..], phase := Downloading(q.queue[0].dst));
    PutInv(s, Put(Referred(s, r), r, loading).(deploying := s.deploying + {q.queue[0].dst}), r, loading);
  }

  lemma {:induction false} WalkInv(s: State, r: nat, w: World)
    requires Inv(s) && r < |s.requests| && s.requests[r].phase.Running?
    ensures Inv(Walk(s, r, w))
    decreases |s.requests[r].queue|
  {
    var q := s.requests[r];
    if q.id in s.failed {
      PutInv(s, Refuse(s, r, w), r, q.(phase := Refused(s.failed[q.id])));
    } else if q.queue == [] {
      PutInv(s, Walk(s, r, w), r, q.(phase := Started));
    } else if q.queue[0].dst in s.deploying {
      WaitInv(s, r);
    } else if w.deployed(q.queue[0].dst) {
      FoundInv(s, r);
      WalkInv(SkipFound(s, r), r, w);
    } else {
      DownloadInv(s, r);
    }
  }

  lemma AddedBacked(s: State, q: Request)
    requires Backed(s)
    ensures Backed(s.(requests := s.requests + [q]))
  {
    var t := s.(requests := s.requests + [q]);
    forall dst | dst in t.deploying
      ensures exists i :: 0 <= i < |t.requests| && t.requests[i].phase == Downloading(dst)
    {
      var i :| 0 <= i < |s.requests| && s.requests[i].phase == Downloading(dst);
      assert t.requests[i].phase == Downloading(dst);
    }
  }

  lemma AddedInv(s: State, id: Name, instance: Name, packages: seq<Package>)
    requires Inv(s)
    ensures Inv(s.(requests := s.requests + [Request(id, instance, packages, Running, packages, [])]))
  {
    var q := Request(id, instance, packages, Running, packages, []);
    var t := s.(requests := s.requests + [q]);
    AddedBacked(s, q);
    assert packages[0..] == packages;
    forall i | 0 <= i < |t.requests| ensures RequestOk(t.requests[i]) && FlightOk(t, t.requests[i]) {
      if i < |s.requests| { assert t.requests[i] == s.requests[i]; }
    }
  }

  lemma ArriveInv(s: State, id: Name, instance: Name, packages: seq<Package>, w: World)
    requires Inv(s)
    ensures Inv(Apply(s, Arrive(id, instance, packages, w)))
  {
    AddedInv(s, id, instance, packages);
    WalkInv(s.(requests := s.requests + [Request(id, instance, packages, Running, packages, [])]), |s.requests|, w);
  }

  lemma DownloadedRequest(s: State, r: nat, result: Result, i: nat)
    requires Inv(s) && Enabled(s, DownloadDone(r, result)) && i < |s.requests|
    ensures RequestOk(Downloaded(s, r, result).requests[i])
    ensures FlightOk(Downloaded(s, r, result), Downloaded(s, r, result).requests[i])
  {
    assert RequestOk(s.requests[i]) && FlightOk(s, s.requests[i]);
  }

  lemma DownloadedBacked(s: State, r: nat, result: Result)
    requires Inv(s) && Enabled(s, DownloadDone(r, result))
    ensures Backed(Downloaded(s, r, result)) && SingleFlight(Downloaded(s, r, result))
  {
    var t := Downloaded(s, r, result);
    forall d | d in t.deploying ensures exists i :: 0 <= i < |t.requests| && t.requests[i].phase == Downloading(d) {
      var i :| 0 <= i < |s.requests| && s.requests[i].phase == Downloading(d);
      assert t.requests[i].phase == Downloading(d);
    }
    forall i, j | 0 <= i < j < |t.requests| && t.requests[i].phase.Downloading?
      ensures t.requests[j].phase != t.requests[i].phase
    {
      assert s.requests[j].phase != s.requests[i].phase;
    }
  }

  lemma DownloadedInv(s: State, r: nat, result: Result)
    requires Inv(s) && Enabled(s, DownloadDone(r, result))
    ensures Inv(Downloaded(s, r, result))
  {
    var t := Downloaded(s, r, result);
    DownloadedBacked(s, r, result);
    forall i | 0 <= i < |t.requests| ensures RequestOk(t.requests[i]) && FlightOk(t, t.requests[i]) {
      DownloadedRequest(s, r, result, i);
    }
  }

  /** The state in which a resumed request walks on. */
  function Noted(s: State, r: nat): (t: State)
    requires r < |s.requests| && (s.requests[r].phase.Running? || s.requests[r].phase.Notified?)
    ensures |t.requests| == |s.requests| && t.requests[r] == s.requests[r].(phase := Running)
    ensures t.refers == s.refers && t.dropped == s.dropped && t.deploying == s.deploying
    ensures forall i | 0 <= i < |s.requests| && i != r :: t.requests[i] == s.requests[i]
  {
    var q := s.requests[r];
    if q.phase.Running? then s
    else Put(s, r, q.(phase := Running)).(failed := if q.phase.r.Error? then s.failed[q.id := q.phase.r] else s.failed)
  }

  lemma ResumeWalks(s: State, r: nat, w: World)
    requires r < |s.requests| && (s.requests[r].phase.Running? || s.requests[r].phase.Notified?)
    ensures Resume(s, r, w) == Walk(Noted(s, r), r, w)
  {
  }

  lemma NotedInv(s: State, r: nat)
    requires Inv(s) && r < |s.requests| && (s.requests[r].phase.Running? || s.requests[r].phase.Notified?)
    ensures Inv(Noted(s, r))
  {
    assert RequestOk(s.requests[r]);
    if s.requests[r].phase.Notified? { PutInv(s, Noted(s, r), r, s.requests[r].(phase := Running)); }
  }

  /** Collection does not concern requests. */
  lemma RefersOnly(s: State, t: State)
    requires Inv(s) && t.requests == s.requests && t.deploying == s.deploying
    ensures Inv(t)
  {
    forall i | 0 <= i < |t.requests| ensures RequestOk(t.requests[i]) && FlightOk(t, t.requests[i]) {
      assert RequestOk(s.requests[i]) && FlightOk(s, s.requests[i]);
    }
  }

  lemma StepInv(s: State, e: Event)
    requires Inv(s) && Enabled(s, e)
    ensures Inv(Apply(s, e))
  {
    match e
    case Arrive(id, instance, packages, w) => ArriveInv(s, id, instance, packages, w);
    case DownloadDone(r, result) => DownloadedInv(s, r, result);
    case Continue(r, w) =>
      NotedInv(s, r);
      ResumeWalks(s, r, w);
      WalkInv(Noted(s, r), r, w);
    case _ => RefersOnly(s, Apply(s, e));
  }

  lemma {:induction false} RunInv(s: State, es: seq<Event>)
    requires Inv(s) && Possible(s, es)
    ensures Inv(Run(s, es))
    decreases |es|
  {
    if es != [] {
      StepInv(s, es[0]);
      RunInv(Apply(s, es[0]), es[1..]);
    }
  }

  ghost predicate Reachable(s: State) {
    exists es: seq<Event> :: Possible(Init(), es) && s == Run(Init(), es)
  }

  lemma ReachableInv(s: State)
    requires Reachable(s)
    ensures Inv(s)
  {
    var es: seq<Event> :| Possible(Init(), es) && s == Run(Init(), es);
    RunInv(Init(), es);
  }

  lemma {:induction false} RunSnoc(s: State, es: seq<Event>, e: Event)
    requires Possible(s, es) && Enabled(Run(s, es), e)
    ensures Possible(s, es + [e]) && Run(s, es + [e]) == Apply(Run(s, es), e)
    decreases |es|
  {
    if es == [] {
      assert [e][1..] == [] && es + [e] == [e];
      assert Possible(Apply(s, e), []);
    } else {
      assert (es + [e])[0] == es[0] && (es + [e])[1..] == es[1..] + [e];
      RunSnoc(Apply(s, es[0]), es[1..], e);
    }
  }

  lemma ReachableStep(s: State, e: Event)
    requires Reachable(s) && Enabled(s, e)
    ensures Reachable(Apply(s, e))
  {
    var es: seq<Event> :| Possible(Init(), es) && s == Run(Init(), es);
    RunSnoc(Init(), es, e);
  }

  // --- single flight ------------------------------------------------------

  /** The destinations in flight are exactly those that one request is downloading, and
      nobody waits for a destination that is not in flight. */
  lemma SingleFlightTheorem(s: State, dst: Name)
    requires Reachable(s)
    ensures dst in s.deploying <==> exists i :: 0 <= i < |s.requests| && s.requests[i].phase == Downloading(dst)
    ensures forall i, j | 0 <= i < |s.requests| && 0 <= j < |s.requests|
                          && s.requests[i].phase == Downloading(dst) && s.requests[j].phase == Downloading(dst) ::
              i == j
    ensures forall i | 0 <= i < |s.requests| && s.requests[i].phase == Waiting(dst) :: dst in s.deploying
  {
    ReachableInv(s);
    forall i | 0 <= i < |s.requests| && (s.requests[i].phase == Waiting(dst) || s.requests[i].phase == Downloading(dst))
      ensures dst in s.deploying
    {
      assert FlightOk(s, s.requests[i]);
    }
  }

  /** Every request that waits for a destination gets the result of its downloader. */
  lemma SharedResult(s: State, r: nat, result: Result, i: nat)
    requires Reachable(s) && Enabled(s, DownloadDone(r, result)) && i < |s.requests|
    requires s.requests[i].phase == Waiting(s.requests[r].phase.dst)
    ensures var t := Apply(s, DownloadDone(r, result));
            && t.requests[i].phase == Notified(result)
            && t.requests[i].done == s.requests[i].done + [Item(s.requests[r].phase.dst, Fetched(result))]
            && s.requests[r].phase.dst !in t.deploying
            && forall j | 0 <= j < |t.requests| :: t.requests[j].phase != Waiting(s.requests[r].phase.dst)
  {
  }
}
