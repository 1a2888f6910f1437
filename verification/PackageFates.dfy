/** How deployment requests end, as long as no two requests under way have the same ID; and
    what happens otherwise. */
module PackageFates {
  import opened CodePackages
  import opened PackageProofs

  /** What the packages dealt with say about where a request stands. A failure is on record
      exactly between its download and its reply. */
  ghost predicate FateOk(s: State, q: Request) {
    match q.phase
    case Running => if q.id in s.failed then LastBad(q.done, s.failed[q.id]) else AllGood(q.done)
    case Downloading(_) => q.id !in s.failed && AllGood(q.done)
    case Waiting(_) => q.id !in s.failed && AllGood(q.done)
    case Notified(r) => q.id !in s.failed && if r.OK? then AllGood(q.done) else LastBad(q.done, r)
    case Started => AllGood(q.done)
    case Refused(r) => LastBad(q.done, r)
  }

  /** At most one request with the ID is under way. */
  ghost predicate Alone(s: State, id: Name) {
    forall i, j | 0 <= i < j < |s.requests| && s.requests[i].id == id && s.requests[j].id == id ::
      Ended(s.requests[i]) || Ended(s.requests[j])
  }

  ghost predicate Live(s: State, id: Name) {
    exists i :: 0 <= i < |s.requests| && s.requests[i].id == id && !Ended(s.requests[i])
  }

  ghost predicate Fated(s: State, id: Name) {
    && Alone(s, id) && (id in s.failed ==> Live(s, id))
    && forall i | 0 <= i < |s.requests| && s.requests[i].id == id :: FateOk(s, s.requests[i])
  }

  /** The request at `r` changes, and with it at most the failure of its own ID. */
  ghost predicate Moved(s: State, t: State, r: nat) {
    && r < |s.requests| && !Ended(s.requests[r]) && |t.requests| == |s.requests|
    && t.requests == s.requests[r := t.requests[r]] && t.requests[r].id == s.requests[r].id
    && forall id | id != s.requests[r].id ::
         (id in t.failed <==> id in s.failed) && (id in s.failed ==> t.failed[id] == s.failed[id])
  }

  lemma MovedOther(s: State, t: State, r: nat, id: Name)
    requires Fated(s, id) && Moved(s, t, r) && s.requests[r].id != id
    ensures Fated(t, id)
  {
    if id in t.failed {
      var i :| 0 <= i < |s.requests| && s.requests[i].id == id && !Ended(s.requests[i]);
      assert t.requests[i] == s.requests[i];
    }
    forall i | 0 <= i < |t.requests| && t.requests[i].id == id ensures FateOk(t, t.requests[i]) {
      assert t.requests[i] == s.requests[i] && FateOk(s, s.requests[i]);
    }
    forall i, j | 0 <= i < j < |t.requests| && t.requests[i].id == id && t.requests[j].id == id
      ensures Ended(t.requests[i]) || Ended(t.requests[j])
    {
      assert t.requests[i] == s.requests[i] && t.requests[j] == s.requests[j];
    }
  }

  /** The request that moves is the one under way with its ID; the others have ended. */
  lemma MovedOwn(s: State, t: State, r: nat)
    requires Moved(s, t, r) && Fated(s, s.requests[r].id) && FateOk(t, t.requests[r])
    requires t.requests[r].id in t.failed ==> !Ended(t.requests[r])
    ensures Fated(t, s.requests[r].id)
  {
    var id := s.requests[r].id;
    if id in t.failed { assert t.requests[r].id == id; }
    forall i | 0 <= i < |t.requests| && t.requests[i].id == id ensures FateOk(t, t.requests[i]) {
      if i != r {
        assert t.requests[i] == s.requests[i] && FateOk(s, s.requests[i]);
        assert Ended(s.requests[i]);
      }
    }
    forall i, j | 0 <= i < j < |t.requests| && t.requests[i].id == id && t.requests[j].id == id
      ensures Ended(t.requests[i]) || Ended(t.requests[j])
    {
      assert Ended(s.requests[i]) || Ended(s.requests[j]);
      assert i != r ==> t.requests[i] == s.requests[i];
      assert j != r ==> t.requests[j] == s.requests[j];
    }
  }

  lemma MovedFated(s: State, t: State, r: nat, id: Name)
    requires Fated(s, id) && Moved(s, t, r)
    requires s.requests[r].id == id ==> FateOk(t, t.requests[r]) && (id in t.failed ==> !Ended(t.requests[r]))
    ensures Fated(t, id)
  {
    if s.requests[r].id == id { MovedOwn(s, t, r); } else { MovedOther(s, t, r, id); }
  }

  lemma {:induction false} WalkFated(s: State, r: nat, w: World, id: Name)
    requires Fated(s, id) && r < |s.requests| && s.requests[r].phase.Running?
    ensures Fated(Walk(s, r, w), id)
    decreases |s.requests[r].queue|
  {
    var q := s.requests[r];
    if q.id == id { assert FateOk(s, q); }
    if q.id !in s.failed && q.queue != [] && q.queue[0].dst !in s.deploying && w.deployed(q.queue[0].dst) {
      MovedFated(s, SkipFound(s, r), r, id);
      WalkFated(SkipFound(s, r), r, w, id);
    } else {
      MovedFated(s, Walk(s, r, w), r, id);
    }
  }

  lemma NotedFated(s: State, r: nat, id: Name)
    requires Fated(s, id) && r < |s.requests| && (s.requests[r].phase.Running? || s.requests[r].phase.Notified?)
    ensures Fated(Noted(s, r), id)
  {
    if s.requests[r].id == id { assert FateOk(s, s.requests[r]); }
    MovedFated(s, Noted(s, r), r, id);
  }

  lemma AddedFated(s: State, q: Request, id: Name)
    requires Fated(s, id) && q.phase.Running? && q.done == [] && (q.id == id ==> !Live(s, id))
    ensures Fated(s.(requests := s.requests + [q]), id)
  {
    var t := s.(requests := s.requests + [q]);
    if id in t.failed {
      var i :| 0 <= i < |s.requests| && s.requests[i].id == id && !Ended(s.requests[i]);
      assert t.requests[i] == s.requests[i];
    }
    forall i | 0 <= i < |t.requests| && t.requests[i].id == id ensures FateOk(t, t.requests[i]) {
      if i < |s.requests| { assert t.requests[i] == s.requests[i] && FateOk(s, s.requests[i]); }
    }
  }

  // --- the end of a download ----------------------------------------------

  lemma ToldFate(q: Request, dst: Name, result: Result)
    requires AllGood(q.done) && (q.phase == Downloading(dst) || q.phase == Waiting(dst))
    ensures var told := Told(q, dst, result);
            if result.OK? then AllGood(told.done) else LastBad(told.done, result)
  {
    var told := Told(q, dst, result);
    assert told.done[..|told.done| - 1] == q.done;
  }

  lemma DownloadedFate(s: State, r: nat, result: Result, id: Name, i: nat)
    requires Inv(s) && Fated(s, id) && Enabled(s, DownloadDone(r, result)) && i < |s.requests| && s.requests[i].id == id
    ensures FateOk(Downloaded(s, r, result), Downloaded(s, r, result).requests[i])
  {
    var q, dst := s.requests[i], s.requests[r].phase.dst;
    assert FateOk(s, q);
    if q.phase == Downloading(dst) || q.phase == Waiting(dst) { ToldFate(q, dst, result); }
    assert i != r ==> q.phase != Downloading(dst);
    assert i != r && s.requests[r].id == id ==> Ended(q);
  }

  lemma DownloadedFated(s: State, r: nat, result: Result, id: Name)
    requires Inv(s) && Fated(s, id) && Enabled(s, DownloadDone(r, result))
    ensures Fated(Downloaded(s, r, result), id)
  {
    var t := Downloaded(s, r, result);
    assert forall i | 0 <= i < |s.requests| ::
        t.requests[i].id == s.requests[i].id && (Ended(t.requests[i]) <==> Ended(s.requests[i]));
    if id in t.failed {
      if id == s.requests[r].id {
        assert !Ended(t.requests[r]);
      } else {
        var i :| 0 <= i < |s.requests| && s.requests[i].id == id && !Ended(s.requests[i]);
        assert t.requests[i].id == id && !Ended(t.requests[i]);
      }
    }
    forall i | 0 <= i < |t.requests| && t.requests[i].id == id ensures FateOk(t, t.requests[i]) {
      DownloadedFate(s, r, result, id, i);
    }
  }

  // --- runs ---------------------------------------------------------------

  /** The event does not bring a second request under way with the ID. */
  ghost predicate Unshared(s: State, e: Event, id: Name) {
    e.Arrive? && e.id == id ==> !Live(s, id)
  }

  lemma StepFated(s: State, e: Event, id: Name)
    requires Inv(s) && Fated(s, id) && Enabled(s, e) && Unshared(s, e, id)
    ensures Fated(Apply(s, e), id)
  {
    match e
    case Arrive(x, instance, packages, w) =>
      var q := Request(x, instance, packages, Running, packages, []);
      AddedFated(s, q, id);
      WalkFated(s.(requests := s.requests + [q]), |s.requests|, w, id);
    case DownloadDone(r, result) => DownloadedFated(s, r, result, id);
    case Continue(r, w) =>
      NotedFated(s, r, id);
      ResumeWalks(s, r, w);
      WalkFated(Noted(s, r), r, w, id);
    case _ =>
      forall i | 0 <= i < |s.requests| && s.requests[i].id == id ensures FateOk(Apply(s, e), s.requests[i]) {
        assert FateOk(s, s.requests[i]);
      }
  }

  ghost predicate UnsharedRun(s: State, es: seq<Event>, id: Name)
    requires Possible(s, es)
    decreases |es|
  {
    es == [] || (Unshared(s, es[0], id) && UnsharedRun(Apply(s, es[0]), es[1..], id))
  }

  lemma {:induction false} RunFated(s: State, es: seq<Event>, id: Name)
    requires Inv(s) && Fated(s, id) && Possible(s, es) && UnsharedRun(s, es, id)
    ensures Fated(Run(s, es), id)
    decreases |es|
  {
    if es != [] {
      StepFated(s, es[0], id);
      StepInv(s, es[0]);
      RunFated(Apply(s, es[0]), es[1..], id);
    }
  }

  /** In every run that does not share the ID of a request: its runtime is started only if
      each of its packages was deployed or downloaded without error, in order; it is refused
      only with the error of its last download; and while it is under way a failure is on
      record exactly between that download and the reply. */
  lemma FateTheorem(es: seq<Event>, i: nat)
    requires Possible(Init(), es) && i < |Run(Init(), es).requests|
    requires UnsharedRun(Init(), es, Run(Init(), es).requests[i].id)
    ensures var s := Run(Init(), es);
            var q := s.requests[i];
            && (q.phase.Started? ==>
                  |q.done| == |q.all|
                  && forall k | 0 <= k < |q.all| :: q.done[k].dst == q.all[k].dst && Good(q.done[k].how))
            && (q.phase.Refused? ==> LastBad(q.done, q.phase.r))
            && (!Ended(q) && q.id in s.failed ==> q.phase.Running? && LastBad(q.done, s.failed[q.id]))
  {
    var s := Run(Init(), es);
    RunInv(Init(), es);
    RunFated(Init(), es, s.requests[i].id);
    assert RequestOk(s.requests[i]) && FateOk(s, s.requests[i]);
  }

  // --- two requests with one ID -------------------------------------------

  /** Two requests with one ID whose only package is being downloaded. */
  lemma TwoWaiting(w: World) returns (s: State)
    requires !w.deployed(7)
    ensures Reachable(s) && |s.requests| == 2 && s.failed == map[]
    ensures s.requests[0] == Request(1, 2, [], Downloading(7), [Package(7, false)], [])
    ensures s.requests[1] == Request(1, 3, [], Waiting(7), [Package(7, false)], [])
  {
    var packages := [Package(7, false)];
    assert packages[1..] == [];
    assert Possible(Init(), []) && Run(Init(), []) == Init();
    ReachableStep(Init(), Arrive(1, 2, packages, w));
    var a := Apply(Init(), Arrive(1, 2, packages, w));
    assert a.requests == [Request(1, 2, [], Downloading(7), packages, [])] && a.deploying == {7} && a.failed == map[];
    ReachableStep(a, Arrive(1, 3, packages, w));
    s := Apply(a, Arrive(1, 3, packages, w));
  }

  /** The download fails, and the request that waited for it is refused: with that the
      failure is no longer on record for the other one. */
  lemma OneRefused(w: World) returns (s: State)
    requires !w.deployed(7)
    ensures Reachable(s) && |s.requests| == 2 && s.failed == map[]
    ensures s.requests[0] == Request(1, 2, [], Running, [Package(7, false)], [Item(7, Fetched(Error(5)))])
    ensures s.requests[1].phase == Refused(Error(5))
  {
    var a := TwoWaiting(w);
    ReachableStep(a, DownloadDone(0, Error(5)));
    var b := Apply(a, DownloadDone(0, Error(5)));
    assert b.requests[1].phase == Notified(Error(5)) && b.failed == map[1 := Error(5)];
    ReachableStep(b, Continue(1, w));
    s := Apply(b, Continue(1, w));
  }

  /** Requests that share an ID share one recorded failure: a runtime may be started although
      its only download failed. */
  lemma SharedFailure() returns (s: State)
    ensures Reachable(s) && |s.requests| == 2
    ensures s.requests[0].phase.Started? && s.requests[0].done == [Item(7, Fetched(Error(5)))]
  {
    var w := World(x => false, {}, 0);
    var a := OneRefused(w);
    ReachableStep(a, Continue(0, w));
    s := Apply(a, Continue(0, w));
  }
}
