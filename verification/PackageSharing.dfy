/** Which requests can still end wrongly because another one under way gets their ID. */
module PackageSharing {
  import opened CodePackages
  import opened PackageProofs
  import opened PackageFates
  import opened PackageProgress

  /** The request has not ended, or has ended as its packages say. */
  ghost predicate Right(q: Request) {
    match q.phase
    case Started => AllGood(q.done)
    case Refused(r) => LastBad(q.done, r)
    case _ => true
  }

  /** It is so at the end of every run. */
  ghost predicate AlwaysRight(s: State, i: nat) {
    forall es | Possible(s, es) :: i < |Run(s, es).requests| && Right(Run(s, es).requests[i])
  }

  // --- requests that nothing can spoil ------------------------------------

  /** Told of a failed download: the next thing the request does is to be refused with it. */
  ghost predicate Doomed(q: Request) {
    q.phase.Notified? && q.phase.r.Error?
  }

  /** What becomes of a doomed request. */
  ghost predicate StillDoomed(q: Request, next: Request)
    requires Doomed(q)
  {
    next == q || next == q.(phase := Refused(q.phase.r))
  }

  lemma StepDoomed(s: State, e: Event, i: nat)
    requires Enabled(s, e) && i < |s.requests| && Doomed(s.requests[i])
    ensures i < |Apply(s, e).requests| && StillDoomed(s.requests[i], Apply(s, e).requests[i])
  {
    match e
    case Arrive(_, _, _, w) => WalkOthers(Arrived(s, e), |s.requests|, w, i);
    case Continue(r, w) =>
      ResumeWalks(s, r, w);
      if r != i { WalkOthers(Noted(s, r), r, w, i); }
    case _ =>
  }

  lemma {:induction false} RunDoomed(s: State, es: seq<Event>, i: nat)
    requires Possible(s, es) && i < |s.requests| && Doomed(s.requests[i])
    ensures i < |Run(s, es).requests| && StillDoomed(s.requests[i], Run(s, es).requests[i])
    decreases |es|
  {
    if es != [] {
      StepDoomed(s, es[0], i);
      if Doomed(Apply(s, es[0]).requests[i]) { RunDoomed(Apply(s, es[0]), es[1..], i); }
      else { EndsOnce(Apply(s, es[0]), es[1..], i); }
    }
  }

  // --- the others ---------------------------------------------------------

  ghost predicate Spoilable(s: State, i: nat) {
    exists es :: Possible(s, es) && i < |Run(s, es).requests| && !Right(Run(s, es).requests[i])
  }

  lemma SpoiledNow(s: State, i: nat)
    requires i < |s.requests| && !Right(s.requests[i])
    ensures Spoilable(s, i)
  {
    assert Possible(s, []) && Run(s, []) == s;
  }

  lemma SpoiledLater(s: State, e: Event, i: nat)
    requires Enabled(s, e) && Spoilable(Apply(s, e), i)
    ensures Spoilable(s, i)
  {
    var t := Apply(s, e);
    var es :| Possible(t, es) && i < |Run(t, es).requests| && !Right(Run(t, es).requests[i]);
    assert ([e] + es)[0] == e && ([e] + es)[1..] == es;
    assert Possible(s, [e] + es) && Run(s, [e] + es) == Run(t, es);
  }

  const NOWHERE: World := World(x => false, {}, 0)

  /** A request that goes on with the failure of another one is refused with it. */
  lemma RefusedWrongly(s: State, i: nat)
    requires i < |s.requests| && (s.requests[i].phase.Running? || s.requests[i].phase == Notified(OK))
    requires s.requests[i].id in s.failed && !LastBad(s.requests[i].done, s.failed[s.requests[i].id])
    ensures Spoilable(s, i)
  {
    var e := Continue(i, NOWHERE);
    ResumeWalks(s, i, NOWHERE);
    assert Apply(s, e).requests[i].phase == Refused(s.failed[s.requests[i].id]);
    SpoiledNow(Apply(s, e), i);
    SpoiledLater(s, e, i);
  }

  lemma {:induction false} Fresh(used: set<Name>) returns (dst: Name)
    ensures dst !in used && forall x | x in used :: x < dst
    decreases used
  {
    if used == {} {
      dst := 0;
    } else {
      var x :| x in used;
      var d := Fresh(used - {x});
      dst := if x < d then d else x + 1;
      assert forall y | y in used :: y == x || y in used - {x};
    }
  }

  /** The state after another request with the ID has come and its download has failed. */
  ghost function WithFailure(s: State, id: Name, dst: Name, code: int): State {
    var q := Request(id, 0, [], Running, [Package(dst, true)], [Item(dst, Fetched(Error(code)))]);
    s.(requests := s.requests + [q], failed := s.failed[id := Error(code)])
  }

  /** Nothing has to do with a destination that is not in flight. */
  lemma BringFailure(s: State, id: Name, dst: Name, code: int, i: nat)
    requires Inv(s) && id !in s.failed && dst !in s.deploying && i < |s.requests|
    requires Spoilable(WithFailure(s, id, dst, code), i)
    ensures Spoilable(s, i)
  {
    var n, packages := |s.requests|, [Package(dst, true)];
    assert packages[1..] == [];
    var e := Arrive(id, 0, packages, NOWHERE);
    var a := Apply(s, e);
    var loading := Request(id, 0, [], Downloading(dst), packages, []);
    assert a.requests == s.requests + [loading] && a.deploying == s.deploying + {dst} && a.failed == s.failed;
    var f := DownloadDone(n, Error(code));
    DownloadAlone(s, a, dst, code, id);
    SpoiledLater(a, f, i);
    SpoiledLater(s, e, i);
  }

  lemma DownloadAlone(s: State, a: State, dst: Name, code: int, id: Name)
    requires Inv(s) && dst !in s.deploying
    requires a == s.(requests := s.requests + [Request(id, 0, [], Downloading(dst), [Package(dst, true)], [])],
                     deploying := s.deploying + {dst})
    ensures Apply(a, DownloadDone(|s.requests|, Error(code))) == WithFailure(s, id, dst, code)
  {
    var b := Apply(a, DownloadDone(|s.requests|, Error(code)));
    forall j | 0 <= j < |s.requests| ensures b.requests[j] == s.requests[j] {
      assert FlightOk(s, s.requests[j]);
    }
    var told := Told(a.requests[|s.requests|], dst, Error(code));
    assert told.done == [Item(dst, Fetched(Error(code)))];
    assert b.requests[|s.requests|] == told;
    assert b.requests == s.requests + [told];
    assert b.deploying == s.deploying;
  }

  /** A code that is not the one of the last failed download. */
  function OtherCode(done: seq<Item>): (code: int)
    ensures !LastBad(done, Error(code))
  {
    if done != [] && done[|done| - 1].how == Fetched(Error(0)) then 1 else 0
  }

  lemma IdleSpoilable(s: State, i: nat)
    requires Inv(s) && i < |s.requests| && (s.requests[i].phase.Running? || s.requests[i].phase == Notified(OK))
    requires s.requests[i].id !in s.failed
    ensures Spoilable(s, i)
  {
    var q := s.requests[i];
    var dst := Fresh(s.deploying);
    var code := OtherCode(q.done);
    RefusedWrongly(WithFailure(s, q.id, dst, code), i);
    BringFailure(s, q.id, dst, code, i);
  }

  /** The end of the download that a request waits for, without error. */
  lemma BusySpoilable(s: State, i: nat)
    requires Inv(s) && i < |s.requests| && (s.requests[i].phase.Downloading? || s.requests[i].phase.Waiting?)
    requires s.requests[i].id !in s.failed
    ensures Spoilable(s, i)
  {
    var q := s.requests[i];
    assert FlightOk(s, q);
    var j :| 0 <= j < |s.requests| && s.requests[j].phase == Downloading(q.phase.dst);
    var e := DownloadDone(j, OK);
    StepInv(s, e);
    IdleSpoilable(Apply(s, e), i);
    SpoiledLater(s, e, i);
  }

  /** Another request with the ID takes the failure away. */
  lemma FailedSpoilable(s: State, i: nat)
    requires Inv(s) && i < |s.requests| && s.requests[i].phase.Running? && s.requests[i].id in s.failed
    ensures Spoilable(s, i)
  {
    var e := Arrive(s.requests[i].id, 0, [], NOWHERE);
    StepInv(s, e);
    assert Apply(s, e).requests[i] == s.requests[i] && s.requests[i].id !in Apply(s, e).failed;
    IdleSpoilable(Apply(s, e), i);
    SpoiledLater(s, e, i);
  }

  /** A request whose ID has not been shared so far ends as its packages say, against
      everything that may still happen, if and only if it has ended or has been told of a
      failed download; any other can be spoiled by a request that gets its ID. */
  lemma SharingTheorem(s: State, i: nat)
    requires Reachable(s) && i < |s.requests| && Fated(s, s.requests[i].id)
    ensures AlwaysRight(s, i) <==> Ended(s.requests[i]) || Doomed(s.requests[i])
  {
    ReachableInv(s);
    var q := s.requests[i];
    assert FateOk(s, q);
    if Ended(q) || Doomed(q) {
      forall es | Possible(s, es) ensures i < |Run(s, es).requests| && Right(Run(s, es).requests[i]) {
        if Ended(q) { EndsOnce(s, es, i); } else { RunDoomed(s, es, i); }
      }
    } else if q.phase.Downloading? || q.phase.Waiting? {
      BusySpoilable(s, i);
    } else if q.id in s.failed {
      FailedSpoilable(s, i);
    } else {
      IdleSpoilable(s, i);
    }
  }
}
