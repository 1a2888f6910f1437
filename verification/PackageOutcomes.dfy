/** What a handler makes of the packages of a request, which requests there are, and when
    packages that nobody refers to are removed. */
module PackageOutcomes {
  import opened CodePackages
  import opened PackageProofs
  import opened PackageProgress

  // --- one handler --------------------------------------------------------

  /** The package is there, and nobody is downloading it. */
  ghost predicate AtHand(s: State, w: World, dst: Name) {
    dst !in s.deploying && w.deployed(dst)
  }

  /** `t` has the references of `s`, and those of the instance to the first `n` packages that
      are not delegates. */
  ghost predicate TakenUp(s: State, t: State, q: Request, n: nat)
    requires n <= |q.queue|
  {
    forall dst: Name, i: Name ::
      Refers(t.refers, dst, i) <==>
        Refers(s.refers, dst, i)
        || (i == q.instance && exists k :: 0 <= k < n && q.queue[k].dst == dst && !q.queue[k].delegate)
  }

  ghost function FoundItems(queue: seq<Package>, n: nat): seq<Item>
    requires n <= |queue|
  {
    seq(n, k requires 0 <= k < n => Item(queue[k].dst, Found))
  }

  /** The request has `n` packages at hand, which are dealt with; the next one is awaited if
      somebody downloads it and downloaded otherwise, and without a next one the runtime
      is started. */
  ghost predicate WalkedTo(s: State, t: State, r: nat, w: World, n: nat) {
    && r < |s.requests| && |t.requests| == |s.requests| && n <= |s.requests[r].queue|
    && var q := s.requests[r];
    && (forall k | 0 <= k < n :: AtHand(s, w, q.queue[k].dst)) && t.failed == s.failed
    && if n == |q.queue| then
         && t.requests[r] == q.(queue := [], done := q.done + FoundItems(q.queue, n), phase := Started)
         && t.deploying == s.deploying && TakenUp(s, t, q, n)
       else
         var dst := q.queue[n].dst;
         && !AtHand(s, w, dst) && TakenUp(s, t, q, n + 1)
         && t.requests[r] == q.(queue := q.queue[n + 1..], done := q.done + FoundItems(q.queue, n),
                                phase := if dst in s.deploying then Waiting(dst) else Downloading(dst))
         && t.deploying == s.deploying + {dst}
  }

  lemma ReferredTakes(s: State, r: nat)
    requires r < |s.requests| && s.requests[r].queue != []
    ensures TakenUp(s, Referred(s, r), s.requests[r], 1)
  {
    var q := s.requests[r];
    forall dst: Name, i: Name
      ensures Refers(Referred(s, r).refers, dst, i) <==>
                Refers(s.refers, dst, i) || (i == q.instance && q.queue[0].dst == dst && !q.queue[0].delegate)
    {
    }
  }

  lemma TakenUpMore(s: State, u: State, t: State, q: Request, p: Request, n: nat)
    requires q.queue != [] && p.queue == q.queue[1..] && p.instance == q.instance && n <= |p.queue|
    requires TakenUp(s, u, q, 1) && TakenUp(u, t, p, n)
    ensures TakenUp(s, t, q, n + 1)
  {
    forall dst: Name, i: Name
      ensures Refers(t.refers, dst, i) <==>
                Refers(s.refers, dst, i)
                || (i == q.instance && exists k :: 0 <= k < n + 1 && q.queue[k].dst == dst && !q.queue[k].delegate)
    {
      if k :| 0 <= k < n && p.queue[k].dst == dst && !p.queue[k].delegate { assert q.queue[k + 1] == p.queue[k]; }
      if k :| 0 < k < n + 1 && q.queue[k].dst == dst && !q.queue[k].delegate { assert p.queue[k - 1] == q.queue[k]; }
    }
  }

  lemma WalkStops(s: State, r: nat, w: World)
    requires r < |s.requests| && s.requests[r].id !in s.failed
    requires s.requests[r].queue == [] || !AtHand(s, w, s.requests[r].queue[0].dst)
    ensures WalkedTo(s, Walk(s, r, w), r, w, 0)
  {
    var q, t := s.requests[r], Walk(s, r, w);
    assert q.done + FoundItems(q.queue, 0) == q.done;
    if q.queue != [] {
      ReferredTakes(s, r);
      assert q.queue[0].dst in s.deploying ==> s.deploying + {q.queue[0].dst} == s.deploying;
      assert t.refers == Referred(s, r).refers;
    }
  }

  lemma WalkGoesOn(s: State, r: nat, w: World, t: State, n: nat)
    requires r < |s.requests| && s.requests[r].queue != [] && AtHand(s, w, s.requests[r].queue[0].dst)
    requires WalkedTo(SkipFound(s, r), t, r, w, n)
    ensures WalkedTo(s, t, r, w, n + 1)
  {
    var q, u := s.requests[r], SkipFound(s, r);
    var p := u.requests[r];
    ReferredTakes(s, r);
    assert u.refers == Referred(s, r).refers;
    TakenUpMore(s, u, t, q, p, if n < |p.queue| then n + 1 else n);
    assert p.done + FoundItems(p.queue, n) == q.done + FoundItems(q.queue, n + 1);
    forall k | 0 <= k < n + 1 ensures AtHand(s, w, q.queue[k].dst) {
      if k > 0 { assert p.queue[k - 1] == q.queue[k] && AtHand(u, w, p.queue[k - 1].dst); }
    }
  }

  lemma {:induction false} WalkThrough(s: State, r: nat, w: World) returns (n: nat)
    requires r < |s.requests| && s.requests[r].id !in s.failed
    ensures WalkedTo(s, Walk(s, r, w), r, w, n)
    decreases |s.requests[r].queue|
  {
    var q := s.requests[r];
    if q.queue != [] && AtHand(s, w, q.queue[0].dst) {
      n := WalkThrough(SkipFound(s, r), r, w);
      WalkGoesOn(s, r, w, Walk(s, r, w), n);
      n := n + 1;
    } else {
      n := 0;
      WalkStops(s, r, w);
    }
  }

  /** What one handler does for a request: a recorded failure is sent, is then off the record,
      and takes the references to the packages rebuilt for the request with it, whose age
      counts from now; otherwise the packages at hand are dealt with up to the first that is
      not. */
  lemma WalkTheorem(s: State, r: nat, w: World) returns (n: nat)
    requires r < |s.requests|
    ensures var q, t := s.requests[r], Walk(s, r, w);
            if q.id in s.failed then
              && |t.requests| == |s.requests| && t.requests[r] == q.(phase := Refused(s.failed[q.id]))
              && t.failed == s.failed - {q.id} && t.deploying == s.deploying && t.refers.Keys == s.refers.Keys
              && forall dst | dst in s.refers ::
                   t.refers[dst] == if dst in w.rebuilt && q.instance in s.refers[dst].instances
                                    then Info(s.refers[dst].instances - {q.instance}, w.now) else s.refers[dst]
            else
              WalkedTo(s, t, r, w, n)
  {
    n := 0;
    if s.requests[r].id !in s.failed { n := WalkThrough(s, r, w); }
  }

  // --- which requests there are -------------------------------------------

  ghost function Head(q: Request): (Name, Name, seq<Package>) {
    (q.id, q.instance, q.all)
  }

  ghost predicate SameHeads(s: State, t: State) {
    |s.requests| <= |t.requests| && forall i | 0 <= i < |s.requests| :: Head(t.requests[i]) == Head(s.requests[i])
  }

  lemma WalkHeads(s: State, r: nat, w: World)
    requires r < |s.requests|
    ensures |Walk(s, r, w).requests| == |s.requests| && SameHeads(s, Walk(s, r, w))
  {
    WalkHead(s, r, w);
    forall i | 0 <= i < |s.requests| ensures Head(Walk(s, r, w).requests[i]) == Head(s.requests[i]) {
      if i != r { WalkOthers(s, r, w, i); }
    }
  }

  lemma {:induction false} WalkHead(s: State, r: nat, w: World)
    requires r < |s.requests|
    ensures |Walk(s, r, w).requests| == |s.requests| && Head(Walk(s, r, w).requests[r]) == Head(s.requests[r])
    decreases |s.requests[r].queue|
  {
    var q := s.requests[r];
    if q.id !in s.failed && q.queue != [] && AtHand(s, w, q.queue[0].dst) { WalkHead(SkipFound(s, r), r, w); }
  }

  lemma StepHeads(s: State, e: Event)
    requires Enabled(s, e)
    ensures var t := Apply(s, e);
            && SameHeads(s, t)
            && if e.Arrive? then |t.requests| == |s.requests| + 1
                                 && Head(t.requests[|s.requests|]) == (e.id, e.instance, e.packages)
               else |t.requests| == |s.requests|
  {
    match e
    case Arrive(_, _, _, w) => WalkHeads(Arrived(s, e), |s.requests|, w);
    case Continue(r, w) =>
      ResumeWalks(s, r, w);
      WalkHeads(Noted(s, r), r, w);
    case _ =>
  }

  ghost function Arrivals(es: seq<Event>): seq<(Name, Name, seq<Package>)> {
    if es == [] then []
    else (if es[0].Arrive? then [(es[0].id, es[0].instance, es[0].packages)] else []) + Arrivals(es[1..])
  }

  ghost function Heads(s: State): seq<(Name, Name, seq<Package>)> {
    seq(|s.requests|, i requires 0 <= i < |s.requests| => Head(s.requests[i]))
  }

  lemma HeadOfRun(s: State, es: seq<Event>)
    requires es != [] && Enabled(s, es[0])
    ensures Heads(Apply(s, es[0])) + Arrivals(es[1..]) == Heads(s) + Arrivals(es)
  {
    StepArrivals(s, es[0]);
  }

  lemma StepArrivals(s: State, e: Event)
    requires Enabled(s, e)
    ensures Heads(Apply(s, e)) == Heads(s) + if e.Arrive? then [(e.id, e.instance, e.packages)] else []
  {
    StepHeads(s, e);
    var t := Apply(s, e);
    forall i | 0 <= i < |s.requests| ensures Heads(t)[i] == Heads(s)[i] {}
  }

  lemma {:induction false} RunHeads(s: State, es: seq<Event>)
    requires Possible(s, es)
    ensures Heads(Run(s, es)) == Heads(s) + Arrivals(es)
    decreases |es|
  {
    if es == [] {
      assert Heads(s) + [] == Heads(s);
    } else {
      HeadOfRun(s, es);
      RunHeads(Apply(s, es[0]), es[1..]);
    }
  }

  /** There is one request for each that arrived, in order, and its ID, instance and packages
      never change. */
  lemma RequestsTheorem(es: seq<Event>)
    requires Possible(Init(), es)
    ensures Heads(Run(Init(), es)) == Arrivals(es)
  {
    RunHeads(Init(), es);
  }

  // --- packages nobody refers to ------------------------------------------

  /** How long ago the last reference was dropped, on a 64-bit clock. */
  ghost function Age(now: nat, since: nat): int {
    if now >= since then now - since else now - since + WORD
  }

  /** How long an unreferenced package is kept: what its deployer says, or else the setting of
      the agent; a negative number is one close to 2^64. */
  ghost function Grace(v: Sweep, dst: Name): int {
    var ttl := if v.ttl(dst) < 0 then v.aging else v.ttl(dst);
    if ttl < 0 then ttl + WORD else ttl
  }

  /** The clock and the settings fit their types. */
  ghost predicate InRange(v: Sweep, dst: Name, since: nat) {
    v.now < WORD && since < WORD && v.ttl(dst) < WORD && -WORD <= v.aging < WORD
  }

  lemma ExpiredMeans(v: Sweep, dst: Name, i: Info)
    requires InRange(v, dst, i.lastAccess)
    ensures Expired(v, dst, i) <==> i.instances == {} && Age(v.now, i.lastAccess) >= Grace(v, dst)
  {
    var ttl := if v.ttl(dst) < 0 then v.aging else v.ttl(dst);
    Wrap(v.now - i.lastAccess);
    Wrap(ttl);
  }

  lemma Wrap(x: int)
    requires -WORD <= x < WORD
    ensures x % WORD == if x < 0 then x + WORD else x
  {
  }

  /** The sweep looks at the packages: it is neither out of time nor done with cleaning. */
  ghost predicate Sweeps(s: State) {
    s.remaining != 0 && !(s.cleaning && s.refers == map[])
  }

  /** The tick removes package `dst`, unreferenced since `since`. */
  ghost predicate Removes(s: State, e: Event, dst: Name, since: nat) {
    e.Timer? && Sweeps(s) && Age(e.v.now, since) >= Grace(e.v, dst) && e.v.clears(dst)
  }

  /** A sweep removes exactly the packages that nobody refers to, that are old enough, and
      whose files can be cleared; every other one stays as it is. */
  lemma SweepTheorem(s: State, v: Sweep, dst: Name)
    requires dst in s.refers && InRange(v, dst, s.refers[dst].lastAccess)
    ensures var t := Tick(s, v);
            && (dst in t.refers <==>
                  !(s.refers[dst].instances == {} && Removes(s, Timer(v), dst, s.refers[dst].lastAccess)))
            && (dst in t.refers ==> t.refers[dst] == s.refers[dst])
  {
    ExpiredMeans(v, dst, s.refers[dst]);
  }

  lemma {:induction false} WalkInfo(s: State, r: nat, w: World, dst: Name)
    requires r < |s.requests| && dst in s.refers
    ensures var t := Walk(s, r, w);
            && dst in t.refers
            && (s.refers[dst].instances == {} && t.refers[dst].instances == {} ==> t.refers[dst] == s.refers[dst])
            && (s.requests[r].id !in s.failed ==> s.refers[dst].instances <= t.refers[dst].instances)
            && (s.requests[r].id !in s.failed ==> t.refers[dst].lastAccess == s.refers[dst].lastAccess)
    decreases |s.requests[r].queue|
  {
    var q := s.requests[r];
    if q.id !in s.failed && q.queue != [] && AtHand(s, w, q.queue[0].dst) { WalkInfo(SkipFound(s, r), r, w, dst); }
  }

  /** Nobody refers to the package. */
  ghost predicate Alone(s: State, dst: Name) {
    dst in s.refers ==> s.refers[dst].instances == {}
  }

  /** What an event makes of a package that nobody refers to before and after it. */
  lemma StepAlone(s: State, e: Event, dst: Name)
    requires Enabled(s, e) && dst in s.refers && Alone(s, dst) && Alone(Apply(s, e), dst)
    requires e.Timer? ==> InRange(e.v, dst, s.refers[dst].lastAccess)
    ensures var t := Apply(s, e);
            if Removes(s, e, dst, s.refers[dst].lastAccess) then dst !in t.refers
            else dst in t.refers && t.refers[dst] == s.refers[dst]
  {
    match e
    case Arrive(_, _, _, w) => WalkInfo(Arrived(s, e), |s.requests|, w, dst);
    case Continue(r, w) =>
      ResumeWalks(s, r, w);
      WalkInfo(Noted(s, r), r, w, dst);
    case Timer(v) => SweepTheorem(s, v, dst);
    case _ =>
  }

  /** A package that is gone and that nobody takes up stays gone. */
  lemma StepGone(s: State, e: Event, dst: Name)
    requires Enabled(s, e) && dst !in s.refers && Alone(Apply(s, e), dst)
    ensures dst !in Apply(s, e).refers
  {
    match e
    case Arrive(_, _, _, w) => WalkNew(Arrived(s, e), |s.requests|, w, dst);
    case Continue(r, w) =>
      ResumeWalks(s, r, w);
      WalkNew(Noted(s, r), r, w, dst);
    case _ =>
  }

  lemma {:induction false} WalkNew(s: State, r: nat, w: World, dst: Name)
    requires r < |s.requests| && dst !in s.refers
    ensures dst in Walk(s, r, w).refers ==> Walk(s, r, w).refers[dst].instances != {}
    decreases |s.requests[r].queue|
  {
    var q := s.requests[r];
    if q.id !in s.failed && q.queue != [] && AtHand(s, w, q.queue[0].dst) {
      var u := SkipFound(s, r);
      if dst in u.refers { WalkInfo(u, r, w, dst); } else { WalkNew(u, r, w, dst); }
    }
  }

  /** Nobody takes the package up in the whole run, and the clock stays in range. */
  ghost predicate NobodyTakes(s: State, es: seq<Event>, dst: Name, since: nat)
    requires Possible(s, es)
    decreases |es|
  {
    Alone(s, dst) && (es == [] || ((es[0].Timer? ==> InRange(es[0].v, dst, since))
                                   && NobodyTakes(Apply(s, es[0]), es[1..], dst, since)))
  }

  /** The run has a sweep that removes the package. */
  ghost predicate Swept(s: State, es: seq<Event>, dst: Name, since: nat)
    requires Possible(s, es)
    decreases |es|
  {
    es != [] && (Removes(s, es[0], dst, since) || Swept(Apply(s, es[0]), es[1..], dst, since))
  }

  lemma {:induction false} StaysRemoved(s: State, es: seq<Event>, dst: Name, since: nat)
    requires Possible(s, es) && NobodyTakes(s, es, dst, since) && dst !in s.refers
    ensures dst !in Run(s, es).refers
    decreases |es|
  {
    if es != [] {
      assert Alone(Apply(s, es[0]), dst);
      StepGone(s, es[0], dst);
      StaysRemoved(Apply(s, es[0]), es[1..], dst, since);
    }
  }

  lemma {:induction false} AloneRun(s: State, es: seq<Event>, dst: Name, since: nat)
    requires Possible(s, es) && NobodyTakes(s, es, dst, since) && dst in s.refers && s.refers[dst] == Info({}, since)
    ensures if Swept(s, es, dst, since) then dst !in Run(s, es).refers
            else dst in Run(s, es).refers && Run(s, es).refers[dst] == Info({}, since)
    decreases |es|
  {
    if es != [] {
      var t := Apply(s, es[0]);
      assert Alone(t, dst);
      StepAlone(s, es[0], dst);
      if Removes(s, es[0], dst, since) { StaysRemoved(t, es[1..], dst, since); }
      else { AloneRun(t, es[1..], dst, since); }
    }
  }

  /** The last reference to a package is dropped at `now`, and nobody takes it up again. Over
      any run it is removed exactly if one of the sweeps comes when it has been without
      reference for its grace time, and can clear its files. */
  lemma AgingTheorem(s: State, dst: Name, instance: Name, now: nat, es: seq<Event>)
    requires dst in s.refers && s.refers[dst].instances == {instance}
    requires Possible(Apply(s, Release(dst, instance, now)), es)
    requires NobodyTakes(Apply(s, Release(dst, instance, now)), es, dst, now)
    ensures var t := Apply(s, Release(dst, instance, now));
            dst in Run(t, es).refers <==> !Swept(t, es, dst, now)
  {
    AloneRun(Apply(s, Release(dst, instance, now)), es, dst, now);
  }
}
