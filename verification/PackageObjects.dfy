/** The agent's tables of code packages, changed in place by its handlers. */
module PackageObjects {
  import opened Basics
  import C = CodePackages
  import PackageProofs
  import PackageFates
  import PackageProgress
  import PackageRefers
  import PackageOutcomes

  class PackageAgent {
    var requests: seq<C.Request>
    var deploying: set<C.Name>
    var failed: map<C.Name, C.Result>
    var refers: map<C.Name, C.Info>
    var remaining: int
    var cleaning: bool
    var ticking: bool
    var result: Option<C.Code>
    ghost var dropped: set<(C.Name, C.Name)>

    ghost function View(): C.State
      reads this
    {
      C.State(requests, deploying, failed, refers, dropped, remaining, cleaning, ticking, result)
    }

    /** The invariants of every reachable state: single flight, the progress of each request,
        and its references. */
    ghost predicate Valid()
      reads this
    {
      PackageProofs.Inv(View()) && PackageRefers.AllHeld(View())
    }

    constructor ()
      ensures Valid() && View() == C.Init()
    {
      requests, deploying, failed, refers, dropped := [], {}, map[], map[], {};
      remaining, cleaning, ticking, result := -1, false, true, None;
    }

    method AddCodeRefer(dst: C.Name, instance: C.Name)
      modifies this`refers
      ensures refers == C.AddRefer(old(refers), dst, instance) && C.Refers(refers, dst, instance)
      ensures refers == old(refers)[dst := refers[dst]]
      ensures refers[dst] == if dst in old(refers) then C.Info(old(refers)[dst].instances + {instance},
                                                               old(refers)[dst].lastAccess)
                             else C.Info({instance}, 0)
    {
      if dst !in refers {
        refers := refers[dst := C.Info({instance}, 0)];
      } else {
        refers := refers[dst := refers[dst].(instances := refers[dst].instances + {instance})];
      }
    }

    /** A running instance that a runtime manager reports: afterwards it refers to all its
        destinations, and every other reference is as before. */
    method AddCodeReferByRuntimeInstanceInfo(instance: C.Name, dsts: set<C.Name>)
      requires Valid()
      modifies this`refers, this`dropped
      ensures Valid() && View() == C.Apply(old(View()), C.Adopt(instance, dsts))
      ensures forall dst: C.Name, i: C.Name ::
                C.Refers(refers, dst, i) <==> C.Refers(old(refers), dst, i) || (i == instance && dst in dsts)
    {
      ghost var s := View();
      AddAll(instance, dsts);
      dropped := dropped - set dst | dst in dsts :: (dst, instance);
      PackageProofs.StepInv(s, C.Adopt(instance, dsts));
      PackageRefers.StepHeld(s, C.Adopt(instance, dsts));
    }

    method AddAll(instance: C.Name, dsts: set<C.Name>)
      modifies this`refers
      ensures refers == C.AddRefers(old(refers), dsts, instance)
    {
      var todo := dsts;
      while todo != {}
        invariant todo <= dsts && refers == C.AddRefers(old(refers), dsts - todo, instance)
        decreases todo
      {
        var dst :| dst in todo;
        AddCodeRefer(dst, instance);
        todo := todo - {dst};
      }
      assert dsts - todo == dsts;
    }

    /** Dropping a reference is what the age of a package counts from. */
    method DeleteFunction(dst: C.Name, instance: C.Name, now: nat)
      modifies this`refers
      ensures refers == C.DeleteRefer(old(refers), dst, instance, now) && !C.Refers(refers, dst, instance)
      ensures refers == if dst in old(refers) && instance in old(refers)[dst].instances
                        then old(refers)[dst := C.Info(old(refers)[dst].instances - {instance}, now)] else old(refers)
    {
      if dst !in refers { return; }
      if instance in refers[dst].instances {
        refers := refers[dst := C.Info(refers[dst].instances - {instance}, now)];
      }
    }

    method DeleteCodeRefers(dsts: set<C.Name>, instance: C.Name, now: nat)
      modifies this`refers
      ensures refers == C.DeleteRefers(old(refers), dsts, instance, now)
    {
      var todo := dsts;
      while todo != {}
        invariant todo <= dsts
        invariant refers == C.DeleteRefers(old(refers), dsts - todo, instance, now)
        decreases todo
      {
        var dst :| dst in todo;
        DeleteFunction(dst, instance, now);
        todo := todo - {dst};
      }
    }

    /** Answers a request with a recorded failure: with that error, which is then off the
        record, and without any reference left to the packages rebuilt for it. */
    method IsDownloadFailed(r: nat, w: C.World) returns (refused: bool)
      requires r < |requests| && requests[r].phase.Running?
      modifies this`requests, this`failed, this`refers, this`dropped
      ensures refused == (old(requests)[r].id in old(failed))
      ensures View() == if refused then C.Refuse(old(View()), r, w) else old(View())
      ensures |requests| == |old(requests)| && requests[r].id !in failed
      ensures refused ==> forall dst | dst in w.rebuilt :: !C.Refers(refers, dst, requests[r].instance)
    {
      var q := requests[r];
      if q.id !in failed { return false; }
      requests := requests[r := q.(phase := C.Refused(failed[q.id]))];
      DeleteCodeRefers(w.rebuilt, q.instance, w.now);
      dropped := dropped + set dst | dst in w.rebuilt :: (dst, q.instance);
      failed := failed - {q.id};
      return true;
    }

    /** The handler of a request, which goes on by itself while packages are deployed. It
        ends with the request refused, started with all its packages dealt with, or waiting
        for a destination in flight, and spoils the fate of no request. */
    method DownloadCodeAndStartRuntime(r: nat, w: C.World)
      requires Valid() && r < |requests| && requests[r].phase.Running?
      modifies this`requests, this`failed, this`refers, this`dropped, this`deploying
      ensures Valid() && View() == C.Walk(old(View()), r, w) && |requests| == |old(requests)|
      ensures Settled(requests[r])
      ensures forall id | PackageFates.Fated(old(View()), id) :: PackageFates.Fated(View(), id)
      decreases |requests[r].queue|
    {
      WalkValid(View(), r, w);
      var refused := IsDownloadFailed(r, w);
      if refused { return; }
      if requests[r].queue == [] {
        requests := requests[r := requests[r].(phase := C.Started)];
        assert PackageProofs.RequestOk(requests[r]);
        return;
      }
      var found := TakePackage(r, w);
      if found {
        DownloadCodeAndStartRuntime(r, w);
      }
    }

    static lemma WalkValid(s: C.State, r: nat, w: C.World)
      requires PackageProofs.Inv(s) && PackageRefers.AllHeld(s) && r < |s.requests| && s.requests[r].phase.Running?
      ensures var t := C.Walk(s, r, w);
              && PackageProofs.Inv(t) && PackageRefers.AllHeld(t) && |t.requests| == |s.requests|
              && forall id | PackageFates.Fated(s, id) :: PackageFates.Fated(t, id)
    {
      PackageProofs.WalkInv(s, r, w);
      PackageRefers.WalkHeld(s, r, w);
      PackageProgress.WalkWeight(s, r, w);
      forall id | PackageFates.Fated(s, id) ensures PackageFates.Fated(C.Walk(s, r, w), id) {
        PackageFates.WalkFated(s, r, w, id);
      }
    }

    /** What a handler leaves behind. */
    ghost predicate Settled(q: C.Request)
      reads this
    {
      match q.phase
      case Started => |q.done| == |q.all|
      case Refused(_) => true
      case Downloading(dst) => dst in deploying
      case Waiting(dst) => dst in deploying
      case _ => false
    }

    /** Takes the next package; the reference comes before anything else. */
    method TakePackage(r: nat, w: C.World) returns (found: bool)
      requires Valid() && r < |requests| && requests[r].phase.Running?
      requires requests[r].id !in failed && requests[r].queue != []
      modifies this`requests, this`refers, this`dropped, this`deploying
      ensures found == (old(requests)[r].queue[0].dst !in old(deploying) && w.deployed(old(requests)[r].queue[0].dst))
      ensures View() == if found then C.SkipFound(old(View()), r) else C.Walk(old(View()), r, w)
      ensures |requests| == |old(requests)|
      ensures found ==> Valid() && requests[r].phase.Running? && |requests[r].queue| < |old(requests)[r].queue|
      ensures !found ==> Settled(requests[r])
    {
      var q := requests[r];
      var package := q.queue[0];
      if !package.delegate {
        AddCodeRefer(package.dst, q.instance);
        dropped := dropped - {(package.dst, q.instance)};
      }
      q := q.(queue := q.queue[1..]);
      if package.dst in deploying {
        requests := requests[r := q.(phase := C.Waiting(package.dst))];
        return false;
      }
      if w.deployed(package.dst) {
        requests := requests[r := q.(done := q.done + [C.Item(package.dst, C.Found)])];
        FoundValid(old(View()), r);
        return true;
      }
      deploying := deploying + {package.dst};
      requests := requests[r := q.(phase := C.Downloading(package.dst))];
      return false;
    }

    static lemma FoundValid(s: C.State, r: nat)
      requires PackageProofs.HasNext(s, r) && PackageRefers.AllHeld(s)
      ensures PackageProofs.Inv(C.SkipFound(s, r)) && PackageRefers.AllHeld(C.SkipFound(s, r))
      ensures C.SkipFound(s, r).requests[r].phase.Running?
    {
      var t := C.SkipFound(s, r);
      PackageProofs.FoundInv(s, r);
      PackageRefers.FoundKept(s, r);
      forall i | 0 <= i < |t.requests| && !t.requests[i].phase.Refused? ensures PackageRefers.Held(t, t.requests[i]) {
        if i != r { PackageRefers.KeptHeld(s, t, s.requests[i]); }
      }
    }

    /** A deployment request arrives. It spoils the fate of requests only if its ID is that of
        one under way. */
    method DeployInstance(id: C.Name, instance: C.Name, packages: seq<C.Package>, w: C.World)
      requires Valid()
      modifies this`requests, this`failed, this`refers, this`dropped, this`deploying
      ensures Valid() && View() == C.Apply(old(View()), C.Arrive(id, instance, packages, w))
      ensures |requests| == |old(requests)| + 1 && Settled(requests[|old(requests)|])
      ensures forall x | PackageFates.Fated(old(View()), x) && (x == id ==> !PackageFates.Live(old(View()), x)) ::
                PackageFates.Fated(View(), x)
    {
      ArrivedFated(View(), C.Request(id, instance, packages, C.Running, packages, []));
      PackageProofs.AddedInv(View(), id, instance, packages);
      ArrivedHeld(View(), C.Arrive(id, instance, packages, w));
      requests := requests + [C.Request(id, instance, packages, C.Running, packages, [])];
      DownloadCodeAndStartRuntime(|requests| - 1, w);
    }

    static lemma ArrivedFated(s: C.State, q: C.Request)
      requires q.phase.Running? && q.done == []
      ensures forall x | PackageFates.Fated(s, x) && (x == q.id ==> !PackageFates.Live(s, x)) ::
                PackageFates.Fated(s.(requests := s.requests + [q]), x)
    {
      forall x | PackageFates.Fated(s, x) && (x == q.id ==> !PackageFates.Live(s, x))
        ensures PackageFates.Fated(s.(requests := s.requests + [q]), x)
      {
        PackageFates.AddedFated(s, q, x);
      }
    }

    static lemma ArrivedHeld(s: C.State, e: C.Event)
      requires PackageRefers.AllHeld(s) && e.Arrive?
      ensures PackageRefers.AllHeld(PackageProgress.Arrived(s, e))
    {
      var t := PackageProgress.Arrived(s, e);
      forall i | 0 <= i < |t.requests| && !t.requests[i].phase.Refused? ensures PackageRefers.Held(t, t.requests[i]) {
        if i < |s.requests| { PackageRefers.KeptHeld(s, t, s.requests[i]); }
      }
    }

    /** A waiting request learns how the download of another one ended. */
    method GetDownloadCodeResult(r: nat, w: C.World)
      requires Valid() && r < |requests| && requests[r].phase.Notified?
      modifies this`requests, this`failed, this`refers, this`dropped, this`deploying
      ensures Valid() && View() == C.Resume(old(View()), r, w) && |requests| == |old(requests)|
      ensures Settled(requests[r])
      ensures forall id | PackageFates.Fated(old(View()), id) :: PackageFates.Fated(View(), id)
    {
      var q := requests[r];
      ghost var s := View();
      requests := requests[r := q.(phase := C.Running)];
      if q.phase.r.Error? {
        failed := failed[q.id := q.phase.r];
      }
      assert View() == PackageProofs.Noted(s, r);
      NotedValid(s, r);
      DownloadCodeAndStartRuntime(r, w);
    }

    static lemma NotedValid(s: C.State, r: nat)
      requires PackageProofs.Inv(s) && PackageRefers.AllHeld(s) && r < |s.requests| && s.requests[r].phase.Notified?
      ensures var t := PackageProofs.Noted(s, r);
              && PackageProofs.Inv(t) && PackageRefers.AllHeld(t)
              && forall id | PackageFates.Fated(s, id) :: PackageFates.Fated(t, id)
    {
      var t := PackageProofs.Noted(s, r);
      PackageProofs.NotedInv(s, r);
      forall i | 0 <= i < |t.requests| && !t.requests[i].phase.Refused? ensures PackageRefers.Held(t, t.requests[i]) {
        assert PackageRefers.Held(s, s.requests[i]);
      }
      forall id | PackageFates.Fated(s, id) ensures PackageFates.Fated(t, id) { PackageFates.NotedFated(s, r, id); }
    }

    /** The end of a download: the downloader goes on, everybody who waits is told the same
        result, and nobody is left waiting. */
    method UpdateDeployedObjectByDestination(r: nat, outcome: C.Result)
      requires Valid() && r < |requests| && requests[r].phase.Downloading?
      modifies this`requests, this`failed, this`deploying
      ensures Valid() && View() == C.Downloaded(old(View()), r, outcome)
      ensures |requests| == |old(requests)| && requests[r].phase.Running?
      ensures forall i | 0 <= i < |requests| && old(requests)[i].phase == C.Waiting(old(requests)[r].phase.dst) ::
                requests[i].phase == C.Notified(outcome)
      ensures forall id | PackageFates.Fated(old(View()), id) :: PackageFates.Fated(View(), id)
    {
      ghost var s := View();
      Land(r, outcome);
      DownloadedValid(s, r, outcome);
    }

    method Land(r: nat, outcome: C.Result)
      requires r < |requests| && requests[r].phase.Downloading?
      modifies this`requests, this`failed, this`deploying
      ensures View() == C.Downloaded(old(View()), r, outcome)
    {
      var id, dst := requests[r].id, requests[r].phase.dst;
      Notify(dst, outcome);
      if outcome.Error? {
        failed := failed[id := outcome];
      }
      deploying := deploying - {dst};
    }

    static lemma DownloadedValid(s: C.State, r: nat, outcome: C.Result)
      requires PackageProofs.Inv(s) && PackageRefers.AllHeld(s) && r < |s.requests| && s.requests[r].phase.Downloading?
      ensures var t := C.Downloaded(s, r, outcome);
              && PackageProofs.Inv(t) && PackageRefers.AllHeld(t) && |t.requests| == |s.requests|
              && t.requests[r].phase.Running?
              && (forall i | 0 <= i < |s.requests| && s.requests[i].phase == C.Waiting(s.requests[r].phase.dst) ::
                    t.requests[i].phase == C.Notified(outcome))
              && forall id | PackageFates.Fated(s, id) :: PackageFates.Fated(t, id)
    {
      forall id | PackageFates.Fated(s, id) ensures PackageFates.Fated(C.Downloaded(s, r, outcome), id) {
        PackageFates.DownloadedFated(s, r, outcome, id);
      }
      PackageProofs.DownloadedInv(s, r, outcome);
      PackageRefers.StepHeld(s, C.DownloadDone(r, outcome));
    }

    /** Tells the requests that have to do with a download how it ended. */
    method Notify(dst: C.Name, outcome: C.Result)
      modifies this`requests
      ensures requests == seq(|old(requests)|,
              i requires 0 <= i < |old(requests)| => C.Told(old(requests)[i], dst, outcome))
    {
      var i := 0;
      while i < |requests|
        invariant i <= |requests| == |old(requests)|
        invariant forall j | 0 <= j < i :: requests[j] == C.Told(old(requests)[j], dst, outcome)
        invariant forall j | i <= j < |requests| :: requests[j] == old(requests)[j]
      {
        var q := requests[i];
        if q.phase == C.Downloading(dst) {
          requests := requests[i := q.(phase := C.Running, done := q.done + [C.Item(dst, C.Fetched(outcome))])];
        } else if q.phase == C.Waiting(dst) {
          requests := requests[i := q.(phase := C.Notified(outcome),
              done := q.done + [C.Item(dst, C.Fetched(outcome))])];
        }
        i := i + 1;
      }
    }

    /** The periodic sweep; entries are erased while the table is gone through. Whatever an
        instance refers to is kept as it is, and of the rest whatever is too young or cannot
        be cleared. */
    method RemoveCodePackageAsync(v: C.Sweep)
      requires Valid()
      modifies this`refers, this`remaining, this`ticking, this`result
      ensures Valid() && View() == C.Tick(old(View()), v)
      ensures forall dst | dst in old(refers) && old(refers)[dst].instances != {} ::
                dst in refers && refers[dst] == old(refers)[dst]
      ensures forall dst | dst in old(refers) && PackageOutcomes.InRange(v, dst, old(refers)[dst].lastAccess) ::
                dst in refers <==>
                  !(old(refers)[dst].instances == {}
                    && PackageOutcomes.Removes(old(View()), C.Timer(v), dst, old(refers)[dst].lastAccess))
    {
      ghost var s := View();
      Tick(v);
      TickValid(s, v);
      TickRemoves(s, v);
    }

    static lemma TickRemoves(s: C.State, v: C.Sweep)
      ensures forall dst | dst in s.refers && PackageOutcomes.InRange(v, dst, s.refers[dst].lastAccess) ::
                dst in C.Tick(s, v).refers <==>
                  !(s.refers[dst].instances == {}
                    && PackageOutcomes.Removes(s, C.Timer(v), dst, s.refers[dst].lastAccess))
    {
      forall dst | dst in s.refers && PackageOutcomes.InRange(v, dst, s.refers[dst].lastAccess)
        ensures dst in C.Tick(s, v).refers <==>
                  !(s.refers[dst].instances == {}
                    && PackageOutcomes.Removes(s, C.Timer(v), dst, s.refers[dst].lastAccess))
      {
        PackageOutcomes.SweepTheorem(s, v, dst);
      }
    }

    method Tick(v: C.Sweep)
      modifies this`refers, this`remaining, this`ticking, this`result
      ensures View() == C.Tick(old(View()), v)
    {
      if remaining == 0 {
        ticking, result := false, Some(C.CLEAN_CODE_PACKAGE_TIME_OUT);
        return;
      }
      if cleaning && refers == map[] {
        ticking, result := false, Some(C.SUCCESS);
        return;
      }
      Collect(v);
      if remaining >= 0 {
        remaining := remaining - 1;
      }
    }

    static lemma TickValid(s: C.State, v: C.Sweep)
      requires PackageProofs.Inv(s) && PackageRefers.AllHeld(s)
      ensures var t := C.Tick(s, v);
              && PackageProofs.Inv(t) && PackageRefers.AllHeld(t)
              && forall dst | dst in s.refers && s.refers[dst].instances != {} ::
                   dst in t.refers && t.refers[dst] == s.refers[dst]
    {
      PackageProofs.RefersOnly(s, C.Tick(s, v));
      PackageRefers.TableHeld(s, C.Tick(s, v));
    }

    method Collect(v: C.Sweep)
      modifies this`refers
      ensures refers == old(refers) - C.Cleared(old(refers), v)
    {
      var todo := refers.Keys;
      while todo != {}
        invariant todo <= refers.Keys
        invariant refers == old(refers) - (C.Cleared(old(refers), v) - todo)
        decreases todo
      {
        var dst :| dst in todo;
        var ttl := v.ttl(dst);
        if ttl < 0 {
          ttl := v.aging;
        }
        if refers[dst].instances == {} && (v.now - refers[dst].lastAccess) % C.WORD >= ttl % C.WORD {
          if v.clears(dst) {
            refers := refers - {dst};
          }
        }
        todo := todo - {dst};
      }
      assert C.Cleared(old(refers), v) - todo == C.Cleared(old(refers), v);
    }

    /** Nobody refers to anything any more, and the countdown is armed. */
    method CleanStatus()
      requires Valid()
      modifies this`refers, this`dropped, this`remaining, this`cleaning
      ensures Valid() && View() == C.CleanStatus(old(View()))
      ensures refers.Keys == old(refers).Keys
      ensures forall dst | dst in refers :: refers[dst] == C.Info({}, old(refers)[dst].lastAccess)
    {
      PackageRefers.CleanKept(View());
      PackageProofs.RefersOnly(View(), C.CleanStatus(View()));
      PackageRefers.TableHeld(View(), C.CleanStatus(View()));
      cleaning, remaining := true, C.RETRY_TIMES;
      dropped := C.CleanStatus(View()).dropped;
      var todo := refers.Keys;
      while todo != {}
        invariant todo <= refers.Keys == old(refers).Keys
        invariant forall dst | dst in refers ::
                    refers[dst] == if dst in todo then old(refers)[dst] else old(refers)[dst].(instances := {})
        invariant cleaning && remaining == C.RETRY_TIMES && dropped == C.CleanStatus(old(View())).dropped
        decreases todo
      {
        var dst :| dst in todo;
        refers := refers[dst := refers[dst].(instances := {})];
        todo := todo - {dst};
      }
      assert refers == C.CleanStatus(old(View())).refers;
    }
  }
}
