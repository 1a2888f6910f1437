/** What the handlers of the agent do with restore pins and with the artifacts behind them,
    from the request to the stop of the runtime. */
module PinOutcomes {
  import opened StatusCodes
  import S = SnapshotStore
  import SP = StoreProofs
  import SO = StoreOutcomes
  import opened RestorePins
  import opened PinProofs

  // --- the last pin -------------------------------------------------------

  /** Nobody but `holder` in table `mine` holds a pin on `id`. */
  ghost predicate Sole(mine: map<Key, Id>, others: map<Key, Id>, holder: Key, id: Id) {
    && holder in mine && mine[holder] == id
    && (forall k | k in mine && k != holder :: mine[k] != id) && (forall k | k in others :: others[k] != id)
  }

  lemma SoleHolds(mine: map<Key, Id>, others: map<Key, Id>, holder: Key, id: Id)
    requires Sole(mine, others, holder, id)
    ensures Holders(mine, id) == 1 && Holders(others, id) == 0
  {
    assert (set k | k in mine && mine[k] == id) == {holder};
    assert (set k | k in others && others[k] == id) == {};
  }

  lemma SharedHolds(mine: map<Key, Id>, others: map<Key, Id>, holder: Key, id: Id)
    requires holder in mine && mine[holder] == id && !Sole(mine, others, holder, id)
    ensures Holders(mine, id) + Holders(others, id) > 1
  {
    HoldersRemove(mine, holder, id);
    if k :| k in mine && k != holder && mine[k] == id {
      HoldersRemove(mine - {holder}, k, id);
    } else {
      var k :| k in others && others[k] == id;
      HoldersRemove(others, k, id);
    }
  }

  /** What the release of a pin on `id` does to the store. With other holders left it keeps
      the artifact, and marks it unless local copies are kept. The last one keeps the
      artifact and its record if local copies are kept, nothing marked it before and the
      store is within its limit; it removes both if local copies are not kept, or if the
      artifact was marked, and the removal succeeds. */
  ghost predicate Released(s: S.Store, t: S.Store, id: Id, sole: bool, keepsLocal: bool, io: S.Disk) {
    && S.PinCount(t, id) == S.PinCount(s, id) - 1 && t.limit == s.limit
    && if !sole then
         && t.records == s.records && t.disk == s.disk && t.lru == s.lru && S.PinCount(t, id) > 0
         && t.evict == if keepsLocal then s.evict else s.evict + {id}
       else if keepsLocal && id !in s.evict then
         SO.Within(s) ==>
           t.records == s.records && t.disk == s.disk && t.lru == s.lru && id in t.records && id in t.disk
       else
         io(0) == S.Removed ==> id !in t.records && id !in t.disk && id !in t.lru
  }

  lemma UnpinReleases(s: S.Store, id: Id, keepsLocal: bool, io: S.Disk)
    requires SP.Inv(s) && S.Pinned(s, id)
    ensures Released(s, S.Unpin(s, id, !keepsLocal, io).0, id, S.PinCount(s, id) == 1, keepsLocal, io)
  {
    SO.UnpinOutcome(s, id, !keepsLocal, io);
    SP.PinTheorem(s, S.DoUnpin(id, !keepsLocal, io), id);
    UnpinLimit(s, id, !keepsLocal, io);
  }

  lemma UnpinLimit(s: S.Store, id: Id, evictAfter: bool, io: S.Disk)
    ensures S.Unpin(s, id, evictAfter, io).0.limit == s.limit
  {
    if S.Pinned(s, id) {
      SP.UnpinCases(s, id, evictAfter, io);
      var u := SP.Dropped(s, id, evictAfter);
      SP.LoopLimit(u, "", |u.lru|, io, 0);
    }
  }

  /** Releasing the pin of a runtime. */
  lemma ReleaseRuntimeTheorem(a: Agent, runtime: Key, io: S.Disk)
    requires Inv(a) && runtime in a.runtimePins
    ensures var b, id := ReleaseRuntime(a, runtime, io), a.runtimePins[runtime];
            && a.store.Some? && b.store.Some?
            && b == a.(store := b.store, runtimePins := a.runtimePins - {runtime})
            && Released(a.store.value, b.store.value, id, Sole(a.runtimePins, a.requestPins, runtime, id),
                        a.keepsLocal, io)
  {
    var id := a.runtimePins[runtime];
    HeldIsPinned(a, runtime);
    if Sole(a.runtimePins, a.requestPins, runtime, id) { SoleHolds(a.runtimePins, a.requestPins, runtime, id); }
    else { SharedHolds(a.runtimePins, a.requestPins, runtime, id); }
    UnpinReleases(a.store.value, id, a.keepsLocal, io);
  }

  lemma RequestIsPinned(a: Agent, req: Key)
    requires Inv(a) && req in a.requestPins
    ensures a.store.Some? && S.Pinned(a.store.value, a.requestPins[req])
  {
    HoldersRemove(a.requestPins, req, a.requestPins[req]);
  }

  /** Releasing the pin of a request. */
  lemma ReleaseRequestTheorem(a: Agent, req: Key, io: S.Disk)
    requires Inv(a) && req in a.requestPins
    ensures var b, id := ReleaseRequest(a, req, io), a.requestPins[req];
            && a.store.Some? && b.store.Some?
            && b == a.(store := b.store, requestPins := a.requestPins - {req})
            && Released(a.store.value, b.store.value, id, Sole(a.requestPins, a.runtimePins, req, id),
                        a.keepsLocal, io)
  {
    var id := a.requestPins[req];
    RequestIsPinned(a, req);
    if Sole(a.requestPins, a.runtimePins, req, id) { SoleHolds(a.requestPins, a.runtimePins, req, id); }
    else { SharedHolds(a.requestPins, a.runtimePins, req, id); }
    UnpinReleases(a.store.value, id, a.keepsLocal, io);
  }

  // --- forwarding ---------------------------------------------------------

  /** The snapshot can be pinned. */
  ghost predicate Restorable(a: Agent, snapshot: Id) {
    a.store.Some? && SO.Leaf(snapshot) && exists n: nat :: SO.Usable(a.store.value, snapshot, n)
  }

  lemma PinsIt(s: S.Store, snapshot: Id)
    requires SP.Inv(s)
    ensures S.Pin(s, snapshot).1 == S.Ok <==> SO.Leaf(snapshot) && exists n: nat :: SO.Usable(s, snapshot, n)
    ensures S.Pin(s, snapshot).1 == S.Ok ==> OneMore(s, S.Pin(s, snapshot).0, snapshot)
  {
    SO.PinOutcome(s, snapshot);
  }

  /** One pin more on `id` and the same directories. */
  ghost predicate OneMore(s: S.Store, t: S.Store, id: Id) {
    t.disk == s.disk && forall x :: S.PinCount(t, x) == S.PinCount(s, x) + if x == id then 1 else 0
  }

  /** What the agent answers to a start request, and what it holds then: nothing while it is
      not registered; a request that holds another snapshot is refused, and so is one whose
      snapshot cannot be pinned, and both are given up; any other is forwarded, with its
      snapshot pinned once, and remembers whether its checkpoint is trusted. */
  lemma ForwardTheorem(a: Agent, req: Key, snapshot: Id, trusted: bool, same: bool)
    requires Inv(a)
    ensures var (b, answer) := ForwardStart(a, req, snapshot, trusted, same);
            if !a.registered then b == a && answer == NotRegistered
            else if snapshot != "" && req in a.requestPins && a.requestPins[req] != snapshot then
              b == a.(deploying := a.deploying - {req}) && answer == PinConflict
            else if snapshot != "" && req !in a.requestPins && !Restorable(a, snapshot) then
              b == a.(deploying := a.deploying - {req}) && answer == PinFailed
            else
              && answer == Forwarded && b.runtimePins == a.runtimePins
              && b.requestPins == (if snapshot != "" then a.requestPins[req := snapshot] else a.requestPins)
              && (b.store != a.store ==> snapshot != "" && req !in a.requestPins)
              && (snapshot != "" && req !in a.requestPins ==>
                    a.store.Some? && b.store.Some? && OneMore(a.store.value, b.store.value, snapshot))
              && b.deploying == if req in a.deploying && same then a.deploying[req := trusted] else a.deploying
  {
    if snapshot == "" {
    } else if req in a.requestPins {
      assert a.requestPins[req] == snapshot ==> a.requestPins[req := snapshot] == a.requestPins;
    } else if a.store.Some? {
      PinsIt(a.store.value, snapshot);
    }
  }

  // --- the answer to a start ----------------------------------------------

  /** The pin of the request goes over to the runtime; if the runtime has its snapshot pinned
      already, the second pin is given up and the artifact stays as it is; a runtime
      without name or with another snapshot leaves the pin where it is. */
  ghost predicate Promoted(a: Agent, b: Agent, req: Key, runtime: Key)
    requires req in a.requestPins
  {
    var id := a.requestPins[req];
    if runtime == "" || (runtime in a.runtimePins && a.runtimePins[runtime] != id) then
      b.requestPins == a.requestPins && b.runtimePins == a.runtimePins && b.store == a.store
    else
      && b.requestPins == a.requestPins - {req} && b.runtimePins == a.runtimePins[runtime := id]
      && a.store.Some? && b.store.Some? && SP.SameDirectory(a.store.value, b.store.value, id)
      && S.PinCount(b.store.value, id) > 0 && (runtime !in a.runtimePins ==> b.store == a.store)
      && b.store.value == a.store.value.(pins := b.store.value.pins)
  }

  lemma PromoteTheorem(a: Agent, req: Key, runtime: Key, io: S.Disk)
    requires Inv(a) && req in a.requestPins
    ensures var b := Promote(a, req, runtime, io);
            Promoted(a, b, req, runtime)
            && b == a.(store := b.store, requestPins := b.requestPins, runtimePins := b.runtimePins)
  {
    var id := a.requestPins[req];
    RequestIsPinned(a, req);
    if runtime != "" && runtime in a.runtimePins && a.runtimePins[runtime] == id {
      HoldersRemove(a.requestPins, req, id);
      HoldersRemove(a.runtimePins, runtime, id);
      SP.PinTheorem(a.store.value, S.DoUnpin(id, false, io), id);
      SO.UnpinOutcome(a.store.value, id, false, io);
      assert a.runtimePins[runtime := id] == a.runtimePins;
    }
  }

  /** The agent still deploys the request and can tell what the answer means. */
  ghost predicate Active(a: Agent, req: Key) {
    req in a.deploying && a.registered && a.completed
  }

  ghost predicate Runs(code: Code) {
    code == SUCCESS || code == INSTANCE_HAS_BEEN_DEPLOYED
  }

  /** What the answer to a start does with the pin of its request: a success hands it to the
      runtime; an answer that leaves the result open keeps it, for a trusted checkpoint or
      for a request that is not deployed any more; any other answer releases it. A request
      that was being deployed is not any more. */
  lemma StartedTheorem(a: Agent, req: Key, code: Code, runtime: Key, io: S.Disk)
    requires Inv(a)
    ensures var b := StartResponse(a, req, code, runtime, io);
            && b.deploying == (if Active(a, req) then a.deploying - {req} else a.deploying)
            && b == a.(store := b.store, requestPins := b.requestPins, runtimePins := b.runtimePins,
                       deploying := b.deploying)
            && if req !in a.requestPins then
                 b.store == a.store && b.requestPins == a.requestPins && b.runtimePins == a.runtimePins
               else if Active(a, req) && Runs(code) then Promoted(a, b, req, runtime)
               else if SaysNothing(code) && (Active(a, req) ==> a.deploying[req]) then
                 b.store == a.store && b.requestPins == a.requestPins && b.runtimePins == a.runtimePins
               else
                 && a.store.Some? && b.store.Some?
                 && b.requestPins == a.requestPins - {req} && b.runtimePins == a.runtimePins
                 && var id := a.requestPins[req];
                    Released(a.store.value, b.store.value, id, Sole(a.requestPins, a.runtimePins, req, id),
                             a.keepsLocal, io)
  {
    StartCases(a, req, code, runtime, io);
    if req in a.requestPins {
      if Active(a, req) && Runs(code) { PromoteTheorem(a, req, runtime, io); }
      else { ReleaseRequestTheorem(a, req, io); }
    }
  }

  lemma StartCases(a: Agent, req: Key, code: Code, runtime: Key, io: S.Disk)
    ensures var b, d := StartResponse(a, req, code, runtime, io),
                        if Active(a, req) then a.deploying - {req} else a.deploying;
            b == (if Active(a, req) && Runs(code) then Promote(a, req, runtime, io)
                  else if SaysNothing(code) && (Active(a, req) ==> a.deploying[req]) then a
                  else ReleaseRequest(a, req, io)).(deploying := d)
  {
  }

  // --- the stop of a runtime ----------------------------------------------

  /** End to end: a restored runtime runs through any run that does not stop it, and is then
      stopped. If nobody else holds its snapshot, the artifact is on disk as it was when
      local copies are kept, nothing has marked it meanwhile and the store is within its
      limit; it is gone, with its record, when local copies are not kept and the removal
      succeeds. */
  lemma StoppedRuntimeTheorem(a: Agent, es: seq<Event>, runtime: Key, code: Code, io: S.Disk)
    requires Inv(a) && Possible(a, es) && runtime in a.runtimePins && SaysGone(code)
    requires Undisturbed(a, es, runtime, a.runtimePins[runtime])
    ensures var b, id := Run(a, es), a.runtimePins[runtime];
            var c := Apply(b, Stopped(b.manager, code, runtime, io));
            && runtime !in c.runtimePins && a.store.Some? && b.store.Some? && c.store.Some?
            && (Sole(b.runtimePins, b.requestPins, runtime, id) ==>
                  if b.keepsLocal && id !in b.store.value.evict then
                    SO.Within(b.store.value) ==>
                      id in c.store.value.records && SP.SameDirectory(a.store.value, c.store.value, id)
                      && id in c.store.value.disk
                  else
                    io(0) == S.Removed ==> id !in c.store.value.records && id !in c.store.value.disk)
  {
    var b := Run(a, es);
    RestoredRuntimeTheorem(a, es, runtime);
    ConservationTheorem(a, es);
    ReleaseRuntimeTheorem(b, runtime, io);
    assert Apply(b, Stopped(b.manager, code, runtime, io)) == ReleaseRuntime(b, runtime, io);
  }

  // --- registration and deployment ----------------------------------------

  ghost function LastManager(es: seq<Event>, before: (string, string)): (string, string) {
    if es == [] then before else LastManager(es[1..], if es[0].Register? then es[0].manager else before)
  }

  ghost predicate LastRegistered(es: seq<Event>, before: bool) {
    if es == [] then before
    else LastRegistered(es[1..], if es[0].Register? then true else if es[0].Lose? then false else before)
  }

  ghost predicate LastCompleted(es: seq<Event>, before: bool) {
    if es == [] then before else LastCompleted(es[1..], if es[0].Complete? then es[0].done else before)
  }

  lemma StepRegistration(a: Agent, e: Event)
    ensures Apply(a, e).manager == if e.Register? then e.manager else a.manager
    ensures Apply(a, e).registered == if e.Register? then true else if e.Lose? then false else a.registered
    ensures Apply(a, e).completed == if e.Complete? then e.done else a.completed
  {
    if e.Started? { StartRegistration(a, e.req, e.code, e.runtime, e.io); }
  }

  lemma StartRegistration(a: Agent, req: Key, code: Code, runtime: Key, io: S.Disk)
    ensures var b := StartResponse(a, req, code, runtime, io);
            b.manager == a.manager && b.registered == a.registered && b.completed == a.completed
  {
  }

  /** Over any run the manager is the one that registered last, and the agent is registered
      and complete as the last such events say. */
  lemma {:induction false} RegistrationTheorem(a: Agent, es: seq<Event>)
    requires Possible(a, es)
    ensures Run(a, es).manager == LastManager(es, a.manager)
    ensures Run(a, es).registered == LastRegistered(es, a.registered)
    ensures Run(a, es).completed == LastCompleted(es, a.completed)
    decreases |es|
  {
    if es != [] {
      StepRegistration(a, es[0]);
      RegistrationTheorem(Apply(a, es[0]), es[1..]);
    }
  }

  ghost predicate About(e: Event, req: Key) {
    (e.Deploy? || e.Drop? || e.Forward? || e.Started?) && e.req == req
  }

  lemma StepDeploying(a: Agent, e: Event, req: Key)
    requires !About(e, req)
    ensures req in Apply(a, e).deploying <==> req in a.deploying
    ensures req in a.deploying ==> Apply(a, e).deploying[req] == a.deploying[req]
  {
    if e.Started? { StartDeploying(a, e.req, e.code, e.runtime, e.io); }
  }

  lemma StartDeploying(a: Agent, req: Key, code: Code, runtime: Key, io: S.Disk)
    ensures var b := StartResponse(a, req, code, runtime, io);
            b.deploying == a.deploying || b.deploying == a.deploying - {req}
  {
  }

  lemma {:induction false} RunDeploying(a: Agent, es: seq<Event>, req: Key)
    requires Possible(a, es) && forall i | 0 <= i < |es| :: !About(es[i], req)
    ensures req in Run(a, es).deploying <==> req in a.deploying
    ensures req in a.deploying ==> Run(a, es).deploying[req] == a.deploying[req]
    decreases |es|
  {
    if es != [] {
      StepDeploying(a, es[0], req);
      RunDeploying(Apply(a, es[0]), es[1..], req);
    }
  }

  /** A request is deployed, without trust in its checkpoint, from the moment it arrives, and
      is not any more once it is dropped, for as long as nothing else happens to it. */
  lemma DeployingTheorem(a: Agent, es: seq<Event>, req: Key)
    requires forall i | 0 <= i < |es| :: !About(es[i], req)
    ensures Possible(Apply(a, Deploy(req)), es) ==>
              var b := Run(Apply(a, Deploy(req)), es); req in b.deploying && !b.deploying[req]
    ensures Possible(Apply(a, Drop(req)), es) ==> req !in Run(Apply(a, Drop(req)), es).deploying
  {
    if Possible(Apply(a, Deploy(req)), es) { RunDeploying(Apply(a, Deploy(req)), es, req); }
    if Possible(Apply(a, Drop(req)), es) { RunDeploying(Apply(a, Drop(req)), es, req); }
  }
}
