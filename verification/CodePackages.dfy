/** Downloading code packages once for many requests, and collecting packages that nobody
    refers to. One event is one handler of the agent actor. */
module CodePackages {
  import opened Basics

  type Name = nat

  /** `delegate` marks a working directory, for which no reference is kept. */
  datatype Package = Package(dst: Name, delegate: bool)

  datatype Result = OK | Error(code: int)

  /** How a request got a package: it was there, or a download brought this result. */
  datatype How = Found | Fetched(r: Result)

  datatype Item = Item(dst: Name, how: How)

  datatype Phase =
    | Running                       // a handler of the request is running or queued
    | Downloading(dst: Name)        // it started the download of dst
    | Waiting(dst: Name)            // another request downloads dst
    | Notified(r: Result)           // told how that download ended
    | Started                       // the runtime is being started
    | Refused(r: Result)            // a failure has been sent

  /** `all` and `done` are history: every package asked for, and those dealt with. */
  datatype Request = Request(
    id: Name, instance: Name, queue: seq<Package>, phase: Phase, all: seq<Package>, done: seq<Item>)

  datatype Info = Info(instances: set<Name>, lastAccess: nat)

  datatype Code = SUCCESS | CLEAN_CODE_PACKAGE_TIME_OUT

  /** `deploying` holds the destinations in flight, `failed` the results of requests that
      are about to be refused, `refers` the references of instances to packages. `dropped`
      is history: the references that were dropped and not added again since. */
  datatype State = State(
    requests: seq<Request>, deploying: set<Name>, failed: map<Name, Result>,
    refers: map<Name, Info>, dropped: set<(Name, Name)>,
    remaining: int, cleaning: bool, ticking: bool, result: Option<Code>)

  const RETRY_TIMES := 3

  function Init(): State {
    State([], {}, map[], map[], {}, -1, false, true, None)
  }

  // --- references ---------------------------------------------------------

  function AddRefer(m: map<Name, Info>, dst: Name, instance: Name): map<Name, Info> {
    if dst !in m then m[dst := Info({instance}, 0)]
    else m[dst := m[dst].(instances := m[dst].instances + {instance})]
  }

  predicate Refers(m: map<Name, Info>, dst: Name, instance: Name) {
    dst in m && instance in m[dst].instances
  }

  function DeleteRefer(m: map<Name, Info>, dst: Name, instance: Name, now: nat): map<Name, Info> {
    if !Refers(m, dst, instance) then m
    else m[dst := Info(m[dst].instances - {instance}, now)]
  }

  /** Drops the references of an instance to the destinations rebuilt for it. */
  function DeleteRefers(m: map<Name, Info>, dsts: set<Name>, instance: Name, now: nat): map<Name, Info> {
    map dst | dst in m :: if dst in dsts && instance in m[dst].instances
                          then Info(m[dst].instances - {instance}, now) else m[dst]
  }

  /** Adds the references of an instance to all its destinations. */
  function AddRefers(m: map<Name, Info>, dsts: set<Name>, instance: Name): map<Name, Info> {
    map dst | dst in m.Keys + dsts ::
      if dst !in dsts then m[dst]
      else if dst in m then m[dst].(instances := m[dst].instances + {instance}) else Info({instance}, 0)
  }

  // --- downloads ----------------------------------------------------------

  function Put(s: State, r: nat, q: Request): State
    requires r < |s.requests|
  {
    s.(requests := s.requests[r := q])
  }

  /** What a handler cannot know: which packages are deployed, which destinations are
      rebuilt for a failed request, and the time. */
  datatype World = World(deployed: Name -> bool, rebuilt: set<Name>, now: nat)

  /** The reference to the next package is added before anything else. */
  function Referred(s: State, r: nat): State
    requires r < |s.requests| && s.requests[r].queue != []
  {
    var p, instance := s.requests[r].queue[0], s.requests[r].instance;
    if p.delegate then s
    else s.(refers := AddRefer(s.refers, p.dst, instance), dropped := s.dropped - {(p.dst, instance)})
  }

  function SkipFound(s: State, r: nat): State
    requires r < |s.requests| && s.requests[r].queue != []
  {
    var q := s.requests[r];
    Put(Referred(s, r), r, q.(queue := q.queue[1..], done := q.done + [Item(q.queue[0].dst, Found)]))
  }

  function Refuse(s: State, r: nat, w: World): State
    requires r < |s.requests| && s.requests[r].id in s.failed
  {
    var q := s.requests[r];
    Put(s, r, q.(phase := Refused(s.failed[q.id])))
      .(failed := s.failed - {q.id}, refers := DeleteRefers(s.refers, w.rebuilt, q.instance, w.now),
        dropped := s.dropped + set dst | dst in w.rebuilt :: (dst, q.instance))
  }

  /** The handler: refuse a failed request, start a complete one, or deal with its next
      packages until one has to be waited for. */
  function Walk(s: State, r: nat, w: World): State
    requires r < |s.requests|
    decreases |s.requests[r].queue|
  {
    var q := s.requests[r];
    if q.id in s.failed then Refuse(s, r, w)
    else if q.queue == [] then Put(s, r, q.(phase := Started))
    else
      var dst := q.queue[0].dst;
      if dst in s.deploying then Put(Referred(s, r), r, q.(queue := q.queue[1..], phase := Waiting(dst)))
      else if w.deployed(dst) then Walk(SkipFound(s, r), r, w)
      else
        Put(Referred(s, r), r, q.(queue := q.queue[1..], phase := Downloading(dst))).(deploying := s.deploying + {dst})
  }

  /** Everybody who waits for `dst` is told; the downloader goes on by itself. */
  function Told(q: Request, dst: Name, result: Result): Request {
    if q.phase == Downloading(dst) then q.(phase := Running, done := q.done + [Item(dst, Fetched(result))])
    else if q.phase == Waiting(dst) then q.(phase := Notified(result), done := q.done + [Item(dst, Fetched(result))])
    else q
  }

  function Downloaded(s: State, r: nat, result: Result): State
    requires r < |s.requests| && s.requests[r].phase.Downloading?
  {
    var dst := s.requests[r].phase.dst;
    s.(requests := seq(|s.requests|, i requires 0 <= i < |s.requests| => Told(s.requests[i], dst, result)),
       deploying := s.deploying - {dst},
       failed := if result.Error? then s.failed[s.requests[r].id := result] else s.failed)
  }

  function Resume(s: State, r: nat, w: World): State
    requires r < |s.requests| && (s.requests[r].phase.Running? || s.requests[r].phase.Notified?)
  {
    var q := s.requests[r];
    if q.phase.Running? then Walk(s, r, w)
    else
      var t := Put(s, r, q.(phase := Running));
      Walk(if q.phase.r.Error? then t.(failed := s.failed[q.id := q.phase.r]) else t, r, w)
  }

  // --- collection ---------------------------------------------------------

  const WORD := 0x1_0000_0000_0000_0000

  /** What the deployers and the clock say during one sweep. */
  datatype Sweep = Sweep(now: nat, ttl: Name -> int, aging: int, clears: Name -> bool)

  /** Nobody refers to the package and it is old enough, in 64-bit arithmetic. */
  predicate Expired(v: Sweep, dst: Name, i: Info) {
    var ttl := if v.ttl(dst) < 0 then v.aging else v.ttl(dst);
    i.instances == {} && (v.now - i.lastAccess) % WORD >= ttl % WORD
  }

  /** The packages whose files the sweep removes. */
  function Cleared(m: map<Name, Info>, v: Sweep): set<Name> {
    set dst | dst in m && Expired(v, dst, m[dst]) && v.clears(dst)
  }

  function Tick(s: State, v: Sweep): State {
    if s.remaining == 0 then s.(ticking := false, result := Some(CLEAN_CODE_PACKAGE_TIME_OUT))
    else if s.cleaning && s.refers == map[] then s.(ticking := false, result := Some(SUCCESS))
    else s.(refers := s.refers - Cleared(s.refers, v),
            remaining := if s.remaining >= 0 then s.remaining - 1 else s.remaining)
  }

  function CleanStatus(s: State): State {
    s.(cleaning := true, remaining := RETRY_TIMES,
       refers := map dst | dst in s.refers :: s.refers[dst].(instances := {}),
       dropped := s.dropped + set dst, i | dst in s.refers && i in s.refers[dst].instances :: (dst, i))
  }

  // --- runs ---------------------------------------------------------------

  /** `Adopt` is the registration of a runtime manager, for one running instance that it
      reports. */
  datatype Event =
    | Arrive(id: Name, instance: Name, packages: seq<Package>, w: World)
    | DownloadDone(r: nat, result: Result)
    | Continue(r: nat, w: World)
    | Adopt(instance: Name, dsts: set<Name>)
    | Release(dst: Name, instance: Name, now: nat)
    | Timer(v: Sweep)
    | Clean

  predicate Ended(q: Request) {
    q.phase.Started? || q.phase.Refused?
  }

  /** Only a download under way ends, only a request that is queued goes on, and the timer
      is armed only while the sweep goes on. */
  ghost predicate Enabled(s: State, e: Event) {
    match e
    case DownloadDone(r, _) => r < |s.requests| && s.requests[r].phase.Downloading?
    case Continue(r, _) => r < |s.requests| && (s.requests[r].phase.Running? || s.requests[r].phase.Notified?)
    case Timer(_) => s.ticking
    case _ => true
  }

  function Apply(s: State, e: Event): State
    requires Enabled(s, e)
  {
    match e
    case Arrive(id, instance, packages, w) =>
      Walk(s.(requests := s.requests + [Request(id, instance, packages, Running, packages, [])]), |s.requests|, w)
    case DownloadDone(r, result) => Downloaded(s, r, result)
    case Continue(r, w) => Resume(s, r, w)
    case Adopt(instance, dsts) =>
      s.(refers := AddRefers(s.refers, dsts, instance), dropped := s.dropped - set dst | dst in dsts :: (dst, instance))
    case Release(dst, instance, now) =>
      s.(refers := DeleteRefer(s.refers, dst, instance, now), dropped := s.dropped + {(dst, instance)})
    case Timer(v) => Tick(s, v)
    case Clean => CleanStatus(s)
  }

  ghost predicate Possible(s: State, es: seq<Event>)
    decreases |es|
  {
    es == [] || (Enabled(s, es[0]) && Possible(Apply(s, es[0]), es[1..]))
  }

  ghost function Run(s: State, es: seq<Event>): State
    requires Possible(s, es)
    decreases |es|
  {
    if es == [] then s else Run(Apply(s, es[0]), es[1..])
  }
}
