/** How the function agent holds restore pins: one per request that is being restored and
    one per running runtime that was restored. One event is one handler of the actor. */
module RestorePins {
  import opened Basics
  import opened StatusCodes
  import SnapshotStore

  type Id = SnapshotStore.Id
  type Key = string

  /** `deploying` says of each request being deployed whether it resumes a trusted
      checkpoint. `manager` is the address of the registered runtime manager. */
  datatype Agent = Agent(
    store: Option<SnapshotStore.Store>, keepsLocal: bool,
    registered: bool, manager: (string, string), completed: bool,
    deploying: map<Key, bool>, requestPins: map<Key, Id>, runtimePins: map<Key, Id>)

  datatype Answer = Forwarded | NotRegistered | PinConflict | PinFailed

  /** `same` says whether the entry being deployed is this very request. */
  function ForwardStart(a: Agent, req: Key, snapshot: Id, trusted: bool, same: bool): (Agent, Answer) {
    if !a.registered then (a, NotRegistered)
    else if snapshot != "" && req in a.requestPins && a.requestPins[req] != snapshot then
      (a.(deploying := a.deploying - {req}), PinConflict)
    else if snapshot != "" && req !in a.requestPins
            && (a.store.None? || SnapshotStore.Pin(a.store.value, snapshot).1 != SnapshotStore.Ok) then
      (a.(deploying := a.deploying - {req}), PinFailed)
    else
      var b := if snapshot != "" && req !in a.requestPins
               then a.(store := Some(SnapshotStore.Pin(a.store.value, snapshot).0),
                       requestPins := a.requestPins[req := snapshot])
               else a;
      (if req in b.deploying && same then b.(deploying := b.deploying[req := trusted]) else b, Forwarded)
  }

  function UnpinStore(a: Agent, id: Id, evictAfter: bool, io: SnapshotStore.Disk): Agent {
    if a.store.None? then a
    else a.(store := Some(SnapshotStore.Unpin(a.store.value, id, evictAfter, io).0))
  }

  function ReleaseRequest(a: Agent, req: Key, io: SnapshotStore.Disk): Agent {
    if req !in a.requestPins then a
    else UnpinStore(a.(requestPins := a.requestPins - {req}), a.requestPins[req], !a.keepsLocal, io)
  }

  function Promote(a: Agent, req: Key, runtime: Key, io: SnapshotStore.Disk): Agent {
    if req !in a.requestPins || runtime == "" then a
    else
      var id := a.requestPins[req];
      var b := a.(requestPins := a.requestPins - {req});
      if runtime !in a.runtimePins then b.(runtimePins := a.runtimePins[runtime := id])
      else if a.runtimePins[runtime] != id then a
      else UnpinStore(b, id, false, io)
  }

  function ReleaseRuntime(a: Agent, runtime: Key, io: SnapshotStore.Disk): Agent {
    if runtime !in a.runtimePins then a
    else UnpinStore(a.(runtimePins := a.runtimePins - {runtime}), a.runtimePins[runtime], !a.keepsLocal, io)
  }

  function StartResponse(a: Agent, req: Key, code: Code, runtime: Key, io: SnapshotStore.Disk): Agent {
    if req !in a.deploying || !a.registered || !a.completed then
      if ResultUnknown(code) then a else ReleaseRequest(a, req, io)
    else
      var c := if code == INSTANCE_HAS_BEEN_DEPLOYED then SUCCESS else code;
      var b := if c == SUCCESS then Promote(a, req, runtime, io)
               else if a.deploying[req] && ResultUnknown(c) then a
               else ReleaseRequest(a, req, io);
      b.(deploying := b.deploying - {req})
  }

  predicate ConfirmsStop(a: Agent, from: (string, string), code: Code) {
    from == a.manager && StopConfirmed(code)
  }

  function StopResponse(a: Agent, from: (string, string), code: Code, runtime: Key, io: SnapshotStore.Disk): Agent {
    if ConfirmsStop(a, from, code) then ReleaseRuntime(a, runtime, io) else a
  }

  /** `Other` is any use of the store by other handlers and by checkpoint writers. */
  datatype Event =
    | Deploy(req: Key)
    | Drop(req: Key)
    | Forward(req: Key, snapshot: Id, trusted: bool, same: bool)
    | Started(req: Key, code: Code, runtime: Key, io: SnapshotStore.Disk)
    | Stopped(from: (string, string), code: Code, runtime: Key, io: SnapshotStore.Disk)
    | Register(manager: (string, string))
    | Lose
    | Complete(done: bool)
    | Other(op: SnapshotStore.Op)

  ghost predicate Enabled(a: Agent, e: Event) {
    e.Other? ==> a.store.Some? && !e.op.DoPin? && !e.op.DoUnpin? && SnapshotStore.Possible(a.store.value, e.op)
  }

  function Apply(a: Agent, e: Event): Agent {
    match e
    case Deploy(req) => a.(deploying := a.deploying[req := false])
    case Drop(req) => a.(deploying := a.deploying - {req})
    case Forward(req, snapshot, trusted, same) => ForwardStart(a, req, snapshot, trusted, same).0
    case Started(req, code, runtime, io) => StartResponse(a, req, code, runtime, io)
    case Stopped(from, code, runtime, io) => StopResponse(a, from, code, runtime, io)
    case Register(manager) => a.(registered := true, manager := manager)
    case Lose => a.(registered := false)
    case Complete(done) => a.(completed := done)
    case Other(op) => if a.store.None? then a else a.(store := Some(SnapshotStore.Do(a.store.value, op).0))
  }

  ghost predicate Possible(a: Agent, es: seq<Event>)
    decreases |es|
  {
    es == [] || (Enabled(a, es[0]) && Possible(Apply(a, es[0]), es[1..]))
  }

  ghost function Run(a: Agent, es: seq<Event>): Agent
    requires Possible(a, es)
    decreases |es|
  {
    if es == [] then a else Run(Apply(a, es[0]), es[1..])
  }

  function NewAgent(store: Option<SnapshotStore.Store>, keepsLocal: bool): Agent {
    Agent(store, keepsLocal, false, ("", ""), false, map[], map[], map[])
  }
}
