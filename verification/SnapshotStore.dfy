/** The local snapshot store: records, byte accounting, an LRU list, restore pins and
    deferred evictions over the checkpoint directories. Every operation runs under one
    lock. What the file system does is a parameter. */
module SnapshotStore {
  import opened Basics

  type Id = string

  datatype Code = Ok | ParamInvalid | Conflict | NotFound | Failed

  /** A directory with what an inspection finds in it: its size, or nothing usable. */
  datatype Entry = Directory(size: Option<nat>) | NoDirectory

  datatype Record = Record(recovery: bool, instance: string, size: nat)

  datatype Request = Request(id: Id, recovery: bool, instance: string, createdAt: int)

  /** The outcome of removing a directory: done, or stopped with something left. */
  datatype Removal = Removed | Stopped(left: Entry)

  /** The n-th removal attempt of an operation. */
  type Disk = nat -> Removal

  datatype Store = Store(
    limit: nat, records: map<Id, Record>, cached: nat, lru: seq<Id>,
    pins: map<Id, nat>, evict: set<Id>, disk: map<Id, Entry>)

  function NewStore(limit: nat, disk: map<Id, Entry>): Store {
    Store(limit, map[], 0, [], map[], {}, disk)
  }

  predicate SafeLeafName(name: Id) {
    name != "" && name != "." && name != ".." && '/' !in name && '\\' !in name && '\0' !in name
  }

  predicate ValidRequest(r: Request) {
    SafeLeafName(r.id) && r.createdAt > 0 && (r.recovery ==> r.instance != "")
  }

  function Inspect(s: Store, id: Id): Option<nat> {
    if id in s.disk && s.disk[id].Directory? && s.disk[id].size.Some? && s.disk[id].size.value > 0
    then s.disk[id].size else None
  }

  predicate Pinned(s: Store, id: Id) {
    id in s.pins && s.pins[id] > 0
  }

  function PinCount(s: Store, id: Id): nat {
    if id in s.pins then s.pins[id] else 0
  }

  // --- the LRU list -------------------------------------------------------

  function Without(lru: seq<Id>, id: Id): (r: seq<Id>)
    ensures forall x :: x in r <==> x in lru && x != id
  {
    if lru == [] then []
    else if lru[0] == id then Without(lru[1..], id)
    else [lru[0]] + Without(lru[1..], id)
  }

  function Touch(s: Store, id: Id): Store {
    s.(lru := [id] + Without(s.lru, id))
  }

  function Min(a: nat, b: nat): nat {
    if a < b then a else b
  }

  // --- removing -----------------------------------------------------------

  /** Removes the directory; a directory that is not there counts as removed. */
  function RemoveDirectory(s: Store, id: Id, r: Removal): (Store, Code) {
    if id !in s.disk then (s, Ok)
    else match r
      case Removed => (s.(disk := s.disk - {id}), Ok)
      case Stopped(left) => (s.(disk := s.disk[id := left]), Failed)
  }

  function Forget(s: Store, id: Id): Store {
    s.(cached := if id in s.records then s.cached - Min(s.cached, s.records[id].size) else s.cached,
       records := s.records - {id},
       lru := Without(s.lru, id),
       pins := s.pins - {id},
       evict := s.evict - {id})
  }

  function DeleteUnlocked(s: Store, id: Id, r: Removal): (Store, Code) {
    var (t, code) := RemoveDirectory(s, id, r);
    if code.Ok? then (Forget(t, id), Ok) else (t, code)
  }

  predicate Spared(s: Store, kept: Id, id: Id) {
    id == kept || Pinned(s, id)
  }

  /** One round of the eviction loop: the least recently used entry is moved to the front
      if it must stay, and removed otherwise. */
  function EvictRound(s: Store, kept: Id, r: Removal): Store
    requires s.lru != []
  {
    var victim := s.lru[|s.lru| - 1];
    if Spared(s, kept, victim) then s.(lru := [victim] + s.lru[..|s.lru| - 1])
    else DeleteUnlocked(s, victim, r).0
  }

  predicate OverLimit(s: Store) {
    s.limit > 0 && s.cached > s.limit && s.lru != []
  }

  function EvictLoop(s: Store, kept: Id, rounds: nat, io: Disk, k: nat): Store
    decreases rounds
  {
    if OverLimit(s) && rounds > 0
    then EvictLoop(EvictRound(s, kept, io(k)), kept, rounds - 1, io, k + 1)
    else s
  }

  function EvictIfNeeded(s: Store, kept: Id, io: Disk): Store {
    EvictLoop(s, kept, |s.lru|, io, 0)
  }

  // --- the operations -----------------------------------------------------

  function Prepare(s: Store, r: Request, created: bool): (Store, Code) {
    if !ValidRequest(r) then (s, ParamInvalid)
    else if r.id in s.disk then
      (s, if s.disk[r.id].NoDirectory? then Failed
          else if r.id !in s.records then Conflict
          else if Inspect(s, r.id).Some? then Ok else NotFound)
    else if created then (s.(disk := s.disk[r.id := Directory(None)]), Ok)
    else (s, Failed)
  }

  /** Commits size `n` for a request whose directory has been inspected. */
  function Book(s: Store, r: Request, n: nat): Store {
    var rest := if r.id in s.records then s.cached - Min(s.cached, s.records[r.id].size) else s.cached;
    Touch(s.(cached := rest + n, records := s.records[r.id := Record(r.recovery, r.instance, n)]), r.id)
  }

  function Commit(s: Store, r: Request, io: Disk): (Store, Code) {
    if !ValidRequest(r) then (s, ParamInvalid)
    else if Inspect(s, r.id).None? then (s, NotFound)
    else (EvictIfNeeded(Book(s, r, Inspect(s, r.id).value), r.id, io), Ok)
  }

  function ValidateForRestore(s: Store, id: Id): (Store, Code) {
    if !SafeLeafName(id) then (s, ParamInvalid)
    else if Inspect(s, id).None? then (s, NotFound)
    else (Touch(s, id), Ok)
  }

  /** Takes a pin on an artifact of size `n`; an artifact without a record gets one. */
  function AddPin(s: Store, id: Id, n: nat): Store {
    var t := if id in s.records then s
             else s.(records := s.records[id := Record(false, "", n)], cached := s.cached + n);
    Touch(t.(pins := t.pins[id := PinCount(t, id) + 1]), id)
  }

  function Pin(s: Store, id: Id): (Store, Code) {
    if !SafeLeafName(id) then (s, ParamInvalid)
    else if Inspect(s, id).None? then (s, NotFound)
    else (AddPin(s, id, Inspect(s, id).value), Ok)
  }

  function Unpin(s: Store, id: Id, evictAfter: bool, io: Disk): (Store, Code) {
    if !Pinned(s, id) then (s, ParamInvalid)
    else
      var t := if evictAfter then s.(evict := s.evict + {id}) else s;
      if t.pins[id] > 1 then (t.(pins := t.pins[id := t.pins[id] - 1]), Ok)
      else
        var u := t.(pins := t.pins - {id}, evict := t.evict - {id});
        if id in t.evict then DeleteUnlocked(u, id, io(0)) else (EvictIfNeeded(u, "", io), Ok)
  }

  /** Eviction of one artifact, deferred while it is pinned. */
  function Evict(s: Store, id: Id, r: Removal): (Store, Code) {
    if Pinned(s, id) then (s.(evict := s.evict + {id}), Ok) else DeleteUnlocked(s, id, r)
  }

  function Delete(s: Store, id: Id, r: Removal): (Store, Code) {
    if !SafeLeafName(id) then (s, ParamInvalid) else Evict(s, id, r)
  }

  function DiscardPrepared(s: Store, id: Id, r: Removal): (Store, Code) {
    if !SafeLeafName(id) then (s, ParamInvalid)
    else if id in s.records then (s, Conflict)
    else RemoveDirectory(s, id, r)
  }

  predicate Candidate(s: Store, instance: string, id: Id) {
    id in s.records && s.records[id].recovery && s.records[id].instance == instance
  }

  /** `ids` lists the candidates in the order of the hash table. */
  function DeleteAll(s: Store, ids: seq<Id>, io: Disk, k: nat): (Store, Code)
    decreases |ids|
  {
    if ids == [] then (s, Ok)
    else
      var (t, code) := Evict(s, ids[0], io(k));
      if code.Ok? then DeleteAll(t, ids[1..], io, k + 1) else (t, code)
  }

  function DeleteRecovery(s: Store, instance: string, ids: seq<Id>, io: Disk): (Store, Code) {
    if instance == "" then (s, ParamInvalid) else DeleteAll(s, ids, io, 0)
  }

  // --- runs ---------------------------------------------------------------

  /** `Write` is a checkpoint writer or reader changing what is inside a directory. */
  datatype Op =
    | DoPrepare(r: Request, created: bool)
    | DoCommit(r: Request, io: Disk)
    | DoValidate(id: Id)
    | DoPin(id: Id)
    | DoUnpin(id: Id, evictAfter: bool, io: Disk)
    | DoEvict(id: Id, removal: Removal)
    | DoDelete(id: Id, removal: Removal)
    | DoDiscard(id: Id, removal: Removal)
    | DoDeleteRecovery(instance: string, ids: seq<Id>, io: Disk)
    | Write(id: Id, entry: Entry)

  ghost predicate Possible(s: Store, op: Op) {
    match op
    case DoDeleteRecovery(instance, ids, _) => forall id :: id in ids <==> Candidate(s, instance, id)
    case Write(id, entry) => id in s.disk && entry.Directory?
    case _ => true
  }

  function Do(s: Store, op: Op): (Store, Code) {
    match op
    case DoPrepare(r, created) => Prepare(s, r, created)
    case DoCommit(r, io) => Commit(s, r, io)
    case DoValidate(id) => ValidateForRestore(s, id)
    case DoPin(id) => Pin(s, id)
    case DoUnpin(id, evictAfter, io) => Unpin(s, id, evictAfter, io)
    case DoEvict(id, removal) => Evict(s, id, removal)
    case DoDelete(id, removal) => Delete(s, id, removal)
    case DoDiscard(id, removal) => DiscardPrepared(s, id, removal)
    case DoDeleteRecovery(instance, ids, io) => DeleteRecovery(s, instance, ids, io)
    case Write(id, entry) => (s.(disk := s.disk[id := entry]), Ok)
  }
}
