/** What each operation of the snapshot store answers, and what it leaves behind. */
module StoreOutcomes {
  import opened Basics
  import opened SnapshotStore
  import opened StoreProofs

  /** A name that cannot lead out of the directory of the store. */
  ghost predicate Leaf(name: Id) {
    && |name| > 0 && name != "." && name != ".."
    && forall i | 0 <= i < |name| :: name[i] != '/' && name[i] != '\\' && name[i] != '\0'
  }

  lemma SafeIsLeaf(name: Id)
    ensures SafeLeafName(name) <==> Leaf(name)
  {
  }

  ghost predicate WellFormed(r: Request) {
    Leaf(r.id) && r.createdAt > 0 && (r.recovery ==> r.instance != "")
  }

  /** A directory with a checkpoint of `n` bytes. */
  ghost predicate Usable(s: Store, id: Id, n: nat) {
    n > 0 && id in s.disk && s.disk[id] == Directory(Some(n))
  }

  /** The store has no limit or is within it. */
  ghost predicate Within(s: Store) {
    s.limit == 0 || s.cached <= s.limit
  }

  /** No removal of the operation fails. */
  ghost predicate AllRemoved(io: Disk) {
    forall k :: io(k) == Removed
  }

  /** What eviction may not touch: the artifact it makes room for, and pinned ones. */
  ghost predicate Stays(kept: Id, pins: map<Id, nat>, id: Id) {
    id == kept || (id in pins && pins[id] > 0)
  }

  /** The records from `m` on are gone, except those that must stay. */
  ghost predicate Cut(s: Store, t: Store, kept: Id, m: nat) {
    && m <= |s.lru|
    && forall id :: id in t.records <==> id in s.records && (id in s.lru[m..] ==> Stays(kept, s.pins, id))
  }

  /** `t` is `s` after making room: it is within its limit unless all that is left must stay,
      and what is gone is a tail of the LRU list, without what must stay. */
  ghost predicate MadeRoom(s: Store, t: Store, kept: Id) {
    && (Within(t) || forall id | id in t.records :: Stays(kept, s.pins, id))
    && exists m: nat :: Cut(s, t, kept, m)
  }

  lemma MakesRoom(s: Store, kept: Id, io: Disk)
    requires Inv(s) && AllRemoved(io)
    ensures MadeRoom(s, EvictIfNeeded(s, kept, io), kept)
  {
    EvictionTheorem(s, kept, io);
    var t := EvictIfNeeded(s, kept, io);
    var m: nat :| m <= |s.lru| && Evicted(s, kept, s.lru, m, t);
    assert forall id :: Stays(kept, s.pins, id) <==> Spared(s, kept, id);
    assert Cut(s, t, kept, m);
  }

  // --- prepare and commit -------------------------------------------------

  /** A directory is prepared for a well-formed request: an existing one only if it is on
      record and usable, and otherwise a new empty one. */
  lemma PrepareTheorem(s: Store, r: Request, created: bool)
    ensures var (t, code) := Prepare(s, r, created);
            if !WellFormed(r) then t == s && code == ParamInvalid
            else if r.id !in s.disk then
              if created then code == Ok && t == s.(disk := s.disk[r.id := Directory(None)])
              else t == s && code == Failed
            else
              && t == s
              && (code == Ok <==> r.id in s.records && exists n: nat :: Usable(s, r.id, n))
              && (code == Failed <==> s.disk[r.id].NoDirectory?)
              && (code == Conflict <==> s.disk[r.id].Directory? && r.id !in s.records)
  {
    SafeIsLeaf(r.id);
    if r.id in s.disk && Inspect(s, r.id).Some? { assert Usable(s, r.id, Inspect(s, r.id).value); }
  }

  /** The store with the artifact on record as the most recently used one. */
  ghost predicate Booked(s: Store, b: Store, r: Request, n: nat) {
    && b.records == s.records[r.id := Record(r.recovery, r.instance, n)]
    && b.lru == [r.id] + Without(s.lru, r.id) && b.pins == s.pins && b.limit == s.limit
  }

  /** A commit is accepted exactly for a well-formed request with a usable directory, and else
      changes nothing. The artifact is then on record with its size. If no removal fails,
      the store is within its limit unless all that is left is pinned or the new artifact,
      and what had to go are the least recently used artifacts that need not stay. */
  lemma CommitOutcome(s: Store, r: Request, io: Disk)
    requires Inv(s)
    ensures var (t, code) := Commit(s, r, io);
            && (code == Ok <==> WellFormed(r) && exists n: nat :: Usable(s, r.id, n))
            && (code != Ok ==> t == s && (code == ParamInvalid <==> !WellFormed(r)))
            && (code == Ok ==>
                  exists n: nat, b: Store :: Usable(s, r.id, n) && Booked(s, b, r, n)
                    && r.id in t.records && t.records[r.id] == Record(r.recovery, r.instance, n)
                    && (AllRemoved(io) ==> MadeRoom(b, t, r.id)))
  {
    SafeIsLeaf(r.id);
    var (t, code) := Commit(s, r, io);
    if code == Ok {
      var n := Inspect(s, r.id).value;
      var b := Book(s, r, n);
      assert Usable(s, r.id, n) && Booked(s, b, r, n);
      CommitTheorem(s, r, io);
      BookInv(s, r, n);
      if AllRemoved(io) { MakesRoom(b, r.id, io); }
    }
  }

  // --- pins ---------------------------------------------------------------

  /** A pin is taken exactly on a usable artifact, which becomes the most recently used one;
      without a record it gets one with the size found. Nothing else changes. */
  lemma PinOutcome(s: Store, id: Id)
    ensures var (t, code) := Pin(s, id);
            && (code == Ok <==> Leaf(id) && exists n: nat :: Usable(s, id, n))
            && (code != Ok ==> t == s && (code == ParamInvalid <==> !Leaf(id)))
            && (code == Ok ==>
                  && t.lru == [id] + Without(s.lru, id) && t.disk == s.disk && t.evict == s.evict && t.limit == s.limit
                  && t.pins == s.pins[id := PinCount(s, id) + 1]
                  && if id in s.records then t.records == s.records && t.cached == s.cached
                     else exists n: nat :: Usable(s, id, n) && t.records == s.records[id := Record(false, "", n)]
                                      && t.cached == s.cached + n)
  {
    SafeIsLeaf(id);
    if Inspect(s, id).Some? { assert Usable(s, id, Inspect(s, id).value); }
  }

  /** The last pin of a marked artifact goes: so does the artifact, unless its removal fails,
      which leaves its record and whatever is left of the directory. */
  ghost predicate Given(s: Store, t: Store, code: Code, id: Id, removal: Removal) {
    match removal
    case Removed => code == Ok && id !in t.disk && id !in t.records && id !in t.lru && id !in t.pins
    case Stopped(left) => code == Failed && id in t.records && t.disk == s.disk[id := left] && id !in t.pins
  }

  /** The last pin of an artifact that is not marked goes: a store within its limit keeps
      everything; another one makes room. */
  ghost predicate Kept(s: Store, t: Store, code: Code, id: Id, io: Disk) {
    && code == Ok
    && (Within(s) ==> t == s.(pins := s.pins - {id}))
    && (AllRemoved(io) ==> MadeRoom(s.(pins := s.pins - {id}), t, ""))
  }

  lemma WithinKeeps(s: Store, kept: Id, rounds: nat, io: Disk, k: nat)
    requires Within(s)
    ensures EvictLoop(s, kept, rounds, io, k) == s
  {
  }

  /** What an unpin does: nothing without a pin; with more than one it counts down and
      remembers the mark; the last one decides about the artifact. */
  lemma UnpinOutcome(s: Store, id: Id, evictAfter: bool, io: Disk)
    requires Inv(s)
    ensures var (t, code) := Unpin(s, id, evictAfter, io);
            if PinCount(s, id) == 0 then t == s && code == ParamInvalid
            else if PinCount(s, id) > 1 then
              && code == Ok && t == s.(pins := s.pins[id := s.pins[id] - 1], evict := t.evict)
              && t.evict == if evictAfter then s.evict + {id} else s.evict
            else if evictAfter || id in s.evict then Given(s, t, code, id, io(0))
            else Kept(s, t, code, id, io)
  {
    if PinCount(s, id) == 1 && !evictAfter && id !in s.evict {
      var u := s.(pins := s.pins - {id});
      assert s.evict - {id} == s.evict;
      assert Unpin(s, id, evictAfter, io) == (EvictIfNeeded(u, "", io), Ok);
      assert Inv(u);
      if Within(s) { WithinKeeps(u, "", |u.lru|, io, 0); }
      if AllRemoved(io) { MakesRoom(u, "", io); }
    }
  }

  // --- removing -----------------------------------------------------------

  /** What deletion and eviction do: a pinned artifact is marked and kept; another one is gone
      with its record; a failed removal leaves the record. */
  lemma EvictOutcome(s: Store, id: Id, removal: Removal)
    requires Inv(s)
    ensures var (t, code) := Evict(s, id, removal);
            if id in s.pins then code == Ok && t == s.(evict := s.evict + {id})
            else if id in s.disk && removal.Stopped? then
              code == Failed && t == s.(disk := s.disk[id := removal.left])
            else
              && code == Ok && t.disk == s.disk - {id} && t.records == s.records - {id} && t.lru == Without(s.lru, id)
              && t.pins == s.pins && t.evict == s.evict && t.limit == s.limit
    ensures Delete(s, id, removal) == if Leaf(id) then Evict(s, id, removal) else (s, ParamInvalid)
  {
    SafeIsLeaf(id);
    if id !in s.pins {
      assert s.pins - {id} == s.pins && s.evict - {id} == s.evict;
      if id !in s.disk { assert s.disk - {id} == s.disk; }
    }
  }

  /** Discarding never touches an artifact on record; a prepared directory goes, as far as it
      can be removed. */
  lemma DiscardOutcome(s: Store, id: Id, removal: Removal)
    ensures var (t, code) := DiscardPrepared(s, id, removal);
            if !Leaf(id) then t == s && code == ParamInvalid
            else if id in s.records then t == s && code == Conflict
            else if id in s.disk && removal.Stopped? then
              code == Failed && t == s.(disk := s.disk[id := removal.left])
            else code == Ok && t == s.(disk := s.disk - {id})
  {
    SafeIsLeaf(id);
    if id !in s.disk { assert s.disk - {id} == s.disk; }
  }

  lemma {:induction false} AllDeleted(s: Store, ids: seq<Id>, io: Disk, k: nat)
    requires AllRemoved(io)
    ensures DeleteAll(s, ids, io, k).1 == Ok
    decreases |ids|
  {
    if ids != [] { AllDeleted(Evict(s, ids[0], io(k)).0, ids[1..], io, k + 1); }
  }

  /** Cleaning up after an instance fails only if the instance is not named or a removal does. */
  lemma CleanUpOutcome(s: Store, instance: string, ids: seq<Id>, io: Disk)
    ensures var (t, code) := DeleteRecovery(s, instance, ids, io);
            && (instance == "" ==> t == s && code == ParamInvalid)
            && (instance != "" && AllRemoved(io) ==> code == Ok)
  {
    if instance != "" && AllRemoved(io) { AllDeleted(s, ids, io, 0); }
  }
}
