/** The invariant of the snapshot store and what eviction leaves behind. */
module StoreProofs {
  import opened SnapshotStore

  // --- byte accounting ----------------------------------------------------

  ghost function Bytes(m: map<Id, Record>): nat
    decreases |m|
  {
    if m == map[] then 0
    else
      var id :| id in m;
      m[id].size + Bytes(m - {id})
  }

  /** The sum does not depend on the order in which records are taken. */
  lemma {:induction false} BytesWithout(m: map<Id, Record>, id: Id)
    requires id in m
    ensures Bytes(m) == m[id].size + Bytes(m - {id})
    decreases |m|
  {
    var x :| x in m && Bytes(m) == m[x].size + Bytes(m - {x});
    if x != id {
      BytesWithout(m - {x}, id);
      BytesWithout(m - {id}, x);
      assert m - {x} - {id} == m - {id} - {x};
    }
  }

  lemma BytesAdd(m: map<Id, Record>, id: Id, r: Record)
    ensures Bytes(m[id := r]) == r.size + Bytes(m - {id})
  {
    BytesWithout(m[id := r], id);
    assert m[id := r] - {id} == m - {id};
  }

  // --- the invariant ------------------------------------------------------

  ghost predicate Distinct(q: seq<Id>) {
    forall i, j | 0 <= i < j < |q| :: q[i] != q[j]
  }

  /** The LRU list has every record, once. */
  ghost predicate Listed(lru: seq<Id>, records: map<Id, Record>) {
    Distinct(lru) && forall id | id in records :: id in lru
  }

  /** Only artifacts with a record and a directory are pinned, and only pinned artifacts
      wait for eviction. */
  ghost predicate PinsOk(pins: map<Id, nat>, evict: set<Id>, records: map<Id, Record>, disk: map<Id, Entry>) {
    && (forall id | id in pins :: pins[id] > 0 && id in records && id in disk)
    && (forall id | id in evict :: id in pins)
  }

  /** And the byte count is exact. */
  ghost predicate Inv(s: Store) {
    s.cached == Bytes(s.records) && Listed(s.lru, s.records) && PinsOk(s.pins, s.evict, s.records, s.disk)
  }

  lemma {:induction false} WithoutDistinct(q: seq<Id>, id: Id)
    requires Distinct(q)
    ensures Distinct(Without(q, id)) && Distinct([id] + Without(q, id))
    ensures id in q ==> |Without(q, id)| == |q| - 1
    ensures id !in q ==> Without(q, id) == q
  {
    if q != [] {
      WithoutDistinct(q[1..], id);
      assert q == [q[0]] + q[1..];
      assert q[0] !in q[1..];
    }
  }

  lemma {:induction false} WithoutTwice(q: seq<Id>, id: Id)
    ensures Without(Without(q, id), id) == Without(q, id)
  {
    if q != [] {
      WithoutTwice(q[1..], id);
      if q[0] != id {
        var w := Without(q, id);
        assert w[0] == q[0] && w[1..] == Without(q[1..], id);
      }
    }
  }

  /** Touching moves one entry to the front and keeps the order of the others. */
  lemma TouchOrder(q: seq<Id>, id: Id)
    ensures Without([id] + Without(q, id), id) == Without(q, id)
  {
    assert ([id] + Without(q, id))[1..] == Without(q, id);
    WithoutTwice(q, id);
  }

  lemma TouchListed(lru: seq<Id>, records: map<Id, Record>, id: Id)
    requires Distinct(lru) && forall x | x in records && x != id :: x in lru
    ensures Listed([id] + Without(lru, id), records)
  {
    WithoutDistinct(lru, id);
  }

  lemma ForgetListed(lru: seq<Id>, records: map<Id, Record>, id: Id)
    requires Listed(lru, records)
    ensures Listed(Without(lru, id), records - {id})
  {
    WithoutDistinct(lru, id);
  }

  lemma ForgetBytes(s: Store, id: Id)
    requires s.cached == Bytes(s.records)
    ensures Forget(s, id).cached == Bytes(Forget(s, id).records)
  {
    if id in s.records { BytesWithout(s.records, id); } else { assert s.records - {id} == s.records; }
  }

  lemma DeleteUnlockedInv(s: Store, id: Id, r: Removal)
    requires Inv(s) && !Pinned(s, id)
    ensures Inv(DeleteUnlocked(s, id, r).0)
  {
    var (t, code) := RemoveDirectory(s, id, r);
    ForgetBytes(t, id);
    ForgetListed(t.lru, t.records, id);
  }

  lemma RotateInv(s: Store)
    requires Inv(s) && s.lru != []
    ensures Inv(s.(lru := [s.lru[|s.lru| - 1]] + s.lru[..|s.lru| - 1]))
  {
    var n := |s.lru| - 1;
    assert forall id :: id in s.lru <==> id in [s.lru[n]] + s.lru[..n] by {
      assert s.lru == s.lru[..n] + [s.lru[n]];
    }
  }

  lemma RoundInv(s: Store, kept: Id, r: Removal)
    requires Inv(s) && s.lru != []
    ensures Inv(EvictRound(s, kept, r))
  {
    var victim := s.lru[|s.lru| - 1];
    if Spared(s, kept, victim) { RotateInv(s); } else { DeleteUnlockedInv(s, victim, r); }
  }

  lemma {:induction false} LoopInv(s: Store, kept: Id, rounds: nat, io: Disk, k: nat)
    requires Inv(s)
    ensures Inv(EvictLoop(s, kept, rounds, io, k))
    decreases rounds
  {
    if OverLimit(s) && rounds > 0 {
      RoundInv(s, kept, io(k));
      LoopInv(EvictRound(s, kept, io(k)), kept, rounds - 1, io, k + 1);
    }
  }

  lemma BookInv(s: Store, r: Request, n: nat)
    requires Inv(s)
    ensures Inv(Book(s, r, n))
  {
    BytesAdd(s.records, r.id, Record(r.recovery, r.instance, n));
    if r.id in s.records { BytesWithout(s.records, r.id); } else { assert s.records - {r.id} == s.records; }
    var rest := if r.id in s.records then s.cached - Min(s.cached, s.records[r.id].size) else s.cached;
    assert Book(s, r, n).cached == rest + n;
    TouchListed(s.lru, s.records[r.id := Record(r.recovery, r.instance, n)], r.id);
  }

  /** The record that a pin creates for an artifact without one. */
  lemma RecordAdded(s: Store, id: Id, r: Record)
    requires s.cached == Bytes(s.records) && id !in s.records
    ensures s.cached + r.size == Bytes(s.records[id := r])
  {
    BytesAdd(s.records, id, r);
    assert s.records - {id} == s.records;
  }

  lemma AddPinInv(s: Store, id: Id, n: nat)
    requires Inv(s) && id in s.disk
    ensures Inv(AddPin(s, id, n))
  {
    var r := Record(false, "", n);
    if id !in s.records { RecordAdded(s, id, r); }
    TouchListed(s.lru, AddPin(s, id, n).records, id);
  }

  /** One pin less. */
  ghost function Dropped(s: Store, id: Id, evictAfter: bool): Store {
    var evict := if evictAfter then s.evict + {id} else s.evict;
    s.(pins := s.pins - {id}, evict := evict - {id})
  }

  lemma UnpinCases(s: Store, id: Id, evictAfter: bool, io: Disk)
    requires Pinned(s, id)
    ensures var u, t := Dropped(s, id, evictAfter), Unpin(s, id, evictAfter, io).0;
            || (s.pins[id] == 1 && (t == DeleteUnlocked(u, id, io(0)).0 || t == EvictIfNeeded(u, "", io)))
            || (s.pins[id] > 1
                && t == s.(pins := s.pins[id := s.pins[id] - 1], evict := if evictAfter then s.evict + {id}
                    else s.evict))
  {
  }

  lemma UnpinInv(s: Store, id: Id, evictAfter: bool, io: Disk)
    requires Inv(s)
    ensures Inv(Unpin(s, id, evictAfter, io).0)
  {
    if Pinned(s, id) {
      var u := Dropped(s, id, evictAfter);
      UnpinCases(s, id, evictAfter, io);
      assert Inv(u);
      DeleteUnlockedInv(u, id, io(0));
      LoopInv(u, "", |u.lru|, io, 0);
    }
  }

  lemma {:induction false} DeleteAllInv(s: Store, ids: seq<Id>, io: Disk, k: nat)
    requires Inv(s)
    ensures Inv(DeleteAll(s, ids, io, k).0)
    decreases |ids|
  {
    if ids != [] {
      if !Pinned(s, ids[0]) { DeleteUnlockedInv(s, ids[0], io(k)); }
      DeleteAllInv(Evict(s, ids[0], io(k)).0, ids[1..], io, k + 1);
    }
  }

  lemma OpInv(s: Store, op: Op)
    requires Inv(s) && Possible(s, op)
    ensures Inv(Do(s, op).0)
  {
    match op
    case DoCommit(r, io) =>
      if Inspect(s, r.id).Some? {
        BookInv(s, r, Inspect(s, r.id).value);
        var b := Book(s, r, Inspect(s, r.id).value);
        LoopInv(b, r.id, |b.lru|, io, 0);
      }
    case DoValidate(id) => TouchListed(s.lru, s.records, id);
    case DoPin(id) => if Inspect(s, id).Some? { AddPinInv(s, id, Inspect(s, id).value); }
    case DoUnpin(id, evictAfter, io) => UnpinInv(s, id, evictAfter, io);
    case DoEvict(id, removal) => if !Pinned(s, id) { DeleteUnlockedInv(s, id, removal); }
    case DoDelete(id, removal) => if !Pinned(s, id) { DeleteUnlockedInv(s, id, removal); }
    case DoDeleteRecovery(_, ids, io) => DeleteAllInv(s, ids, io, 0);
    case _ =>
  }

  // --- what no operation does to a pinned artifact ------------------------

  ghost predicate SameDirectory(s: Store, t: Store, id: Id) {
    (id in t.disk <==> id in s.disk) && (id in s.disk ==> t.disk[id] == s.disk[id])
  }

  lemma {:induction false} LoopSpares(s: Store, kept: Id, rounds: nat, io: Disk, k: nat, id: Id)
    ensures var t := EvictLoop(s, kept, rounds, io, k);
            PinCount(t, id) == PinCount(s, id) && (Spared(s, kept, id) ==> SameDirectory(s, t, id))
    decreases rounds
  {
    if OverLimit(s) && rounds > 0 {
      LoopSpares(EvictRound(s, kept, io(k)), kept, rounds - 1, io, k + 1, id);
    }
  }

  lemma CommitSpares(s: Store, r: Request, io: Disk, id: Id)
    ensures var t := Commit(s, r, io).0;
            PinCount(t, id) == PinCount(s, id) && (Pinned(s, id) ==> SameDirectory(s, t, id))
  {
    if ValidRequest(r) && Inspect(s, r.id).Some? {
      var b := Book(s, r, Inspect(s, r.id).value);
      LoopSpares(b, r.id, |b.lru|, io, 0, id);
    }
  }

  /** The count goes down by one even when the eviction that follows fails. */
  lemma UnpinSpares(s: Store, x: Id, evictAfter: bool, io: Disk, id: Id)
    ensures var t := Unpin(s, x, evictAfter, io).0;
            && PinCount(t, id) == PinCount(s, id) - (if x == id && Pinned(s, id) then 1 else 0)
            && (PinCount(t, id) > 0 ==> SameDirectory(s, t, id))
  {
    if Pinned(s, x) && s.pins[x] <= 1 {
      var t := if evictAfter then s.(evict := s.evict + {x}) else s;
      var u := t.(pins := t.pins - {x}, evict := t.evict - {x});
      LoopSpares(u, "", |u.lru|, io, 0, id);
      assert x in t.evict ==> Unpin(s, x, evictAfter, io) == DeleteUnlocked(u, x, io(0));
    }
  }

  lemma {:induction false} DeleteAllSpares(s: Store, ids: seq<Id>, io: Disk, k: nat, id: Id)
    ensures var t := DeleteAll(s, ids, io, k).0;
            PinCount(t, id) == PinCount(s, id) && (Pinned(s, id) ==> SameDirectory(s, t, id))
    decreases |ids|
  {
    if ids != [] {
      DeleteAllSpares(Evict(s, ids[0], io(k)).0, ids[1..], io, k + 1, id);
    }
  }

  lemma EvictSpares(s: Store, x: Id, r: Removal, id: Id)
    ensures var t := Evict(s, x, r).0;
            PinCount(t, id) == PinCount(s, id) && (Pinned(s, id) ==> SameDirectory(s, t, id))
  {
  }

  /** A prepared directory is discarded only if it has no record, hence no pins. */
  lemma DiscardSpares(s: Store, x: Id, r: Removal, id: Id)
    requires Inv(s)
    ensures var t := DiscardPrepared(s, x, r).0;
            PinCount(t, id) == PinCount(s, id) && (Pinned(s, id) ==> SameDirectory(s, t, id))
  {
  }

  /** For any artifact: a successful pin adds one and an unpin takes one away; no other
      operation changes the count. As long as the count stays positive, nothing that is
      asked of the store touches the directory. */
  lemma PinTheorem(s: Store, op: Op, id: Id)
    requires Inv(s)
    ensures var t := Do(s, op).0;
            && PinCount(t, id) == PinCount(s, id)
                 + (if op.DoPin? && op.id == id && Do(s, op).1.Ok? then 1 else 0)
                 - (if op.DoUnpin? && op.id == id && Pinned(s, id) then 1 else 0)
            && (Pinned(s, id) && PinCount(t, id) > 0 && !op.Write? ==> SameDirectory(s, t, id))
  {
    match op
    case DoCommit(r, io) => CommitSpares(s, r, io, id);
    case DoUnpin(x, evictAfter, io) => UnpinSpares(s, x, evictAfter, io, id);
    case DoEvict(x, r) => EvictSpares(s, x, r, id);
    case DoDelete(x, r) => EvictSpares(s, x, r, id);
    case DoDiscard(x, r) => DiscardSpares(s, x, r, id);
    case DoDeleteRecovery(_, ids, io) => DeleteAllSpares(s, ids, io, 0, id);
    case DoPrepare(_, _) =>
    case DoValidate(_) =>
    case DoPin(_) =>
    case Write(_, _) =>
  }

  /** The pin count of `id` has changed by `d` and no other; what stays pinned keeps its
      directory. */
  ghost predicate PinsMoved(s: Store, t: Store, id: Id, d: int) {
    && (forall x :: PinCount(t, x) == PinCount(s, x) + if x == id then d else 0)
    && (forall x | Pinned(s, x) && Pinned(t, x) :: SameDirectory(s, t, x))
  }

  /** Which count an operation changes, and by how much. */
  function Moved(s: Store, op: Op): (r: (Id, int)) {
    if op.DoPin? && Do(s, op).1.Ok? then (op.id, 1)
    else if op.DoUnpin? && Pinned(s, op.id) then (op.id, -1)
    else ("", 0)
  }

  lemma OpPins(s: Store, op: Op)
    requires Inv(s) && !op.Write?
    ensures PinsMoved(s, Do(s, op).0, Moved(s, op).0, Moved(s, op).1)
  {
    forall x { PinTheorem(s, op, x); }
  }

  /** What deletion means: a pinned artifact is marked and kept; another one is gone with
      its record, unless its removal fails, which leaves the record. */
  lemma DeleteCases(s: Store, id: Id, r: Removal)
    requires Inv(s)
    ensures var (t, code) := Delete(s, id, r);
            && (!SafeLeafName(id) ==> t == s && code == ParamInvalid)
            && (SafeLeafName(id) && Pinned(s, id) ==>
                  code == Ok && id in t.evict && t.records == s.records && t.disk == s.disk)
            && (SafeLeafName(id) && !Pinned(s, id) && code == Ok ==>
                  id !in t.disk && t.records == s.records - {id} && id !in t.lru)
            && (SafeLeafName(id) && code != Ok ==> code == Failed && t.records == s.records && t.lru == s.lru)
  {
  }

  // --- what eviction leaves behind ----------------------------------------

  /** The list is a rotated part, all of it to be spared, followed by the entries that
      the loop has not looked at yet. */
  ghost predicate Split(s: Store, kept: Id, front: seq<Id>, rest: seq<Id>) {
    Inv(s) && s.lru == front + rest && forall id | id in front :: Spared(s, kept, id)
  }

  lemma RoundSplit(s: Store, kept: Id, front: seq<Id>, rest: seq<Id>) returns (next: seq<Id>)
    requires Split(s, kept, front, rest) && rest != []
    ensures Split(EvictRound(s, kept, Removed), kept, next, rest[..|rest| - 1])
    ensures s.lru[|s.lru| - 1] == rest[|rest| - 1]
    ensures forall id :: Spared(EvictRound(s, kept, Removed), kept, id) == Spared(s, kept, id)
  {
    var n := |rest| - 1;
    RoundInv(s, kept, Removed);
    var u := EvictRound(s, kept, Removed);
    if Spared(s, kept, rest[n]) {
      next := [rest[n]] + front;
      assert u.lru == next + rest[..n];
    } else {
      next := front;
      WithoutLast(s.lru);
      assert u.lru == front + rest[..n];
    }
  }

  lemma {:induction false} LoopSpared(s: Store, kept: Id, io: Disk, k: nat, front: seq<Id>, rest: seq<Id>)
    requires Split(s, kept, front, rest) && forall i | k <= i < k + |rest| :: io(i) == Removed
    ensures var t := EvictLoop(s, kept, |rest|, io, k);
            OverLimit(t) ==> forall id | id in t.lru :: Spared(s, kept, id)
    decreases |rest|
  {
    if OverLimit(s) && rest != [] {
      var next := RoundSplit(s, kept, front, rest);
      LoopSpared(EvictRound(s, kept, Removed), kept, io, k + 1, next, rest[..|rest| - 1]);
    }
  }

  lemma {:induction false} LoopEvicted(s: Store, kept: Id, io: Disk, k: nat, front: seq<Id>, rest: seq<Id>)
      returns (m: nat)
    requires Split(s, kept, front, rest) && forall i | k <= i < k + |rest| :: io(i) == Removed
    ensures Evicted(s, kept, rest, m, EvictLoop(s, kept, |rest|, io, k))
    decreases |rest|
  {
    if OverLimit(s) && rest != [] {
      var next := RoundSplit(s, kept, front, rest);
      var u := EvictRound(s, kept, Removed);
      m := LoopEvicted(u, kept, io, k + 1, next, rest[..|rest| - 1]);
      RoundEvicted(s, kept, rest, m, EvictLoop(s, kept, |rest|, io, k));
    } else {
      m := |rest|;
    }
  }

  /** The records that are gone are those of the entries from `m` on that need not be
      spared: the least recently used ones. */
  ghost predicate Evicted(s: Store, kept: Id, rest: seq<Id>, m: nat, t: Store) {
    && m <= |rest|
    && forall id :: id in t.records <==> id in s.records && !(id in rest[m..] && !Spared(s, kept, id))
  }

  lemma RoundEvicted(s: Store, kept: Id, rest: seq<Id>, m: nat, t: Store)
    requires s.lru != [] && rest != []
    requires rest[|rest| - 1] == s.lru[|s.lru| - 1]
    requires Evicted(EvictRound(s, kept, Removed), kept, rest[..|rest| - 1], m, t)
    ensures Evicted(s, kept, rest, m, t)
  {
    var u, n := EvictRound(s, kept, Removed), |rest| - 1;
    assert forall id :: Spared(u, kept, id) == Spared(s, kept, id);
    assert rest[m..] == rest[..n][m..] + [rest[n]];
    assert forall id :: id in u.records <==> id in s.records && (id != rest[n] || Spared(s, kept, id));
  }

  lemma {:induction false} WithoutLast(q: seq<Id>)
    requires q != [] && Distinct(q)
    ensures Without(q, q[|q| - 1]) == q[..|q| - 1]
  {
    if |q| > 1 {
      WithoutLast(q[1..]);
      assert q[1..][..|q| - 2] == q[1..|q| - 1];
      assert [q[0]] + q[1..|q| - 1] == q[..|q| - 1];
    }
  }

  /** Eviction, when none of its removals fails: the store ends below its limit unless everything
      left must be spared, and it gives up least recently used artifacts first: what is
      evicted is exactly the unspared tail of the LRU list from some point on. */
  lemma EvictionTheorem(s: Store, kept: Id, io: Disk)
    requires Inv(s) && forall i | 0 <= i < |s.lru| :: io(i) == Removed
    ensures var t := EvictIfNeeded(s, kept, io);
            && (t.limit == 0 || t.cached <= t.limit || forall id | id in t.records :: Spared(s, kept, id))
            && exists m: nat :: m <= |s.lru| && Evicted(s, kept, s.lru, m, t)
  {
    assert s.lru == [] + s.lru;
    LoopSpared(s, kept, io, 0, [], s.lru);
    var m := LoopEvicted(s, kept, io, 0, [], s.lru);
    var t := EvictIfNeeded(s, kept, io);
    LoopInv(s, kept, |s.lru|, io, 0);
    LoopLimit(s, kept, |s.lru|, io, 0);
    if t.lru == [] { assert t.records == map[]; }
  }

  lemma {:induction false} LoopLimit(s: Store, kept: Id, rounds: nat, io: Disk, k: nat)
    ensures EvictLoop(s, kept, rounds, io, k).limit == s.limit
    decreases rounds
  {
    if OverLimit(s) && rounds > 0 {
      LoopLimit(EvictRound(s, kept, io(k)), kept, rounds - 1, io, k + 1);
    }
  }

  /** Eviction stops at once when the store is back at its limit: with the last artifact
      it gave up, the store would still be above it. No removal needs to succeed. */
  lemma {:induction false} FrugalTheorem(s: Store, kept: Id, rounds: nat, io: Disk, k: nat)
    requires Inv(s) && EvictLoop(s, kept, rounds, io, k).records != s.records
    ensures var t := EvictLoop(s, kept, rounds, io, k);
            exists id :: id in s.records && id !in t.records && t.cached + s.records[id].size > t.limit
    decreases rounds
  {
    var u, t := EvictRound(s, kept, io(k)), EvictLoop(s, kept, rounds, io, k);
    RoundInv(s, kept, io(k));
    RoundRecords(s, kept, io(k));
    if t.records == u.records {
      LoopBytes(u, kept, rounds - 1, io, k + 1);
      LoopLimit(u, kept, rounds - 1, io, k + 1);
      assert s.lru[|s.lru| - 1] !in t.records;
    } else {
      FrugalTheorem(u, kept, rounds - 1, io, k + 1);
    }
  }

  lemma DeleteRecords(s: Store, id: Id, r: Removal)
    requires s.cached == Bytes(s.records)
    ensures var u := DeleteUnlocked(s, id, r).0;
            && u.limit == s.limit
            && (u.records == s.records
                || (id in s.records && u.records == s.records - {id}
                    && u.cached + s.records[id].size == s.cached))
  {
    if id in s.records { BytesWithout(s.records, id); } else { assert s.records - {id} == s.records; }
  }

  lemma RoundRecords(s: Store, kept: Id, r: Removal)
    requires s.cached == Bytes(s.records) && s.lru != []
    ensures var u, victim := EvictRound(s, kept, r), s.lru[|s.lru| - 1];
            && u.limit == s.limit
            && (u.records == s.records
                || (victim in s.records && u.records == s.records - {victim}
                    && u.cached + s.records[victim].size == s.cached))
  {
    DeleteRecords(s, s.lru[|s.lru| - 1], r);
  }

  lemma LoopBytes(s: Store, kept: Id, rounds: nat, io: Disk, k: nat)
    requires Inv(s)
    ensures EvictLoop(s, kept, rounds, io, k).cached == Bytes(EvictLoop(s, kept, rounds, io, k).records)
  {
    LoopInv(s, kept, rounds, io, k);
  }

  // --- what single operations leave behind --------------------------------

  lemma {:induction false} LoopKeeps(s: Store, kept: Id, rounds: nat, io: Disk, k: nat, id: Id)
    requires Spared(s, kept, id) && id in s.records
    ensures var t := EvictLoop(s, kept, rounds, io, k); id in t.records && t.records[id] == s.records[id]
    decreases rounds
  {
    if OverLimit(s) && rounds > 0 {
      LoopKeeps(EvictRound(s, kept, io(k)), kept, rounds - 1, io, k + 1, id);
    }
  }

  /** A committed artifact is on record with the size found, whatever had to make room for
      it; commits never remove the artifact they commit. */
  lemma CommitTheorem(s: Store, r: Request, io: Disk)
    requires Inv(s) && Commit(s, r, io).1.Ok?
    ensures var t := Commit(s, r, io).0;
            && Inspect(s, r.id).Some? && r.id in t.records
            && t.records[r.id] == Record(r.recovery, r.instance, Inspect(s, r.id).value)
            && SameDirectory(s, t, r.id)
  {
    var b := Book(s, r, Inspect(s, r.id).value);
    LoopKeeps(b, r.id, |b.lru|, io, 0, r.id);
    LoopSpares(b, r.id, |b.lru|, io, 0, r.id);
  }

  /** A deferred eviction happens with the last unpin, and only then. */
  lemma DeferredEviction(s: Store, id: Id, evictAfter: bool, io: Disk)
    requires Inv(s) && Pinned(s, id) && (evictAfter || id in s.evict) && io(0) == Removed
    ensures var t := Unpin(s, id, evictAfter, io).0;
            if s.pins[id] == 1
            then id !in t.disk && id !in t.records && id !in t.lru && id !in t.evict && id !in t.pins
            else id in t.evict && SameDirectory(s, t, id) && id in t.records
  {
  }

  lemma {:induction false} DeleteAllOthers(s: Store, ids: seq<Id>, io: Disk, k: nat, id: Id)
    requires id !in ids
    ensures var t := DeleteAll(s, ids, io, k).0;
            && SameDirectory(s, t, id) && (id in t.records <==> id in s.records) && (id in t.evict <==> id in s.evict)
            && (id in s.records ==> t.records[id] == s.records[id])
    decreases |ids|
  {
    if ids != [] {
      DeleteAllOthers(Evict(s, ids[0], io(k)).0, ids[1..], io, k + 1, id);
    }
  }

  lemma {:induction false} DeleteAllDone(s: Store, ids: seq<Id>, io: Disk, k: nat, id: Id)
    requires id in ids && DeleteAll(s, ids, io, k).1.Ok?
    ensures var t := DeleteAll(s, ids, io, k).0;
            if Pinned(s, id) then id in t.evict && Pinned(t, id) else id !in t.records && id !in t.disk
    decreases |ids|
  {
    var u, rest := Evict(s, ids[0], io(k)).0, ids[1..];
    if id in rest {
      DeleteAllDone(u, rest, io, k + 1, id);
    } else {
      DeleteAllOthers(u, rest, io, k + 1, id);
    }
    DeleteAllSpares(u, rest, io, k + 1, id);
  }

  /** Cleaning up after an instance removes its unpinned recovery candidates, marks the
      pinned ones, and leaves every other artifact alone. */
  lemma RecoveryTheorem(s: Store, instance: string, ids: seq<Id>, io: Disk, id: Id)
    requires Possible(s, DoDeleteRecovery(instance, ids, io)) && DeleteRecovery(s, instance, ids, io).1.Ok?
    ensures var t := DeleteRecovery(s, instance, ids, io).0;
            if Candidate(s, instance, id)
            then if Pinned(s, id) then id in t.evict && SameDirectory(s, t, id) else id !in t.records && id !in t.disk
            else SameDirectory(s, t, id) && (id in t.records <==> id in s.records)
  {
    if Candidate(s, instance, id) {
      DeleteAllDone(s, ids, io, 0, id);
      DeleteAllSpares(s, ids, io, 0, id);
    } else {
      DeleteAllOthers(s, ids, io, 0, id);
    }
  }
}
