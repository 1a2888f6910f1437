/** The shared data of a future and of a collect, updated in place. Each method is one
    critical section or one loop; its contract ties it to the transition system. */
module FutureObjects {
  import opened Basics
  import opened Futures

  const KOK := 0
  const KINIT := 1

  /** The transition system on a single future. */
  ghost function One(cell: Cell): State {
    State((k, v) => v, [cell], [], [])
  }

  class FutureData {
    var status: int
    var value: Value
    var associated: bool
    var abandoned: bool
    var onComplete: seq<Callback>
    var onAbandoned: seq<nat>

    /** A failed future has the default value: status and value come from one setter.
        Nobody waits for an abandonment that has happened. */
    ghost predicate Valid()
      reads this
    {
      && (status != KOK ==> value == Plain(0))
      && (abandoned ==> onAbandoned == [])
    }

    ghost function Outcome(): Option<Outcome>
      reads this
    {
      if status == KINIT then None else if status == KOK then Some(Ok(value)) else Some(Failed(status))
    }

    ghost predicate Represents(cell: Cell)
      reads this
    {
      cell.outcome == Outcome() && cell.associated == associated && cell.callbacks == onComplete
    }

    /** A future of its own counts as abandoned; that of a promise does not. */
    constructor (ofPromise: bool)
      ensures Valid() && abandoned == !ofPromise && onAbandoned == []
      ensures forall origin :: Represents(NewCell(origin))
    {
      status, value, associated, abandoned, onComplete, onAbandoned := KINIT, Plain(0), false, !ofPromise, [], [];
    }

    method OnComplete(cb: Callback) returns (call: bool)
      requires Valid()
      modifies this`onComplete
      ensures Valid() && call == (status != KINIT)
      ensures forall cell :: old(Represents(cell)) ==>
                var u := Futures.OnComplete(One(cell), 0, cb);
                Represents(u.cells[0]) && u.tasks == if call then [Call(0, |cell.regs|, cb)] else []
    {
      call := false;
      if status == KINIT {
        onComplete := onComplete + [cb];
      } else {
        call := true;
      }
    }

    method Set(v: Value) returns (call: bool)
      requires Valid()
      modifies this`status, this`value
      ensures Valid() && Outcome().Some?
      ensures call == (old(status) == KINIT)
      ensures if call then Outcome() == Some(Ok(v)) else Outcome() == old(Outcome())
      ensures forall cell, cause :: old(Represents(cell)) ==>
                var u := Settle(One(cell), 0, Ok(v), cause);
                Represents(u.cells[0]) && u.tasks == if call then [Drain(0, 0)] else []
    {
      call := false;
      if status == KINIT {
        status, value := KOK, v;
        call := true;
      }
    }

    method SetFailed(code: int) returns (call: bool)
      requires Valid() && code != KINIT && code != KOK
      modifies this`status, this`value
      ensures Valid() && Outcome().Some?
      ensures call == (old(status) == KINIT)
      ensures if call then Outcome() == Some(Failed(code)) else Outcome() == old(Outcome())
      ensures forall cell, cause :: old(Represents(cell)) ==>
                var u := Settle(One(cell), 0, Failed(code), cause);
                Represents(u.cells[0]) && u.tasks == if call then [Drain(0, 0)] else []
    {
      call := false;
      if status == KINIT {
        status, value := code, Plain(0);
        call := true;
      }
    }

    /** Runs the pending callbacks in order, then clears both lists. */
    method RunCallbacks() returns (ran: seq<Callback>)
      requires Valid() && status != KINIT
      modifies this`onComplete, this`onAbandoned
      ensures Valid() && ran == old(onComplete) && onAbandoned == []
      ensures forall cell :: old(Represents(cell)) ==> Represents(cell.(callbacks := [], drained := true))
    {
      ran := [];
      var i := 0;
      while i < |onComplete|
        invariant i <= |onComplete| && onComplete == old(onComplete) && ran == onComplete[..i]
        invariant onAbandoned == old(onAbandoned)
      {
        ran := ran + [onComplete[i]];
        i := i + 1;
      }
      onComplete, onAbandoned := [], [];
    }

    method OnAbandoned(cb: nat) returns (call: bool)
      requires Valid()
      modifies this`onAbandoned
      ensures Valid() && call == abandoned
      ensures onAbandoned == if !abandoned && status == KINIT then old(onAbandoned) + [cb] else old(onAbandoned)
    {
      call := false;
      if abandoned {
        call := true;
      } else if status == KINIT {
        onAbandoned := onAbandoned + [cb];
      }
    }

    /** Abandons an unsettled future once; every waiting callback is taken exactly then. */
    method Abandon(force: bool) returns (ran: seq<nat>)
      requires Valid()
      modifies this`abandoned, this`onAbandoned
      ensures Valid()
      ensures var goes := !old(abandoned) && status == KINIT && (!associated || force);
              && abandoned == (old(abandoned) || goes)
              && ran == (if goes then old(onAbandoned) else [])
              && ran + onAbandoned == old(onAbandoned)
    {
      var taken := [];
      if !abandoned && status == KINIT && (!associated || force) {
        abandoned := true;
        taken, onAbandoned := onAbandoned, [];
      }
      ran := [];
      var i := 0;
      while i < |taken|
        invariant i <= |taken| && ran == taken[..i]
      {
        ran := ran + [taken[i]];
        i := i + 1;
      }
    }

    /** The locked part of associating a promise: at most one caller ever wins. */
    method TryAssociate() returns (won: bool)
      requires Valid()
      modifies this`associated
      ensures Valid() && won == (status == KINIT && !old(associated))
      ensures associated == (old(associated) || won)
      ensures forall cell, g :: old(Represents(cell)) ==>
                var u := Associate(One(cell).(tasks := [Associating(0, g)]), 0);
                Represents(u.cells[0]) && u.tasks == [if won then Link(0, g) else Done]
    {
      won := false;
      if status == KINIT && !associated {
        won := true;
        associated := true;
      }
    }
  }

  class Collected {
    const futures: seq<FutureData>
    const result: FutureData
    var ready: nat

    ghost predicate Valid()
      reads this, result, futures
    {
      && result !in futures && result.Valid()
      && forall f | f in futures :: f.Valid()
    }

    constructor (fs: seq<FutureData>, r: FutureData)
      requires r !in fs && r.Valid() && forall f | f in fs :: f.Valid()
      ensures Valid() && futures == fs && result == r && ready == 0
    {
      futures, result, ready := fs, r, 0;
    }

    /** Fails every input that is still pending, in order; a future may be listed twice. */
    method Discarded()
      requires Valid()
      modifies futures
      ensures Valid()
      ensures forall f | f in futures ::
                f.Outcome() == if old(f.Outcome()).Some? then old(f.Outcome()) else Some(Failed(KERROR))
      ensures forall f | f in futures :: f.onComplete == old(f.onComplete) && f.associated == old(f.associated)
    {
      var i := 0;
      while i < |futures|
        invariant i <= |futures| && Valid()
        invariant forall f | f in futures ::
                    f.Outcome() == if old(f.Outcome()).Some? then old(f.Outcome())
                                   else if f in futures[..i] then Some(Failed(KERROR)) else None
        invariant forall f | f in futures :: f.onComplete == old(f.onComplete) && f.associated == old(f.associated)
      {
        assert futures[..i + 1] == futures[..i] + [futures[i]];
        var _ := futures[i].SetFailed(KERROR);
        i := i + 1;
      }
    }

    /** What `Get` yields for every input, in list order. */
    method Values() returns (vs: seq<Value>)
      requires Valid()
      ensures |vs| == |futures| && forall j | 0 <= j < |futures| :: vs[j] == futures[j].value
    {
      vs := [];
      var i := 0;
      while i < |futures|
        invariant i <= |futures| && |vs| == i
        invariant forall j | 0 <= j < i :: vs[j] == futures[j].value
      {
        vs := vs + [futures[i].value];
        i := i + 1;
      }
    }

    /** Counts an OK input; the last one, and any failure, tries to settle the result. */
    method Waited(f: FutureData) returns (won: bool)
      requires Valid() && f in futures && f.status != KINIT
      modifies this`ready, result`status, result`value
      ensures Valid()
      ensures f.status != KOK ==> ready == old(ready)
      ensures f.status == KOK ==> ready == old(ready) + 1
      ensures old(result.Outcome()).Some? || result.associated ==> result.Outcome() == old(result.Outcome())
      ensures old(result.Outcome()).None? && !result.associated ==>
                if f.status != KOK then result.Outcome() == Some(Failed(f.status))
                else if ready != |futures| then result.Outcome().None?
                else && result.status == KOK && result.value.List? && |result.value.vs| == |futures|
                     && forall j | 0 <= j < |futures| :: result.value.vs[j] == futures[j].value
      ensures won ==> old(result.Outcome()).None? && result.Outcome().Some?
    {
      won := false;
      if f.status != KOK {
        if !result.associated {
          won := result.SetFailed(f.status);
        }
      } else {
        ready := ready + 1;
        if ready == |futures| {
          var values := Values();
          if result.status == KINIT && !result.associated {
            won := result.Set(List(values));
          }
        }
      }
    }
  }
}
