/** Futures, promises, `Then`, `Associate` and `Collect` as a transition system over a
    heap of futures. One event is one critical section of a future's lock, or the start
    of one callback; what a thread still has to do after it is a task. Tasks of
    different threads interleave freely. */
module Futures {
  import opened Basics

  const KERROR := -1

  type FutId = nat

  datatype Value = Plain(n: int) | List(vs: seq<Value>)

  /** `Failed` never carries the codes 0 (OK) and 1 (still initial). */
  datatype Outcome = Ok(v: Value) | Failed(code: int)

  predicate ValidOutcome(o: Outcome) {
    o.Failed? ==> o.code != 0 && o.code != 1
  }

  /** The callbacks that `OnComplete` registers. `User` is any callback without effect
      on the futures of the model; `k` names a stage function. */
  datatype Callback =
    | User(tag: nat)
    | Complete(dst: FutId)
    | Then(k: nat, dst: FutId)
    | Thenf(k: nat, dst: FutId)
    | Waited(c: nat, j: nat)
    | Discarded(c: nat)

  /** Who settled a future: whoever holds its promise, a caller of the public setters,
      or the `Discarded` loop of collect `c`. */
  datatype Cause = Owner | Outside | Discard(c: nat)

  /** Where the future of a promise comes from. A `Then` future records its source,
      its stage and the number of its registration there. */
  datatype Origin = Root | ThenOf(src: FutId, k: nat, async: bool, idx: nat) | CollectOf(c: nat)

  /** How far the association of a `Then` future with the future returned by its stage is. */
  datatype Assoc = NoAssoc | Asked(g: FutId) | Linking(g: FutId) | Linked(g: FutId, at: nat) | Dropped(g: FutId)

  /** `callbacks` is the list under the lock. The other fields from `regs` on are
      history: every registration in order, how many of them were in the list when
      the future was settled, how many of those have been started, whether the list
      has been cleared, the registrations started so far, and whether the stage
      function of a `Then` future has been called. */
  datatype Cell = Cell(
    outcome: Option<Outcome>, associated: bool, callbacks: seq<Callback>,
    origin: Origin, cause: Cause, assoc: Assoc,
    regs: seq<Callback>, frozen: nat, started: nat, drained: bool, ran: seq<nat>, called: bool)

  function NewCell(origin: Origin): Cell {
    Cell(None, false, [], origin, Owner, NoAssoc, [], 0, 0, false, [], false)
  }

  /** `ready` is the counter; `at` lists the numbers of the `Waited` registrations made
      so far, `discardAt` the one of `Discarded`, `doneOk` the inputs counted. */
  datatype Collected = Collected(
    inputs: seq<FutId>, result: FutId, ready: nat,
    at: seq<nat>, discardAt: Option<nat>, doneOk: set<nat>)

  datatype Task =
    | Done
    | Drain(f: FutId, i: nat)                 // the loop over the callbacks of f
    | Call(f: FutId, k: nat, cb: Callback)    // a callback registered too late, to be called directly
    | SetTo(dst: FutId, o: Outcome)           // a promise passed its test and is about to set
    | Associating(dst: FutId, g: FutId)       // about to take the lock of dst
    | Link(dst: FutId, g: FutId)              // won the association, about to register on g
    | Discarding(c: nat, j: nat)              // the loop of Discarded
    | Collecting(c: nat, j: nat)              // the registration loop of Collect

  /** `stage` gives the stage functions that return a value. */
  datatype State = State(
    stage: (nat, Value) -> Value, cells: seq<Cell>, collects: seq<Collected>, tasks: seq<Task>)

  function Init(stage: (nat, Value) -> Value): State {
    State(stage, [], [], [])
  }

  // --- the critical sections ----------------------------------------------

  function AddTask(s: State, t: Task): State {
    s.(tasks := s.tasks + [t])
  }

  function Become(s: State, t: nat, x: Task): State
    requires t < |s.tasks|
  {
    s.(tasks := s.tasks[t := x])
  }

  function Put(s: State, f: FutId, cell: Cell): State
    requires f < |s.cells|
  {
    s.(cells := s.cells[f := cell])
  }

  /** The first setter wins and then runs the callbacks; the others do nothing. */
  function Settle(s: State, f: FutId, o: Outcome, cause: Cause): State
    requires f < |s.cells|
  {
    var cell := s.cells[f];
    if cell.outcome.Some? then s
    else AddTask(Put(s, f, cell.(outcome := Some(o), cause := cause, frozen := |cell.regs|)), Drain(f, 0))
  }

  function OnComplete(s: State, f: FutId, cb: Callback): State
    requires f < |s.cells|
  {
    var cell := s.cells[f];
    if cell.outcome.None? then Put(s, f, cell.(callbacks := cell.callbacks + [cb], regs := cell.regs + [cb]))
    else AddTask(Put(s, f, cell.(regs := cell.regs + [cb])), Call(f, |cell.regs|, cb))
  }

  /** The test of `Promise::Set` and `Promise::SetFailed`, outside the lock. */
  predicate MayOwnerSet(cell: Cell, o: Outcome) {
    !cell.associated && (o.Ok? ==> cell.outcome.None?)
  }

  function PromiseSet(s: State, dst: FutId, o: Outcome): State
    requires dst < |s.cells|
  {
    if MayOwnerSet(s.cells[dst], o) then AddTask(s, SetTo(dst, o)) else s
  }

  // --- the callbacks ------------------------------------------------------

  /** Every identifier a callback mentions exists. */
  predicate InHeap(s: State, cb: Callback) {
    match cb
    case User(_) => true
    case Complete(dst) => dst < |s.cells|
    case Then(_, dst) => dst < |s.cells|
    case Thenf(_, dst) => dst < |s.cells|
    case Waited(c, _) => c < |s.collects| && s.collects[c].result < |s.cells|
    case Discarded(c) => c < |s.collects|
  }

  /** What `Get` returns: the value, or the default value of a failed future. */
  function Got(s: State, f: FutId): Value {
    if f < |s.cells| && s.cells[f].outcome.Some? && s.cells[f].outcome.value.Ok?
    then s.cells[f].outcome.value.v else Plain(0)
  }

  function Gather(s: State, inputs: seq<FutId>): Value {
    List(seq(|inputs|, i requires 0 <= i < |inputs| => Got(s, inputs[i])))
  }

  function WaitedOk(s: State, c: nat, j: nat): State
    requires c < |s.collects| && s.collects[c].result < |s.cells|
  {
    var join := s.collects[c];
    var t := s.(collects := s.collects[c := join.(ready := join.ready + 1, doneOk := join.doneOk + {j})]);
    if join.ready + 1 == |join.inputs| then PromiseSet(t, join.result, Ok(Gather(s, join.inputs))) else t
  }

  /** What a callback does when it is run for a future with outcome `o`. `g` is the
      future that an asynchronous stage function returns. */
  function Act(s: State, o: Outcome, cb: Callback, g: FutId): State
    requires InHeap(s, cb)
  {
    match cb
    case User(_) => s
    case Complete(dst) => Settle(s, dst, o, Owner)
    case Then(k, dst) =>
      if o.Failed? then PromiseSet(s, dst, o)
      else PromiseSet(Put(s, dst, s.cells[dst].(called := true)), dst, Ok(s.stage(k, o.v)))
    case Thenf(k, dst) =>
      if o.Failed? then PromiseSet(s, dst, o)
      else AddTask(Put(s, dst, s.cells[dst].(called := true, assoc := Asked(g))), Associating(dst, g))
    case Waited(c, j) =>
      if o.Failed? then PromiseSet(s, s.collects[c].result, o) else WaitedOk(s, c, j)
    case Discarded(c) => AddTask(s, Discarding(c, 0))
  }

  // --- what threads do next ------------------------------------------------

  predicate TaskEnabled(s: State, t: nat, g: FutId) {
    && t < |s.tasks|
    && g < |s.cells|
    && match s.tasks[t]
       case Done => false
       case Drain(f, i) =>
         f < |s.cells| && s.cells[f].outcome.Some?
         && (i < |s.cells[f].callbacks| ==> InHeap(s, s.cells[f].callbacks[i]))
       case Call(f, k, cb) => f < |s.cells| && s.cells[f].outcome.Some? && InHeap(s, cb)
       case SetTo(dst, _) => dst < |s.cells|
       case Associating(dst, h) => dst < |s.cells| && h < |s.cells|
       case Link(dst, h) => dst < |s.cells| && h < |s.cells|
       case Discarding(c, j) =>
         c < |s.collects| && (j < |s.collects[c].inputs| ==> s.collects[c].inputs[j] < |s.cells|)
       case Collecting(c, j) =>
         c < |s.collects| && s.collects[c].result < |s.cells|
         && (j < |s.collects[c].inputs| ==> s.collects[c].inputs[j] < |s.cells|)
  }

  /** The loop takes its next callback: it is counted as started and the loop advances. */
  function TakeNext(s: State, t: nat): State
    requires t < |s.tasks| && s.tasks[t].Drain? && s.tasks[t].f < |s.cells|
  {
    var f, i := s.tasks[t].f, s.tasks[t].i;
    var cell := s.cells[f];
    Become(Put(s, f, cell.(started := cell.started + 1, ran := cell.ran + [i])), t, Drain(f, i + 1))
  }

  function Clear(s: State, t: nat): State
    requires t < |s.tasks| && s.tasks[t].Drain? && s.tasks[t].f < |s.cells|
  {
    var f := s.tasks[t].f;
    Become(Put(s, f, s.cells[f].(callbacks := [], drained := true)), t, Done)
  }

  function TakeLate(s: State, t: nat): State
    requires t < |s.tasks| && s.tasks[t].Call? && s.tasks[t].f < |s.cells|
  {
    var f, k := s.tasks[t].f, s.tasks[t].k;
    Become(Put(s, f, s.cells[f].(ran := s.cells[f].ran + [k])), t, Done)
  }

  function Associate(s: State, t: nat): State
    requires t < |s.tasks| && s.tasks[t].Associating? && s.tasks[t].dst < |s.cells|
  {
    var dst, g := s.tasks[t].dst, s.tasks[t].g;
    var cell := s.cells[dst];
    if cell.outcome.None? && !cell.associated
    then Become(Put(s, dst, cell.(associated := true, assoc := Linking(g))), t, Link(dst, g))
    else Become(Put(s, dst, cell.(assoc := Dropped(g))), t, Done)
  }

  function LinkTo(s: State, t: nat): State
    requires t < |s.tasks| && s.tasks[t].Link? && s.tasks[t].dst < |s.cells| && s.tasks[t].g < |s.cells|
  {
    var dst, g := s.tasks[t].dst, s.tasks[t].g;
    var at := |s.cells[g].regs|;
    OnComplete(Become(Put(s, dst, s.cells[dst].(assoc := Linked(g, at))), t, Done), g, Complete(dst))
  }

  function DiscardNext(s: State, t: nat): State
    requires TaskEnabled(s, t, 0) && s.tasks[t].Discarding?
  {
    var c, j := s.tasks[t].c, s.tasks[t].j;
    var join := s.collects[c];
    if j < |join.inputs|
    then Become(Settle(s, join.inputs[j], Failed(KERROR), Discard(c)), t, Discarding(c, j + 1))
    else Become(s, t, Done)
  }

  function CollectNext(s: State, t: nat): State
    requires TaskEnabled(s, t, 0) && s.tasks[t].Collecting?
  {
    var c, j := s.tasks[t].c, s.tasks[t].j;
    var join := s.collects[c];
    if j < |join.inputs| then
      var at := |s.cells[join.inputs[j]].regs|;
      OnComplete(Become(s.(collects := s.collects[c := join.(at := join.at + [at])]), t, Collecting(c, j + 1)),
                 join.inputs[j], Waited(c, j))
    else
      var at := |s.cells[join.result].regs|;
      OnComplete(Become(s.(collects := s.collects[c := join.(discardAt := Some(at))]), t, Done),
                 join.result, Discarded(c))
  }

  function TaskStep(s: State, t: nat, g: FutId): State
    requires TaskEnabled(s, t, g)
  {
    match s.tasks[t]
    case Drain(f, i) =>
      if i < |s.cells[f].callbacks|
      then Act(TakeNext(s, t), s.cells[f].outcome.value, s.cells[f].callbacks[i], g)
      else Clear(s, t)
    case Call(f, k, cb) => Act(TakeLate(s, t), s.cells[f].outcome.value, cb, g)
    case SetTo(dst, o) => Settle(Become(s, t, Done), dst, o, Owner)
    case Associating(_, _) => Associate(s, t)
    case Link(_, _) => LinkTo(s, t)
    case Discarding(_, _) => DiscardNext(s, t)
    case Collecting(_, _) => CollectNext(s, t)
  }

  // --- the events ---------------------------------------------------------

  /** `SetFuture` is a public setter of a future; `SetPromise` and `JoinPromise` are
      setters of a promise that its creator kept, so they concern root futures only. */
  datatype Event =
    | New
    | Register(f: FutId, tag: nat)
    | SetFuture(f: FutId, o: Outcome)
    | SetPromise(f: FutId, o: Outcome)
    | JoinPromise(f: FutId, g: FutId)
    | CallThen(f: FutId, k: nat, async: bool)
    | CallCollect(inputs: seq<FutId>)
    | Step(t: nat, g: FutId)

  predicate Enabled(s: State, e: Event) {
    match e
    case New => true
    case Register(f, _) => f < |s.cells|
    case SetFuture(f, o) => f < |s.cells| && ValidOutcome(o)
    case SetPromise(f, o) => f < |s.cells| && s.cells[f].origin.Root? && ValidOutcome(o)
    case JoinPromise(f, g) => f < |s.cells| && g < |s.cells| && s.cells[f].origin.Root?
    case CallThen(f, _, _) => f < |s.cells|
    case CallCollect(inputs) => forall i | 0 <= i < |inputs| :: inputs[i] < |s.cells|
    case Step(t, g) => TaskEnabled(s, t, g)
  }

  function Alloc(s: State, origin: Origin): State {
    s.(cells := s.cells + [NewCell(origin)])
  }

  function ThenCallback(k: nat, async: bool, dst: FutId): Callback {
    if async then Thenf(k, dst) else Then(k, dst)
  }

  function Apply(s: State, e: Event): State
    requires Enabled(s, e)
  {
    match e
    case New => Alloc(s, Root)
    case Register(f, tag) => OnComplete(s, f, User(tag))
    case SetFuture(f, o) => Settle(s, f, o, Outside)
    case SetPromise(f, o) => PromiseSet(s, f, o)
    case JoinPromise(f, g) => AddTask(s, Associating(f, g))
    case CallThen(f, k, async) =>
      var dst := |s.cells|;
      OnComplete(Alloc(s, ThenOf(f, k, async, |s.cells[f].regs|)), f, ThenCallback(k, async, dst))
    case CallCollect(inputs) =>
      if inputs == [] then
        Settle(Alloc(s, Root), |s.cells|, Ok(List([])), Owner)
      else
        var c := |s.collects|;
        AddTask(Alloc(s, CollectOf(c)).(collects := s.collects + [Collected(inputs, |s.cells|, 0, [], None, {})]),
                Collecting(c, 0))
    case Step(t, g) => TaskStep(s, t, g)
  }

  ghost predicate Possible(s: State, es: seq<Event>)
    decreases |es|
  {
    es == [] || (Enabled(s, es[0]) && Possible(Apply(s, es[0]), es[1..]))
  }

  ghost function Run(s: State, es: seq<Event>): State
    requires Possible(s, es)
    decreases |es|
  {
    if es == [] then s else Run(Apply(s, es[0]), es[1..])
  }
}
