/** The physical finalization of a snapshot attempt: local delete, confirmed stop of the
    runtime, then the remote keys one after the other. Every step is one handler. */
module FinalizeChain {
  import opened Basics
  import opened StatusCodes

  type Name = nat
  type Address = (Name, Name)

  const EMPTY: Name := 0

  datatype Request = Request(
    versionOk: bool, attempt: Name, snapshot: Name, deleteLocal: bool,
    deleteRuntime: bool, runtime: Name, keys: seq<Name>)

  /** How the deletion of one remote key went. */
  datatype Deletion = Broken | Deleted | Refused(code: Code)

  predicate Accepted(d: Deletion) {
    d.Deleted? || d == Refused(FILE_NOT_FOUND) || d == Refused(BP_DATASYSTEM_ERROR)
  }

  predicate ValidDeletion(d: Deletion) {
    d.Refused? ==> d.code != SUCCESS
  }

  datatype Reply = Reply(code: Code, unknown: bool, localComplete: bool, remoteComplete: bool)

  /** What a handler does next for the caller of the attempt. */
  datatype Action = Answer(reply: Reply) | AwaitStop | DeleteKey(i: nat)

  datatype Config = Config(
    scheduler: Address, distributed: bool, hasStore: bool, hasStorage: bool,
    manager: Address, registered: bool, complete: bool)

  predicate Invalid(c: Config, q: Request) {
    || !q.versionOk || q.attempt == EMPTY || q.snapshot == EMPTY
    || (q.deleteRuntime && q.runtime == EMPTY)
    || (q.deleteLocal && !c.hasStore)
    || (c.distributed && q.keys != [] && !c.hasStorage)
  }

  /** `local` is the error of the local delete, if it failed. */
  function Begin(c: Config, q: Request, local: Option<Code>): Action {
    if Invalid(c, q) then Answer(Reply(ERR_PARAM_INVALID, false, false, false))
    else if q.deleteLocal && local.Some? then Answer(Reply(local.value, false, false, false))
    else if q.deleteRuntime then
      if !c.registered || !c.complete then Answer(Reply(FUNC_AGENT_NOT_REGISTERED, false, true, false)) else AwaitStop
    else NextKey(c, q, 0)
  }

  function NextKey(c: Config, q: Request, i: nat): Action {
    if !c.distributed || i >= |q.keys| then Answer(Reply(SUCCESS, false, true, true)) else DeleteKey(i)
  }

  function AfterStop(c: Config, q: Request, code: Code): Action {
    if StopConfirmed(code) then NextKey(c, q, 0) else Answer(Reply(code, ResultUnknown(code), false, false))
  }

  function AfterDelete(c: Config, q: Request, i: nat, d: Deletion): Action {
    if Accepted(d) then NextKey(c, q, i + 1)
    else Answer(Reply(if d.Broken? then ERR_INNER_COMMUNICATION else d.code, d.Broken?, true, false))
  }

  // --- whole chains -------------------------------------------------------

  datatype Phase = Waiting | Deleting(i: nat) | Replied(reply: Reply)

  /** One accepted finalize message. `local`, `stop` and `tried` record what has been done
      for it: whether the local delete succeeded, who confirmed the stop of which runtime
      while which manager was registered, and every remote key with its outcome. */
  datatype Chain = Chain(
    caller: Address, request: Request, phase: Phase,
    local: bool, stop: Option<Stop>, tried: seq<(Name, Deletion)>)

  datatype Stop = Stop(from: Address, manager: Address, runtime: Name, code: Code)

  /** `stops` maps an attempt to the chain that waits for its stop; `sent` lists the chains
      that have been answered. */
  datatype State = State(config: Config, stops: map<Name, nat>, chains: seq<Chain>, sent: seq<nat>)

  datatype Event =
    | Finalize(from: Address, q: Request, local: Option<Code>)
    | StopAnswer(from: Address, attempt: Name, runtime: Name, code: Code)
    | KeyDone(c: nat, d: Deletion)
    | Manager(address: Address, registered: bool, complete: bool)

  ghost predicate Enabled(s: State, e: Event) {
    match e
    case Finalize(_, _, local) => local != Some(SUCCESS)
    case KeyDone(c, d) => c < |s.chains| && s.chains[c].phase.Deleting? && ValidDeletion(d)
    case _ => true
  }

  function PhaseOf(a: Action): Phase {
    match a
    case Answer(r) => Replied(r)
    case AwaitStop => Waiting
    case DeleteKey(i) => Deleting(i)
  }

  /** Chain `c` takes its next action. */
  function Act(s: State, c: nat, chain: Chain, a: Action): State
    requires c <= |s.chains|
  {
    var next := chain.(phase := PhaseOf(a));
    s.(chains := if c < |s.chains| then s.chains[c := next] else s.chains + [next],
       stops := if a.AwaitStop? then s.stops[chain.request.attempt := c] else s.stops,
       sent := if a.Answer? then s.sent + [c] else s.sent)
  }

  function Apply(s: State, e: Event): State
    requires Enabled(s, e)
  {
    match e
    case Finalize(from, q, local) =>
      if from != s.config.scheduler then s
      else
        var done := !Invalid(s.config, q) && q.deleteLocal && local.None?;
        Act(s, |s.chains|, Chain(from, q, Waiting, done, None, []), Begin(s.config, q, local))
    case StopAnswer(from, attempt, runtime, code) =>
      if attempt !in s.stops || s.stops[attempt] >= |s.chains| then s
      else
        var c := s.stops[attempt];
        var chain := s.chains[c];
        if from != s.config.manager || runtime != chain.request.runtime then s
        else Act(s.(stops := s.stops - {attempt}), c,
                 chain.(stop := Some(Stop(from, s.config.manager, runtime, code))),
                     AfterStop(s.config, chain.request, code))
    case KeyDone(c, d) =>
      var chain := s.chains[c];
      var i := chain.phase.i;
      if i >= |chain.request.keys| then s
      else Act(s, c, chain.(tried := chain.tried + [(chain.request.keys[i], d)]),
          AfterDelete(s.config, chain.request, i, d))
    case Manager(address, registered, complete) =>
      s.(config := s.config.(manager := address, registered := registered, complete := complete))
  }

  function Init(config: Config): State {
    State(config, map[], [], [])
  }

  ghost predicate Possible(s: State, es: seq<Event>)
    decreases |es|
  {
    es == [] || (Enabled(s, es[0]) && Possible(Apply(s, es[0]), es[1..]))
  }

  ghost function Run(s: State, es: seq<Event>): State
    requires Possible(s, es)
    decreases |es|
  {
    if es == [] then s else Run(Apply(s, es[0]), es[1..])
  }

  // --- invariant ----------------------------------------------------------

  /** What has been done for the chain before its remote keys. */
  ghost predicate Prepared(chain: Chain) {
    && (chain.request.deleteLocal ==> chain.local)
    && (chain.request.deleteRuntime ==>
          chain.stop.Some? && chain.stop.value.from == chain.stop.value.manager
              && chain.stop.value.runtime == chain.request.runtime
          && StopConfirmed(chain.stop.value.code))
  }

  /** The first `n` keys have been tried in order, each once, and accepted. */
  ghost predicate AcceptedUpTo(chain: Chain, n: nat) {
    && n <= |chain.tried| <= |chain.request.keys|
    && (forall i | 0 <= i < |chain.tried| :: chain.tried[i].0 == chain.request.keys[i])
    && (forall i | 0 <= i < n :: Accepted(chain.tried[i].1))
  }

  ghost predicate ChainOk(distributed: bool, chain: Chain) {
    match chain.phase
    case Waiting => chain.tried == [] && chain.stop.None? && chain.request.deleteRuntime
        && (chain.request.deleteLocal ==> chain.local)
    case Deleting(i) =>
      distributed && Prepared(chain) && i < |chain.request.keys| && |chain.tried| == i && AcceptedUpTo(chain, i)
    case Replied(r) =>
      if r.code == SUCCESS then
        Prepared(chain) && AcceptedUpTo(chain, |chain.tried|)
            && |chain.tried| == (if distributed then |chain.request.keys| else 0)
        && r == Reply(SUCCESS, false, true, true)
      else
        !r.remoteComplete
        && if chain.tried == [] then
             chain.stop.Some? ==>
               && !StopConfirmed(chain.stop.value.code)
               && r == Reply(chain.stop.value.code, ResultUnknown(chain.stop.value.code), false, false)
           else
             && Prepared(chain) && AcceptedUpTo(chain, |chain.tried| - 1)
             && !Accepted(chain.tried[|chain.tried| - 1].1) && r == HardFailure(chain.tried[|chain.tried| - 1].1)
  }

  /** The reply for a remote key that could not be deleted. */
  ghost function HardFailure(d: Deletion): Reply {
    match d
    case Broken => Reply(ERR_INNER_COMMUNICATION, true, true, false)
    case Refused(code) => Reply(code, false, true, false)
    case Deleted => Reply(SUCCESS, false, true, true)
  }

  ghost predicate Inv(s: State) {
    && (forall c | 0 <= c < |s.chains| :: ChainOk(s.config.distributed, s.chains[c]))
    && (forall c | 0 <= c < |s.chains| :: multiset(s.sent)[c] == if s.chains[c].phase.Replied? then 1 else 0)
    && (forall c | c in s.sent :: c < |s.chains|)
    && (forall a | a in s.stops :: s.stops[a] < |s.chains| && s.chains[s.stops[a]].phase.Waiting?
                                   && s.chains[s.stops[a]].request.attempt == a)
  }

  lemma ActInv(s: State, c: nat, chain: Chain, a: Action)
    requires Inv(s) && c <= |s.chains| && ChainOk(s.config.distributed, chain.(phase := PhaseOf(a)))
    requires c < |s.chains| ==> !s.chains[c].phase.Replied? && forall x | x in s.stops :: s.stops[x] != c
    ensures Inv(Act(s, c, chain, a))
  {
    var t := Act(s, c, chain, a);
    assert c !in s.sent by { if c < |s.chains| { assert multiset(s.sent)[c] == 0; } }
    forall d | 0 <= d < |t.chains| ensures multiset(t.sent)[d] == if t.chains[d].phase.Replied? then 1 else 0 {
      assert multiset(t.sent)[d] == multiset(s.sent)[d] + if a.Answer? && d == c then 1 else 0;
    }
  }

  lemma BeginInv(s: State, from: Address, q: Request, local: Option<Code>)
    requires Inv(s) && local != Some(SUCCESS)
    ensures Inv(Apply(s, Finalize(from, q, local)))
  {
    if from == s.config.scheduler {
      var done := !Invalid(s.config, q) && q.deleteLocal && local.None?;
      var chain := Chain(from, q, Waiting, done, None, []);
      ActInv(s, |s.chains|, chain, Begin(s.config, q, local));
    }
  }

  lemma StopInv(s: State, from: Address, attempt: Name, runtime: Name, code: Code)
    requires Inv(s)
    ensures Inv(Apply(s, StopAnswer(from, attempt, runtime, code)))
  {
    if attempt in s.stops && s.stops[attempt] < |s.chains| {
      var c := s.stops[attempt];
      var chain := s.chains[c];
      if from == s.config.manager && runtime == chain.request.runtime {
        var t := s.(stops := s.stops - {attempt});
        assert ChainOk(s.config.distributed, chain);
        ActInv(t, c, chain.(stop := Some(Stop(from, s.config.manager, runtime, code))),
            AfterStop(s.config, chain.request, code));
      }
    }
  }

  /** An answer to a stop does something only if it comes from the registered manager and
      names the runtime of a chain that waits; that chain goes on and the others still wait. */
  lemma StopMeaning(s: State, from: Address, attempt: Name, runtime: Name, code: Code)
    requires Inv(s)
    ensures var t := Apply(s, StopAnswer(from, attempt, runtime, code));
            if attempt in s.stops && from == s.config.manager && runtime == s.chains[s.stops[attempt]].request.runtime
            then
              var c := s.stops[attempt];
              && t.stops == s.stops - {attempt} && t.config == s.config && |t.chains| == |s.chains|
              && t.chains[c].phase == PhaseOf(AfterStop(s.config, s.chains[c].request, code))
              && (forall a | a in t.stops :: t.chains[t.stops[a]] == s.chains[s.stops[a]])
            else t == s
  {
  }

  lemma KeyInv(s: State, c: nat, d: Deletion)
    requires Inv(s) && Enabled(s, KeyDone(c, d))
    ensures Inv(Apply(s, KeyDone(c, d)))
  {
    var chain := s.chains[c];
    var i := chain.phase.i;
    assert ChainOk(s.config.distributed, chain);
    var next := chain.(tried := chain.tried + [(chain.request.keys[i], d)]);
    var a := AfterDelete(s.config, chain.request, i, d);
    assert ChainOk(s.config.distributed, next.(phase := PhaseOf(a)));
    ActInv(s, c, next, a);
  }

  /** The next key follows an accepted result only, and success after key `i` means that
      every key was tried once, in order, and accepted. */
  lemma KeyMeaning(s: State, c: nat, d: Deletion)
    requires Inv(s) && Enabled(s, KeyDone(c, d))
    ensures var q, t := s.chains[c].request, Apply(s, KeyDone(c, d));
            var a := AfterDelete(s.config, q, s.chains[c].phase.i, d);
            && |t.chains| == |s.chains| && t.chains[c].request == q && t.chains[c].phase == PhaseOf(a)
            && (a.DeleteKey? ==> Accepted(d) && a.i == s.chains[c].phase.i + 1 < |q.keys|)
            && (a == Answer(Reply(SUCCESS, false, true, true)) ==>
                  |t.chains[c].tried| == |q.keys|
                  && forall k | 0 <= k < |q.keys| ::
                        t.chains[c].tried[k].0 == q.keys[k] && Accepted(t.chains[c].tried[k].1))
            && (a.Answer? && a.reply.code != SUCCESS ==> !Accepted(d) && !a.reply.remoteComplete)
  {
    KeyInv(s, c, d);
    assert ChainOk(s.config.distributed, s.chains[c]);
    assert ChainOk(s.config.distributed, Apply(s, KeyDone(c, d)).chains[c]);
  }

  lemma StepInv(s: State, e: Event)
    requires Inv(s) && Enabled(s, e)
    ensures Inv(Apply(s, e))
  {
    match e
    case Finalize(from, q, local) => BeginInv(s, from, q, local);
    case StopAnswer(from, attempt, runtime, code) => StopInv(s, from, attempt, runtime, code);
    case KeyDone(c, d) => KeyInv(s, c, d);
    case Manager(_, _, _) =>
  }

  lemma {:induction false} RunInv(s: State, es: seq<Event>)
    requires Inv(s) && Possible(s, es)
    ensures Inv(Run(s, es)) && Run(s, es).config.distributed == s.config.distributed
    decreases |es|
  {
    if es != [] {
      StepInv(s, es[0]);
      RunInv(Apply(s, es[0]), es[1..]);
    }
  }

  // --- which chains there are ---------------------------------------------

  /** What is asked of the agent: the messages of the scheduler, in order. */
  ghost function Asked(scheduler: Address, es: seq<Event>): seq<(Address, Request)> {
    if es == [] then []
    else (if es[0].Finalize? && es[0].from == scheduler then [(es[0].from, es[0].q)] else [])
         + Asked(scheduler, es[1..])
  }

  ghost function Heads(s: State): seq<(Address, Request)> {
    seq(|s.chains|, c requires 0 <= c < |s.chains| => (s.chains[c].caller, s.chains[c].request))
  }

  lemma StepHeads(s: State, e: Event)
    requires Enabled(s, e)
    ensures Apply(s, e).config.scheduler == s.config.scheduler
    ensures Heads(Apply(s, e)) ==
            Heads(s) + if e.Finalize? && e.from == s.config.scheduler then [(e.from, e.q)] else []
  {
  }

  lemma HeadOfRun(s: State, es: seq<Event>)
    requires es != [] && Enabled(s, es[0])
    ensures Heads(Apply(s, es[0])) + Asked(s.config.scheduler, es[1..]) == Heads(s) + Asked(s.config.scheduler, es)
    ensures Apply(s, es[0]).config.scheduler == s.config.scheduler
  {
    StepHeads(s, es[0]);
  }

  lemma {:induction false} RunHeads(s: State, es: seq<Event>)
    requires Possible(s, es)
    ensures Heads(Run(s, es)) == Heads(s) + Asked(s.config.scheduler, es)
    decreases |es|
  {
    if es == [] {
      assert Heads(s) + [] == Heads(s);
    } else {
      HeadOfRun(s, es);
      RunHeads(Apply(s, es[0]), es[1..]);
    }
  }

  /** There is one chain for each finalize message of the scheduler, in order, with that
      message and that caller for good; messages of others start nothing. */
  lemma ChainsTheorem(config: Config, es: seq<Event>)
    requires Possible(Init(config), es)
    ensures Heads(Run(Init(config), es)) == Asked(config.scheduler, es)
  {
    RunHeads(Init(config), es);
  }

  /** What the last registration or loss of the runtime manager left. */
  ghost function LastManager(es: seq<Event>, before: Config): Config {
    if es == [] then before
    else LastManager(es[1..], if es[0].Manager?
                              then before.(manager := es[0].address, registered := es[0].registered,
                                           complete := es[0].complete)
                              else before)
  }

  /** Over any run the agent knows the runtime manager as the last such event left it, and
      nothing else of its settings changes. */
  lemma {:induction false} ConfigTheorem(s: State, es: seq<Event>)
    requires Possible(s, es)
    ensures Run(s, es).config == LastManager(es, s.config)
    decreases |es|
  {
    if es != [] { ConfigTheorem(Apply(s, es[0]), es[1..]); }
  }

  /** Where a finalize message leads at once: to a refusal that says why, to the stop of its
      runtime, to its first remote key, or to success if there is none. */
  ghost function First(c: Config, q: Request, local: Option<Code>): Action {
    if !q.versionOk || q.attempt == EMPTY || q.snapshot == EMPTY || (q.deleteRuntime && q.runtime == EMPTY)
       || (q.deleteLocal && !c.hasStore) || (c.distributed && q.keys != [] && !c.hasStorage)
    then Answer(Reply(ERR_PARAM_INVALID, false, false, false))
    else if q.deleteLocal && local.Some? then Answer(Reply(local.value, false, false, false))
    else if q.deleteRuntime && (!c.registered || !c.complete)
    then Answer(Reply(FUNC_AGENT_NOT_REGISTERED, false, true, false))
    else if q.deleteRuntime then AwaitStop
    else if c.distributed && q.keys != [] then DeleteKey(0)
    else Answer(Reply(SUCCESS, false, true, true))
  }

  lemma FirstAnswer(s: State, q: Request, local: Option<Code>)
    requires local != Some(SUCCESS)
    ensures var t := Apply(s, Finalize(s.config.scheduler, q, local));
            var c, a := |s.chains|, First(s.config, q, local);
            && |t.chains| == c + 1 && t.chains[..c] == s.chains && t.config == s.config
            && t.chains[c].phase == PhaseOf(a) && a == Begin(s.config, q, local)
            && t.stops == (if a.AwaitStop? then s.stops[q.attempt := c] else s.stops)
            && t.sent == s.sent + if a.Answer? then [c] else []
  {
    assert s.sent + [] == s.sent;
  }

  // --- what a success reply means -----------------------------------------

  /** A chain that was answered with success did everything that was asked of it, in order
      and once; one that was answered with an error stopped at its first hard failure. No
      chain is answered twice, and none tries more keys than it was given. */
  lemma FinalizeTheorem(config: Config, es: seq<Event>, c: nat)
    requires Possible(Init(config), es) && c < |Run(Init(config), es).chains|
    ensures var s := Run(Init(config), es);
            var chain := s.chains[c];
            && multiset(s.sent)[c] == (if chain.phase.Replied? then 1 else 0)
            && |chain.tried| <= |chain.request.keys|
            && (chain.phase.Replied? && chain.phase.reply.code == SUCCESS ==>
                  && (chain.request.deleteLocal ==> chain.local)
                  && (chain.request.deleteRuntime ==>
                        chain.stop.Some? && chain.stop.value.from == chain.stop.value.manager
                        && chain.stop.value.runtime == chain.request.runtime && StopConfirmed(chain.stop.value.code))
                  && |chain.tried| == (if config.distributed then |chain.request.keys| else 0)
                  && (forall i | 0 <= i < |chain.tried| ::
                        chain.tried[i].0 == chain.request.keys[i] && Accepted(chain.tried[i].1)))
            && (chain.phase.Replied? && chain.phase.reply.code != SUCCESS ==>
                  && !chain.phase.reply.remoteComplete
                  && (forall i | 0 <= i < |chain.tried| :: Accepted(chain.tried[i].1) <==> i < |chain.tried| - 1)
                  && (chain.tried != [] ==> chain.phase.reply == HardFailure(chain.tried[|chain.tried| - 1].1))
                  && (chain.tried == [] && chain.stop.Some? ==>
                        var code := chain.stop.value.code;
                        !StopConfirmed(code) && chain.phase.reply == Reply(code, ResultUnknown(code), false, false)))
  {
    RunInv(Init(config), es);
    var s := Run(Init(config), es);
    assert ChainOk(s.config.distributed, s.chains[c]);
  }

  /** An answered chain is never touched again. */
  lemma {:induction false} AnsweredForGood(s: State, es: seq<Event>, c: nat)
    requires Inv(s) && Possible(s, es) && c < |s.chains| && s.chains[c].phase.Replied?
    ensures c < |Run(s, es).chains| && Run(s, es).chains[c] == s.chains[c]
    decreases |es|
  {
    if es != [] {
      StepInv(s, es[0]);
      assert Apply(s, es[0]).chains[c] == s.chains[c];
      AnsweredForGood(Apply(s, es[0]), es[1..], c);
    }
  }

  /** How many more remote deletions a chain can start. */
  ghost function Remaining(chain: Chain): nat {
    match chain.phase
    case Waiting => |chain.request.keys| + 1
    case Deleting(i) => if i < |chain.request.keys| then |chain.request.keys| - i else 0
    case Replied(_) => 0
  }

  lemma KeyDecreases(s: State, c: nat, d: Deletion)
    requires Inv(s) && Enabled(s, KeyDone(c, d))
    ensures Remaining(Apply(s, KeyDone(c, d)).chains[c]) < Remaining(s.chains[c])
  {
    assert ChainOk(s.config.distributed, s.chains[c]);
  }
}
