/** Where jobs of the vendor cache end: which jobs there are, what a build leads to, and what a
    ready entry spares. */
module CacheOutcomes {
  import opened Basics
  import opened VendorCache
  import opened CacheProofs
  import opened CacheProgress

  // --- one step of a job --------------------------------------------------

  /** What can follow in the life of a job. */
  predicate Follows(pc: Pc, next: Pc) {
    next == pc ||
    match pc
    case Start => next == Test(First, 0)
    case Test(w, _) => (next.Test? && next.w == w) || next == Passed(w) || next == NotReady(w)
    case Missed => next == WantLock(Second) || next.ClearWorkspace?
    case WantLock(w) => next == Test(w, 0)
    case Removing(w) => if w.Second? then next == Unlock(false) else next.Copying?
    case ClearWorkspace => next.Building?
    case Replacing => next == Test(Fourth, 0) || next.Copying?
    case Copying => next.Marking?
    case Marking => next.Renaming?
    case Renaming => next == Linking(true)
    case Linking(locked) => if locked then next == Unlock(true) else next.Hit?
    case Unlock(published) => if published then next.Published? else next.ClearWorkspace?
    case _ => false
  }

  /** Only job `j` moves, and only along its path. */
  ghost predicate Moves(s: State, t: State, j: nat) {
    && j < |s.jobs| && |t.jobs| == |s.jobs| && t.jobs == s.jobs[j := t.jobs[j]] && t.required == s.required
    && t.jobs[j].key == s.jobs[j].key
    && (t.jobs[j].workspace == s.jobs[j].workspace || s.jobs[j].pc.ClearWorkspace? || s.jobs[j].pc.Linking?)
  }

  lemma LoopMoves(s: State, j: nat, pick: Option<File>)
    requires j < |s.jobs| && (s.jobs[j].pc.Test? || s.jobs[j].pc.Removing? || s.jobs[j].pc.Copying?)
    ensures Moves(s, Advance(s, j, pick), j) && Follows(s.jobs[j].pc, Advance(s, j, pick).jobs[j].pc)
  {
    assert s.jobs[j := s.jobs[j]] == s.jobs;
  }

  lemma LockMoves(s: State, j: nat, pick: Option<File>)
    requires j < |s.jobs| && (s.jobs[j].pc.WantLock? || s.jobs[j].pc.Unlock? || s.jobs[j].pc.Renaming?)
    ensures Moves(s, Advance(s, j, pick), j) && Follows(s.jobs[j].pc, Advance(s, j, pick).jobs[j].pc)
  {
    assert s.jobs[j := s.jobs[j]] == s.jobs;
  }

  lemma PlainMoves(s: State, j: nat, pick: Option<File>)
    requires j < |s.jobs| && Plain(s.jobs[j].pc)
    ensures Moves(s, Advance(s, j, pick), j) && Follows(s.jobs[j].pc, Advance(s, j, pick).jobs[j].pc)
  {
  }

  lemma AdvanceMoves(s: State, j: nat, pick: Option<File>)
    requires j < |s.jobs|
    ensures Moves(s, Advance(s, j, pick), j) && Follows(s.jobs[j].pc, Advance(s, j, pick).jobs[j].pc)
  {
    var pc := s.jobs[j].pc;
    if Plain(pc) { PlainMoves(s, j, pick); }
    else if pc.Test? || pc.Removing? || pc.Copying? { LoopMoves(s, j, pick); }
    else if pc.WantLock? || pc.Unlock? || pc.Renaming? { LockMoves(s, j, pick); }
    else { assert s.jobs[j := s.jobs[j]] == s.jobs; }
  }

  /** An event leaves the jobs of others alone, and keys for good. */
  lemma StepJobs(s: State, e: Event, j: nat)
    requires Enabled(s, e) && j < |s.jobs|
    ensures j < |Apply(s, e).jobs| && Apply(s, e).jobs[j].key == s.jobs[j].key && Apply(s, e).required == s.required
    ensures (e.Spawn? || e.j != j) ==> Apply(s, e).jobs[j] == s.jobs[j]
    ensures |Apply(s, e).jobs| == |s.jobs| + if e.Spawn? then 1 else 0
    ensures e.Step? && e.j == j ==>
              && Follows(s.jobs[j].pc, Apply(s, e).jobs[j].pc)
              && (Apply(s, e).jobs[j].workspace == s.jobs[j].workspace
                  || s.jobs[j].pc.ClearWorkspace? || s.jobs[j].pc.Linking?)
  {
    if e.Step? { AdvanceMoves(s, e.j, e.pick); }
  }

  // --- which jobs there are -----------------------------------------------

  ghost function Spawned(es: seq<Event>): seq<Key> {
    if es == [] then [] else (if es[0].Spawn? then [es[0].key] else []) + Spawned(es[1..])
  }

  ghost function KeysOf(s: State): seq<Key> {
    seq(|s.jobs|, j requires 0 <= j < |s.jobs| => s.jobs[j].key)
  }

  lemma StepKeys(s: State, e: Event)
    requires Enabled(s, e)
    ensures KeysOf(Apply(s, e)) == KeysOf(s) + if e.Spawn? then [e.key] else []
  {
    if !e.Spawn? { StepJobs(s, e, e.j); }
    forall j | 0 <= j < |s.jobs| ensures KeysOf(Apply(s, e))[j] == KeysOf(s)[j] { StepJobs(s, e, j); }
  }

  lemma HeadOfRun(s: State, es: seq<Event>)
    requires es != [] && Enabled(s, es[0])
    ensures KeysOf(Apply(s, es[0])) + Spawned(es[1..]) == KeysOf(s) + Spawned(es)
  {
    StepKeys(s, es[0]);
  }

  lemma {:induction false} RunKeys(s: State, es: seq<Event>)
    requires Possible(s, es)
    ensures KeysOf(Run(s, es)) == KeysOf(s) + Spawned(es)
    decreases |es|
  {
    if es == [] {
      assert KeysOf(s) + [] == KeysOf(s);
    } else {
      HeadOfRun(s, es);
      RunKeys(Apply(s, es[0]), es[1..]);
    }
  }

  /** There is one job for each that was started, in order, and its entry never changes. */
  lemma JobsTheorem(required: Key -> seq<File>, found: map<Key, Entry>, es: seq<Event>)
    requires Possible(Init(required, found), es)
    ensures KeysOf(Run(Init(required, found), es)) == Spawned(es)
  {
    RunKeys(Init(required, found), es);
  }

  // --- what a build leads to ----------------------------------------------

  /** Where a build leads: no output is skipped, an incomplete one fails, and a complete one
      is published. */
  ghost function Verdict(required: seq<File>, files: Option<Files>): Pc {
    match files
    case None => Skipped
    case Some(fs) => if forall i | 0 <= i < |required| :: required[i] in fs then Published else Failed
  }

  /** On the way from a complete build to its publication. */
  predicate Publishing(pc: Pc) {
    match pc
    case WantLock(w) => w.Third? || w.Fourth?
    case Test(w, _) => w.Third? || w.Fourth?
    case Removing(w) => w.Fourth?
    case Replacing => true
    case Copying => true
    case Marking => true
    case Renaming => true
    case Linking(locked) => locked
    case Unlock(published) => published
    case _ => false
  }

  /** The output of the build is in the workspace until the entry is linked there. */
  ghost predicate Holds(job: Job, files: Option<Files>) {
    files.Some? && Publishing(job.pc) && !job.pc.Linking? && !job.pc.Unlock? ==> job.workspace == Tree(files.value)
  }

  /** A job whose build is over: at its verdict, on the way to its publication, or crashed. */
  ghost predicate Concluded(required: seq<File>, pc: Pc, files: Option<Files>) {
    pc == Verdict(required, files) || pc.Crashed? || (Verdict(required, files).Published? && Publishing(pc))
  }

  lemma FollowConcludes(required: seq<File>, pc: Pc, next: Pc, files: Option<Files>)
    requires Concluded(required, pc, files) && Follows(pc, next) && (pc.Removing? ==> pc.w.Second? || pc.w.Fourth?)
    ensures Concluded(required, next, files)
  {
  }

  lemma StepConcludes(s: State, e: Event, j: nat, files: Option<Files>)
    requires Inv(s) && Enabled(s, e) && j < |s.jobs| && Concluded(s.required(s.jobs[j].key), s.jobs[j].pc, files)
    requires Holds(s.jobs[j], files)
    ensures j < |Apply(s, e).jobs| && Concluded(s.required(s.jobs[j].key), Apply(s, e).jobs[j].pc, files)
    ensures Holds(Apply(s, e).jobs[j], files)
  {
    StepJobs(s, e, j);
    if e.Step? && e.j == j {
      assert JobOk(s, s.jobs[j]);
      FollowConcludes(s.required(s.jobs[j].key), s.jobs[j].pc, Apply(s, e).jobs[j].pc, files);
    }
  }

  lemma {:induction false} RunConcludes(s: State, es: seq<Event>, j: nat, files: Option<Files>)
    requires Inv(s) && Possible(s, es) && j < |s.jobs| && Concluded(s.required(s.jobs[j].key), s.jobs[j].pc, files)
    requires Holds(s.jobs[j], files)
    ensures j < |Run(s, es).jobs| && Run(s, es).jobs[j].key == s.jobs[j].key
    ensures Concluded(s.required(s.jobs[j].key), Run(s, es).jobs[j].pc, files) && Holds(Run(s, es).jobs[j], files)
    decreases |es|
  {
    if es != [] {
      StepConcludes(s, es[0], j, files);
      StepJobs(s, es[0], j);
      StepInv(s, es[0]);
      RunConcludes(Apply(s, es[0]), es[1..], j, files);
    }
  }

  /** What becomes of a job after its build, in any run: unless it crashes, a complete build
      can only end published, with the workspace linked to a ready entry, and what it renames
      into place is exactly its output; an incomplete one has failed, and one without output
      is skipped. */
  lemma BuildTheorem(s: State, j: nat, files: Option<Files>, es: seq<Event>)
    requires Reachable(s) && Enabled(s, Built(j, files)) && Possible(Apply(s, Built(j, files)), es)
    ensures var u, required := Run(Apply(s, Built(j, files)), es), s.required(s.jobs[j].key);
            && j < |u.jobs| && u.jobs[j].key == s.jobs[j].key
            && (Over(u.jobs[j].pc) ==> u.jobs[j].pc == Verdict(required, files) || u.jobs[j].pc.Crashed?)
            && (!Over(u.jobs[j].pc) ==> Verdict(required, files).Published?)
            && (u.jobs[j].pc.Published? ==> u.jobs[j].workspace == Link(u.jobs[j].key) && IsReady(u, u.jobs[j].key))
            && (u.jobs[j].pc.Renaming? ==>
                  && files.Some? && s.jobs[j].key in Apply(u, Step(j, None)).entries
                  && Apply(u, Step(j, None)).entries[s.jobs[j].key] == Entry(files.value, true, files))
  {
    var t := Apply(s, Built(j, files));
    ReachableInv(s);
    StepInv(s, Built(j, files));
    RunConcludes(t, es, j, files);
    RunInv(t, es);
    assert JobOk(Run(t, es), Run(t, es).jobs[j]);
  }

  // --- schedules ----------------------------------------------------------

  /** A job that has not built yet, or has hit, or whose build is over. */
  ghost predicate Heading(required: seq<File>, pc: Pc, files: Option<Files>) {
    Concluded(required, pc, files) || pc.Hit? || (!Over(pc) && !Publishing(pc))
  }

  lemma StepHeading(s: State, e: Event, j: nat, builds: nat -> Option<Files>)
    requires Inv(s) && Enabled(s, e) && Calm(e, builds) && j < |s.jobs|
    requires Heading(s.required(s.jobs[j].key), s.jobs[j].pc, builds(j))
    ensures j < |Apply(s, e).jobs| && Heading(s.required(s.jobs[j].key), Apply(s, e).jobs[j].pc, builds(j))
  {
    StepJobs(s, e, j);
    if e.Step? && e.j == j {
      assert JobOk(s, s.jobs[j]);
      FollowHeading(s.required(s.jobs[j].key), s.jobs[j].pc, Apply(s, e).jobs[j].pc, builds(j));
    }
  }

  lemma FollowHeading(required: seq<File>, pc: Pc, next: Pc, files: Option<Files>)
    requires Heading(required, pc, files) && Follows(pc, next)
    requires (pc.Removing? ==> pc.w.Second? || pc.w.Fourth?) && (pc.WantLock? ==> !pc.w.First?)
    ensures Heading(required, next, files)
  {
  }

  lemma {:induction false} RunHeading(s: State, es: seq<Event>, j: nat, builds: nat -> Option<Files>)
    requires Inv(s) && Possible(s, es) && CalmRun(es, builds) && j < |s.jobs|
    requires Heading(s.required(s.jobs[j].key), s.jobs[j].pc, builds(j))
    ensures j < |Run(s, es).jobs| && Heading(s.required(s.jobs[j].key), Run(s, es).jobs[j].pc, builds(j))
    decreases |es|
  {
    if es != [] {
      assert Calm(es[0], builds);
      StepHeading(s, es[0], j, builds);
      StepJobs(s, es[0], j);
      StepInv(s, es[0]);
      RunHeading(Apply(s, es[0]), es[1..], j, builds);
    }
  }

  /** From every reachable state some schedule without crashes brings every job that has not
      built yet to its end: to a hit, or to what its build leads to. */
  lemma VerdictsTheorem(s: State, builds: nat -> Option<Files>) returns (es: seq<Event>)
    requires Reachable(s)
    ensures Possible(s, es) && CalmRun(es, builds) && |Run(s, es).jobs| == |s.jobs|
    ensures forall j | 0 <= j < |s.jobs| && !Over(s.jobs[j].pc) && !Publishing(s.jobs[j].pc) ::
              var pc := Run(s, es).jobs[j].pc;
              pc.Hit? || pc == Verdict(s.required(s.jobs[j].key), builds(j))
  {
    ReachableInv(s);
    es := FinishesTheorem(s, builds);
    forall j | 0 <= j < |s.jobs| && !Over(s.jobs[j].pc) && !Publishing(s.jobs[j].pc)
      ensures Run(s, es).jobs[j].pc.Hit? || Run(s, es).jobs[j].pc == Verdict(s.required(s.jobs[j].key), builds(j))
    {
      RunHeading(s, es, j, builds);
    }
  }

  // --- what a miss makes sure of ------------------------------------------

  /** Between a miss and the build, as long as the old entry may still be there. */
  predicate Clearing(pc: Pc) {
    match pc
    case Missed => true
    case WantLock(w) => w.Second?
    case Test(w, _) => w.Second?
    case Removing(w) => w.Second?
    case _ => false
  }

  /** The old entry is out of the way: there is none, or one that is ready. */
  ghost predicate OutOfTheWay(s: State, key: Key) {
    key !in s.entries || IsReady(s, key)
  }

  lemma StepClears(s: State, e: Event, j: nat)
    requires Inv(s) && Enabled(s, e) && j < |s.jobs| && Clearing(s.jobs[j].pc)
    ensures j < |Apply(s, e).jobs|
    ensures Clearing(Apply(s, e).jobs[j].pc) || Apply(s, e).jobs[j].pc.Crashed? || OutOfTheWay(s, s.jobs[j].key)
  {
    StepJobs(s, e, j);
    var job := s.jobs[j];
    assert JobOk(s, job) && EntryOk(s, job.key);
    if job.pc.Test? && job.pc.i > |s.required(job.key)| { SeenAll(s, job.key); }
  }

  /** At some point of the run the old entry of the key was out of the way. */
  ghost predicate WasOutOfTheWay(s: State, es: seq<Event>, key: Key)
    requires Possible(s, es)
    decreases |es|
  {
    OutOfTheWay(s, key) || (es != [] && WasOutOfTheWay(Apply(s, es[0]), es[1..], key))
  }

  /** A job that has missed starts to build only after an entry that is not ready was removed,
      or another job had made it ready. */
  lemma {:induction false} MissTheorem(s: State, es: seq<Event>, j: nat)
    requires Inv(s) && Possible(s, es) && j < |s.jobs| && Clearing(s.jobs[j].pc)
    requires j < |Run(s, es).jobs| && Run(s, es).jobs[j].pc.Building?
    ensures WasOutOfTheWay(s, es, s.jobs[j].key)
    decreases |es|
  {
    var t := Apply(s, es[0]);
    StepClears(s, es[0], j);
    StepJobs(s, es[0], j);
    StepInv(s, es[0]);
    if !OutOfTheWay(s, s.jobs[j].key) {
      if t.jobs[j].pc.Crashed? { CrashedForGood(t, es[1..], j); } else { MissTheorem(t, es[1..], j); }
    }
  }

  // --- what a ready entry spares ------------------------------------------

  /** On the way to a hit. */
  predicate Hitting(pc: Pc) {
    match pc
    case Start => true
    case Test(w, _) => w.First?
    case Linking(locked) => !locked
    case Hit => true
    case Crashed => true
    case _ => false
  }

  lemma StepHitting(s: State, e: Event, j: nat)
    requires Inv(s) && Enabled(s, e) && j < |s.jobs| && IsReady(s, s.jobs[j].key) && Hitting(s.jobs[j].pc)
    ensures j < |Apply(s, e).jobs| && Hitting(Apply(s, e).jobs[j].pc)
  {
    assert JobOk(s, s.jobs[j]);
    StepJobs(s, e, j);
  }

  lemma {:induction false} RunHitting(s: State, es: seq<Event>, j: nat)
    requires Inv(s) && Possible(s, es) && j < |s.jobs| && IsReady(s, s.jobs[j].key) && Hitting(s.jobs[j].pc)
    ensures j < |Run(s, es).jobs| && Hitting(Run(s, es).jobs[j].pc)
    decreases |es|
  {
    if es != [] {
      StepHitting(s, es[0], j);
      StepJobs(s, es[0], j);
      ReadyStays(s, es[0], s.jobs[j].key);
      StepInv(s, es[0]);
      RunHitting(Apply(s, es[0]), es[1..], j);
    }
  }

  /** A job whose entry is ready when it starts never builds: unless it crashes it can only
      end with a hit, whatever the others do. */
  lemma NoRebuildTheorem(s: State, key: Key, workspace: Workspace, es: seq<Event>)
    requires Reachable(s) && IsReady(s, key) && Possible(Apply(s, Spawn(key, workspace)), es)
    ensures var u, j := Run(Apply(s, Spawn(key, workspace)), es), |s.jobs|;
            && j < |u.jobs| && !u.jobs[j].pc.Building?
            && (Over(u.jobs[j].pc) ==> u.jobs[j].pc.Hit? || u.jobs[j].pc.Crashed?)
            && (u.jobs[j].pc.Hit? ==> u.jobs[j].workspace == Link(u.jobs[j].key))
  {
    var t := Apply(s, Spawn(key, workspace));
    ReachableInv(s);
    StepInv(s, Spawn(key, workspace));
    RunHitting(t, es, |s.jobs|);
    RunInv(t, es);
    assert JobOk(Run(t, es), Run(t, es).jobs[|s.jobs|]);
  }

  // --- crashes ------------------------------------------------------------

  lemma {:induction false} CrashedForGood(s: State, es: seq<Event>, j: nat)
    requires Possible(s, es) && j < |s.jobs| && s.jobs[j].pc.Crashed?
    ensures j < |Run(s, es).jobs| && Run(s, es).jobs[j] == s.jobs[j]
    decreases |es|
  {
    if es != [] {
      StepJobs(s, es[0], j);
      assert Apply(s, es[0]).jobs[j] == s.jobs[j];
      CrashedForGood(Apply(s, es[0]), es[1..], j);
    }
  }

  /** A crash leaves the cache and every other job as they are. Over any run after it the job
      and its workspace stay as they were, and the job holds no lock. */
  lemma CrashTheorem(s: State, j: nat, es: seq<Event>)
    requires Reachable(s) && j < |s.jobs| && Possible(Apply(s, Die(j)), es)
    ensures Apply(s, Die(j)) == s.(jobs := s.jobs[j := s.jobs[j].(pc := Crashed)], lock := Apply(s, Die(j)).lock)
    ensures var u := Run(Apply(s, Die(j)), es);
            && j < |u.jobs| && u.jobs[j] == s.jobs[j].(pc := Crashed)
            && forall key | key in u.lock :: u.lock[key] != j
  {
    var t := Apply(s, Die(j));
    ReachableInv(s);
    StepInv(s, Die(j));
    CrashedForGood(t, es, j);
    RunInv(t, es);
  }
}
