/** A ready entry of the vendor cache is complete and stays as it is. */
module CacheProofs {
  import opened Basics
  import opened VendorCache

  // --- invariant ----------------------------------------------------------

  ghost predicate Within(e: Entry, f: Entry) {
    (e.marker ==> f.marker) && (forall x | x in e.files :: x in f.files && e.files[x] == f.files[x])
  }

  /** An entry is ready, or is what is left of one found in the beginning; one that was
      ready in the beginning is untouched; a published one is exactly what was published. */
  ghost predicate EntryOk(s: State, key: Key) {
    && (key in s.first && Ready(s.required(key), s.first[key]) ==> key in s.entries && s.entries[key] == s.first[key])
    && (key in s.entries ==>
          var e := s.entries[key];
          if e.whole.Some? then e.marker && e.whole == Some(e.files) && Has(s.required(key), e.files)
          else key in s.first && Within(e, s.first[key]))
  }

  /** Everything that a test has seen so far was there in the beginning, or the entry is
      ready by now. */
  ghost predicate Seen(s: State, key: Key, i: nat) {
    || IsReady(s, key)
    || i == 0
    || (key in s.first && s.first[key].marker
        && forall k | 0 <= k < i - 1 && k < |s.required(key)| :: s.required(key)[k] in s.first[key].files)
  }

  ghost predicate Copied(s: State, job: Job) {
    && job.key !in s.entries
    && job.workspace.Tree? && Has(s.required(job.key), job.workspace.files)
    && forall x | x in job.snapshot :: x in job.workspace.files && job.snapshot[x] == job.workspace.files[x]
  }

  ghost predicate JobOk(s: State, job: Job) {
    match job.pc
    case Test(w, i) => i <= |s.required(job.key)| + 1 && Seen(s, job.key, i)
        && (w.Third? || w.Fourth? ==> Output(s, job))
    case WantLock(w) => !w.First? && (w.Third? || w.Fourth? ==> Output(s, job))
    case Removing(w) => !IsReady(s, job.key) && (w.Fourth? ==> Output(s, job)) && (w.Second? || w.Fourth?)
    case Building => job.workspace.Absent?
    case Replacing => !IsReady(s, job.key) && Output(s, job)
    case Copying => Copied(s, job)
    case Marking => Copied(s, job) && job.snapshot == job.workspace.files
    case Renaming => Copied(s, job) && job.snapshot == job.workspace.files
    case Linking(_) => IsReady(s, job.key)
    case Unlock(published) => published ==> IsReady(s, job.key) && job.workspace == Link(job.key)
    case Hit => IsReady(s, job.key) && job.workspace == Link(job.key)
    case Published => IsReady(s, job.key) && job.workspace == Link(job.key)
    case _ => true
  }

  /** The workspace holds a complete build. */
  ghost predicate Output(s: State, job: Job) {
    job.workspace.Tree? && Has(s.required(job.key), job.workspace.files)
  }

  ghost predicate LockOk(s: State) {
    && (forall j | 0 <= j < |s.jobs| && Locked(s.jobs[j].pc) ::
          s.jobs[j].key in s.lock && s.lock[s.jobs[j].key] == j)
    && (forall key | key in s.lock ::
          s.lock[key] < |s.jobs| && s.jobs[s.lock[key]].key == key && Locked(s.jobs[s.lock[key]].pc))
  }

  /** The beginning itself was not published here. */
  ghost predicate Inv(s: State) {
    && (forall key | key in s.first :: s.first[key].whole.None?)
    && (forall key :: EntryOk(s, key))
    && (forall j | 0 <= j < |s.jobs| :: JobOk(s, s.jobs[j]))
    && LockOk(s)
  }

  // --- steps that leave the entries alone ---------------------------------

  ghost predicate SameCache(s: State, t: State) {
    t.required == s.required && t.first == s.first && t.entries == s.entries
  }

  lemma JobSame(s: State, t: State, job: Job)
    requires JobOk(s, job) && SameCache(s, t)
    ensures JobOk(t, job)
  {
  }

  lemma QuietInv(s: State, t: State, j: nat)
    requires Inv(s) && SameCache(s, t) && j < |s.jobs| && |t.jobs| == |s.jobs| && t.jobs == s.jobs[j := t.jobs[j]]
    requires JobOk(t, t.jobs[j]) && LockOk(t)
    ensures Inv(t)
  {
    forall key ensures EntryOk(t, key) { assert EntryOk(s, key); }
    forall i | 0 <= i < |t.jobs| ensures JobOk(t, t.jobs[i]) {
      if i != j { JobSame(s, t, s.jobs[i]); }
    }
  }

  lemma GoInv(s: State, t: State, j: nat)
    requires Inv(s) && SameCache(s, t) && j < |s.jobs| && |t.jobs| == |s.jobs| && t.jobs == s.jobs[j := t.jobs[j]]
    requires t.lock == s.lock && t.jobs[j].key == s.jobs[j].key && Locked(t.jobs[j].pc) == Locked(s.jobs[j].pc)
    requires JobOk(t, t.jobs[j])
    ensures Inv(t)
  {
    QuietInv(s, t, j);
  }

  lemma AcquireInv(s: State, t: State, j: nat)
    requires Inv(s) && SameCache(s, t) && j < |s.jobs| && |t.jobs| == |s.jobs| && t.jobs == s.jobs[j := t.jobs[j]]
    requires t.jobs[j].key == s.jobs[j].key && s.jobs[j].key !in s.lock && t.lock == s.lock[s.jobs[j].key := j]
    requires !Locked(s.jobs[j].pc) && Locked(t.jobs[j].pc) && JobOk(t, t.jobs[j])
    ensures Inv(t)
  {
    QuietInv(s, t, j);
  }

  lemma ReleaseInv(s: State, t: State, j: nat)
    requires Inv(s) && SameCache(s, t) && j < |s.jobs| && |t.jobs| == |s.jobs| && t.jobs == s.jobs[j := t.jobs[j]]
    requires t.jobs[j].key == s.jobs[j].key && t.lock == s.lock - {s.jobs[j].key}
    requires Locked(s.jobs[j].pc) && !Locked(t.jobs[j].pc) && JobOk(t, t.jobs[j])
    ensures Inv(t)
  {
    assert s.lock[s.jobs[j].key] == j;
    QuietInv(s, t, j);
  }

  /** A test that has seen everything has seen a ready entry. */
  lemma SeenAll(s: State, key: Key)
    requires EntryOk(s, key) && Seen(s, key, |s.required(key)| + 1)
    ensures IsReady(s, key)
  {
    if !IsReady(s, key) { assert Ready(s.required(key), s.first[key]); }
  }

  lemma SeenNext(s: State, key: Key, i: nat)
    requires EntryOk(s, key) && Seen(s, key, i) && i <= |s.required(key)| && Present(s, key, i)
    ensures Seen(s, key, i + 1)
  {
    if !IsReady(s, key) { assert Within(s.entries[key], s.first[key]); }
  }

  lemma TestInv(s: State, j: nat)
    requires Inv(s) && j < |s.jobs| && s.jobs[j].pc.Test?
    ensures Inv(TestStep(s, j))
  {
    var job, t := s.jobs[j], TestStep(s, j);
    assert JobOk(s, job) && EntryOk(s, job.key);
    if job.pc.i > |s.required(job.key)| {
      SeenAll(s, job.key);
    } else if Present(s, job.key, job.pc.i) {
      SeenNext(s, job.key, job.pc.i);
    } else {
      assert !IsReady(s, job.key) by {
        if job.pc.i > 0 && job.key in s.entries {
          assert s.required(job.key)[job.pc.i - 1] !in s.entries[job.key].files;
        }
      }
    }
    GoInv(s, t, j);
  }

  // --- steps that change an entry -----------------------------------------

  /** Only the entry of job `j`, which holds its lock, changes; it was not ready. */
  ghost predicate OwnEntry(s: State, t: State, j: nat) {
    && t.required == s.required && t.first == s.first && t.lock == s.lock
    && j < |s.jobs| && Locked(s.jobs[j].pc) && !IsReady(s, s.jobs[j].key)
    && |t.jobs| == |s.jobs| && t.jobs == s.jobs[j := t.jobs[j]]
    && t.jobs[j].key == s.jobs[j].key && Locked(t.jobs[j].pc)
    && (forall key | key != s.jobs[j].key ::
          (key in t.entries <==> key in s.entries) && (key in s.entries ==> t.entries[key] == s.entries[key]))
  }

  lemma OthersOk(s: State, t: State, j: nat, i: nat)
    requires Inv(s) && OwnEntry(s, t, j) && i < |s.jobs| && i != j
    ensures JobOk(t, s.jobs[i])
  {
    var job := s.jobs[i];
    assert JobOk(s, job);
    if Locked(job.pc) { assert job.key != s.jobs[j].key; }
  }

  lemma OwnInv(s: State, t: State, j: nat)
    requires Inv(s) && OwnEntry(s, t, j) && EntryOk(t, s.jobs[j].key) && JobOk(t, t.jobs[j])
    ensures Inv(t)
  {
    forall key ensures EntryOk(t, key) { assert EntryOk(s, key); }
    forall i | 0 <= i < |t.jobs| ensures JobOk(t, t.jobs[i]) {
      if i != j { OthersOk(s, t, j, i); }
    }
  }

  lemma RemoveInv(s: State, j: nat, pick: Option<File>)
    requires Inv(s) && j < |s.jobs| && s.jobs[j].pc.Removing?
    ensures Inv(RemoveStep(s, j, pick))
  {
    var job, t := s.jobs[j], RemoveStep(s, j, pick);
    assert JobOk(s, job) && EntryOk(s, job.key);
    if job.key !in s.entries {
      GoInv(s, t, j);
    } else {
      var e := s.entries[job.key];
      assert e.whole.None? && Within(e, s.first[job.key]);
      assert !IsReady(t, job.key) by {
        if job.key in t.entries && t.entries[job.key].marker {
          var k :| 0 <= k < |s.required(job.key)| && s.required(job.key)[k] !in e.files;
          assert s.required(job.key)[k] !in t.entries[job.key].files;
        }
      }
      assert t.jobs == s.jobs[j := s.jobs[j]];
      OwnInv(s, t, j);
    }
  }

  lemma RenameInv(s: State, j: nat)
    requires Inv(s) && j < |s.jobs| && s.jobs[j].pc.Renaming?
    ensures Inv(Advance(s, j, None))
  {
    var job := s.jobs[j];
    assert JobOk(s, job) && EntryOk(s, job.key);
    OwnInv(s, Advance(s, j, None), j);
  }

  // --- every event --------------------------------------------------------

  lemma LockInv(s: State, j: nat)
    requires Inv(s) && j < |s.jobs| && (s.jobs[j].pc.WantLock? || s.jobs[j].pc.Unlock?)
    ensures Inv(Advance(s, j, None))
  {
    var job, t := s.jobs[j], Advance(s, j, None);
    assert JobOk(s, job);
    if job.pc.Unlock? { ReleaseInv(s, t, j); } else if job.key !in s.lock { AcquireInv(s, t, j); }
  }

  predicate Plain(pc: Pc) {
    pc.Start? || pc.Missed? || pc.ClearWorkspace? || pc.Replacing? || pc.Marking? || pc.Linking?
  }

  lemma PlainInv(s: State, j: nat)
    requires Inv(s) && j < |s.jobs| && Plain(s.jobs[j].pc)
    ensures Inv(Advance(s, j, None))
  {
    assert JobOk(s, s.jobs[j]);
    GoInv(s, Advance(s, j, None), j);
  }

  lemma AdvanceInv(s: State, j: nat, pick: Option<File>)
    requires Inv(s) && j < |s.jobs|
    ensures Inv(Advance(s, j, pick))
  {
    var pc := s.jobs[j].pc;
    if Plain(pc) { PlainInv(s, j); }
    else if pc.Test? { TestInv(s, j); }
    else if pc.Removing? { RemoveInv(s, j, pick); }
    else if pc.Renaming? { RenameInv(s, j); }
    else if pc.Copying? { CopyInv(s, j, pick); }
    else if pc.WantLock? || pc.Unlock? { LockInv(s, j); }
  }

  lemma CopyInv(s: State, j: nat, pick: Option<File>)
    requires Inv(s) && j < |s.jobs| && s.jobs[j].pc.Copying?
    ensures Inv(CopyStep(s, j, pick))
  {
    var job, t := s.jobs[j], CopyStep(s, j, pick);
    assert JobOk(s, job);
    if !(pick.Some? && pick.value in job.workspace.files) && job.snapshot.Keys == job.workspace.files.Keys {
      assert job.snapshot == job.workspace.files;
    }
    assert t == s || t.jobs == s.jobs[j := t.jobs[j]];
    if t != s { GoInv(s, t, j); }
  }

  lemma StepInv(s: State, e: Event)
    requires Inv(s) && Enabled(s, e)
    ensures Inv(Apply(s, e))
  {
    match e
    case Spawn(key, workspace) => SpawnInv(s, key, workspace);
    case Step(j, pick) => AdvanceInv(s, j, pick);
    case Built(j, files) => GoInv(s, Publish(s, j, files), j);
    case Die(j) =>
      if Locked(s.jobs[j].pc) { ReleaseInv(s, Crash(s, j), j); } else { GoInv(s, Crash(s, j), j); }
  }

  lemma SpawnInv(s: State, key: Key, workspace: Workspace)
    requires Inv(s)
    ensures Inv(Apply(s, Spawn(key, workspace)))
  {
    var t := Apply(s, Spawn(key, workspace));
    forall k ensures EntryOk(t, k) { assert EntryOk(s, k); }
    forall i | 0 <= i < |t.jobs| ensures JobOk(t, t.jobs[i]) {
      if i < |s.jobs| { JobSame(s, t, s.jobs[i]); }
    }
  }

  lemma {:induction false} RunInv(s: State, es: seq<Event>)
    requires Inv(s) && Possible(s, es)
    ensures Inv(Run(s, es))
    decreases |es|
  {
    if es != [] {
      StepInv(s, es[0]);
      RunInv(Apply(s, es[0]), es[1..]);
    }
  }

  ghost predicate Reachable(s: State) {
    exists required: Key -> seq<File>, found: map<Key, Entry>, es: seq<Event> ::
      (forall key | key in found :: found[key].whole.None?)
      && Possible(Init(required, found), es) && s == Run(Init(required, found), es)
  }

  lemma ReachableInv(s: State)
    requires Reachable(s)
    ensures Inv(s)
  {
    var required: Key -> seq<File>, found: map<Key, Entry>, es: seq<Event> :|
      (forall key | key in found :: found[key].whole.None?)
      && Possible(Init(required, found), es) && s == Run(Init(required, found), es);
    var i := Init(required, found);
    forall key ensures EntryOk(i, key) {}
    RunInv(i, es);
  }

  // --- what the cache promises --------------------------------------------

  /** At most one job at a time removes, replaces or publishes an entry. */
  lemma ExclusionTheorem(s: State, i: nat, j: nat)
    requires Reachable(s) && i < |s.jobs| && j < |s.jobs| && s.jobs[i].key == s.jobs[j].key
    requires Locked(s.jobs[i].pc) && Locked(s.jobs[j].pc)
    ensures i == j
  {
    ReachableInv(s);
  }

  /** A ready entry is never modified or removed, by any event. */
  lemma ReadyStays(s: State, e: Event, key: Key)
    requires Inv(s) && Enabled(s, e) && IsReady(s, key)
    ensures IsReady(Apply(s, e), key) && Apply(s, e).entries[key] == s.entries[key]
  {
    if e.Step? { assert JobOk(s, s.jobs[e.j]); }
  }

  lemma {:induction false} ImmutableTheorem(s: State, es: seq<Event>, key: Key)
    requires Inv(s) && Possible(s, es) && IsReady(s, key)
    ensures IsReady(Run(s, es), key) && Run(s, es).entries[key] == s.entries[key]
    decreases |es|
  {
    if es != [] {
      ReadyStays(s, es[0], key);
      StepInv(s, es[0]);
      ImmutableTheorem(Apply(s, es[0]), es[1..], key);
    }
  }

  /** An entry with a marker that was not in the cache from the beginning is the complete
      output of some build, whatever crashed meanwhile. */
  lemma NoPartialPublication(s: State, key: Key)
    requires Reachable(s) && key in s.entries && s.entries[key].marker
    ensures (key in s.first && s.first[key].marker)
            || (s.entries[key].whole == Some(s.entries[key].files) && IsReady(s, key))
  {
    ReachableInv(s);
    assert EntryOk(s, key);
  }

  /** Even the test without a lock, which looks at one file after the other while others
      remove and publish, is right: a job that takes an entry for ready has a ready entry. */
  lemma HitTheorem(s: State, j: nat)
    requires Reachable(s) && j < |s.jobs|
    ensures s.jobs[j].pc == Linking(false) ==> IsReady(s, s.jobs[j].key)
    ensures s.jobs[j].pc.Hit? || s.jobs[j].pc.Published? ==>
              s.jobs[j].workspace == Link(s.jobs[j].key) && IsReady(s, s.jobs[j].key)
  {
    ReachableInv(s);
    assert JobOk(s, s.jobs[j]);
  }

  /** A build starts from an empty workspace. */
  lemma CleanBuildTheorem(s: State, j: nat)
    requires Reachable(s) && j < |s.jobs| && s.jobs[j].pc.Building?
    ensures s.jobs[j].workspace == Absent
  {
    ReachableInv(s);
    assert JobOk(s, s.jobs[j]);
  }

  /** What a job is about to rename into place is exactly its workspace. */
  lemma PublishesWorkspace(s: State, j: nat)
    requires Reachable(s) && j < |s.jobs| && s.jobs[j].pc.Renaming?
    ensures var t, job := Apply(s, Step(j, None)), s.jobs[j];
            job.key !in s.entries && job.workspace.Tree?
            && t.entries[job.key] == Entry(job.workspace.files, true, Some(job.workspace.files)) && IsReady(t, job.key)
  {
    ReachableInv(s);
    assert JobOk(s, s.jobs[j]);
  }

  /** A job that waits for a lock waits for a job that is alive, so a crash blocks nobody. */
  lemma LockHeldByLiving(s: State, j: nat)
    requires Reachable(s) && j < |s.jobs| && s.jobs[j].pc.WantLock? && s.jobs[j].key in s.lock
    ensures var i := s.lock[s.jobs[j].key];
            i < |s.jobs| && s.jobs[i].key == s.jobs[j].key && Locked(s.jobs[i].pc) && !s.jobs[i].pc.Crashed?
  {
    ReachableInv(s);
  }
}
