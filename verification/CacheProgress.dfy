/** Jobs of the vendor cache can always go on: without crashes, whatever the builds bring,
    some schedule brings every job to its end. */
module CacheProgress {
  import opened Basics
  import opened VendorCache
  import opened CacheProofs

  predicate Ended(pc: Pc) {
    pc.Hit? || pc.Published? || pc.Skipped? || pc.Failed?
  }

  predicate Over(pc: Pc) {
    Ended(pc) || pc.Crashed?
  }

  // --- how far one job is from its end ------------------------------------

  function Rank(pc: Pc): nat {
    match pc
    case Start => 19
    case Test(w, _) => (match w case First => 18 case Second => 15 case Third => 9 case Fourth => 7)
    case Missed => 17
    case WantLock(w) => if w.Second? then 16 else 10
    case Removing(w) => if w.Second? then 14 else 6
    case Unlock(published) => if published then 1 else 13
    case ClearWorkspace => 12
    case Building => 11
    case Replacing => 8
    case Copying => 5
    case Marking => 4
    case Renaming => 3
    case Linking(_) => 2
    case _ => 0
  }

  /** How many removals an entry takes, before that of its directory. */
  function Size(e: Entry): nat {
    |e.files.Keys| + if e.marker then 1 else 0
  }

  /** How many files have not been copied yet. */
  function Uncopied(files: Files, snapshot: Files): nat {
    |files.Keys - snapshot.Keys|
  }

  lemma SmallerEntry(e: Entry, f: File)
    requires f in e.files
    ensures Size(e.(files := e.files - {f})) < Size(e)
  {
    assert (e.files - {f}).Keys == e.files.Keys - {f};
  }

  lemma FewerUncopied(files: Files, snapshot: Files, f: File)
    requires f in files && f !in snapshot
    ensures Uncopied(files, snapshot[f := files[f]]) < Uncopied(files, snapshot)
  {
    assert files.Keys - snapshot[f := files[f]].Keys == (files.Keys - snapshot.Keys) - {f};
  }

  /** What is left of a loop: tests, files to remove, files to copy. */
  ghost function Left(s: State, job: Job): nat {
    match job.pc
    case Test(_, i) => if i <= |s.required(job.key)| then |s.required(job.key)| + 1 - i else 0
    case Removing(_) =>
      if job.key !in s.entries then 0 else 1 + Size(s.entries[job.key])
    case Copying => if job.workspace.Tree? then Uncopied(job.workspace.files, job.snapshot) else 0
    case _ => 0
  }

  /** The lock of the job's entry is free, or its own. */
  ghost predicate Free(s: State, j: nat)
    requires j < |s.jobs|
  {
    s.jobs[j].key in s.lock ==> s.lock[s.jobs[j].key] == j
  }

  /** Only job `j` has moved, and it is nearer to its end. */
  ghost predicate Nearer(s: State, t: State, j: nat)
    requires j < |s.jobs|
  {
    && t.required == s.required && |t.jobs| == |s.jobs| && t.jobs[j].key == s.jobs[j].key && Free(t, j)
    && !t.jobs[j].pc.Crashed?
    && (forall i | 0 <= i < |s.jobs| && i != j :: t.jobs[i] == s.jobs[i])
    && (|| Rank(t.jobs[j].pc) < Rank(s.jobs[j].pc)
        || (Rank(t.jobs[j].pc) == Rank(s.jobs[j].pc) && Left(t, t.jobs[j]) < Left(s, s.jobs[j])))
  }

  lemma MovedNearer(s: State, t: State, j: nat)
    requires j < |s.jobs| && t.required == s.required && |t.jobs| == |s.jobs| && t.jobs == s.jobs[j := t.jobs[j]]
    requires t.jobs[j].key == s.jobs[j].key && !t.jobs[j].pc.Crashed? && Free(t, j)
    requires || Rank(t.jobs[j].pc) < Rank(s.jobs[j].pc)
             || (Rank(t.jobs[j].pc) == Rank(s.jobs[j].pc) && Left(t, t.jobs[j]) < Left(s, s.jobs[j]))
    ensures Nearer(s, t, j)
  {
  }

  /** The entry of a removing job is gone, or smaller. */
  lemma ShrunkNearer(s: State, t: State, j: nat)
    requires j < |s.jobs| && s.jobs[j].pc.Removing? && Free(s, j) && s.jobs[j].key in s.entries
    requires t == s.(entries := t.entries)
    requires s.jobs[j].key in t.entries ==> Size(t.entries[s.jobs[j].key]) < Size(s.entries[s.jobs[j].key])
    ensures Nearer(s, t, j)
  {
    assert t.jobs == s.jobs[j := t.jobs[j]];
    MovedNearer(s, t, j);
  }

  lemma RemoveNearer(s: State, j: nat) returns (pick: Option<File>)
    requires j < |s.jobs| && s.jobs[j].pc.Removing? && Free(s, j)
    ensures Nearer(s, RemoveStep(s, j, pick), j)
  {
    pick := None;
    var key := s.jobs[j].key;
    if key !in s.entries {
      MovedNearer(s, RemoveStep(s, j, pick), j);
    } else {
      var e := s.entries[key];
      if e.files.Keys != {} {
        var f :| f in e.files.Keys;
        pick := Some(f);
        SmallerEntry(e, f);
      }
      ShrunkNearer(s, RemoveStep(s, j, pick), j);
    }
  }

  lemma CopyFile(s: State, j: nat, f: File)
    requires j < |s.jobs| && s.jobs[j].pc.Copying? && Free(s, j) && s.jobs[j].workspace.Tree?
    requires f in s.jobs[j].workspace.files && f !in s.jobs[j].snapshot
    ensures Nearer(s, CopyStep(s, j, Some(f)), j)
  {
    var job := s.jobs[j];
    var next := job.(snapshot := job.snapshot[f := job.workspace.files[f]]);
    FewerUncopied(job.workspace.files, job.snapshot, f);
    assert CopyStep(s, j, Some(f)) == Set(s, j, next);
    assert Left(Set(s, j, next), next) < Left(s, job);
    MovedNearer(s, Set(s, j, next), j);
  }

  lemma CopiedAll(s: State, j: nat)
    requires j < |s.jobs| && s.jobs[j].pc.Copying? && Free(s, j) && s.jobs[j].workspace.Tree?
    requires s.jobs[j].snapshot.Keys == s.jobs[j].workspace.files.Keys
    ensures Nearer(s, CopyStep(s, j, None), j)
  {
    MovedNearer(s, Go(s, j, Marking), j);
  }

  lemma CopyNearer(s: State, j: nat) returns (pick: Option<File>)
    requires j < |s.jobs| && s.jobs[j].pc.Copying? && Free(s, j) && s.jobs[j].workspace.Tree?
    requires s.jobs[j].snapshot.Keys <= s.jobs[j].workspace.files.Keys
    ensures Nearer(s, CopyStep(s, j, pick), j)
  {
    if f :| f in s.jobs[j].workspace.files && f !in s.jobs[j].snapshot {
      pick := Some(f);
      CopyFile(s, j, f);
    } else {
      pick := None;
      assert s.jobs[j].workspace.files.Keys <= s.jobs[j].snapshot.Keys;
      CopiedAll(s, j);
    }
  }

  lemma TestNearer(s: State, j: nat)
    requires j < |s.jobs| && s.jobs[j].pc.Test? && Free(s, j)
    ensures Nearer(s, TestStep(s, j), j)
  {
    var job, t := s.jobs[j], TestStep(s, j);
    if job.pc.i <= |s.required(job.key)| && Present(s, job.key, job.pc.i) {
      assert t.jobs[j] == job.(pc := Test(job.pc.w, job.pc.i + 1));
      assert Left(t, t.jobs[j]) < Left(s, job);
    } else {
      assert Rank(t.jobs[j].pc) < Rank(job.pc);
    }
    MovedNearer(s, t, j);
  }

  lemma PlainRank(s: State, j: nat)
    requires j < |s.jobs| && (Plain(s.jobs[j].pc) || s.jobs[j].pc.Renaming?)
    ensures var t := Advance(s, j, None);
            && |t.jobs| == |s.jobs| && t.jobs == s.jobs[j := t.jobs[j]] && t.jobs[j].key == s.jobs[j].key
            && !t.jobs[j].pc.Crashed? && Rank(t.jobs[j].pc) < Rank(s.jobs[j].pc)
            && t.required == s.required && t.lock == s.lock
  {
  }

  lemma PlainNearer(s: State, j: nat)
    requires j < |s.jobs| && (Plain(s.jobs[j].pc) || s.jobs[j].pc.Renaming?) && Free(s, j)
    ensures Nearer(s, Advance(s, j, None), j)
  {
    PlainRank(s, j);
    MovedNearer(s, Advance(s, j, None), j);
  }

  lemma LockNearer(s: State, j: nat)
    requires j < |s.jobs| && (s.jobs[j].pc.WantLock? || s.jobs[j].pc.Unlock?) && Free(s, j)
    requires s.jobs[j].pc.WantLock? ==> !s.jobs[j].pc.w.First? && s.jobs[j].key !in s.lock
    ensures Nearer(s, Advance(s, j, None), j)
  {
    var t := Advance(s, j, None);
    assert Rank(t.jobs[j].pc) < Rank(s.jobs[j].pc);
    MovedNearer(s, t, j);
  }

  /** A job that is not kept out by another one has a step that brings it nearer to its end. */
  lemma StepNearer(s: State, j: nat, built: Option<Files>) returns (e: Event)
    requires Inv(s) && j < |s.jobs| && !Over(s.jobs[j].pc) && Free(s, j)
    ensures Enabled(s, e) && (e.Step? || e == Built(j, built)) && Nearer(s, Apply(s, e), j)
  {
    var pc := s.jobs[j].pc;
    assert JobOk(s, s.jobs[j]);
    e := Step(j, None);
    if pc.Building? {
      e := Built(j, built);
      MovedNearer(s, Publish(s, j, built), j);
    }
    else if pc.Removing? {
      var pick := RemoveNearer(s, j);
      e := Step(j, pick);
    } else if pc.Copying? {
      var pick := CopyNearer(s, j);
      e := Step(j, pick);
    } else if pc.Test? { TestNearer(s, j); }
    else if pc.WantLock? || pc.Unlock? { LockNearer(s, j); }
    else { PlainNearer(s, j); }
  }

  // --- schedules ----------------------------------------------------------

  /** No crash, no new job, and builds that bring what `builds` says. */
  ghost predicate Calm(e: Event, builds: nat -> Option<Files>) {
    e.Step? || (e.Built? && e.files == builds(e.j))
  }

  ghost predicate CalmRun(es: seq<Event>, builds: nat -> Option<Files>) {
    forall i | 0 <= i < |es| :: Calm(es[i], builds)
  }

  /** Job `j` has ended and the others are where they were. */
  ghost predicate Alone(s: State, t: State, j: nat)
    requires j < |s.jobs|
  {
    && |t.jobs| == |s.jobs| && Ended(t.jobs[j].pc)
    && forall i | 0 <= i < |s.jobs| && i != j :: t.jobs[i] == s.jobs[i]
  }

  lemma Cons(s: State, e: Event, es: seq<Event>, builds: nat -> Option<Files>)
    requires Enabled(s, e) && Calm(e, builds) && Possible(Apply(s, e), es) && CalmRun(es, builds)
    ensures Possible(s, [e] + es) && Run(s, [e] + es) == Run(Apply(s, e), es) && CalmRun([e] + es, builds)
  {
    assert ([e] + es)[0] == e && ([e] + es)[1..] == es;
  }

  /** A job that is not kept out runs to its end by itself. */
  lemma {:induction false} Drive(s: State, j: nat, builds: nat -> Option<Files>) returns (es: seq<Event>)
    requires Inv(s) && j < |s.jobs| && !Over(s.jobs[j].pc) && Free(s, j)
    ensures Possible(s, es) && CalmRun(es, builds) && Alone(s, Run(s, es), j)
    decreases Rank(s.jobs[j].pc), Left(s, s.jobs[j])
  {
    var e := StepNearer(s, j, builds(j));
    var t := Apply(s, e);
    StepInv(s, e);
    var rest: seq<Event> := [];
    if !Over(t.jobs[j].pc) { rest := Drive(t, j, builds); }
    Cons(s, e, rest, builds);
    es := [e] + rest;
  }

  ghost function Busy(s: State): set<nat> {
    set j: nat | j < |s.jobs| && !Over(s.jobs[j].pc)
  }

  lemma {:induction false} Append(s: State, es: seq<Event>, fs: seq<Event>)
    requires Possible(s, es) && Possible(Run(s, es), fs)
    ensures Possible(s, es + fs) && Run(s, es + fs) == Run(Run(s, es), fs)
    decreases |es|
  {
    if es == [] {
      assert es + fs == fs;
    } else {
      assert (es + fs)[0] == es[0] && (es + fs)[1..] == es[1..] + fs;
      Append(Apply(s, es[0]), es[1..], fs);
    }
  }

  /** A job that can be driven: one that is busy, or the one that keeps it out. */
  lemma SomeFree(s: State) returns (j: nat)
    requires Inv(s) && Busy(s) != {}
    ensures j in Busy(s) && Free(s, j)
  {
    j :| j in Busy(s);
    var key := s.jobs[j].key;
    if key in s.lock { j := s.lock[key]; }
  }

  lemma {:induction false} FinishesFrom(s: State, builds: nat -> Option<Files>) returns (es: seq<Event>)
    requires Inv(s)
    ensures Possible(s, es) && CalmRun(es, builds) && |Run(s, es).jobs| == |s.jobs|
    ensures forall j | 0 <= j < |s.jobs| ::
              if Over(s.jobs[j].pc) then Run(s, es).jobs[j] == s.jobs[j] else Ended(Run(s, es).jobs[j].pc)
    decreases |Busy(s)|
  {
    if Busy(s) == {} {
      es := [];
      forall j | 0 <= j < |s.jobs| ensures Over(s.jobs[j].pc) { assert j !in Busy(s); }
    } else {
      var j := SomeFree(s);
      var first := Drive(s, j, builds);
      var t := Run(s, first);
      RunInv(s, first);
      assert Busy(t) == Busy(s) - {j};
      var rest := FinishesFrom(t, builds);
      Append(s, first, rest);
      es := first + rest;
    }
  }

  /** From every reachable state, whatever the builds bring, some schedule without crashes
      brings every job that has not crashed to a hit, a publication, a skip or a failure. */
  lemma FinishesTheorem(s: State, builds: nat -> Option<Files>) returns (es: seq<Event>)
    requires Reachable(s)
    ensures Possible(s, es) && CalmRun(es, builds) && |Run(s, es).jobs| == |s.jobs|
    ensures forall j | 0 <= j < |s.jobs| && !s.jobs[j].pc.Crashed? :: Ended(Run(s, es).jobs[j].pc)
  {
    ReachableInv(s);
    es := FinishesFrom(s, builds);
  }
}
