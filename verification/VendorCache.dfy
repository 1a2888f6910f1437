/** Processes that share a vendor cache directory: unlocked tests, file locks, removal file
    by file, publication through a staging copy, a marker and an atomic rename. A job is
    what one process does for one cache entry; it can crash between any two steps. */
module VendorCache {
  import opened Basics

  type Key = nat
  type File = nat
  type Files = map<File, int>

  /** `marker` is the ready marker; `whole` (history) is what was published, if the entry
      was published here. */
  datatype Entry = Entry(files: Files, marker: bool, whole: Option<Files>)

  datatype Workspace = Absent | Tree(files: Files) | Link(key: Key)

  /** The four places that look for readiness: unlocked and locked in the preparation,
      locked in the publication, and again before the old entry is replaced. */
  datatype Where = First | Second | Third | Fourth

  datatype Pc =
    | Start
    | Test(w: Where, i: nat)      // i == 0: the marker is next; otherwise required file i - 1
    | Missed
    | WantLock(w: Where)
    | Removing(w: Where)
    | ClearWorkspace
    | Building
    | Replacing
    | Copying
    | Marking
    | Renaming
    | Linking(locked: bool)
    | Unlock(published: bool)
    | Hit | Published | Skipped | Failed | Crashed

  datatype Job = Job(key: Key, pc: Pc, workspace: Workspace, snapshot: Files)

  /** `first` is what the cache held in the beginning. */
  datatype State = State(
    required: Key -> seq<File>, first: map<Key, Entry>,
    entries: map<Key, Entry>, lock: map<Key, nat>, jobs: seq<Job>)

  function Init(required: Key -> seq<File>, found: map<Key, Entry>): State {
    State(required, found, found, map[], [])
  }

  predicate Has(required: seq<File>, files: Files) {
    forall i | 0 <= i < |required| :: required[i] in files
  }

  predicate Ready(required: seq<File>, e: Entry) {
    e.marker && Has(required, e.files)
  }

  predicate IsReady(s: State, key: Key) {
    key in s.entries && Ready(s.required(key), s.entries[key])
  }

  predicate Locked(pc: Pc) {
    match pc
    case Test(w, _) => !w.First?
    case Removing(_) => true
    case Replacing => true
    case Copying => true
    case Marking => true
    case Renaming => true
    case Linking(locked) => locked
    case Unlock(_) => true
    case _ => false
  }

  function Go(s: State, j: nat, pc: Pc): State
    requires j < |s.jobs|
  {
    s.(jobs := s.jobs[j := s.jobs[j].(pc := pc)])
  }

  function Set(s: State, j: nat, job: Job): State
    requires j < |s.jobs|
  {
    s.(jobs := s.jobs[j := job])
  }

  /** Whether the next thing that a test looks for is there. */
  predicate Present(s: State, key: Key, i: nat) {
    key in s.entries
    && if i == 0 then s.entries[key].marker
       else i <= |s.required(key)| && s.required(key)[i - 1] in s.entries[key].files
  }

  function Passed(w: Where): Pc {
    match w
    case First => Linking(false)
    case Second => Unlock(false)
    case Third => Linking(true)
    case Fourth => Linking(true)
  }

  function NotReady(w: Where): Pc {
    match w
    case First => Missed
    case Second => Removing(Second)
    case Third => Replacing
    case Fourth => Removing(Fourth)
  }

  function TestStep(s: State, j: nat): State
    requires j < |s.jobs| && s.jobs[j].pc.Test?
  {
    var job := s.jobs[j];
    if job.pc.i > |s.required(job.key)| then Go(s, j, Passed(job.pc.w))
    else if Present(s, job.key, job.pc.i) then Go(s, j, Test(job.pc.w, job.pc.i + 1))
    else Go(s, j, NotReady(job.pc.w))
  }

  /** Removes one file, the marker, or the empty directory. */
  function RemoveStep(s: State, j: nat, pick: Option<File>): State
    requires j < |s.jobs| && s.jobs[j].pc.Removing?
  {
    var job := s.jobs[j];
    var after := if job.pc.w.Second? then Unlock(false) else Copying;
    if job.key !in s.entries then Go(Set(s, j, job.(snapshot := map[])), j, after)
    else
      var e := s.entries[job.key];
      if pick.Some? && pick.value in e.files
      then s.(entries := s.entries[job.key := e.(files := e.files - {pick.value})])
      else if e.marker then s.(entries := s.entries[job.key := e.(marker := false)])
      else if e.files == map[] then s.(entries := s.entries - {job.key})
      else s
  }

  /** Copies one more file of the workspace into the staging directory. */
  function CopyStep(s: State, j: nat, pick: Option<File>): State
    requires j < |s.jobs|
  {
    var job := s.jobs[j];
    if !job.workspace.Tree? then s
    else if pick.Some? && pick.value in job.workspace.files then
      Set(s, j, job.(snapshot := job.snapshot[pick.value := job.workspace.files[pick.value]]))
    else if job.snapshot.Keys == job.workspace.files.Keys then Go(s, j, Marking)
    else s
  }

  function Advance(s: State, j: nat, pick: Option<File>): State
    requires j < |s.jobs|
  {
    var job := s.jobs[j];
    match job.pc
    case Start => Go(s, j, Test(First, 0))
    case Test(_, _) => TestStep(s, j)
    case Missed => Go(s, j, if job.key in s.entries then WantLock(Second) else ClearWorkspace)
    case WantLock(w) =>
      if job.key in s.lock then s else Go(s, j, Test(w, 0)).(lock := s.lock[job.key := j])
    case Removing(_) => RemoveStep(s, j, pick)
    case ClearWorkspace => Set(s, j, job.(workspace := Absent, pc := Building))
    case Building => s
    case Replacing =>
      if job.key in s.entries then Go(s, j, Test(Fourth, 0)) else Set(s, j, job.(snapshot := map[], pc := Copying))
    case Copying => CopyStep(s, j, pick)
    case Marking => Go(s, j, Renaming)
    case Renaming =>
      Go(s, j, Linking(true)).(entries := s.entries[job.key := Entry(job.snapshot, true, Some(job.snapshot))])
    case Linking(locked) => Set(s, j, job.(workspace := Link(job.key), pc := if locked then Unlock(true) else Hit))
    case Unlock(published) =>
      Go(s, j, if published then Published else ClearWorkspace).(lock := s.lock - {job.key})
    case _ => s
  }

  /** The end of the build; `files` is the output, if there is any. */
  function Publish(s: State, j: nat, files: Option<Files>): State
    requires j < |s.jobs|
  {
    var job := s.jobs[j];
    match files
    case None => Go(s, j, Skipped)
    case Some(fs) =>
      Set(s, j, job.(workspace := Tree(fs), pc := if Has(s.required(job.key), fs) then WantLock(Third) else Failed))
  }

  /** A crash gives the lock back and leaves everything else as it is. */
  function Crash(s: State, j: nat): State
    requires j < |s.jobs|
  {
    Go(s, j, Crashed).(lock := if Locked(s.jobs[j].pc) then s.lock - {s.jobs[j].key} else s.lock)
  }

  datatype Event =
    | Spawn(key: Key, workspace: Workspace)
    | Step(j: nat, pick: Option<File>)
    | Built(j: nat, files: Option<Files>)
    | Die(j: nat)

  ghost predicate Enabled(s: State, e: Event) {
    match e
    case Spawn(_, _) => true
    case Step(j, _) => j < |s.jobs|
    case Built(j, _) => j < |s.jobs| && s.jobs[j].pc.Building?
    case Die(j) => j < |s.jobs|
  }

  function Apply(s: State, e: Event): State
    requires Enabled(s, e)
  {
    match e
    case Spawn(key, workspace) => s.(jobs := s.jobs + [Job(key, Start, workspace, map[])])
    case Step(j, pick) => Advance(s, j, pick)
    case Built(j, files) => Publish(s, j, files)
    case Die(j) => Crash(s, j)
  }

  ghost predicate Possible(s: State, es: seq<Event>)
    decreases |es|
  {
    es == [] || (Enabled(s, es[0]) && Possible(Apply(s, es[0]), es[1..]))
  }

  ghost function Run(s: State, es: seq<Event>): State
    requires Possible(s, es)
    decreases |es|
  {
    if es == [] then s else Run(Apply(s, es[0]), es[1..])
  }
}
