/**
 The deployment pipeline as a protocol: upload handlers, build workers with their
 watchdogs, and the reconciler, all updating the one deployments table.

 Each step is one SQL statement or one actor-local move between statements; a run is any
 interleaving of steps. Three facts the code relies on but does not enforce are named:
   S1  a deployment is uploaded while it is `pending`, so at most once;
   S2  the upload handler's two statements are atomic;
   S3  when the reconciler writes `deploying` or `running` for a row of its snapshot, the
       row still has the status the snapshot recorded.
 A run is checked against a record saying which of them it keeps.
 */
module Pipeline {
  import opened Deployments

  // ----- actors -----

  /** Where one build-service goroutine (one semaphore slot) is. */
  datatype Worker =
    | Free                                  // slot not taken
    | Acquired                              // slot taken, nothing claimed yet
    | Preparing(id: DepId)                  // slug lookup, work directory, source download
    | Compiling(id: DepId, cancelled: bool) // inside Build, watchdog polling
    | Built(id: DepId, image: string)       // Build returned an image
    | ImageSet(id: DepId)                   // image stored, hand-off still to come
    | BuildFailed(id: DepId)                // Build returned an error, status not read yet
    | Failing(id: DepId)                    // decided to stamp the row failed

  predicate Holds(w: Worker) { !w.Free? && !w.Acquired? }

  /** One row of the reconciler's snapshot. */
  datatype Entry = Entry(id: DepId, project: ProjectId, status: Status, image: string)

  datatype Reconciler =
    | Idle
    | Handling(todo: seq<Entry>)        // about to handle todo[0]
    | Applying(todo: seq<Entry>)        // todo[0] marked deploying, cluster apply under way
    | MarkedRunning(todo: seq<Entry>)   // todo[0] marked running, siblings not superseded yet

  function Todo(r: Reconciler): seq<Entry> {
    if r.Idle? then [] else r.todo
  }

  datatype Sys = Sys(
    table: Table,
    slots: seq<Worker>,               // MaxConcurrent semaphore slots
    rec: Reconciler,
    midUpload: multiset<DepId>,       // uploads between their two statements
    deleted: set<ProjectId>,
    clock: Time,
    tickets: map<DepId, nat>,         // history: position of each deployment in upload order
    uploads: nat,                     // history: number of uploads so far
    runs: seq<DepId>,                 // history: deployments marked running, in order
    torn: set<ProjectId>)             // history: projects whose mark was cut off from its supersede by a crash

  datatype Assumptions = Assumptions(s1: bool, s2: bool, s3: bool)

  datatype Step =
    | Tock
    | Create(id: DepId, project: ProjectId)
    | DeleteProject(project: ProjectId)
    // upload handler
    | UploadQueue(id: DepId, key: string)
    | UploadSupersede(id: DepId)
    | UploadAtomic(id: DepId, key: string)
    // build service, slot w
    | Acquire(w: nat)
    | ClaimRow(w: nat, id: DepId, locked: set<DepId>)
    | ClaimNothing(w: nat)
    | PrepareOk(w: nat)
    | PrepareErr(w: nat)
    | WatchdogCancel(w: nat)
    | BuildOk(w: nat, image: string)
    | BuildErr(w: nat)
    | ReadAfterErr(w: nat)
    | StampFailed(w: nat, reason: string)
    | StoreImage(w: nat)
    | HandOff(w: nat)
    // reconciler
    | Tick(todo: seq<Entry>)
    | TickDone
    | MarkDeploying
    | ApplyOk
    | Fail(reason: string)
    | NotReady
    | MarkRunning
    | SupersedeRunning
    | Restart

  /** The tick query: live projects' pushing/deploying rows, oldest upload first, at most 8. */
  ghost predicate IsSnapshot(t: Table, deleted: set<ProjectId>, todo: seq<Entry>) {
    && |todo| <= 8
    && (forall k | 0 <= k < |todo| ::
          && todo[k].id in t && Selected(t[todo[k].id], deleted)
          && todo[k] == EntryOf(todo[k].id, t[todo[k].id]))
    && (forall j, k | 0 <= j < k < |todo| ::
          todo[j].id != todo[k].id && NotLaterQueued(t[todo[j].id], t[todo[k].id]))
    && (forall i | i in t && Selected(t[i], deleted) ::
          || (exists k :: 0 <= k < |todo| && todo[k].id == i)
          || (|todo| == 8 && NotLaterQueued(t[todo[7].id], t[i])))
  }

  /**
   In terms of the times themselves: they never decrease along a snapshot, rows without one come last, and whatever
   was left out by the limit of eight has no earlier time than any row of it.
   */
  lemma SnapshotIsOldest(t: Table, deleted: set<ProjectId>, todo: seq<Entry>)
    requires IsSnapshot(t, deleted, todo)
    ensures forall j, k | 0 <= j < k < |todo| && t[todo[k].id].queuedAt.Some? ::
              && t[todo[j].id].queuedAt.Some?
              && t[todo[j].id].queuedAt.value <= t[todo[k].id].queuedAt.value
    ensures forall k | 0 <= k < |todo| ::
              && t[todo[k].id].status in {Pushing, Deploying} && t[todo[k].id].project !in deleted
              && todo[k].project == t[todo[k].id].project && todo[k].status == t[todo[k].id].status
              && todo[k].image == t[todo[k].id].image
    ensures forall i | i in t && t[i].status in {Pushing, Deploying} && t[i].project !in deleted && IsLeftOut(todo, i) ::
              && |todo| == 8
              && forall k | 0 <= k < 8 && t[i].queuedAt.Some? ::
                   t[todo[k].id].queuedAt.Some? && t[todo[k].id].queuedAt.value <= t[i].queuedAt.value
  {
    forall i | i in t && Selected(t[i], deleted) && IsLeftOut(todo, i)
      ensures |todo| == 8 && forall k | 0 <= k < 8 :: NotLaterQueued(t[todo[k].id], t[i])
    {
      assert NotLaterQueued(t[todo[7].id], t[i]);
      assert forall k | 0 <= k < 7 :: NotLaterQueued(t[todo[k].id], t[todo[7].id]);
    }
  }

  ghost predicate IsLeftOut(todo: seq<Entry>, id: DepId) { forall k | 0 <= k < |todo| :: todo[k].id != id }

  function EntryOf(id: DepId, d: Deployment): Entry { Entry(id, d.project, d.status, d.image) }

  predicate Selected(d: Deployment, deleted: set<ProjectId>) {
    (d.status.Pushing? || d.status.Deploying?) && d.project !in deleted
  }

  predicate At(s: Sys, w: nat) { w < |s.slots| }

  /** What must hold for `step` to be the next thing that happens. */
  ghost predicate Enabled(s: Sys, step: Step) {
    match step
    case Tock => true
    case Create(id, _) => id !in s.table
    case DeleteProject(_) => true
    case UploadQueue(id, _) => id in s.table
    case UploadSupersede(id) => id in s.midUpload && id in s.table
    case UploadAtomic(id, _) => id in s.table
    case Acquire(w) => At(s, w) && s.slots[w].Free?
    case ClaimRow(w, id, locked) => At(s, w) && s.slots[w].Acquired? && Claimable(s.table, id, locked)
    case ClaimNothing(w) => At(s, w) && s.slots[w].Acquired?
    case PrepareOk(w) => At(s, w) && s.slots[w].Preparing?
    case PrepareErr(w) => At(s, w) && s.slots[w].Preparing?
    case WatchdogCancel(w) =>
      && At(s, w) && s.slots[w].Compiling?
      && s.slots[w].id in s.table && !s.table[s.slots[w].id].status.Building?
    case BuildOk(w, image) => At(s, w) && s.slots[w].Compiling? && image != ""
    case BuildErr(w) => At(s, w) && s.slots[w].Compiling?
    case ReadAfterErr(w) => At(s, w) && s.slots[w].BuildFailed? && s.slots[w].id in s.table
    case StampFailed(w, _) => At(s, w) && s.slots[w].Failing?
    case StoreImage(w) => At(s, w) && s.slots[w].Built?
    case HandOff(w) => At(s, w) && s.slots[w].ImageSet?
    case Tick(todo) => s.rec.Idle? && IsSnapshot(s.table, s.deleted, todo)
    case TickDone => s.rec == Handling([])
    case MarkDeploying => s.rec.Handling? && s.rec.todo != [] && s.rec.todo[0].status.Pushing?
    case ApplyOk => s.rec.Applying? && s.rec.todo != []
    case Fail(_) => (s.rec.Handling? || s.rec.Applying?) && s.rec.todo != []
    case NotReady => s.rec.Handling? && s.rec.todo != [] && s.rec.todo[0].status.Deploying?
    case MarkRunning => s.rec.Handling? && s.rec.todo != [] && s.rec.todo[0].status.Deploying?
    case SupersedeRunning => s.rec.MarkedRunning? && s.rec.todo != []
    case Restart => true
  }

  /** The named assumptions, as conditions on single steps. */
  ghost predicate Keeps(a: Assumptions, s: Sys, step: Step)
    requires Enabled(s, step)
  {
    && (a.s1 && (step.UploadQueue? || step.UploadAtomic?) ==> s.table[step.id].status.Pending?)
    && (a.s2 ==> !step.UploadQueue?)
    && (a.s3 && (step.MarkDeploying? || step.MarkRunning?) ==>
          s.rec.todo[0].id in s.table && s.table[s.rec.todo[0].id].status == s.rec.todo[0].status)
  }

  // ----- what a step does, field by field -----

  function NextTable(s: Sys, step: Step): Table
    requires Enabled(s, step)
  {
    match step
    case Create(id, project) => s.table[id := Fresh(project)]
    case UploadQueue(id, key) => Queue(s.table, id, key, s.clock)
    case UploadSupersede(id) => SupersedeOlder(s.table, s.table[id].project, id)
    case UploadAtomic(id, key) => SupersedeOlder(Queue(s.table, id, key, s.clock), s.table[id].project, id)
    case ClaimRow(_, id, _) => Claim(s.table, id, s.clock)
    case StampFailed(w, reason) => Mark(s.table, s.slots[w].id, Failed, reason, s.clock)
    case StoreImage(w) => SetImage(s.table, s.slots[w].id, s.slots[w].image)
    case HandOff(w) => Advance(s.table, s.slots[w].id, Building, Pushing, s.clock)
    case MarkDeploying => Mark(s.table, s.rec.todo[0].id, Deploying, "", s.clock)
    case Fail(reason) => Mark(s.table, s.rec.todo[0].id, Failed, reason, s.clock)
    case MarkRunning => Mark(s.table, s.rec.todo[0].id, Running, "", s.clock)
    case SupersedeRunning => SupersedeSiblings(s.table, s.rec.todo[0].project, s.rec.todo[0].id)
    case _ => s.table
  }

  function NextSlots(s: Sys, step: Step): (slots: seq<Worker>)
    requires Enabled(s, step)
    ensures |slots| == |s.slots|
  {
    match step
    case Acquire(w) => s.slots[w := Acquired]
    case ClaimRow(w, id, _) => s.slots[w := Preparing(id)]
    case ClaimNothing(w) => s.slots[w := Free]
    case PrepareOk(w) => s.slots[w := Compiling(s.slots[w].id, false)]
    case PrepareErr(w) => s.slots[w := Failing(s.slots[w].id)]
    case WatchdogCancel(w) => s.slots[w := Compiling(s.slots[w].id, true)]
    case BuildOk(w, image) => s.slots[w := Built(s.slots[w].id, image)]
    case BuildErr(w) => s.slots[w := BuildFailed(s.slots[w].id)]
    case ReadAfterErr(w) =>
      s.slots[w := if s.table[s.slots[w].id].status.Building? then Failing(s.slots[w].id) else Free]
    case StampFailed(w, _) => s.slots[w := Free]
    case StoreImage(w) => s.slots[w := ImageSet(s.slots[w].id)]
    case HandOff(w) => s.slots[w := Free]
    case _ => s.slots
  }

  function NextRec(s: Sys, step: Step): Reconciler
    requires Enabled(s, step)
  {
    match step
    case Tick(todo) => Handling(todo)
    case TickDone => Idle
    case MarkDeploying => Applying(s.rec.todo)
    case ApplyOk => Handling(s.rec.todo[1..])
    case Fail(_) => Handling(s.rec.todo[1..])
    case NotReady => Handling(s.rec.todo[1..])
    case MarkRunning => MarkedRunning(s.rec.todo)
    case SupersedeRunning => Handling(s.rec.todo[1..])
    case Restart => Idle
    case _ => s.rec
  }

  function NextMidUpload(s: Sys, step: Step): multiset<DepId> {
    match step
    case UploadQueue(id, _) => s.midUpload + multiset{id}
    case UploadSupersede(id) => s.midUpload - multiset{id}
    case _ => s.midUpload
  }

  /** The crash of the reconciler between marking a deployment running and superseding its siblings. */
  predicate CutsOff(s: Sys, step: Step) { step.Restart? && s.rec.MarkedRunning? && s.rec.todo != [] }

  function NextTorn(s: Sys, step: Step): set<ProjectId>
    requires Enabled(s, step)
  {
    if CutsOff(s, step) then s.torn + {s.rec.todo[0].project}
    else if step.SupersedeRunning? then s.torn - {s.rec.todo[0].project}
    else s.torn
  }

  predicate IsUpload(step: Step) { step.UploadQueue? || step.UploadAtomic? }

  function Next(s: Sys, step: Step): Sys
    requires Enabled(s, step)
  {
    Sys(NextTable(s, step),
        NextSlots(s, step),
        NextRec(s, step),
        NextMidUpload(s, step),
        if step.DeleteProject? then s.deleted + {step.project} else s.deleted,
        if step.Tock? then s.clock + 1 else s.clock,
        if IsUpload(step) then s.tickets[step.id := s.uploads] else s.tickets,
        if IsUpload(step) then s.uploads + 1 else s.uploads,
        if step.MarkRunning? then s.runs + [s.rec.todo[0].id] else s.runs,
        NextTorn(s, step))
  }

  /** An empty database, all slots free. */
  predicate Init(s: Sys) {
    && s.table == map[] && s.rec.Idle? && s.midUpload == multiset{}
    && (forall w | 0 <= w < |s.slots| :: s.slots[w].Free?)
    && s.tickets == map[] && s.uploads == 0 && s.runs == [] && s.torn == {}
  }

  ghost predicate Run(a: Assumptions, s: Sys, steps: seq<Step>)
    decreases |steps|
  {
    steps == [] ||
    (Enabled(s, steps[0]) && Keeps(a, s, steps[0]) && Run(a, Next(s, steps[0]), steps[1..]))
  }

  /** The state a run ends in. */
  ghost function End(a: Assumptions, s: Sys, steps: seq<Step>): Sys
    requires Run(a, s, steps)
    decreases |steps|
  {
    if steps == [] then s else End(a, Next(s, steps[0]), steps[1..])
  }

  /** A run cut in two: the state after the first part starts the second. */
  lemma {:induction false} RunSplit(a: Assumptions, s: Sys, steps: seq<Step>, n: nat)
    requires n <= |steps| && Run(a, s, steps)
    ensures Run(a, s, steps[..n])
    ensures Run(a, End(a, s, steps[..n]), steps[n..])
    ensures End(a, End(a, s, steps[..n]), steps[n..]) == End(a, s, steps)
    decreases n
  {
    hide Next, Enabled, Keeps;
    var front, rest := steps[..n], steps[n..];
    if n == 0 {
      assert rest == steps && front == [];
    } else {
      assert front[0] == steps[0] && front[1..] == steps[1..][..n - 1] && steps[1..][n - 1..] == rest;
      RunSplit(a, Next(s, steps[0]), steps[1..], n - 1);
    }
  }
}
