/**
 What the pipeline keeps in every interleaving, with no assumption at all: stale snapshots,
 repeated uploads, project deletions and reconciler crashes at any point included.
 */
module PipelineAlways {
  import opened Wrappers
  import opened Deployments
  import opened Pipeline

  /** Image and timestamps are there whenever the status says so. */
  ghost predicate RowComplete(d: Deployment) {
    && (d.status.Pushing? || d.status.Deploying? || d.status.Running? ==> d.image != "")
    && (d.status.Pushing? || d.status.Deploying? || d.status.Running? || d.status.Failed? ==> d.buildDoneAt.Some?)
    && (d.status.Running? ==> d.deployedAt.Some?)
  }

  ghost predicate RowsComplete(s: Sys) {
    forall id | id in s.table :: RowComplete(s.table[id])
  }

  /** Every snapshot row still exists, belongs to the recorded project and has an image. */
  ghost predicate SnapshotSound(s: Sys) {
    forall k | 0 <= k < |Todo(s.rec)| :: EntrySound(s, Todo(s.rec)[k])
  }

  ghost predicate EntrySound(s: Sys, e: Entry) {
    && e.id in s.table && s.table[e.id].project == e.project
    && e.image != "" && s.table[e.id].image != ""
    && (e.status.Pushing? || e.status.Deploying?)
  }

  ghost predicate SlotSound(s: Sys, w: Worker) {
    && (Holds(w) ==> w.id in s.table)
    && (w.Built? ==> w.image != "")
    && (w.ImageSet? ==> s.table[w.id].image != "")
  }

  ghost predicate SlotsSound(s: Sys) {
    forall w | 0 <= w < |s.slots| :: SlotSound(s, s.slots[w])
  }

  ghost predicate BothRunning(s: Sys, i: DepId, j: DepId) {
    && i in s.table && j in s.table && i != j
    && s.table[i].project == s.table[j].project
    && s.table[i].status.Running? && s.table[j].status.Running?
  }

  /**
   Two running deployments of a project: only while the reconciler is about to supersede one of them, or
   after a crash took it away from there and before it supersedes that project's siblings again.
   */
  ghost predicate OneRunning(s: Sys) {
    forall i, j | BothRunning(s, i, j) ::
      || s.table[i].project in s.torn
      || (s.rec.MarkedRunning? && s.rec.todo != [] && (i == s.rec.todo[0].id || j == s.rec.todo[0].id))
  }

  ghost predicate Sound(s: Sys) {
    RowsComplete(s) && SnapshotSound(s) && SlotsSound(s) && OneRunning(s)
    && (s.rec.MarkedRunning? ==> s.rec.todo != [])
  }

  // ----- one row at a time -----

  /** The rows a statement in `step` may write, and with what status. */
  function NextRow(s: Sys, step: Step, id: DepId): Deployment
    requires Enabled(s, step) && id in s.table
  {
    var d := s.table[id];
    match step
    case UploadQueue(i, key) => if i == id then Uploaded(d, key, s.clock) else d
    case UploadSupersede(i) => if Outdated(s.table, i, id) then d.(status := Superseded) else d
    case UploadAtomic(i, key) =>
      if i == id then Uploaded(d, key, s.clock)
      else if Outdated(s.table, i, id) then d.(status := Superseded) else d
    case ClaimRow(_, i, _) => if i == id then d.(status := Building, buildStartedAt := Some(s.clock)) else d
    case StampFailed(w, reason) => if s.slots[w].id == id then Marked(d, Failed, reason, s.clock) else d
    case StoreImage(w) => if s.slots[w].id == id then d.(image := s.slots[w].image) else d
    case HandOff(w) =>
      if s.slots[w].id == id && d.status.Building?
      then d.(status := Pushing, buildDoneAt := OrElse(d.buildDoneAt, s.clock)) else d
    case MarkDeploying => if s.rec.todo[0].id == id then Marked(d, Deploying, "", s.clock) else d
    case Fail(reason) => if s.rec.todo[0].id == id then Marked(d, Failed, reason, s.clock) else d
    case MarkRunning => if s.rec.todo[0].id == id then Marked(d, Running, "", s.clock) else d
    case SupersedeRunning =>
      if d.project == s.rec.todo[0].project && id != s.rec.todo[0].id && d.status.Running?
      then d.(status := Superseded) else d
    case _ => d
  }

  function Uploaded(d: Deployment, key: string, now: Time): Deployment {
    d.(status := Queued, sourceKey := key, queuedAt := Some(now))
  }

  /** `id` is an in-flight sibling of the upload `by`. */
  predicate Outdated(t: Table, newer: DepId, id: DepId)
    requires newer in t && id in t
  {
    t[id].project == t[newer].project && id != newer && InFlight(t[id].status)
  }

  function Marked(d: Deployment, to: Status, reason: string, now: Time): Deployment {
    d.(status := to, reason := reason,
       buildDoneAt := if StampsBuildDone(to) then OrElse(d.buildDoneAt, now) else d.buildDoneAt,
       deployedAt := if to.Running? then OrElse(d.deployedAt, now) else d.deployedAt)
  }

  /** The statements, read row by row: no other row changes, and only Create adds one. */
  lemma RowByRow(s: Sys, step: Step, id: DepId)
    requires Enabled(s, step)
    ensures id in s.table ==> id in NextTable(s, step) && NextTable(s, step)[id] == NextRow(s, step, id)
    ensures id in NextTable(s, step) && id !in s.table ==> step.Create? && step.id == id && NextTable(s, step)[id] == Fresh(step.project)
  {
  }

  /** What one step can do to a row: nothing disappears, nothing moves project, stamps stay. */
  ghost predicate Evolves(d: Deployment, d': Deployment) {
    && d'.project == d.project
    && (d.image != "" ==> d'.image != "")
    && (d.buildDoneAt.Some? ==> d'.buildDoneAt == d.buildDoneAt)
    && (d.deployedAt.Some? ==> d'.deployedAt == d.deployedAt)
  }

  ghost predicate RowsEvolve(t: Table, t': Table) {
    forall id | id in t :: id in t' && Evolves(t[id], t'[id])
  }

  lemma RowEvolves(s: Sys, step: Step, id: DepId)
    requires Sound(s) && Enabled(s, step) && id in s.table
    ensures Evolves(s.table[id], NextRow(s, step, id))
  {
    hide RowsComplete, SnapshotSound, OneRunning;
    if step.StoreImage? { assert SlotSound(s, s.slots[step.w]); }
  }

  lemma StepEvolves(s: Sys, step: Step)
    requires Sound(s) && Enabled(s, step)
    ensures RowsEvolve(s.table, Next(s, step).table)
  {
    hide NextTable, NextSlots, NextRec, NextRow, Sound, Enabled, Evolves;
    forall id | id in s.table ensures id in Next(s, step).table && Evolves(s.table[id], Next(s, step).table[id]) {
      RowByRow(s, step, id);
      RowEvolves(s, step, id);
    }
  }

  lemma StepRowsComplete(s: Sys, step: Step)
    requires Sound(s) && Enabled(s, step)
    ensures RowsComplete(Next(s, step))
  {
    hide NextTable, NextSlots, NextRec, NextTorn, NextMidUpload, OneRunning, IsSnapshot, Claimable;
    var s' := Next(s, step);
    if step.MarkDeploying? || step.MarkRunning? {
      assert EntrySound(s, Todo(s.rec)[0]);
    } else if step.HandOff? {
      assert SlotSound(s, s.slots[step.w]);
    }
    hide SlotsSound, SnapshotSound;
    forall id | id in s'.table ensures RowComplete(s'.table[id]) {
      RowByRow(s, step, id);
      if id in s.table { assert RowComplete(s.table[id]); }
    }
  }

  /** The queue only ever loses its head, or is replaced by a fetched snapshot. */
  lemma TodoShrinks(s: Sys, step: Step, k: nat)
    requires Enabled(s, step) && k < |Todo(NextRec(s, step))|
    ensures step.Tick? ==> k < |step.todo| && Todo(NextRec(s, step))[k] == step.todo[k]
    ensures !step.Tick? ==> Todo(NextRec(s, step))[k] in Todo(s.rec)
  {
    if !step.Tick? && Todo(NextRec(s, step)) != Todo(s.rec) {
      assert Todo(NextRec(s, step)) == Todo(s.rec)[1..];
      assert Todo(NextRec(s, step))[k] == Todo(s.rec)[k + 1];
    }
  }

  lemma StepSnapshotSound(s: Sys, step: Step)
    requires Sound(s) && Enabled(s, step)
    ensures SnapshotSound(Next(s, step))
  {
    hide NextTable, NextSlots, NextRec;
    var s' := Next(s, step);
    StepEvolves(s, step);
    forall k | 0 <= k < |Todo(s'.rec)| ensures EntrySound(s', Todo(s'.rec)[k]) {
      var e := Todo(s'.rec)[k];
      TodoShrinks(s, step, k);
      if step.Tick? {
        assert e == step.todo[k] && Selected(s.table[e.id], s.deleted) && RowComplete(s.table[e.id]);
      } else {
        assert EntrySound(s, e);
      }
    }
  }

  /** A slot either starts on the row it claims or keeps the row it has. */
  lemma SlotKeepsRow(s: Sys, step: Step, w: nat)
    requires Enabled(s, step) && w < |NextSlots(s, step)|
    ensures var v := NextSlots(s, step)[w];
            && (Holds(v) ==> (step.ClaimRow? && step.w == w && v == Preparing(step.id))
                             || (Holds(s.slots[w]) && v.id == s.slots[w].id))
            && (v.Built? ==> v == s.slots[w] || (step.BuildOk? && v.image == step.image))
            && (v.ImageSet? ==> v == s.slots[w] || (step.StoreImage? && step.w == w && s.slots[w].Built?))
            && (v.Compiling? && v.cancelled ==> v == s.slots[w] || (step.WatchdogCancel? && step.w == w))
  {
  }

  lemma StepSlotsSound(s: Sys, step: Step)
    requires Sound(s) && Enabled(s, step)
    ensures SlotsSound(Next(s, step))
  {
    hide NextTable, NextSlots, NextRec, SnapshotSound, OneRunning, RowsComplete, NextRow;
    var s' := Next(s, step);
    StepEvolves(s, step);
    forall w | 0 <= w < |s'.slots| ensures SlotSound(s', s'.slots[w]) {
      SlotKeepsRow(s, step, w);
      assert SlotSound(s, s.slots[w]);
      if step.StoreImage? { StoredImage(s, step.w); }
    }
  }

  lemma StoredImage(s: Sys, w: nat)
    requires Enabled(s, StoreImage(w)) && SlotSound(s, s.slots[w])
    ensures NextTable(s, StoreImage(w))[s.slots[w].id].image != ""
  {
  }

  /** A row runs after a step if it did before, or is being marked; a supersede leaves one of its project. */
  lemma RunsAfter(s: Sys, step: Step, id: DepId)
    requires Enabled(s, step)
    requires id in NextTable(s, step) && NextTable(s, step)[id].status.Running?
    ensures id in s.table && NextTable(s, step)[id].project == s.table[id].project
    ensures s.table[id].status.Running? || (step.MarkRunning? && id == s.rec.todo[0].id)
    ensures step.SupersedeRunning? && s.table[id].project == s.rec.todo[0].project ==> id == s.rec.todo[0].id
  {
    hide NextTable, IsSnapshot, Claimable;
    RowByRow(s, step, id);
  }

  lemma StepOneRunning(s: Sys, step: Step)
    requires Sound(s) && Enabled(s, step)
    ensures OneRunning(Next(s, step))
  {
    hide NextTable, NextSlots, NextMidUpload, NextRow, RowsComplete, SlotsSound, IsSnapshot, Claimable;
    var s' := Next(s, step);
    if Todo(s.rec) != [] { assert EntrySound(s, Todo(s.rec)[0]); }
    hide SnapshotSound;
    forall i, j | BothRunning(s', i, j)
      ensures || s'.table[i].project in s'.torn
              || (s'.rec.MarkedRunning? && s'.rec.todo != [] && (i == s'.rec.todo[0].id || j == s'.rec.todo[0].id))
    {
      RunsAfter(s, step, i);
      RunsAfter(s, step, j);
      if step.MarkRunning? && (i == s.rec.todo[0].id || j == s.rec.todo[0].id) {
      } else {
        assert BothRunning(s, i, j);
      }
    }
  }

  /** Every step keeps all of it. */
  lemma StepSound(s: Sys, step: Step)
    requires Sound(s) && Enabled(s, step)
    ensures Sound(Next(s, step))
  {
    StepRowsComplete(s, step);
    StepSnapshotSound(s, step);
    StepSlotsSound(s, step);
    StepOneRunning(s, step);
  }

  lemma {:induction false} SoundThroughout(a: Assumptions, s: Sys, steps: seq<Step>)
    requires Sound(s) && Run(a, s, steps)
    ensures Sound(End(a, s, steps))
    ensures RowsEvolve(s.table, End(a, s, steps).table)
    decreases |steps|
  {
    if steps != [] {
      StepSound(s, steps[0]);
      StepEvolves(s, steps[0]);
      SoundThroughout(a, Next(s, steps[0]), steps[1..]);
    }
  }

  /** From an empty database, whatever the interleaving, whatever assumptions hold or fail. */
  lemma {:induction false} AlwaysSound(a: Assumptions, s: Sys, steps: seq<Step>)
    requires Init(s) && Run(a, s, steps)
    ensures Sound(End(a, s, steps))
  {
    SoundThroughout(a, s, steps);
  }

  /**
   At most one running deployment per project, except between MarkRunning and SupersedeRunning, or after a
   crash in between until that project's next SupersedeRunning.
   */
  lemma AtMostOneRunning(a: Assumptions, s: Sys, steps: seq<Step>)
    requires Init(s) && Run(a, s, steps)
    ensures var e := End(a, s, steps);
            forall i, j | BothRunning(e, i, j) ::
              || e.table[i].project in e.torn
              || (e.rec.MarkedRunning? && e.rec.todo != [] && (i == e.rec.todo[0].id || j == e.rec.todo[0].id))
  {
    AlwaysSound(a, s, steps);
  }

  /** No step of the run is such a crash for this project. */
  ghost predicate NeverCutOff(a: Assumptions, s: Sys, steps: seq<Step>, project: ProjectId)
    requires Run(a, s, steps)
    decreases |steps|
  {
    steps == [] ||
    (!(CutsOff(s, steps[0]) && s.rec.todo[0].project == project)
     && NeverCutOff(a, Next(s, steps[0]), steps[1..], project))
  }

  /** A project is torn only by a crash of its own, and its next supersede mends it. */
  lemma {:induction false} TornByCrashOnly(a: Assumptions, s: Sys, steps: seq<Step>, project: ProjectId)
    requires project !in s.torn && Run(a, s, steps) && NeverCutOff(a, s, steps, project)
    ensures project !in End(a, s, steps).torn
    decreases |steps|
  {
    hide NextTable, NextSlots, NextRec;
    if steps != [] {
      TornByCrashOnly(a, Next(s, steps[0]), steps[1..], project);
    }
  }

  lemma SupersedeMends(s: Sys)
    requires Sound(s) && Enabled(s, SupersedeRunning)
    ensures s.rec.todo[0].project !in Next(s, SupersedeRunning).torn
    ensures forall i, j | BothRunning(Next(s, SupersedeRunning), i, j) ::
              Next(s, SupersedeRunning).table[i].project != s.rec.todo[0].project
  {
    StepSound(s, SupersedeRunning);
    hide NextTable, NextSlots, Sound;
    forall i, j | BothRunning(Next(s, SupersedeRunning), i, j)
      ensures Next(s, SupersedeRunning).table[i].project != s.rec.todo[0].project
    {
      RowByRow(s, SupersedeRunning, i);
      RowByRow(s, SupersedeRunning, j);
    }
  }

  /** Without a crash there, a project has two running deployments only between the mark and the supersede. */
  lemma OneRunningWithoutCrash(a: Assumptions, s: Sys, steps: seq<Step>, i: DepId, j: DepId)
    requires Init(s) && Run(a, s, steps) && BothRunning(End(a, s, steps), i, j)
    requires NeverCutOff(a, s, steps, End(a, s, steps).table[i].project)
    ensures var e := End(a, s, steps);
            e.rec.MarkedRunning? && e.rec.todo != [] && (i == e.rec.todo[0].id || j == e.rec.todo[0].id)
  {
    hide Run, End, Next, Enabled, Keeps;
    AtMostOneRunning(a, s, steps);
    TornByCrashOnly(a, s, steps, End(a, s, steps).table[i].project);
  }

  /** build_done_at and deployed_at are written at most once over any run from any reachable state. */
  lemma TimestampsWriteOnce(a: Assumptions, s: Sys, before: seq<Step>, after: seq<Step>, id: DepId)
    requires Init(s) && Run(a, s, before + after)
    requires Run(a, s, before)
    requires id in End(a, s, before).table
    ensures id in End(a, s, before + after).table
    ensures var d, d' := End(a, s, before).table[id], End(a, s, before + after).table[id];
            && (d.buildDoneAt.Some? ==> d'.buildDoneAt == d.buildDoneAt)
            && (d.deployedAt.Some? ==> d'.deployedAt == d.deployedAt)
  {
    RunSplit(a, s, before + after, |before|);
    assert (before + after)[..|before|] == before && (before + after)[|before|..] == after;
    AlwaysSound(a, s, before);
    SoundThroughout(a, End(a, s, before), after);
  }

  predicate BuildServiceStep(step: Step) {
    || step.Acquire? || step.ClaimRow? || step.ClaimNothing? || step.PrepareOk? || step.PrepareErr?
    || step.WatchdogCancel? || step.BuildOk? || step.BuildErr? || step.ReadAfterErr?
    || step.StampFailed? || step.StoreImage? || step.HandOff?
  }

  /** No build-service step takes a deployment out of a terminal status into a non-terminal one. */
  lemma BuildServiceLeavesTerminal(s: Sys, step: Step, id: DepId)
    requires Sound(s) && Enabled(s, step)
    requires BuildServiceStep(step)
    requires id in s.table && s.table[id].status in {Running, Failed, Superseded}
    ensures id in Next(s, step).table && Next(s, step).table[id].status in {Running, Failed, Superseded}
  {
    hide NextTable, NextSlots, NextRec, Sound;
    RowByRow(s, step, id);
  }

  /** A slot is only returned once its row is no longer building. */
  lemma SlotReturnedAfterBuilding(s: Sys, step: Step, w: nat)
    requires Sound(s) && Enabled(s, step) && w < |s.slots|
    requires Holds(s.slots[w]) && !Holds(NextSlots(s, step)[w])
    ensures var t := NextTable(s, step); s.slots[w].id in t && !t[s.slots[w].id].status.Building?
  {
    hide NextTable, NextRec;
    assert SlotSound(s, s.slots[w]);
    hide Sound;
    RowByRow(s, step, s.slots[w].id);
  }
}
