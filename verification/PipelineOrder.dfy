/**
 What the pipeline keeps when the named assumptions hold: statuses only move forward (S1, S3),
 every building row is held by exactly one slot (S1), and a project's deployments go live in
 upload order with at most one in flight (S1, S2, S3).
 */
module PipelineOrder {
  import Sorting
  import opened Deployments
  import opened Pipeline
  import opened PipelineAlways

  // ----- statuses only move forward (S1, S3) -----

  function Rank(s: Status): nat {
    match s
    case Pending => 0
    case Queued => 1
    case Building => 2
    case Pushing => 3
    case Deploying => 4
    case Running => 5
    case Superseded => 6
    case Failed => 7
  }

  lemma StepRaisesRank(a: Assumptions, s: Sys, step: Step, id: DepId)
    requires a.s1 && a.s3
    requires Enabled(s, step) && Keeps(a, s, step)
    requires id in s.table
    ensures id in Next(s, step).table
    ensures Next(s, step).table[id].status == s.table[id].status
         || Rank(s.table[id].status) < Rank(Next(s, step).table[id].status)
  {
    hide NextTable, NextSlots, NextRec;
    RowByRow(s, step, id);
  }

  /** How often a deployment's status changes along a run. */
  ghost function Changes(a: Assumptions, s: Sys, steps: seq<Step>, id: DepId): nat
    requires Run(a, s, steps)
    decreases |steps|
  {
    if steps == [] then 0
    else
      var s' := Next(s, steps[0]);
      (if id in s.table && id in s'.table && s.table[id].status != s'.table[id].status then 1 else 0)
      + Changes(a, s', steps[1..], id)
  }

  /** Changes are paid for by rank, so a deployment changes status at most seven times in any run. */
  lemma {:induction false} ChangesAreBounded(a: Assumptions, s: Sys, steps: seq<Step>, id: DepId)
    requires a.s1 && a.s3
    requires Run(a, s, steps) && id in s.table
    ensures id in End(a, s, steps).table
    ensures Rank(s.table[id].status) + Changes(a, s, steps, id) <= Rank(End(a, s, steps).table[id].status) <= 7
    decreases |steps|
  {
    if steps != [] {
      StepRaisesRank(a, s, steps[0], id);
      ChangesAreBounded(a, Next(s, steps[0]), steps[1..], id);
    }
  }

  /** A superseded deployment is never in flight or running again; a failed one stays failed. */
  lemma SupersededStaysOut(a: Assumptions, s: Sys, steps: seq<Step>, id: DepId)
    requires a.s1 && a.s3
    requires Run(a, s, steps)
    requires id in s.table && s.table[id].status.Superseded?
    ensures id in End(a, s, steps).table
    ensures End(a, s, steps).table[id].status.Superseded? || End(a, s, steps).table[id].status.Failed?
  {
    hide Run, End, Next, Enabled, Keeps, Changes;
    ChangesAreBounded(a, s, steps, id);
  }

  /** Terminal statuses are absorbing as a set. */
  lemma TerminalStaysTerminal(a: Assumptions, s: Sys, steps: seq<Step>, id: DepId)
    requires a.s1 && a.s3
    requires Run(a, s, steps)
    requires id in s.table && s.table[id].status in {Running, Failed, Superseded}
    ensures id in End(a, s, steps).table && End(a, s, steps).table[id].status in {Running, Failed, Superseded}
  {
    hide Run, End, Next, Enabled, Keeps, Changes;
    ChangesAreBounded(a, s, steps, id);
  }

  // ----- building rows and slots (S1) -----

  ghost predicate SlotsDistinct(s: Sys) {
    forall v, w | 0 <= v < w < |s.slots| && Holds(s.slots[v]) && Holds(s.slots[w]) ::
      s.slots[v].id != s.slots[w].id
  }

  ghost predicate HeldBy(s: Sys, id: DepId, w: int) {
    0 <= w < |s.slots| && Holds(s.slots[w]) && s.slots[w].id == id
  }

  ghost predicate BuildingHeld(s: Sys) {
    forall id | id in s.table && s.table[id].status.Building? :: exists w :: HeldBy(s, id, w)
  }

  /** A held row has left the queue for good; a cancelled build's row is no longer building. */
  ghost predicate HeldClaimed(s: Sys) {
    forall w | 0 <= w < |s.slots| && Holds(s.slots[w]) ::
      && s.slots[w].id in s.table
      && !s.table[s.slots[w].id].status.Pending? && !s.table[s.slots[w].id].status.Queued?
      && (s.slots[w].Compiling? && s.slots[w].cancelled ==> !s.table[s.slots[w].id].status.Building?)
  }

  ghost predicate SlotsExact(s: Sys) {
    SlotsDistinct(s) && BuildingHeld(s) && HeldClaimed(s)
  }

  /** Snapshot rows are past the queue. */
  ghost predicate SnapshotClaimed(s: Sys) {
    forall k | 0 <= k < |Todo(s.rec)| ::
      && Todo(s.rec)[k].id in s.table
      && Rank(s.table[Todo(s.rec)[k].id].status) > 2
  }

  ghost predicate SlotInvariant(s: Sys) { SlotsExact(s) && SnapshotClaimed(s) }

  /** S1: a row that was claimed never goes back to the queue, and one past building never builds again. */
  lemma StepPastQueue(a: Assumptions, s: Sys, step: Step, id: DepId)
    requires a.s1 && Enabled(s, step) && Keeps(a, s, step)
    requires id in s.table && Rank(s.table[id].status) >= 2
    ensures id in Next(s, step).table && Rank(Next(s, step).table[id].status) >= 2
    ensures Rank(s.table[id].status) > 2 ==> Rank(Next(s, step).table[id].status) > 2
  {
    hide NextTable, NextSlots, NextRec;
    RowByRow(s, step, id);
  }

  lemma StepSnapshotClaimed(a: Assumptions, s: Sys, step: Step)
    requires a.s1 && SlotInvariant(s)
    requires Enabled(s, step) && Keeps(a, s, step)
    ensures SnapshotClaimed(Next(s, step))
  {
    hide NextTable, NextSlots, NextRec, SlotsExact;
    var s' := Next(s, step);
    forall k | 0 <= k < |Todo(s'.rec)|
      ensures Todo(s'.rec)[k].id in s'.table && Rank(s'.table[Todo(s'.rec)[k].id].status) > 2
    {
      var e := Todo(s'.rec)[k];
      TodoShrinks(s, step, k);
      if step.Tick? {
        assert Selected(s.table[e.id], s.deleted);
        RowByRow(s, step, e.id);
      } else {
        StepPastQueue(a, s, step, e.id);
      }
    }
  }

  lemma StepSlotsDistinct(s: Sys, step: Step)
    requires SlotInvariant(s) && Enabled(s, step)
    ensures SlotsDistinct(Next(s, step))
  {
    hide NextTable, NextSlots, NextRec, BuildingHeld, SnapshotClaimed;
    var s' := Next(s, step);
    forall v, w | 0 <= v < w < |s'.slots| && Holds(s'.slots[v]) && Holds(s'.slots[w])
      ensures s'.slots[v].id != s'.slots[w].id
    {
      SlotKeepsRow(s, step, v);
      SlotKeepsRow(s, step, w);
    }
  }

  lemma ClaimedRow(s: Sys, step: Step)
    requires Enabled(s, step) && step.ClaimRow?
    ensures step.id in NextTable(s, step) && NextTable(s, step)[step.id].status.Building?
  {
  }

  lemma StepHeldClaimed(a: Assumptions, s: Sys, step: Step)
    requires a.s1 && SlotInvariant(s)
    requires Enabled(s, step) && Keeps(a, s, step)
    ensures HeldClaimed(Next(s, step))
  {
    hide NextTable, NextSlots, NextRec, NextRow, BuildingHeld, SnapshotClaimed, SlotsDistinct;
    var s' := Next(s, step);
    forall w | 0 <= w < |s'.slots| && Holds(s'.slots[w])
      ensures s'.slots[w].id in s'.table && Rank(s'.table[s'.slots[w].id].status) >= 2
      ensures s'.slots[w].Compiling? && s'.slots[w].cancelled ==> !s'.table[s'.slots[w].id].status.Building?
    {
      SlotKeepsRow(s, step, w);
      if step.ClaimRow? && step.w == w {
        ClaimedRow(s, step);
      } else {
        StepPastQueue(a, s, step, s.slots[w].id);
        if step.WatchdogCancel? { RowByRow(s, step, s.slots[w].id); }
      }
    }
  }

  lemma StepBuildingHeld(a: Assumptions, s: Sys, step: Step)
    requires a.s1 && SlotInvariant(s)
    requires Enabled(s, step) && Keeps(a, s, step)
    ensures BuildingHeld(Next(s, step))
  {
    hide NextTable, NextRec, NextMidUpload, NextTorn, SlotsDistinct, HeldClaimed, SnapshotClaimed, IsSnapshot,
        Claimable, Keeps;
    var s' := Next(s, step);
    forall id | id in s'.table && s'.table[id].status.Building?
      ensures exists w :: HeldBy(s', id, w)
    {
      RowByRow(s, step, id);
      if step.ClaimRow? && step.id == id {
        assert HeldBy(s', id, step.w);
      } else {
        assert id in s.table && s.table[id].status.Building?;
        var w :| HeldBy(s, id, w);
        assert HeldBy(s', id, w);
      }
    }
  }

  lemma {:induction false} SlotsThroughout(a: Assumptions, s: Sys, steps: seq<Step>)
    requires a.s1 && SlotInvariant(s) && Run(a, s, steps)
    ensures SlotInvariant(End(a, s, steps))
    ensures |End(a, s, steps).slots| == |s.slots|
    decreases |steps|
  {
    if steps != [] {
      StepSnapshotClaimed(a, s, steps[0]);
      StepSlotsDistinct(s, steps[0]);
      StepHeldClaimed(a, s, steps[0]);
      StepBuildingHeld(a, s, steps[0]);
      SlotsThroughout(a, Next(s, steps[0]), steps[1..]);
    }
  }

  ghost function HeldIds(slots: seq<Worker>): (r: set<DepId>)
    ensures |r| <= |slots|
    ensures forall w | 0 <= w < |slots| && Holds(slots[w]) :: slots[w].id in r
  {
    if slots == [] then {}
    else
      var rest := HeldIds(slots[1..]);
      if Holds(slots[0]) then rest + {slots[0].id} else rest
  }

  ghost function BuildingRows(t: Table): set<DepId> {
    set id | id in t && t[id].status.Building?
  }

  /** S1: every building row is held by exactly one slot, so at most MaxConcurrent rows build at once. */
  lemma BuildingRowsAreHeld(a: Assumptions, s: Sys, steps: seq<Step>)
    requires a.s1 && Init(s) && Run(a, s, steps)
    ensures var e := End(a, s, steps);
            && (forall id | id in BuildingRows(e.table) ::
                  exists w :: HeldBy(e, id, w) && forall v | HeldBy(e, id, v) :: v == w)
            && |BuildingRows(e.table)| <= |s.slots|
  {
    hide Run, End, Next, Enabled, Keeps;
    SlotsThroughout(a, s, steps);
    var e := End(a, s, steps);
    forall id | id in BuildingRows(e.table)
      ensures exists w :: HeldBy(e, id, w) && forall v | HeldBy(e, id, v) :: v == w
    {
      var w :| HeldBy(e, id, w);
      assert forall v | HeldBy(e, id, v) :: v == w;
    }
    forall id | id in BuildingRows(e.table) ensures id in HeldIds(e.slots) {
      var w :| HeldBy(e, id, w);
    }
    Sorting.SubsetIsSmaller(BuildingRows(e.table), HeldIds(e.slots));
  }

  /** S1: the watchdog only ever cancels builds whose row is gone, and those are not stamped failed by ReadAfterErr. */
  lemma CancelledBuildIsNotFailed(a: Assumptions, s: Sys, steps: seq<Step>, w: nat)
    requires a.s1 && Init(s) && Run(a, s, steps)
    requires w < |s.slots|
    ensures var e := End(a, s, steps); |e.slots| == |s.slots| && CancelGivesSlotBack(e, w)
  {
    hide Run, End, Keeps, CancelGivesSlotBack;
    SlotsThroughout(a, s, steps);
    CancelFreesSlot(End(a, s, steps), w);
  }

  /** A cancel marks a build whose row moved on, and a marked build ends without touching the table. */
  ghost predicate CancelGivesSlotBack(s: Sys, w: nat)
    requires w < |s.slots|
  {
    && (Enabled(s, WatchdogCancel(w)) ==>
          && (s.slots[w].id in s.table ==> !s.table[s.slots[w].id].status.Building?)
          && Next(s, WatchdogCancel(w)).slots == s.slots[w := Compiling(s.slots[w].id, true)])
    && (s.slots[w].Compiling? && s.slots[w].cancelled ==>
          && Enabled(s, BuildErr(w))
          && var after := Next(s, BuildErr(w));
             && Enabled(after, ReadAfterErr(w))
             && Next(after, ReadAfterErr(w)).slots[w].Free?
             && Next(after, ReadAfterErr(w)).table == s.table)
  }

  lemma CancelFreesSlot(s: Sys, w: nat)
    requires w < |s.slots| && SlotInvariant(s)
    ensures CancelGivesSlotBack(s, w)
  {
    hide SnapshotClaimed, SlotsDistinct;
  }

  // ----- one in flight, in upload order (S1, S2, S3) -----

  ghost predicate TicketsExact(s: Sys) {
    && (forall id | id in s.table :: s.table[id].status.Pending? <==> id !in s.tickets)
    && (forall id | id in s.tickets :: id in s.table && s.tickets[id] < s.uploads)
    && (forall i, j | i in s.tickets && j in s.tickets && s.tickets[i] == s.tickets[j] :: i == j)
  }

  /** `id` is the last uploaded deployment of its project. */
  ghost predicate LatestUpload(s: Sys, id: DepId)
    requires id in s.table
  {
    && id in s.tickets
    && forall j | j in s.tickets && j in s.table && s.table[j].project == s.table[id].project ::
         s.tickets[j] <= s.tickets[id]
  }

  ghost predicate InFlightIsLatest(s: Sys) {
    forall id | id in s.table && InFlight(s.table[id].status) :: LatestUpload(s, id)
  }

  /** Deployments of one project were marked running in upload order. */
  ghost predicate RunsOrdered(s: Sys) {
    && (forall k | 0 <= k < |s.runs| ::
          && s.runs[k] in s.table && s.runs[k] in s.tickets
          && Terminal(s.table[s.runs[k]].status))
    && (forall j, k | 0 <= j < k < |s.runs| && s.table[s.runs[j]].project == s.table[s.runs[k]].project ::
          s.tickets[s.runs[j]] < s.tickets[s.runs[k]])
  }

  ghost predicate OrderInvariant(s: Sys) {
    TicketsExact(s) && InFlightIsLatest(s) && RunsOrdered(s) && s.midUpload == multiset{} && SnapshotClaimed(s)
  }

  lemma StepTickets(a: Assumptions, s: Sys, step: Step)
    requires a.s1 && a.s2 && a.s3 && OrderInvariant(s) && SlotInvariant(s)
    requires Enabled(s, step) && Keeps(a, s, step)
    ensures TicketsExact(Next(s, step))
    ensures Next(s, step).midUpload == multiset{}
  {
    hide NextTable, NextSlots, NextRec, NextRow, SlotsDistinct, BuildingHeld, InFlightIsLatest, RunsOrdered;
    var s' := Next(s, step);
    forall id | id in s'.table ensures s'.table[id].status.Pending? <==> id !in s'.tickets {
      RowByRow(s, step, id);
      if id in s.table { PendingUntilUploaded(a, s, step, id); }
    }
    hide HeldClaimed, SnapshotClaimed;
    forall id | id in s'.tickets ensures id in s'.table && s'.tickets[id] < s'.uploads {
      RowByRow(s, step, id);
    }
  }

  /** Only an upload takes a row out of `pending`. */
  lemma PendingUntilUploaded(a: Assumptions, s: Sys, step: Step, id: DepId)
    requires a.s1 && OrderInvariant(s) && SlotInvariant(s) && id in s.table
    requires Enabled(s, step) && Keeps(a, s, step)
    ensures NextRow(s, step, id).status.Pending? <==> s.table[id].status.Pending? && !(IsUpload(step) && step.id == id)
  {
    hide SlotsDistinct, BuildingHeld, InFlightIsLatest, RunsOrdered, TicketsExact;
    if step.Fail? || step.MarkDeploying? || step.MarkRunning? { assert Todo(s.rec)[0] == s.rec.todo[0]; }
  }

  /** A row is in flight after a step only if it was before, or the step uploads it. */
  lemma InFlightBefore(a: Assumptions, s: Sys, step: Step, id: DepId)
    requires a.s1 && a.s2 && a.s3 && Enabled(s, step) && Keeps(a, s, step) && id in s.table
    requires InFlight(NextRow(s, step, id).status)
    ensures InFlight(s.table[id].status) || (step.UploadAtomic? && step.id == id)
    ensures step.UploadAtomic? && step.id != id ==> s.table[id].project != s.table[step.id].project
  {
  }

  lemma StepInFlightIsLatest(a: Assumptions, s: Sys, step: Step)
    requires a.s1 && a.s2 && a.s3 && OrderInvariant(s) && SlotInvariant(s)
    requires Enabled(s, step) && Keeps(a, s, step)
    ensures InFlightIsLatest(Next(s, step))
  {
    if IsUpload(step) { assert step.id in s.table; }
    hide NextTable, NextSlots, NextRec, NextRow, NextMidUpload, NextTorn, Enabled, SlotInvariant, RunsOrdered,
        SnapshotClaimed;
    var s' := Next(s, step);
    forall id ensures id in s.table ==> id in s'.table && s'.table[id].project == s.table[id].project {
      RowByRow(s, step, id);
      if id in s.table { RowKeepsProject(s, step, id); }
    }
    forall id | id in s'.table && InFlight(s'.table[id].status)
      ensures LatestUpload(s', id)
    {
      RowByRow(s, step, id);
      if id in s.table {
        InFlightBefore(a, s, step, id);
        if !(step.UploadAtomic? && step.id == id) { assert LatestUpload(s, id); }
        hide InFlightIsLatest;
        StaysLatest(a, s, step, id);
      }
    }
  }

  /** An upload is the latest of its project from then on, until another one of that project comes. */
  lemma StaysLatest(a: Assumptions, s: Sys, step: Step, id: DepId)
    requires Enabled(s, step) && Keeps(a, s, step) && a.s2 && TicketsExact(s) && id in s.table
    requires forall i | i in s.table :: i in NextTable(s, step) && NextTable(s, step)[i].project == s.table[i].project
    requires if step.UploadAtomic? && step.id == id then true
             else LatestUpload(s, id) && (step.UploadAtomic? ==> s.table[id].project != s.table[step.id].project)
    ensures LatestUpload(Next(s, step), id)
  {
    hide NextTable, NextSlots, NextRec, NextMidUpload, NextTorn, Claimable, IsSnapshot;
  }

  lemma RowKeepsProject(s: Sys, step: Step, id: DepId)
    requires Enabled(s, step) && id in s.table
    ensures NextRow(s, step, id).project == s.table[id].project
  {
  }

  /** The row about to be marked running is in flight, so it is the project's latest upload. */
  lemma MarkedRowIsLatest(a: Assumptions, s: Sys)
    requires a.s3 && OrderInvariant(s) && Enabled(s, MarkRunning) && Keeps(a, s, MarkRunning)
    ensures s.rec.todo[0].id in s.table && LatestUpload(s, s.rec.todo[0].id)
    ensures s.rec.todo[0].id !in s.runs
  {
    var id := s.rec.todo[0].id;
    assert InFlight(s.table[id].status);
    assert forall k | 0 <= k < |s.runs| :: s.runs[k] != id;
  }

  lemma StepRunsOrdered(a: Assumptions, s: Sys, step: Step)
    requires a.s1 && a.s2 && a.s3 && OrderInvariant(s) && SlotInvariant(s)
    requires Enabled(s, step) && Keeps(a, s, step)
    ensures RunsOrdered(Next(s, step))
  {
    var s' := Next(s, step);
    if step.MarkRunning? { MarkedRowIsLatest(a, s); }
    if IsUpload(step) { assert s.table[step.id].status.Pending?; }
    hide NextTable, NextSlots, NextRec, NextRow, NextMidUpload, NextTorn, Keeps, SlotInvariant, InFlightIsLatest,
        SnapshotClaimed, IsSnapshot, Claimable;
    forall k | 0 <= k < |s'.runs|
      ensures s'.runs[k] in s'.table && s'.runs[k] in s'.tickets && Terminal(s'.table[s'.runs[k]].status)
      ensures k < |s.runs| ==> s'.runs[k] == s.runs[k] && s'.tickets[s.runs[k]] == s.tickets[s.runs[k]]
      ensures s'.runs[k] in s.table && s'.table[s'.runs[k]].project == s.table[s'.runs[k]].project
    {
      if k < |s.runs| { assert s.runs[k] in s.table; }
      RunStaysTerminal(a, s, step, s'.runs[k]);
    }
  }

  lemma RunStaysTerminal(a: Assumptions, s: Sys, step: Step, id: DepId)
    requires a.s1 && a.s3 && SlotInvariant(s) && Enabled(s, step) && Keeps(a, s, step) && id in s.table
    requires Terminal(s.table[id].status) || (step.MarkRunning? && id == s.rec.todo[0].id)
    ensures id in NextTable(s, step) && NextTable(s, step)[id].project == s.table[id].project
    ensures Terminal(NextTable(s, step)[id].status)
  {
    RowByRow(s, step, id);
    RowKeepsProject(s, step, id);
    if step.MarkRunning? && id == s.rec.todo[0].id { JustMarked(s, step); }
    else { StepRaisesRank(a, s, step, id); }
    hide NextTable, NextRow;
  }

  lemma JustMarked(s: Sys, step: Step)
    requires Enabled(s, step) && step.MarkRunning? && s.rec.todo[0].id in s.table
    ensures NextRow(s, step, s.rec.todo[0].id).status.Running?
  {
  }

  lemma {:induction false} OrderThroughout(a: Assumptions, s: Sys, steps: seq<Step>)
    requires a.s1 && a.s2 && a.s3 && OrderInvariant(s) && SlotInvariant(s) && Run(a, s, steps)
    ensures OrderInvariant(End(a, s, steps))
    decreases |steps|
  {
    if steps != [] {
      StepTickets(a, s, steps[0]);
      StepInFlightIsLatest(a, s, steps[0]);
      StepRunsOrdered(a, s, steps[0]);
      StepSnapshotClaimed(a, s, steps[0]);
      StepSlotsDistinct(s, steps[0]);
      StepHeldClaimed(a, s, steps[0]);
      StepBuildingHeld(a, s, steps[0]);
      OrderThroughout(a, Next(s, steps[0]), steps[1..]);
    }
  }

  /** Under S1-S3: one in-flight deployment per project, it is the latest upload, and runs follow upload order. */
  lemma UploadOrder(a: Assumptions, s: Sys, steps: seq<Step>)
    requires a.s1 && a.s2 && a.s3 && Init(s) && Run(a, s, steps)
    ensures var e := End(a, s, steps);
            && (forall i | i in e.table && e.table[i].status in {Queued, Building, Pushing, Deploying} :: LatestUpload(e, i))
            && (forall i, j | i in e.table && j in e.table && e.table[i].project == e.table[j].project
                            && e.table[i].status in {Queued, Building, Pushing, Deploying}
                            && e.table[j].status in {Queued, Building, Pushing, Deploying} :: i == j)
            && RunsOrdered(e)
  {
    hide Run, End, Next, Enabled, Keeps;
    OrderThroughout(a, s, steps);
    var e := End(a, s, steps);
    forall i, j | i in e.table && j in e.table && e.table[i].project == e.table[j].project
                  && InFlight(e.table[i].status) && InFlight(e.table[j].status)
      ensures i == j
    {
      assert LatestUpload(e, i) && LatestUpload(e, j);
    }
  }
}
