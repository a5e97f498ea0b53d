/**
 The two sequential actors in their own imperative form, and why the protocol speaks for them:
 one call of Handle (or one worker's Run) is a run of protocol steps with nobody interleaving.
 What the cluster, the registry and the project lookup answer is the Outcome.
 */
module PipelineActors {
  import opened Deployments
  import opened Pipeline

  // ----- reconciler -----

  datatype Outcome =
    | FailsEarly(reason: string)      // manifest, project lookup, env or provisioning error
    | ApplyFails(reason: string)
    | ApplySucceeds
    | NoAnswer                        // project or pod lookup error while deploying
    | Pod(summary: string, ready: bool, terminalReason: string)

  predicate Fits(e: Entry, o: Outcome) {
    if e.status.Pushing? then o.FailsEarly? || o.ApplyFails? || o.ApplySucceeds?
    else e.status.Deploying? && (o.NoAnswer? || o.Pod?)
  }

  /** The protocol steps one call of Handle stands for. */
  function HandleSteps(e: Entry, o: Outcome): seq<Step> {
    match o
    case FailsEarly(reason) => [Fail(reason)]
    case ApplyFails(reason) => [MarkDeploying, Fail(reason)]
    case ApplySucceeds => [MarkDeploying, ApplyOk]
    case NoAnswer => [NotReady]
    case Pod(_, ready, reason) =>
      if reason != "" then [Fail("pod_unhealthy: " + reason)]
      else if ready then [MarkRunning, SupersedeRunning]
      else [NotReady]
  }

  function Handled(t: Table, e: Entry, o: Outcome, now: Time): Table {
    match o
    case FailsEarly(reason) => Mark(t, e.id, Failed, reason, now)
    case ApplyFails(reason) => Mark(Mark(t, e.id, Deploying, "", now), e.id, Failed, reason, now)
    case ApplySucceeds => Mark(t, e.id, Deploying, "", now)
    case NoAnswer => t
    case Pod(_, ready, reason) =>
      if reason != "" then Mark(t, e.id, Failed, "pod_unhealthy: " + reason, now)
      else if ready then SupersedeSiblings(Mark(t, e.id, Running, "", now), e.project, e.id)
      else t
  }

  function HandledAll(t: Table, todo: seq<Entry>, answers: Entry -> Outcome, now: Time): Table {
    if todo == [] then t else HandledAll(Handled(t, todo[0], answers(todo[0]), now), todo[1..], answers, now)
  }

  /** The answers suit whatever row the tick may find. */
  ghost predicate Suits(answers: Entry -> Outcome) {
    forall e: Entry | e.status.Pushing? || e.status.Deploying? :: Fits(e, answers(e))
  }

  /** What lastSummary holds for a deployment nobody has summarised yet. */
  function Remembered(m: map<DepId, string>, id: DepId): string {
    if id in m then m[id] else ""
  }

  class ReconcilerLoop {
    const store: DeploymentStore
    var lastSummary: map<DepId, string>

    constructor (store: DeploymentStore)
      ensures this.store == store && lastSummary == map[]
    {
      this.store := store;
      lastSummary := map[];
    }

    /** `emitted` says whether the summary line was written to the event log. */
    method Handle(p: Entry, o: Outcome, now: Time) returns (emitted: bool)
      requires Fits(p, o)
      modifies this, store
      ensures store.rows == Handled(old(store.rows), p, o, now)
      ensures emitted <==> o.Pod? && o.summary != "" && o.summary != Remembered(old(lastSummary), p.id)
      ensures o.Pod? && o.terminalReason == "" && !o.ready && o.summary != "" ==>
                lastSummary == old(lastSummary)[p.id := o.summary]
      ensures o.Pod? && (o.terminalReason != "" || o.ready) ==> p.id !in lastSummary
      ensures forall id | id != p.id :: Remembered(lastSummary, id) == Remembered(old(lastSummary), id)
    {
      emitted := false;
      if p.status.Pushing? {
        if o.FailsEarly? {
          store.MarkDeploymentStatus(p.id, Failed, o.reason, now);
          return;
        }
        store.MarkDeploymentStatus(p.id, Deploying, "", now);
        if o.ApplyFails? {
          store.MarkDeploymentStatus(p.id, Failed, o.reason, now);
        }
      } else {
        if o.NoAnswer? {
          return;
        }
        if o.summary != "" {
          emitted := Remembered(lastSummary, p.id) != o.summary;
          if emitted {
            lastSummary := lastSummary[p.id := o.summary];
          }
        }
        if o.terminalReason != "" {
          store.MarkDeploymentStatus(p.id, Failed, "pod_unhealthy: " + o.terminalReason, now);
          lastSummary := lastSummary - {p.id};
          return;
        }
        if o.ready {
          store.MarkDeploymentStatus(p.id, Running, "", now);
          store.SupersedeRunningSiblings(p.project, p.id);
          lastSummary := lastSummary - {p.id};
        }
      }
    }

    /** The tick query: the eight oldest rows to work on, one minimum at a time. */
    method FetchSnapshot(deleted: set<ProjectId>) returns (todo: seq<Entry>)
      ensures IsSnapshot(store.rows, deleted, todo)
      ensures forall j, k | 0 <= j < k < |todo| && store.rows[todo[k].id].queuedAt.Some? ::
                && store.rows[todo[j].id].queuedAt.Some?
                && store.rows[todo[j].id].queuedAt.value <= store.rows[todo[k].id].queuedAt.value
    {
      var t := store.rows;
      var rest := set i | i in t && Selected(t[i], deleted);
      todo := [];
      while rest != {} && |todo| < 8
        invariant |todo| <= 8 && Fetched(t, deleted, todo, rest)
        decreases |rest|
      {
        var next := Oldest(t, rest);
        FetchOne(t, deleted, todo, rest, next);
        todo := todo + [EntryOf(next, t[next])];
        rest := rest - {next};
      }
      FetchDone(t, deleted, todo, rest);
      SnapshotIsOldest(t, deleted, todo);
    }

    /** One tick: fetch, then handle every row of the snapshot. */
    method Tick(deleted: set<ProjectId>, answers: Entry -> Outcome, now: Time) returns (todo: seq<Entry>)
      requires Suits(answers)
      modifies this, store
      ensures IsSnapshot(old(store.rows), deleted, todo)
      ensures store.rows == HandledAll(old(store.rows), todo, answers, now)
    {
      todo := FetchSnapshot(deleted);
      for k := 0 to |todo|
        invariant IsSnapshot(old(store.rows), deleted, todo)
        invariant HandledAll(store.rows, todo[k..], answers, now) == HandledAll(old(store.rows), todo, answers, now)
      {
        var _ := Handle(todo[k], answers(todo[k]), now);
        assert todo[k..][1..] == todo[k + 1..];
      }
    }
  }

  method Oldest(t: Table, rest: set<DepId>) returns (next: DepId)
    requires rest != {} && forall i | i in rest :: i in t
    ensures next in rest && forall i | i in rest :: NotLaterQueued(t[next], t[i])
  {
    var todo := rest;
    next :| next in rest;
    while todo != {}
      invariant todo <= rest && next in rest
      invariant forall i | i in rest - todo :: NotLaterQueued(t[next], t[i])
      decreases |todo|
    {
      var i :| i in todo;
      if !NotLaterQueued(t[next], t[i]) {
        next := i;
      }
      todo := todo - {i};
    }
  }

  /** The rows in `todo` are fetched, oldest first, and the selected rows in `rest` are not. */
  ghost predicate Fetched(t: Table, deleted: set<ProjectId>, todo: seq<Entry>, rest: set<DepId>) {
    && (forall k | 0 <= k < |todo| ::
          && todo[k].id in t && todo[k].id !in rest && Selected(t[todo[k].id], deleted)
          && todo[k] == EntryOf(todo[k].id, t[todo[k].id]))
    && (forall j, k | 0 <= j < k < |todo| ::
          todo[j].id != todo[k].id && NotLaterQueued(t[todo[j].id], t[todo[k].id]))
    && (forall i | i in rest :: i in t && Selected(t[i], deleted))
    && (forall i | i in t && Selected(t[i], deleted) && i !in rest :: exists k :: 0 <= k < |todo| && todo[k].id == i)
    && (forall k, i | 0 <= k < |todo| && i in rest :: NotLaterQueued(t[todo[k].id], t[i]))
  }

  lemma FetchOne(t: Table, deleted: set<ProjectId>, todo: seq<Entry>, rest: set<DepId>, next: DepId)
    requires Fetched(t, deleted, todo, rest)
    requires next in rest && forall i | i in rest :: NotLaterQueued(t[next], t[i])
    ensures Fetched(t, deleted, todo + [EntryOf(next, t[next])], rest - {next})
  {
    hide Selected, NotLaterQueued;
    var longer := todo + [EntryOf(next, t[next])];
    assert longer[|todo|].id == next;
    forall i | i in t && Selected(t[i], deleted) && i !in rest - {next}
      ensures exists k :: 0 <= k < |longer| && longer[k].id == i
    {
      if i != next {
        var k :| 0 <= k < |todo| && todo[k].id == i;
        assert longer[k].id == i;
      }
    }
  }

  lemma FetchDone(t: Table, deleted: set<ProjectId>, todo: seq<Entry>, rest: set<DepId>)
    requires Fetched(t, deleted, todo, rest) && |todo| <= 8 && (rest == {} || |todo| == 8)
    ensures IsSnapshot(t, deleted, todo)
  {
    forall i | i in t && Selected(t[i], deleted)
      ensures || (exists k :: 0 <= k < |todo| && todo[k].id == i)
              || (|todo| == 8 && NotLaterQueued(t[todo[7].id], t[i]))
    {
      if i in rest { assert NotLaterQueued(t[todo[7].id], t[i]); }
    }
  }

  ghost predicate Goes(a: Assumptions, s: Sys, step: Step, s': Sys) {
    Enabled(s, step) && Keeps(a, s, step) && s' == Next(s, step)
  }

  lemma {:induction false} Joined(a: Assumptions, s: Sys, x: seq<Step>, y: seq<Step>)
    requires Run(a, s, x) && Run(a, End(a, s, x), y)
    ensures Run(a, s, x + y) && End(a, s, x + y) == End(a, End(a, s, x), y)
    decreases |x|
  {
    hide Next, Enabled, Keeps;
    if x == [] {
      assert x + y == y;
    } else {
      Joined(a, Next(s, x[0]), x[1..], y);
      assert (x + y)[1..] == x[1..] + y;
    }
  }

  lemma OneStep(a: Assumptions, s: Sys, step: Step, s': Sys)
    requires Goes(a, s, step, s')
    ensures Run(a, s, [step]) && End(a, s, [step]) == s'
  {
    assert [step][1..] == [];
    assert Run(a, s', []);
  }

  lemma ThenRun(a: Assumptions, s: Sys, step: Step, s': Sys, rest: seq<Step>)
    requires Goes(a, s, step, s') && Run(a, s', rest)
    ensures Run(a, s, [step] + rest) && End(a, s, [step] + rest) == End(a, s', rest)
  {
    assert ([step] + rest)[1..] == rest;
  }

  lemma TwoSteps(a: Assumptions, s: Sys, p: Step, s1: Sys, q: Step, s2: Sys)
    requires Goes(a, s, p, s1) && Goes(a, s1, q, s2)
    ensures Run(a, s, [p, q]) && End(a, s, [p, q]) == s2
  {
    OneStep(a, s1, q, s2);
    ThenRun(a, s, p, s1, [q]);
    assert [p] + [q] == [p, q];
  }

  lemma FourSteps(a: Assumptions, s: Sys, p: Step, s1: Sys, q: Step, s2: Sys, r: Step, s3: Sys, t: Step, s4: Sys)
    requires Goes(a, s, p, s1) && Goes(a, s1, q, s2) && Goes(a, s2, r, s3) && Goes(a, s3, t, s4)
    ensures Run(a, s, [p, q, r, t]) && End(a, s, [p, q, r, t]) == s4
  {
    hide Run, End, Goes;
    TwoSteps(a, s2, r, s3, t, s4);
    ThenRun(a, s1, q, s2, [r, t]);
    ThenRun(a, s, p, s1, [q] + [r, t]);
    assert [p] + ([q] + [r, t]) == [p, q, r, t];
  }

  /** The row has not moved on since the snapshot; what S3 asks when `deploying` or `running` is written. */
  predicate HeadIsCurrent(s: Sys)
    requires s.rec.Handling? && s.rec.todo != []
  {
    s.rec.todo[0].id in s.table && s.table[s.rec.todo[0].id].status == s.rec.todo[0].status
  }

  predicate Readies(o: Outcome) { o.Pod? && o.terminalReason == "" && o.ready }

  /** The table is now `t` and the first snapshot row is dealt with. */
  function Consumed(s: Sys, t: Table): Sys
    requires s.rec.Handling? && s.rec.todo != []
  {
    s.(table := t, rec := Handling(s.rec.todo[1..]))
  }

  function AfterHandle(s: Sys, o: Outcome): Sys
    requires s.rec.Handling? && s.rec.todo != []
  {
    var e := s.rec.todo[0];
    var s' := Consumed(s, Handled(s.table, e, o, s.clock));
    if Readies(o) then s'.(runs := s.runs + [e.id], torn := s.torn - {e.project}) else s'
  }

  /** Handle is the protocol, uninterrupted: same table, one snapshot row consumed, however stale that row is. */
  lemma HandleIsARun(a: Assumptions, s: Sys, o: Outcome)
    requires s.rec.Handling? && s.rec.todo != [] && Fits(s.rec.todo[0], o) && (a.s3 ==> HeadIsCurrent(s))
    ensures var e, steps := s.rec.todo[0], HandleSteps(s.rec.todo[0], o);
            && Run(a, s, steps)
            && End(a, s, steps) == AfterHandle(s, o)
  {
    var e := s.rec.todo[0];
    if o.ApplyFails? || o.ApplySucceeds? {
      ApplyIsARun(a, s, o);
    } else if Readies(o) {
      ReadyIsARun(a, s, o);
    } else {
      ShortHandle(a, s, o);
      hide Run, End, Handled;
      OneStep(a, s, HandleSteps(e, o)[0], AfterHandle(s, o));
      assert HandleSteps(e, o) == [HandleSteps(e, o)[0]];
    }
  }

  lemma ShortHandle(a: Assumptions, s: Sys, o: Outcome)
    requires s.rec.Handling? && s.rec.todo != [] && Fits(s.rec.todo[0], o)
    requires |HandleSteps(s.rec.todo[0], o)| == 1
    ensures Goes(a, s, HandleSteps(s.rec.todo[0], o)[0], AfterHandle(s, o))
  {
    hide IsSnapshot, Claimable, Mark, SupersedeSiblings;
  }

  /** The cluster apply is under way. */
  function HalfApplied(s: Sys): Sys
    requires s.rec.Handling? && s.rec.todo != []
  {
    s.(table := Mark(s.table, s.rec.todo[0].id, Deploying, "", s.clock), rec := Applying(s.rec.todo))
  }

  function ApplyStep(o: Outcome): Step
    requires o.ApplyFails? || o.ApplySucceeds?
  {
    if o.ApplyFails? then Fail(o.reason) else ApplyOk
  }

  lemma DeployingIsMarked(a: Assumptions, s: Sys)
    requires s.rec.Handling? && s.rec.todo != [] && s.rec.todo[0].status.Pushing? && (a.s3 ==> HeadIsCurrent(s))
    ensures Goes(a, s, MarkDeploying, HalfApplied(s))
  {
    hide IsSnapshot, Claimable, Mark;
  }

  lemma ApplyEnds(a: Assumptions, s: Sys, o: Outcome)
    requires s.rec.Handling? && s.rec.todo != [] && (o.ApplyFails? || o.ApplySucceeds?)
    ensures Goes(a, HalfApplied(s), ApplyStep(o), AfterHandle(s, o))
  {
    hide IsSnapshot, Claimable, Mark;
  }

  lemma ApplyIsARun(a: Assumptions, s: Sys, o: Outcome)
    requires s.rec.Handling? && s.rec.todo != [] && Fits(s.rec.todo[0], o) && (o.ApplyFails? || o.ApplySucceeds?)
    requires a.s3 ==> HeadIsCurrent(s)
    ensures var steps := HandleSteps(s.rec.todo[0], o); Run(a, s, steps) && End(a, s, steps) == AfterHandle(s, o)
  {
    hide Run, End;
    DeployingIsMarked(a, s);
    ApplyEnds(a, s, o);
    hide Goes;
    TwoSteps(a, s, MarkDeploying, HalfApplied(s), ApplyStep(o), AfterHandle(s, o));
  }

  lemma ReadyIsARun(a: Assumptions, s: Sys, o: Outcome)
    requires s.rec.Handling? && s.rec.todo != [] && Fits(s.rec.todo[0], o) && Readies(o)
    requires a.s3 ==> HeadIsCurrent(s)
    ensures var steps := HandleSteps(s.rec.todo[0], o); Run(a, s, steps) && End(a, s, steps) == AfterHandle(s, o)
  {
    hide Run, End, IsSnapshot, Claimable, Mark, SupersedeSiblings;
    var e := s.rec.todo[0];
    var s1 := s.(table := Mark(s.table, e.id, Running, "", s.clock), rec := MarkedRunning(s.rec.todo),
                 runs := s.runs + [e.id]);
    TwoSteps(a, s, MarkRunning, s1, SupersedeRunning, AfterHandle(s, o));
  }

  // ----- a whole tick -----

  /** The rows still to handle are as the snapshot recorded them. */
  ghost predicate Current(t: Table, todo: seq<Entry>) {
    && (forall k | 0 <= k < |todo| ::
          && todo[k].id in t && todo[k].status == t[todo[k].id].status
          && (todo[k].status.Pushing? || todo[k].status.Deploying?))
    && (forall j, k | 0 <= j < k < |todo| :: todo[j].id != todo[k].id)
  }

  lemma HandlingKeepsTheRest(t: Table, todo: seq<Entry>, o: Outcome, now: Time)
    requires todo != [] && Current(t, todo) && Fits(todo[0], o)
    ensures Current(Handled(t, todo[0], o, now), todo[1..])
  {
    var rest := todo[1..];
    forall k | 0 <= k < |rest|
      ensures rest[k].id in Handled(t, todo[0], o, now)
      ensures Handled(t, todo[0], o, now)[rest[k].id].status == rest[k].status
    {
      assert rest[k] == todo[k + 1] && todo[0].id != todo[k + 1].id;
    }
  }

  function RestSteps(todo: seq<Entry>, answers: Entry -> Outcome): seq<Step> {
    if todo == [] then [TickDone] else HandleSteps(todo[0], answers(todo[0])) + RestSteps(todo[1..], answers)
  }

  lemma {:induction false} RestIsARun(a: Assumptions, s: Sys, answers: Entry -> Outcome)
    requires s.rec.Handling? && Current(s.table, s.rec.todo) && Suits(answers)
    ensures var steps := RestSteps(s.rec.todo, answers);
            && Run(a, s, steps) && End(a, s, steps).rec == Idle && End(a, s, steps).slots == s.slots
            && End(a, s, steps).table == HandledAll(s.table, s.rec.todo, answers, s.clock)
    decreases |s.rec.todo|
  {
    hide Run, End, Handled, HandleSteps, Current, Fits;
    if s.rec.todo == [] {
      assert Goes(a, s, TickDone, s.(rec := Idle));
      OneStep(a, s, TickDone, s.(rec := Idle));
    } else {
      var e := s.rec.todo[0];
      var o := answers(e);
      CurrentHead(s, answers);
      HandleIsARun(a, s, o);
      HandlingKeepsTheRest(s.table, s.rec.todo, o, s.clock);
      RestIsARun(a, AfterHandle(s, o), answers);
      Joined(a, s, HandleSteps(e, o), RestSteps(s.rec.todo[1..], answers));
    }
  }

  lemma CurrentHead(s: Sys, answers: Entry -> Outcome)
    requires s.rec.Handling? && s.rec.todo != [] && Current(s.table, s.rec.todo) && Suits(answers)
    ensures Fits(s.rec.todo[0], answers(s.rec.todo[0])) && HeadIsCurrent(s)
  {
  }

  lemma SnapshotIsCurrent(t: Table, deleted: set<ProjectId>, todo: seq<Entry>)
    requires IsSnapshot(t, deleted, todo)
    ensures Current(t, todo)
  {
    forall k | 0 <= k < |todo|
      ensures todo[k].id in t && todo[k].status == t[todo[k].id].status
      ensures todo[k].status.Pushing? || todo[k].status.Deploying?
    {
      assert todo[k] == EntryOf(todo[k].id, t[todo[k].id]);
    }
  }

  /** An uninterrupted tick is a run of the protocol, and one that keeps S3 by itself. */
  lemma TickIsARun(a: Assumptions, s: Sys, todo: seq<Entry>, answers: Entry -> Outcome)
    requires s.rec.Idle? && IsSnapshot(s.table, s.deleted, todo) && Suits(answers)
    ensures var steps := [Pipeline.Tick(todo)] + RestSteps(todo, answers);
            && Run(a, s, steps) && End(a, s, steps).rec == Idle && End(a, s, steps).slots == s.slots
            && End(a, s, steps).table == HandledAll(s.table, todo, answers, s.clock)
  {
    hide Run, End, HandledAll, RestSteps, Suits;
    var s1 := s.(rec := Handling(todo));
    assert Goes(a, s, Pipeline.Tick(todo), s1) by { hide IsSnapshot; }
    SnapshotIsCurrent(s.table, s.deleted, todo);
    hide IsSnapshot, Current, Goes;
    RestIsARun(a, s1, answers);
    ThenRun(a, s, Pipeline.Tick(todo), s1, RestSteps(todo, answers));
  }

  // ----- build worker -----

  datatype BuildOutcome =
    | PrepareFails(reason: string)
    | BuildFails(reason: string)
    | Builds(image: string)

  predicate StillBuilding(t: Table, id: DepId) { id in t && t[id].status.Building? }

  /** The protocol steps of one build; `current` says whether its row is still building when it ends. */
  function WorkerSteps(w: nat, o: BuildOutcome, current: bool): seq<Step> {
    match o
    case PrepareFails(reason) => [PrepareErr(w), StampFailed(w, reason)]
    case BuildFails(reason) =>
      if current then [PrepareOk(w), Pipeline.BuildErr(w), ReadAfterErr(w), StampFailed(w, reason)]
      else [PrepareOk(w), Pipeline.BuildErr(w), ReadAfterErr(w)]
    case Builds(image) => [PrepareOk(w), BuildOk(w, image), StoreImage(w), HandOff(w)]
  }

  /** What a build leaves behind: a row that has moved on is not stamped failed and not handed off. */
  function Worked(t: Table, id: DepId, o: BuildOutcome, now: Time): Table {
    match o
    case PrepareFails(reason) => Mark(t, id, Failed, reason, now)
    case BuildFails(reason) => if StillBuilding(t, id) then Mark(t, id, Failed, reason, now) else t
    case Builds(image) => Advance(SetImage(t, id, image), id, Building, Pushing, now)
  }

  /** One claimed deployment from claim to slot release, whatever became of its row meanwhile. */
  method RunBuild(store: DeploymentStore, id: DepId, o: BuildOutcome, now: Time) returns (handedOff: bool)
    modifies store
    ensures store.rows == Worked(old(store.rows), id, o, now)
    ensures handedOff <==> o.Builds? && StillBuilding(old(store.rows), id)
  {
    handedOff := false;
    match o {
      case PrepareFails(reason) =>
        store.MarkDeploymentStatus(id, Failed, reason, now);
      case BuildFails(reason) =>
        if StillBuilding(store.rows, id) {
          store.MarkDeploymentStatus(id, Failed, reason, now);
        }
      case Builds(image) =>
        store.SetDeploymentImage(id, image);
        handedOff := store.TryAdvanceDeploymentStatus(id, Building, Pushing, now);
    }
  }

  /** RunBuild is the protocol, uninterrupted, whatever the outcome and the row's status, and gives the slot back. */
  lemma BuildIsARun(a: Assumptions, s: Sys, w: nat, o: BuildOutcome)
    requires w < |s.slots| && s.slots[w].Preparing? && s.slots[w].id in s.table
    requires o.Builds? ==> o.image != ""
    ensures var id := s.slots[w].id;
            var steps := WorkerSteps(w, o, StillBuilding(s.table, id));
            && Run(a, s, steps)
            && End(a, s, steps) == s.(table := Worked(s.table, id, o, s.clock), slots := s.slots[w := Free])
  {
    hide Run, End;
    match o
    case PrepareFails(reason) => FailedPrepareIsARun(a, s, w, reason);
    case BuildFails(reason) =>
      if StillBuilding(s.table, s.slots[w].id) { FailedBuildIsARun(a, s, w, reason); }
      else { AbortedBuildIsARun(a, s, w, reason); }
    case Builds(image) => SuccessfulBuildIsARun(a, s, w, image);
  }

  /** `s` with slot w holding v. */
  function WithSlot(s: Sys, w: nat, v: Worker): Sys
    requires At(s, w)
  {
    s.(slots := s.slots[w := v])
  }

  /** A worker's own moves: only its slot changes. */
  ghost predicate MovesSlot(s: Sys, step: Step, w: nat, v: Worker)
    requires At(s, w)
  {
    match step
    case PrepareOk(x) => x == w && s.slots[w].Preparing? && v == Compiling(s.slots[w].id, false)
    case PrepareErr(x) => x == w && s.slots[w].Preparing? && v == Failing(s.slots[w].id)
    case BuildOk(x, image) => x == w && s.slots[w].Compiling? && image != "" && v == Built(s.slots[w].id, image)
    case BuildErr(x) => x == w && s.slots[w].Compiling? && v == Worker.BuildFailed(s.slots[w].id)
    case ReadAfterErr(x) =>
      && x == w && s.slots[w].BuildFailed? && s.slots[w].id in s.table
      && v == if StillBuilding(s.table, s.slots[w].id) then Failing(s.slots[w].id) else Free
    case _ => false
  }

  lemma MoveGoes(a: Assumptions, s: Sys, step: Step, w: nat, v: Worker)
    requires At(s, w) && MovesSlot(s, step, w, v)
    ensures Goes(a, s, step, WithSlot(s, w, v))
  {
    hide IsSnapshot, Claimable;
  }

  lemma StampGoes(a: Assumptions, s: Sys, w: nat, reason: string)
    requires At(s, w) && s.slots[w].Failing?
    ensures Goes(a, s, StampFailed(w, reason),
                 WithSlot(s, w, Free).(table := Mark(s.table, s.slots[w].id, Failed, reason, s.clock)))
  {
    hide IsSnapshot, Claimable, Mark;
  }

  lemma StoreGoes(a: Assumptions, s: Sys, w: nat)
    requires At(s, w) && s.slots[w].Built?
    ensures Goes(a, s, StoreImage(w),
                 WithSlot(s, w, ImageSet(s.slots[w].id)).(table := SetImage(s.table, s.slots[w].id, s.slots[w].image)))
  {
    hide IsSnapshot, Claimable, SetImage;
  }

  lemma HandOffGoes(a: Assumptions, s: Sys, w: nat)
    requires At(s, w) && s.slots[w].ImageSet?
    ensures Goes(a, s, HandOff(w),
                 WithSlot(s, w, Free).(table := Advance(s.table, s.slots[w].id, Building, Pushing, s.clock)))
  {
    hide IsSnapshot, Claimable, Advance;
  }

  /** Only the last value of a slot shows. */
  lemma SlotTwice(s: Sys, w: nat, v: Worker, v': Worker)
    requires At(s, w)
    ensures WithSlot(s, w, v).slots[w] == v && WithSlot(WithSlot(s, w, v), w, v') == WithSlot(s, w, v')
  {
    assert s.slots[w := v][w := v'] == s.slots[w := v'];
  }

  lemma SuccessfulBuildIsARun(a: Assumptions, s: Sys, w: nat, image: string)
    requires w < |s.slots| && s.slots[w].Preparing? && s.slots[w].id in s.table && image != ""
    ensures var id, steps := s.slots[w].id, WorkerSteps(w, Builds(image), StillBuilding(s.table, s.slots[w].id));
            && Run(a, s, steps)
            && End(a, s, steps) == s.(table := Worked(s.table, id, Builds(image), s.clock), slots := s.slots[w := Free])
  {
    hide Run, End, SetImage, Advance, StillBuilding, Goes;
    var id := s.slots[w].id;
    var s1, s2 := WithSlot(s, w, Compiling(id, false)), WithSlot(s, w, Built(id, image));
    var s3 := WithSlot(s, w, ImageSet(id)).(table := SetImage(s.table, id, image));
    var s4 := WithSlot(s, w, Free).(table := Advance(s3.table, id, Building, Pushing, s.clock));
    SlotTwice(s, w, Compiling(id, false), Built(id, image));
    SlotTwice(s, w, Built(id, image), ImageSet(id));
    SlotTwice(s, w, ImageSet(id), Free);
    MoveGoes(a, s, PrepareOk(w), w, Compiling(id, false));
    MoveGoes(a, s1, BuildOk(w, image), w, Built(id, image));
    StoreGoes(a, s2, w);
    HandOffGoes(a, s3, w);
    FourSteps(a, s, PrepareOk(w), s1, BuildOk(w, image), s2, StoreImage(w), s3, HandOff(w), s4);
  }

  lemma FailedBuildIsARun(a: Assumptions, s: Sys, w: nat, reason: string)
    requires w < |s.slots| && s.slots[w].Preparing? && StillBuilding(s.table, s.slots[w].id)
    ensures var id, steps := s.slots[w].id, WorkerSteps(w, BuildFails(reason), true);
            && Run(a, s, steps)
            && End(a, s, steps) == s.(table := Worked(s.table, id, BuildFails(reason), s.clock),
                                      slots := s.slots[w := Free])
  {
    hide Run, End, Mark, Goes;
    var id := s.slots[w].id;
    var s1, s2 := WithSlot(s, w, Compiling(id, false)), WithSlot(s, w, Worker.BuildFailed(id));
    var s3 := WithSlot(s, w, Failing(id));
    var s4 := WithSlot(s, w, Free).(table := Mark(s.table, id, Failed, reason, s.clock));
    SlotTwice(s, w, Compiling(id, false), Worker.BuildFailed(id));
    SlotTwice(s, w, Worker.BuildFailed(id), Failing(id));
    SlotTwice(s, w, Failing(id), Free);
    MoveGoes(a, s, PrepareOk(w), w, Compiling(id, false));
    MoveGoes(a, s1, Pipeline.BuildErr(w), w, Worker.BuildFailed(id));
    MoveGoes(a, s2, ReadAfterErr(w), w, Failing(id));
    StampGoes(a, s3, w, reason);
    FourSteps(a, s, PrepareOk(w), s1, Pipeline.BuildErr(w), s2, ReadAfterErr(w), s3, StampFailed(w, reason), s4);
  }

  /** A build that ends after its row was superseded leaves the table alone. */
  lemma AbortedBuildIsARun(a: Assumptions, s: Sys, w: nat, reason: string)
    requires w < |s.slots| && s.slots[w].Preparing? && s.slots[w].id in s.table
    requires !StillBuilding(s.table, s.slots[w].id)
    ensures var steps := WorkerSteps(w, BuildFails(reason), false);
            Run(a, s, steps) && End(a, s, steps) == s.(slots := s.slots[w := Free])
  {
    hide Run, End, Goes;
    var id := s.slots[w].id;
    var s1, s2 := WithSlot(s, w, Compiling(id, false)), WithSlot(s, w, Worker.BuildFailed(id));
    var s3 := WithSlot(s, w, Free);
    SlotTwice(s, w, Compiling(id, false), Worker.BuildFailed(id));
    SlotTwice(s, w, Worker.BuildFailed(id), Free);
    MoveGoes(a, s, PrepareOk(w), w, Compiling(id, false));
    MoveGoes(a, s1, Pipeline.BuildErr(w), w, Worker.BuildFailed(id));
    MoveGoes(a, s2, ReadAfterErr(w), w, Free);
    TwoSteps(a, s1, Pipeline.BuildErr(w), s2, ReadAfterErr(w), s3);
    ThenRun(a, s, PrepareOk(w), s1, [Pipeline.BuildErr(w), ReadAfterErr(w)]);
    assert [PrepareOk(w)] + [Pipeline.BuildErr(w), ReadAfterErr(w)] == WorkerSteps(w, BuildFails(reason), false);
  }

  lemma FailedPrepareIsARun(a: Assumptions, s: Sys, w: nat, reason: string)
    requires w < |s.slots| && s.slots[w].Preparing?
    ensures var id, steps := s.slots[w].id, WorkerSteps(w, PrepareFails(reason), StillBuilding(s.table, s.slots[w].id));
            && Run(a, s, steps)
            && End(a, s, steps) == s.(table := Worked(s.table, id, PrepareFails(reason), s.clock),
                                      slots := s.slots[w := Free])
  {
    hide Run, End, Mark, StillBuilding, Goes;
    var id := s.slots[w].id;
    var s1 := WithSlot(s, w, Failing(id));
    SlotTwice(s, w, Failing(id), Free);
    MoveGoes(a, s, PrepareErr(w), w, Failing(id));
    StampGoes(a, s1, w, reason);
    TwoSteps(a, s, PrepareErr(w), s1, StampFailed(w, reason),
             WithSlot(s, w, Free).(table := Mark(s.table, id, Failed, reason, s.clock)));
  }

  // ----- upload handler -----

  /** POST .../uploaded: queue this deployment, then supersede the project's older ones in flight. */
  method HandleDeploymentUploaded(store: DeploymentStore, project: ProjectId, id: DepId, key: string, now: Time)
      returns (found: bool)
    modifies store
    ensures found <==> id in old(store.rows) && old(store.rows)[id].project == project
    ensures store.rows == if found then SupersedeOlder(Queue(old(store.rows), id, key, now), project, id) else old(store.rows)
  {
    found := id in store.rows && store.rows[id].project == project;
    if !found {
      return;
    }
    store.MarkDeploymentQueued(id, key, now);
    store.SupersedeOlderDeployments(project, id);
  }

  /** After the first of the handler's two statements. */
  function HalfUploaded(s: Sys, id: DepId, key: string): Sys {
    s.(table := Queue(s.table, id, key, s.clock), midUpload := s.midUpload + multiset{id},
       tickets := s.tickets[id := s.uploads], uploads := s.uploads + 1)
  }

  lemma QueueGoes(a: Assumptions, s: Sys, id: DepId, key: string)
    requires id in s.table && !a.s2 && (a.s1 ==> s.table[id].status.Pending?)
    ensures Goes(a, s, UploadQueue(id, key), HalfUploaded(s, id, key))
  {
    hide IsSnapshot, Claimable, Queue;
  }

  lemma UploadGoes(a: Assumptions, s: Sys, id: DepId, key: string)
    requires id in s.table && !a.s2 && (a.s1 ==> s.table[id].status.Pending?)
    ensures Goes(a, HalfUploaded(s, id, key), UploadSupersede(id), Next(s, UploadAtomic(id, key)))
    ensures Next(s, UploadAtomic(id, key)).table == SupersedeOlder(Queue(s.table, id, key, s.clock), s.table[id].project, id)
  {
    hide IsSnapshot, Claimable, SupersedeOlder;
    assert (s.midUpload + multiset{id}) - multiset{id} == s.midUpload;
  }

  /** The handler's two statements, uninterrupted, are the protocol's atomic upload. */
  lemma UploadIsARun(a: Assumptions, s: Sys, id: DepId, key: string)
    requires id in s.table && !a.s2 && (a.s1 ==> s.table[id].status.Pending?)
    ensures Run(a, s, [UploadQueue(id, key), UploadSupersede(id)])
    ensures End(a, s, [UploadQueue(id, key), UploadSupersede(id)]) == Next(s, UploadAtomic(id, key))
    ensures Next(s, UploadAtomic(id, key)).table == SupersedeOlder(Queue(s.table, id, key, s.clock), s.table[id].project, id)
  {
    QueueGoes(a, s, id, key);
    UploadGoes(a, s, id, key);
    hide Run, End, Goes, Next, Queue, SupersedeOlder;
    TwoSteps(a, s, UploadQueue(id, key), HalfUploaded(s, id, key), UploadSupersede(id), Next(s, UploadAtomic(id, key)));
  }
}
