/**
 Each named assumption is needed: a run from the empty database that keeps the other two and breaks the conclusion.
 And the one crash that leaves two deployments running happens, whichever of them hold. The states between the steps
 are written out.
 */
module PipelineLimits {
  import opened Wrappers
  import opened Deployments
  import opened Pipeline
  import opened PipelineActors
  import opened PipelineAlways

  const NOBODY: multiset<DepId> := multiset{}

  function Start(): Sys { Sys(map[], [Free], Idle, NOBODY, {}, 0, map[], 0, [], {}) }

  function Waiting(): Deployment { Fresh(0).(status := Queued, sourceKey := "k", queuedAt := Some(0)) }

  function Claimed(): Deployment { Waiting().(status := Building, buildStartedAt := Some(0)) }

  /** Nothing is going on: what was deployed before has come to its end. */
  ghost predicate Settled(s: Sys) {
    && s.slots == [Free] && s.rec.Idle? && s.midUpload == NOBODY && s.deleted == {} && s.clock == 0
    && forall i | i in s.table :: !InFlight(s.table[i].status)
  }

  /** `s` with one more upload, whose row is by now `d`. */
  function Stage(s: Sys, id: DepId, d: Deployment, slot: Worker, rec: Reconciler): Sys {
    s.(table := s.table[id := d], slots := [slot], rec := rec, tickets := s.tickets[id := s.uploads], uploads := s.uploads + 1)
  }

  /** One deployment uploaded and claimed by slot 0. */
  function ClaimSteps(id: DepId): seq<Step> {
    [Create(id, 0), UploadAtomic(id, "k"), Acquire(0), ClaimRow(0, id, {})]
  }

  lemma NothingToSupersede(s: Sys, id: DepId)
    requires Settled(s) && id !in s.table
    ensures var t := s.table[id := Fresh(0)];
            SupersedeOlder(Queue(t, id, "k", 0), 0, id) == s.table[id := Waiting()]
  {
    var t := s.table[id := Fresh(0)];
    assert Queue(t, id, "k", 0) == s.table[id := Waiting()];
  }

  lemma OnlyQueued(s: Sys, id: DepId)
    requires Settled(s) && id !in s.table
    ensures Claimable(s.table[id := Waiting()], id, {})
    ensures Claim(s.table[id := Waiting()], id, 0) == s.table[id := Claimed()]
  {
  }

  lemma CreateUploadGo(a: Assumptions, s: Sys, id: DepId)
    requires Settled(s) && id !in s.table
    ensures Goes(a, s, Create(id, 0), s.(table := s.table[id := Fresh(0)]))
    ensures Goes(a, s.(table := s.table[id := Fresh(0)]), UploadAtomic(id, "k"), Stage(s, id, Waiting(), Free, Idle))
  {
    NothingToSupersede(s, id);
    hide SupersedeOlder, Queue, Claimable, IsSnapshot;
  }

  lemma AcquireClaimGo(a: Assumptions, s: Sys, id: DepId)
    requires Settled(s) && id !in s.table
    ensures Goes(a, Stage(s, id, Waiting(), Free, Idle), Acquire(0), Stage(s, id, Waiting(), Acquired, Idle))
    ensures Goes(a, Stage(s, id, Waiting(), Acquired, Idle), ClaimRow(0, id, {}),
                 Stage(s, id, Claimed(), Preparing(id), Idle))
  {
    OnlyQueued(s, id);
    hide Claimable, Claim, IsSnapshot;
  }

  lemma ClaimRun(a: Assumptions, s: Sys, id: DepId)
    requires Settled(s) && id !in s.table
    ensures Run(a, s, ClaimSteps(id)) && End(a, s, ClaimSteps(id)) == Stage(s, id, Claimed(), Preparing(id), Idle)
  {
    hide Run, End, Goes;
    CreateUploadGo(a, s, id);
    AcquireClaimGo(a, s, id);
    hide Settled, Stage;
    var s1 := s.(table := s.table[id := Fresh(0)]);
    var s2 := Stage(s, id, Waiting(), Free, Idle);
    var s3 := Stage(s, id, Waiting(), Acquired, Idle);
    var s4 := Stage(s, id, Claimed(), Preparing(id), Idle);
    FourSteps(a, s, Create(id, 0), s1, UploadAtomic(id, "k"), s2, Acquire(0), s3, ClaimRow(0, id, {}), s4);
  }

  function AfterClaim(): Sys { Stage(Start(), 0, Claimed(), Preparing(0), Idle) }

  /** Without S1: a second upload takes a failed deployment back to the queue. */
  lemma RepeatedUploadRevives(a: Assumptions)
    requires !a.s1
    ensures exists steps ::
              && Run(a, Start(), steps)
              && 0 in End(a, Start(), steps).table && End(a, Start(), steps).table[0].status.Failed?
              && Enabled(End(a, Start(), steps), UploadAtomic(0, "k"))
              && Keeps(a, End(a, Start(), steps), UploadAtomic(0, "k"))
              && 0 in Next(End(a, Start(), steps), UploadAtomic(0, "k")).table
              && Next(End(a, Start(), steps), UploadAtomic(0, "k")).table[0].status.Queued?
  {
    ClaimRun(a, Start(), 0);
    FailedPrepareIsARun(a, AfterClaim(), 0, "mkdir");
    var more := WorkerSteps(0, PrepareFails("mkdir"), true);
    Joined(a, Start(), ClaimSteps(0), more);
    var s := End(a, Start(), ClaimSteps(0) + more);
    assert 0 in s.table && s.table[0].status.Failed?;
    Requeued(a, s);
    hide *;
  }

  lemma Requeued(a: Assumptions, s: Sys)
    requires !a.s1 && 0 in s.table
    ensures Enabled(s, UploadAtomic(0, "k")) && Keeps(a, s, UploadAtomic(0, "k"))
    ensures 0 in Next(s, UploadAtomic(0, "k")).table && Next(s, UploadAtomic(0, "k")).table[0].status.Queued?
  {
    hide Run, End;
  }

  function BothCreated(): Sys { Start().(table := map[0 := Fresh(0), 1 := Fresh(0)]) }

  function BothQueued(): Sys {
    Start().(table := map[0 := Waiting(), 1 := Waiting()], midUpload := multiset{0, 1},
             tickets := map[0 := 0, 1 := 1], uploads := 2)
  }

  function BothLost(): Sys {
    var lost := Waiting().(status := Superseded);
    BothQueued().(table := map[0 := lost, 1 := lost], midUpload := NOBODY)
  }

  lemma CreateBoth(a: Assumptions)
    ensures Run(a, Start(), [Create(0, 0), Create(1, 0)]) && End(a, Start(), [Create(0, 0), Create(1, 0)]) == BothCreated()
  {
    hide Run, End;
    var s1 := Start().(table := map[0 := Fresh(0)]);
    TwoSteps(a, Start(), Create(0, 0), s1, Create(1, 0), BothCreated());
  }

  function FirstQueued(): Sys {
    BothCreated().(table := map[0 := Waiting(), 1 := Fresh(0)], midUpload := multiset{0}, tickets := map[0 := 0],
                   uploads := 1)
  }

  lemma FirstQueue(a: Assumptions)
    requires !a.s2
    ensures Goes(a, BothCreated(), UploadQueue(0, "k"), FirstQueued())
  {
  }

  lemma SecondQueue(a: Assumptions)
    requires !a.s2
    ensures Goes(a, FirstQueued(), UploadQueue(1, "k"), BothQueued())
  {
    assert multiset{0} + multiset{1} == multiset{0, 1};
  }

  lemma QueueBoth(a: Assumptions)
    requires !a.s2
    ensures var steps := [UploadQueue(0, "k"), UploadQueue(1, "k")];
            Run(a, BothCreated(), steps) && End(a, BothCreated(), steps) == BothQueued()
  {
    FirstQueue(a);
    SecondQueue(a);
    hide *;
    TwoSteps(a, BothCreated(), UploadQueue(0, "k"), FirstQueued(), UploadQueue(1, "k"), BothQueued());
  }

  function FirstLost(): Sys {
    BothQueued().(table := map[0 := Waiting(), 1 := Waiting().(status := Superseded)], midUpload := multiset{1})
  }

  lemma FirstSupersede(a: Assumptions)
    ensures Goes(a, BothQueued(), UploadSupersede(0), FirstLost())
  {
    FirstRowLost();
    hide SupersedeOlder;
    assert multiset{0, 1} - multiset{0} == multiset{1};
  }

  lemma FirstRowLost()
    ensures SupersedeOlder(BothQueued().table, 0, 0) == FirstLost().table
  {
  }

  lemma SecondSupersede(a: Assumptions)
    ensures Goes(a, FirstLost(), UploadSupersede(1), BothLost())
  {
    SecondRowLost();
    hide SupersedeOlder;
  }

  lemma SecondRowLost()
    ensures SupersedeOlder(FirstLost().table, 0, 1) == BothLost().table
  {
  }

  /** Deployment 1 is superseded first, yet its handler still supersedes deployment 0. */
  lemma SupersedeBoth(a: Assumptions)
    ensures var steps := [UploadSupersede(0), UploadSupersede(1)];
            Run(a, BothQueued(), steps) && End(a, BothQueued(), steps) == BothLost()
  {
    FirstSupersede(a);
    SecondSupersede(a);
    hide Run, End, Goes;
    TwoSteps(a, BothQueued(), UploadSupersede(0), FirstLost(), UploadSupersede(1), BothLost());
  }

  /** Without S2: two uploads of one project supersede each other, and no deployment is left in flight. */
  lemma CrossedUploadsLoseBoth(a: Assumptions)
    requires !a.s2
    ensures exists steps :: Run(a, Start(), steps) && End(a, Start(), steps) == BothLost()
    ensures forall id | id in BothLost().table :: BothLost().table[id].status.Superseded?
  {
    hide Run, End, Next, Enabled, Keeps;
    CreateBoth(a);
    QueueBoth(a);
    SupersedeBoth(a);
    Joined(a, BothCreated(), [UploadQueue(0, "k"), UploadQueue(1, "k")], [UploadSupersede(0), UploadSupersede(1)]);
    Joined(a, Start(), [Create(0, 0), Create(1, 0)],
           [UploadQueue(0, "k"), UploadQueue(1, "k")] + [UploadSupersede(0), UploadSupersede(1)]);
  }

  function Pushed(): Deployment { Claimed().(status := Pushing, image := "img", buildDoneAt := Some(0)) }

  lemma BuiltRow(s: Sys, id: DepId)
    requires Settled(s)
    ensures var s1, s2 := Stage(s, id, Claimed(), Preparing(id), Idle), Stage(s, id, Pushed(), Free, Idle);
            && StillBuilding(s1.table, id)
            && s1.(table := Worked(s1.table, id, Builds("img"), s1.clock), slots := s1.slots[0 := Free]) == s2
  {
    assert Advance(SetImage(s.table[id := Claimed()], id, "img"), id, Building, Pushing, 0) == s.table[id := Pushed()];
  }

  lemma BuildRun(a: Assumptions, s: Sys, id: DepId)
    requires Settled(s) && id !in s.table
    ensures var steps := ClaimSteps(id) + WorkerSteps(0, Builds("img"), true);
            Run(a, s, steps) && End(a, s, steps) == Stage(s, id, Pushed(), Free, Idle)
  {
    hide Run, End, Next, Enabled, Keeps, Settled;
    ClaimRun(a, s, id);
    var s1 := Stage(s, id, Claimed(), Preparing(id), Idle);
    BuiltRow(s, id);
    SuccessfulBuildIsARun(a, s1, 0, "img");
    Joined(a, s, ClaimSteps(id), WorkerSteps(0, Builds("img"), true));
  }

  const SNAPSHOT := [Entry(0, 0, Pushing, "img")]

  function AfterBuild(): Sys { Stage(Start(), 0, Pushed(), Free, Idle) }

  /** The reconciler holds deployment 0 as pushing; deployment 1 has superseded it. */
  function StaleSnapshot(): Sys {
    AfterBuild().(rec := Handling(SNAPSHOT),
                  table := map[0 := Pushed().(status := Superseded), 1 := Waiting()],
                  tickets := map[0 := 0, 1 := 1], uploads := 2)
  }

  lemma FetchSnapshot(a: Assumptions)
    ensures Goes(a, AfterBuild(), Tick(SNAPSHOT), AfterBuild().(rec := Handling(SNAPSHOT)))
  {
    assert SNAPSHOT[0].id == 0;
  }

  /** Deployment 1 created while the reconciler handles its snapshot. */
  function SecondCreated(): Sys {
    AfterBuild().(rec := Handling(SNAPSHOT), table := map[0 := Pushed(), 1 := Fresh(0)])
  }

  lemma SecondCreate(a: Assumptions)
    ensures Goes(a, AfterBuild().(rec := Handling(SNAPSHOT)), Create(1, 0), SecondCreated())
  {
  }

  lemma SecondUpload(a: Assumptions)
    ensures Goes(a, SecondCreated(), UploadAtomic(1, "k"), StaleSnapshot())
  {
    assert Queue(SecondCreated().table, 1, "k", 0) == map[0 := Pushed(), 1 := Waiting()];
    assert SupersedeOlder(map[0 := Pushed(), 1 := Waiting()], 0, 1) == StaleSnapshot().table;
  }

  lemma SupersedeMeanwhile(a: Assumptions)
    ensures var s, steps := AfterBuild().(rec := Handling(SNAPSHOT)), [Create(1, 0), UploadAtomic(1, "k")];
            Run(a, s, steps) && End(a, s, steps) == StaleSnapshot()
  {
    SecondCreate(a);
    SecondUpload(a);
    hide Run, End, Goes;
    TwoSteps(a, AfterBuild().(rec := Handling(SNAPSHOT)), Create(1, 0), SecondCreated(), UploadAtomic(1, "k"), StaleSnapshot());
  }

  /** Without S3: a snapshot row superseded meanwhile is put back in flight, beside its successor. */
  lemma StaleSnapshotRevives(a: Assumptions)
    requires !a.s3
    ensures exists steps :: Run(a, Start(), steps) && End(a, Start(), steps) == StaleSnapshot()
    ensures Enabled(StaleSnapshot(), MarkDeploying) && Keeps(a, StaleSnapshot(), MarkDeploying)
    ensures var t := Next(StaleSnapshot(), MarkDeploying).table;
            && 0 in t && 1 in t && t[0].project == t[1].project && InFlight(t[0].status) && InFlight(t[1].status)
  {
    StaleRun(a);
    StaleMark(a);
    hide *;
  }

  lemma StaleMark(a: Assumptions)
    requires !a.s3
    ensures Enabled(StaleSnapshot(), MarkDeploying) && Keeps(a, StaleSnapshot(), MarkDeploying)
    ensures var t := Next(StaleSnapshot(), MarkDeploying).table;
            && 0 in t && 1 in t && t[0].project == t[1].project && InFlight(t[0].status) && InFlight(t[1].status)
  {
    hide Run, End;
  }

  lemma StaleRun(a: Assumptions)
    ensures exists steps :: Run(a, Start(), steps) && End(a, Start(), steps) == StaleSnapshot()
  {
    hide Run, End, Next, Enabled, Keeps;
    BuildRun(a, Start(), 0);
    FetchSnapshot(a);
    SupersedeMeanwhile(a);
    ThenRun(a, AfterBuild(), Tick(SNAPSHOT), AfterBuild().(rec := Handling(SNAPSHOT)), [Create(1, 0), UploadAtomic(1, "k")]);
    Joined(a, Start(), ClaimSteps(0) + WorkerSteps(0, Builds("img"), true),
           [Tick(SNAPSHOT)] + [Create(1, 0), UploadAtomic(1, "k")]);
  }

  // ----- a crash between the mark and the supersede -----

  function Applied(): Deployment { Pushed().(status := Deploying) }

  function Live(): Deployment { Applied().(status := Running, deployedAt := Some(0)) }

  lemma SnapshotOfOne(s: Sys, id: DepId, d: Deployment)
    requires Settled(s) && Selected(d, {})
    ensures IsSnapshot(s.table[id := d], {}, [EntryOf(id, d)])
  {
    assert [EntryOf(id, d)][0].id == id;
  }

  /** The first tick applies the image. */
  function ApplySteps(id: DepId): seq<Step> {
    [Pipeline.Tick([EntryOf(id, Pushed())]), MarkDeploying, ApplyOk, TickDone]
  }

  lemma TickGoes(a: Assumptions, s: Sys, id: DepId, d: Deployment)
    requires Settled(s) && Selected(d, {})
    ensures Goes(a, Stage(s, id, d, Free, Idle), Pipeline.Tick([EntryOf(id, d)]), Stage(s, id, d, Free, Handling([EntryOf(id, d)])))
  {
    SnapshotOfOne(s, id, d);
    hide IsSnapshot;
  }

  lemma DeployingGoes(a: Assumptions, s: Sys, id: DepId)
    requires Settled(s)
    ensures var e := EntryOf(id, Pushed());
            Goes(a, Stage(s, id, Pushed(), Free, Handling([e])), MarkDeploying, Stage(s, id, Applied(), Free, Applying([e])))
  {
    hide IsSnapshot;
    assert Mark(s.table[id := Pushed()], id, Deploying, "", 0) == s.table[id := Applied()];
  }

  lemma AppliedGoes(a: Assumptions, s: Sys, id: DepId, e: Entry)
    ensures Goes(a, Stage(s, id, Applied(), Free, Applying([e])), ApplyOk, Stage(s, id, Applied(), Free, Handling([])))
  {
    hide IsSnapshot;
    assert [e][1..] == [];
  }

  lemma DoneGoes(a: Assumptions, s: Sys, id: DepId)
    ensures Goes(a, Stage(s, id, Applied(), Free, Handling([])), TickDone, Stage(s, id, Applied(), Free, Idle))
  {
    hide IsSnapshot;
  }

  lemma ApplyRun(a: Assumptions, s: Sys, id: DepId)
    requires Settled(s)
    ensures var s0 := Stage(s, id, Pushed(), Free, Idle);
            Run(a, s0, ApplySteps(id)) && End(a, s0, ApplySteps(id)) == Stage(s, id, Applied(), Free, Idle)
  {
    hide Run, End, IsSnapshot, Goes, Stage, Settled;
    var e := EntryOf(id, Pushed());
    TickGoes(a, s, id, Pushed());
    DeployingGoes(a, s, id);
    AppliedGoes(a, s, id, e);
    DoneGoes(a, s, id);
    FourSteps(a, Stage(s, id, Pushed(), Free, Idle), Pipeline.Tick([e]), Stage(s, id, Pushed(), Free, Handling([e])),
              MarkDeploying, Stage(s, id, Applied(), Free, Applying([e])), ApplyOk,
              Stage(s, id, Applied(), Free, Handling([])), TickDone, Stage(s, id, Applied(), Free, Idle));
  }

  /** Marked running in the second tick, its siblings not superseded yet. */
  function MarkedLive(s: Sys, id: DepId): Sys {
    Stage(s, id, Live(), Free, MarkedRunning([EntryOf(id, Applied())])).(runs := s.runs + [id])
  }

  lemma MarkRun(a: Assumptions, s: Sys, id: DepId)
    requires Settled(s)
    ensures var s0, steps := Stage(s, id, Applied(), Free, Idle), [Pipeline.Tick([EntryOf(id, Applied())]), MarkRunning];
            Run(a, s0, steps) && End(a, s0, steps) == MarkedLive(s, id)
  {
    hide Run, End, IsSnapshot;
    TickGoes(a, s, id, Applied());
    assert Mark(s.table[id := Applied()], id, Running, "", 0) == s.table[id := Live()];
    var e := EntryOf(id, Applied());
    TwoSteps(a, Stage(s, id, Applied(), Free, Idle), Pipeline.Tick([e]), Stage(s, id, Applied(), Free, Handling([e])),
             MarkRunning, MarkedLive(s, id));
  }

  /** One deployment from its creation until it is marked running. */
  function GoLive(id: DepId): seq<Step> {
    ClaimSteps(id) + WorkerSteps(0, Builds("img"), true) + ApplySteps(id)
    + [Pipeline.Tick([EntryOf(id, Applied())]), MarkRunning]
  }

  lemma GoLiveRun(a: Assumptions, s: Sys, id: DepId)
    requires Settled(s) && id !in s.table
    ensures Run(a, s, GoLive(id)) && End(a, s, GoLive(id)) == MarkedLive(s, id)
  {
    hide Run, End, Next, Enabled, Keeps, Settled, ClaimSteps, WorkerSteps, ApplySteps, Stage, MarkedLive;
    BuildRun(a, s, id);
    ApplyRun(a, s, id);
    MarkRun(a, s, id);
    var first := ClaimSteps(id) + WorkerSteps(0, Builds("img"), true);
    Joined(a, s, first, ApplySteps(id));
    Joined(a, s, first + ApplySteps(id), [Pipeline.Tick([EntryOf(id, Applied())]), MarkRunning]);
  }

  /** Deployment 0 is live and its tick has ended. */
  function FirstLive(): Sys { Stage(Start(), 0, Live(), Free, Idle).(runs := [0]) }

  lemma NoSiblings()
    ensures SupersedeSiblings(MarkedLive(Start(), 0).table, 0, 0) == FirstLive().table
    ensures [EntryOf(0, Applied())][1..] == []
  {
  }

  lemma FirstRun(a: Assumptions)
    ensures var steps := GoLive(0) + [SupersedeRunning, TickDone];
            Run(a, Start(), steps) && End(a, Start(), steps) == FirstLive()
  {
    hide Run, End, GoLive;
    GoLiveRun(a, Start(), 0);
    var s1 := FirstLive().(rec := Handling([]));
    NoSiblings();
    TwoSteps(a, MarkedLive(Start(), 0), SupersedeRunning, s1, TickDone, FirstLive());
    Joined(a, Start(), GoLive(0), [SupersedeRunning, TickDone]);
  }

  /** Both of them live, and no actor about to do anything about it. */
  function TwoLive(): Sys { MarkedLive(FirstLive(), 1).(rec := Idle, torn := {0}) }

  lemma CrashRun(a: Assumptions)
    ensures Run(a, MarkedLive(FirstLive(), 1), [Restart]) && End(a, MarkedLive(FirstLive(), 1), [Restart]) == TwoLive()
  {
    hide Run, End;
    OneStep(a, MarkedLive(FirstLive(), 1), Restart, TwoLive());
  }

  /**
   A reconciler that dies between marking deployment 1 running and superseding its siblings leaves two running
   deployments behind, whichever of S1 to S3 hold; nothing is in flight, so no later tick comes back to them.
   */
  lemma CrashLeavesTwoRunning(a: Assumptions)
    ensures Init(Start()) && BothRunning(TwoLive(), 0, 1) && TwoLive().rec.Idle?
    ensures exists steps :: Run(a, Start(), steps) && End(a, Start(), steps) == TwoLive()
    ensures forall todo: seq<Entry> | IsSnapshot(TwoLive().table, TwoLive().deleted, todo) :: todo == []
  {
    TwoLiveRun(a);
    BothLive();
    hide Run, End, TwoLive;
  }

  lemma SnapshotSelects(t: Table, deleted: set<ProjectId>, todo: seq<Entry>)
    requires IsSnapshot(t, deleted, todo)
    ensures todo == [] || exists i :: i in t && Selected(t[i], deleted)
  {
    if todo != [] { assert todo[0].id in t; }
  }

  lemma BothLive()
    ensures TwoLive().table == map[0 := Live(), 1 := Live()] && TwoLive().deleted == {}
    ensures BothRunning(TwoLive(), 0, 1) && TwoLive().rec.Idle?
    ensures forall todo: seq<Entry> | IsSnapshot(TwoLive().table, {}, todo) :: todo == []
  {
    var t := TwoLive().table;
    assert forall i | i in t :: !Selected(t[i], {});
    hide IsSnapshot;
    forall todo: seq<Entry> | IsSnapshot(t, {}, todo) ensures todo == [] {
      SnapshotSelects(t, {}, todo);
    }
  }

  lemma TwoLiveRun(a: Assumptions)
    ensures exists steps :: Run(a, Start(), steps) && End(a, Start(), steps) == TwoLive()
  {
    FirstSettled();
    hide *;
    FirstRun(a);
    GoLiveRun(a, FirstLive(), 1);
    CrashRun(a);
    Chained(a, FirstLive(), GoLive(1), MarkedLive(FirstLive(), 1), [Restart], TwoLive());
    Chained(a, Start(), GoLive(0) + [SupersedeRunning, TickDone], FirstLive(), GoLive(1) + [Restart], TwoLive());
  }

  lemma Chained(a: Assumptions, s: Sys, x: seq<Step>, m: Sys, y: seq<Step>, e: Sys)
    requires Run(a, s, x) && End(a, s, x) == m && Run(a, m, y) && End(a, m, y) == e
    ensures Run(a, s, x + y) && End(a, s, x + y) == e
  {
    Joined(a, s, x, y);
  }

  lemma FirstSettled()
    ensures Settled(FirstLive()) && 1 !in FirstLive().table
  {
  }
}
