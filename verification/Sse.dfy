/**
 The event stream of a deployment (internal/api/sse.go): one pass per wake-up or heartbeat over the
 events table, a cursor in between, and resumption by Last-Event-ID (section 9.2.4 of the WHATWG HTML
 standard). Wake-ups come at arbitrary times, so a session is just the table at each of its passes.
 */
module Sse {
  import opened Wrappers
  import opened Sorting
  import opened Text

  datatype Frame = EventFrame(id: int) | Ping | End

  /** Ids come from a sequence that starts at 1. */
  ghost predicate IsTable(t: set<int>) { forall id | id in t :: id >= 1 }

  // ----- one pass -----

  /** SELECT ... WHERE id > after ORDER BY id */
  ghost function NewIds(t: set<int>, after: int): seq<int> {
    Sort(IntLe, Listing(set id | id in t && id > after))
  }

  ghost predicate Increasing(ids: seq<int>) { forall j, k | 0 <= j < k < |ids| :: ids[j] < ids[k] }

  lemma NewIdsAre(t: set<int>, after: int)
    ensures Increasing(NewIds(t, after))
    ensures forall id :: id in NewIds(t, after) <==> id in t && id > after
  {
    var keys := set id | id in t && id > after;
    IntsAreOrdered();
    RangeThenSort(IntLe, Listing(keys), Listing(keys), keys);
    SortSorts(IntLe, Listing(keys));
    hide Sort, TotalOrder;
    var ids := NewIds(t, after);
    assert Enumerates(ids, keys);
    forall j, k | 0 <= j < k < |ids| ensures ids[j] < ids[k] {
      assert IntLe(ids[j], ids[k]) && ids[j] != ids[k];
    }
  }

  /** The id the next pass starts after. */
  function NextCursor(after: int, ids: seq<int>): int {
    Max(after, if ids == [] then 0 else Max(0, ids[|ids| - 1]))
  }

  function Frames(ids: seq<int>): seq<Frame> { seq(|ids|, i requires 0 <= i < |ids| => EventFrame(ids[i])) }

  method ListEvents(table: set<int>, after: int) returns (ids: seq<int>)
    ensures ids == NewIds(table, after)
  {
    var keys := set id | id in table && id > after;
    ids := Range(keys);
    IntsAreOrdered();
    hide Sort, TotalOrder;
    RangeThenSort(IntLe, ids, Listing(keys), keys);
    ids := Sort(IntLe, ids);
  }

  /** streamEvents: the loop over the new events, and the id to go on from. */
  method StreamEvents(table: set<int>, after: int) returns (out: seq<Frame>, lastId: int)
    ensures out == Frames(NewIds(table, after)) && lastId == NextCursor(after, NewIds(table, after))
  {
    NewIdsAre(table, after);
    hide NewIds;
    var events := ListEvents(table, after);
    out, lastId := [], 0;
    for i := 0 to |events|
      invariant out == Frames(events[..i])
      invariant lastId == if i == 0 then 0 else Max(0, events[i - 1])
    {
      out := out + [EventFrame(events[i])];
      if events[i] > lastId {
        lastId := events[i];
      }
    }
    assert events[..|events|] == events;
    if lastId < after {
      lastId := after;
    }
  }

  // ----- a session -----

  /** The ids sent by passes over these tables, and the cursor after them. */
  ghost function Stream(start: int, tables: seq<set<int>>): (r: (seq<int>, int)) {
    if tables == [] then ([], start)
    else
      var before := Stream(start, tables[..|tables| - 1]);
      var ids := NewIds(tables[|tables| - 1], before.1);
      (before.0 + ids, NextCursor(before.1, ids))
  }

  /** What caused a pass: the first one, a wake-up, or the heartbeat with its ping. */
  datatype Tick = Initial | Wake | Heartbeat

  /** The event ids among the frames. */
  function IdsIn(frames: seq<Frame>): seq<int> {
    if frames == [] then []
    else
      var last := frames[|frames| - 1];
      IdsIn(frames[..|frames| - 1]) + if last.EventFrame? then [last.id] else []
  }

  lemma {:induction false} IdsInAppend(a: seq<Frame>, b: seq<Frame>)
    ensures IdsIn(a + b) == IdsIn(a) + IdsIn(b)
  {
    if b == [] {
      assert a + b == a;
    } else {
      IdsInAppend(a, b[..|b| - 1]);
      assert (a + b)[..|a + b| - 1] == a + b[..|b| - 1];
    }
  }

  lemma {:induction false} IdsInFrames(ids: seq<int>)
    ensures IdsIn(Frames(ids)) == ids
  {
    if ids != [] {
      IdsInFrames(ids[..|ids| - 1]);
      assert Frames(ids)[..|ids| - 1] == Frames(ids[..|ids| - 1]);
    }
  }

  class EventStream {
    var out: seq<Frame>
    var after: int

    constructor (start: int)
      ensures out == [] && after == start
    {
      out, after := [], start;
    }

    /** One turn of the loop; `finished` says the deployment was found in a terminal status. */
    method Turn(tick: Tick, table: set<int>, finished: bool)
      modifies this
      ensures after == NextCursor(old(after), NewIds(table, old(after)))
      ensures IdsIn(out) == IdsIn(old(out)) + NewIds(table, old(after))
      ensures out == old(out) + (if tick.Heartbeat? then [Ping] else []) + Frames(NewIds(table, old(after)))
                     + (if finished then [End] else [])
      ensures End in out <==> End in old(out) || finished
    {
      hide NewIds, IdsIn, Frames;
      ghost var was, sent := out, NewIds(table, after);
      if tick.Heartbeat? {
        out := out + [Ping];
      }
      var frames, lastId := StreamEvents(table, after);
      out := out + frames;
      after := lastId;
      if finished {
        out := out + [End];
      }
      Appended(was, tick.Heartbeat?, sent, finished);
      assert out == was + (if tick.Heartbeat? then [Ping] else []) + Frames(sent) + (if finished then [End] else []);
    }

    /** The session: turns until the deployment is finished or the client is gone. */
    method Serve(ticks: seq<Tick>, tables: seq<set<int>>, finished: seq<bool>) returns (n: nat)
      requires |ticks| == |tables| == |finished| && out == []
      modifies this
      ensures n <= |tables| && (forall k | 0 <= k < n - 1 :: !finished[k])
      ensures n == |tables| || (n > 0 && finished[n - 1])
      ensures IdsIn(out) == Stream(old(after), tables[..n]).0 && after == Stream(old(after), tables[..n]).1
      ensures forall k | 0 <= k < |out| - 1 :: out[k] != End
      ensures n > 0 && finished[n - 1] <==> out != [] && out[|out| - 1] == End
    {
      hide NewIds, NextCursor, Frames;
      n := 0;
      while n < |tables|
        invariant n <= |tables| && forall k | 0 <= k < n :: !finished[k]
        invariant IdsIn(out) == Stream(old(after), tables[..n]).0 && after == Stream(old(after), tables[..n]).1
        invariant End !in out
      {
        assert tables[..n + 1][..n] == tables[..n];
        NoEndInside(out, ticks[n].Heartbeat?, NewIds(tables[n], after), finished[n]);
        Turn(ticks[n], tables[n], finished[n]);
        n := n + 1;
        if finished[n - 1] {
          return;
        }
      }
    }
  }

  /** The end marker, if any, comes last. */
  lemma NoEndInside(was: seq<Frame>, ping: bool, sent: seq<int>, finished: bool)
    requires End !in was
    ensures var out := was + (if ping then [Ping] else []) + Frames(sent) + (if finished then [End] else []);
            && (forall k | 0 <= k < |out| - 1 :: out[k] != End)
            && (finished <==> out != [] && out[|out| - 1] == End)
  {
    var front := was + (if ping then [Ping] else []) + Frames(sent);
    assert forall k | 0 <= k < |front| :: front[k] != End;
  }

  /** Pings and end markers carry no id. */
  lemma Appended(was: seq<Frame>, ping: bool, sent: seq<int>, finished: bool)
    ensures var out := was + (if ping then [Ping] else []) + Frames(sent) + (if finished then [End] else []);
            IdsIn(out) == IdsIn(was) + sent && (End in out <==> End in was || finished)
  {
    var a, c := if ping then [Ping] else [], if finished then [End] else [];
    IdsInFrames(sent);
    IdsInAppend(was + a + Frames(sent), c);
    IdsInAppend(was + a, Frames(sent));
    IdsInAppend(was, a);
    assert IdsIn(a) == [] && IdsIn(c) == [];
    assert End !in Frames(sent);
  }

  // ----- what the concatenated stream is -----

  /** The table only grows. */
  ghost predicate Growing(tables: seq<set<int>>) {
    && (forall k | 0 <= k < |tables| :: IsTable(tables[k]))
    && (forall j, k | 0 <= j < k < |tables| :: tables[j] <= tables[k])
  }

  ghost function CursorAt(start: int, tables: seq<set<int>>, k: nat): int
    requires k <= |tables|
  {
    Stream(start, tables[..k]).1
  }

  lemma CursorStep(start: int, tables: seq<set<int>>, k: nat)
    requires k < |tables|
    ensures CursorAt(start, tables, k + 1) == NextCursor(CursorAt(start, tables, k), NewIds(tables[k], CursorAt(start, tables, k)))
    ensures CursorAt(start, tables, k) <= CursorAt(start, tables, k + 1)
  {
    assert tables[..k + 1][..k] == tables[..k];
    hide NewIds;
  }

  lemma {:induction false} CursorGrows(start: int, tables: seq<set<int>>, j: nat, k: nat)
    requires j <= k <= |tables|
    ensures CursorAt(start, tables, j) <= CursorAt(start, tables, k)
    decreases k
  {
    hide CursorAt;
    if j < k {
      CursorGrows(start, tables, j, k - 1);
      CursorStep(start, tables, k - 1);
    }
  }

  /** Which pass sent an id: the one whose table has it and whose cursor had not reached it. */
  lemma {:induction false} SentBy(start: int, tables: seq<set<int>>, id: int)
    ensures id in Stream(start, tables).0
            <==> exists k :: 0 <= k < |tables| && id in tables[k] && id > CursorAt(start, tables, k)
    decreases |tables|
  {
    hide NewIds, NextCursor;
    if tables != [] {
      var n := |tables| - 1;
      var front := tables[..n];
      SentBy(start, front, id);
      NewIdsAre(tables[n], CursorAt(start, tables, n));
      assert forall k | 0 <= k < n :: front[k] == tables[k] && front[..k] == tables[..k];
    }
  }

  /** Always, late ids or not: strictly increasing, above the start, up to the cursor. */
  lemma {:induction false} StreamIsIncreasing(start: int, tables: seq<set<int>>)
    requires start >= 0
    ensures var r := Stream(start, tables);
            Increasing(r.0) && r.1 >= start && forall id | id in r.0 :: start < id <= r.1
    decreases |tables|
  {
    hide NewIds;
    if tables != [] {
      var n := |tables| - 1;
      var before := Stream(start, tables[..n]);
      StreamIsIncreasing(start, tables[..n]);
      var ids := NewIds(tables[n], before.1);
      NewIdsAre(tables[n], before.1);
      assert forall k | 0 <= k < |ids| :: ids[k] in ids;
      assert forall k | 0 <= k < |before.0| :: before.0[k] in before.0;
    }
  }

  /** After a pass the cursor is at the greatest id of its table, or still at the start. */
  lemma {:induction false} CursorIsNewest(start: int, tables: seq<set<int>>, k: nat)
    requires start >= 0 && Growing(tables) && k < |tables|
    ensures CursorAt(start, tables, k + 1) == start || CursorAt(start, tables, k + 1) in tables[k]
    ensures forall x | x in tables[k] :: x <= CursorAt(start, tables, k + 1)
    decreases k
  {
    CursorStep(start, tables, k);
    CursorGrows(start, tables, 0, k);
    var before := CursorAt(start, tables, k);
    NewIdsAre(tables[k], before);
    var ids := NewIds(tables[k], before);
    if k > 0 {
      CursorIsNewest(start, tables, k - 1);
      assert tables[k - 1] <= tables[k];
    } else {
      assert before == start;
    }
    assert CursorAt(start, tables, 0) == start;
    hide CursorAt, NewIds;
    if ids != [] { assert ids[|ids| - 1] in ids; }
    forall x | x in tables[k] ensures x <= CursorAt(start, tables, k + 1) {
      if x > before {
        var j :| 0 <= j < |ids| && ids[j] == x;
        assert j < |ids| - 1 ==> ids[j] < ids[|ids| - 1];
      }
    }
  }

  /** An id shows up in the table only after a pass that already went past it. */
  ghost predicate Late(start: int, tables: seq<set<int>>, k: nat, id: int) {
    && k < |tables| && id !in tables[k] && id in tables[|tables| - 1]
    && start < id <= CursorAt(start, tables, k + 1)
  }

  /** The same said of the tables alone: a pass saw a greater id first. */
  ghost predicate Overtaken(start: int, tables: seq<set<int>>, k: nat, id: int) {
    && k < |tables| && id !in tables[k] && id in tables[|tables| - 1] && id > start
    && exists x :: x in tables[k] && x > id
  }

  lemma LateIsOvertaken(start: int, tables: seq<set<int>>, k: nat, id: int)
    requires start >= 0 && Growing(tables)
    ensures Late(start, tables, k, id) <==> Overtaken(start, tables, k, id)
  {
    if k < |tables| {
      CursorIsNewest(start, tables, k);
      hide CursorAt;
    }
  }

  /** Whenever a pass reads the table, the ids still to come are greater than all it holds. */
  ghost predicate VisibleInOrder(start: int, tables: seq<set<int>>) {
    forall k, id, x | 0 <= k < |tables| && x in tables[k] && id in tables[|tables| - 1] && id !in tables[k] && id > start ::
      x < id
  }

  /** Exactly the ids above the start up to the last read. */
  ghost predicate Exact(start: int, tables: seq<set<int>>) {
    tables == [] || forall id :: id in Stream(start, tables).0 <==> id in tables[|tables| - 1] && start < id <= Stream(start, tables).1
  }

  /** The first table that has an id. */
  lemma FirstTable(tables: seq<set<int>>, id: int) returns (k: nat)
    requires tables != [] && id in tables[|tables| - 1]
    ensures k < |tables| && id in tables[k] && forall j | 0 <= j < k :: id !in tables[j]
  {
    k := 0;
    while id !in tables[k]
      invariant k < |tables| && forall j | 0 <= j < k :: id !in tables[j]
      decreases |tables| - k
    {
      k := k + 1;
    }
  }

  /** The stream misses nothing if and only if ids become visible in order. */
  lemma StreamIsExact(start: int, tables: seq<set<int>>)
    requires start >= 0 && Growing(tables)
    ensures Exact(start, tables) <==> VisibleInOrder(start, tables)
  {
    hide Exact, Late;
    forall k: nat, id ensures Late(start, tables, k, id) <==> Overtaken(start, tables, k, id) {
      LateIsOvertaken(start, tables, k, id);
    }
    InOrderIsNoneOvertaken(start, tables);
    hide Overtaken, VisibleInOrder;
    if tables == [] {
      NoTables(start);
    } else if VisibleInOrder(start, tables) {
      NothingLateIsExact(start, tables);
    } else if Exact(start, tables) {
      forall k: nat, id ensures !Late(start, tables, k, id) {
        ExactIsNotLate(start, tables, k, id);
      }
    }
  }

  lemma NoTables(start: int)
    ensures Exact(start, []) && VisibleInOrder(start, [])
  {
  }

  lemma InOrderIsNoneOvertaken(start: int, tables: seq<set<int>>)
    ensures VisibleInOrder(start, tables) <==> forall k: nat, id :: !Overtaken(start, tables, k, id)
  {
    if !VisibleInOrder(start, tables) {
      var k, id, x :| 0 <= k < |tables| && x in tables[k] && id in tables[|tables| - 1] && id !in tables[k] && id > start
                      && x >= id;
      assert Overtaken(start, tables, k, id);
    }
  }

  /** Id 2 is visible before id 1: a stream that reads in between never sends 1. */
  lemma LateIdIsNeverSent()
    ensures Growing([{2}, {1, 2}]) && 1 !in Stream(0, [{2}, {1, 2}]).0
    ensures !Exact(0, [{2}, {1, 2}]) && !VisibleInOrder(0, [{2}, {1, 2}])
  {
    var tables := [{2}, {1, 2}];
    assert IsTable(tables[0]) && IsTable(tables[1]);
    CursorIsNewest(0, tables, 0);
    assert 2 in tables[0] && 1 in tables[1] && 1 !in tables[0];
    SentBy(0, tables, 1);
    assert !VisibleInOrder(0, tables);
    StreamIsExact(0, tables);
    hide CursorAt, Stream;
  }

  lemma NothingLateIsExact(start: int, tables: seq<set<int>>)
    requires start >= 0 && Growing(tables) && tables != [] && forall k, id :: !Late(start, tables, k, id)
    ensures Exact(start, tables)
  {
    StreamIsIncreasing(start, tables);
    var n := |tables|;
    forall id ensures id in Stream(start, tables).0 <==> id in tables[n - 1] && start < id <= Stream(start, tables).1 {
      SentBy(start, tables, id);
      if id in tables[n - 1] && start < id <= Stream(start, tables).1 {
        var k := FirstTable(tables, id);
        if k > 0 {
          assert !Late(start, tables, k - 1, id);
        } else {
          assert CursorAt(start, tables, 0) == start;
        }
      }
    }
  }

  lemma ExactIsNotLate(start: int, tables: seq<set<int>>, k: nat, id: int)
    requires start >= 0 && Growing(tables) && tables != [] && Exact(start, tables)
    ensures !Late(start, tables, k, id)
  {
    if k < |tables| && id !in tables[k] && id in tables[|tables| - 1] && id > start {
      SentBy(start, tables, id);
      CursorGrows(start, tables, k + 1, |tables|);
      assert tables[..|tables|] == tables;
      hide Stream;
      if id <= CursorAt(start, tables, |tables|) {
        var j :| 0 <= j < |tables| && id in tables[j] && id > CursorAt(start, tables, j);
        assert j > k;
        CursorGrows(start, tables, k + 1, j);
      }
    }
  }

  // ----- reconnecting -----

  /** A header or parameter that is there, not blank, and a number. */
  function ReadId(text: Option<string>): Option<int> {
    if text.Some? && text.value != "" then Atoi(text.value) else None
  }

  /** What the handler starts after: the query's `after` if readable, else the header, else 0. */
  function StartId(lastEventId: Option<string>, afterParam: Option<string>): int {
    if ReadId(afterParam).Some? then ReadId(afterParam).value
    else if ReadId(lastEventId).Some? then ReadId(lastEventId).value
    else 0
  }

  /** The last id a client has seen: what it sends as Last-Event-ID. */
  function LastSeen(start: int, ids: seq<int>): int { if ids == [] then start else ids[|ids| - 1] }

  lemma {:induction false} CursorIsLastSeen(start: int, tables: seq<set<int>>)
    requires start >= 0
    ensures Stream(start, tables).1 == LastSeen(start, Stream(start, tables).0)
    decreases |tables|
  {
    hide NewIds;
    if tables != [] {
      var n := |tables| - 1;
      CursorIsLastSeen(start, tables[..n]);
      StreamIsIncreasing(start, tables[..n]);
      NewIdsAre(tables[n], Stream(start, tables[..n]).1);
      var ids := NewIds(tables[n], Stream(start, tables[..n]).1);
      if ids != [] { assert ids[|ids| - 1] in ids; }
    }
  }

  /** A session resumed after the last seen id continues the stream as if it had never stopped. */
  lemma {:induction false} ResumedStream(start: int, a: seq<set<int>>, b: seq<set<int>>)
    ensures Stream(start, a + b).0 == Stream(start, a).0 + Stream(Stream(start, a).1, b).0
    ensures Stream(start, a + b).1 == Stream(Stream(start, a).1, b).1
    decreases |b|
  {
    hide NewIds, NextCursor;
    if b == [] {
      assert a + b == a;
    } else {
      ResumedStream(start, a, b[..|b| - 1]);
      assert (a + b)[..|a + b| - 1] == a + b[..|b| - 1];
    }
  }

  /** A connection lost in the middle of a pass is a pass over the ids the client got. */
  lemma CutPass(table: set<int>, after: int, n: nat)
    requires IsTable(table) && n <= |NewIds(table, after)|
    ensures var got := NewIds(table, after)[..n];
            NewIds((set id | id in table && id <= LastSeen(after, got)), after) == got
  {
    var all := NewIds(table, after);
    var got := all[..n];
    var cut := set id | id in table && id <= LastSeen(after, got);
    NewIdsAre(table, after);
    NewIdsAre(cut, after);
    hide NewIds;
    forall id ensures id in got <==> id in NewIds(cut, after) {
      if id in all && id > after && id <= LastSeen(after, got) {
        var j :| 0 <= j < |all| && all[j] == id;
        assert got != [] && all[n - 1] == got[n - 1];
        assert j <= n - 1;
        assert got[j] == id;
      }
      if id in got {
        var j :| 0 <= j < n && got[j] == id;
        assert all[j] in all && all[j] <= all[n - 1];
      }
    }
    SameIncreasing(got, NewIds(cut, after));
  }

  lemma HeadIsIn(ids: seq<int>)
    ensures ids == [] || ids[0] in ids
  {
  }

  /** An increasing list is determined by its elements. */
  lemma {:induction false} SameIncreasing(a: seq<int>, b: seq<int>)
    requires Increasing(a) && Increasing(b) && forall id :: id in a <==> id in b
    ensures a == b
    decreases |a|
  {
    if a == [] {
      HeadIsIn(b);
    } else {
      assert a[0] in b && b != [] && b[0] in a;
      assert a[0] == b[0];
      forall id ensures id in a[1..] <==> id in b[1..] {
        assert id in a[1..] <==> id in a && id != a[0] by {
          if id in a && id != a[0] { var j :| 0 <= j < |a| && a[j] == id; assert a[1..][j - 1] == id; }
        }
        assert id in b[1..] <==> id in b && id != b[0] by {
          if id in b && id != b[0] { var j :| 0 <= j < |b| && b[j] == id; assert b[1..][j - 1] == id; }
        }
      }
      SameIncreasing(a[1..], b[1..]);
    }
  }

  /** Resuming goes on from the last seen id exactly when the URL does not carry another `after`. */
  lemma ResumesAtLastSeen(last: nat, afterParam: Option<string>)
    ensures StartId(None, None) == 0
    ensures StartId(Some(Itoa(last)), afterParam) == last
            <==> ReadId(afterParam).None? || ReadId(afterParam).value == last
  {
    AtoiItoa(last);
    ItoaParses(last);
  }

  /** An `after` below the last seen id, kept in the URL of a reconnect, repeats every id in between. */
  lemma OutdatedAfterRepeats(last: nat, afterParam: string, table: set<int>, id: int)
    requires ReadId(Some(afterParam)).Some? && ReadId(Some(afterParam)).value < id <= last && id in table
    ensures id in NewIds(table, StartId(Some(Itoa(last)), Some(afterParam)))
  {
    NewIdsAre(table, StartId(Some(Itoa(last)), Some(afterParam)));
  }
}
