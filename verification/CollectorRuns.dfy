/**
 Any number of passes and restarts over a growing log, each pass with whatever listeners were assigned at the time:
 no line is counted twice, and the statistics, the access log and the cursor are those of the lines counted. A line is
 lost exactly when an earlier pass has counted one of the same millisecond.
 */
module CollectorRuns {
  import opened Collector

  /** Lines are logged in the order of their timestamps, to the millisecond, after the epoch. */
  ghost predicate InOrder(log: seq<LogLine>) {
    && (forall i | 0 <= i < |log| :: log[i].ts > 0)
    && (forall i, j | 0 <= i < j < |log| :: log[i].ts <= log[j].ts)
  }

  ghost predicate Stamped(hs: seq<Hit>) {
    && (forall i | 0 <= i < |hs| :: hs[i].line.ts > 0)
    && (forall i, j | 0 <= i < j < |hs| :: hs[i].line.ts <= hs[j].line.ts)
  }

  const START := State(0, map[], [])

  /** The reference: one pass over the whole log. */
  function OneShot(ls: seq<LogLine>, ports: Ports): State { Pass(START, ls, ports) }

  datatype Event =
    | Read(from: nat, to: nat, ports: Ports)   // a pass over lines from..to of the log, with the listeners it found
    | Reboot(cursor: int)                      // a new process

  /** A pass reads no less than before and misses nothing it would still count. */
  ghost predicate MayHappen(log: seq<LogLine>, st: State, read: nat, e: Event) {
    match e
    case Read(from, to, ports) =>
      && from <= to <= |log| && read <= to
      && forall i | 0 <= i < from :: !Counts(log[i], ports, st.cursor)
    case Reboot(cursor) => IsNewest(st.stats, cursor)
  }

  function After(log: seq<LogLine>, st: State, e: Event): State
    requires e.Read? ==> e.from <= e.to <= |log|
  {
    match e
    case Read(from, to, ports) => Pass(st, log[from..to], ports)
    case Reboot(cursor) => st.(cursor := cursor)
  }

  function ReadUpTo(read: nat, e: Event): nat { if e.Read? then e.to else read }

  ghost predicate Happens(log: seq<LogLine>, st: State, read: nat, es: seq<Event>)
    decreases |es|
  {
    es == [] || (MayHappen(log, st, read, es[0]) && Happens(log, After(log, st, es[0]), ReadUpTo(read, es[0]), es[1..]))
  }

  /** The state a run ends in. */
  ghost function Final(log: seq<LogLine>, st: State, read: nat, es: seq<Event>): State
    requires Happens(log, st, read, es)
    decreases |es|
  {
    if es == [] then st else Final(log, After(log, st, es[0]), ReadUpTo(read, es[0]), es[1..])
  }

  /** How much of the log a run has read. */
  function Reached(read: nat, es: seq<Event>): nat
    decreases |es|
  {
    if es == [] then read else Reached(ReadUpTo(read, es[0]), es[1..])
  }

  // ----- which lines are counted -----

  /** A position of the log, counted for a project. */
  datatype Mark = Mark(i: nat, slug: string)

  ghost predicate Increasing(ms: seq<Mark>) { forall a, b | 0 <= a < b < |ms| :: ms[a].i < ms[b].i }

  ghost predicate Below(ms: seq<Mark>, n: nat) { forall k | 0 <= k < |ms| :: ms[k].i < n }

  ghost function HitsOf(log: seq<LogLine>, ms: seq<Mark>): seq<Hit>
    requires Below(ms, |log|)
  {
    seq(|ms|, k requires 0 <= k < |ms| => Hit(log[ms[k].i], ms[k].slug))
  }

  /** What a pass over lines from..to counts. */
  function Marks(log: seq<LogLine>, from: nat, to: nat, ports: Ports, cursor: int): seq<Mark>
    requires from <= to <= |log|
  {
    if from == to then []
    else
      var l := log[to - 1];
      Marks(log, from, to - 1, ports, cursor) + if Counts(l, ports, cursor) then [Mark(to - 1, ports[l.port])] else []
  }

  function MarkedBy(log: seq<LogLine>, st: State, e: Event): seq<Mark>
    requires e.Read? ==> e.from <= e.to <= |log|
  {
    if e.Read? then Marks(log, e.from, e.to, e.ports, st.cursor) else []
  }

  /** Everything a run counts, in order. */
  ghost function History(log: seq<LogLine>, st: State, read: nat, es: seq<Event>): seq<Mark>
    requires Happens(log, st, read, es)
    decreases |es|
  {
    if es == [] then []
    else MarkedBy(log, st, es[0]) + History(log, After(log, st, es[0]), ReadUpTo(read, es[0]), es[1..])
  }

  lemma MarkAppend(ms: seq<Mark>, n: nat, slug: string)
    requires Increasing(ms) && Below(ms, n)
    ensures Below(ms, n + 1) && Increasing(ms + [Mark(n, slug)]) && Below(ms + [Mark(n, slug)], n + 1)
  {
  }

  lemma {:induction false} MarksIncrease(log: seq<LogLine>, from: nat, to: nat, ports: Ports, cursor: int)
    requires from <= to <= |log|
    ensures Increasing(Marks(log, from, to, ports, cursor)) && Below(Marks(log, from, to, ports, cursor), to)
  {
    if from < to {
      hide Increasing, Below, Counts;
      var ms, l := Marks(log, from, to - 1, ports, cursor), log[to - 1];
      MarksIncrease(log, from, to - 1, ports, cursor);
      MarkAppend(ms, to - 1, if l.port in ports then ports[l.port] else "");
      assert ms + [] == ms;
    }
  }

  lemma {:induction false} MarksAre(log: seq<LogLine>, from: nat, to: nat, ports: Ports, cursor: int)
    requires from <= to <= |log|
    ensures Increasing(Marks(log, from, to, ports, cursor)) && Below(Marks(log, from, to, ports, cursor), to)
    ensures forall m | m in Marks(log, from, to, ports, cursor) ::
              from <= m.i < to && Counts(log[m.i], ports, cursor) && m.slug == ports[log[m.i].port]
    ensures forall i | from <= i < to && Counts(log[i], ports, cursor) ::
              Mark(i, ports[log[i].port]) in Marks(log, from, to, ports, cursor)
  {
    MarksIncrease(log, from, to, ports, cursor);
    hide Increasing, Below, Counts;
    if from < to {
      MarksAre(log, from, to - 1, ports, cursor);
    }
  }

  /** They are the relevant lines of that stretch. */
  lemma {:induction false} MarksAreRelevant(log: seq<LogLine>, from: nat, to: nat, ports: Ports, cursor: int)
    requires from <= to <= |log|
    ensures Below(Marks(log, from, to, ports, cursor), |log|)
    ensures HitsOf(log, Marks(log, from, to, ports, cursor)) == Relevant(log[from..to], ports, cursor)
  {
    MarksIncrease(log, from, to, ports, cursor);
    if from < to {
      var ms, l, ls := Marks(log, from, to - 1, ports, cursor), log[to - 1], log[from..to];
      MarksAreRelevant(log, from, to - 1, ports, cursor);
      var more := if Counts(l, ports, cursor) then [Mark(to - 1, ports[l.port])] else [];
      assert ls[..to - from - 1] == log[from..to - 1] && ls[|ls| - 1] == l;
      hide Counts;
      HitsAppend(log, ms, more);
      assert HitsOf(log, more) == if Counts(l, ports, cursor) then [Hit(l, ports[l.port])] else [];
      hide HitsOf, Below, Increasing;
    }
  }

  /** A hit is a line that counts, under the project its listener belongs to. */
  lemma {:induction false} RelevantAre(ls: seq<LogLine>, ports: Ports, cursor: int)
    ensures forall i | 0 <= i < |ls| && Counts(ls[i], ports, cursor) ::
              Hit(ls[i], ports[ls[i].port]) in Relevant(ls, ports, cursor)
    ensures forall h | h in Relevant(ls, ports, cursor) ::
              h.line in ls && Counts(h.line, ports, cursor) && h.slug == ports[h.line.port]
  {
    if ls != [] { RelevantAre(ls[..|ls| - 1], ports, cursor); }
  }

  lemma {:induction false} NewestIs(cursor: int, hs: seq<Hit>)
    ensures Newest(cursor, hs) >= cursor
    ensures forall i | 0 <= i < |hs| :: hs[i].line.ts <= Newest(cursor, hs)
    ensures Newest(cursor, hs) == cursor || exists i :: 0 <= i < |hs| && hs[i].line.ts == Newest(cursor, hs)
  {
    if hs != [] {
      var front := hs[..|hs| - 1];
      NewestIs(cursor, front);
      if Newest(cursor, hs) == Newest(cursor, front) {
        if Newest(cursor, hs) != cursor {
          var i :| 0 <= i < |front| && front[i].line.ts == Newest(cursor, hs);
          assert hs[i].line.ts == Newest(cursor, hs);
        }
      } else {
        assert hs[|hs| - 1].line.ts == Newest(cursor, hs);
      }
    }
  }

  lemma {:induction false} NewestAppend(cursor: int, a: seq<Hit>, b: seq<Hit>)
    ensures Newest(cursor, a + b) == Newest(Newest(cursor, a), b)
  {
    if b == [] {
      assert a + b == a;
    } else {
      NewestAppend(cursor, a, b[..|b| - 1]);
      assert (a + b)[..|a + b| - 1] == a + b[..|b| - 1];
    }
  }

  lemma HitsAppend(log: seq<LogLine>, a: seq<Mark>, b: seq<Mark>)
    requires Below(a, |log|) && Below(b, |log|)
    ensures Below(a + b, |log|) && HitsOf(log, a + b) == HitsOf(log, a) + HitsOf(log, b)
  {
  }

  lemma HitsAreStamped(log: seq<LogLine>, ms: seq<Mark>)
    requires InOrder(log) && Below(ms, |log|) && Increasing(ms)
    ensures Stamped(HitsOf(log, ms))
  {
  }

  ghost predicate Within(a: seq<Mark>, b: seq<Mark>) { forall m | m in a :: m in b }

  /** Of two increasing lists one within the other, the inner is shorter, or the same. */
  lemma {:induction false} IncreasingWithin(a: seq<Mark>, b: seq<Mark>)
    requires Increasing(a) && Increasing(b) && Within(a, b)
    ensures |a| <= |b| && (|a| == |b| ==> a == b)
    decreases |b|
  {
    if a != [] {
      FrontWithin(a, b);
      var a', b' := a[..|a| - 1], b[..|b| - 1];
      FrontIncreases(a);
      FrontIncreases(b);
      hide Increasing;
      if a[|a| - 1] == b[|b| - 1] {
        IncreasingWithin(a', b');
        assert a == a' + [a[|a| - 1]] && b == b' + [b[|b| - 1]];
      } else {
        IncreasingWithin(a, b');
      }
    }
  }

  lemma FrontIncreases(a: seq<Mark>)
    requires Increasing(a) && a != []
    ensures Increasing(a[..|a| - 1])
  {
  }

  lemma FrontWithin(a: seq<Mark>, b: seq<Mark>)
    requires Increasing(a) && Increasing(b) && a != [] && Within(a, b)
    ensures b != [] && Within(if a[|a| - 1] == b[|b| - 1] then a[..|a| - 1] else a, b[..|b| - 1])
  {
    var x := a[|a| - 1];
    assert x in a && x in b;
    var y, b' := b[|b| - 1], b[..|b| - 1];
    var inner := if x == y then a[..|a| - 1] else a;
    assert b == b' + [y];
    LastIsGreatest(b, x);
    forall m | m in inner ensures m in b' {
      if x == y { InFront(a, m); }
      LastIsGreatest(a, m);
    }
  }

  lemma InFront(a: seq<Mark>, m: Mark)
    requires Increasing(a) && a != [] && m in a[..|a| - 1]
    ensures m in a && m != a[|a| - 1]
  {
  }

  lemma LastIsGreatest(a: seq<Mark>, m: Mark)
    requires Increasing(a) && a != [] && m in a
    ensures m.i <= a[|a| - 1].i && (m.i == a[|a| - 1].i ==> m == a[|a| - 1])
  {
  }

  // ----- statistics -----

  function StatsOf(hs: seq<Hit>): map<Key, Stat> { map k | k in AggOf(hs) :: AggOf(hs)[k].stat }

  lemma MergeIntoEmpty(hs: seq<Hit>)
    ensures Merge(map[], AggOf(hs)) == StatsOf(hs)
  {
  }

  /** A key's accumulator never runs ahead of the lines. */
  lemma {:induction false} LastIsBounded(hs: seq<Hit>, bound: int)
    requires forall i | 0 <= i < |hs| :: hs[i].line.ts <= bound
    ensures forall k | k in AggOf(hs) :: AggOf(hs)[k].stat.last <= bound
  {
    if hs != [] {
      LastIsBounded(hs[..|hs| - 1], bound);
    }
  }

  /** What one more line does to the statistics. */
  lemma StatsSnoc(hs: seq<Hit>, h: Hit)
    ensures var k, s, l := KeyOf(h), StatsOf(hs), h.line;
            StatsOf(hs + [h]) == s[k := Plus(if k in s then s[k] else Stat(0, 0, l.ts, l.ts), l)]
  {
    SnocFolds(hs, h, 0);
  }

  /** Upserting one more line's accumulator is counting one more line. */
  lemma MergeBump(stats: map<Key, Stat>, m: map<Key, Agg>, k: Key, l: LogLine)
    requires k in stats ==> stats[k].last <= l.ts
    requires k in m ==> m[k].stat.last <= l.ts
    ensures var merged := Merge(stats, m);
            Merge(stats, Bump(m, k, l)) == merged[k := Plus(if k in merged then merged[k] else Stat(0, 0, l.ts, l.ts), l)]
  {
    var merged, m' := Merge(stats, m), Bump(m, k, l);
    hide Denied;
    forall j | j in Merge(stats, m') && j != k ensures j in merged && Merge(stats, m')[j] == merged[j] {}
  }

  /** Merging a pass's accumulators into the statistics so far is counting both lists in sequence. */
  lemma {:induction false} MergeCounts(a: seq<Hit>, b: seq<Hit>)
    requires Stamped(a + b)
    ensures Merge(StatsOf(a), AggOf(b)) == StatsOf(a + b)
    decreases |b|
  {
    if b == [] {
      assert a + b == a;
    } else {
      var front, h := b[..|b| - 1], b[|b| - 1];
      assert b == front + [h];
      assert (a + b)[..|a + front|] == a + front && a + b == (a + front) + [h];
      StampedPrefix(a + b, |a + front|);
      MergeCounts(a, front);
      SnocFolds(front, h, 0);
      StatsSnoc(a + front, h);
      BeforeLast(a, front, h);
      LastIsBounded(a, h.line.ts);
      LastIsBounded(front, h.line.ts);
      hide AggOf, Merge, Plus, Bump;
      MergeBump(StatsOf(a), AggOf(front), KeyOf(h), h.line);
    }
  }

  lemma StampedPrefix(hs: seq<Hit>, n: nat)
    requires Stamped(hs) && n <= |hs|
    ensures Stamped(hs[..n]) && Stamped(hs[n..])
  {
  }

  lemma BeforeLast(a: seq<Hit>, b: seq<Hit>, h: Hit)
    requires Stamped(a + (b + [h]))
    ensures forall i | 0 <= i < |a| :: a[i].line.ts <= h.line.ts
    ensures forall i | 0 <= i < |b| :: b[i].line.ts <= h.line.ts
  {
    var s := a + (b + [h]);
    assert s[|s| - 1] == h;
    assert forall i | 0 <= i < |a| :: s[i] == a[i];
    assert forall i | 0 <= i < |b| :: s[|a| + i] == b[i];
  }

  // ----- one pass -----

  /** The state that has counted exactly these. */
  function Counted(hs: seq<Hit>): State { State(Newest(0, hs), StatsOf(hs), RowsOf(hs)) }

  lemma OneShotCounts(log: seq<LogLine>, ports: Ports)
    ensures OneShot(log, ports) == Counted(Relevant(log, ports, 0))
  {
    var counted := Relevant(log, ports, 0);
    MergeIntoEmpty(counted);
    hide Relevant, Merge, AggOf, Newest, StatsOf;
    assert [] + RowsOf(counted) == RowsOf(counted);
  }

  lemma RowsAppend(a: seq<Hit>, b: seq<Hit>)
    ensures RowsOf(a + b) == RowsOf(a) + RowsOf(b)
  {
    hide Denied;
  }

  lemma CountedTogether(seen: seq<Hit>, news: seq<Hit>)
    requires Stamped(seen + news)
    ensures var st := Counted(seen);
            State(Newest(st.cursor, news), Merge(st.stats, AggOf(news)), st.log + RowsOf(news)) == Counted(seen + news)
  {
    MergeCounts(seen, news);
    NewestAppend(0, seen, news);
    RowsAppend(seen, news);
    hide Merge, AggOf, Newest, StatsOf, RowsOf, Stamped;
  }

  /** Where a run stands: what it has counted, all of it from lines it has read. */
  ghost predicate Stands(log: seq<LogLine>, st: State, read: nat, ms: seq<Mark>) {
    InOrder(log) && read <= |log| && Increasing(ms) && Below(ms, read) && st == Counted(HitsOf(log, ms))
  }

  /** The cursor is the timestamp of a counted line, past none of the unread ones. */
  lemma CursorSeparates(log: seq<LogLine>, st: State, read: nat, ms: seq<Mark>)
    requires Stands(log, st, read, ms)
    ensures st.cursor >= 0
    ensures forall m | m in ms :: m.i < read && log[m.i].ts <= st.cursor
    ensures st.cursor == 0 || exists m :: m in ms && log[m.i].ts == st.cursor
    ensures forall i | read <= i < |log| :: log[i].ts >= st.cursor
  {
    var hs := HitsOf(log, ms);
    NewestIs(0, hs);
    hide StatsOf, RowsOf, Newest;
    forall m | m in ms ensures m.i < read && log[m.i].ts <= st.cursor {
      var k :| 0 <= k < |ms| && ms[k] == m;
      assert hs[k].line.ts <= Newest(0, hs);
    }
    if st.cursor != 0 {
      var k :| 0 <= k < |hs| && hs[k].line.ts == st.cursor;
      assert ms[k] in ms && log[ms[k].i].ts == st.cursor;
    }
  }

  /** What a pass counts lies behind all that was counted before, whatever the listeners are by now. */
  lemma PassCountsNewLines(log: seq<LogLine>, st: State, read: nat, ms: seq<Mark>, e: Event)
    requires Stands(log, st, read, ms) && e.Read? && MayHappen(log, st, read, e)
    ensures Increasing(ms + MarkedBy(log, st, e)) && Below(ms + MarkedBy(log, st, e), e.to)
    ensures forall m | m in MarkedBy(log, st, e) :: m.i < |log| && log[m.i].ts > st.cursor
  {
    var news := MarkedBy(log, st, e);
    CursorSeparates(log, st, read, ms);
    MarksAre(log, e.from, e.to, e.ports, st.cursor);
    hide Marks, Counted, HitsOf;
    forall a, b | 0 <= a < |ms| && 0 <= b < |news| ensures ms[a].i < news[b].i {
      assert ms[a] in ms && news[b] in news;
    }
  }

  // ----- the cursor and the table -----

  /** The newest last_seen is the newest counted line. */
  lemma {:induction false} NewestLastSeen(hs: seq<Hit>)
    requires Stamped(hs)
    ensures IsNewest(StatsOf(hs), Newest(0, hs))
  {
    if hs == [] {
      assert StatsOf(hs) == map[];
    } else {
      var front, h := hs[..|hs| - 1], hs[|hs| - 1];
      assert hs == front + [h];
      StatsSnoc(front, h);
      LastIsBounded(hs, h.line.ts);
      NewestIs(0, front);
      hide AggOf;
      assert KeyOf(h) in StatsOf(hs) && StatsOf(hs)[KeyOf(h)].last == h.line.ts;
      assert Newest(0, hs) == h.line.ts by {
        if Newest(0, front) != 0 {
          var i :| 0 <= i < |front| && front[i].line.ts == Newest(0, front);
          assert hs[i].line.ts <= h.line.ts;
        }
      }
    }
  }

  /** A restart finds the cursor it lost. */
  lemma RebootKeepsCursor(hs: seq<Hit>, cursor: int)
    requires Stamped(hs) && IsNewest(Counted(hs).stats, cursor)
    ensures cursor == Counted(hs).cursor
  {
    NewestLastSeen(hs);
    hide AggOf, Newest, StatsOf, Stamped;
  }

  // ----- whole runs -----

  /** One event later the run stands at what it had counted and what the event counts. */
  lemma EventCounts(log: seq<LogLine>, st: State, read: nat, ms: seq<Mark>, e: Event)
    requires Stands(log, st, read, ms) && MayHappen(log, st, read, e)
    ensures Stands(log, After(log, st, e), ReadUpTo(read, e), ms + MarkedBy(log, st, e))
    ensures After(log, st, e).cursor >= st.cursor
  {
    match e
    case Read(from, to, ports) => ReadCounts(log, st, read, ms, e);
    case Reboot(cursor) =>
      HitsAreStamped(log, ms);
      RebootKeepsCursor(HitsOf(log, ms), cursor);
      assert ms + [] == ms;
      hide Counted, Stamped, InOrder, HitsOf;
  }

  lemma ReadCounts(log: seq<LogLine>, st: State, read: nat, ms: seq<Mark>, e: Event)
    requires Stands(log, st, read, ms) && e.Read? && MayHappen(log, st, read, e)
    ensures Stands(log, After(log, st, e), e.to, ms + MarkedBy(log, st, e))
    ensures After(log, st, e).cursor >= st.cursor
  {
    var news := MarkedBy(log, st, e);
    PassCountsNewLines(log, st, read, ms, e);
    MarksAreRelevant(log, e.from, e.to, e.ports, st.cursor);
    HitsAppend(log, ms, news);
    HitsAreStamped(log, ms + news);
    CountedTogether(HitsOf(log, ms), HitsOf(log, news));
    NewestIs(st.cursor, HitsOf(log, news));
    hide Relevant, Merge, AggOf, RowsOf, Newest, StatsOf, Stamped, InOrder, Marks, HitsOf, Increasing;
  }

  /** A run is its first event and then the rest of it. */
  lemma Unfolds(log: seq<LogLine>, st: State, read: nat, es: seq<Event>)
    requires Happens(log, st, read, es) && es != []
    ensures MayHappen(log, st, read, es[0])
    ensures Happens(log, After(log, st, es[0]), ReadUpTo(read, es[0]), es[1..])
    ensures Final(log, st, read, es) == Final(log, After(log, st, es[0]), ReadUpTo(read, es[0]), es[1..])
    ensures Reached(read, es) == Reached(ReadUpTo(read, es[0]), es[1..])
    ensures History(log, st, read, es)
            == MarkedBy(log, st, es[0]) + History(log, After(log, st, es[0]), ReadUpTo(read, es[0]), es[1..])
  {
    hide After, MarkedBy, Counts;
  }

  lemma {:induction false} RunStands(log: seq<LogLine>, st: State, read: nat, ms: seq<Mark>, es: seq<Event>)
    requires Stands(log, st, read, ms) && Happens(log, st, read, es)
    ensures Stands(log, Final(log, st, read, es), Reached(read, es), ms + History(log, st, read, es))
    ensures read <= Reached(read, es)
    decreases |es|
  {
    if es == [] {
      assert ms + [] == ms;
    } else {
      Unfolds(log, st, read, es);
      hide *;
      var st1, read1 := After(log, st, es[0]), ReadUpTo(read, es[0]);
      var news := MarkedBy(log, st, es[0]);
      EventCounts(log, st, read, ms, es[0]);
      RunStands(log, st1, read1, ms + news, es[1..]);
      Regroup(ms, news, History(log, st1, read1, es[1..]));
      ReadGrows(log, st, read, es[0]);
    }
  }

  lemma Regroup(a: seq<Mark>, b: seq<Mark>, c: seq<Mark>)
    ensures (a + b) + c == a + (b + c)
  {
  }

  lemma ReadGrows(log: seq<LogLine>, st: State, read: nat, e: Event)
    requires MayHappen(log, st, read, e)
    ensures read <= ReadUpTo(read, e)
  {
  }

  /** Nothing is counted that the cursor has passed. */
  lemma {:induction false} HistoryIsNewer(log: seq<LogLine>, st: State, read: nat, ms: seq<Mark>, es: seq<Event>)
    requires Stands(log, st, read, ms) && Happens(log, st, read, es)
    ensures forall m | m in History(log, st, read, es) :: m.i < |log| && log[m.i].ts > st.cursor
    decreases |es|
  {
    if es != [] {
      EventCounts(log, st, read, ms, es[0]);
      if es[0].Read? { PassCountsNewLines(log, st, read, ms, es[0]); }
      hide Counted, Marks, HitsOf, After, Stands;
      HistoryIsNewer(log, After(log, st, es[0]), ReadUpTo(read, es[0]), ms + MarkedBy(log, st, es[0]), es[1..]);
    }
  }

  lemma EmptyStands(log: seq<LogLine>)
    requires InOrder(log)
    ensures Stands(log, START, 0, [])
  {
    assert HitsOf(log, []) == [] && StatsOf([]) == map[] && RowsOf([]) == [];
  }

  /** Where a run from an empty table stands. */
  lemma FromStart(log: seq<LogLine>, es: seq<Event>)
    requires InOrder(log) && Happens(log, START, 0, es)
    ensures Stands(log, Final(log, START, 0, es), Reached(0, es), History(log, START, 0, es))
  {
    EmptyStands(log);
    RunStands(log, START, 0, [], es);
    assert [] + History(log, START, 0, es) == History(log, START, 0, es);
    hide Stands, Happens, History, Final, Reached;
  }

  /**
   Any passes and restarts from an empty table, the listeners changing in between as they may: the state is that of
   the counted lines, and no position of the log is counted twice.
   */
  lemma CountedOnceAtMost(log: seq<LogLine>, es: seq<Event>)
    requires InOrder(log) && Happens(log, START, 0, es)
    ensures Reached(0, es) <= |log| && Below(History(log, START, 0, es), Reached(0, es))
    ensures Final(log, START, 0, es) == Counted(HitsOf(log, History(log, START, 0, es)))
    ensures Increasing(History(log, START, 0, es))
  {
    FromStart(log, es);
    hide Counted, Happens, History, Increasing, InOrder, Final, Reached;
  }

  /** The first pass that reaches line i; |es| if there is none. */
  function FirstReach(es: seq<Event>, i: nat): (k: nat)
    ensures k <= |es| && (k < |es| ==> es[k].Read? && i < es[k].to)
  {
    if es == [] || (es[0].Read? && i < es[0].to) then 0 else 1 + FirstReach(es[1..], i)
  }

  /** A line with a host whose listener has a project. */
  predicate Readable(l: LogLine, ports: Ports) { l.host != "" && l.port in ports }

  ghost predicate IsMarked(ms: seq<Mark>, i: nat) { exists m :: m in ms && m.i == i }

  /** Some counted line has this timestamp. */
  ghost predicate Taken(log: seq<LogLine>, ms: seq<Mark>, ts: int)
    requires Below(ms, |log|)
  {
    exists k :: 0 <= k < |ms| && log[ms[k].i].ts == ts
  }

  /** At the pass that reaches a readable line, it is counted exactly if its millisecond is not taken yet. */
  lemma ReachedNow(log: seq<LogLine>, st: State, read: nat, ms: seq<Mark>, e: Event, i: nat)
    requires Stands(log, st, read, ms) && MayHappen(log, st, read, e) && e.Read? && read <= i < e.to
    requires Readable(log[i], e.ports)
    ensures Counts(log[i], e.ports, st.cursor) <==> !Taken(log, ms, log[i].ts)
    ensures Counts(log[i], e.ports, st.cursor) ==> Mark(i, e.ports[log[i].port]) in MarkedBy(log, st, e)
    ensures !Counts(log[i], e.ports, st.cursor) ==> log[i].ts <= st.cursor
  {
    CursorSeparates(log, st, read, ms);
    MarksAre(log, e.from, e.to, e.ports, st.cursor);
    hide Marks, Counted, HitsOf;
    assert log[i].ts > 0;
    if st.cursor == log[i].ts {
      var m :| m in ms && log[m.i].ts == st.cursor;
      var k :| 0 <= k < |ms| && ms[k] == m;
      assert Taken(log, ms, log[i].ts);
    }
    if Taken(log, ms, log[i].ts) {
      var k :| 0 <= k < |ms| && log[ms[k].i].ts == log[i].ts;
      assert ms[k] in ms;
    }
  }

  lemma {:induction false} ReachedIsCounted(log: seq<LogLine>, st: State, read: nat, ms: seq<Mark>, es: seq<Event>,
      i: nat)
    requires Stands(log, st, read, ms) && Happens(log, st, read, es) && read <= i < Reached(read, es)
    ensures FirstReach(es, i) < |es| && Happens(log, st, read, es[..FirstReach(es, i)])
    ensures var before := ms + History(log, st, read, es[..FirstReach(es, i)]);
            && Below(before, |log|) && i < |log|
            && (Readable(log[i], es[FirstReach(es, i)].ports) ==>
                  if Taken(log, before, log[i].ts) then !IsMarked(History(log, st, read, es), i)
                  else Mark(i, es[FirstReach(es, i)].ports[log[i].port]) in History(log, st, read, es))
    decreases |es|
  {
    var k := FirstReach(es, i);
    RunStands(log, st, read, ms, es);
    var e, st1, read1 := es[0], After(log, st, es[0]), ReadUpTo(read, es[0]);
    EventCounts(log, st, read, ms, e);
    HistoryIsNewer(log, st1, read1, ms + MarkedBy(log, st, e), es[1..]);
    if e.Read? && i < e.to {
      assert es[..0] == [] && ms + [] == ms;
      PassCountsNewLines(log, st, read, ms, e);
      hide Counted, Marks, HitsOf, Increasing, After;
      if Readable(log[i], e.ports) { ReachedNow(log, st, read, ms, e, i); }
    } else {
      ReachedIsCounted(log, st1, read1, ms + MarkedBy(log, st, e), es[1..], i);
      ReachedLater(log, st, read, ms, es, i);
    }
  }

  /** The events up to the pass that reaches line i: the first one, and those of the rest. */
  lemma ReachedInTheRest(es: seq<Event>, i: nat)
    requires es != [] && !(es[0].Read? && i < es[0].to)
    ensures var k := FirstReach(es, i);
            k == 1 + FirstReach(es[1..], i) && es[..k] != [] && es[..k][0] == es[0] && es[..k][1..] == es[1..][..k - 1]
  {
  }

  lemma Happened(log: seq<LogLine>, st: State, read: nat, es: seq<Event>)
    requires es != [] && MayHappen(log, st, read, es[0])
    requires Happens(log, After(log, st, es[0]), ReadUpTo(read, es[0]), es[1..])
    ensures Happens(log, st, read, es)
  {
    hide After, MayHappen;
  }

  /** An event that does not reach line i does not count it. */
  lemma NotMarkedYet(log: seq<LogLine>, st: State, read: nat, e: Event, i: nat)
    requires MayHappen(log, st, read, e) && !(e.Read? && i < e.to)
    ensures !IsMarked(MarkedBy(log, st, e), i)
  {
    if e.Read? { MarksAre(log, e.from, e.to, e.ports, st.cursor); }
    hide Marks, Counts;
  }

  /** The first event neither reaches line i nor counts it. */
  lemma ReachedLater(log: seq<LogLine>, st: State, read: nat, ms: seq<Mark>, es: seq<Event>, i: nat)
    requires Happens(log, st, read, es) && es != [] && !(es[0].Read? && i < es[0].to)
    requires Happens(log, After(log, st, es[0]), ReadUpTo(read, es[0]), es[1..][..FirstReach(es[1..], i)])
    ensures var k := FirstReach(es, i); var st1, read1 := After(log, st, es[0]), ReadUpTo(read, es[0]);
            && k == 1 + FirstReach(es[1..], i) && Happens(log, st, read, es[..k])
            && ms + History(log, st, read, es[..k])
               == (ms + MarkedBy(log, st, es[0])) + History(log, st1, read1, es[1..][..k - 1])
    ensures !IsMarked(MarkedBy(log, st, es[0]), i)
  {
    Unfolds(log, st, read, es);
    NotMarkedYet(log, st, read, es[0], i);
    ReachedInTheRest(es, i);
    hide *;
    var k, st1, read1 := FirstReach(es, i), After(log, st, es[0]), ReadUpTo(read, es[0]);
    var up := es[..k];
    assert up[1..] == es[1..][..k - 1] && up[0] == es[0];
    Happened(log, st, read, up);
    Unfolds(log, st, read, up);
    Regroup(ms, MarkedBy(log, st, es[0]), History(log, st1, read1, up[1..]));
  }

  /**
   A line whose listener is known to the first pass that reaches it is counted exactly once in the whole run, under
   that listener's project, unless an earlier pass has counted a line of the same millisecond: then it is lost.
   */
  lemma CountedWhenReached(log: seq<LogLine>, es: seq<Event>, i: nat)
    requires InOrder(log) && Happens(log, START, 0, es) && i < Reached(0, es)
    ensures FirstReach(es, i) < |es| && Happens(log, START, 0, es[..FirstReach(es, i)]) && i < |log|
    ensures var all, before := History(log, START, 0, es), History(log, START, 0, es[..FirstReach(es, i)]);
            var ports := es[FirstReach(es, i)].ports;
            && Below(before, |log|) && Increasing(all)
            && (Readable(log[i], ports) ==>
                  && (IsMarked(all, i) <==> !Taken(log, before, log[i].ts))
                  && (IsMarked(all, i) ==> Mark(i, ports[log[i].port]) in all))
  {
    EmptyStands(log);
    CountedOnceAtMost(log, es);
    ReachedIsCounted(log, START, 0, [], es, i);
    var before := History(log, START, 0, es[..FirstReach(es, i)]);
    assert [] + before == before;
    hide Stands, Happens, History, Counted, Increasing, Taken;
  }

  /** Whatever is counted was counted by some pass, under that pass's listeners. */
  lemma {:induction false} CountedByAPass(log: seq<LogLine>, st: State, read: nat, es: seq<Event>, m: Mark)
    requires Happens(log, st, read, es) && m in History(log, st, read, es)
    ensures exists e :: && e in es && e.Read? && e.to <= |log| && m.i < e.to
                        && Readable(log[m.i], e.ports) && m.slug == e.ports[log[m.i].port]
    decreases |es|
  {
    if m in MarkedBy(log, st, es[0]) {
      var e := es[0];
      MarksAre(log, e.from, e.to, e.ports, st.cursor);
      hide Marks;
      assert e in es;
    } else {
      CountedByAPass(log, After(log, st, es[0]), ReadUpTo(read, es[0]), es[1..], m);
      var e :| && e in es[1..] && e.Read? && e.to <= |log| && m.i < e.to
               && Readable(log[m.i], e.ports) && m.slug == e.ports[log[m.i].port];
      assert e in es;
    }
  }

  // ----- while the listeners stay as they are -----

  /** All passes of the run find the same listeners. */
  ghost predicate Constant(es: seq<Event>, ports: Ports) { forall e | e in es && e.Read? :: e.ports == ports }

  /** A pass begins between two readable lines of the same millisecond. */
  ghost predicate Straddled(log: seq<LogLine>, ports: Ports, es: seq<Event>) {
    exists k, i, j :: Parted(log, ports, es, k, i, j)
  }

  ghost predicate Parted(log: seq<LogLine>, ports: Ports, es: seq<Event>, k: nat, i: nat, j: nat) {
    && k <= |es| && i < Reached(0, es[..k]) <= j < Reached(0, es) <= |log|
    && Readable(log[i], ports) && Readable(log[j], ports) && log[i].ts == log[j].ts
  }

  /** What has been read when line i is first reached does not include it. */
  lemma {:induction false} ReachIsFirst(log: seq<LogLine>, st: State, read: nat, es: seq<Event>, i: nat, k: nat)
    requires Happens(log, st, read, es) && read <= i && k <= |es|
    ensures Reached(read, es[..k]) <= i <==> k <= FirstReach(es, i)
    decreases k
  {
    hide Counts;
    if k == 0 {
      assert es[..0] == [];
    } else {
      assert es[..k][1..] == es[1..][..k - 1];
      if es[0].Read? && i < es[0].to {
        ReachGrows(log, After(log, st, es[0]), es[0].to, es[1..], k - 1);
      } else {
        ReachIsFirst(log, After(log, st, es[0]), ReadUpTo(read, es[0]), es[1..], i, k - 1);
      }
    }
  }

  lemma {:induction false} ReachGrows(log: seq<LogLine>, st: State, read: nat, es: seq<Event>, k: nat)
    requires Happens(log, st, read, es) && k <= |es|
    ensures read <= Reached(read, es[..k])
    decreases k
  {
    if k > 0 {
      assert es[..k][1..] == es[1..][..k - 1];
      ReachGrows(log, After(log, st, es[0]), ReadUpTo(read, es[0]), es[1..], k - 1);
    }
  }

  lemma {:induction false} PrefixHappens(log: seq<LogLine>, st: State, read: nat, es: seq<Event>, k: nat)
    requires Happens(log, st, read, es) && k <= |es|
    ensures Happens(log, st, read, es[..k])
    ensures Within(History(log, st, read, es[..k]), History(log, st, read, es))
    decreases k
  {
    hide MayHappen, MarkedBy;
    if k > 0 {
      assert es[..k][1..] == es[1..][..k - 1];
      PrefixHappens(log, After(log, st, es[0]), ReadUpTo(read, es[0]), es[1..], k - 1) by { NextHappens(log, st, read, es); }
    }
  }

  lemma NextHappens(log: seq<LogLine>, st: State, read: nat, es: seq<Event>)
    requires Happens(log, st, read, es) && es != []
    ensures es[0].Read? ==> es[0].from <= es[0].to <= |log|
    ensures Happens(log, After(log, st, es[0]), ReadUpTo(read, es[0]), es[1..])
  {
  }

  /** A readable line that was reached has its millisecond taken, by itself or by another. */
  lemma ReachedIsTaken(log: seq<LogLine>, ports: Ports, es: seq<Event>, i: nat)
    requires InOrder(log) && Constant(es, ports) && Happens(log, START, 0, es)
    requires i < Reached(0, es) && i < |log| && Readable(log[i], ports)
    ensures Below(History(log, START, 0, es), |log|) && Taken(log, History(log, START, 0, es), log[i].ts)
  {
    var k := FirstReach(es, i);
    CountedOnceAtMost(log, es);
    CountedWhenReached(log, es, i);
    PrefixHappens(log, START, 0, es, k);
    assert es[k] in es;
    hide Happens, History, Counted, HitsOf, Increasing, InOrder;
    var all, before := History(log, START, 0, es), History(log, START, 0, es[..k]);
    if IsMarked(all, i) {
      var m :| m in all && m.i == i;
      var j :| 0 <= j < |all| && all[j] == m;
      assert log[all[j].i].ts == log[i].ts;
    } else {
      TakenWithin(log, before, all, log[i].ts);
    }
  }

  lemma TakenWithin(log: seq<LogLine>, a: seq<Mark>, b: seq<Mark>, ts: int)
    requires Below(a, |log|) && Below(b, |log|) && Within(a, b) && Taken(log, a, ts)
    ensures Taken(log, b, ts)
  {
    var k :| 0 <= k < |a| && log[a[k].i].ts == ts;
    assert a[k] in b;
    var j :| 0 <= j < |b| && b[j] == a[k];
    assert log[b[j].i].ts == ts;
  }

  /** The later of two parted lines is lost. */
  lemma PartedIsLost(log: seq<LogLine>, ports: Ports, es: seq<Event>, k: nat, i: nat, j: nat)
    requires InOrder(log) && Constant(es, ports) && Happens(log, START, 0, es) && Parted(log, ports, es, k, i, j)
    ensures !IsMarked(History(log, START, 0, es), j)
  {
    var last := FirstReach(es, j);
    ReachIsFirst(log, START, 0, es, j, k);
    CountedWhenReached(log, es, j);
    PrefixHappens(log, START, 0, es, k);
    assert es[..last][..k] == es[..k] && es[last] in es;
    PrefixHappens(log, START, 0, es[..last], k);
    hide Happens, History, Increasing, InOrder, Taken, Reached;
    assert Constant(es[..k], ports);
    ReachedIsTaken(log, ports, es[..k], i);
    TakenWithin(log, History(log, START, 0, es[..k]), History(log, START, 0, es[..last]), log[j].ts);
  }

  /** A lost line was parted from one that is counted. */
  lemma LostIsParted(log: seq<LogLine>, ports: Ports, es: seq<Event>, j: nat)
    requires InOrder(log) && Constant(es, ports) && Happens(log, START, 0, es)
    requires j < Reached(0, es) <= |log| && Readable(log[j], ports) && !IsMarked(History(log, START, 0, es), j)
    ensures Straddled(log, ports, es)
  {
    var k := FirstReach(es, j);
    CountedWhenReached(log, es, j);
    assert es[k] in es;
    ReachIsFirst(log, START, 0, es, j, k);
    CountedOnceAtMost(log, es[..k]);
    hide Happens, History, Increasing, InOrder, HitsOf, Counted, Reached;
    var before := History(log, START, 0, es[..k]);
    var x :| 0 <= x < |before| && log[before[x].i].ts == log[j].ts;
    CountedByAPass(log, START, 0, es[..k], before[x]);
    var e :| && e in es[..k] && e.Read? && Readable(log[before[x].i], e.ports);
    assert Parted(log, ports, es, k, before[x].i, j);
  }

  lemma HistoryWithin(log: seq<LogLine>, ports: Ports, es: seq<Event>)
    requires InOrder(log) && Constant(es, ports) && Happens(log, START, 0, es) && Reached(0, es) <= |log|
    ensures Within(History(log, START, 0, es), Marks(log, 0, Reached(0, es), ports, 0))
  {
    CountedOnceAtMost(log, es);
    MarksAre(log, 0, Reached(0, es), ports, 0);
    hide Happens, History, Increasing, HitsOf, Counted, Reached, Marks;
    var ms := History(log, START, 0, es);
    forall m | m in ms ensures m in Marks(log, 0, Reached(0, es), ports, 0) {
      CountedByAPass(log, START, 0, es, m);
      var k :| 0 <= k < |ms| && ms[k] == m;
      assert log[m.i].ts > 0;
    }
  }

  lemma SameStateSameMarks(log: seq<LogLine>, a: seq<Mark>, b: seq<Mark>)
    requires Below(a, |log|) && Below(b, |log|) && Increasing(a) && Increasing(b) && Within(a, b)
    ensures Counted(HitsOf(log, a)) == Counted(HitsOf(log, b)) <==> a == b
  {
    IncreasingWithin(a, b);
    assert |RowsOf(HitsOf(log, a))| == |a| && |RowsOf(HitsOf(log, b))| == |b|;
    hide StatsOf, Newest, Increasing;
  }

  /** They have counted all there was to count exactly if no line is missing. */
  lemma AllIsMarked(log: seq<LogLine>, ports: Ports, ms: seq<Mark>, n: nat)
    requires InOrder(log) && n <= |log| && Increasing(ms) && Within(ms, Marks(log, 0, n, ports, 0))
    ensures ms == Marks(log, 0, n, ports, 0) <==> forall i | 0 <= i < n && Readable(log[i], ports) :: IsMarked(ms, i)
  {
    var all := Marks(log, 0, n, ports, 0);
    MarksAre(log, 0, n, ports, 0);
    hide Marks;
    assert forall i | 0 <= i < n && Readable(log[i], ports) :: Counts(log[i], ports, 0);
    if forall i | 0 <= i < n && Readable(log[i], ports) :: IsMarked(ms, i) {
      forall m | m in all ensures m in ms {
        assert IsMarked(ms, m.i);
        var x :| x in ms && x.i == m.i;
        assert x in all;
      }
      IncreasingWithin(ms, all);
      IncreasingWithin(all, ms);
    }
    if ms == all {
      forall i | 0 <= i < n && Readable(log[i], ports) ensures IsMarked(ms, i) {
        assert Mark(i, ports[log[i].port]) in ms;
      }
    }
  }

  /**
   While the listeners stay as they are, any passes and restarts are one pass over the log so far, if and only if no
   pass begins between two readable lines of the same millisecond.
   */
  lemma ExactlyOnce(log: seq<LogLine>, ports: Ports, es: seq<Event>)
    requires InOrder(log) && Constant(es, ports) && Happens(log, START, 0, es)
    ensures Reached(0, es) <= |log|
    ensures Final(log, START, 0, es) == OneShot(log[..Reached(0, es)], ports) <==> !Straddled(log, ports, es)
  {
    var n, ms := Reached(0, es), History(log, START, 0, es);
    CountedOnceAtMost(log, es);
    HistoryWithin(log, ports, es);
    MarksAre(log, 0, n, ports, 0);
    MarksAreRelevant(log, 0, n, ports, 0);
    OneShotCounts(log[..n], ports);
    assert log[0..n] == log[..n];
    hide Happens, History, Final, Reached, Marks, HitsOf, Counted, OneShot, InOrder, Increasing, Constant, Parted,
        Straddled, IsMarked, Relevant;
    SameStateSameMarks(log, ms, Marks(log, 0, n, ports, 0));
    AllIsMarked(log, ports, ms, n);
    StraddledIsLost(log, ports, es);
  }

  lemma StraddledIsLost(log: seq<LogLine>, ports: Ports, es: seq<Event>)
    requires InOrder(log) && Constant(es, ports) && Happens(log, START, 0, es) && Reached(0, es) <= |log|
    ensures Straddled(log, ports, es)
            <==> exists i :: 0 <= i < Reached(0, es) && Readable(log[i], ports) && !IsMarked(History(log, START, 0, es), i)
  {
    hide Happens, History, InOrder, Constant, IsMarked, Readable;
    if Straddled(log, ports, es) {
      var k, i, j :| Parted(log, ports, es, k, i, j);
      PartedIsLost(log, ports, es, k, i, j);
    }
    if i :| 0 <= i < Reached(0, es) && Readable(log[i], ports) && !IsMarked(History(log, START, 0, es), i) {
      LostIsParted(log, ports, es, i);
    }
  }

  lemma {:induction false} TwoReads(log: seq<LogLine>, ports: Ports)
    requires |log| == 2
    ensures var es := [Read(0, 1, ports), Read(0, 2, ports)];
            Happens(log, START, 0, es) && Reached(0, es) == 2 && Reached(0, es[..1]) == 1
  {
    var first, second := Read(0, 1, ports), Read(0, 2, ports);
    var es := [first, second];
    assert es[1..] == [second] && [second][1..] == [] && es[..1] == [first] && [first][1..] == [];
    hide Pass, Counts;
    var st := After(log, START, first);
    assert Happens(log, After(log, st, second), 2, []);
    assert Happens(log, st, 1, [second]);
    assert Reached(2, []) == 2 && Reached(1, [second]) == 2;
    assert Reached(1, []) == 1 && Reached(0, [first]) == 1;
  }

  /** Two passes, and the second of two lines of one millisecond: it is never counted. */
  lemma {:induction false} SharedMillisecondIsLost(log: seq<LogLine>, ports: Ports)
    requires |log| == 2 && InOrder(log) && log[0].ts == log[1].ts && Readable(log[0], ports) && Readable(log[1], ports)
    ensures var es := [Read(0, 1, ports), Read(0, 2, ports)];
            Happens(log, START, 0, es) && Reached(0, es) == 2 && !IsMarked(History(log, START, 0, es), 1)
  {
    var es := [Read(0, 1, ports), Read(0, 2, ports)];
    TwoReads(log, ports);
    hide Happens, Reached;
    assert Parted(log, ports, es, 1, 0, 1);
    PartedIsLost(log, ports, es, 1, 0, 1);
  }

  // ----- what the figures say -----

  function CountLines(hs: seq<Hit>, k: Key, denied: bool): nat {
    if hs == [] then 0
    else
      var last := hs[|hs| - 1];
      CountLines(hs[..|hs| - 1], k, denied) + if KeyOf(last) == k && Denied(last.line.status) == denied then 1 else 0
  }

  lemma {:induction false} StatsCount(hs: seq<Hit>, k: Key)
    ensures var s := StatsOf(hs);
            && (k in s <==> CountLines(hs, k, false) + CountLines(hs, k, true) > 0)
            && (k in s ==> s[k].allowed == CountLines(hs, k, false) && s[k].denied == CountLines(hs, k, true))
  {
    if hs != [] {
      var front, h := hs[..|hs| - 1], hs[|hs| - 1];
      assert hs == front + [h];
      StatsSnoc(front, h);
      StatsCount(front, k);
    }
  }

  /** Sum of allowed and denied over the table. */
  ghost function Total(stats: map<Key, Stat>): nat
    decreases |stats|
  {
    if stats == map[] then 0
    else
      var k :| k in stats;
      assert |stats - {k}| < |stats| by { MapShrinks(stats, k); }
      stats[k].allowed + stats[k].denied + Total(stats - {k})
  }

  lemma MapShrinks(stats: map<Key, Stat>, k: Key)
    requires k in stats
    ensures |stats - {k}| < |stats|
  {
    assert stats.Keys == (stats - {k}).Keys + {k};
    assert |stats.Keys| == |stats| && |(stats - {k}).Keys| == |stats - {k}|;
  }

  lemma {:induction false} TotalWithout(stats: map<Key, Stat>, k: Key)
    requires k in stats
    ensures Total(stats) == stats[k].allowed + stats[k].denied + Total(stats - {k})
    decreases |stats|
  {
    var j :| j in stats && Total(stats) == stats[j].allowed + stats[j].denied + Total(stats - {j});
    if j != k {
      MapShrinks(stats, j);
      MapShrinks(stats, k);
      TotalWithout(stats - {j}, k);
      TotalWithout(stats - {k}, j);
      assert stats - {j} - {k} == stats - {k} - {j};
    }
  }

  lemma TotalUpdate(stats: map<Key, Stat>, k: Key, s: Stat)
    ensures Total(stats[k := s]) == s.allowed + s.denied + Total(stats - {k})
  {
    TotalWithout(stats[k := s], k);
    assert stats[k := s] - {k} == stats - {k};
  }

  lemma {:induction false} TotalIsCount(hs: seq<Hit>)
    ensures Total(StatsOf(hs)) == |hs|
  {
    if hs == [] {
      assert StatsOf(hs) == map[];
    } else {
      var front, h := hs[..|hs| - 1], hs[|hs| - 1];
      assert hs == front + [h];
      var s, k, l := StatsOf(front), KeyOf(h), h.line;
      TotalIsCount(front);
      StatsSnoc(front, h);
      hide AggOf, Denied, StatsOf;
      TotalUpdate(s, k, Plus(if k in s then s[k] else Stat(0, 0, l.ts, l.ts), l));
      if k in s {
        TotalWithout(s, k);
      } else {
        assert s - {k} == s;
      }
    }
  }

  /** Conservation, over any run: allowed plus denied is the number of access-log rows. */
  lemma TotalsMatchRows(log: seq<LogLine>, es: seq<Event>)
    requires InOrder(log) && Happens(log, START, 0, es)
    ensures Total(Final(log, START, 0, es).stats) == |Final(log, START, 0, es).log|
    ensures IsNewest(Final(log, START, 0, es).stats, Final(log, START, 0, es).cursor)
  {
    CountedOnceAtMost(log, es);
    HitsAreStamped(log, History(log, START, 0, es));
    var hs := HitsOf(log, History(log, START, 0, es));
    TotalIsCount(hs);
    NewestLastSeen(hs);
    hide StatsOf, Newest, Happens, History, Final, HitsOf, Total;
  }

  /** The first line of a project and host was logged at ts. */
  ghost predicate SeenFrom(hs: seq<Hit>, k: Key, ts: int) {
    exists j :: 0 <= j < |hs| && hs[j].slug == k.slug && hs[j].line.host == k.host && hs[j].line.ts == ts
                && forall i | 0 <= i < j :: hs[i].slug != k.slug || hs[i].line.host != k.host
  }

  /** The last one was. */
  ghost predicate SeenTo(hs: seq<Hit>, k: Key, ts: int) {
    exists j :: 0 <= j < |hs| && hs[j].slug == k.slug && hs[j].line.host == k.host && hs[j].line.ts == ts
                && forall i | j < i < |hs| :: hs[i].slug != k.slug || hs[i].line.host != k.host
  }

  lemma {:induction false} SeenTimes(hs: seq<Hit>, k: Key)
    ensures k in StatsOf(hs) ==> SeenFrom(hs, k, StatsOf(hs)[k].first) && SeenTo(hs, k, StatsOf(hs)[k].last)
    ensures k !in StatsOf(hs) ==> forall i | 0 <= i < |hs| :: hs[i].slug != k.slug || hs[i].line.host != k.host
  {
    if hs != [] {
      var front, h := hs[..|hs| - 1], hs[|hs| - 1];
      assert hs == front + [h];
      StatsSnoc(front, h);
      SeenTimes(front, k);
      hide StatsOf, Denied;
      if KeyOf(h) == k {
        assert hs[|hs| - 1].line.ts == StatsOf(hs)[k].last;
        if k in StatsOf(front) { SeenFromSnoc(front, h, k, StatsOf(front)[k].first); }
      } else if k in StatsOf(front) {
        SeenFromSnoc(front, h, k, StatsOf(front)[k].first);
        SeenToSnoc(front, h, k, StatsOf(front)[k].last);
      }
    }
  }

  lemma SeenFromSnoc(hs: seq<Hit>, h: Hit, k: Key, ts: int)
    requires SeenFrom(hs, k, ts)
    ensures SeenFrom(hs + [h], k, ts)
  {
    var j :| 0 <= j < |hs| && hs[j].slug == k.slug && hs[j].line.host == k.host && hs[j].line.ts == ts
             && forall i | 0 <= i < j :: hs[i].slug != k.slug || hs[i].line.host != k.host;
    assert (hs + [h])[j] == hs[j];
  }

  lemma SeenToSnoc(hs: seq<Hit>, h: Hit, k: Key, ts: int)
    requires SeenTo(hs, k, ts) && KeyOf(h) != k
    ensures SeenTo(hs + [h], k, ts)
  {
    var j :| 0 <= j < |hs| && hs[j].slug == k.slug && hs[j].line.host == k.host && hs[j].line.ts == ts
             && forall i | j < i < |hs| :: hs[i].slug != k.slug || hs[i].line.host != k.host;
    assert (hs + [h])[j] == hs[j];
  }

  /** Each host's figures are the counted lines of that host, and every counted line is one row. */
  lemma FiguresAreCounts(log: seq<LogLine>, es: seq<Event>, k: Key)
    requires InOrder(log) && Happens(log, START, 0, es)
    ensures Below(History(log, START, 0, es), |log|)
    ensures var hs, end := HitsOf(log, History(log, START, 0, es)), Final(log, START, 0, es);
            && |end.log| == |hs|
            && (forall i | 0 <= i < |hs| ::
                  && end.log[i].ts == hs[i].line.ts && end.log[i].slug == hs[i].slug && end.log[i].host == hs[i].line.host
                  && end.log[i].verb == hs[i].line.verb && end.log[i].status == hs[i].line.status
                  && (end.log[i].denied <==> Denied(hs[i].line.status)))
            && (k in end.stats <==> CountLines(hs, k, false) + CountLines(hs, k, true) > 0)
            && (k in end.stats ==> && end.stats[k].allowed == CountLines(hs, k, false)
                                   && end.stats[k].denied == CountLines(hs, k, true)
                                   && SeenFrom(hs, k, end.stats[k].first) && SeenTo(hs, k, end.stats[k].last))
  {
    CountedOnceAtMost(log, es);
    StatsCount(HitsOf(log, History(log, START, 0, es)), k);
    SeenTimes(HitsOf(log, History(log, START, 0, es)), k);
    hide SeenFrom, SeenTo, Denied;
    hide StatsOf, Happens, History, CountLines, Final, HitsOf;
  }

  /** Reading raw lines in two parts parses them in two parts. */
  lemma {:induction false} ParsedAppend(a: seq<string>, b: seq<string>)
    ensures ParsedLog(a + b) == ParsedLog(a) + ParsedLog(b)
  {
    hide ParseLine;
    if b == [] {
      assert a + b == a;
    } else {
      ParsedAppend(a, b[..|b| - 1]);
      assert (a + b)[..|a + b| - 1] == a + b[..|b| - 1];
    }
  }
}
