/**
 The proxy-log collector (internal/api/egress_mode.go): parsing access-log lines, folding them into
 per-domain statistics and the access log, learning rules, and resuming after a restart.
 Times are integer milliseconds.
 */
module Collector {
  import opened Wrappers
  import opened Text
  import opened EgressDb

  // ----- log lines -----

  datatype LogLine = LogLine(ts: int, port: int, verb: string, dport: int, status: string, host: string)

  /** Where `pattern` first occurs in s, or |s|. */
  function Find(s: string, pattern: string): (i: nat)
    ensures i <= |s|
    ensures i < |s| ==> HasPrefix(s[i..], pattern)
  {
    if s == "" || HasPrefix(s, pattern) then 0 else 1 + Find(s[1..], pattern)
  }

  /** Host and destination port of a logged URL. */
  function ParseUrl(url: string): (string, int) {
    var i := Find(url, "://");
    var rest := if i < |url| then url[i + 3..] else url;
    var authority := rest[..IndexOf(rest, '/')];
    var default := if HasPrefix(url, "http://") then 80 else 443;
    HostAndPort(authority, default)
  }

  function HostAndPort(authority: string, default: int): (string, int) {
    var c := LastIndexOf(authority, ':');
    if c < 0 then (authority, default)
    else (authority[..c], if Atoi(authority[c + 1..]).Some? then Atoi(authority[c + 1..]).value else default)
  }

  /** "%ts.%03tu": seconds, a dot, three digits of milliseconds; anything else reads as 0. */
  function ParseMillis(s: string): int {
    var i := IndexOf(s, '.');
    if i < |s| && |s| - i == 4 && ParseNat(s[..i]).Some? && ParseNat(s[i + 1..]).Some?
    then 1000 * ParseNat(s[..i]).value + ParseNat(s[i + 1..]).value else 0
  }

  const PROBE_PORT := 3128

  /** ts port status method url; short lines, unreadable ports and the probe listener are skipped. */
  function ParseLine(line: string): Option<LogLine> {
    var f := Fields(line);
    if |f| < 5 || Atoi(f[1]).None? || Atoi(f[1]).value == PROBE_PORT then None
    else Some(LogLine(ParseMillis(f[0]), Atoi(f[1]).value, f[3], ParseUrl(f[4]).1, f[2], ParseUrl(f[4]).0))
  }

  function ParsedLog(raw: seq<string>): seq<LogLine> {
    if raw == [] then []
    else
      var last := ParseLine(raw[|raw| - 1]);
      ParsedLog(raw[..|raw| - 1]) + if last.Some? then [last.value] else []
  }

  predicate Denied(status: string) { Find(status, "DENIED") < |status| }

  // ----- aggregation -----

  datatype Key = Key(slug: string, host: string)

  datatype Stat = Stat(allowed: nat, denied: nat, first: int, last: int)

  /** One key's accumulator during a pass; dport is that of the key's first line. */
  datatype Agg = Agg(stat: Stat, dport: int)

  datatype Row = Row(ts: int, slug: string, verb: string, host: string, status: string, denied: bool)

  type Ports = map<int, string>

  /** Counted: newer than the cursor, with a host, from a known listener. */
  predicate Counts(l: LogLine, ports: Ports, cursor: int) {
    l.ts > cursor && l.host != "" && l.port in ports
  }

  /** A counted line, under the project its listener belonged to when the pass read the port map. */
  datatype Hit = Hit(line: LogLine, slug: string)

  function Relevant(ls: seq<LogLine>, ports: Ports, cursor: int): seq<Hit> {
    if ls == [] then []
    else
      var last := ls[|ls| - 1];
      Relevant(ls[..|ls| - 1], ports, cursor) + if Counts(last, ports, cursor) then [Hit(last, ports[last.port])] else []
  }

  function KeyOf(h: Hit): Key { Key(h.slug, h.line.host) }

  function Plus(s: Stat, l: LogLine): Stat {
    if Denied(l.status) then s.(denied := s.denied + 1, last := l.ts) else s.(allowed := s.allowed + 1, last := l.ts)
  }

  function Bump(m: map<Key, Agg>, k: Key, l: LogLine): map<Key, Agg> {
    var a := if k in m then m[k] else Agg(Stat(0, 0, l.ts, l.ts), l.dport);
    m[k := a.(stat := Plus(a.stat, l))]
  }

  function AggOf(hs: seq<Hit>): map<Key, Agg> {
    if hs == [] then map[]
    else
      var last := hs[|hs| - 1];
      Bump(AggOf(hs[..|hs| - 1]), KeyOf(last), last.line)
  }

  function RowOf(h: Hit): Row { Row(h.line.ts, h.slug, h.line.verb, h.line.host, h.line.status,
      Denied(h.line.status)) }

  function RowsOf(hs: seq<Hit>): seq<Row> { seq(|hs|, i requires 0 <= i < |hs| => RowOf(hs[i])) }

  /** The newest timestamp, or the cursor. */
  function Newest(cursor: int, hs: seq<Hit>): int {
    if hs == [] then cursor
    else
      var before := Newest(cursor, hs[..|hs| - 1]);
      if hs[|hs| - 1].line.ts > before then hs[|hs| - 1].line.ts else before
  }

  /** ON CONFLICT (project_id, host): counts add up, last_seen is the greater, first_seen stays. */
  function Upsert(was: Stat, s: Stat): Stat {
    Stat(was.allowed + s.allowed, was.denied + s.denied, was.first, Max(was.last, s.last))
  }

  function Upserted(stats: map<Key, Stat>, k: Key, s: Stat): map<Key, Stat> {
    stats[k := if k in stats then Upsert(stats[k], s) else s]
  }

  /** The table after upserting some of a pass's accumulators. */
  function MergeOver(stats: map<Key, Stat>, m: map<Key, Agg>, done: set<Key>): map<Key, Stat>
    requires done <= m.Keys
  {
    map k | k in stats.Keys + done ::
      if k !in done then stats[k] else if k in stats then Upsert(stats[k], m[k].stat) else m[k].stat
  }

  function Merge(stats: map<Key, Stat>, m: map<Key, Agg>): map<Key, Stat> { MergeOver(stats, m, m.Keys) }

  lemma MergeStep(stats: map<Key, Stat>, m: map<Key, Agg>, done: set<Key>, k: Key)
    requires done <= m.Keys && k in m && k !in done
    ensures MergeOver(stats, m, done + {k}) == Upserted(MergeOver(stats, m, done), k, m[k].stat)
  {
  }

  /** The collector's persistent part: statistics, access log (before pruning), and the cursor in memory. */
  datatype State = State(cursor: int, stats: map<Key, Stat>, log: seq<Row>)

  /** One error-free pass. */
  function Pass(st: State, lines: seq<LogLine>, ports: Ports): State {
    var counted := Relevant(lines, ports, st.cursor);
    State(Newest(st.cursor, counted), Merge(st.stats, AggOf(counted)), st.log + RowsOf(counted))
  }

  // ----- learned rules -----

  function LearnPort(dport: int): int { if dport != 80 && dport != 443 then 0 else dport }

  /** What a pass teaches: one lesson per host it saw let through. */
  function Lessons(m: map<Key, Agg>, done: set<Key>): set<Lesson>
    requires done <= m.Keys
  {
    set k | k in done && m[k].stat.allowed > 0 :: Lesson(k.slug, k.host, LearnPort(m[k].dport))
  }

  /** What a restart teaches: port 443 for every host ever let through. */
  function Backlog(stats: map<Key, Stat>, done: set<Key>): set<Lesson>
    requires done <= stats.Keys
  {
    set k | k in done && stats[k].allowed > 0 :: Lesson(k.slug, k.host, 443)
  }

  lemma BacklogStep(stats: map<Key, Stat>, done: set<Key>, k: Key)
    requires done <= stats.Keys && k in stats
    ensures Backlog(stats, done + {k})
            == Backlog(stats, done) + if stats[k].allowed > 0 then {Lesson(k.slug, k.host, 443)} else {}
  {
  }

  lemma LessonsStep(m: map<Key, Agg>, done: set<Key>, k: Key)
    requires done <= m.Keys && k in m
    ensures Lessons(m, done + {k})
            == Lessons(m, done) + if m[k].stat.allowed > 0 then {Lesson(k.slug, k.host, LearnPort(m[k].dport))} else {}
  {
    hide LearnPort;
  }

  // ----- the loops -----

  method ParseProxyLog(text: string) returns (out: seq<LogLine>)
    ensures out == ParsedLog(Split(text, '\n'))
  {
    out := [];
    var raw := Split(text, '\n');
    assert raw[..|raw|] == raw;
    hide Fields, Split;
    for i := 0 to |raw|
      invariant out == ParsedLog(raw[..i])
    {
      assert raw[..i + 1][..i] == raw[..i];
      var f := Fields(raw[i]);
      if |f| < 5 {
        continue;
      }
      var port := Atoi(f[1]);
      if port.None? || port.value == PROBE_PORT {
        continue;
      }
      var url := ParseUrl(f[4]);
      out := out + [LogLine(ParseMillis(f[0]), port.value, f[3], url.1, f[2], url.0)];
    }
  }

  lemma RelevantSnoc(ls: seq<LogLine>, i: nat, ports: Ports, cursor: int)
    requires i < |ls|
    ensures Relevant(ls[..i + 1], ports, cursor)
            == Relevant(ls[..i], ports, cursor) + if Counts(ls[i], ports, cursor) then [Hit(ls[i], ports[ls[i].port])] else []
  {
    assert ls[..i + 1][..i] == ls[..i];
  }

  lemma SnocFolds(hs: seq<Hit>, h: Hit, cursor: int)
    ensures AggOf(hs + [h]) == Bump(AggOf(hs), KeyOf(h), h.line)
    ensures RowsOf(hs + [h]) == RowsOf(hs) + [RowOf(h)]
    ensures Newest(cursor, hs + [h]) == Max(Newest(cursor, hs), h.line.ts)
  {
    assert (hs + [h])[..|hs|] == hs;
  }

  /** One counted line: the accumulator it changes. */
  method Accumulate(before: map<Key, Agg>, k: Key, l: LogLine) returns (m: map<Key, Agg>)
    ensures m == Bump(before, k, l)
  {
    var a := if k in before then before[k] else Agg(Stat(0, 0, l.ts, l.ts), l.dport);
    var s := a.stat;
    if Denied(l.status) {
      s := s.(denied := s.denied + 1);
    } else {
      s := s.(allowed := s.allowed + 1);
    }
    s := s.(last := l.ts);
    m := before[k := a.(stat := s)];
  }

  /** The loop of a pass: accumulators, rows and the next cursor. */
  method Fold(lines: seq<LogLine>, ports: Ports, cursor: int)
    returns (m: map<Key, Agg>, rows: seq<Row>, next: int)
    ensures var counted := Relevant(lines, ports, cursor);
            m == AggOf(counted) && rows == RowsOf(counted) && next == Newest(cursor, counted)
  {
    m, rows, next := map[], [], cursor;
    assert lines[..|lines|] == lines;
    ghost var counted: seq<Hit> := [];
    for i := 0 to |lines|
      invariant counted == Relevant(lines[..i], ports, cursor)
      invariant m == AggOf(counted) && rows == RowsOf(counted) && next == Newest(cursor, counted)
    {
      RelevantSnoc(lines, i, ports, cursor);
      var l := lines[i];
      if l.ts <= cursor || l.host == "" {
        continue;
      }
      if l.port !in ports {
        continue;
      }
      SnocFolds(counted, Hit(l, ports[l.port]), cursor);
      hide AggOf, RowsOf, Newest, Relevant, Denied, Bump;
      rows := rows + [Row(l.ts, ports[l.port], l.verb, l.host, l.status, Denied(l.status))];
      m := Accumulate(m, Key(ports[l.port], l.host), l);
      if l.ts > next {
        next := l.ts;
      }
      counted := counted + [Hit(l, ports[l.port])];
    }
  }

  /** max(last_seen), 0 for an empty table. */
  method MaxLastSeen(stats: map<Key, Stat>) returns (cursor: int)
    ensures IsNewest(stats, cursor)
  {
    var todo := stats.Keys;
    cursor := 0;
    var some := false;
    while todo != {}
      invariant todo <= stats.Keys
      invariant some <==> todo != stats.Keys
      invariant !some ==> cursor == 0
      invariant some ==> exists k :: k in stats && stats[k].last == cursor
      invariant forall k | k in stats.Keys - todo :: stats[k].last <= cursor
      decreases |todo|
    {
      var k :| k in todo;
      if !some || stats[k].last > cursor {
        cursor := stats[k].last;
      }
      some := true;
      todo := todo - {k};
    }
  }

  /** The table's newest last_seen, 0 while it is empty. */
  ghost predicate IsNewest(stats: map<Key, Stat>, cursor: int) {
    if stats == map[] then cursor == 0
    else (exists k :: k in stats && stats[k].last == cursor) && forall k | k in stats :: stats[k].last <= cursor
  }

  class LogCollector {
    const store: EgressStore
    var cursor: int
    var stats: map<Key, Stat>
    var log: seq<Row>

    ghost function Value(): State
      reads this
    {
      State(cursor, stats, log)
    }

    constructor (store: EgressStore)
      ensures this.store == store && Value() == State(0, map[], [])
    {
      this.store := store;
      cursor, stats, log := 0, map[], [];
    }

    /** A new process: the cursor comes from the table, then hosts from before rules were learned are added. */
    method Restart()
      modifies this`cursor, store
      ensures IsNewest(stats, cursor)
      ensures store.Value() == Learn(old(store.Value()), Backlog(stats, stats.Keys))
    {
      cursor := MaxLastSeen(stats);
      hide Learn, Backlog, IsNewest;
      Backfill();
    }

    method Backfill()
      modifies store
      ensures store.Value() == Learn(old(store.Value()), Backlog(stats, stats.Keys))
    {
      ghost var before := store.Value();
      var todo := stats.Keys;
      LearnNothing(before);
      assert Backlog(stats, stats.Keys - todo) == {};
      hide Learn, Backlog;
      while todo != {}
        invariant todo <= stats.Keys
        invariant store.Value() == Learn(before, Backlog(stats, stats.Keys - todo))
        decreases |todo|
      {
        var k :| k in todo;
        ghost var done := stats.Keys - todo;
        ghost var lesson := if stats[k].allowed > 0 then {Lesson(k.slug, k.host, 443)} else {};
        assert stats.Keys - (todo - {k}) == done + {k};
        BacklogStep(stats, done, k);
        LearnTwice(before, Backlog(stats, done), lesson);
        LearnNothing(store.Value());
        if stats[k].allowed > 0 {
          store.LearnDomain(Lesson(k.slug, k.host, 443));
        }
        assert store.Value() == Learn(before, Backlog(stats, done + {k}));
        todo := todo - {k};
      }
      assert stats.Keys - {} == stats.Keys;
    }

    method UpsertStats(m: map<Key, Agg>)
      modifies this`stats
      ensures stats == Merge(old(stats), m)
    {
      var todo := m.Keys;
      ghost var before := stats;
      assert stats == MergeOver(before, m, m.Keys - todo);
      hide MergeOver;
      while todo != {}
        invariant todo <= m.Keys
        invariant stats == MergeOver(before, m, m.Keys - todo)
        decreases |todo|
      {
        var k :| k in todo;
        MergeStep(before, m, m.Keys - todo, k);
        assert m.Keys - (todo - {k}) == m.Keys - todo + {k};
        stats := Upserted(stats, k, m[k].stat);
        todo := todo - {k};
      }
      assert m.Keys - {} == m.Keys;
    }

    method LearnFrom(m: map<Key, Agg>)
      modifies store
      ensures store.Value() == Learn(old(store.Value()), Lessons(m, m.Keys))
    {
      ghost var before := store.Value();
      var todo := m.Keys;
      LearnNothing(before);
      assert Lessons(m, m.Keys - todo) == {};
      hide Learn, Lessons, LearnPort;
      while todo != {}
        invariant todo <= m.Keys
        invariant store.Value() == Learn(before, Lessons(m, m.Keys - todo))
        decreases |todo|
      {
        var k :| k in todo;
        ghost var done := m.Keys - todo;
        ghost var lesson := if m[k].stat.allowed > 0 then {Lesson(k.slug, k.host, LearnPort(m[k].dport))} else {};
        assert m.Keys - (todo - {k}) == done + {k};
        LessonsStep(m, done, k);
        LearnTwice(before, Lessons(m, done), lesson);
        LearnNothing(store.Value());
        if m[k].stat.allowed > 0 {
          store.LearnDomain(Lesson(k.slug, k.host, LearnPort(m[k].dport)));
        }
        assert store.Value() == Learn(before, Lessons(m, done + {k}));
        todo := todo - {k};
      }
      assert m.Keys - {} == m.Keys;
    }

    /** One pass over what the proxy's log returned, without a database error. */
    method Collect(text: string) returns (ghost ports: Ports)
      requires PortsDistinct(store.Value())
      modifies this, store
      ensures IsPortMap(old(store.Value()), ports)
      ensures Value() == Pass(old(Value()), ParsedLog(Split(text, '\n')), ports)
      ensures var m := AggOf(Relevant(ParsedLog(Split(text, '\n')), ports, old(cursor)));
              store.Value() == Learn(old(store.Value()), Lessons(m, m.Keys))
    {
      hide IsPortMap, PortsDistinct, ParsedLog, Split, Relevant, Lessons, Learn, Merge, AggOf, RowsOf, Newest;
      var lines := ParseProxyLog(text);
      var slugs := store.ProxyPortSlugs();
      ports := slugs;
      var m, rows, next := Fold(lines, slugs, cursor);
      UpsertStats(m);
      log := log + rows;
      LearnFrom(m);
      cursor := next;
    }
  }
}
