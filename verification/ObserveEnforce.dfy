/**
 Switching a project from observe to enforce: what the collector saw let through stays let through, from the text
 the proxy logged to the file rendered after the switch.
 */
module ObserveEnforce {
  import opened Wrappers
  import opened Text
  import opened Ipv4
  import opened Squid
  import opened SquidMeaning
  import opened EgressDb
  import opened EgressRuns
  import opened EgressSafety
  import opened Collector
  import opened CollectorRuns

  // ----- what the proxy logs for a request -----

  predicate HostName(host: string) { '/' !in host && ':' !in host }

  /** host:port, or the host alone on port 80. */
  function Authority(host: string, port: nat): string {
    if port == 80 then host else host + ":" + Itoa(port)
  }

  /** %ru: host:port for CONNECT, an http URL otherwise, its port left out when it is 80. */
  function LoggedUrl(connect: bool, host: string, port: nat, path: string): string {
    if connect then host + ":" + Itoa(port) else "http://" + (Authority(host, port) + path)
  }

  lemma {:induction false} FindAbsent(s: string, pattern: string, c: char)
    requires c in pattern && c !in s
    ensures Find(s, pattern) == |s|
  {
    if s != "" {
      assert |pattern| <= |s| ==> forall x | x in s[..|pattern|] :: x in s;
      assert forall x | x in s[1..] :: x in s;
      FindAbsent(s[1..], pattern, c);
    }
  }

  lemma SchemeFirst(rest: string)
    ensures Find("http://" + rest, "://") == 4
    ensures ("http://" + rest)[7..] == rest && HasPrefix("http://" + rest, "http://")
  {
    var s := "http://" + rest;
    assert s[0] == 'h' && s[1..][0] == 't' && s[2..][0] == 't' && s[3..][0] == 'p';
    assert !HasPrefix(s, "://") && !HasPrefix(s[1..], "://") && !HasPrefix(s[2..], "://") && !HasPrefix(s[3..], "://") by {
      assert "://"[0] == ':';
    }
    assert HasPrefix(s[4..], "://") by { assert s[4..][..3] == "://"; }
    assert s[1..][1..] == s[2..] && s[2..][1..] == s[3..] && s[3..][1..] == s[4..];
    assert Find(s[4..], "://") == 0;
    assert Find(s[3..], "://") == 1;
    assert Find(s[2..], "://") == 2;
    assert Find(s[1..], "://") == 3;
  }

  /** host:port, or the host alone, split at its last colon. */
  lemma AuthorityParts(host: string, port: nat)
    requires HostName(host)
    ensures LastIndexOf(host + ":" + Itoa(port), ':') == |host|
    ensures (host + ":" + Itoa(port))[..|host|] == host && (host + ":" + Itoa(port))[|host| + 1..] == Itoa(port)
    ensures '/' !in host + ":" + Itoa(port)
    ensures LastIndexOf(host, ':') == -1
  {
    AtoiItoa(port);
    hide Itoa, Atoi, LastIndexOf;
    var a := host + ":" + Itoa(port);
    assert a[|host|] == ':' && a[|host| + 1..] == Itoa(port);
    assert forall k | |host| < k < |a| :: a[k] == Itoa(port)[k - |host| - 1];
    LastIndexOfLast(a, |host|, ':');
    LastIndexOfAbsent(host, ':');
  }

  /** Cutting off a path that starts with a slash. */
  lemma CutPath(authority: string, path: string)
    requires '/' !in authority && (path == "" || path[0] == '/')
    ensures (authority + path)[..IndexOf(authority + path, '/')] == authority
  {
    var s := authority + path;
    if path == "" {
      IndexOfAbsent(s, '/');
    } else {
      assert forall k | 0 <= k < |authority| :: s[k] == authority[k] && authority[k] in authority;
      IndexOfFirst(s, |authority|, '/');
    }
  }

  lemma AuthorityReads(host: string, port: nat, default: int)
    requires HostName(host)
    ensures HostAndPort(host + ":" + Itoa(port), default) == (host, port)
    ensures HostAndPort(host, default) == (host, default)
  {
    AuthorityParts(host, port);
    AtoiItoa(port);
    hide Itoa, Atoi, LastIndexOf;
  }

  /** After a scheme, or without one, the authority is what stands before the first slash. */
  lemma UrlAuthority(scheme: string, authority: string, path: string)
    requires '/' !in authority && (path == "" || path[0] == '/') && (scheme == "http://" || scheme == "https://")
    ensures ParseUrl(scheme + (authority + path)) == HostAndPort(authority, if scheme == "http://" then 80 else 443)
  {
    SchemeFirst(authority + path);
    SecureScheme(authority + path);
    CutPath(authority, path);
    hide HostAndPort, Find, HasPrefix;
  }

  lemma BareAuthority(authority: string, path: string)
    requires '/' !in authority && (path == "" || path[0] == '/')
    requires Find(authority + path, "://") == |authority + path| && !HasPrefix(authority + path, "http://")
    ensures ParseUrl(authority + path) == HostAndPort(authority, 443)
  {
    CutPath(authority, path);
    hide HostAndPort, Find, HasPrefix;
  }

  /** The parser recovers host and port from what the proxy logged. */
  lemma UrlRoundTrip(connect: bool, host: string, port: nat, path: string)
    requires HostName(host) && (path == "" || path[0] == '/')
    ensures ParseUrl(LoggedUrl(connect, host, port, path)) == (host, port)
  {
    if connect {
      ConnectUrl(host, port);
    } else {
      PlainAuthority(host, port);
      hide Authority, ParseUrl, HostAndPort;
      UrlAuthority("http://", Authority(host, port), path);
    }
  }

  lemma ConnectUrl(host: string, port: nat)
    requires HostName(host)
    ensures ParseUrl(host + ":" + Itoa(port)) == (host, port)
  {
    AuthorityParts(host, port);
    AuthorityReads(host, port, 443);
    hide *;
    NoSlashNoScheme(host + ":" + Itoa(port));
    BareUrl(host + ":" + Itoa(port));
  }

  lemma BareUrl(authority: string)
    requires '/' !in authority && Find(authority, "://") == |authority| && !HasPrefix(authority, "http://")
    ensures ParseUrl(authority) == HostAndPort(authority, 443)
  {
    assert authority + "" == authority;
    hide *;
    BareAuthority(authority, "");
  }

  lemma PlainAuthority(host: string, port: nat)
    requires HostName(host)
    ensures '/' !in Authority(host, port) && HostAndPort(Authority(host, port), 80) == (host, port)
  {
    AuthorityParts(host, port);
    AuthorityReads(host, port, 80);
    hide HostAndPort, Itoa, LastIndexOf;
  }

  lemma NoSlashNoScheme(text: string)
    requires '/' !in text
    ensures Find(text, "://") == |text| && !HasPrefix(text, "http://")
  {
    assert "://"[1] == '/' && "http://"[5] == '/';
    FindAbsent(text, "://", '/');
    PrefixLetters(text, "http://");
    hide Find, HasPrefix;
    assert |text| > 5 ==> text[5] in text;
  }

  /** A URL without a port is taken for one on 443 unless it starts with http://; so is a bare host. */
  lemma UrlWithoutPort(host: string, path: string)
    requires HostName(host) && (path == "" || path[0] == '/') && ':' !in path
    ensures ParseUrl(host + path) == (host, 443)
    ensures ParseUrl("https://" + (host + path)) == (host, 443)
    ensures ParseUrl("http://" + (host + path)) == (host, 80)
  {
    NoScheme(host + path);
    AuthorityReads(host, 0, 80);
    AuthorityReads(host, 0, 443);
    hide ParseUrl, HostAndPort, Find, HasPrefix;
    BareAuthority(host, path);
    assert "https://"[4] == 's' && "http://"[4] == ':';
    UrlAuthority("https://", host, path);
    UrlAuthority("http://", host, path);
  }

  lemma PrefixLetters(s: string, pattern: string)
    ensures HasPrefix(s, pattern) <==> |pattern| <= |s| && forall k | 0 <= k < |pattern| :: s[k] == pattern[k]
  {
    if |pattern| <= |s| {
      assert forall k | 0 <= k < |pattern| :: s[..|pattern|][k] == s[k];
    }
  }

  lemma NoScheme(rest: string)
    requires ':' !in rest
    ensures Find(rest, "://") == |rest| && !HasPrefix(rest, "http://")
  {
    assert "://"[0] == ':' && "http://"[4] == ':';
    FindAbsent(rest, "://", ':');
    PrefixLetters(rest, "http://");
    hide Find, HasPrefix;
    assert |rest| > 4 ==> rest[4] in rest;
  }

  lemma SecureScheme(rest: string)
    ensures Find("https://" + rest, "://") == 5
    ensures ("https://" + rest)[8..] == rest && !HasPrefix("https://" + rest, "http://")
  {
    var s := "https://" + rest;
    assert "https" + ("://" + rest) == s && ':' !in "https";
    PrefixLetters("://" + rest, "://");
    PrefixLetters(s, "http://");
    FindAfter("https", "://" + rest);
    hide Find, HasPrefix;
    assert s[4] == 's' && "http://"[4] == ':';
  }

  lemma {:induction false} FindAfter(scheme: string, rest: string)
    requires ':' !in scheme && HasPrefix(rest, "://")
    ensures Find(scheme + rest, "://") == |scheme|
  {
    if scheme == "" {
      assert scheme + rest == rest;
    } else {
      var s := scheme + rest;
      PrefixLetters(s, "://");
      assert "://"[0] == ':' && s[0] == scheme[0] && scheme[0] in scheme;
      assert s[1..] == scheme[1..] + rest;
      FindAfter(scheme[1..], rest);
    }
  }

  /** A status is a denial exactly when the word occurs in it. */
  lemma DeniedMeans(status: string)
    ensures Denied(status) <==> exists k :: 0 <= k < |status| && HasPrefix(status[k..], "DENIED")
  {
    FindIsFirst(status, "DENIED");
  }

  lemma {:induction false} FindIsFirst(s: string, pattern: string)
    ensures Find(s, pattern) == |s| ==> forall k | 0 <= k < |s| :: !HasPrefix(s[k..], pattern)
  {
    if s != "" && !HasPrefix(s, pattern) {
      FindIsFirst(s[1..], pattern);
      assert forall k | 0 < k < |s| :: s[k..] == s[1..][k - 1..];
    }
  }

  /** %ts.%03tu: seconds, a dot, three digits of milliseconds. */
  function LoggedTime(ms: nat): string {
    var rest := ms % 1000;
    Itoa(ms / 1000) + "." + [DigitChar(rest / 100), DigitChar(rest / 10 % 10), DigitChar(rest % 10)]
  }

  lemma MillisText(whole: string, digits: string)
    requires whole != "" && AllDigits(whole) && |digits| == 3 && AllDigits(digits)
    ensures ParseMillis(whole + "." + digits) == 1000 * NatOf(whole) + NatOf(digits) && IsWord(whole + "." + digits)
  {
    var s := whole + "." + digits;
    hide NatOf;
    assert s[|whole|] == '.' && s[..|whole|] == whole && s[|whole| + 1..] == digits;
    assert forall k | 0 <= k < |whole| :: s[k] == whole[k];
    assert forall k | |whole| < k < |s| :: s[k] == digits[k - |whole| - 1];
    IndexOfFirst(s, |whole|, '.');
  }

  lemma DigitsRead(a: nat, b: nat, c: nat)
    requires a < 10 && b < 10 && c < 10
    ensures AllDigits([DigitChar(a), DigitChar(b), DigitChar(c)])
    ensures NatOf([DigitChar(a), DigitChar(b), DigitChar(c)]) == 100 * a + 10 * b + c
  {
    ThreeDigits([DigitChar(a), DigitChar(b), DigitChar(c)]);
  }

  lemma ThreePlaces(rest: nat)
    requires rest < 1000
    ensures rest == 100 * (rest / 100) + 10 * (rest / 10 % 10) + rest % 10
  {
    var tens := rest / 10;
    assert rest == 10 * tens + rest % 10;
    assert tens == 10 * (tens / 10) + tens % 10;
    assert tens / 10 == rest / 100;
  }

  /** A time is read back to the millisecond. */
  lemma TimeRoundTrip(ms: nat)
    ensures ParseMillis(LoggedTime(ms)) == ms && IsWord(LoggedTime(ms))
  {
    var rest := ms % 1000;
    ThreePlaces(rest);
    ItoaParses(ms / 1000);
    DigitsRead(rest / 100, rest / 10 % 10, rest % 10);
    MillisText(Itoa(ms / 1000), [DigitChar(rest / 100), DigitChar(rest / 10 % 10), DigitChar(rest % 10)]);
    hide Itoa, ParseMillis, IsWord, NatOf, DigitChar;
    assert ms == 1000 * (ms / 1000) + rest;
  }

  /** Anything in another format is read as 0. */
  lemma OtherTimesAreZero(s: string)
    ensures ParseMillis(s) != 0 ==>
              exists i :: 0 < i == |s| - 4 && s[i] == '.' && AllDigits(s[..i]) && AllDigits(s[i + 1..])
  {
  }

  /** logformat iai: %ts.%03tu %>lp %Ss/%03>Hs %rm %ru */
  function LoggedLine(time: string, listener: nat, status: string, verb: string, url: string): string {
    time + (" " + (Itoa(listener) + (" " + (status + (" " + (verb + (" " + url)))))))
  }

  lemma ItoaIsWord(n: nat)
    ensures IsWord(Itoa(n))
  {
    AtoiItoa(n);
    ItoaParses(n);
    hide Itoa, Atoi;
  }

  lemma FieldThen(w: string, rest: string)
    requires IsWord(w)
    ensures Fields(w + (" " + rest)) == [w] + Fields(rest)
  {
    FieldsCons(w, " " + rest);
    FieldsBlank(rest);
    hide Fields;
  }

  lemma OneField(w: string)
    requires IsWord(w)
    ensures Fields(w) == [w]
  {
    assert w + "" == w;
    FieldsCons(w, "");
  }

  lemma FiveFields(a: string, b: string, c: string, d: string, e: string)
    requires IsWord(a) && IsWord(b) && IsWord(c) && IsWord(d) && IsWord(e)
    ensures Fields(a + (" " + (b + (" " + (c + (" " + (d + (" " + e)))))))) == [a, b, c, d, e]
  {
    hide *;
    FieldThen(a, b + (" " + (c + (" " + (d + (" " + e))))));
    FieldThen(b, c + (" " + (d + (" " + e))));
    FieldThen(c, d + (" " + e));
    FieldThen(d, e);
    OneField(e);
  }

  /** The collector reads back what the proxy wrote. */
  lemma LineRoundTrip(time: string, listener: nat, status: string, verb: string, connect: bool, host: string,
      port: nat, path: string)
    requires IsWord(time) && IsWord(status) && IsWord(verb) && listener != PROBE_PORT
    requires HostName(host) && (path == "" || path[0] == '/') && IsWord(LoggedUrl(connect, host, port, path))
    ensures ParseLine(LoggedLine(time, listener, status, verb, LoggedUrl(connect, host, port, path)))
            == Some(LogLine(ParseMillis(time), listener, verb, port, status, host))
  {
    hide *;
    var url := LoggedUrl(connect, host, port, path);
    ItoaIsWord(listener);
    AtoiItoa(listener);
    WrittenFields(time, listener, status, verb, url);
    ReadFields(LoggedLine(time, listener, status, verb, url), time, Itoa(listener), status, verb, url, listener);
    UrlRoundTrip(connect, host, port, path);
  }

  lemma WrittenFields(time: string, listener: nat, status: string, verb: string, url: string)
    requires IsWord(time) && IsWord(Itoa(listener)) && IsWord(status) && IsWord(verb) && IsWord(url)
    ensures Fields(LoggedLine(time, listener, status, verb, url)) == [time, Itoa(listener), status, verb, url]
  {
    FiveFields(time, Itoa(listener), status, verb, url);
    hide Fields, Itoa, IsWord;
  }

  lemma ReadFields(line: string, time: string, port: string, status: string, verb: string, url: string, listener: nat)
    requires Fields(line) == [time, port, status, verb, url] && Atoi(port) == Some(listener) && listener != PROBE_PORT
    ensures ParseLine(line)
            == Some(LogLine(ParseMillis(time), listener, verb, ParseUrl(url).1, status, ParseUrl(url).0))
  {
    hide Fields, Atoi, ParseUrl, ParseMillis;
  }

  /** A line of the log is among the parsed ones. */
  lemma LineIsParsed(raw: seq<string>, line: string)
    requires line in raw && ParseLine(line).Some?
    ensures ParseLine(line).value in ParsedLog(raw)
  {
    hide ParseLine;
    var l := ParseLine(line).value;
    assert ParsedLog([line]) == [l] by { assert [line][..0] == []; }
    hide ParsedLog;
    var i :| 0 <= i < |raw| && raw[i] == line;
    var before, after := raw[..i], raw[i + 1..];
    assert raw == (before + [line]) + after;
    ParsedAppend(before + [line], after);
    ParsedAppend(before, [line]);
    assert l in ParsedLog([line]);
  }

  /** What is logged of the loopback probe, on the one listener that is no project's, is skipped. */
  lemma ProbeIsSkipped(ts: seq<Target>, p: nat, name: string, time: string, status: string, verb: string, url: string)
    requires HttpPort(true, p, name) in Rendered(ts)
    requires IsWord(time) && IsWord(status) && IsWord(verb) && IsWord(url)
    ensures ParseLine(LoggedLine(time, p, status, verb, url)) == None
  {
    ListenersAreTargets(ts, true, p, name);
    ItoaIsWord(p);
    AtoiItoa(p);
    hide Rendered, Itoa, Atoi, LoggedLine, Fields, ParseUrl, ParseMillis;
    WrittenFields(time, p, status, verb, url);
  }

  // ----- learning -----

  /** A key some line was let through for has been let through, and keeps the port of its first line. */
  lemma LetThroughIsCounted(hs: seq<Hit>, h: Hit)
    requires h in hs && !Denied(h.line.status)
    ensures KeyOf(h) in AggOf(hs) && AggOf(hs)[KeyOf(h)].stat.allowed > 0
  {
    StatsCount(hs, KeyOf(h));
    CountedLine(hs, h);
  }

  lemma {:induction false} CountedLine(hs: seq<Hit>, h: Hit)
    requires h in hs
    ensures CountLines(hs, KeyOf(h), Denied(h.line.status)) > 0
  {
    var front, last := hs[..|hs| - 1], hs[|hs| - 1];
    hide Denied;
    if h != last {
      assert hs == front + [last] && h in front;
      CountedLine(front, h);
    }
  }

  /** Where the project stands with the proxy: the tables, the file rendered from them, its listener. */
  ghost predicate Proxied(db: Db, ts: seq<Target>, id: ProjectId, p: int) {
    PortInvariant(db) && SlugsAreText(db) && IsTargetList(db, ts) && Holds(db, id, p)
  }

  // ----- exactly what a pass teaches -----

  /** The first counted line of its project and host. */
  ghost predicate FirstSeen(hs: seq<Hit>, j: nat) {
    j < |hs| && forall i | 0 <= i < j :: hs[i].slug != hs[j].slug || hs[i].line.host != hs[j].line.host
  }

  /** Some counted line of the project to the host was not denied. */
  ghost predicate LetThrough(hs: seq<Hit>, slug: string, host: string) {
    exists h :: h in hs && h.slug == slug && h.line.host == host && !Denied(h.line.status)
  }

  /** The port a rule gets for a line's destination port: the web's own, or 0 for any. */
  predicate PortFits(rulePort: int, dport: int) {
    if dport == 80 || dport == 443 then rulePort == dport else rulePort == 0
  }

  /** The lines call for this rule: its host was let through, and its port is that of the host's first line. */
  ghost predicate CallsFor(db: Db, id: ProjectId, hs: seq<Hit>, r: Rule) {
    r.kind.DomainKind? && exists j :: 0 <= j < |hs| && Teaches(db, id, hs, j, r)
  }

  ghost predicate Teaches(db: Db, id: ProjectId, hs: seq<Hit>, j: nat, r: Rule) {
    && FirstSeen(hs, j) && LetThrough(hs, hs[j].slug, hs[j].line.host)
    && Observing(db, id, hs[j].slug) && r.value == hs[j].line.host && PortFits(r.port, hs[j].line.dport)
  }

  lemma {:induction false} FirstLineOf(hs: seq<Hit>, k: Key) returns (j: nat)
    requires k in AggOf(hs)
    ensures FirstSeen(hs, j) && hs[j].slug == k.slug && hs[j].line.host == k.host
    ensures AggOf(hs)[k].dport == hs[j].line.dport
  {
    var front, last := hs[..|hs| - 1], hs[|hs| - 1];
    hide Denied;
    if k in AggOf(front) {
      j := FirstLineOf(front, k);
    } else {
      j := |hs| - 1;
      forall i | 0 <= i < j ensures hs[i].slug != k.slug || hs[i].line.host != k.host {
        KeyIsSeen(front, i);
      }
    }
  }

  lemma {:induction false} KeyIsSeen(hs: seq<Hit>, i: nat)
    requires i < |hs|
    ensures KeyOf(hs[i]) in AggOf(hs)
  {
    if i < |hs| - 1 { KeyIsSeen(hs[..|hs| - 1], i); }
    hide Denied;
  }

  lemma OneFirstLine(hs: seq<Hit>, i: nat, j: nat)
    requires FirstSeen(hs, i) && FirstSeen(hs, j) && KeyOf(hs[i]) == KeyOf(hs[j])
    ensures i == j
  {
  }

  /** A key was let through exactly when some line of it was. */
  lemma LetThroughIs(hs: seq<Hit>, k: Key)
    requires k in AggOf(hs)
    ensures AggOf(hs)[k].stat.allowed > 0 <==> LetThrough(hs, k.slug, k.host)
  {
    StatsCount(hs, k);
    hide Denied, AggOf;
    if h :| h in hs && h.slug == k.slug && h.line.host == k.host && !Denied(h.line.status) {
      CountedLine(hs, h);
    }
    if CountLines(hs, k, false) > 0 { SomeLineCounted(hs, k); }
  }

  lemma {:induction false} SomeLineCounted(hs: seq<Hit>, k: Key)
    requires CountLines(hs, k, false) > 0
    ensures LetThrough(hs, k.slug, k.host)
  {
    var front, last := hs[..|hs| - 1], hs[|hs| - 1];
    hide Denied;
    if KeyOf(last) == k && !Denied(last.line.status) {
      assert last in hs;
    } else {
      SomeLineCounted(front, k);
      var h :| h in front && h.slug == k.slug && h.line.host == k.host && !Denied(h.line.status);
      assert h in hs;
    }
  }

  lemma LearnPortFits(dport: int, p: int)
    ensures PortFits(p, dport) <==> p == LearnPort(dport)
  {
  }

  lemma LessonsTeach(db: Db, id: ProjectId, hs: seq<Hit>, r: Rule)
    ensures var m := AggOf(hs); r in Taught(db, id, Lessons(m, m.Keys)) <==> CallsFor(db, id, hs, r)
  {
    var m := AggOf(hs);
    hide AggOf, LetThrough, FirstSeen, LearnPort, PortFits, Observing, Denied;
    if r in Taught(db, id, Lessons(m, m.Keys)) {
      var l :| l in Lessons(m, m.Keys) && Observing(db, id, l.slug) && r == Rule(DomainKind, l.host, l.port);
      var k :| k in m && m[k].stat.allowed > 0 && l == Lesson(k.slug, k.host, LearnPort(m[k].dport));
      var j := FirstLineOf(hs, k);
      LetThroughIs(hs, k);
      LearnPortFits(m[k].dport, r.port);
      FirstIsInside(hs, j);
      assert Teaches(db, id, hs, j, r);
    }
    if CallsFor(db, id, hs, r) {
      var j :| 0 <= j < |hs| && Teaches(db, id, hs, j, r);
      var k := KeyOf(hs[j]);
      KeyIsSeen(hs, j);
      LetThroughIs(hs, k);
      var i := FirstLineOf(hs, k);
      FirstIsInside(hs, i);
      OneFirstLine(hs, i, j);
      LearnPortFits(m[k].dport, r.port);
      assert Lesson(k.slug, k.host, r.port) in Lessons(m, m.Keys);
    }
  }

  lemma FirstIsInside(hs: seq<Hit>, j: nat)
    requires FirstSeen(hs, j)
    ensures j < |hs|
  {
  }

  /**
   A pass adds a rule exactly when the lines call for it: one for every host the observing project was let through to,
   on the port of the host's first line if that is 80 or 443, on any port otherwise.
   */
  lemma LearnedRules(db: Db, id: ProjectId, hs: seq<Hit>, r: Rule)
    ensures var m := AggOf(hs);
            r in RulesOf(Learn(db, Lessons(m, m.Keys)), id) <==> r in RulesOf(db, id) || CallsFor(db, id, hs, r)
  {
    var m := AggOf(hs);
    RulesAfterLearn(db, Lessons(m, m.Keys), id);
    LessonsTeach(db, id, hs, r);
    hide AggOf, Learn, Taught, Lessons, CallsFor;
  }

  /** A restart adds a rule for port 443, and no other, for every host an observing project was ever let through to. */
  lemma BackfilledRules(db: Db, id: ProjectId, stats: map<Key, Stat>, r: Rule)
    ensures r in RulesOf(Learn(db, Backlog(stats, stats.Keys)), id) <==>
              || r in RulesOf(db, id)
              || (r.kind.DomainKind? && r.port == 443
                  && exists k :: k in stats && stats[k].allowed > 0 && k.host == r.value && Observing(db, id, k.slug))
  {
    RulesAfterLearn(db, Backlog(stats, stats.Keys), id);
    hide Learn, Observing;
    if k :| k in stats && stats[k].allowed > 0 && k.host == r.value && Observing(db, id, k.slug) {
      assert Lesson(k.slug, k.host, 443) in Backlog(stats, stats.Keys);
    }
  }

  /** After the pass the project has a rule for the host, on the port of the first of its counted lines. */
  lemma HostIsLearned(db: Db, id: ProjectId, hs: seq<Hit>, h: Hit) returns (j: nat, p: int)
    requires h in hs && !Denied(h.line.status) && Observing(db, id, h.slug)
    ensures FirstSeen(hs, j) && hs[j].slug == h.slug && hs[j].line.host == h.line.host && PortFits(p, hs[j].line.dport)
    ensures var m := AggOf(hs); Rule(DomainKind, h.line.host, p) in RulesOf(Learn(db, Lessons(m, m.Keys)), id)
  {
    var i :| 0 <= i < |hs| && hs[i] == h;
    KeyIsSeen(hs, i);
    j := FirstLineOf(hs, KeyOf(h));
    p := if hs[j].line.dport == 80 || hs[j].line.dport == 443 then hs[j].line.dport else 0;
    assert LetThrough(hs, h.slug, h.line.host);
    FirstIsInside(hs, j);
    hide AggOf, Learn, Lessons, Observing, FirstSeen, LetThrough;
    LearnedRules(db, id, hs, Rule(DomainKind, h.line.host, p));
    assert Teaches(db, id, hs, j, Rule(DomainKind, h.line.host, p));
  }

  /**
   What was first seen on a web port stays on the web's ports: a host none of whose patterns had an any-port rule, and
   none of whose counted lines was first seen elsewhere, is not reached on any other port after the switch.
   */
  lemma LearnedHostStaysNarrow(db: Db, id: ProjectId, hs: seq<Hit>, host: string, db': Db, ts': seq<Target>, p': int,
      connect: bool, port: int)
    requires !ListedRule(RulesOf(db, id), true, host)
    requires forall j | 0 <= j < |hs| && FirstSeen(hs, j) && Observing(db, id, hs[j].slug) && HostMatches(hs[j].line.host, host) ::
               hs[j].line.dport == 80 || hs[j].line.dport == 443
    requires Proxied(db', ts', id, p') && db'.projects[id].mode.Enforce? && port !in {80, 443}
    requires var m := AggOf(hs); RulesOf(db', id) == RulesOf(Learn(db, Lessons(m, m.Keys)), id)
    ensures !Admits(Rendered(ts'), Request(db'.projects[id].slug, connect, host, port, false, false))
  {
    hide HostMatches, Rendered, Admits, AggOf, Learn, Lessons, PortInvariant, SlugsAreText, IsTargetList, LetThrough,
        FirstSeen, Observing;
    OwnListenerAdmits(db', ts', id, p', Request(db'.projects[id].slug, connect, host, port, false, false));
    forall r | r in RulesOf(db', id) && r.kind.DomainKind? && HostMatches(r.value, host) ensures r.port != 0 {
      LearnedRules(db, id, hs, r);
    }
  }

  /** A rule for the host, whatever its port, lets every safe request to it through in enforce mode. */
  lemma LearnedRuleAllows(rules: set<Rule>, host: string, p: int, connect: bool, port: int)
    requires Rule(DomainKind, host, p) in rules && Safe(Request("", connect, host, port, false, false))
    ensures OwnRulesAllow(Enforce, rules, connect, host, port)
  {
    var r := Rule(DomainKind, host, p);
    assert HostMatches(host, host);
    assert ListedRule(rules, p == 0, host) by { hide HostMatches; assert (r.port == 0 <==> p == 0); }
  }

  /** What a pass over the log's text counts. */
  function CountedIn(text: string, ports: Ports, cursor: int): seq<Hit> {
    Relevant(ParsedLog(Split(text, '\n')), ports, cursor)
  }

  /** A logged line that the cursor has not passed is counted for the project that holds its listener now. */
  lemma LoggedIsCounted(db: Db, id: ProjectId, p: nat, text: string, line: string, l: LogLine, ports: Ports,
      cursor: int)
    requires Holds(db, id, p) && IsPortMap(db, ports)
    requires line in Split(text, '\n') && ParseLine(line) == Some(l) && l.port == p && l.host != "" && l.ts > cursor
    ensures Hit(l, db.projects[id].slug) in CountedIn(text, ports, cursor)
  {
    var raw := Split(text, '\n');
    LineIsParsed(raw, line);
    var lines := ParsedLog(raw);
    RelevantAre(lines, ports, cursor);
    assert p in ports && ports[p] == db.projects[id].slug;
    hide ParsedLog, ParseLine, Split, Relevant, IsPortMap;
    var i :| 0 <= i < |lines| && lines[i] == l;
    assert Counts(lines[i], ports, cursor);
  }

  /**
   Observe, then enforce, from the log's text on. Three moments, each with its own tables: a request goes through; a
   pass reads the line logged for it, before the cursor, while the project observes and holds the same listener; and
   later the project enforces, with no rule removed since. Then the file rendered lets the same request through,
   whatever port the host's first line had.
   */
  lemma ObserveThenEnforce(id: ProjectId, connect: bool, host: string, port: nat, path: string, db: Db,
      ts: seq<Target>, p: nat, time: string, status: string, verb: string, dbP: Db, ports: Ports, cursor: int,
      text: string, db': Db, ts': seq<Target>, p': int)
    // the request went through, not by a rule already enforced
    requires Proxied(db, ts, id, p) && p != PROBE_PORT && !db.projects[id].mode.Enforce?
    requires Admits(Rendered(ts), Request(db.projects[id].slug, connect, host, port, false, false))
    // what the proxy logged for it
    requires host != "" && HostName(host) && (path == "" || path[0] == '/') && IsWord(LoggedUrl(connect, host, port, path))
    requires IsWord(time) && IsWord(status) && IsWord(verb) && !Denied(status)
    requires LoggedLine(time, p, status, verb, LoggedUrl(connect, host, port, path)) in Split(text, '\n')
    // a pass read it
    requires IsPortMap(dbP, ports) && Holds(dbP, id, p) && dbP.projects[id].mode.Observe? && ParseMillis(time) > cursor
    // the project enforces, and no rule of it is gone
    requires Proxied(db', ts', id, p') && db'.projects[id].mode.Enforce?
    requires var m := AggOf(CountedIn(text, ports, cursor)); RulesOf(Learn(dbP, Lessons(m, m.Keys)), id) <= RulesOf(db', id)
    ensures Admits(Rendered(ts'), Request(db'.projects[id].slug, connect, host, port, false, false))
  {
    LineRoundTrip(time, p, status, verb, connect, host, port, path);
    var l := LogLine(ParseMillis(time), p, verb, port, status, host);
    var line := LoggedLine(time, p, status, verb, LoggedUrl(connect, host, port, path));
    hide ParseLine, ParseMillis, Split, LoggedLine, LoggedUrl, IsWord, Denied, CountedIn, IsPortMap, PortInvariant,
        SlugsAreText, IsTargetList, Rendered, Admits, AggOf, Lessons, Learn;
    LoggedIsCounted(dbP, id, p, text, line, l, ports, cursor);
    var counted, h := CountedIn(text, ports, cursor), Hit(l, dbP.projects[id].slug);
    assert Observing(dbP, id, h.slug);
    var _, q := HostIsLearned(dbP, id, counted, h);
    SafeRequest(db, ts, id, p, connect, host, port);
    LearnedRuleAllows(RulesOf(db', id), host, q, connect, port);
    OwnListenerAdmits(db', ts', id, p', Request(db'.projects[id].slug, connect, host, port, false, false));
  }

  /** Before enforcing, only a safe request gets through one's own listener. */
  lemma SafeRequest(db: Db, ts: seq<Target>, id: ProjectId, p: int, connect: bool, host: string, port: int)
    requires Proxied(db, ts, id, p) && !db.projects[id].mode.Enforce?
    requires Admits(Rendered(ts), Request(db.projects[id].slug, connect, host, port, false, false))
    ensures Safe(Request("", connect, host, port, false, false))
  {
    OwnListenerAdmits(db, ts, id, p, Request(db.projects[id].slug, connect, host, port, false, false));
    hide Rendered, Admits;
  }

  /** The condition on when the line is counted is needed: a project that no longer observes learns nothing. */
  lemma LateLinesTeachNothing(db: Db, id: ProjectId, lessons: set<Lesson>)
    requires id in db.projects && !db.projects[id].mode.Observe?
    ensures RulesOf(Learn(db, lessons), id) == RulesOf(db, id)
  {
    RulesAfterLearn(db, lessons, id);
  }
}
