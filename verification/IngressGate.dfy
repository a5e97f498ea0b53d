/**
 What the compiled ingress lets through: longest prefix wins where the match texts can be read, the IP check is
 the project's list or the winning rule's if the middleware could be written, and single sign-on applies exactly
 where no rule does.
 */
module IngressGate {
  import opened Wrappers
  import opened Text
  import opened Ipv4
  import opened MatchText
  import opened PathRules
  import opened Ingress

  // ----- how the ingress controller reads the objects -----

  predicate Matches(prefix: string, path: string) { HasPrefix(path, prefix) }

  ghost predicate ListPasses(c: Cluster, name: string, src: nat) { name in c.lists && InList(c.lists[name], src) }

  ghost predicate InList(cidrs: seq<string>, src: nat) { exists e :: e in cidrs && Covers(e, src) }

  /** Every IP allow-list of a chain must let the source through. */
  ghost predicate IpCheck(c: Cluster, mws: seq<Middleware>, src: nat) {
    forall m | m in mws && m.AllowList? :: ListPasses(c, m.name, src)
  }

  /** The answering router of highest priority; None is the catch-all Ingress with its own low priority. */
  ghost predicate Wins(c: Cluster, host: string, path: string, catchAll: int, router: Option<Route>) {
    match router
    case Some(q) =>
      && q in c.routes && Answers(q.rule, host, path) && q.priority > catchAll
      && forall r | r in c.routes && Answers(r.rule, host, path) :: r.priority <= q.priority
    case None => forall r | r in c.routes && Answers(r.rule, host, path) :: r.priority < catchAll
  }

  function Chain(c: Cluster, router: Option<Route>): seq<Middleware> {
    if router.Some? then router.value.middlewares else c.refs
  }

  // ----- what the project asked for -----

  const LOOPBACK := 0x7F00_0001

  /** The project's own gate: its list, or only the placeholder when it resolves to nothing. */
  ghost predicate OwnGate(allow: seq<string>, src: nat) {
    if allow == [] then src == LOOPBACK else InList(allow, src)
  }

  ghost predicate RuleGate(allow: seq<string>, r: PathRule, src: nat) {
    if r.external == [] then OwnGate(allow, src) else InList(allow, src) || InList(r.external, src)
  }

  /** The same once the sync is done: without its middleware the project's own gate is no gate. */
  ghost predicate GateInForce(listOk: bool, allow: seq<string>, r: PathRule, src: nat) {
    (!listOk && r.external == []) || RuleGate(allow, r, src)
  }

  ghost predicate IsLongest(rules: seq<PathRule>, path: string, r: PathRule) {
    && r in rules && Matches(r.prefix, path)
    && forall q | q in rules && Matches(q.prefix, path) && q != r :: |q.prefix| < |r.prefix|
  }

  /** Presets are stored in normal form. */
  ghost predicate NormalList(cidrs: seq<string>) { forall c | c in cidrs :: c != "" && Trim(c) == c }

  ghost predicate RulesGood(rules: seq<PathRule>) {
    && (forall r | r in rules :: GoodRule(r))
    && (forall j, k | 0 <= j < k < |rules| :: rules[j].prefix != rules[k].prefix)
  }

  /** The short hash tells the project's prefixes apart. */
  ghost predicate HashSeparates(hash: string -> string, rules: seq<PathRule>) {
    forall q, r | q in rules && r in rules && hash(q.prefix) == hash(r.prefix) :: q.prefix == r.prefix
  }

  /** Hosts as the hostname pattern admits them, and prefixes the match text can carry. */
  ghost predicate ReadableRoutes(hosts: seq<string>, rules: seq<PathRule>) {
    && hosts != [] && (forall h | h in hosts :: HostText(h))
    && forall r | r in rules :: Carried(r.prefix)
  }

  // ----- the sorted rules -----

  ghost predicate Sorts(allow: seq<string>, rules: seq<PathRule>, ordered: seq<DeployRule>) {
    multiset(ordered) == multiset(AllForDeployer(allow, rules)) && LongestFirst(ordered)
  }

  lemma SortedFrom(allow: seq<string>, rules: seq<PathRule>, ordered: seq<DeployRule>, d: DeployRule)
    requires Sorts(allow, rules, ordered)
    ensures d in ordered <==> exists r :: r in rules && d == ForDeployer(allow, r)
  {
    var all := AllForDeployer(allow, rules);
    assert d in ordered <==> d in multiset(ordered);
    assert d in all <==> d in multiset(all);
    if r :| r in rules && d == ForDeployer(allow, r) {
      var i :| 0 <= i < |rules| && rules[i] == r;
      assert all[i] == d;
    }
  }

  /** No prefix appears twice after sorting. */
  lemma {:induction false} SortedDistinct(allow: seq<string>, rules: seq<PathRule>, ordered: seq<DeployRule>)
    requires RulesGood(rules) && multiset(ordered) == multiset(AllForDeployer(allow, rules))
    ensures forall j, k | 0 <= j < k < |ordered| :: ordered[j].prefix != ordered[k].prefix
  {
    var all := AllForDeployer(allow, rules);
    forall j, k | 0 <= j < k < |ordered| ensures ordered[j].prefix != ordered[k].prefix {
      var a, b := ordered[j], ordered[k];
      assert a in multiset(ordered) && b in multiset(ordered);
      assert a in all && b in all;
      var x :| 0 <= x < |all| && all[x] == a;
      var y :| 0 <= y < |all| && all[y] == b;
      if a.prefix == b.prefix {
        assert rules[x].prefix == rules[y].prefix;
        assert x == y && a == b;
        Sorting.CountedTwice(ordered, j, k);
        AppearsOnce(all, x);
      }
    }
  }

  lemma AppearsOnce(all: seq<DeployRule>, x: nat)
    requires x < |all| && forall j, k | 0 <= j < k < |all| :: all[j].prefix != all[k].prefix
    ensures multiset(all)[all[x]] == 1
  {
    var a, b := all[..x], all[x + 1..];
    assert all == a + [all[x]] + b;
    assert all[x] !in a && all[x] !in b;
  }

  // ----- the middlewares -----

  lemma {:induction false} OwnListKept(lists: map<string, seq<string>>, rules: seq<DeployRule>, slug: string,
      hash: string -> string)
    ensures var after := WithRuleLists(lists, rules, slug, hash); var own := OwnListName(slug);
            (own in after <==> own in lists) && (own in lists ==> after[own] == lists[own])
  {
    if rules != [] {
      OwnListKept(lists, rules[..|rules| - 1], slug, hash);
      RuleListIsNotOwn(slug, hash(rules[|rules| - 1].prefix));
    }
  }

  /** A rule's own list is there after the upserts, if no other rule shares its name. */
  lemma {:induction false} RuleListThere(lists: map<string, seq<string>>, rules: seq<DeployRule>, slug: string,
      hash: string -> string, i: nat)
    requires i < |rules| && rules[i].allow != []
    requires forall k | 0 <= k < |rules| && hash(rules[k].prefix) == hash(rules[i].prefix) :: k == i
    ensures var name := RuleListName(slug, hash(rules[i].prefix)); var after := WithRuleLists(lists, rules, slug, hash);
            name in after && after[name] == rules[i].allow
  {
    var front, last := rules[..|rules| - 1], rules[|rules| - 1];
    if i < |rules| - 1 {
      assert forall k | 0 <= k < |front| :: front[k] == rules[k];
      RuleListThere(lists, front, slug, hash, i);
      NamesDiffer(slug, hash(rules[i].prefix), hash(last.prefix));
    }
  }

  lemma NamesDiffer(slug: string, g: string, h: string)
    ensures g != h ==> RuleListName(slug, g) != RuleListName(slug, h)
  {
    var a, b := RuleListName(slug, g), RuleListName(slug, h);
    assert a[|OwnListName(slug)|..] == "-p" + g && b[|OwnListName(slug)|..] == "-p" + h;
    assert ("-p" + g)[2..] == g && ("-p" + h)[2..] == h;
  }

  lemma DenyAllCovers(src: nat)
    ensures Covers(DENY_ALL, src) <==> src == LOOPBACK
  {
    LoopbackText();
    LoopbackAddress();
    hide Covers, ParseIp;
    HostBlockCovers("127.0.0.1", src);
  }

  lemma LoopbackText()
    ensures "127.0.0.1" + "/32" == DENY_ALL && Quad("127", "0", "0", "1") == "127.0.0.1"
  {
  }

  lemma LoopbackOctets()
    ensures ParseOctet("127") == Some(127) && ParseOctet("0") == Some(0) && ParseOctet("1") == Some(1)
  {
    LongOctet("127"); ShortNumber("0"); ShortNumber("1");
  }

  lemma LoopbackAddress()
    ensures ParseIp("127.0.0.1") == Some(LOOPBACK)
  {
    LoopbackText();
    LoopbackOctets();
    hide ParseOctet, ParseIp, Quad;
    QuadParses("127", "0", "0", "1");
  }

  /** The own middleware's list is the own gate. */
  lemma OwnListIsOwnGate(allow: seq<string>, list: seq<string>, src: nat)
    requires IsOwnList(allow, list) && NormalList(allow)
    ensures InList(list, src) <==> OwnGate(allow, src)
  {
    DenyAllCovers(src);
    hide Covers, Trim;
    if allow == [] {
      assert forall c :: !TrimmedFrom(allow, c);
      assert list == [DENY_ALL];
    } else {
      assert allow[0] in allow && Trim(allow[0]) == allow[0];
      assert TrimmedFrom(allow, allow[0]);
      assert forall c :: c in list <==> c in allow;
    }
  }

  lemma {:induction false} NothingFiltered(cidrs: seq<string>)
    requires GoodExternal(cidrs)
    ensures NotWorld(cidrs) == cidrs
  {
    if cidrs != [] {
      assert cidrs[|cidrs| - 1] in cidrs;
      NothingFiltered(cidrs[..|cidrs| - 1]);
    }
  }

  // ----- one namespace in sync -----

  /** One sync: what it found, what it was given, and the list and the order of rules it compiled. */
  datatype Sync = Sync(
    before: Cluster, slug: string, hosts: seq<string>, hash: string -> string,
    allow: seq<string>, rules: seq<PathRule>, listOk: bool,
    list: seq<string>, ordered: seq<DeployRule>)

  ghost predicate InSync(c: Cluster, y: Sync) {
    && c == Synced(y.before, y.slug, y.hosts, y.hash, y.list, y.ordered, y.listOk)
    && IsOwnList(y.allow, y.list) && NormalList(y.allow)
    && Sorts(y.allow, y.rules, y.ordered) && RulesGood(y.rules) && HashSeparates(y.hash, y.rules)
    && OwnListName(y.slug) !in y.before.labelled
  }

  function ListsBefore(y: Sync): map<string, seq<string>> {
    if y.listOk then y.before.lists[OwnListName(y.slug) := y.list] else y.before.lists
  }

  function MiddlewaresOf(y: Sync, i: nat): seq<Middleware>
    requires i < |y.ordered|
  {
    RouteOf(y.ordered[i], i, y.slug, y.hosts, y.hash, y.listOk).middlewares
  }

  lemma SyncedLists(c: Cluster, y: Sync)
    requires InSync(c, y)
    ensures c.lists == WithRuleLists(ListsBefore(y), y.ordered, y.slug, y.hash)
                       - (y.before.labelled - Wanted(y.ordered, y.slug, y.hash))
    ensures c.routes == RoutesOf(y.ordered, y.slug, y.hosts, y.hash, y.listOk)
    ensures c.refs == GuardRefs(y.slug, y.listOk)
  {
    hide IsOwnList, Sorts, RulesGood, HashSeparates, NormalList, WithRuleLists, Wanted, RoutesOf;
  }

  /** The own middleware is in place, once written. */
  lemma OwnMiddleware(c: Cluster, y: Sync, src: nat)
    requires InSync(c, y) && y.listOk
    ensures ListPasses(c, OwnListName(y.slug), src) <==> OwnGate(y.allow, src)
  {
    SyncedLists(c, y);
    OwnListKept(ListsBefore(y), y.ordered, y.slug, y.hash);
    OwnListIsOwnGate(y.allow, y.list, src);
    hide IsOwnList, Sorts, RulesGood, HashSeparates, NormalList, InList, WithRuleLists, Wanted, RoutesOf, Synced;
  }

  /** A rule's own middleware is in place. */
  lemma RuleMiddleware(c: Cluster, y: Sync, i: nat)
    requires InSync(c, y) && i < |y.ordered| && y.ordered[i].allow != []
    ensures var name := RuleListName(y.slug, y.hash(y.ordered[i].prefix));
            name in c.lists && c.lists[name] == y.ordered[i].allow
  {
    SyncedLists(c, y);
    hide Synced;
    SortedDistinct(y.allow, y.rules, y.ordered);
    forall k | 0 <= k < |y.ordered| && y.hash(y.ordered[k].prefix) == y.hash(y.ordered[i].prefix) ensures k == i {
      SortedFrom(y.allow, y.rules, y.ordered, y.ordered[k]);
      SortedFrom(y.allow, y.rules, y.ordered, y.ordered[i]);
    }
    RuleListThere(ListsBefore(y), y.ordered, y.slug, y.hash, i);
    assert RuleListName(y.slug, y.hash(y.ordered[i].prefix)) in Wanted(y.ordered, y.slug, y.hash);
  }

  /** The chain of the i-th route passes exactly its rule's gate, as far as that is in force. */
  lemma RouteGate(c: Cluster, y: Sync, i: nat, r: PathRule, src: nat)
    requires InSync(c, y) && i < |y.ordered| && r in y.rules && y.ordered[i] == ForDeployer(y.allow, r)
    ensures var mws := MiddlewaresOf(y, i);
            && (IpCheck(c, mws, src) <==> GateInForce(y.listOk, y.allow, r, src))
            && (TokenVerify in mws <==> r.mode.Token?) && ForwardAuth !in mws
  {
    assert GoodRule(r);
    NothingFiltered(r.external);
    InBoth(y.allow, r.external, src);
    hide Sorts, HashSeparates, RulesGood, Synced, IsOwnList, NormalList, InList, OwnGate, IsPrefix, GoodExternal,
        IpCheck, InSync, OwnListName, RuleListName;
    if r.external != [] {
      RuleMiddleware(c, y, i);
      ChainOfOne(c, RuleListName(y.slug, y.hash(r.prefix)), r.mode, src);
    } else if y.listOk {
      OwnMiddleware(c, y, src);
      ChainOfOne(c, OwnListName(y.slug), r.mode, src);
    } else {
      ChainOfNone(c, r.mode, src);
      assert MiddlewaresOf(y, i) == AuthOf(r.mode);
    }
  }

  lemma ChainOfNone(c: Cluster, mode: RuleMode, src: nat)
    ensures IpCheck(c, AuthOf(mode), src) && (TokenVerify in AuthOf(mode) <==> mode.Token?)
    ensures ForwardAuth !in AuthOf(mode)
  {
  }

  /** A chain of one allow-list and the rule's own authentication. */
  lemma ChainOfOne(c: Cluster, name: string, mode: RuleMode, src: nat)
    ensures var mws := [AllowList(name)] + AuthOf(mode);
            && (IpCheck(c, mws, src) <==> ListPasses(c, name, src))
            && (TokenVerify in mws <==> mode.Token?) && ForwardAuth !in mws
  {
    var mws := [AllowList(name)] + AuthOf(mode);
    hide ListPasses;
    assert mws[0] == AllowList(name);
  }

  lemma InBoth(a: seq<string>, b: seq<string>, src: nat)
    ensures InList(a + b, src) <==> InList(a, src) || InList(b, src)
  {
    hide Covers;
    assert forall e :: e in a + b <==> e in a || e in b;
  }

  // ----- longest prefix -----

  /** Two prefixes of one path with the same length are the same. */
  lemma SamePrefix(a: string, b: string, path: string)
    requires Matches(a, path) && Matches(b, path) && |a| == |b|
    ensures a == b
  {
  }

  /** Every rule has its route, further down the shorter its prefix. */
  lemma RouteOfRule(allow: seq<string>, rules: seq<PathRule>, ordered: seq<DeployRule>, s: PathRule)
      returns (k: nat)
    requires Sorts(allow, rules, ordered) && s in rules
    ensures k < |ordered| && ordered[k] == ForDeployer(allow, s)
  {
    SortedFrom(allow, rules, ordered, ForDeployer(allow, s));
    k :| 0 <= k < |ordered| && ordered[k] == ForDeployer(allow, s);
  }

  lemma RuleOfRoute(allow: seq<string>, rules: seq<PathRule>, ordered: seq<DeployRule>, i: nat)
      returns (r: PathRule)
    requires Sorts(allow, rules, ordered) && i < |ordered|
    ensures r in rules && ordered[i] == ForDeployer(allow, r)
  {
    SortedFrom(allow, rules, ordered, ordered[i]);
    r :| r in rules && ordered[i] == ForDeployer(allow, r);
  }

  /** If no matching route has a higher priority than the i-th, no matching rule has a longer prefix. */
  lemma OthersAreShorter(allow: seq<string>, rules: seq<PathRule>, ordered: seq<DeployRule>, path: string, i: nat,
      r: PathRule, s: PathRule)
    requires Sorts(allow, rules, ordered) && RulesGood(rules) && i < |ordered|
    requires r in rules && s in rules && s != r && ordered[i] == ForDeployer(allow, r)
    requires Matches(r.prefix, path) && Matches(s.prefix, path)
    requires forall k | 0 <= k < |ordered| && Matches(ordered[k].prefix, path) :: i <= k
    ensures |s.prefix| < |r.prefix|
  {
    PrefixesDiffer(rules, s, r);
    var k := RouteOfRule(allow, rules, ordered, s);
    assert LongestFirst(ordered);
    assert ordered[k].prefix == s.prefix && ordered[i].prefix == r.prefix;
    hide RulesGood, AllForDeployer, Matches, ForDeployer;
    assert i <= k;
    assert |s.prefix| <= |r.prefix|;
    if |s.prefix| == |r.prefix| {
      SamePrefix(s.prefix, r.prefix, path);
    }
  }

  /** Routes answer by their rule's prefix. */
  lemma RouteAnswers(c: Cluster, y: Sync, host: string, path: string, k: nat)
    requires InSync(c, y) && ReadableRoutes(y.hosts, y.rules) && host in y.hosts && k < |y.ordered|
    ensures |c.routes| == |y.ordered| && c.routes[k] == RouteOf(y.ordered[k], k, y.slug, y.hosts, y.hash, y.listOk)
    ensures Answers(c.routes[k].rule, host, path) <==> Matches(y.ordered[k].prefix, path)
  {
    SyncedLists(c, y);
    var r := RuleOfRoute(y.allow, y.rules, y.ordered, k);
    hide InSync, Answers, HostMatch, MatchRule, Carried, HostText, ForDeployer, AuthOf;
    PrefixKept(y.allow, r);
    TextMeansPrefix(y.hosts, r.prefix);
  }

  /** A winning route belongs to the unique longest matching rule. */
  lemma WinnerIsLongest(c: Cluster, y: Sync, host: string, path: string, catchAll: int, q: Route)
      returns (i: nat, r: PathRule)
    requires InSync(c, y) && ReadableRoutes(y.hosts, y.rules) && host in y.hosts
    requires Wins(c, host, path, catchAll, Some(q))
    ensures i < |y.ordered| && q == RouteOf(y.ordered[i], i, y.slug, y.hosts, y.hash, y.listOk)
    ensures y.ordered[i] == ForDeployer(y.allow, r) && IsLongest(y.rules, path, r)
  {
    SyncedLists(c, y);
    hide Sorts, Synced, IsOwnList, NormalList, HashSeparates, RulesGood, Matches, ForDeployer, ReadableRoutes,
        Answers, MatchRule, HostMatch, AuthOf;
    i :| 0 <= i < |y.ordered| && c.routes[i] == q;
    r := RuleOfRoute(y.allow, y.rules, y.ordered, i);
    PrefixKept(y.allow, r);
    RouteAnswers(c, y, host, path, i);
    forall k | 0 <= k < |y.ordered| && Matches(y.ordered[k].prefix, path) ensures i <= k {
      RouteAnswers(c, y, host, path, k);
      assert c.routes[k] in c.routes && c.routes[k].priority == BASE_PRIORITY - k;
    }
    forall s | s in y.rules && Matches(s.prefix, path) && s != r ensures |s.prefix| < |r.prefix| {
      OthersAreShorter(y.allow, y.rules, y.ordered, path, i, r, s);
    }
  }

  lemma PrefixKept(allow: seq<string>, r: PathRule)
    ensures ForDeployer(allow, r).prefix == r.prefix
  {
  }

  lemma PrefixesDiffer(rules: seq<PathRule>, a: PathRule, b: PathRule)
    requires RulesGood(rules) && a in rules && b in rules && a != b
    ensures a.prefix != b.prefix
  {
  }

  /** The catch-all wins exactly when no rule matches, its priority being below every route's. */
  lemma CatchAllWins(c: Cluster, y: Sync, host: string, path: string, catchAll: int, router: Option<Route>)
    requires InSync(c, y) && ReadableRoutes(y.hosts, y.rules) && host in y.hosts
    requires Wins(c, host, path, catchAll, router) && catchAll <= BASE_PRIORITY - |y.rules|
    ensures router.None? <==> forall r | r in y.rules :: !Matches(r.prefix, path)
  {
    SyncedLists(c, y);
    assert |y.ordered| == |y.rules| by {
      assert |multiset(y.ordered)| == |multiset(AllForDeployer(y.allow, y.rules))|;
    }
    hide Sorts, Synced, IsOwnList, NormalList, HashSeparates, Matches, RulesGood, ReadableRoutes, Answers,
        MatchRule, HostMatch, AuthOf, AllForDeployer, ForDeployer;
    if router.Some? {
      var i, r := WinnerIsLongest(c, y, host, path, catchAll, router.value);
      assert r in y.rules && Matches(r.prefix, path);
    } else {
      forall r | r in y.rules ensures !Matches(r.prefix, path) {
        var k := RouteOfRule(y.allow, y.rules, y.ordered, r);
        PrefixKept(y.allow, r);
        RouteAnswers(c, y, host, path, k);
        assert c.routes[k] in c.routes && c.routes[k].priority == BASE_PRIORITY - k > catchAll;
      }
    }
  }

  // ----- the gate -----

  /** No route wins: the catch-all Ingress, its own list if it was written, and single sign-on. */
  lemma UnmatchedGate(c: Cluster, y: Sync, src: nat)
    requires InSync(c, y)
    ensures (IpCheck(c, c.refs, src) <==> !y.listOk || OwnGate(y.allow, src)) && ForwardAuth in c.refs
  {
    hide *;
    SyncedLists(c, y);
    if y.listOk { OwnMiddleware(c, y, src); }
    GuardChecks(c, y.slug, y.listOk, src);
  }

  /** The chain on the Ingress checks the own list, if there is one, and then signs on. */
  lemma GuardChecks(c: Cluster, slug: string, own: bool, src: nat)
    ensures IpCheck(c, GuardRefs(slug, own), src) <==> !own || ListPasses(c, OwnListName(slug), src)
    ensures ForwardAuth in GuardRefs(slug, own) && (AllowList(OwnListName(slug)) in GuardRefs(slug, own) <==> own)
  {
    hide ListPasses, OwnListName;
    var refs := GuardRefs(slug, own);
    if own {
      assert refs[0] == AllowList(OwnListName(slug)) && refs[2] == ForwardAuth;
    } else {
      assert refs[1] == ForwardAuth;
    }
  }

  /** A route wins: it is the longest matching rule's, with that rule's gate and authentication. */
  lemma MatchedGate(c: Cluster, y: Sync, host: string, path: string, src: nat, catchAll: int, q: Route)
      returns (r: PathRule)
    requires InSync(c, y) && ReadableRoutes(y.hosts, y.rules) && host in y.hosts
    requires Wins(c, host, path, catchAll, Some(q))
    ensures IsLongest(y.rules, path, r) && r in y.rules
    ensures IpCheck(c, q.middlewares, src) <==> GateInForce(y.listOk, y.allow, r, src)
    ensures (TokenVerify in q.middlewares <==> r.mode.Token?) && ForwardAuth !in q.middlewares
  {
    hide InSync, ReadableRoutes, Wins, IsLongest, IpCheck, GateInForce, ForDeployer, RouteOf;
    var i;
    i, r := WinnerIsLongest(c, y, host, path, catchAll, q);
    WinningRule(y.rules, path, r);
    RouteGate(c, y, i, r, src);
  }

  /** Whatever compiled the objects, there is the list and the order it used. */
  lemma FromCompiled(before: Cluster, c: Cluster, slug: string, hosts: seq<string>, hash: string -> string,
      allow: seq<string>, rules: seq<PathRule>, listOk: bool) returns (y: Sync)
    requires Compiled(before, c, slug, hosts, hash, allow, rules, listOk) && NormalList(allow)
    requires RulesGood(rules) && HashSeparates(hash, rules) && OwnListName(slug) !in before.labelled
    ensures InSync(c, y) && y.slug == slug && y.hosts == hosts && y.allow == allow && y.rules == rules && y.listOk == listOk
  {
    hide SyncedTo, IsOwnList, NormalList, HashSeparates, RulesGood, LongestFirst, AllForDeployer, OwnListName;
    var list: seq<string>, ordered: seq<DeployRule> :|
      && IsOwnList(allow, list) && Ordered(AllForDeployer(allow, rules), ordered, Complete)
      && c == SyncedTo(before, slug, hosts, hash, list, ordered, listOk, Complete);
    y := Sync(before, slug, hosts, hash, allow, rules, listOk, list, ordered);
    assert Sorts(allow, rules, ordered);
  }

  /**
   For every host of the project, every path and every source: single sign-on applies exactly where no rule matches;
   there the IP check is the project's list, and under the longest matching rule that list and the rule's sources.
   A list that could not be written is no check, on unmatched paths and under rules without sources.
   */
  lemma GateMeaning(before: Cluster, c: Cluster, slug: string, hosts: seq<string>, hash: string -> string,
      allow: seq<string>, rules: seq<PathRule>, listOk: bool, host: string, path: string, src: nat, catchAll: int,
      router: Option<Route>)
    requires Compiled(before, c, slug, hosts, hash, allow, rules, listOk) && NormalList(allow)
    requires RulesGood(rules) && HashSeparates(hash, rules) && OwnListName(slug) !in before.labelled
    requires ReadableRoutes(hosts, rules) && host in hosts
    requires catchAll <= BASE_PRIORITY - |rules| && Wins(c, host, path, catchAll, router)
    ensures ForwardAuth in Chain(c, router) <==> forall r | r in rules :: !Matches(r.prefix, path)
    ensures router.None? <==> forall r | r in rules :: !Matches(r.prefix, path)
    ensures router.None? ==> (IpCheck(c, Chain(c, router), src) <==> !listOk || OwnGate(allow, src))
    ensures router.Some? ==> exists r ::
              && IsLongest(rules, path, r)
              && (IpCheck(c, Chain(c, router), src) <==> (!listOk && r.external == []) || RuleGate(allow, r, src))
              && (TokenVerify in Chain(c, router) <==> r.mode.Token?)
  {
    hide Compiled, NormalList, HashSeparates, RulesGood, Matches, InSync, ReadableRoutes, Wins, OwnGate, RuleGate,
        IsLongest, IpCheck, OwnListName;
    var y := FromCompiled(before, c, slug, hosts, hash, allow, rules, listOk);
    CatchAllWins(c, y, host, path, catchAll, router);
    if router.None? {
      UnmatchedGate(c, y, src);
    } else {
      var r := MatchedGate(c, y, host, path, src, catchAll, router.value);
    }
  }

  lemma WinningRule(rules: seq<PathRule>, path: string, r: PathRule)
    requires IsLongest(rules, path, r)
    ensures r in rules && Matches(r.prefix, path)
  {
  }

  /**
   A source outside the project's list meets neither sign-on nor a token exactly when the list could not be written
   and the path's longest rule has no sources of its own and asks for no token.
   */
  lemma OutsidersNeedTokens(before: Cluster, c: Cluster, slug: string, hosts: seq<string>, hash: string -> string,
      allow: seq<string>, rules: seq<PathRule>, listOk: bool, host: string, path: string, src: nat, catchAll: int,
      router: Option<Route>)
    requires Compiled(before, c, slug, hosts, hash, allow, rules, listOk) && NormalList(allow)
    requires RulesGood(rules) && HashSeparates(hash, rules) && OwnListName(slug) !in before.labelled
    requires ReadableRoutes(hosts, rules) && host in hosts
    requires catchAll <= BASE_PRIORITY - |rules| && Wins(c, host, path, catchAll, router)
    requires !InList(allow, src) && src != LOOPBACK
    ensures && IpCheck(c, Chain(c, router), src)
            && TokenVerify !in Chain(c, router) && ForwardAuth !in Chain(c, router)
            <==> !listOk && exists r :: IsLongest(rules, path, r) && r.external == [] && r.mode.NoAuth?
  {
    GateMeaning(before, c, slug, hosts, hash, allow, rules, listOk, host, path, src, catchAll, router);
    hide Compiled, NormalList, HashSeparates, ReadableRoutes, Wins, InList, IpCheck, Matches, IsPrefix,
        GoodExternal;
    if router.Some? {
      var r :| && IsLongest(rules, path, r)
               && (IpCheck(c, Chain(c, router), src) <==> (!listOk && r.external == []) || RuleGate(allow, r, src))
               && (TokenVerify in Chain(c, router) <==> r.mode.Token?);
      assert GoodRule(r);
      forall s | IsLongest(rules, path, s) ensures s == r { OneLongest(rules, path, r, s); }
    }
  }

  lemma OneLongest(rules: seq<PathRule>, path: string, r: PathRule, s: PathRule)
    requires IsLongest(rules, path, r) && IsLongest(rules, path, s)
    ensures r == s
  {
    hide Matches;
  }

  /** It happens: a sync whose middleware write failed leaves a rule's paths open to every source. */
  lemma UnwrittenListOpensRule(before: Cluster, slug: string, hosts: seq<string>, hash: string -> string,
      allow: seq<string>, host: string, catchAll: int, src: nat)
    requires allow != [] && NormalList(allow) && forall j, k | 0 <= j < k < |allow| :: allow[j] != allow[k]
    requires hosts != [] && (forall h | h in hosts :: HostText(h)) && host in hosts && catchAll < BASE_PRIORITY
    ensures var rules := [PathRule("/", NoAuth, [])];
            RulesGood(rules) && exists c, q ::
              && Compiled(before, c, slug, hosts, hash, allow, rules, false)
              && Wins(c, host, "/", catchAll, Some(q)) && q.middlewares == [] && IpCheck(c, q.middlewares, src)
  {
    var ordered := [DeployRule("/", NoAuth, [])];
    var rules := [PathRule("/", NoAuth, [])];
    var c := Synced(before, slug, hosts, hash, allow, ordered, false);
    var q := RouteOf(ordered[0], 0, slug, hosts, hash, false);
    assert c.routes == [q] && q in c.routes;
    RootIsGood();
    NormalListIsOwn(allow);
    hide Synced, SyncedTo, IsOwnList, Answers, MatchRule, HostMatch, HostText, RulesGood;
    assert AllForDeployer(allow, rules) == ordered;
    assert Compiled(before, c, slug, hosts, hash, allow, rules, false);
    assert Answers(q.rule, host, "/") by { RootAnswers(hosts, host); }
    assert Wins(c, host, "/", catchAll, Some(q));
  }

  lemma RootIsGood()
    ensures RulesGood([PathRule("/", NoAuth, [])]) && Carried("/")
  {
    assert IsPrefix("/");
  }

  lemma RootAnswers(hosts: seq<string>, host: string)
    requires hosts != [] && (forall h | h in hosts :: HostText(h)) && host in hosts
    ensures Answers(MatchRule(HostMatch(hosts), "/"), host, "/")
  {
    RootIsGood();
    TextMeansPrefix(hosts, "/");
    hide Answers, MatchRule, HostMatch, Carried, HostText;
    assert HasPrefix("/", "/");
  }

  lemma NormalListIsOwn(allow: seq<string>)
    requires allow != [] && NormalList(allow) && forall j, k | 0 <= j < k < |allow| :: allow[j] != allow[k]
    ensures IsOwnList(allow, allow)
  {
    hide Trim;
    assert allow[0] in allow && Trim(allow[0]) == allow[0];
    assert TrimmedFrom(allow, allow[0]);
    assert forall c | c in allow :: Trim(c) == c;
  }

  // ----- prefixes the match text cannot carry -----

  lemma NoAuthText()
    ensures Trim("no_auth") == "no_auth" && ModeOf("no_auth") == Some(NoAuth)
  {
    TrimFixes("no_auth");
  }

  /** Whoever manages the project may store any prefix that is well-formed as it stands. */
  lemma PrefixIsStored(p: string, actor: Actor, owner: nat, project: ProjectId)
    requires CanManage(actor, owner) && IsPrefix(p) && Trim(p) == p
    ensures CreatesRule(map[], map[0 := Row(project, PathRule(p, NoAuth, []))], actor, owner, project, 0,
                        Input(p, "no_auth", None))
  {
    NoAuthText();
    NothingToStore(actor, NoAuth);
    hide Trim, IsPrefix, ModeOf, MayStore, CanManage;
    var t: PathRules.Table := map[];
    assert !Taken(t, project, p, 0);
    assert MayStore(actor, NoAuth, [], []) && Input(p, "no_auth", None).external.None?;
    assert t[0 := Row(project, PathRule(p, NoAuth, []))] == map[0 := Row(project, PathRule(p, NoAuth, []))];
  }

  lemma LoneTickPrefix()
    ensures IsPrefix("/a`b") && Trim("/a`b") == "/a`b" && !Carried("/a`b")
  {
    TrimFixes("/a`b");
    assert "/a`b"[2] == TICK;
  }

  /** A prefix may hold a backtick. This one's route cannot be read, so its paths stay with the catch-all. */
  lemma BacktickRouteIsUnread(actor: Actor, owner: nat, project: ProjectId, hosts: seq<string>, host: string,
      path: string)
    requires CanManage(actor, owner) && hosts != [] && forall h | h in hosts :: HostText(h)
    ensures CreatesRule(map[], map[0 := Row(project, PathRule("/a`b", NoAuth, []))], actor, owner, project, 0,
                        Input("/a`b", "no_auth", None))
    ensures !Answers(MatchRule(HostMatch(hosts), "/a`b"), host, path)
  {
    LoneTickPrefix();
    hide CreatesRule, MatchRule, HostMatch, Read, IsPrefix, Trim, Carried, HostText, CanManage;
    PrefixIsStored("/a`b", actor, owner, project);
    HostsAreArgs(hosts);
    LoneTick(hosts);
  }

  lemma TwoPartPrefix()
    ensures IsPrefix(TwoPart("/x", "/")) && Trim(TwoPart("/x", "/")) == TwoPart("/x", "/")
    ensures Carried("/x") && Carried("/")
  {
    var p := TwoPart("/x", "/");
    assert p == "/x`)||PathPrefix(`/";
    TrimFixes(p);
  }

  /** This one's route can be read, and answers for every host. */
  lemma BacktickRouteAnswersAll(actor: Actor, owner: nat, project: ProjectId, hosts: seq<string>, host: string,
      path: string)
    requires CanManage(actor, owner) && hosts != [] && forall h | h in hosts :: HostText(h)
    ensures CreatesRule(map[], map[0 := Row(project, PathRule(TwoPart("/x", "/"), NoAuth, []))], actor, owner, project, 0,
                        Input(TwoPart("/x", "/"), "no_auth", None))
    ensures HasPrefix(path, "/") ==> Answers(MatchRule(HostMatch(hosts), TwoPart("/x", "/")), host, path)
  {
    TwoPartPrefix();
    hide CreatesRule, MatchRule, HostMatch, Answers, TwoPart, IsPrefix, Trim, Carried, HostText, CanManage;
    PrefixIsStored(TwoPart("/x", "/"), actor, owner, project);
    HostsAreArgs(hosts);
    TwoPartReads(hosts, "/x", "/");
  }

  /** The rules a reachable table holds for a project are as the gate expects them. */
  lemma ListedRulesAreGood(t: Table, project: ProjectId, rules: seq<PathRule>)
    requires ValidTable(t) && ListsRules(t, project, rules)
    ensures RulesGood(rules)
  {
    hide GoodRule;
    forall r | r in rules ensures GoodRule(r) {
      assert HasRule(t, project, r);
    }
  }

  /** Syncs keep the project's own middleware out of the prunable ones. */
  lemma OwnListNeverLabelled(before: Cluster, c: Cluster, slug: string, hosts: seq<string>, hash: string -> string,
      allow: seq<string>, rules: seq<PathRule>, listOk: bool)
    requires Compiled(before, c, slug, hosts, hash, allow, rules, listOk)
    ensures OwnListName(slug) !in c.labelled
  {
    hide IsOwnList, SyncedTo, AllForDeployer, OwnListName, Ordered, Wanted;
    var list: seq<string>, ordered: seq<DeployRule> :|
      && IsOwnList(allow, list) && Ordered(AllForDeployer(allow, rules), ordered, Complete)
      && c == SyncedTo(before, slug, hosts, hash, list, ordered, listOk, Complete);
    SyncedLabels(before, slug, hosts, hash, list, ordered, listOk);
    OwnNotWanted(ordered, slug, hash);
  }

  lemma SyncedLabels(before: Cluster, slug: string, hosts: seq<string>, hash: string -> string, list: seq<string>,
      ordered: seq<DeployRule>, listOk: bool)
    ensures SyncedTo(before, slug, hosts, hash, list, ordered, listOk, Complete).labelled == Wanted(ordered, slug, hash)
  {
    hide WithRuleLists, RoutesOf, Wanted;
  }

  lemma OwnNotWanted(ordered: seq<DeployRule>, slug: string, hash: string -> string)
    ensures OwnListName(slug) !in Wanted(ordered, slug, hash)
  {
    hide RuleListName, OwnListName;
    forall k | 0 <= k < |ordered| ensures RuleListName(slug, hash(ordered[k].prefix)) != OwnListName(slug) {
      RuleListIsNotOwn(slug, hash(ordered[k].prefix));
    }
  }
}
