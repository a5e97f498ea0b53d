/**
 What the two compiled artefacts, the per-project policy and the one proxy file, guarantee together.
 */
module EgressSafety {
  import opened Wrappers
  import opened Sorting
  import opened Text
  import opened Ipv4
  import opened Squid
  import opened SquidMeaning
  import opened NetPolicy
  import opened NetPolicyMeaning
  import opened EgressDb
  import opened EgressRuns
  import opened EgressRules
  import opened EgressServer
  import opened ProxyEnv

  // ----- stored endpoint rules are storable, after every run -----

  ghost predicate RulesSafe(db: Db, protected: seq<nat>) {
    forall id, r | r in RulesOf(db, id) && r.kind.EndpointKind? :: Storable(r, protected)
  }

  /** Every rule list of the run went through the handler's checks. */
  ghost predicate AllChecked(ops: seq<Op>, protected: seq<nat>) {
    forall op | op in ops && op.Replace? :: forall r | r in op.rules :: Storable(r, protected)
  }

  lemma StatementStaysSafe(db: Db, op: Op, protected: seq<nat>)
    requires RulesSafe(db, protected) && (op.Replace? ==> forall r | r in op.rules :: Storable(r, protected))
    ensures RulesSafe(Perform(db, op), protected)
  {
    hide Storable;
    var db' := Perform(db, op);
    forall id, r | r in RulesOf(db', id) && r.kind.EndpointKind? ensures Storable(r, protected) {
      if op.Learned? { RulesAfterLearn(db, op.lessons, id); }
      assert r in RulesOf(db, id) || (op.Replace? && r in op.rules);
    }
  }

  lemma {:induction false} RulesStaySafe(db: Db, ops: seq<Op>, protected: seq<nat>)
    requires RulesSafe(db, protected) && AllChecked(ops, protected)
    ensures RulesSafe(PerformAll(db, ops), protected)
    decreases |ops|
  {
    hide RulesSafe, Perform;
    if ops != [] {
      StatementStaysSafe(db, ops[0], protected);
      RulesStaySafe(Perform(db, ops[0]), ops[1..], protected);
    }
  }

  // ----- where an admitted pair comes from -----

  /** From an endpoint or from the registry. */
  ghost predicate FromPlatform(cfg: Config, x: Pair) {
    x in AllEndpointPairs(DeployerFor(cfg).endpoints) || x in RegistryPairs(DeployerFor(cfg).registryHost)
  }

  lemma PlatformPortIsNamed(cfg: Config, x: Pair)
    requires FromPlatform(cfg, x)
    ensures x.1 != 0
  {
    hide DeployerFor, ParseIp, SplitHostPort, Trim, Atoi, RegistryCidr;
    var eps := DeployerFor(cfg).endpoints;
    if x in AllEndpointPairs(eps) {
      var i :| 0 <= i < |eps| && x in EndpointPairs(eps[i]);
    }
  }

  /** A stored rule's pair: any port, or a reserved one, never reaches a protected address. */
  lemma RulePairSafe(db: Db, id: ProjectId, protected: seq<nat>, x: Pair, ip: nat)
    requires RulesSafe(db, protected) && x in RulePairs(RulesOf(db, id))
    requires ip in protected && Covers(x.0, ip)
    ensures x.1 != 0 && x.1 !in RESERVED
  {
    var r :| r in RulesOf(db, id) && r.kind.EndpointKind? && x in ExtraPairs(EgressAllow(r.value, r.port));
    assert Storable(r, protected) && x == (r.value, r.port);
    assert Reaches(r.value, protected);
  }

  lemma ProxyPairIs(p: Project, proxyHost: string, x: Pair)
    requires x in ProxyPairs(p, proxyHost)
    ensures !p.mode.Off? && p.port == Some(x.1) && x.0 == proxyHost + "/32" && ParseIp(proxyHost).Some?
  {
  }

  // ----- reserved ports -----

  /** No platform endpoint is itself configured on a reserved port. */
  ghost predicate EndpointsAvoidReserved(cfg: Config) {
    forall x | FromPlatform(cfg, x) :: x.1 !in RESERVED
  }

  /** The platform's own configuration puts an endpoint, or the registry, at this address on this port. */
  ghost predicate PlatformOpens(cfg: Config, ip: nat, port: int) {
    || EndpointOpens(cfg.pgHost, ip, port) || EndpointOpens(cfg.redisHost, ip, port)
    || EndpointOpens(cfg.s3Host, ip, port) || EndpointOpens(cfg.s3PublicEndpoint, ip, port)
    || RegistryOpens(if cfg.registryHostFromK3D == "" then cfg.registryHost else cfg.registryHostFromK3D, ip, port)
  }

  function PlatformPairs(cfg: Config): set<Pair> {
    AllEndpointPairs(DeployerFor(cfg).endpoints) + RegistryPairs(DeployerFor(cfg).registryHost)
  }

  lemma NoTextNoEndpoint(ip: nat, port: int)
    ensures !EndpointOpens("", ip, port)
  {
    hide ParseIp, Atoi;
    assert Trim("") == "" && LastIndexOf("", ':') == -1;
    hide Trim, LastIndexOf;
  }

  lemma PlatformPairsOpen(cfg: Config, ip: nat, port: int)
    ensures PairAllows(PlatformPairs(cfg), ip, port) <==> PlatformOpens(cfg, ip, port)
  {
    var eps, registry := DeployerFor(cfg).endpoints, DeployerFor(cfg).registryHost;
    NoTextNoEndpoint(ip, port);
    assert forall ep :: ep in eps
             <==> ep != "" && (ep == cfg.pgHost || ep == cfg.redisHost || ep == cfg.s3Host || ep == cfg.s3PublicEndpoint);
    hide EndpointOpens, RegistryOpens, PairAllows, AllEndpointPairs, RegistryPairs;
    AllEndpointsOpen(eps, ip, port);
    RegistryPairOpens(registry, ip, port);
    PairAllowsUnion(AllEndpointPairs(eps), RegistryPairs(registry), ip, port);
  }

  /**
   Whatever rule lists are accepted, in whatever run: a reserved port on a protected address is open exactly when the
   platform's own configuration puts an endpoint there; in particular never when no endpoint is on a reserved port.
   */
  lemma ReservedPortsStayClosed(ops: seq<Op>, cfg: Config, protected: seq<nat>, id: ProjectId, ip: nat, port: int)
    requires AllPossible(EMPTY, ops) && AllChecked(ops, protected)
    requires Live(PerformAll(EMPTY, ops), id)
    requires ip in protected && IsAddr(ip) && port in RESERVED
    ensures var policy := ProjectPolicy(PerformAll(EMPTY, ops), cfg, id);
            policy.Some? ==> (PolicyAllows(policy.value, Dest(ip, port, false, false)) <==> PlatformOpens(cfg, ip, port))
    ensures EndpointsAvoidReserved(cfg) ==> !PlatformOpens(cfg, ip, port)
  {
    var db := PerformAll(EMPTY, ops);
    PortsStayDistinct(ops);
    RulesStaySafe(EMPTY, ops, protected);
    ReservedOnlyByPlatform(db, cfg, protected, id, ip, port);
    if EndpointsAvoidReserved(cfg) && PlatformOpens(cfg, ip, port) {
      PlatformPairsOpen(cfg, ip, port);
      hide PlatformOpens, AllEndpointPairs, RegistryPairs, Covers, PolicyAllows;
      var x := AllowingPair(PlatformPairs(cfg), ip, port);
      PlatformPortIsNamed(cfg, x);
    }
  }

  lemma RulePairsOpen(rules: set<Rule>, ip: nat, port: int)
    ensures PairAllows(RulePairs(rules), ip, port)
            <==> exists r :: r in rules && r.kind.EndpointKind? && ExtraOpens(EgressAllow(r.value, r.port), ip, port)
  {
    hide ExtraPairs, PairAllows, ExtraOpens, Covers;
    if PairAllows(RulePairs(rules), ip, port) {
      var x := AllowingPair(RulePairs(rules), ip, port);
      var r :| r in rules && r.kind.EndpointKind? && x in ExtraPairs(EgressAllow(r.value, r.port));
      OnePairAllows(ExtraPairs(EgressAllow(r.value, r.port)), x, ip, port);
      ExtraPairOpens(EgressAllow(r.value, r.port), ip, port);
    }
    if r :| r in rules && r.kind.EndpointKind? && ExtraOpens(EgressAllow(r.value, r.port), ip, port) {
      ExtraPairOpens(EgressAllow(r.value, r.port), ip, port);
      var x := AllowingPair(ExtraPairs(EgressAllow(r.value, r.port)), ip, port);
      assert x in RulePairs(rules);
      OnePairAllows(RulePairs(rules), x, ip, port);
    }
  }

  lemma ProxyPairsOpen(p: Project, proxyHost: string, ip: nat, port: int)
    requires p.port.Some? ==> InWindow(p.port.value)
    ensures PairAllows(ProxyPairs(p, proxyHost), ip, port)
            <==> !p.mode.Off? && p.port == Some(port) && ParseIp(proxyHost) == Some(ip)
  {
    hide ParseIp, Covers;
    if ParseIp(proxyHost).Some? {
      HostBlock(proxyHost);
      HostBlockCovers(proxyHost, ip);
      hide ParseCidr;
      if !p.mode.Off? && p.port.Some? {
        assert (proxyHost + "/32", p.port.value) in ProxyPairs(p, proxyHost);
      }
    }
  }

  /**
   The policy of a live project, read against tables and configuration: it opens what the platform's configuration
   names, the range of each of the project's endpoint rules on the rule's port, the project's own listener unless its
   mode is off, DNS and its own pods, and nothing else.
   */
  lemma PolicyOpensExactly(db: Db, cfg: Config, id: ProjectId, d: Dest)
    requires PortInvariant(db) && Live(db, id) && ProjectPolicy(db, cfg, id).Some? && IsAddr(d.ip)
    ensures PolicyAllows(ProjectPolicy(db, cfg, id).value, d) <==>
              || PlatformOpens(cfg, d.ip, d.port)
              || (exists r :: r in RulesOf(db, id) && r.kind.EndpointKind? && ExtraOpens(EgressAllow(r.value, r.port), d.ip, d.port))
              || (!db.projects[id].mode.Off? && Holds(db, id, d.port) && ParseIp(ProxyHost(cfg)) == Some(d.ip))
              || DnsAllows(cfg.dnsClusterIP, d)
              || d.ownPod
  {
    var p, rules := db.projects[id], RulePairs(RulesOf(db, id));
    assert p.port.Some? ==> InWindow(p.port.value) by { if p.port.Some? { OwnPortIsOrdinary(db, id, p.port.value); } }
    NoExtras([]);
    hide PolicyFor, PolicyAllows, PairAllows, PlatformOpens, ExtraOpens, RulePairs, ProxyPairs, AllEndpointPairs,
        RegistryPairs, AllExtraPairs, CarvedOut, PortInvariant, DeployerFor, ProxyHost, ParseIp;
    assert ProjectPairs(db, cfg, id) == PlatformPairs(cfg) + rules + ProxyPairs(p, ProxyHost(cfg));
    PolicyMeaning(ProjectPairs(db, cfg, id), true, cfg.dnsClusterIP, d);
    PlatformPairsOpen(cfg, d.ip, d.port);
    RulePairsOpen(RulesOf(db, id), d.ip, d.port);
    ProxyPairsOpen(p, ProxyHost(cfg), d.ip, d.port);
    hide PlatformPairs;
    PairAllowsUnion(PlatformPairs(cfg), rules, d.ip, d.port);
    PairAllowsUnion(PlatformPairs(cfg) + rules, ProxyPairs(p, ProxyHost(cfg)), d.ip, d.port);
  }

  /** An admitted pair that opens a reserved port of a protected address is one of the platform's own. */
  lemma PairSparesReserved(db: Db, cfg: Config, protected: seq<nat>, id: ProjectId, x: Pair, ip: nat, port: int)
    requires PortInvariant(db) && RulesSafe(db, protected) && Live(db, id) && port in RESERVED
    requires x in ProjectPairs(db, cfg, id) && ip in protected && Covers(x.0, ip) && (x.1 == 0 || x.1 == port)
    ensures FromPlatform(cfg, x) && x.1 == port
  {
    var project := db.projects[id];
    hide *;
    PairSource(db, cfg, id, x);
    if FromPlatform(cfg, x) {
      PlatformPortIsNamed(cfg, x);
    } else if x in RulePairs(RulesOf(db, id)) {
      RulePairSafe(db, id, protected, x, ip);
    } else {
      ProxyPairIs(project, ProxyHost(cfg), x);
      OwnPortIsOrdinary(db, id, x.1);
    }
  }

  lemma PairSource(db: Db, cfg: Config, id: ProjectId, x: Pair)
    requires id in db.projects && x in ProjectPairs(db, cfg, id)
    ensures FromPlatform(cfg, x) || x in RulePairs(RulesOf(db, id)) || x in ProxyPairs(db.projects[id], ProxyHost(cfg))
  {
    AdmittedIs(db, cfg, id, x);
    hide FromPlatform, RulePairs, ProxyPairs, ProjectPairs, ProxyHost;
  }

  lemma OwnPortIsOrdinary(db: Db, id: ProjectId, p: int)
    requires PortInvariant(db) && Live(db, id) && id in db.projects && db.projects[id].port == Some(p)
    ensures p != 0 && p !in RESERVED && Holds(db, id, p)
  {
    assert Holds(db, id, p);
  }

  lemma ReservedOnlyByPlatform(db: Db, cfg: Config, protected: seq<nat>, id: ProjectId, ip: nat, port: int)
    requires PortInvariant(db) && RulesSafe(db, protected) && Live(db, id)
    requires ip in protected && IsAddr(ip) && port in RESERVED
    ensures var policy := ProjectPolicy(db, cfg, id);
            policy.Some? ==> (PolicyAllows(policy.value, Dest(ip, port, false, false)) <==> PlatformOpens(cfg, ip, port))
  {
    PlatformPairsOpen(cfg, ip, port);
    hide PolicyFor, PolicyAllows, ProjectPairs, CarvedOut, PortInvariant, RulesSafe, EndpointsAvoidReserved,
        DeployerFor, Covers, PlatformOpens, AllEndpointPairs, RegistryPairs;
    var ps := ProjectPairs(db, cfg, id);
    PolicyMeaning(ps, true, cfg.dnsClusterIP, Dest(ip, port, false, false));
    if PairAllows(ps, ip, port) {
      var x := AllowingPair(ps, ip, port);
      PairSparesReserved(db, cfg, protected, id, x, ip, port);
      OnePairAllows(PlatformPairs(cfg), x, ip, port);
    }
    if PairAllows(PlatformPairs(cfg), ip, port) {
      var x := AllowingPair(PlatformPairs(cfg), ip, port);
      AdmittedIs(db, cfg, id, x);
      OnePairAllows(ps, x, ip, port);
    }
  }

  // ----- the pod's view of the proxy -----

  /** Some listener both the pod's policy and the proxy file let the request through. */
  ghost predicate CanUseProxy(policy: seq<EgressRule>, conf: seq<Line>, proxyIp: nat, connect: bool, host: string,
      port: int) {
    exists p, name :: Through(policy, conf, proxyIp, p, name, connect, host, port)
  }

  ghost predicate Through(policy: seq<EgressRule>, conf: seq<Line>, proxyIp: nat, p: int, name: string,
      connect: bool, host: string, port: int) {
    && PolicyAllows(policy, Dest(proxyIp, p, false, false))
    && HttpPort(false, p, name) in conf
    && Admits(conf, Request(name, connect, host, port, false, false))
  }

  ghost predicate ListedRule(rules: set<Rule>, anyPort: bool, host: string) {
    exists r :: r in rules && r.kind.DomainKind? && (r.port == 0 <==> anyPort) && HostMatches(r.value, host)
  }

  /** What a project's own mode and rules say about a request. */
  ghost predicate OwnRulesAllow(mode: Mode, rules: set<Rule>, connect: bool, host: string, port: int) {
    || (mode.Enforce? && ListedRule(rules, true, host))
    || (Safe(Request("", connect, host, port, false, false)) && (mode.Observe? || ListedRule(rules, false, host)))
  }

  ghost predicate SlugsAreText(db: Db) { forall i | i in db.projects :: SlugText(db.projects[i].slug) }

  /** Nothing but the project's own listener is admitted by name on the proxy host's window ports. */
  ghost predicate WindowIsOurs(db: Db, cfg: Config, id: ProjectId, proxyIp: nat) {
    forall x | (FromPlatform(cfg, x) || x in RulePairs(RulesOf(db, id))) && Covers(x.0, proxyIp) :: !InWindow(x.1)
  }

  ghost predicate IsAdmitted(db: Db, cfg: Config, id: ProjectId, x: Pair)
    requires id in db.projects
  {
    FromPlatform(cfg, x) || x in RulePairs(RulesOf(db, id)) || x in ProxyPairs(db.projects[id], ProxyHost(cfg))
  }

  ghost predicate AreAdmitted(db: Db, cfg: Config, id: ProjectId, ps: set<Pair>)
    requires id in db.projects
  {
    forall x :: x in ps <==> IsAdmitted(db, cfg, id, x)
  }

  /** The policy is compiled from exactly the pairs the tables and the configuration admit. */
  ghost predicate PolicyInSync(db: Db, cfg: Config, id: ProjectId, policy: seq<EgressRule>)
    requires id in db.projects
  {
    exists ps :: AreAdmitted(db, cfg, id, ps) && policy == PolicyFor(ps, true, cfg.dnsClusterIP)
  }

  lemma PairsAreAdmitted(db: Db, cfg: Config, id: ProjectId)
    requires id in db.projects
    ensures AreAdmitted(db, cfg, id, ProjectPairs(db, cfg, id))
  {
    hide ProjectPairs, IsAdmitted;
    forall x ensures x in ProjectPairs(db, cfg, id) <==> IsAdmitted(db, cfg, id, x) { AdmittedIs(db, cfg, id, x); }
  }

  /** That is what the server pushes. */
  lemma PushedPolicyIsInSync(db: Db, cfg: Config, id: ProjectId, policy: seq<EgressRule>)
    requires id in db.projects && ProjectPolicy(db, cfg, id) == Some(policy)
    ensures PolicyInSync(db, cfg, id, policy)
  {
    hide ProjectPairs, AreAdmitted, PolicyFor, DeployerFor;
    PairsAreAdmitted(db, cfg, id);
  }

  lemma AdmittedIs(db: Db, cfg: Config, id: ProjectId, x: Pair)
    requires id in db.projects
    ensures x in ProjectPairs(db, cfg, id) <==> IsAdmitted(db, cfg, id, x)
  {
    NoExtras([]);
    hide AllEndpointPairs, RegistryPairs, RulePairs, ProxyPairs, DeployerFor, ProxyHost, AllExtraPairs;
  }

  lemma SameAdmitted(db: Db, cfg: Config, id: ProjectId, ps: set<Pair>)
    requires id in db.projects && AreAdmitted(db, cfg, id, ps)
    ensures ps == ProjectPairs(db, cfg, id)
  {
    PairsAreAdmitted(db, cfg, id);
    hide ProjectPairs, IsAdmitted;
  }

  lemma InSyncPairs(db: Db, cfg: Config, id: ProjectId, policy: seq<EgressRule>)
    requires id in db.projects && PolicyInSync(db, cfg, id, policy)
    ensures policy == PolicyFor(ProjectPairs(db, cfg, id), true, cfg.dnsClusterIP)
  {
    hide ProjectPairs, AreAdmitted, PolicyFor;
    var ps :| AreAdmitted(db, cfg, id, ps) && policy == PolicyFor(ps, true, cfg.dnsClusterIP);
    SameAdmitted(db, cfg, id, ps);
  }

  /** The situation of one project's pods with both artefacts in sync. */
  ghost predicate Situated(db: Db, cfg: Config, protected: seq<nat>, id: ProjectId, policy: seq<EgressRule>,
      conf: seq<Line>, proxyIp: nat) {
    && PortInvariant(db) && SlugsAreText(db) && RulesSafe(db, protected) && Live(db, id)
    && NamedOnce(ConfiguredHosts(cfg), protected)
    && PolicyInSync(db, cfg, id, policy) && ProxyInSync(db, conf)
    && ParseIp(ProxyHost(cfg)) == Some(proxyIp) && !IsLoopback(proxyIp)
    && WindowIsOurs(db, cfg, id, proxyIp)
  }

  lemma TargetListValid(db: Db, ts: seq<Target>)
    requires IsTargetList(db, ts) && SlugsAreText(db)
    ensures TargetsValid(ts)
  {
    forall k | 0 <= k < |ts| ensures SlugText(ts[k].slug) {
      assert SomeProjectsTarget(db, ts[k]);
    }
  }

  /** A target's closed form is its project's own rules. */
  lemma TargetIsOwnRules(db: Db, id: ProjectId, t: Target, req: Request)
    requires IsTargetOf(db, id, t) && !req.manager
    ensures TargetAllows(t, req) <==> OwnRulesAllow(db.projects[id].mode, RulesOf(db, id), req.connect, req.host, req.port)
  {
    ListedIsListedRule(t.domains, RulesOf(db, id), true, req.host);
    ListedIsListedRule(t.domains, RulesOf(db, id), false, req.host);
  }

  lemma ListedIsListedRule(ds: seq<DomainRule>, rules: set<Rule>, anyPort: bool, host: string)
    requires forall d :: d in ds <==> Rule(DomainKind, d.value, d.port) in rules
    ensures Listed(ds, anyPort, host) <==> ListedRule(rules, anyPort, host)
  {
    hide HostMatches;
    if ListedRule(rules, anyPort, host) {
      var r :| r in rules && r.kind.DomainKind? && (r.port == 0 <==> anyPort) && HostMatches(r.value, host);
      assert r == Rule(DomainKind, r.value, r.port) && DomainRule(r.value, r.port) in ds;
    }
    if Listed(ds, anyPort, host) {
      var d :| d in ds && (d.port == 0 <==> anyPort) && HostMatches(d.value, host);
      assert d == DomainRule(d.value, d.port) && Rule(DomainKind, d.value, d.port) in rules;
    }
  }

  /** The proxy host is one of the protected addresses. */
  lemma ProxyHostIsProtected(cfg: Config, protected: seq<nat>, proxyIp: nat)
    requires NamedOnce(ConfiguredHosts(cfg), protected) && ParseIp(ProxyHost(cfg)) == Some(proxyIp) && !IsLoopback(proxyIp)
    ensures proxyIp in protected
  {
    hide ParseIp, Trim, HostPart, IsLoopback;
    assert ConfiguredHosts(cfg)[0] == cfg.pgHost;
    assert AddressOf(cfg.pgHost) == Some(proxyIp);
    assert NamedBy(ConfiguredHosts(cfg), proxyIp);
  }

  /** On the proxy host, no other pair reaches a window port. */
  lemma OnlyOwnPair(db: Db, cfg: Config, protected: seq<nat>, id: ProjectId, proxyIp: nat, x: Pair, p: int)
    requires RulesSafe(db, protected) && id in db.projects && WindowIsOurs(db, cfg, id, proxyIp) && proxyIp in protected
    requires x in ProjectPairs(db, cfg, id) && Covers(x.0, proxyIp) && (x.1 == 0 || x.1 == p) && InWindow(p)
    ensures x in ProxyPairs(db.projects[id], ProxyHost(cfg))
  {
    hide RulesSafe, Covers, RulePairs, ProxyPairs, ProjectPairs, FromPlatform, Live, RulesOf;
    PairSource(db, cfg, id, x);
    if x in RulePairs(RulesOf(db, id)) {
      RulePairSafe(db, id, protected, x, proxyIp);
    } else if FromPlatform(cfg, x) {
      PlatformPortIsNamed(cfg, x);
    }
  }

  /** So on window ports the admitted pairs open the project's own listener and nothing else. */
  lemma PairsOpenOwnListener(db: Db, cfg: Config, protected: seq<nat>, id: ProjectId, proxyIp: nat, p: int)
    requires PortInvariant(db) && RulesSafe(db, protected) && Live(db, id) && NamedOnce(ConfiguredHosts(cfg), protected)
    requires ParseIp(ProxyHost(cfg)) == Some(proxyIp) && !IsLoopback(proxyIp)
    requires WindowIsOurs(db, cfg, id, proxyIp) && InWindow(p)
    ensures PairAllows(ProjectPairs(db, cfg, id), proxyIp, p) <==> !db.projects[id].mode.Off? && Holds(db, id, p)
  {
    ProxyHostIsProtected(cfg, protected, proxyIp);
    hide *;
    var ps, project := ProjectPairs(db, cfg, id), db.projects[id];
    HostBlockCovers(ProxyHost(cfg), proxyIp);
    OwnPair(project, ProxyHost(cfg), p);
    ProjectHasProxyPairs(db, cfg, id);
    if PairAllows(ps, proxyIp, p) {
      var x := AllowingPair(ps, proxyIp, p);
      OnlyOwnPair(db, cfg, protected, id, proxyIp, x, p);
      ProxyPairIs(project, ProxyHost(cfg), x);
      OwnPortIsOrdinary(db, id, x.1);
    }
    HoldsOwn(db, id, p);
    PairAllowsBy(ps, (ProxyHost(cfg) + "/32", p), proxyIp, p);
  }

  lemma PairAllowsBy(ps: set<Pair>, x: Pair, ip: nat, port: int)
    ensures x in ps && Covers(x.0, ip) && x.1 == port ==> PairAllows(ps, ip, port)
  {
  }

  lemma HoldsOwn(db: Db, id: ProjectId, p: int)
    requires Live(db, id)
    ensures Holds(db, id, p) <==> id in db.projects && db.projects[id].port == Some(p)
  {
  }

  lemma ProjectHasProxyPairs(db: Db, cfg: Config, id: ProjectId)
    requires id in db.projects
    ensures ProxyPairs(db.projects[id], ProxyHost(cfg)) <= ProjectPairs(db, cfg, id)
  {
  }

  /** In the window, the policy opens exactly the project's own listener, and only while its mode is not off. */
  lemma PolicyOpensOwnListener(db: Db, cfg: Config, protected: seq<nat>, id: ProjectId, policy: seq<EgressRule>,
      conf: seq<Line>, proxyIp: nat, p: int)
    requires Situated(db, cfg, protected, id, policy, conf, proxyIp) && InWindow(p)
    ensures PolicyAllows(policy, Dest(proxyIp, p, false, false)) <==> !db.projects[id].mode.Off? && Holds(db, id, p)
  {
    hide PolicyFor, PolicyAllows, ProjectPairs, PairAllows, CarvedOut, PortInvariant, SlugsAreText, RulesSafe,
        NamedOnce, ConfiguredHosts, ProxyInSync, PolicyInSync, ProxyHost, ParseIp, WindowIsOurs, DeployerFor;
    InSyncPairs(db, cfg, id, policy);
    PolicyMeaning(ProjectPairs(db, cfg, id), true, cfg.dnsClusterIP, Dest(proxyIp, p, false, false));
    PairsOpenOwnListener(db, cfg, protected, id, proxyIp, p);
  }

  lemma OwnPair(p: Project, proxyHost: string, port: int)
    requires ParseIp(proxyHost).Some? && InWindow(port)
    ensures (proxyHost + "/32", port) in ProxyPairs(p, proxyHost) <==> !p.mode.Off? && p.port == Some(port)
  {
    HostBlock(proxyHost);
  }

  /** A listener of an in-sync proxy file belongs to the one live project that holds its port. */
  lemma ListenerOwner(db: Db, ts: seq<Target>, p: int, name: string)
    requires PortInvariant(db) && IsTargetList(db, ts)
    ensures HttpPort(false, p, name) in Rendered(ts) <==> exists j :: Holds(db, j, p) && db.projects[j].slug == name
  {
    ListenersAreTargets(ts, false, p, name);
    hide Rendered;
    if k :| 0 <= k < |ts| && ts[k].port == p && ts[k].slug == name {
      assert SomeProjectsTarget(db, ts[k]);
      var j :| IsTargetOf(db, j, ts[k]);
      assert Holds(db, j, p) && db.projects[j].slug == name;
    }
    if j :| Holds(db, j, p) && db.projects[j].slug == name {
      var k :| 0 <= k < |ts| && IsTargetOf(db, j, ts[k]);
      assert ts[k].port == p && ts[k].slug == name;
    }
  }

  /** At its own listener a project gets exactly what its own rules say. */
  lemma OwnListenerAdmits(db: Db, ts: seq<Target>, id: ProjectId, p: int, req: Request)
    requires PortInvariant(db) && SlugsAreText(db) && IsTargetList(db, ts) && Holds(db, id, p)
    requires req.listener == db.projects[id].slug && !req.manager
    ensures Admits(Rendered(ts), req) <==> OwnRulesAllow(db.projects[id].mode, RulesOf(db, id), req.connect, req.host, req.port)
  {
    TargetListValid(db, ts);
    var k :| 0 <= k < |ts| && IsTargetOf(db, id, ts[k]);
    hide Rendered, TargetAllows, OwnRulesAllow, Safe, Admits;
    RenderedMeansAllowed(ts, req);
    TargetIsOwnRules(db, id, ts[k], req);
    assert forall j | 0 <= j < |ts| && ts[j].slug == req.listener :: j == k;
  }

  /**
   End to end: with policy and proxy file in sync, a project's pods can use the proxy for a request
   exactly when the project's mode is not off and its own rules allow it. No other project's rules,
   mode or port matter.
   */
  lemma ProxyUseIsOwnRules(db: Db, cfg: Config, protected: seq<nat>, id: ProjectId, policy: seq<EgressRule>,
      conf: seq<Line>, proxyIp: nat, connect: bool, host: string, port: int)
    requires Situated(db, cfg, protected, id, policy, conf, proxyIp)
    ensures CanUseProxy(policy, conf, proxyIp, connect, host, port) <==>
            && !db.projects[id].mode.Off? && db.projects[id].port.Some?
            && OwnRulesAllow(db.projects[id].mode, RulesOf(db, id), connect, host, port)
  {
    var ts :| IsTargetList(db, ts) && conf == Rendered(ts);
    hide PolicyAllows, Rendered, OwnRulesAllow, Admits, IsTargetList, PolicyInSync, WindowIsOurs, RulesSafe,
        NamedOnce;
    forall p, name | Through(policy, conf, proxyIp, p, name, connect, host, port)
      ensures !db.projects[id].mode.Off? && db.projects[id].port.Some?
      ensures OwnRulesAllow(db.projects[id].mode, RulesOf(db, id), connect, host, port)
    {
      ListenerOwner(db, ts, p, name);
      var j :| Holds(db, j, p) && db.projects[j].slug == name;
      PolicyOpensOwnListener(db, cfg, protected, id, policy, conf, proxyIp, p);
      assert j == id;
      OwnListenerAdmits(db, ts, id, p, Request(name, connect, host, port, false, false));
    }
    if !db.projects[id].mode.Off? && db.projects[id].port.Some?
       && OwnRulesAllow(db.projects[id].mode, RulesOf(db, id), connect, host, port) {
      var p, name := db.projects[id].port.value, db.projects[id].slug;
      assert Holds(db, id, p);
      ListenerOwner(db, ts, p, name);
      PolicyOpensOwnListener(db, cfg, protected, id, policy, conf, proxyIp, p);
      OwnListenerAdmits(db, ts, id, p, Request(name, connect, host, port, false, false));
      assert Through(policy, conf, proxyIp, p, name, connect, host, port);
    }
  }

  /** Two worlds that agree on one project's mode and rules give its pods the same use of the proxy. */
  lemma OtherProjectsDoNotMatter(db: Db, conf: seq<Line>, policy: seq<EgressRule>, db': Db, conf': seq<Line>,
      policy': seq<EgressRule>, cfg: Config, protected: seq<nat>, id: ProjectId, proxyIp: nat, connect: bool,
      host: string, port: int)
    requires Situated(db, cfg, protected, id, policy, conf, proxyIp) && Situated(db', cfg, protected, id, policy', conf', proxyIp)
    requires db.projects[id].mode == db'.projects[id].mode && RulesOf(db, id) == RulesOf(db', id)
    requires db.projects[id].port.Some? && db'.projects[id].port.Some?
    ensures CanUseProxy(policy, conf, proxyIp, connect, host, port) <==> CanUseProxy(policy', conf', proxyIp, connect, host, port)
  {
    hide *;
    ProxyUseIsOwnRules(db, cfg, protected, id, policy, conf, proxyIp, connect, host, port);
    ProxyUseIsOwnRules(db', cfg, protected, id, policy', conf', proxyIp, connect, host, port);
  }

  /** The proxy file alone does not close a project that is off: its listener still serves the listed names. */
  lemma OnlyThePolicyClosesOff(db: Db, ts: seq<Target>, id: ProjectId, p: int, connect: bool, host: string,
      port: int)
    requires PortInvariant(db) && SlugsAreText(db) && IsTargetList(db, ts) && Holds(db, id, p) && db.projects[id].mode.Off?
    ensures Admits(Rendered(ts), Request(db.projects[id].slug, connect, host, port, false, false))
            <==> Safe(Request("", connect, host, port, false, false)) && ListedRule(RulesOf(db, id), false, host)
  {
    hide Rendered, Admits;
    OwnListenerAdmits(db, ts, id, p, Request(db.projects[id].slug, connect, host, port, false, false));
  }

  // ----- a rule change pushes the policy before it allocates the listener -----

  /** That order does no harm when the project is off or already has its listener. */
  lemma AllocationKeepsPolicy(db: Db, cfg: Config, id: ProjectId)
    requires Live(db, id) && (db.projects[id].mode.Off? || db.projects[id].port.Some?)
    ensures id in EnsurePort(db, id).projects
    ensures ProjectPolicy(EnsurePort(db, id), cfg, id) == ProjectPolicy(db, cfg, id)
  {
    hide FirstFree, PolicyFor, RulePairs, Admitted, DeployerFor, ProxyHost;
    assert ProjectPairs(EnsurePort(db, id), cfg, id) == ProjectPairs(db, cfg, id);
  }

  /** Otherwise the pushed policy misses the listener just allocated. */
  lemma AllocationOutdatesPolicy(db: Db, cfg: Config, protected: seq<nat>, id: ProjectId, proxyIp: nat, p: int)
    requires PortInvariant(db) && RulesSafe(db, protected) && Live(db, id) && NamedOnce(ConfiguredHosts(cfg), protected)
    requires ParseIp(ProxyHost(cfg)) == Some(proxyIp) && !IsLoopback(proxyIp) && WindowIsOurs(db, cfg, id, proxyIp)
    requires !db.projects[id].mode.Off? && db.projects[id].port.None? && EnsurePort(db, id).projects[id].port == Some(p)
    ensures PairAllows(ProjectPairs(EnsurePort(db, id), cfg, id), proxyIp, p)
    ensures !PairAllows(ProjectPairs(db, cfg, id), proxyIp, p)
  {
    var db' := EnsurePort(db, id);
    assert db' == Perform(db, Ensure(id)) && Possible(db, Ensure(id));
    OneMoreStatement(db, Ensure(id));
    StatementStaysSafe(db, Ensure(id), protected);
    assert InWindow(p) && Holds(db', id, p) && !Holds(db, id, p) && Live(db', id);
    assert RulesOf(db', id) == RulesOf(db, id) && db'.projects[id].mode == db.projects[id].mode;
    hide EnsurePort, Perform, PortInvariant, RulesSafe, NamedOnce, ConfiguredHosts, ParseIp, ProxyHost, IsLoopback,
        PairAllows, ProjectPairs, FromPlatform, RulePairs, Covers, RulesOf;
    assert WindowIsOurs(db', cfg, id, proxyIp);
    PairsOpenOwnListener(db, cfg, protected, id, proxyIp, p);
    PairsOpenOwnListener(db', cfg, protected, id, proxyIp, p);
  }

  // ----- the hypotheses can be met -----

  /** One project's proxy target, its domains in some order. */
  ghost function TargetFor(db: Db, id: ProjectId): (t: Target)
    requires Live(db, id) && db.projects[id].port.Some?
    ensures IsTargetOf(db, id, t)
  {
    var rules := set r | r in RulesOf(db, id) && r.kind.DomainKind?;
    var listed := Listing(rules);
    var ds := seq(|listed|, i requires 0 <= i < |listed| => DomainRule(listed[i].value, listed[i].port));
    assert forall i | 0 <= i < |listed| :: listed[i] == Rule(DomainKind, ds[i].value, ds[i].port);
    assert forall d: DomainRule | Rule(DomainKind, d.value, d.port) in rules :: d in ds by {
      forall d: DomainRule | Rule(DomainKind, d.value, d.port) in rules ensures d in ds {
        var k :| 0 <= k < |listed| && listed[k] == Rule(DomainKind, d.value, d.port);
        assert ds[k] == d;
      }
    }
    Target(db.projects[id].slug, db.projects[id].port.value, db.projects[id].mode, ds)
  }

  lemma TargetsExist(db: Db) returns (ts: seq<Target>)
    requires SlugsDistinct(db)
    ensures IsTargetList(db, ts)
  {
    var order := Listing(Holders(db.projects));
    hide SlugsDistinct, IsTargetList, IsTargetOf;
    ts := seq(|order|, i requires 0 <= i < |order| => TargetFor(db, order[i]));
    TargetsAreListed(db, order, ts);
  }

  /** Any live project that is not off and holds a port can be in the situation above. */
  lemma SituationArises(db: Db, cfg: Config, protected: seq<nat>, id: ProjectId, proxyIp: nat)
    requires PortInvariant(db) && SlugsAreText(db) && RulesSafe(db, protected) && Live(db, id)
    requires !db.projects[id].mode.Off? && db.projects[id].port.Some?
    requires NamedOnce(ConfiguredHosts(cfg), protected) && DeployerFor(cfg).endpoints != []
    requires ParseIp(ProxyHost(cfg)) == Some(proxyIp) && !IsLoopback(proxyIp) && WindowIsOurs(db, cfg, id, proxyIp)
    ensures exists policy, conf :: Situated(db, cfg, protected, id, policy, conf, proxyIp)
  {
    var ts := TargetsExist(db);
    var p, ps := db.projects[id].port.value, ProjectPairs(db, cfg, id);
    assert Holds(db, id, p) && InWindow(p);
    OwnPair(db.projects[id], ProxyHost(cfg), p);
    ProjectHasProxyPairs(db, cfg, id);
    hide IsTargetList, Rendered, PortInvariant, SlugsAreText, RulesSafe, NamedOnce, WindowIsOurs, PolicyFor,
        ProjectPairs, ProxyPairs, ParseIp, ProxyHost, DeployerFor, Holds, IsLoopback, ConfiguredHosts, RulePairs,
        Admitted;
    assert (ProxyHost(cfg) + "/32", p) in ps;
    PushedPolicyIsInSync(db, cfg, id, PolicyFor(ps, true, cfg.dnsClusterIP));
    assert ProxyInSync(db, Rendered(ts));
    hide PolicyInSync, ProxyInSync;
    assert Situated(db, cfg, protected, id, PolicyFor(ps, true, cfg.dnsClusterIP), Rendered(ts), proxyIp);
  }

  // ----- deploys -----

  /** A destination nothing admits by name: outside the carve-outs, no DNS, no pod of the project. */
  ghost predicate JustInternet(pairs: set<Pair>, dnsClusterIP: string, ip: nat, port: int) {
    && IsAddr(ip) && !CarvedOut(pairs, ip) && !PairAllows(pairs, ip, port)
    && !DnsAllows(dnsClusterIP, Dest(ip, port, false, false))
  }

  /** A deploy keeps the internet closed exactly when it could read the project's rules and its mode. */
  lemma DeployClosesInternet(db: Db, cfg: Config, id: ProjectId, got: Reads, ip: nat, port: int)
    requires id in db.projects && DeployedPolicy(db, cfg, id, got).Some?
    requires JustInternet(DeployedPairs(db, cfg, id, got), cfg.dnsClusterIP, ip, port)
    ensures PolicyAllows(DeployedPolicy(db, cfg, id, got).value, Dest(ip, port, false, false)) <==> !Both(got)
  {
    hide PolicyFor, PolicyAllows, DeployedPairs, CarvedOut, PairAllows, DeployerFor;
    PolicyMeaning(DeployedPairs(db, cfg, id, got), Both(got), cfg.dnsClusterIP, Dest(ip, port, false, false));
  }

  /** With both reads a deploy writes the policy the project should have. */
  lemma DeployIsInSync(db: Db, cfg: Config, id: ProjectId, got: Reads)
    requires id in db.projects && Both(got)
    ensures DeployedPolicy(db, cfg, id, got) == ProjectPolicy(db, cfg, id)
  {
    hide PolicyFor, ProjectPairs, DeployedPairs, DeployerFor;
    ReadPairs(db, cfg, id, got);
  }

  /** What the pods keep off the proxy, as long as they have one at all. */
  lemma PodsBypassProxy(db: Db, cfg: Config, id: ProjectId, p: int, env: seq<EnvVar>, v: EnvVar)
    requires Holds(db, id, p) && ParseIp(ProxyHost(cfg)).Some?
    requires v.name == "NO_PROXY" || v.name == "no_proxy"
    ensures v in WithProxy(env, ProxyUrl(db.projects[id], ProxyHost(cfg)), NoProxy(cfg)) <==>
              && !db.projects[id].mode.Off?
              && v.value == "localhost,127.0.0.1,.svc,.cluster.local,10.0.0.0/8,172.16.0.0/12,192.168.0.0/16,."
                            + cfg.appBaseDomain
  {
    BypassNames(v.name);
    NoUrlMeansOff(db.projects[id], ProxyHost(cfg));
    hide ParseIp, ProxyHost, ProxyUrl, WithProxy, CarriesUrl, IsProxyName;
    ProxyVariablesAfter(env, ProxyUrl(db.projects[id], ProxyHost(cfg)), NoProxy(cfg), v);
  }

  lemma BypassNames(name: string)
    requires name == "NO_PROXY" || name == "no_proxy"
    ensures IsProxyName(name) && !CarriesUrl(name)
  {
    NamesDiffer();
    assert PROXY_NAMES[4] in PROXY_NAMES && PROXY_NAMES[5] in PROXY_NAMES;
    hide CarriesUrl;
  }

  lemma NoUrlMeansOff(p: Project, proxyHost: string)
    requires p.port.Some? && ParseIp(proxyHost).Some?
    ensures ProxyUrl(p, proxyHost) == "" <==> p.mode.Off?
  {
    hide ParseIp, ItoaInt;
    assert |"http://"| == 7;
  }

  /** The variables of a project's pods name its own listener on the proxy host, and none at all when it is off. */
  lemma PodsUseOwnListener(db: Db, cfg: Config, id: ProjectId, p: int, env: seq<EnvVar>, v: EnvVar)
    requires Holds(db, id, p) && ParseIp(ProxyHost(cfg)).Some?
    requires IsProxyName(v.name) && CarriesUrl(v.name)
    ensures v in WithProxy(env, ProxyUrl(db.projects[id], ProxyHost(cfg)), NoProxy(cfg))
            <==> !db.projects[id].mode.Off? && v.value == "http://" + (ProxyHost(cfg) + (":" + ItoaInt(p)))
  {
    hide ParseIp, ProxyHost, NoProxy, ItoaInt, WithProxy, CarriesUrl, IsProxyName;
    ProxyVariablesAfter(env, ProxyUrl(db.projects[id], ProxyHost(cfg)), NoProxy(cfg), v);
    assert |"http://"| == 7;
  }
}
