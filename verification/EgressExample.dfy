/**
 One small installation, worked out: every hypothesis of the egress results holds in it, so none of
 them is empty.
 */
module EgressExample {
  import opened Wrappers
  import opened Text
  import opened Ipv4
  import opened Squid
  import opened SquidMeaning
  import opened NetPolicy
  import opened EgressDb
  import opened EgressRuns
  import opened EgressRules
  import opened EgressServer
  import opened EgressSafety

  const HOST := "10.0.0.1"
  const ADDRESS := 0x0A00_0001
  const PG_HOST := HOST + ":6432"

  const CFG := Config(PG_HOST, "", "", "", "", "", "", "")

  /** A project created, given a listener and set to enforce. */
  const OPS := [Create(0, "shop"), Ensure(0), ChangeMode(0, Enforce)]

  lemma HostText()
    ensures Quad("10", "0", "0", "1") == HOST
  {
  }

  lemma HostOctets()
    ensures ParseOctet("10") == Some(10) && ParseOctet("0") == Some(0) && ParseOctet("1") == Some(1)
  {
    ShortNumber("10"); ShortNumber("0"); ShortNumber("1");
  }

  lemma HostParses()
    ensures ParseIp(HOST) == Some(ADDRESS) && !IsLoopback(ADDRESS)
  {
    HostText();
    HostOctets();
    hide ParseOctet, ParseIp, Quad;
    QuadParses("10", "0", "0", "1");
  }

  lemma PortParses()
    ensures Atoi("6432") == Some(6432)
  {
    assert "6432"[..3] == "643" && "643"[..2] == "64" && "64"[..1] == "6" && "6"[..0] == "";
    assert NatOf("6") == 6;
    assert NatOf("64") == 64;
    assert NatOf("643") == 643;
    assert NatOf("6432") == 6432;
  }

  lemma PgHostSplits()
    ensures Trim(PG_HOST) == PG_HOST && SplitHostPort(PG_HOST) == Some((HOST, "6432"))
  {
    var s := PG_HOST;
    assert |HOST| == 8 && s[8] == ':' && s[..8] == HOST && s[9..] == "6432";
    assert forall k | 0 <= k < |HOST| :: HOST[k] == '.' || IsDigit(HOST[k]);
    assert forall k | 8 < k < |s| :: IsDigit(s[k]);
    TrimFixes(s);
    LastIndexOfLast(s, 8, ':');
    assert forall k | 0 <= k < |s| :: s[k] == '.' || s[k] == ':' || IsDigit(s[k]);
  }

  lemma ProxyHostIsHost()
    ensures ProxyHost(CFG) == HOST
  {
    PgHostSplits();
    hide Trim, SplitHostPort;
  }

  lemma EndpointPorts(x: Pair)
    requires x in EndpointPairs(PG_HOST)
    ensures x.1 in {80, 443, 6432}
  {
    PgHostSplits();
    PortParses();
    hide Trim, SplitHostPort, ParseIp, Atoi;
  }

  lemma NoRegistry()
    ensures RegistryPairs("") == {}
  {
    assert SplitHostPort(Trim("")) == None;
  }

  lemma OneEndpoint(ep: string, x: Pair)
    requires x in AllEndpointPairs([ep])
    ensures x in EndpointPairs(ep)
  {
    hide EndpointPairs;
  }

  /** The one endpoint opens 80, 443 and its own port. */
  lemma PlatformPairs(x: Pair)
    requires FromPlatform(CFG, x)
    ensures x.1 in {80, 443, 6432}
  {
    OnlyEndpoint();
    NoRegistry();
    hide AllEndpointPairs, RegistryPairs, EndpointPairs, DeployerFor;
    OneEndpoint(PG_HOST, x);
    EndpointPorts(x);
  }

  lemma OnlyEndpoint()
    ensures DeployerFor(CFG).endpoints == [PG_HOST] && DeployerFor(CFG).registryHost == ""
  {
    assert PG_HOST != "";
  }

  lemma PgAddress()
    ensures AddressOf(PG_HOST) == Some(ADDRESS)
  {
    PgHostSplits();
    HostParses();
    hide Trim, SplitHostPort, ParseIp, IsLoopback;
  }

  lemma BlankAddress()
    ensures AddressOf("") == None
  {
    NoAddress();
    assert Trim("") == "";
    hide ParseIp, HostPart;
  }

  lemma NamedFrom(h: string, ip: nat)
    requires AddressOf(h) == Some(ip) && AddressOf("") == None
    ensures NamedOnce([h, "", "", "", "", ""], [ip])
  {
    hide AddressOf;
    var hosts := [h, "", "", "", "", ""];
    assert hosts[0] in hosts && forall x | x in hosts :: x == h || x == "";
    forall a: nat ensures a in [ip] <==> NamedBy(hosts, a) {}
  }

  lemma ProtectedAddresses()
    ensures NamedOnce(ConfiguredHosts(CFG), [ADDRESS])
  {
    PgAddress();
    BlankAddress();
    hide AddressOf, NamedOnce;
    NamedFrom(PG_HOST, ADDRESS);
  }

  function AfterOps(): Db { PerformAll(EMPTY, OPS) }

  /** The three statements can happen, and leave a live enforcing project on the lowest port. */
  lemma OpsHappen()
    ensures AllPossible(EMPTY, OPS)
    ensures AfterOps() == Db(map[0 := Project("shop", true, Enforce, Some(PORT_MIN))], map[])
  {
    var a := Db(map[0 := Project("shop", true, Off, None)], map[]);
    var b := Db(map[0 := Project("shop", true, Off, Some(PORT_MIN))], map[]);
    var c := Db(map[0 := Project("shop", true, Enforce, Some(PORT_MIN))], map[]);
    assert Perform(EMPTY, OPS[0]) == a;
    assert HeldPorts(a.projects) == {};
    assert Perform(a, OPS[1]) == b;
    assert Perform(b, OPS[2]) == c;
    hide Perform;
    assert OPS[1..][0] == OPS[1] && OPS[1..][1..] == OPS[2..] && OPS[2..][0] == OPS[2] && OPS[2..][1..] == [];
    assert PerformAll(c, []) == c && AllPossible(c, []);
    assert PerformAll(b, OPS[2..]) == c && AllPossible(b, OPS[2..]);
    assert PerformAll(a, OPS[1..]) == c && AllPossible(a, OPS[1..]);
  }

  lemma ShopIsText()
    ensures SlugText("shop")
  {
  }

  lemma PortsAreOrdinary()
    ensures EndpointsAvoidReserved(CFG)
    ensures forall x | FromPlatform(CFG, x) :: !InWindow(x.1)
  {
    hide FromPlatform;
    forall x | FromPlatform(CFG, x) ensures x.1 !in RESERVED && !InWindow(x.1) { PlatformPairs(x); }
  }

  lemma NothingElseInWindow(db: Db, cfg: Config, ip: nat)
    requires RulesOf(db, 0) == {} && forall x | FromPlatform(cfg, x) :: !InWindow(x.1)
    ensures WindowIsOurs(db, cfg, 0, ip)
  {
    assert RulePairs({}) == {};
    hide FromPlatform, Covers, RulePairs;
  }

  lemma AfterOpsIs()
    ensures var db := AfterOps();
            Live(db, 0) && !db.projects[0].mode.Off? && db.projects[0].port.Some? && RulesOf(db, 0) == {} && SlugsAreText(db)
  {
    OpsHappen();
    ShopIsText();
    hide PerformAll, SlugText, AfterOps;
  }

  /** The end-to-end situation exists, and so does that of the reserved ports. */
  lemma HypothesesHold()
    ensures AllPossible(EMPTY, OPS) && AllChecked(OPS, [ADDRESS]) && NamedOnce(ConfiguredHosts(CFG), [ADDRESS])
    ensures Live(AfterOps(), 0) && EndpointsAvoidReserved(CFG)
    ensures exists policy, conf :: Situated(AfterOps(), CFG, [ADDRESS], 0, policy, conf, ADDRESS)
  {
    AfterOpsIs();
    assert AfterOps() == PerformAll(EMPTY, OPS);
    OnlyEndpoint();
    hide *;
    OpsHappen();
    ProtectedAddresses();
    HostParses();
    ProxyHostIsHost();
    PortsStayDistinct(OPS);
    NoReplacements();
    RulesStaySafe(EMPTY, OPS, [ADDRESS]);
    PortsAreOrdinary();
    NothingElseInWindow(AfterOps(), CFG, ADDRESS);
    SituationArises(AfterOps(), CFG, [ADDRESS], 0, ADDRESS);
  }

  lemma NoReplacements()
    ensures AllChecked(OPS, [ADDRESS]) && RulesSafe(EMPTY, [ADDRESS])
  {
  }
}
