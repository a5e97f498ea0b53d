/**
 The per-project egress NetworkPolicy (internal/k8sdriver/deployer.go, ensureEgressPolicy): what the
 builder emits, how Kubernetes reads it, and that the two agree with the admitted destinations.

 A policy is additive: a connection is allowed if some rule names its destination and, unless the
 rule has no ports, its port.
 */
module NetPolicy {
  import opened Wrappers
  import opened Sorting
  import opened Text
  import opened Ipv4

  /** One admin-approved destination; port 0 means any port. */
  datatype EgressAllow = EgressAllow(cidr: string, port: int)

  /** The deployer's configuration, as far as egress goes. */
  datatype Deployer = Deployer(endpoints: seq<string>, registryHost: string, dnsClusterIP: string)

  datatype Peer =
    | IpBlock(cidr: string, except: seq<string>)
    | KubeDnsPods
    | OwnPods

  datatype PortSpec = Tcp(port: int) | Udp(port: int)

  datatype EgressRule = EgressRule(to: Peer, ports: seq<PortSpec>)

  /** A TCP connection's destination. */
  datatype Dest = Dest(ip: nat, port: int, kubeDns: bool, ownPod: bool)

  predicate PeerMatches(p: Peer, d: Dest) {
    match p
    case IpBlock(cidr, except) => Covers(cidr, d.ip) && forall e | e in except :: !Covers(e, d.ip)
    case KubeDnsPods => d.kubeDns
    case OwnPods => d.ownPod
  }

  predicate RuleAllows(r: EgressRule, d: Dest) {
    PeerMatches(r.to, d) && (r.ports == [] || Tcp(d.port) in r.ports)
  }

  ghost predicate PolicyAllows(rules: seq<EgressRule>, d: Dest) {
    exists r :: r in rules && RuleAllows(r, d)
  }

  // ----- what is admitted -----

  type Pair = (string, int)

  function EndpointPairs(ep: string): set<Pair> {
    var hp := SplitHostPort(Trim(ep));
    if hp.None? || ParseIp(hp.value.0).None? then {}
    else
      var port := Atoi(hp.value.1);
      if port.None? || port.value < 1 || port.value > 65535 then {}
      else {(hp.value.0 + "/32", 80), (hp.value.0 + "/32", 443), (hp.value.0 + "/32", port.value)}
  }

  /** The registry's address as a block, when it is configured as a non-loopback address. */
  function RegistryCidr(registryHost: string): Option<string> {
    var hp := SplitHostPort(Trim(registryHost));
    if hp.None? || ParseIp(hp.value.0).None? || IsLoopback(ParseIp(hp.value.0).value) then None
    else Some(hp.value.0 + "/32")
  }

  function RegistryPairs(registryHost: string): set<Pair> {
    match RegistryCidr(registryHost)
    case None => {}
    case Some(c) => {(c, 80), (c, 443)}
  }

  function ExtraPairs(e: EgressAllow): set<Pair> {
    if e.port < 0 || e.port > 65535 || ParseCidr(e.cidr).None? then {} else {(e.cidr, e.port)}
  }

  function AllEndpointPairs(eps: seq<string>): set<Pair> {
    set i, x | 0 <= i < |eps| && x in EndpointPairs(eps[i]) :: x
  }

  function AllExtraPairs(es: seq<EgressAllow>): set<Pair> {
    set i, x | 0 <= i < |es| && x in ExtraPairs(es[i]) :: x
  }

  /** Every (CIDR, port) the policy admits, port 0 meaning any. */
  function Admitted(d: Deployer, extra: seq<EgressAllow>): set<Pair> {
    AllEndpointPairs(d.endpoints) + RegistryPairs(d.registryHost) + AllExtraPairs(extra)
  }

  // ----- the nested map -----

  function Cidrs(ps: set<Pair>): set<string> { set x | x in ps :: x.0 }

  function PortsOf(ps: set<Pair>, c: string): set<int> { set x | x in ps && x.0 == c :: x.1 }

  function Grouped(ps: set<Pair>): map<string, set<int>> {
    map c | c in Cidrs(ps) :: PortsOf(ps, c)
  }

  /** addPort */
  function AddPort(allowed: map<string, set<int>>, c: string, p: int): map<string, set<int>> {
    allowed[c := (if c in allowed then allowed[c] else {}) + {p}]
  }

  lemma AddPortGroups(ps: set<Pair>, c: string, p: int)
    ensures AddPort(Grouped(ps), c, p) == Grouped(ps + {(c, p)})
  {
    var qs := ps + {(c, p)};
    assert (c, p) in qs;
    forall x ensures x in Cidrs(qs) <==> x in Cidrs(ps) || x == c {
      if x in Cidrs(ps) { var y :| y in ps && y.0 == x; assert y in qs; }
    }
    forall x | x in Cidrs(qs) ensures PortsOf(qs, x) == AddPort(Grouped(ps), c, p)[x] {
      forall q ensures q in PortsOf(qs, x) <==> q in PortsOf(ps, x) || (x == c && q == p) {
        assert q in PortsOf(qs, x) <==> (x, q) in qs;
        assert q in PortsOf(ps, x) <==> (x, q) in ps;
      }
      if x !in Cidrs(ps) {
        assert forall y | y in ps :: y.0 in Cidrs(ps);
        assert PortsOf(ps, x) == {};
      }
    }
  }

  // ----- the rules -----

  const PRIVATE := ["10.0.0.0/8", "172.16.0.0/12", "192.168.0.0/16", "169.254.0.0/16"]

  predicate IsPublicBlock(c: string) {
    ParseCidr(c).Some? && !IsPrivateOrLinkLocal(ParseCidr(c).value.addr)
  }

  function PublicBlocks(cidrs: seq<string>): seq<string> {
    if cidrs == [] then []
    else
      var last := cidrs[|cidrs| - 1];
      PublicBlocks(cidrs[..|cidrs| - 1]) + (if IsPublicBlock(last) then [last] else [])
  }

  const DNS_PORTS := [Udp(53), Tcp(53)]

  function TcpPorts(ports: seq<int>): seq<PortSpec> {
    seq(|ports|, i requires 0 <= i < |ports| => Tcp(ports[i]))
  }

  ghost function SortedCidrs(ps: set<Pair>): seq<string> { Sort(StrLe, Listing(Cidrs(ps))) }

  ghost function SortedPorts(ps: set<Pair>, c: string): seq<int> { Sort(IntLe, Listing(PortsOf(ps, c))) }

  ghost function BlockRule(ps: set<Pair>, c: string): EgressRule {
    EgressRule(IpBlock(c, []), if 0 in PortsOf(ps, c) then [] else TcpPorts(SortedPorts(ps, c)))
  }

  ghost function BlockRules(ps: set<Pair>, cidrs: seq<string>): seq<EgressRule> {
    seq(|cidrs|, i requires 0 <= i < |cidrs| => BlockRule(ps, cidrs[i]))
  }

  /** What the catch-all leaves out. */
  ghost function ExceptFor(ps: set<Pair>): seq<string> {
    Sort(StrLe, PRIVATE + PublicBlocks(SortedCidrs(ps)))
  }

  function CatchAll(except: seq<string>, enforce: bool): seq<EgressRule> {
    if enforce then [] else [EgressRule(IpBlock("0.0.0.0/0", except), [])]
  }

  function DnsRules(dnsClusterIP: string): seq<EgressRule> {
    [EgressRule(KubeDnsPods, DNS_PORTS), EgressRule(OwnPods, [])]
    + if ParseIp(dnsClusterIP).Some? then [EgressRule(IpBlock(dnsClusterIP + "/32", []), DNS_PORTS)] else []
  }

  /** The policy for a set of admitted pairs: nothing here knows an input order. */
  ghost function PolicyFor(ps: set<Pair>, enforce: bool, dnsClusterIP: string): seq<EgressRule> {
    CatchAll(ExceptFor(ps), enforce) + DnsRules(dnsClusterIP) + BlockRules(ps, SortedCidrs(ps))
  }

  // ----- the builder -----

  method CollectEndpoints(endpoints: seq<string>) returns (allowed: map<string, set<int>>)
    ensures allowed == Grouped(AllEndpointPairs(endpoints))
  {
    allowed := map[];
    ghost var ps: set<Pair> := {};
    for i := 0 to |endpoints|
      invariant ps == AllEndpointPairs(endpoints[..i]) && allowed == Grouped(ps)
    {
      AllEndpointsSnoc(endpoints, i);
      var hp := SplitHostPort(Trim(endpoints[i]));
      if hp.None? || ParseIp(hp.value.0).None? {
        continue;
      }
      var port := Atoi(hp.value.1);
      if port.None? || port.value < 1 || port.value > 65535 {
        continue;
      }
      var c := hp.value.0 + "/32";
      AddPortGroups(ps, c, 80);
      allowed := AddPort(allowed, c, 80);
      AddPortGroups(ps + {(c, 80)}, c, 443);
      allowed := AddPort(allowed, c, 443);
      AddPortGroups(ps + {(c, 80)} + {(c, 443)}, c, port.value);
      allowed := AddPort(allowed, c, port.value);
      ps := ps + {(c, 80)} + {(c, 443)} + {(c, port.value)};
    }
    assert endpoints[..|endpoints|] == endpoints;
  }

  lemma AllEndpointsSnoc(eps: seq<string>, i: nat)
    requires i < |eps|
    ensures AllEndpointPairs(eps[..i + 1]) == AllEndpointPairs(eps[..i]) + EndpointPairs(eps[i])
  {
    var a, b := AllEndpointPairs(eps[..i + 1]), AllEndpointPairs(eps[..i]);
    assert forall j | 0 <= j < i :: eps[..i + 1][j] == eps[j] && eps[..i][j] == eps[j];
    assert eps[..i + 1][i] == eps[i];
    forall x ensures x in a <==> x in b || x in EndpointPairs(eps[i]) {
      if x in b {
        var j :| 0 <= j < i && x in EndpointPairs(eps[..i][j]);
        assert x in EndpointPairs(eps[..i + 1][j]);
      }
    }
  }

  lemma NoExtras(es: seq<EgressAllow>)
    requires es == []
    ensures AllExtraPairs(es) == {}
  {
  }

  lemma AllExtrasSnoc(es: seq<EgressAllow>, i: nat)
    requires i < |es|
    ensures AllExtraPairs(es[..i + 1]) == AllExtraPairs(es[..i]) + ExtraPairs(es[i])
  {
    var a, b := AllExtraPairs(es[..i + 1]), AllExtraPairs(es[..i]);
    assert forall j | 0 <= j < i :: es[..i + 1][j] == es[j] && es[..i][j] == es[j];
    assert es[..i + 1][i] == es[i];
    forall x ensures x in a <==> x in b || x in ExtraPairs(es[i]) {
      if x in b {
        var j :| 0 <= j < i && x in ExtraPairs(es[..i][j]);
        assert x in ExtraPairs(es[..i + 1][j]);
      }
    }
  }

  lemma EndpointHasWebPorts(ep: string, x: Pair)
    requires x in EndpointPairs(ep)
    ensures (x.0, 80) in EndpointPairs(ep) && (x.0, 443) in EndpointPairs(ep)
  {
    hide ParseIp, SplitHostPort, Trim, Atoi;
  }

  /** An endpoint's host already has 80 and 443, so skipping a known registry host changes nothing. */
  lemma KnownRegistryHost(eps: seq<string>, c: string)
    requires c in Cidrs(AllEndpointPairs(eps))
    ensures (c, 80) in AllEndpointPairs(eps) && (c, 443) in AllEndpointPairs(eps)
  {
    hide EndpointPairs;
    var x :| x in AllEndpointPairs(eps) && x.0 == c;
    var i :| 0 <= i < |eps| && x in EndpointPairs(eps[i]);
    EndpointHasWebPorts(eps[i], x);
  }

  lemma WebPortsGroup(ps: set<Pair>, c: string)
    ensures AddPort(AddPort(Grouped(ps), c, 80), c, 443) == Grouped(ps + {(c, 80), (c, 443)})
  {
    AddPortGroups(ps, c, 80);
    AddPortGroups(ps + {(c, 80)}, c, 443);
    assert ps + {(c, 80)} + {(c, 443)} == ps + {(c, 80), (c, 443)};
  }

  /** What the registry adds to the endpoints' map. */
  lemma RegistryAdds(d: Deployer)
    ensures var ps, c := AllEndpointPairs(d.endpoints), RegistryCidr(d.registryHost);
            Grouped(ps + RegistryPairs(d.registryHost))
            == if c.None? || c.value in Grouped(ps) then Grouped(ps)
               else AddPort(AddPort(Grouped(ps), c.value, 80), c.value, 443)
  {
    var ps, c := AllEndpointPairs(d.endpoints), RegistryCidr(d.registryHost);
    assert Grouped(ps).Keys == Cidrs(ps);
    hide AllEndpointPairs, RegistryCidr, Grouped, AddPort, Cidrs;
    if c.Some? {
      WebPortsGroup(ps, c.value);
      if c.value in Cidrs(ps) {
        KnownRegistryHost(d.endpoints, c.value);
        NothingNew(ps, {(c.value, 80), (c.value, 443)});
      }
    } else {
      NothingNew(ps, {});
    }
  }

  lemma NothingNew(ps: set<Pair>, qs: set<Pair>)
    requires qs <= ps
    ensures ps + qs == ps
  {
  }

  /** The registry's host gets 80 and 443 unless an endpoint already named it. */
  method AddRegistry(before: map<string, set<int>>, d: Deployer) returns (allowed: map<string, set<int>>)
    requires before == Grouped(AllEndpointPairs(d.endpoints))
    ensures allowed == Grouped(AllEndpointPairs(d.endpoints) + RegistryPairs(d.registryHost))
  {
    hide AddPort, AllEndpointPairs, Grouped, RegistryPairs, RegistryCidr;
    RegistryAdds(d);
    allowed := before;
    var c := RegistryCidr(d.registryHost);
    if c.None? {
      return;
    }
    if c.value !in allowed {
      allowed := AddPort(AddPort(allowed, c.value, 80), c.value, 443);
    }
  }

  method CollectAllowed(d: Deployer, extra: seq<EgressAllow>) returns (allowed: map<string, set<int>>)
    ensures allowed == Grouped(Admitted(d, extra))
  {
    hide Grouped, AddPort, AllEndpointPairs, RegistryPairs, ParseCidr, AllExtraPairs;
    allowed := CollectEndpoints(d.endpoints);
    allowed := AddRegistry(allowed, d);
    ghost var base := AllEndpointPairs(d.endpoints) + RegistryPairs(d.registryHost);
    ghost var ps := base;
    NoExtras(extra[..0]);
    for i := 0 to |extra|
      invariant ps == base + AllExtraPairs(extra[..i]) && allowed == Grouped(ps)
    {
      AllExtrasSnoc(extra, i);
      var e := extra[i];
      if e.port < 0 || e.port > 65535 {
        continue;
      }
      if ParseCidr(e.cidr).None? {
        continue;
      }
      AddPortGroups(ps, e.cidr, e.port);
      allowed := AddPort(allowed, e.cidr, e.port);
      ps := ps + {(e.cidr, e.port)};
    }
    assert extra[..|extra|] == extra;
  }

  /** The keys of a port set in ascending order. */
  method SortedSet(ps: set<int>) returns (ports: seq<int>)
    ensures ports == Sort(IntLe, Listing(ps))
  {
    ports := Range(ps);
    hide TotalOrder, Sort;
    IntsAreOrdered();
    RangeThenSort(IntLe, ports, Listing(ps), ps);
    ports := Sort(IntLe, ports);
  }

  /** The port list of one CIDR: sorted, or empty when any port is allowed. */
  method PeerPorts(ps: set<int>) returns (specs: seq<PortSpec>)
    ensures specs == if 0 in ps then [] else TcpPorts(Sort(IntLe, Listing(ps)))
  {
    hide Sort;
    var ports := SortedSet(ps);
    if 0 in ps {
      ports := [];
    }
    specs := [];
    for i := 0 to |ports|
      invariant specs == TcpPorts(ports[..i])
    {
      specs := specs + [Tcp(ports[i])];
    }
    assert ports[..|ports|] == ports;
  }

  /** The keys of the map in sorted order. */
  method SortedKeys(allowed: map<string, set<int>>, ghost ps: set<Pair>) returns (cidrs: seq<string>)
    requires allowed == Grouped(ps)
    ensures cidrs == SortedCidrs(ps) && Enumerates(cidrs, Cidrs(ps))
  {
    cidrs := Range(allowed.Keys);
    assert allowed.Keys == Cidrs(ps);
    hide TotalOrder, Sort, StrLe, Grouped;
    StringsAreOrdered();
    RangeThenSort(StrLe, cidrs, Listing(Cidrs(ps)), Cidrs(ps));
    cidrs := Sort(StrLe, cidrs);
  }

  /** What the catch-all leaves out: the private blocks and every public block handled below. */
  method CarveOuts(cidrs: seq<string>) returns (except: seq<string>)
    ensures except == Sort(StrLe, PRIVATE + PublicBlocks(cidrs))
  {
    hide Sort, StrLe, IsPublicBlock;
    except := PRIVATE;
    for i := 0 to |cidrs|
      invariant except == PRIVATE + PublicBlocks(cidrs[..i])
    {
      assert cidrs[..i + 1][..i] == cidrs[..i];
      if IsPublicBlock(cidrs[i]) {
        except := except + [cidrs[i]];
      }
    }
    assert cidrs[..|cidrs|] == cidrs;
    except := Sort(StrLe, except);
  }

  /** The closing loop: one rule per CIDR. */
  method AppendBlocks(before: seq<EgressRule>, allowed: map<string, set<int>>, cidrs: seq<string>,
      ghost ps: set<Pair>)
    returns (rules: seq<EgressRule>)
    requires allowed == Grouped(ps) && forall c | c in cidrs :: c in Cidrs(ps)
    ensures rules == before + BlockRules(ps, cidrs)
  {
    hide Sort, IntLe, Listing, Cidrs, PortsOf;
    rules := before;
    for i := 0 to |cidrs|
      invariant rules == before + BlockRules(ps, cidrs[..i])
    {
      assert cidrs[i] in Cidrs(ps);
      var specs := PeerPorts(allowed[cidrs[i]]);
      rules := rules + [EgressRule(IpBlock(cidrs[i], []), specs)];
      assert BlockRules(ps, cidrs[..i + 1]) == BlockRules(ps, cidrs[..i]) + [BlockRule(ps, cidrs[i])];
    }
    assert cidrs[..|cidrs|] == cidrs;
  }

  lemma GroupedEmpty(ps: set<Pair>)
    ensures |Grouped(ps)| == 0 <==> ps == {}
  {
    if ps != {} {
      var x :| x in ps;
      assert x.0 in Grouped(ps).Keys;
      assert |Grouped(ps).Keys| > 0;
    } else {
      assert Cidrs(ps) == {};
    }
  }

  /** The rules before the per-CIDR ones. */
  method FixedRules(except: seq<string>, enforce: bool, dnsClusterIP: string) returns (rules: seq<EgressRule>)
    ensures rules == CatchAll(except, enforce) + DnsRules(dnsClusterIP)
  {
    hide ParseIp;
    rules := [];
    if !enforce {
      rules := rules + [EgressRule(IpBlock("0.0.0.0/0", except), [])];
    }
    rules := rules + [EgressRule(KubeDnsPods, DNS_PORTS), EgressRule(OwnPods, [])];
    if ParseIp(dnsClusterIP).Some? {
      rules := rules + [EgressRule(IpBlock(dnsClusterIP + "/32", []), DNS_PORTS)];
    }
  }

  /** None: no policy is written, because no endpoint is configured or nothing is admitted. */
  method EnsureEgressPolicy(d: Deployer, extra: seq<EgressAllow>, enforce: bool)
      returns (policy: Option<seq<EgressRule>>)
    ensures policy == if d.endpoints == [] || Admitted(d, extra) == {} then None
                      else Some(PolicyFor(Admitted(d, extra), enforce, d.dnsClusterIP))
  {
    ghost var ps := Admitted(d, extra);
    if |d.endpoints| == 0 {
      return None;
    }
    hide Admitted, Sort, ParseIp, Grouped, BlockRules, SortedCidrs, PublicBlocks, CatchAll, DnsRules;
    var allowed := CollectAllowed(d, extra);
    GroupedEmpty(ps);
    if |allowed| == 0 {
      return None;
    }
    var cidrs := SortedKeys(allowed, ps);
    var except := CarveOuts(cidrs);
    var rules := FixedRules(except, enforce, d.dnsClusterIP);
    rules := AppendBlocks(rules, allowed, cidrs, ps);
    policy := Some(rules);
  }
}
