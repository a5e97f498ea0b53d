/**
 What the emitted policy means: it allows exactly the admitted destinations, DNS and the project's
 own pods, plus, with enforce off, the internet outside the carve-outs.
 */
module NetPolicyMeaning {
  import opened Wrappers
  import opened Sorting
  import opened Text
  import opened Ipv4
  import opened NetPolicy

  /** Some admitted CIDR covers the address on that port. */
  ghost predicate PairAllows(ps: set<Pair>, ip: nat, port: int) {
    exists x :: x in ps && Covers(x.0, ip) && (x.1 == 0 || x.1 == port)
  }

  ghost function AllowingPair(ps: set<Pair>, ip: nat, port: int): (x: Pair)
    requires PairAllows(ps, ip, port)
    ensures x in ps && Covers(x.0, ip) && (x.1 == 0 || x.1 == port)
  {
    var x :| x in ps && Covers(x.0, ip) && (x.1 == 0 || x.1 == port);
    x
  }

  /** 10/8, 172.16/12, 192.168/16 and 169.254/16. */
  predicate InPrivateBlocks(ip: nat) {
    || ip / 0x100_0000 == 10
    || ip / 0x10_0000 == 172 * 16 + 1
    || ip / 0x1_0000 == 192 * 256 + 168
    || ip / 0x1_0000 == 169 * 256 + 254
  }

  ghost predicate CarvedOut(ps: set<Pair>, ip: nat) {
    || InPrivateBlocks(ip)
    || exists x :: x in ps && IsPublicBlock(x.0) && Covers(x.0, ip)
  }

  ghost predicate DnsAllows(dnsClusterIP: string, d: Dest) {
    d.port == 53 && (d.kubeDns || ParseIp(dnsClusterIP) == Some(d.ip))
  }

  lemma BlockCovers(a: string, b: string, len: string, ip: nat)
    requires ParseOctet(a).Some? && ParseOctet(b).Some?
    requires ParseNat(len).Some? && ParseNat(len).value <= 32
    ensures Covers(Quad(a, b, "0", "0") + "/" + len, ip)
            <==> Contains(Cidr((ParseOctet(a).value * 256 + ParseOctet(b).value) * 0x1_0000, ParseNat(len).value), ip)
  {
    ShortNumber("0");
    hide ParseIp, ParseCidr, Quad;
    QuadParses(a, b, "0", "0");
    BlockParses(Quad(a, b, "0", "0"), len);
  }

  lemma TenBlockText()
    ensures Quad("10", "0", "0", "0") + "/" + "8" == "10.0.0.0/8"
  {
  }

  lemma TenBlockOctets()
    ensures ParseOctet("10") == Some(10) && ParseOctet("0") == Some(0) && ParseNat("8") == Some(8)
  {
    ShortNumber("0"); ShortNumber("10"); ShortNumber("8");
  }

  lemma TenBlockNumber(ip: nat)
    ensures Contains(Cidr(2560 * 0x1_0000, 8), ip) <==> ip / 0x100_0000 == 10
  {
    Powers();
  }

  lemma TenBlock(ip: nat)
    ensures Covers("10.0.0.0/8", ip) <==> ip / 0x100_0000 == 10
  {
    hide *;
    TenBlockOctets();
    TenBlockNumber(ip);
    BlockCovers("10", "0", "8", ip);
    TenBlockText();
  }

  lemma TwelveBlockText()
    ensures Quad("172", "16", "0", "0") + "/" + "12" == "172.16.0.0/12"
  {
  }

  lemma TwelveBlockOctets()
    ensures ParseOctet("172") == Some(172) && ParseOctet("16") == Some(16) && ParseNat("12") == Some(12)
  {
    ShortNumber("16"); ShortNumber("12"); LongOctet("172");
  }

  lemma TwelveBlockNumber(ip: nat)
    ensures Contains(Cidr(44048 * 0x1_0000, 12), ip) <==> ip / 0x10_0000 == 172 * 16 + 1
  {
    Powers();
  }

  lemma TwelveBlock(ip: nat)
    ensures Covers("172.16.0.0/12", ip) <==> ip / 0x10_0000 == 172 * 16 + 1
  {
    hide *;
    TwelveBlockOctets();
    TwelveBlockNumber(ip);
    BlockCovers("172", "16", "12", ip);
    TwelveBlockText();
  }

  lemma SixteenBlockText()
    ensures Quad("192", "168", "0", "0") + "/" + "16" == "192.168.0.0/16"
  {
  }

  lemma SixteenBlockOctets()
    ensures ParseOctet("192") == Some(192) && ParseOctet("168") == Some(168) && ParseNat("16") == Some(16)
  {
    ShortNumber("16"); LongOctet("192"); LongOctet("168");
  }

  lemma SixteenBlockNumber(ip: nat)
    ensures Contains(Cidr(49320 * 0x1_0000, 16), ip) <==> ip / 0x1_0000 == 192 * 256 + 168
  {
    Powers();
  }

  lemma SixteenBlock(ip: nat)
    ensures Covers("192.168.0.0/16", ip) <==> ip / 0x1_0000 == 192 * 256 + 168
  {
    hide *;
    SixteenBlockOctets();
    SixteenBlockNumber(ip);
    BlockCovers("192", "168", "16", ip);
    SixteenBlockText();
  }

  lemma LinkLocalBlockText()
    ensures Quad("169", "254", "0", "0") + "/" + "16" == "169.254.0.0/16"
  {
  }

  lemma LinkLocalBlockOctets()
    ensures ParseOctet("169") == Some(169) && ParseOctet("254") == Some(254) && ParseNat("16") == Some(16)
  {
    ShortNumber("16"); LongOctet("169"); LongOctet("254");
  }

  lemma LinkLocalBlockNumber(ip: nat)
    ensures Contains(Cidr(43518 * 0x1_0000, 16), ip) <==> ip / 0x1_0000 == 169 * 256 + 254
  {
    Powers();
  }

  lemma LinkLocalBlock(ip: nat)
    ensures Covers("169.254.0.0/16", ip) <==> ip / 0x1_0000 == 169 * 256 + 254
  {
    hide *;
    LinkLocalBlockOctets();
    LinkLocalBlockNumber(ip);
    BlockCovers("169", "254", "16", ip);
    LinkLocalBlockText();
  }

  lemma WholeInternetText()
    ensures Quad("0", "0", "0", "0") + "/" + "0" == "0.0.0.0/0"
  {
  }

  lemma WholeInternetOctets()
    ensures ParseOctet("0") == Some(0) && ParseNat("0") == Some(0)
  {
    ShortNumber("0");
  }

  lemma WholeInternetNumber(ip: nat)
    requires IsAddr(ip)
    ensures Contains(Cidr(0 * 0x1_0000, 0), ip)
  {
    Powers();
  }

  lemma WholeInternet(ip: nat)
    requires IsAddr(ip)
    ensures Covers("0.0.0.0/0", ip)
  {
    hide *;
    WholeInternetOctets();
    WholeInternetNumber(ip);
    BlockCovers("0", "0", "0", ip);
    WholeInternetText();
  }

  lemma LoopbackBlockText()
    ensures Quad("127", "0", "0", "0") + "/" + "8" == "127.0.0.0/8"
  {
  }

  lemma LoopbackBlockOctets()
    ensures ParseOctet("127") == Some(127) && ParseOctet("0") == Some(0) && ParseNat("8") == Some(8)
  {
    ShortNumber("0"); LongOctet("127"); ShortNumber("8");
  }

  lemma LoopbackBlockNumber(ip: nat)
    ensures Contains(Cidr(32512 * 0x1_0000, 8), ip) <==> IsLoopback(ip)
  {
    Powers();
  }

  lemma LoopbackBlock(ip: nat)
    ensures Covers("127.0.0.0/8", ip) <==> IsLoopback(ip)
  {
    hide *;
    LoopbackBlockOctets();
    LoopbackBlockNumber(ip);
    BlockCovers("127", "0", "8", ip);
    LoopbackBlockText();
  }

  /** A public block: its address as written is in none of the private blocks and not a loopback one. */
  lemma PublicBlockIs(c: string)
    ensures IsPublicBlock(c) <==>
              && ParseCidr(c).Some? && !Covers("127.0.0.0/8", ParseCidr(c).value.addr)
              && forall e | e in PRIVATE :: !Covers(e, ParseCidr(c).value.addr)
  {
    if ParseCidr(c).Some? {
      PrivateTexts(ParseCidr(c).value.addr);
      LoopbackBlock(ParseCidr(c).value.addr);
    }
    hide Covers, ParseCidr;
  }

  lemma PrivateTexts(ip: nat)
    ensures (exists e :: e in PRIVATE && Covers(e, ip)) <==> InPrivateBlocks(ip)
  {
    TenBlock(ip);
    TwelveBlock(ip);
    SixteenBlock(ip);
    LinkLocalBlock(ip);
    hide Covers;
    assert PRIVATE[0] in PRIVATE && PRIVATE[1] in PRIVATE && PRIVATE[2] in PRIVATE && PRIVATE[3] in PRIVATE;
    assert forall e :: e in PRIVATE <==> e == PRIVATE[0] || e == PRIVATE[1] || e == PRIVATE[2] || e == PRIVATE[3];
  }

  lemma {:induction false} InPublicBlocks(cidrs: seq<string>, c: string)
    ensures c in PublicBlocks(cidrs) <==> c in cidrs && IsPublicBlock(c)
  {
    if cidrs != [] {
      InPublicBlocks(cidrs[..|cidrs| - 1], c);
    }
  }

  lemma SortedCidrsAre(ps: set<Pair>, c: string)
    ensures c in SortedCidrs(ps) <==> exists x :: x in ps && x.0 == c
  {
    StringsAreOrdered();
    SortKeepsElements(StrLe, Listing(Cidrs(ps)));
  }

  lemma SortedPortsAre(ps: set<Pair>, c: string, port: int)
    ensures port in SortedPorts(ps, c) <==> (c, port) in ps
  {
    IntsAreOrdered();
    SortKeepsElements(IntLe, Listing(PortsOf(ps, c)));
    assert port in PortsOf(ps, c) <==> (c, port) in ps;
  }

  /** The per-CIDR rule admits the CIDR's own ports, or any port when 0 is among them. */
  lemma ReadBlockRule(ps: set<Pair>, c: string, d: Dest)
    requires exists x :: x in ps && x.0 == c
    ensures RuleAllows(BlockRule(ps, c), d) <==> Covers(c, d.ip) && ((c, 0) in ps || (c, d.port) in ps)
  {
    var ports := SortedPorts(ps, c);
    assert 0 in PortsOf(ps, c) <==> (c, 0) in ps;
    if (c, 0) !in ps {
      var x :| x in ps && x.0 == c;
      SortedPortsAre(ps, c, x.1);
      SortedPortsAre(ps, c, d.port);
      assert TcpPorts(ports) != [];
      assert Tcp(d.port) in TcpPorts(ports) <==> d.port in ports by {
        if d.port in ports {
          var i :| 0 <= i < |ports| && ports[i] == d.port;
          assert TcpPorts(ports)[i] == Tcp(d.port);
        }
      }
    }
  }

  lemma ReadBlockRules(ps: set<Pair>, d: Dest)
    ensures PolicyAllows(BlockRules(ps, SortedCidrs(ps)), d) <==> PairAllows(ps, d.ip, d.port)
  {
    hide BlockRule, SortedCidrs, RuleAllows, Covers;
    var cs := SortedCidrs(ps);
    var rules := BlockRules(ps, cs);
    if r :| r in rules && RuleAllows(r, d) {
      var i :| 0 <= i < |cs| && r == BlockRule(ps, cs[i]);
      SortedCidrsAre(ps, cs[i]);
      ReadBlockRule(ps, cs[i], d);
    }
    if x :| x in ps && Covers(x.0, d.ip) && (x.1 == 0 || x.1 == d.port) {
      SortedCidrsAre(ps, x.0);
      ReadBlockRule(ps, x.0, d);
      var i :| 0 <= i < |cs| && cs[i] == x.0;
      assert rules[i] == BlockRule(ps, x.0);
    }
  }

  lemma InExceptFor(ps: set<Pair>, c: string)
    ensures c in ExceptFor(ps) <==> c in PRIVATE || (IsPublicBlock(c) && exists x :: x in ps && x.0 == c)
  {
    var raw := PRIVATE + PublicBlocks(SortedCidrs(ps));
    hide Sort, SortedCidrs, IsPublicBlock;
    StringsAreOrdered();
    SortKeepsElements(StrLe, raw);
    InPublicBlocks(SortedCidrs(ps), c);
    SortedCidrsAre(ps, c);
    assert c in raw <==> c in PRIVATE || c in PublicBlocks(SortedCidrs(ps));
  }

  lemma ExceptCovers(ps: set<Pair>, ip: nat)
    ensures (exists e :: e in ExceptFor(ps) && Covers(e, ip)) <==> CarvedOut(ps, ip)
  {
    PrivateTexts(ip);
    hide Covers, IsPublicBlock, InPrivateBlocks, ExceptFor;
    forall c ensures c in ExceptFor(ps) <==> c in PRIVATE || (IsPublicBlock(c) && exists x :: x in ps && x.0 == c) {
      InExceptFor(ps, c);
    }
    if x :| x in ps && IsPublicBlock(x.0) && Covers(x.0, ip) {
      assert x.0 in ExceptFor(ps);
    }
  }

  lemma ReadCatchAll(ps: set<Pair>, enforce: bool, d: Dest)
    requires IsAddr(d.ip)
    ensures PolicyAllows(CatchAll(ExceptFor(ps), enforce), d) <==> !enforce && !CarvedOut(ps, d.ip)
  {
    hide Covers, ExceptFor, CarvedOut;
    if !enforce {
      WholeInternet(d.ip);
      ExceptCovers(ps, d.ip);
      OneRule(EgressRule(IpBlock("0.0.0.0/0", ExceptFor(ps)), []), d);
    }
  }

  lemma OneRule(r: EgressRule, d: Dest)
    ensures PolicyAllows([r], d) <==> RuleAllows(r, d)
  {
  }

  lemma ReadDnsRules(dnsClusterIP: string, d: Dest)
    ensures PolicyAllows(DnsRules(dnsClusterIP), d) <==> DnsAllows(dnsClusterIP, d) || d.ownPod
  {
    var rules := DnsRules(dnsClusterIP);
    assert Tcp(d.port) in DNS_PORTS <==> d.port == 53 by { assert DNS_PORTS[1] == Tcp(53); }
    assert RuleAllows(rules[0], d) <==> d.kubeDns && d.port == 53;
    assert RuleAllows(rules[1], d) <==> d.ownPod;
    if ParseIp(dnsClusterIP).Some? {
      HostBlockCovers(dnsClusterIP, d.ip);
      assert RuleAllows(rules[2], d) <==> ParseIp(dnsClusterIP) == Some(d.ip) && d.port == 53;
      assert forall r :: r in rules <==> r == rules[0] || r == rules[1] || r == rules[2];
    } else {
      assert forall r :: r in rules <==> r == rules[0] || r == rules[1];
    }
  }

  lemma AllowsAppend(a: seq<EgressRule>, b: seq<EgressRule>, d: Dest)
    ensures PolicyAllows(a + b, d) <==> PolicyAllows(a, d) || PolicyAllows(b, d)
  {
    assert forall r :: r in a + b <==> r in a || r in b;
  }

  /** The policy's meaning, for every destination. */
  lemma PolicyMeaning(ps: set<Pair>, enforce: bool, dnsClusterIP: string, d: Dest)
    requires IsAddr(d.ip)
    ensures PolicyAllows(PolicyFor(ps, enforce, dnsClusterIP), d)
            <==> (|| PairAllows(ps, d.ip, d.port)
                  || DnsAllows(dnsClusterIP, d)
                  || d.ownPod
                  || (!enforce && !CarvedOut(ps, d.ip)))
  {
    hide CatchAll, DnsRules, BlockRules, ExceptFor, SortedCidrs;
    ReadCatchAll(ps, enforce, d);
    ReadDnsRules(dnsClusterIP, d);
    ReadBlockRules(ps, d);
    AllowsAppend(CatchAll(ExceptFor(ps), enforce), DnsRules(dnsClusterIP), d);
    AllowsAppend(CatchAll(ExceptFor(ps), enforce) + DnsRules(dnsClusterIP), BlockRules(ps, SortedCidrs(ps)), d);
  }

  /** Names can be resolved over UDP as well: port 53 of the DNS pods and the DNS address; no other is named. */
  lemma DnsOverUdp(ps: set<Pair>, enforce: bool, dnsClusterIP: string, p: Peer, port: int)
    ensures (exists r :: r in PolicyFor(ps, enforce, dnsClusterIP) && r.to == p && Udp(port) in r.ports) <==>
              port == 53 && (p.KubeDnsPods? || (ParseIp(dnsClusterIP).Some? && p == IpBlock(dnsClusterIP + "/32", [])))
  {
    var a, b, c := CatchAll(ExceptFor(ps), enforce), DnsRules(dnsClusterIP), BlockRules(ps, SortedCidrs(ps));
    hide ParseIp, SortedCidrs, SortedPorts, ExceptFor;
    assert forall r | r in a :: r.ports == [];
    forall r | r in c ensures Udp(port) !in r.ports {
      var i :| 0 <= i < |c| && c[i] == r;
    }
    assert Udp(port) in DNS_PORTS <==> port == 53 by { assert DNS_PORTS[0] == Udp(53); }
    assert b[0] == EgressRule(KubeDnsPods, DNS_PORTS) && b[1].ports == [];
    if ParseIp(dnsClusterIP).Some? {
      assert b[2] == EgressRule(IpBlock(dnsClusterIP + "/32", []), DNS_PORTS);
      assert forall r :: r in b <==> r == b[0] || r == b[1] || r == b[2];
    } else {
      assert forall r :: r in b <==> r == b[0] || r == b[1];
    }
    assert forall r :: r in PolicyFor(ps, enforce, dnsClusterIP) <==> r in a || r in b || r in c;
  }

  // ----- what the configuration's text opens -----

  /** `text` is host:port, the host an address. */
  ghost predicate NamesEndpoint(text: string, ip: nat, port: int) {
    var hp := SplitHostPort(Trim(text));
    hp.Some? && ParseIp(hp.value.0) == Some(ip) && Atoi(hp.value.1) == Some(port) && 1 <= port <= 65535
  }

  /** The endpoint names the address, and the port is the endpoint's own or one of the web's. */
  ghost predicate EndpointOpens(ep: string, ip: nat, port: int) {
    exists own :: NamesEndpoint(ep, ip, own) && (port == 80 || port == 443 || port == own)
  }

  /** The registry is host:port, the host this address and not a loopback one; its port does not matter. */
  ghost predicate RegistryOpens(registryHost: string, ip: nat, port: int) {
    var hp := SplitHostPort(Trim(registryHost));
    hp.Some? && ParseIp(hp.value.0) == Some(ip) && !IsLoopback(ip) && (port == 80 || port == 443)
  }

  /** The rule's block holds the address, and its port is this one or 0. */
  ghost predicate ExtraOpens(e: EgressAllow, ip: nat, port: int) {
    && 0 <= e.port <= 65535 && (e.port == 0 || e.port == port)
    && ParseCidr(e.cidr).Some? && InRange(ParseCidr(e.cidr).value, ip)
  }

  lemma SplitsAtPort(host: string, digits: string)
    requires host != "" && digits != "" && AllDigits(digits)
    requires forall k | 0 <= k < |host| :: host[k] == '.' || IsDigit(host[k])
    ensures Trim(host + ":" + digits) == host + ":" + digits
    ensures SplitHostPort(host + ":" + digits) == Some((host, digits))
  {
    var text := host + ":" + digits;
    assert forall k | |host| < k < |text| :: text[k] == digits[k - |host| - 1];
    assert text[|host|] == ':' && text[..|host|] == host && text[|host| + 1..] == digits;
    assert forall k | 0 <= k < |text| :: text[k] == '.' || text[k] == ':' || IsDigit(text[k]);
    LastIndexOfLast(text, |host|, ':');
    TrimFixes(text);
  }

  /** An address, a colon and a port are an endpoint. */
  lemma EndpointText(host: string, ip: nat, port: nat)
    requires ParseIp(host) == Some(ip) && 1 <= port <= 65535
    ensures NamesEndpoint(host + ":" + Itoa(port), ip, port)
  {
    ParseIpHasNoSlash(host);
    ItoaParses(port);
    AtoiItoa(port);
    AddressIsNotEmpty(host);
    hide ParseIp, Itoa, Atoi, Trim, SplitHostPort;
    SplitsAtPort(host, Itoa(port));
  }

  lemma AddressIsNotEmpty(host: string)
    requires ParseIp(host).Some?
    ensures host != ""
  {
    if host == "" { SplitSingle("", '.'); }
  }

  lemma EndpointPairOpens(ep: string, ip: nat, port: int)
    ensures PairAllows(EndpointPairs(ep), ip, port) <==> EndpointOpens(ep, ip, port)
  {
    var hp := SplitHostPort(Trim(ep));
    hide SplitHostPort, Trim, ParseIp, Atoi;
    if hp.Some? && ParseIp(hp.value.0).Some? {
      HostBlockCovers(hp.value.0, ip);
      hide Covers;
      if Atoi(hp.value.1).Some? {
        var own := Atoi(hp.value.1).value;
        var c := hp.value.0 + "/32";
        if EndpointOpens(ep, ip, port) {
          assert Covers(c, ip) && (c, port) in EndpointPairs(ep);
        }
        if PairAllows(EndpointPairs(ep), ip, port) {
          assert NamesEndpoint(ep, ip, own);
        }
      }
    }
  }

  lemma RegistryPairOpens(registryHost: string, ip: nat, port: int)
    ensures PairAllows(RegistryPairs(registryHost), ip, port) <==> RegistryOpens(registryHost, ip, port)
  {
    var hp := SplitHostPort(Trim(registryHost));
    hide SplitHostPort, Trim, ParseIp;
    if hp.Some? && ParseIp(hp.value.0).Some? {
      HostBlockCovers(hp.value.0, ip);
      hide Covers;
      var c := hp.value.0 + "/32";
      if RegistryOpens(registryHost, ip, port) {
        assert (c, port) in RegistryPairs(registryHost) && Covers(c, ip);
      }
    }
  }

  lemma ExtraPairOpens(e: EgressAllow, ip: nat, port: int)
    ensures PairAllows(ExtraPairs(e), ip, port) <==> ExtraOpens(e, ip, port)
  {
    CoversRange(e.cidr, ip);
    hide ParseCidr, Covers;
    if ExtraOpens(e, ip, port) {
      assert (e.cidr, e.port) in ExtraPairs(e);
    }
  }

  lemma AllEndpointsOpen(eps: seq<string>, ip: nat, port: int)
    ensures PairAllows(AllEndpointPairs(eps), ip, port) <==> exists ep :: ep in eps && EndpointOpens(ep, ip, port)
  {
    hide EndpointPairs, PairAllows, EndpointOpens, Covers;
    if PairAllows(AllEndpointPairs(eps), ip, port) {
      var x := AllowingPair(AllEndpointPairs(eps), ip, port);
      var i :| 0 <= i < |eps| && x in EndpointPairs(eps[i]);
      OnePairAllows(EndpointPairs(eps[i]), x, ip, port);
      EndpointPairOpens(eps[i], ip, port);
    }
    if ep :| ep in eps && EndpointOpens(ep, ip, port) {
      EndpointPairOpens(ep, ip, port);
      var x := AllowingPair(EndpointPairs(ep), ip, port);
      var i :| 0 <= i < |eps| && eps[i] == ep;
      assert x in AllEndpointPairs(eps);
      OnePairAllows(AllEndpointPairs(eps), x, ip, port);
    }
  }

  lemma AllExtrasOpen(es: seq<EgressAllow>, ip: nat, port: int)
    ensures PairAllows(AllExtraPairs(es), ip, port) <==> exists e :: e in es && ExtraOpens(e, ip, port)
  {
    hide ExtraPairs, PairAllows, ExtraOpens, Covers;
    if PairAllows(AllExtraPairs(es), ip, port) {
      var x := AllowingPair(AllExtraPairs(es), ip, port);
      var i :| 0 <= i < |es| && x in ExtraPairs(es[i]);
      OnePairAllows(ExtraPairs(es[i]), x, ip, port);
      ExtraPairOpens(es[i], ip, port);
    }
    if e :| e in es && ExtraOpens(e, ip, port) {
      ExtraPairOpens(e, ip, port);
      var x := AllowingPair(ExtraPairs(e), ip, port);
      var i :| 0 <= i < |es| && es[i] == e;
      assert x in AllExtraPairs(es);
      OnePairAllows(AllExtraPairs(es), x, ip, port);
    }
  }

  lemma OnePairAllows(ps: set<Pair>, x: Pair, ip: nat, port: int)
    requires x in ps && Covers(x.0, ip) && (x.1 == 0 || x.1 == port)
    ensures PairAllows(ps, ip, port)
  {
  }

  lemma PairAllowsUnion(a: set<Pair>, b: set<Pair>, ip: nat, port: int)
    ensures PairAllows(a + b, ip, port) <==> PairAllows(a, ip, port) || PairAllows(b, ip, port)
  {
    hide Covers;
  }

  /**
   The enforcing policy read against the configuration's text: it opens each endpoint's address on 80, 443 and the
   endpoint's own port, the registry's on 80 and 443, the range of each admin rule on its port, DNS and the project's
   own pods, and nothing else.
   */
  lemma PolicyOpens(d: Deployer, extra: seq<EgressAllow>, dest: Dest)
    requires IsAddr(dest.ip)
    ensures PolicyAllows(PolicyFor(Admitted(d, extra), true, d.dnsClusterIP), dest)
            <==> (|| (exists ep :: ep in d.endpoints && EndpointOpens(ep, dest.ip, dest.port))
                  || RegistryOpens(d.registryHost, dest.ip, dest.port)
                  || (exists e :: e in extra && ExtraOpens(e, dest.ip, dest.port))
                  || DnsAllows(d.dnsClusterIP, dest)
                  || dest.ownPod)
  {
    hide PolicyFor, PolicyAllows, PairAllows, AllEndpointPairs, RegistryPairs, AllExtraPairs, EndpointOpens,
        RegistryOpens, ExtraOpens;
    PolicyMeaning(Admitted(d, extra), true, d.dnsClusterIP, dest);
    AllEndpointsOpen(d.endpoints, dest.ip, dest.port);
    RegistryPairOpens(d.registryHost, dest.ip, dest.port);
    AllExtrasOpen(extra, dest.ip, dest.port);
    var a, b, c := AllEndpointPairs(d.endpoints), RegistryPairs(d.registryHost), AllExtraPairs(extra);
    PairAllowsUnion(a, b, dest.ip, dest.port);
    PairAllowsUnion(a + b, c, dest.ip, dest.port);
  }

  /** The order of endpoints and of rules does not reach the policy. */
  lemma AdmittedIgnoresOrder(d: Deployer, d': Deployer, es: seq<EgressAllow>, es': seq<EgressAllow>)
    requires d.registryHost == d'.registryHost
    requires forall x :: x in d.endpoints <==> x in d'.endpoints
    requires forall e :: e in es <==> e in es'
    ensures Admitted(d, es) == Admitted(d', es')
  {
    EndpointsMonotone(d.endpoints, d'.endpoints);
    EndpointsMonotone(d'.endpoints, d.endpoints);
    ExtrasMonotone(es, es');
    ExtrasMonotone(es', es);
  }

  lemma EndpointsMonotone(a: seq<string>, b: seq<string>)
    requires forall x :: x in a ==> x in b
    ensures AllEndpointPairs(a) <= AllEndpointPairs(b)
  {
    forall x | x in AllEndpointPairs(a) ensures x in AllEndpointPairs(b) {
      var i :| 0 <= i < |a| && x in EndpointPairs(a[i]);
      assert a[i] in b;
      var j :| 0 <= j < |b| && b[j] == a[i];
    }
  }

  lemma ExtrasMonotone(a: seq<EgressAllow>, b: seq<EgressAllow>)
    requires forall x :: x in a ==> x in b
    ensures AllExtraPairs(a) <= AllExtraPairs(b)
  {
    forall x | x in AllExtraPairs(a) ensures x in AllExtraPairs(b) {
      var i :| 0 <= i < |a| && x in ExtraPairs(a[i]);
      assert a[i] in b;
      var j :| 0 <= j < |b| && b[j] == a[i];
    }
  }
}
