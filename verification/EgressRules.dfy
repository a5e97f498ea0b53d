/**
 Validation of egress rules (internal/api/egress_rules.go): what a domain and an endpoint rule may
 look like, which addresses are the platform's own, and what may not be re-opened on them.
 */
module EgressRules {
  import opened Wrappers
  import opened Text
  import opened Ipv4
  import opened Squid
  import opened EgressDb

  datatype Fault =
    | EmptyDomain | NotJustAHostname | Wildcard | AddressAsDomain | NoDot | EmptyLabel | BadCharacter | HyphenAtEdge
    | DomainPort | EndpointPort | EmptyAddress | BadAddress | AnyPortOnPlatform | ReservedPortOnPlatform | UnknownKind

  datatype Checked<+T> = Accepted(value: T) | Rejected(why: Fault)

  // ----- domains -----

  predicate LabelChar(c: char) { 'a' <= c <= 'z' || '0' <= c <= '9' || c == '-' }

  predicate LabelOk(part: string) {
    && part != "" && part[0] != '-' && part[|part| - 1] != '-'
    && forall k | 0 <= k < |part| :: LabelChar(part[k])
  }

  /** What a domain rule is: dot-separated labels, at least two, an optional leading dot, not an address. */
  predicate IsDomain(v: string) {
    var labels := Split(TrimPrefix(v, '.'), '.');
    |labels| >= 2 && (forall l | l in labels :: LabelOk(l)) && ParseIp(TrimPrefix(v, '.')).None?
  }

  /** The characters of a label, one by one. */
  lemma LabelAlphabet(c: char)
    ensures LabelChar(c) <==> c in "abcdefghijklmnopqrstuvwxyz0123456789-"
  {
    var all := "abcdefghijklmnopqrstuvwxyz0123456789-";
    assert |all| == 37 && all[36] == '-';
    assert forall k | 0 <= k < 26 :: all[k] == ('a' as int + k) as char;
    assert forall k | 26 <= k < 36 :: all[k] == ('0' as int + (k - 26)) as char;
    if 'a' <= c <= 'z' { assert all[c as int - 'a' as int] == c; }
    if '0' <= c <= '9' { assert all[26 + c as int - '0' as int] == c; }
  }

  /** The loop over one label's characters. */
  method CheckLabel(part: string) returns (fault: Option<Fault>)
    ensures fault.None? <==> LabelOk(part)
    ensures fault.Some? ==> fault.value in {EmptyLabel, BadCharacter, HyphenAtEdge}
  {
    if part == "" {
      return Some(EmptyLabel);
    }
    for k := 0 to |part|
      invariant forall j | 0 <= j < k :: LabelChar(part[j])
    {
      if !LabelChar(part[k]) {
        return Some(BadCharacter);
      }
    }
    if part[0] == '-' || part[|part| - 1] == '-' {
      return Some(HyphenAtEdge);
    }
    fault := None;
  }

  predicate HasUrlPart(v: string) { '/' in v || ':' in v || '?' in v || ' ' in v }

  /** None accepts the (already lower-cased and trimmed) value as it is. */
  method CheckDomain(v: string) returns (fault: Option<Fault>)
    ensures fault.None? <==> IsDomain(v)
    ensures fault.Some? ==> !fault.value.UnknownKind? && !fault.value.DomainPort? && !fault.value.EndpointPort?
    ensures v == "" ==> fault == Some(EmptyDomain)
    ensures v != "" && ('/' in v || ':' in v || '?' in v || ' ' in v) <==> fault == Some(NotJustAHostname)
    ensures v != "" && !HasUrlPart(v) && '*' in v ==> fault == Some(Wildcard)
    ensures v != "" && !HasUrlPart(v) && '*' !in v && ParseIp(TrimPrefix(v, '.')).Some? ==> fault == Some(AddressAsDomain)
  {
    DomainCharacters(v);
    SplitCount(TrimPrefix(v, '.'), '.');
    if v == "" {
      return Some(EmptyDomain);
    }
    if HasUrlPart(v) {
      return Some(NotJustAHostname);
    }
    if '*' in v {
      return Some(Wildcard);
    }
    var bare := TrimPrefix(v, '.');
    if ParseIp(bare).Some? {
      return Some(AddressAsDomain);
    }
    if '.' !in bare {
      return Some(NoDot);
    }
    var labels := Split(bare, '.');
    for i := 0 to |labels|
      invariant forall j | 0 <= j < i :: LabelOk(labels[j])
    {
      fault := CheckLabel(labels[i]);
      if fault.Some? {
        assert labels[i] in labels;
        return;
      }
    }
    assert forall l | l in labels :: LabelOk(l);
    fault := None;
  }

  /** A well-formed domain has none of the characters the early checks look for. */
  lemma DomainCharacters(v: string)
    ensures IsDomain(v) ==> v != "" && !HasUrlPart(v) && '*' !in v
  {
    if IsDomain(v) {
      var bare := TrimPrefix(v, '.');
      SplitParts(bare, '.');
      forall k | 0 <= k < |bare| ensures LabelChar(bare[k]) || bare[k] == '.' {
        if bare[k] != '.' {
          var piece :| piece in Split(bare, '.') && bare[k] in piece;
          assert LabelOk(piece);
        }
      }
      hide IsDomain, Split;
      assert v == bare || v == ['.'] + bare;
      assert Split("", '.') == [""] by { SplitSingle("", '.'); }
    }
  }

  // ----- addresses -----

  /**
   One CIDR as it is written, or a bare address as the block of just that address. Anything else is refused.
   */
  function NormaliseCidr(raw: string): (r: Checked<string>)
    ensures r.Accepted? <==> ParseCidr(Trim(raw)).Some? || ParseIp(Trim(raw)).Some?
    ensures r.Accepted? && ParseCidr(Trim(raw)).Some? ==> r.value == Trim(raw)
    ensures r.Accepted? && ParseIp(Trim(raw)).Some? ==> ParseCidr(r.value) == Some(Cidr(ParseIp(Trim(raw)).value, 32))
    ensures r.Accepted? ==> ParseCidr(r.value).Some?
    ensures r.Rejected? ==> r.why == if Trim(raw) == "" then EmptyAddress else BadAddress
  {
    var c := Trim(raw);
    if c == "" then
      NoAddress();
      assert ParseCidr("").None?;
      Rejected(EmptyAddress)
    else if '/' !in c then
      assert ParseCidr(c).None? by { CidrHasSlash(c); }
      if ParseIp(c).None? then Rejected(BadAddress) else HostBlock(c); Accepted(c + "/32")
    else
      assert ParseIp(c).None? by { AddressHasNoSlash(c); }
      if ParseCidr(c).None? then Rejected(BadAddress) else Accepted(c)
  }

  lemma CidrHasSlash(c: string)
    ensures ParseCidr(c).Some? ==> '/' in c
  {
  }

  lemma AddressHasNoSlash(c: string)
    ensures ParseIp(c).Some? ==> '/' !in c
  {
    if ParseIp(c).Some? { ParseIpHasNoSlash(c); }
  }

  /** Normalising twice is normalising once. */
  lemma NormaliseCidrIdempotent(raw: string)
    requires NormaliseCidr(raw).Accepted?
    ensures NormaliseCidr(NormaliseCidr(raw).value) == NormaliseCidr(raw)
  {
    var c, r := Trim(raw), NormaliseCidr(raw).value;
    hide Trim, ParseCidr;
    TrimIdempotent(raw);
    if '/' !in c {
      ParseIpHasNoSlash(c);
      HostBlock(c);
      assert r[0] == c[0] && r[|r| - 1] == '2' && r[|c|] == '/';
      assert !IsSpace(r[0]);
      TrimFixes(r);
    }
  }

  // ----- the platform's own addresses -----

  /** The configured host names the program looks at. */
  datatype Config = Config(
    pgHost: string, redisHost: string, s3Host: string,
    registryHost: string, registryHostFromK3D: string, s3PublicEndpoint: string,
    dnsClusterIP: string,
    appBaseDomain: string)

  /** net.SplitHostPort, or the whole text when there is no port. */
  function HostPart(hp: string): string {
    if SplitHostPort(hp).Some? then SplitHostPort(hp).value.0 else hp
  }

  /** The non-loopback address a configured host names, if it names one. */
  function AddressOf(raw: string): Option<nat> {
    var ip := ParseIp(HostPart(Trim(raw)));
    if ip.Some? && !IsLoopback(ip.value) then ip else None
  }

  function ConfiguredHosts(cfg: Config): seq<string> {
    [cfg.pgHost, cfg.redisHost, cfg.s3Host, cfg.registryHost, cfg.registryHostFromK3D, cfg.s3PublicEndpoint]
  }

  ghost predicate NamedBy(raws: seq<string>, ip: nat) { exists h :: h in raws && AddressOf(h) == Some(ip) }

  /** Every address named by a host of `raws`, once. */
  ghost predicate NamedOnce(raws: seq<string>, out: seq<nat>) {
    && (forall ip: nat :: ip in out <==> NamedBy(raws, ip))
    && (forall j, k | 0 <= j < k < |out| :: out[j] != out[k])
  }

  /** One configured host: blank, a name, a loopback address, or an address to protect. */
  method AddressToProtect(raw: string) returns (ip: Option<nat>)
    ensures ip == AddressOf(raw)
  {
    var hp := Trim(raw);
    if hp == "" {
      NoAddress();
      return None;
    }
    ip := ParseIp(HostPart(hp));
    if ip.Some? && IsLoopback(ip.value) {
      ip := None;
    }
  }

  method ProtectedIPs(cfg: Config) returns (out: seq<nat>)
    ensures NamedOnce(ConfiguredHosts(cfg), out)
  {
    hide AddressOf;
    out := [];
    var raws := ConfiguredHosts(cfg);
    for i := 0 to |raws|
      invariant NamedOnce(raws[..i], out)
    {
      NamedSnoc(raws, i);
      var ip := AddressToProtect(raws[i]);
      if ip.None? || ip.value in out {
        continue;
      }
      out := out + [ip.value];
    }
    assert raws[..|raws|] == raws;
  }

  /** The host is this address, with or without a port, and it is no loopback one. */
  predicate IsAt(host: string, ip: nat) {
    ParseIp(HostPart(Trim(host))) == Some(ip) && !(0x7F00_0000 <= ip < 0x8000_0000)
  }

  lemma AddressIs(host: string, ip: nat)
    ensures AddressOf(host) == Some(ip) <==> IsAt(host, ip)
  {
    hide ParseIp, HostPart, Trim;
  }

  /** The protected addresses are those of the six configured hosts. */
  lemma ProtectedAre(cfg: Config, ips: seq<nat>, ip: nat)
    requires NamedOnce(ConfiguredHosts(cfg), ips)
    ensures ip in ips <==>
              || IsAt(cfg.pgHost, ip) || IsAt(cfg.redisHost, ip) || IsAt(cfg.s3Host, ip)
              || IsAt(cfg.registryHost, ip) || IsAt(cfg.registryHostFromK3D, ip) || IsAt(cfg.s3PublicEndpoint, ip)
  {
    forall h ensures AddressOf(h) == Some(ip) <==> IsAt(h, ip) { AddressIs(h, ip); }
    hide AddressOf, IsAt;
    var hosts := ConfiguredHosts(cfg);
    assert hosts[0] in hosts && hosts[1] in hosts && hosts[2] in hosts;
    assert hosts[3] in hosts && hosts[4] in hosts && hosts[5] in hosts;
  }

  lemma NamedSnoc(raws: seq<string>, i: nat)
    requires i < |raws|
    ensures forall ip: nat :: NamedBy(raws[..i + 1], ip) <==> NamedBy(raws[..i], ip) || AddressOf(raws[i]) == Some(ip)
  {
    hide AddressOf;
    assert raws[..i + 1] == raws[..i] + [raws[i]];
    assert forall h :: h in raws[..i + 1] <==> h in raws[..i] || h == raws[i];
  }

  lemma NoAddress()
    ensures HostPart("") == "" && ParseIp("").None?
  {
    SplitSingle("", '.');
  }

  // ----- one rule -----

  /** Unauthenticated registry, control-plane database, control-plane API, admin UI. */
  const RESERVED := {5001, 5432, 8080, 5173}

  datatype RawRule = RawRule(kind: string, value: string, port: int)

  predicate Reaches(cidr: string, ips: seq<nat>) { exists ip | ip in ips :: Covers(cidr, ip) }

  /** Some address lies in the block's range. */
  predicate RangeHits(cidr: string, ips: seq<nat>) {
    ParseCidr(cidr).Some? && exists ip | ip in ips :: InRange(ParseCidr(cidr).value, ip)
  }

  lemma ReachesIsRange(cidr: string, ips: seq<nat>)
    ensures Reaches(cidr, ips) <==> RangeHits(cidr, ips)
  {
    forall ip: nat ensures Covers(cidr, ip) <==> ParseCidr(cidr).Some? && InRange(ParseCidr(cidr).value, ip) {
      CoversRange(cidr, ip);
    }
    hide Covers, ParseCidr, InRange;
  }

  function DomainPortFor(port: int): int {
    if port == 0 then 443 else if port == -1 then 0 else port
  }

  function EndpointPortFor(port: int): int {
    if port == -1 then 0 else port
  }

  /** What may be stored: the shape of the rule, and no reserved port on a protected address. */
  ghost predicate Storable(r: Rule, protected: seq<nat>) {
    match r.kind
    case DomainKind => IsDomain(r.value) && r.port in {0, 80, 443}
    case EndpointKind =>
      && ParseCidr(r.value).Some? && 0 <= r.port <= 65535
      && (r.port == 0 || r.port in RESERVED ==> !Reaches(r.value, protected))
  }

  /** What a raw rule asks for, before any check. */
  ghost predicate AsksFor(raw: RawRule, r: Rule) {
    match r.kind
    case DomainKind => raw.kind == "domain" && r.value == Lower(Trim(raw.value)) && r.port == DomainPortFor(raw.port)
    case EndpointKind =>
      && raw.kind == "endpoint" && r.port == EndpointPortFor(raw.port)
      && NormaliseCidr(Lower(Trim(raw.value))) == Accepted(r.value)
  }

  lemma KindsDiffer()
    ensures "domain" != "endpoint"
  {
    assert "domain"[0] == 'd' && "endpoint"[0] == 'e';
  }

  /** The loops over the protected addresses. */
  method CoversAny(cidr: string, ips: seq<nat>) returns (hit: bool)
    ensures hit <==> Reaches(cidr, ips)
  {
    hit := false;
    for i := 0 to |ips|
      invariant forall j | 0 <= j < i :: !Covers(cidr, ips[j])
    {
      if Covers(cidr, ips[i]) {
        assert ips[i] in ips;
        return true;
      }
    }
  }

  /** A rule is accepted exactly when what it asks for may be stored, and then stored in canonical form. */
  method NormaliseRule(raw: RawRule, protected: seq<nat>) returns (out: Checked<Rule>)
    ensures forall r :: out == Accepted(r) <==> AsksFor(raw, r) && Storable(r, protected)
    ensures out == Rejected(UnknownKind) <==> raw.kind != "domain" && raw.kind != "endpoint"
    ensures out == Rejected(DomainPort) <==> raw.kind == "domain" && raw.port !in {-1, 0, 80, 443}
    ensures out == Rejected(EndpointPort) <==> raw.kind == "endpoint" && !(-1 <= raw.port <= 65535)
    ensures out.Accepted? && raw.kind == "domain" ==>
              out.value.port == if raw.port == 0 then 443 else if raw.port == -1 then 0 else raw.port
    ensures out.Accepted? && raw.kind == "endpoint" ==> out.value.port == if raw.port == -1 then 0 else raw.port
  {
    KindsDiffer();
    hide IsDomain, Reaches, NormaliseCidr, ParseCidr;
    var v := Lower(Trim(raw.value));
    hide Lower, Trim;
    if raw.kind == "domain" {
      var port := DomainPortFor(raw.port);
      if port != 0 && port != 80 && port != 443 {
        return Rejected(DomainPort);
      }
      var fault := CheckDomain(v);
      if fault.Some? {
        return Rejected(fault.value);
      }
      return Accepted(Rule(DomainKind, v, port));
    }
    if raw.kind != "endpoint" {
      return Rejected(UnknownKind);
    }
    out := NormaliseEndpoint(v, EndpointPortFor(raw.port), protected);
  }

  method NormaliseEndpoint(v: string, port: int, protected: seq<nat>) returns (out: Checked<Rule>)
    ensures forall r :: out == Accepted(r) <==>
              r.kind.EndpointKind? && r.port == port && NormaliseCidr(v) == Accepted(r.value) && Storable(r, protected)
    ensures out.Rejected? ==> !out.why.UnknownKind? && !out.why.DomainPort?
    ensures out == Rejected(EndpointPort) <==> port < 0 || port > 65535
    ensures out == Rejected(AnyPortOnPlatform)
            <==> port == 0 && NormaliseCidr(v).Accepted? && RangeHits(NormaliseCidr(v).value, protected)
    ensures out == Rejected(ReservedPortOnPlatform)
            <==> port in {5001, 5173, 5432, 8080} && NormaliseCidr(v).Accepted? && RangeHits(NormaliseCidr(v).value, protected)
  {
    hide Reaches, RangeHits, ParseCidr, Trim, ParseIp;
    if port < 0 || port > 65535 {
      return Rejected(EndpointPort);
    }
    var c := NormaliseCidr(v);
    if c.Rejected? {
      return Rejected(c.why);
    }
    ReachesIsRange(c.value, protected);
    if port == 0 {
      var hit := CoversAny(c.value, protected);
      if hit {
        return Rejected(AnyPortOnPlatform);
      }
    }
    if port in RESERVED {
      var hit := CoversAny(c.value, protected);
      if hit {
        return Rejected(ReservedPortOnPlatform);
      }
    }
    out := Accepted(Rule(EndpointKind, c.value, port));
  }
}
