/**
 The egress proxy configuration (internal/api/egress_proxy.go): the language it is written in,
 how squid reads it, and the renderer that writes it from the per-project allow-lists.

 A configuration is a sequence of directives; ACL names are the strings the renderer composes.
 Squid collects the values of equally named ACLs and takes the first http_access line whose
 ACLs all match; with no such line the request is allowed.
 */
module Squid {
  import opened Wrappers
  import opened Sorting

  // ----- what is rendered -----

  datatype Mode = Off | Observe | Enforce

  /** Port 0 means any port. */
  datatype DomainRule = DomainRule(value: string, port: int)

  datatype Target = Target(slug: string, port: int, mode: Mode, domains: seq<DomainRule>)

  // ----- the configuration language -----

  datatype Test =
    | Port(port: int)
    | MethodConnect
    | SrcLoopback
    | Listener(name: string)          // myportname
    | DstDomain(values: seq<string>)

  datatype Cond = Is(acl: string) | Not(acl: string)

  datatype Line =
    | Acl(name: string, test: Test)
    | HttpPort(loopback: bool, port: int, name: string)
    | Access(allow: bool, conds: seq<Cond>)
    | AnyPortMark                     // the @@ANYPORT@@ placeholder

  /** A request as squid sees it: the name of the http_port it came in on, and its target. */
  datatype Request = Request(listener: string, connect: bool, host: string, port: int, manager: bool, fromLoopback: bool)

  function LowerChar(c: char): char {
    if 'A' <= c <= 'Z' then (c as int + 32) as char else c
  }

  function Lower(s: string): (r: string)
    ensures |r| == |s|
    ensures forall i | 0 <= i < |s| :: r[i] == LowerChar(s[i])
  {
    seq(|s|, i requires 0 <= i < |s| => LowerChar(s[i]))
  }

  /** dstdomain: ".example.com" covers the name and its subdomains, "example.com" itself only. */
  predicate HostMatches(pattern: string, host: string) {
    var p, h := Lower(pattern), Lower(host);
    p == h || (p != "" && p[0] == '.' && (h == p[1..] || (|p| <= |h| && h[|h| - |p|..] == p)))
  }

  predicate TestHolds(t: Test, req: Request) {
    match t
    case Port(p) => req.port == p
    case MethodConnect => req.connect
    case SrcLoopback => req.fromLoopback
    case Listener(name) => req.listener == name
    case DstDomain(values) => exists v | v in values :: HostMatches(v, req.host)
  }

  /** `all` and `manager` are built in; any other name holds if one of its definitions does. */
  ghost predicate AclHolds(conf: seq<Line>, name: string, req: Request) {
    if name == "all" then true
    else if name == "manager" then req.manager
    else exists t :: Acl(name, t) in conf && TestHolds(t, req)
  }

  ghost predicate CondHolds(conf: seq<Line>, c: Cond, req: Request) {
    match c
    case Is(acl) => AclHolds(conf, acl, req)
    case Not(acl) => !AclHolds(conf, acl, req)
  }

  ghost predicate AllHold(conf: seq<Line>, conds: seq<Cond>, req: Request) {
    conds == [] || (CondHolds(conf, conds[0], req) && AllHold(conf, conds[1..], req))
  }

  /** The verdict of the first http_access line among `lines` that applies; ACLs are looked up in `conf`. */
  ghost function FirstMatch(conf: seq<Line>, lines: seq<Line>, req: Request): Option<bool> {
    if lines == [] then None
    else if lines[0].Access? && AllHold(conf, lines[0].conds, req) then Some(lines[0].allow)
    else FirstMatch(conf, lines[1..], req)
  }

  ghost predicate Admits(conf: seq<Line>, req: Request) {
    FirstMatch(conf, conf, req) != Some(false)
  }

  // ----- ACL names -----

  datatype Suffix = SPort | SHttps | SHttp | SAnyPort | SAny

  function SuffixText(s: Suffix): string {
    match s
    case SPort => "port"
    case SHttps => "https"
    case SHttp => "http"
    case SAnyPort => "anyport"
    case SAny => "any"
  }

  /** strings.ReplaceAll(s, "-", "_") */
  function Underscored(s: string): (r: string)
    ensures |r| == |s|
    ensures forall i | 0 <= i < |s| :: r[i] == if s[i] == '-' then '_' else s[i]
  {
    seq(|s|, i requires 0 <= i < |s| => if s[i] == '-' then '_' else s[i])
  }

  function ProjName(slug: string): string { "proj_" + Underscored(slug) }

  function AclName(slug: string, s: Suffix): string { ProjName(slug) + "_" + SuffixText(s) }

  // ----- the renderer's output -----

  datatype Class = AnyPort | Plain | Tls

  function ClassOf(d: DomainRule): Class {
    if d.port == 0 then AnyPort else if d.port == 80 then Plain else Tls
  }

  function Pick(ds: seq<DomainRule>, c: Class): seq<string> {
    if ds == [] then []
    else
      var last := ds[|ds| - 1];
      Pick(ds[..|ds| - 1], c) + (if ClassOf(last) == c then [last.value] else [])
  }

  function HeadBefore(): seq<Line> {
    [Acl("SSL_ports", Port(443)), Acl("Safe_ports", Port(80)), Acl("Safe_ports", Port(443)), Acl("CONNECT", MethodConnect)]
  }

  function HeadAfter(): seq<Line> {
    [Access(false, [Is("CONNECT"), Not("SSL_ports")]),
     Access(false, [Not("Safe_ports")]),
     Acl("localhost_src", SrcLoopback),
     Access(true, [Is("localhost_src"), Is("manager")]),
     HttpPort(true, 3128, "probe"),
     Access(false, [Is("manager")])]
  }

  function Tail(): seq<Line> { [Access(false, [Is("all")])] }

  function TlsLines(slug: string, names: seq<string>): seq<Line> {
    if names == [] then []
    else [Acl(AclName(slug, SHttps), DstDomain(names)),
          Access(true, [Is(AclName(slug, SPort)), Is("CONNECT"), Is(AclName(slug, SHttps)), Is("SSL_ports")]),
          Access(true, [Is(AclName(slug, SPort)), Is(AclName(slug, SHttps))])]
  }

  function PlainLines(slug: string, names: seq<string>): seq<Line> {
    if names == [] then []
    else [Acl(AclName(slug, SHttp), DstDomain(names)),
          Access(true, [Is(AclName(slug, SPort)), Is(AclName(slug, SHttp))])]
  }

  function ListenerLines(t: Target): seq<Line> {
    [HttpPort(false, t.port, t.slug), Acl(AclName(t.slug, SPort), Listener(t.slug))]
  }

  function Block(t: Target): seq<Line> {
    ListenerLines(t)
    + if t.mode.Observe? then [Access(true, [Is(AclName(t.slug, SPort))])]
      else TlsLines(t.slug, Sort(StrLe, Pick(t.domains, Tls))) + PlainLines(t.slug, Sort(StrLe, Pick(t.domains, Plain)))
  }

  function AnyLines(t: Target): seq<Line> {
    if !t.mode.Enforce? || Pick(t.domains, AnyPort) == [] then []
    else [Acl(AclName(t.slug, SAnyPort), Listener(t.slug)),
          Acl(AclName(t.slug, SAny), DstDomain(Sort(StrLe, Pick(t.domains, AnyPort)))),
          Access(true, [Is(AclName(t.slug, SAnyPort)), Is(AclName(t.slug, SAny))])]
  }

  function Flat(parts: seq<seq<Line>>): seq<Line> {
    if parts == [] then [] else Flat(parts[..|parts| - 1]) + parts[|parts| - 1]
  }

  function BlockList(ts: seq<Target>): seq<seq<Line>> {
    seq(|ts|, i requires 0 <= i < |ts| => Block(ts[i]))
  }

  function AnyList(ts: seq<Target>): seq<seq<Line>> {
    seq(|ts|, i requires 0 <= i < |ts| => AnyLines(ts[i]))
  }

  function Rendered(ts: seq<Target>): seq<Line> {
    HeadBefore() + Flat(AnyList(ts)) + HeadAfter() + Flat(BlockList(ts)) + Tail()
  }

  lemma FlatSnoc(parts: seq<seq<Line>>, last: seq<Line>)
    ensures Flat(parts + [last]) == Flat(parts) + last
  {
    assert (parts + [last])[..|parts|] == parts;
  }

  // ----- the renderer -----

  /** strings.Replace(b, "@@ANYPORT@@", lines, 1): the first placeholder makes way for `lines`. */
  method SpliceAnyPort(b: seq<Line>, lines: seq<Line>, ghost head: seq<Line>, ghost rest: seq<Line>)
      returns (out: seq<Line>)
    requires b == head + [AnyPortMark] + rest && AnyPortMark !in head
    ensures out == head + lines + rest
  {
    assert b[|head|] == AnyPortMark;
    assert forall k | 0 <= k < |head| :: b[k] == head[k] && b[k] in head;
    var i := 0;
    while b[i] != AnyPortMark
      invariant i <= |head|
      decreases |head| - i
    {
      i := i + 1;
    }
    out := b[..i] + lines + b[i + 1..];
  }

  /** The loop that sorts a project's domains into the 443 and the 80 list. */
  method SplitDomains(domains: seq<DomainRule>) returns (https: seq<string>, http: seq<string>)
    ensures https == Sort(StrLe, Pick(domains, Tls)) && http == Sort(StrLe, Pick(domains, Plain))
  {
    https, http := [], [];
    assert domains[..|domains|] == domains;
    for j := 0 to |domains|
      invariant https == Pick(domains[..j], Tls) && http == Pick(domains[..j], Plain)
    {
      assert domains[..j + 1][..j] == domains[..j];
      var d := domains[j];
      if d.port == 0 {
        continue;   // rendered before the port denies
      } else if d.port == 80 {
        http := http + [d.value];
      } else {
        https := https + [d.value];
      }
    }
    https := Sort(StrLe, https);
    http := Sort(StrLe, http);
  }

  /** The loop that collects a project's any-port names. */
  method AnyDomains(domains: seq<DomainRule>) returns (anyd: seq<string>)
    ensures anyd == Pick(domains, AnyPort)
  {
    anyd := [];
    assert domains[..|domains|] == domains;
    for j := 0 to |domains|
      invariant anyd == Pick(domains[..j], AnyPort)
    {
      assert domains[..j + 1][..j] == domains[..j];
      if domains[j].port == 0 {
        anyd := anyd + [domains[j].value];
      }
    }
  }

  /** One project's listener, and what may go through it. */
  method RenderTarget(t: Target) returns (b: seq<Line>)
    ensures b == Block(t)
  {
    b := [HttpPort(false, t.port, t.slug), Acl(AclName(t.slug, SPort), Listener(t.slug))];
    if t.mode.Observe? {
      b := b + [Access(true, [Is(AclName(t.slug, SPort))])];
      return;
    }
    if |t.domains| == 0 {
      return;
    }
    var https, http := SplitDomains(t.domains);
    if |https| > 0 {
      b := b + [Acl(AclName(t.slug, SHttps), DstDomain(https)),
                Access(true, [Is(AclName(t.slug, SPort)), Is("CONNECT"), Is(AclName(t.slug, SHttps)), Is("SSL_ports")]),
                Access(true, [Is(AclName(t.slug, SPort)), Is(AclName(t.slug, SHttps))])];
    }
    if |http| > 0 {
      b := b + [Acl(AclName(t.slug, SHttp), DstDomain(http)),
                Access(true, [Is(AclName(t.slug, SPort)), Is(AclName(t.slug, SHttp))])];
    }
  }

  method RenderAnyPort(targets: seq<Target>) returns (anyB: seq<Line>)
    ensures anyB == Flat(AnyList(targets))
  {
    anyB := [];
    assert targets[..|targets|] == targets;
    for i := 0 to |targets|
      invariant anyB == Flat(AnyList(targets[..i]))
    {
      var t := targets[i];
      FlatSnoc(AnyList(targets[..i]), AnyLines(t));
      assert AnyList(targets[..i + 1]) == AnyList(targets[..i]) + [AnyLines(t)];
      if !t.mode.Enforce? {
        continue;
      }
      var anyd := AnyDomains(t.domains);
      if |anyd| == 0 {
        continue;
      }
      anyB := anyB + [Acl(AclName(t.slug, SAnyPort), Listener(t.slug)),
                      Acl(AclName(t.slug, SAny), DstDomain(Sort(StrLe, anyd))),
                      Access(true, [Is(AclName(t.slug, SAnyPort)), Is(AclName(t.slug, SAny))])];
    }
  }

  lemma NoBlocks(ts: seq<Target>)
    requires ts == []
    ensures Flat(BlockList(ts)) == []
  {
  }

  /** The loop over the targets, appending to what is already written. */
  method RenderTargets(written: seq<Line>, targets: seq<Target>) returns (b: seq<Line>)
    ensures b == written + Flat(BlockList(targets))
  {
    hide Block, Flat;
    b := written;
    NoBlocks(targets[..0]);
    assert targets[..|targets|] == targets;
    for i := 0 to |targets|
      invariant b == written + Flat(BlockList(targets[..i]))
    {
      FlatSnoc(BlockList(targets[..i]), Block(targets[i]));
      assert BlockList(targets[..i + 1]) == BlockList(targets[..i]) + [Block(targets[i])];
      var block := RenderTarget(targets[i]);
      b := b + block;
    }
  }

  method RenderSquidConf(targets: seq<Target>) returns (conf: seq<Line>)
    ensures conf == Rendered(targets)
  {
    hide BlockList, AnyList;
    var b := HeadBefore() + [AnyPortMark] + HeadAfter();
    b := RenderTargets(b, targets);
    b := b + Tail();
    var anyB := RenderAnyPort(targets);
    ghost var rest := HeadAfter() + Flat(BlockList(targets)) + Tail();
    assert b == HeadBefore() + [AnyPortMark] + rest;
    conf := SpliceAnyPort(b, anyB, HeadBefore(), rest);
    assert conf == Rendered(targets);
  }
}
