/**
 What the rendered configuration means: read first-match by squid, it admits exactly the
 closed form below, at every listener, and one project's listener depends on that project alone.
 */
module SquidMeaning {
  import opened Wrappers
  import opened Sorting
  import opened Squid

  /** What the slug rules guarantee that matters here. */
  ghost predicate SlugText(slug: string) { '_' !in slug }

  /** The targets a database hands out: valid slugs, each once. */
  ghost predicate TargetsValid(ts: seq<Target>) {
    && (forall k | 0 <= k < |ts| :: SlugText(ts[k].slug))
    && (forall j, k | 0 <= j < k < |ts| :: ts[j].slug != ts[k].slug)
  }

  // ----- ACL names of different projects or purposes never collide -----

  lemma SplitAtLastUnderscore(a: string, x: string, b: string, y: string)
    requires a + "_" + x == b + "_" + y && '_' !in x && '_' !in y
    ensures a == b && x == y
  {
    var s, t := a + "_" + x, b + "_" + y;
    assert s[|a|] == '_' && t[|b|] == '_';
    forall i | |a| < i < |s| ensures s[i] != '_' {
      assert s[i] == x[i - |a| - 1] && s[i] in x;
    }
    forall i | |b| < i < |t| ensures t[i] != '_' {
      assert t[i] == y[i - |b| - 1] && t[i] in y;
    }
    assert |a| == |b|;
    assert a == s[..|a|] && b == t[..|b|];
    assert x == s[|a| + 1..] && y == t[|b| + 1..];
  }

  lemma UnderscoredInjective(a: string, b: string)
    requires SlugText(a) && SlugText(b) && Underscored(a) == Underscored(b)
    ensures a == b
  {
    assert |a| == |Underscored(a)| == |b|;
    forall i | 0 <= i < |a| ensures a[i] == b[i] {
      assert Underscored(a)[i] == Underscored(b)[i];
      assert a[i] in a && b[i] in b;
    }
  }

  /** The names built from a slug (ACLs here, the Postgres identifier elsewhere) determine the slug. */
  lemma ProjNameInjective(a: string, b: string)
    requires SlugText(a) && SlugText(b) && ProjName(a) == ProjName(b)
    ensures a == b
  {
    assert ProjName(a)[5..] == Underscored(a) && ProjName(b)[5..] == Underscored(b);
    UnderscoredInjective(a, b);
  }

  lemma AclNamesDiffer(a: string, x: Suffix, b: string, y: Suffix)
    requires SlugText(a) && SlugText(b) && AclName(a, x) == AclName(b, y)
    ensures a == b && x == y
  {
    assert AclName(a, x) == ProjName(a) + "_" + SuffixText(x);
    assert AclName(b, y) == ProjName(b) + "_" + SuffixText(y);
    SplitAtLastUnderscore(ProjName(a), SuffixText(x), ProjName(b), SuffixText(y));
    ProjNameInjective(a, b);
    SuffixTextsDiffer(x, y);
  }

  lemma SuffixTextsDiffer(x: Suffix, y: Suffix)
    requires SuffixText(x) == SuffixText(y)
    ensures x == y
  {
    assert SuffixText(SPort)[0] == 'p' && SuffixText(SHttp)[0] == 'h';
  }

  /** No composed name is one of the fixed ones. */
  lemma AclNameIsNotFixed(slug: string, x: Suffix)
    ensures AclName(slug, x) !in {"all", "manager", "SSL_ports", "Safe_ports", "CONNECT", "localhost_src"}
  {
    assert AclName(slug, x)[0] == 'p';
    assert "all"[0] == 'a' && "manager"[0] == 'm' && "SSL_ports"[0] == 'S';
    assert "Safe_ports"[0] == 'S' && "CONNECT"[0] == 'C' && "localhost_src"[0] == 'l';
  }

  // ----- which definitions the configuration holds -----

  lemma {:induction false} InFlat(parts: seq<seq<Line>>, line: Line)
    ensures line in Flat(parts) <==> exists k :: 0 <= k < |parts| && line in parts[k]
  {
    if parts != [] {
      InFlat(parts[..|parts| - 1], line);
    }
  }

  /** The definition the renderer gives a composed name, if any. */
  function TestFor(t: Target, x: Suffix): Option<Test> {
    match x
    case SPort => Some(Listener(t.slug))
    case SHttps =>
      if t.mode.Observe? || Sort(StrLe, Pick(t.domains, Tls)) == [] then None
      else Some(DstDomain(Sort(StrLe, Pick(t.domains, Tls))))
    case SHttp =>
      if t.mode.Observe? || Sort(StrLe, Pick(t.domains, Plain)) == [] then None
      else Some(DstDomain(Sort(StrLe, Pick(t.domains, Plain))))
    case SAnyPort =>
      if !t.mode.Enforce? || Pick(t.domains, AnyPort) == [] then None else Some(Listener(t.slug))
    case SAny =>
      if !t.mode.Enforce? || Pick(t.domains, AnyPort) == [] then None
      else Some(DstDomain(Sort(StrLe, Pick(t.domains, AnyPort))))
  }

  lemma DefinitionsOfTarget(u: Target, slug: string, x: Suffix, test: Test)
    requires SlugText(u.slug) && SlugText(slug)
    ensures (Acl(AclName(slug, x), test) in Block(u) || Acl(AclName(slug, x), test) in AnyLines(u))
            <==> slug == u.slug && TestFor(u, x) == Some(test)
  {
    var name := AclName(slug, x);
    forall y | AclName(u.slug, y) == name ensures slug == u.slug && x == y {
      AclNamesDiffer(u.slug, y, slug, x);
    }
    InDomainLines(u, name, test);
  }

  lemma InBlock(u: Target, name: string, test: Test)
    ensures Acl(name, test) in Block(u)
            <==> exists y :: y in {SPort, SHttps, SHttp} && name == AclName(u.slug, y) && TestFor(u, y) == Some(test)
  {
    var line := Acl(name, test);
    var tls, plain := Sort(StrLe, Pick(u.domains, Tls)), Sort(StrLe, Pick(u.domains, Plain));
    assert line in ListenerLines(u) <==> name == AclName(u.slug, SPort) && TestFor(u, SPort) == Some(test);
    assert line in TlsLines(u.slug, tls) <==> tls != [] && name == AclName(u.slug, SHttps) && test == DstDomain(tls);
    assert line in PlainLines(u.slug, plain) <==> plain != [] && name == AclName(u.slug, SHttp) && test == DstDomain(plain);
    hide Sort, Pick, AclName, TlsLines, PlainLines, ListenerLines;
  }

  lemma InAny(u: Target, name: string, test: Test)
    ensures Acl(name, test) in AnyLines(u)
            <==> exists y :: y in {SAnyPort, SAny} && name == AclName(u.slug, y) && TestFor(u, y) == Some(test)
  {
    hide Sort, Pick, AclName;
    var line := Acl(name, test);
    assert line in AnyLines(u) <==>
           (name == AclName(u.slug, SAnyPort) && TestFor(u, SAnyPort) == Some(test))
           || (name == AclName(u.slug, SAny) && TestFor(u, SAny) == Some(test));
  }

  /** Membership spelled out for one target's lines. */
  lemma InDomainLines(u: Target, name: string, test: Test)
    ensures (Acl(name, test) in Block(u) || Acl(name, test) in AnyLines(u))
            <==> exists y :: name == AclName(u.slug, y) && TestFor(u, y) == Some(test)
  {
    InBlock(u, name, test);
    InAny(u, name, test);
    hide *;
    if y :| name == AclName(u.slug, y) && TestFor(u, y) == Some(test) {
      assert y.SPort? || y.SHttps? || y.SHttp? || y.SAnyPort? || y.SAny?;
    }
  }

  lemma InRendered(ts: seq<Target>, line: Line)
    ensures line in Rendered(ts) <==>
            || line in HeadBefore() || line in HeadAfter() || line in Tail()
            || (exists k :: 0 <= k < |ts| && (line in Block(ts[k]) || line in AnyLines(ts[k])))
  {
    var blocks, anys := BlockList(ts), AnyList(ts);
    InFlat(blocks, line);
    InFlat(anys, line);
    assert forall k | 0 <= k < |ts| :: blocks[k] == Block(ts[k]) && anys[k] == AnyLines(ts[k]);
  }

  /** In the rendered file a composed name stands for its own target's test and nothing else. */
  lemma ComposedAcl(ts: seq<Target>, k: nat, x: Suffix, req: Request)
    requires TargetsValid(ts) && k < |ts|
    ensures AclHolds(Rendered(ts), AclName(ts[k].slug, x), req)
            <==> TestFor(ts[k], x).Some? && TestHolds(TestFor(ts[k], x).value, req)
  {
    AclNameIsNotFixed(ts[k].slug, x);
    forall t: Test ensures Acl(AclName(ts[k].slug, x), t) in Rendered(ts) <==> TestFor(ts[k], x) == Some(t) {
      ComposedDefinition(ts, k, x, t);
    }
    hide Rendered, AclName, TestFor, TestHolds;
  }

  lemma ComposedDefinition(ts: seq<Target>, k: nat, x: Suffix, t: Test)
    requires TargetsValid(ts) && k < |ts|
    ensures Acl(AclName(ts[k].slug, x), t) in Rendered(ts) <==> TestFor(ts[k], x) == Some(t)
  {
    var name := AclName(ts[k].slug, x);
    AclNameIsNotFixed(ts[k].slug, x);
    InRendered(ts, Acl(name, t));
    InHeads(name, t);
    hide Rendered, HeadBefore, HeadAfter, AclName, TestFor, Block, AnyLines;
    forall j | 0 <= j < |ts|
      ensures (Acl(name, t) in Block(ts[j]) || Acl(name, t) in AnyLines(ts[j])) <==> j == k && TestFor(ts[k], x) == Some(t)
    {
      DefinitionsOfTarget(ts[j], ts[k].slug, x, t);
    }
  }

  /** The definitions of the fixed ACLs. */
  function FixedTests(name: string): set<Test> {
    if name == "SSL_ports" then {Port(443)}
    else if name == "Safe_ports" then {Port(80), Port(443)}
    else if name == "CONNECT" then {MethodConnect}
    else if name == "localhost_src" then {SrcLoopback}
    else {}
  }

  const FIXED := {"SSL_ports", "Safe_ports", "CONNECT", "localhost_src"}

  lemma FixedNamesDiffer()
    ensures "SSL_ports" != "Safe_ports" && "SSL_ports" != "CONNECT" && "Safe_ports" != "CONNECT"
    ensures "localhost_src" != "SSL_ports" && "localhost_src" != "Safe_ports" && "localhost_src" != "CONNECT"
    ensures "all" !in FIXED && "manager" !in FIXED
  {
    assert "SSL_ports"[1] == 'S' && "Safe_ports"[1] == 'a' && "CONNECT"[0] == 'C' && "localhost_src"[0] == 'l';
    assert "all"[0] == 'a' && "manager"[0] == 'm' && "SSL_ports"[0] == 'S' && "Safe_ports"[0] == 'S';
  }

  lemma InHeads(name: string, t: Test)
    ensures Acl(name, t) in HeadBefore() || Acl(name, t) in HeadAfter() <==> t in FixedTests(name)
  {
    var h := HeadBefore();
    assert Acl(name, t) in h <==> Acl(name, t) == h[0] || Acl(name, t) == h[1] || Acl(name, t) == h[2] || Acl(name, t) == h[3];
    assert Acl(name, t) in HeadAfter() <==> Acl(name, t) == HeadAfter()[2];
    FixedNamesDiffer();
  }

  lemma NotOfTarget(u: Target, name: string, t: Test)
    requires name in FIXED
    ensures Acl(name, t) !in Block(u) && Acl(name, t) !in AnyLines(u)
  {
    InDomainLines(u, name, t);
    forall y ensures name != AclName(u.slug, y) { AclNameIsNotFixed(u.slug, y); }
  }

  lemma FixedDefinitions(ts: seq<Target>, name: string, t: Test)
    requires name in FIXED
    ensures Acl(name, t) in Rendered(ts) <==> t in FixedTests(name)
  {
    InRendered(ts, Acl(name, t));
    forall j | 0 <= j < |ts| ensures Acl(name, t) !in Block(ts[j]) && Acl(name, t) !in AnyLines(ts[j]) {
      NotOfTarget(ts[j], name, t);
    }
    InHeads(name, t);
  }

  /** An ACL whose definitions in the file are exactly `tests`. */
  lemma DefinedBy(conf: seq<Line>, name: string, tests: set<Test>, req: Request)
    requires name != "all" && name != "manager"
    requires forall t :: Acl(name, t) in conf <==> t in tests
    ensures AclHolds(conf, name, req) <==> exists t :: t in tests && TestHolds(t, req)
  {
  }

  lemma FixedAcl(ts: seq<Target>, name: string, req: Request)
    requires name in FIXED
    ensures AclHolds(Rendered(ts), name, req) <==> exists t :: t in FixedTests(name) && TestHolds(t, req)
  {
    forall t ensures Acl(name, t) in Rendered(ts) <==> t in FixedTests(name) { FixedDefinitions(ts, name, t); }
    FixedNamesDiffer();
    DefinedBy(Rendered(ts), name, FixedTests(name), req);
  }

  lemma FixedAcls(ts: seq<Target>, req: Request)
    ensures AclHolds(Rendered(ts), "SSL_ports", req) <==> req.port == 443
    ensures AclHolds(Rendered(ts), "Safe_ports", req) <==> req.port == 80 || req.port == 443
    ensures AclHolds(Rendered(ts), "CONNECT", req) <==> req.connect
    ensures AclHolds(Rendered(ts), "localhost_src", req) <==> req.fromLoopback
  {
    FixedAcl(ts, "SSL_ports", req);
    FixedAcl(ts, "Safe_ports", req);
    FixedAcl(ts, "CONNECT", req);
    FixedAcl(ts, "localhost_src", req);
    FixedNamesDiffer();
    assert Port(443) in FixedTests("SSL_ports");
    assert Port(80) in FixedTests("Safe_ports") && Port(443) in FixedTests("Safe_ports");
    assert MethodConnect in FixedTests("CONNECT") && SrcLoopback in FixedTests("localhost_src");
  }

  // ----- reading the file first-match -----

  lemma {:induction false} FirstMatchAppend(conf: seq<Line>, a: seq<Line>, b: seq<Line>, req: Request)
    ensures FirstMatch(conf, a + b, req) ==
            if FirstMatch(conf, a, req).Some? then FirstMatch(conf, a, req) else FirstMatch(conf, b, req)
  {
    if a == [] {
      assert a + b == b;
    } else {
      FirstMatchAppend(conf, a[1..], b, req);
      assert (a + b)[1..] == a[1..] + b;
    }
  }

  /** If only part k can decide, the whole decides like part k. */
  lemma {:induction false} FirstMatchFlat(conf: seq<Line>, parts: seq<seq<Line>>, k: int, req: Request)
    requires forall j | 0 <= j < |parts| && j != k :: FirstMatch(conf, parts[j], req).None?
    ensures FirstMatch(conf, Flat(parts), req) == if 0 <= k < |parts| then FirstMatch(conf, parts[k], req) else None
  {
    if parts != [] {
      var last := |parts| - 1;
      FirstMatchFlat(conf, parts[..last], k, req);
      FirstMatchAppend(conf, Flat(parts[..last]), parts[last], req);
    }
  }

  lemma SkipsAcl(conf: seq<Line>, line: Line, rest: seq<Line>, req: Request)
    ensures !line.Access? ==> FirstMatch(conf, [line] + rest, req) == FirstMatch(conf, rest, req)
    ensures line.Access? ==>
              FirstMatch(conf, [line] + rest, req) ==
              if AllHold(conf, line.conds, req) then Some(line.allow) else FirstMatch(conf, rest, req)
  {
    assert ([line] + rest)[1..] == rest;
  }

  /** One http_access line on its own. */
  lemma OneLine(conf: seq<Line>, line: Line, req: Request)
    requires line.Access?
    ensures FirstMatch(conf, [line], req) == if AllHold(conf, line.conds, req) then Some(line.allow) else None
  {
    SkipsAcl(conf, line, [], req);
    assert [line] + [] == [line];
  }

  lemma {:induction false} AllHoldEach(conf: seq<Line>, conds: seq<Cond>, req: Request)
    ensures AllHold(conf, conds, req) <==> forall k | 0 <= k < |conds| :: CondHolds(conf, conds[k], req)
  {
    if conds != [] {
      AllHoldEach(conf, conds[1..], req);
      assert forall k | 1 <= k < |conds| :: conds[k] == conds[1..][k - 1];
    }
  }

  /** Two ACLs on one line. */
  lemma BothHold(conf: seq<Line>, a: Cond, b: Cond, req: Request)
    ensures AllHold(conf, [a, b], req) <==> CondHolds(conf, a, req) && CondHolds(conf, b, req)
  {
    AllHoldEach(conf, [a, b], req);
    assert [a, b][0] == a && [a, b][1] == b;
  }

  // ----- the closed form -----

  /** 80 or 443, and CONNECT only to 443. */
  /** Capital letters and their small ones, one by one; nothing else changes. */
  lemma LettersLower(c: char)
    ensures c !in "ABCDEFGHIJKLMNOPQRSTUVWXYZ" ==> LowerChar(c) == c
    ensures forall k | 0 <= k < 26 && c == "ABCDEFGHIJKLMNOPQRSTUVWXYZ"[k] :: LowerChar(c) == "abcdefghijklmnopqrstuvwxyz"[k]
  {
    var upper, lower := "ABCDEFGHIJKLMNOPQRSTUVWXYZ", "abcdefghijklmnopqrstuvwxyz";
    assert |upper| == 26 && |lower| == 26;
    assert forall k | 0 <= k < 26 :: upper[k] == ('A' as int + k) as char && lower[k] == ('a' as int + k) as char;
    if 'A' <= c <= 'Z' { assert upper[c as int - 'A' as int] == c; }
  }

  /** A name matches itself, whatever the case; with a dot in front it also matches every name that ends in it. */
  lemma DomainPatternMeans(name: string, host: string)
    ensures (name == "" || name[0] != '.') ==> (HostMatches(name, host) <==> Lower(host) == Lower(name))
    ensures HostMatches("." + name, host) <==>
              || Lower(host) == Lower(name)
              || exists front :: Lower(host) == front + ("." + Lower(name))
  {
    DottedLower(name);
    if name == "" || name[0] != '.' { FirstStaysPlain(name); }
    EndsIn(Lower(name), Lower(host));
    hide Lower;
  }

  lemma DottedLower(name: string)
    ensures Lower("." + name) == "." + Lower(name)
  {
    assert LowerChar('.') == '.';
  }

  lemma FirstStaysPlain(name: string)
    requires name == "" || name[0] != '.'
    ensures Lower(name) == "" || Lower(name)[0] != '.'
  {
  }

  lemma EndsIn(q: string, h: string)
    ensures (exists front :: h == front + ("." + q)) <==> |q| < |h| && h[|h| - |"." + q|..] == "." + q
    ensures h == "." + q ==> exists front :: h == front + ("." + q)
  {
    var p := "." + q;
    if front :| h == front + p {
      assert h[|h| - |p|..] == p;
    }
    if |p| <= |h| && h[|h| - |p|..] == p {
      assert h == h[..|h| - |p|] + p;
    }
    if h == p {
      assert h == "" + p;
    }
  }

  predicate Safe(req: Request) {
    (req.port == 80 || req.port == 443) && (req.connect ==> req.port == 443)
  }

  ghost predicate Listed(ds: seq<DomainRule>, anyPort: bool, host: string) {
    exists d :: d in ds && (d.port == 0 <==> anyPort) && HostMatches(d.value, host)
  }

  /** What a project's own mode and domain list let through its listener. */
  ghost predicate TargetAllows(t: Target, req: Request) {
    || (t.mode.Enforce? && Listed(t.domains, true, req.host))
    || (Safe(req) && !req.manager && (t.mode.Observe? || Listed(t.domains, false, req.host)))
  }

  ghost predicate Allowed(ts: seq<Target>, req: Request) {
    || (Safe(req) && req.manager && req.fromLoopback)
    || exists k :: 0 <= k < |ts| && ts[k].slug == req.listener && TargetAllows(ts[k], req)
  }

  lemma {:induction false} PickHas(ds: seq<DomainRule>, c: Class, v: string)
    ensures v in Pick(ds, c) <==> exists d :: d in ds && ClassOf(d) == c && d.value == v
  {
    if ds != [] {
      var front, last := ds[..|ds| - 1], ds[|ds| - 1];
      PickHas(front, c, v);
      assert forall d :: d in ds <==> d in front || d == last;
    }
  }

  /** A sorted pick as a dstdomain list. */
  ghost predicate PickMatches(ds: seq<DomainRule>, c: Class, host: string) {
    exists d :: d in ds && ClassOf(d) == c && HostMatches(d.value, host)
  }

  lemma SortedPick(ds: seq<DomainRule>, c: Class, req: Request)
    ensures TestHolds(DstDomain(Sort(StrLe, Pick(ds, c))), req) <==> PickMatches(ds, c, req.host)
    ensures Sort(StrLe, Pick(ds, c)) == [] <==> Pick(ds, c) == []
    ensures Pick(ds, c) == [] ==> !PickMatches(ds, c, req.host)
  {
    StringsAreOrdered();
    SortKeepsElements(StrLe, Pick(ds, c));
    forall v { PickHas(ds, c, v); }
  }

  lemma ListedByClass(ds: seq<DomainRule>, host: string)
    ensures Listed(ds, true, host) <==> PickMatches(ds, AnyPort, host)
    ensures Listed(ds, false, host) <==> PickMatches(ds, Tls, host) || PickMatches(ds, Plain, host)
  {
  }

  // ----- one target's lines, read in the whole file -----

  /** The ACL facts one target's lines are read with. */
  ghost predicate Env(conf: seq<Line>, t: Target, req: Request) {
    && (AclHolds(conf, "SSL_ports", req) <==> req.port == 443)
    && (AclHolds(conf, "CONNECT", req) <==> req.connect)
    && (forall x :: AclHolds(conf, AclName(t.slug, x), req)
                    <==> TestFor(t, x).Some? && TestHolds(TestFor(t, x).value, req))
  }

  lemma EnvHolds(ts: seq<Target>, k: nat, req: Request)
    requires TargetsValid(ts) && k < |ts|
    ensures Env(Rendered(ts), ts[k], req)
  {
    hide Rendered;
    FixedAcls(ts, req);
    forall x { ComposedAcl(ts, k, x, req); }
  }

  lemma ReadTls(conf: seq<Line>, t: Target, req: Request)
    requires Env(conf, t, req) && !t.mode.Observe?
    ensures FirstMatch(conf, TlsLines(t.slug, Sort(StrLe, Pick(t.domains, Tls))), req)
            == if req.listener == t.slug && PickMatches(t.domains, Tls, req.host) then Some(true) else None
  {
    var names := Sort(StrLe, Pick(t.domains, Tls));
    SortedPick(t.domains, Tls, req);
    if names != [] {
      var lines := TlsLines(t.slug, names);
      assert AclHolds(conf, AclName(t.slug, SPort), req) <==> req.listener == t.slug;
      assert AclHolds(conf, AclName(t.slug, SHttps), req) <==> PickMatches(t.domains, Tls, req.host);
      BothHold(conf, Is(AclName(t.slug, SPort)), Is(AclName(t.slug, SHttps)), req);
      AllHoldEach(conf, lines[1].conds, req);
      assert lines[1].conds[0] == Is(AclName(t.slug, SPort)) && lines[1].conds[2] == Is(AclName(t.slug, SHttps));
      OneLine(conf, lines[2], req);
      SkipsAcl(conf, lines[1], [lines[2]], req);
      SkipsAcl(conf, lines[0], [lines[1]] + [lines[2]], req);
      assert lines == [lines[0]] + ([lines[1]] + [lines[2]]);
    }
  }

  lemma ReadPlain(conf: seq<Line>, t: Target, req: Request)
    requires Env(conf, t, req) && !t.mode.Observe?
    ensures FirstMatch(conf, PlainLines(t.slug, Sort(StrLe, Pick(t.domains, Plain))), req)
            == if req.listener == t.slug && PickMatches(t.domains, Plain, req.host) then Some(true) else None
  {
    var names := Sort(StrLe, Pick(t.domains, Plain));
    SortedPick(t.domains, Plain, req);
    if names != [] {
      var lines := PlainLines(t.slug, names);
      assert AclHolds(conf, AclName(t.slug, SPort), req) <==> req.listener == t.slug;
      assert AclHolds(conf, AclName(t.slug, SHttp), req) <==> PickMatches(t.domains, Plain, req.host);
      BothHold(conf, Is(AclName(t.slug, SPort)), Is(AclName(t.slug, SHttp)), req);
      OneLine(conf, lines[1], req);
      SkipsAcl(conf, lines[0], [lines[1]], req);
      assert lines == [lines[0]] + [lines[1]];
    }
  }

  lemma ReadBlock(conf: seq<Line>, t: Target, req: Request)
    requires Env(conf, t, req)
    ensures FirstMatch(conf, Block(t), req)
            == if req.listener == t.slug && (t.mode.Observe? || Listed(t.domains, false, req.host)) then Some(true) else None
  {
    hide TlsLines, PlainLines;
    var head := ListenerLines(t);
    var body := if t.mode.Observe? then [Access(true, [Is(AclName(t.slug, SPort))])]
                else TlsLines(t.slug, Sort(StrLe, Pick(t.domains, Tls))) + PlainLines(t.slug, Sort(StrLe, Pick(t.domains, Plain)));
    SkipsAcl(conf, head[1], body, req);
    SkipsAcl(conf, head[0], [head[1]] + body, req);
    assert Block(t) == [head[0]] + ([head[1]] + body);
    assert AclHolds(conf, AclName(t.slug, SPort), req) <==> req.listener == t.slug;
    if t.mode.Observe? {
      OneLine(conf, body[0], req);
    } else {
      ReadTls(conf, t, req);
      ReadPlain(conf, t, req);
      FirstMatchAppend(conf, TlsLines(t.slug, Sort(StrLe, Pick(t.domains, Tls))),
                       PlainLines(t.slug, Sort(StrLe, Pick(t.domains, Plain))), req);
      ListedByClass(t.domains, req.host);
    }
  }

  lemma ReadAny(conf: seq<Line>, t: Target, req: Request)
    requires Env(conf, t, req)
    ensures FirstMatch(conf, AnyLines(t), req)
            == if req.listener == t.slug && t.mode.Enforce? && Listed(t.domains, true, req.host) then Some(true) else None
  {
    SortedPick(t.domains, AnyPort, req);
    ListedByClass(t.domains, req.host);
    if t.mode.Enforce? && Pick(t.domains, AnyPort) != [] {
      var lines := AnyLines(t);
      assert AclHolds(conf, AclName(t.slug, SAnyPort), req) <==> req.listener == t.slug;
      assert AclHolds(conf, AclName(t.slug, SAny), req) <==> PickMatches(t.domains, AnyPort, req.host);
      BothHold(conf, Is(AclName(t.slug, SAnyPort)), Is(AclName(t.slug, SAny)), req);
      OneLine(conf, lines[2], req);
      SkipsAcl(conf, lines[1], [lines[2]], req);
      SkipsAcl(conf, lines[0], [lines[1]] + [lines[2]], req);
      assert lines == [lines[0]] + ([lines[1]] + [lines[2]]);
    }
  }

  // ----- the fixed part -----

  /** The header denies unsafe ports, then settles manager requests; it never decides anything else. */
  lemma ReadHead(ts: seq<Target>, req: Request)
    ensures FirstMatch(Rendered(ts), HeadBefore(), req).None?
    ensures FirstMatch(Rendered(ts), HeadAfter(), req)
            == if !Safe(req) then Some(false)
               else if req.manager then Some(req.fromLoopback) else None
  {
    hide Rendered;
    FixedAcls(ts, req);
    var conf := Rendered(ts);
    var b := HeadBefore();
    SkipsAcl(conf, b[3], [], req);
    SkipsAcl(conf, b[2], [b[3]], req);
    SkipsAcl(conf, b[1], [b[2], b[3]], req);
    SkipsAcl(conf, b[0], [b[1], b[2], b[3]], req);
    assert [b[3]] + [] == [b[3]] && [b[2]] + [b[3]] == [b[2], b[3]] && [b[1]] + [b[2], b[3]] == [b[1], b[2], b[3]];
    assert b == [b[0]] + [b[1], b[2], b[3]];
    ReadHeadAfter(conf, req);
  }

  lemma ReadHeadAfter(conf: seq<Line>, req: Request)
    requires AclHolds(conf, "SSL_ports", req) <==> req.port == 443
    requires AclHolds(conf, "Safe_ports", req) <==> req.port == 80 || req.port == 443
    requires AclHolds(conf, "CONNECT", req) <==> req.connect
    requires AclHolds(conf, "localhost_src", req) <==> req.fromLoopback
    ensures FirstMatch(conf, HeadAfter(), req)
            == if !Safe(req) then Some(false)
               else if req.manager then Some(req.fromLoopback) else None
  {
    var a := HeadAfter();
    BothHold(conf, Is("CONNECT"), Not("SSL_ports"), req);
    BothHold(conf, Is("localhost_src"), Is("manager"), req);
    OneLine(conf, a[5], req);
    SkipsAcl(conf, a[4], [a[5]], req);
    SkipsAcl(conf, a[3], [a[4]] + [a[5]], req);
    SkipsAcl(conf, a[2], [a[3]] + ([a[4]] + [a[5]]), req);
    SkipsAcl(conf, a[1], [a[2]] + ([a[3]] + ([a[4]] + [a[5]])), req);
    SkipsAcl(conf, a[0], [a[1]] + ([a[2]] + ([a[3]] + ([a[4]] + [a[5]]))), req);
    assert a == [a[0]] + ([a[1]] + ([a[2]] + ([a[3]] + ([a[4]] + [a[5]]))));
    assert AclHolds(conf, "manager", req) <==> req.manager;
  }

  /** The position of a listener's target, or -1. */
  ghost function Position(ts: seq<Target>, listener: string): (k: int)
    ensures -1 <= k < |ts|
    ensures k >= 0 ==> ts[k].slug == listener
    ensures k == -1 ==> forall j | 0 <= j < |ts| :: ts[j].slug != listener
  {
    if j :| 0 <= j < |ts| && ts[j].slug == listener then j else -1
  }

  lemma ReadTargets(ts: seq<Target>, req: Request)
    requires TargetsValid(ts)
    ensures var k := Position(ts, req.listener);
            && FirstMatch(Rendered(ts), Flat(AnyList(ts)), req)
               == (if k >= 0 && ts[k].mode.Enforce? && Listed(ts[k].domains, true, req.host) then Some(true) else None)
            && FirstMatch(Rendered(ts), Flat(BlockList(ts)), req)
               == (if k >= 0 && (ts[k].mode.Observe? || Listed(ts[k].domains, false, req.host)) then Some(true) else None)
  {
    hide Rendered, Block, AnyLines;
    var conf, k := Rendered(ts), Position(ts, req.listener);
    forall j | 0 <= j < |ts|
      ensures FirstMatch(conf, AnyList(ts)[j], req)
              == if j == k && ts[k].mode.Enforce? && Listed(ts[k].domains, true, req.host) then Some(true) else None
      ensures FirstMatch(conf, BlockList(ts)[j], req)
              == if j == k && (ts[k].mode.Observe? || Listed(ts[k].domains, false, req.host)) then Some(true) else None
    {
      EnvHolds(ts, j, req);
      ReadAny(conf, ts[j], req);
      ReadBlock(conf, ts[j], req);
    }
    FirstMatchFlat(conf, AnyList(ts), k, req);
    FirstMatchFlat(conf, BlockList(ts), k, req);
  }

  /** The rendered file, read first-match, is the closed form: for every request at every listener. */
  lemma RenderedMeansAllowed(ts: seq<Target>, req: Request)
    requires TargetsValid(ts)
    ensures Admits(Rendered(ts), req) <==> Allowed(ts, req)
  {
    var conf := Rendered(ts);
    {
      hide HeadBefore, HeadAfter, Flat, Tail;
      FirstMatchAppend(conf, HeadBefore() + Flat(AnyList(ts)) + HeadAfter() + Flat(BlockList(ts)), Tail(), req);
      FirstMatchAppend(conf, HeadBefore() + Flat(AnyList(ts)) + HeadAfter(), Flat(BlockList(ts)), req);
      FirstMatchAppend(conf, HeadBefore() + Flat(AnyList(ts)), HeadAfter(), req);
      FirstMatchAppend(conf, HeadBefore(), Flat(AnyList(ts)), req);
    }
    hide HeadBefore, HeadAfter, Flat, AnyList, BlockList, Block, AnyLines;
    ReadHead(ts, req);
    ReadTargets(ts, req);
    OneLine(conf, Tail()[0], req);
    assert Tail() == [Tail()[0]];
    assert AllHold(conf, [Is("all")], req);
  }

  // ----- consequences -----

  /** Two renderings agree on a listener as soon as its own project agrees: same mode, same set of domains. */
  lemma ListenerDependsOnItsProject(ts: seq<Target>, j: nat, us: seq<Target>, k: nat, req: Request)
    requires TargetsValid(ts) && TargetsValid(us) && j < |ts| && k < |us|
    requires ts[j].slug == us[k].slug == req.listener && ts[j].mode == us[k].mode
    requires forall d :: d in ts[j].domains <==> d in us[k].domains
    ensures Admits(Rendered(ts), req) <==> Admits(Rendered(us), req)
  {
    hide Rendered;
    RenderedMeansAllowed(ts, req);
    RenderedMeansAllowed(us, req);
    assert Allowed(ts, req) <==> (Safe(req) && req.manager && req.fromLoopback) || TargetAllows(ts[j], req);
    assert Allowed(us, req) <==> (Safe(req) && req.manager && req.fromLoopback) || TargetAllows(us[k], req);
  }

  /** A listener no project owns (the loopback probe, unless a project is called `probe`) admits nothing
      but manager requests from loopback. */
  lemma UnownedListenerIsClosed(ts: seq<Target>, req: Request)
    requires TargetsValid(ts) && forall k | 0 <= k < |ts| :: ts[k].slug != req.listener
    ensures Admits(Rendered(ts), req) <==> Safe(req) && req.manager && req.fromLoopback
  {
    RenderedMeansAllowed(ts, req);
  }

  /** A project with no domains fails closed in every mode but observe. */
  lemma NoDomainsNoAccess(ts: seq<Target>, k: nat, req: Request)
    requires TargetsValid(ts) && k < |ts| && ts[k].domains == [] && !ts[k].mode.Observe?
    requires req.listener == ts[k].slug && !req.manager
    ensures !Admits(Rendered(ts), req)
  {
    RenderedMeansAllowed(ts, req);
  }

  // ----- the text itself does not depend on the order of a project's rules -----

  lemma {:induction false} PickAppend(a: seq<DomainRule>, b: seq<DomainRule>, c: Class)
    ensures Pick(a + b, c) == Pick(a, c) + Pick(b, c)
  {
    if b == [] {
      assert a + b == a;
    } else {
      PickAppend(a, b[..|b| - 1], c);
      assert (a + b)[..|a + b| - 1] == a + b[..|b| - 1];
    }
  }

  lemma PickWithout(es: seq<DomainRule>, k: nat, c: Class)
    requires k < |es|
    ensures multiset(Pick(es, c)) == multiset(Pick(es[..k] + es[k + 1..], c)) + multiset(Pick([es[k]], c))
    ensures multiset(es) == multiset(es[..k] + es[k + 1..]) + multiset{es[k]}
  {
    assert es == es[..k] + [es[k]] + es[k + 1..];
    PickAppend(es[..k] + [es[k]], es[k + 1..], c);
    PickAppend(es[..k], [es[k]], c);
    PickAppend(es[..k], es[k + 1..], c);
  }

  lemma {:induction false} PickIgnoresOrder(ds: seq<DomainRule>, es: seq<DomainRule>, c: Class)
    requires multiset(ds) == multiset(es)
    ensures multiset(Pick(ds, c)) == multiset(Pick(es, c))
  {
    hide Pick;
    if ds == [] {
      assert |multiset(es)| == 0;
      assert ds == es;
    } else {
      assert ds[0] in multiset(es);
      var k :| 0 <= k < |es| && es[k] == ds[0];
      PickWithout(ds, 0, c);
      PickWithout(es, k, c);
      assert ds[..0] + ds[1..] == ds[1..];
      assert multiset(ds[1..]) == multiset(ds) - multiset{ds[0]};
      assert multiset(es[..k] + es[k + 1..]) == multiset(es) - multiset{ds[0]};
      PickIgnoresOrder(ds[1..], es[..k] + es[k + 1..], c);
    }
  }

  /** Listing a project's rules in another order renders byte for byte the same block. */
  lemma BlockIgnoresRuleOrder(t: Target, ds: seq<DomainRule>)
    requires multiset(t.domains) == multiset(ds)
    ensures Block(t.(domains := ds)) == Block(t) && AnyLines(t.(domains := ds)) == AnyLines(t)
  {
    StringsAreOrdered();
    PickIgnoresOrder(t.domains, ds, AnyPort);
    PickIgnoresOrder(t.domains, ds, Tls);
    PickIgnoresOrder(t.domains, ds, Plain);
    SortIgnoresOrder(StrLe, Pick(t.domains, AnyPort), Pick(ds, AnyPort));
    SortIgnoresOrder(StrLe, Pick(t.domains, Tls), Pick(ds, Tls));
    SortIgnoresOrder(StrLe, Pick(t.domains, Plain), Pick(ds, Plain));
    assert |multiset(Pick(t.domains, AnyPort))| == |multiset(Pick(ds, AnyPort))|;
  }

  // ----- listeners -----

  /** Besides the loopback probe, the file opens exactly the targets' ports, each under its slug. */
  lemma ListenersAreTargets(ts: seq<Target>, loopback: bool, port: int, name: string)
    ensures HttpPort(loopback, port, name) in Rendered(ts) <==>
            || (loopback && port == 3128 && name == "probe")
            || (!loopback && exists k :: 0 <= k < |ts| && ts[k].port == port && ts[k].slug == name)
  {
    var line := HttpPort(loopback, port, name);
    InRendered(ts, line);
    hide Rendered, Block, AnyLines;
    forall k | 0 <= k < |ts|
      ensures (line in Block(ts[k]) || line in AnyLines(ts[k])) <==> !loopback && ts[k].port == port && ts[k].slug == name
    {
      ListenerOfTarget(ts[k], loopback, port, name);
    }
    assert line in HeadAfter() <==> line == HeadAfter()[4];
  }

  lemma ListenerOfTarget(u: Target, loopback: bool, port: int, name: string)
    ensures HttpPort(loopback, port, name) !in AnyLines(u)
    ensures HttpPort(loopback, port, name) in Block(u) <==> !loopback && u.port == port && u.slug == name
  {
    hide Sort, Pick, AclName;
    assert HttpPort(loopback, port, name) in ListenerLines(u) <==> HttpPort(loopback, port, name) == ListenerLines(u)[0];
  }
}
