/**
 The egress handlers (internal/api/egress_rules.go, egress_mode.go, egress_proxy.go): they change the
 tables and push what follows from them to the cluster, the policy per project and the one proxy file.
 */
module EgressServer {
  import opened Wrappers
  import opened Text
  import opened Ipv4
  import opened Squid
  import opened NetPolicy
  import opened EgressDb
  import opened EgressRules
  import opened ProxyEnv

  // ----- configuration -----

  /** What the deployer is started with. */
  function DeployerFor(cfg: Config): Deployer {
    Deployer(IfSet(cfg.pgHost) + IfSet(cfg.redisHost) + IfSet(cfg.s3Host) + IfSet(cfg.s3PublicEndpoint),
             if cfg.registryHostFromK3D == "" then cfg.registryHost else cfg.registryHostFromK3D,
             cfg.dnsClusterIP)
  }

  function IfSet(host: string): seq<string> { if host == "" then [] else [host] }

  function ProxyHost(cfg: Config): string { HostPart(Trim(cfg.pgHost)) }

  // ----- what follows from the tables -----

  function RulePairs(rules: set<Rule>): set<Pair> {
    set r, x | r in rules && r.kind.EndpointKind? && x in ExtraPairs(EgressAllow(r.value, r.port)) :: x
  }

  /** The listener, for a project that may use it. */
  function ProxyPairs(p: Project, proxyHost: string): set<Pair> {
    if p.mode.Off? || p.port.None? || ParseIp(proxyHost).None? then {}
    else ExtraPairs(EgressAllow(proxyHost + "/32", p.port.value))
  }

  /** The proxy URL for the project's pods, empty when they are to have none. */
  function ProxyUrl(p: Project, proxyHost: string): string {
    if p.mode.Off? || p.port.None? || ParseIp(proxyHost).None? then ""
    else "http://" + (proxyHost + (":" + ItoaInt(p.port.value)))
  }

  /** What stays off the proxy. */
  function NoProxy(cfg: Config): string {
    "localhost,127.0.0.1,.svc,.cluster.local,10.0.0.0/8,172.16.0.0/12,192.168.0.0/16,." + cfg.appBaseDomain
  }

  /** Which of the two reads behind the egress configuration succeed: the rules, then mode and port. */
  datatype Reads = Reads(rules: bool, mode: bool)

  predicate Both(got: Reads) { got.rules && got.mode }

  /** Everything a project's policy admits. */
  function ProjectPairs(db: Db, cfg: Config, id: ProjectId): set<Pair>
    requires id in db.projects
  {
    Admitted(DeployerFor(cfg), []) + RulePairs(RulesOf(db, id)) + ProxyPairs(db.projects[id], ProxyHost(cfg))
  }

  /** The policy a project should have; None when none is ever written. */
  ghost function ProjectPolicy(db: Db, cfg: Config, id: ProjectId): Option<seq<EgressRule>>
    requires id in db.projects
  {
    if DeployerFor(cfg).endpoints == [] || ProjectPairs(db, cfg, id) == {} then None
    else Some(PolicyFor(ProjectPairs(db, cfg, id), true, cfg.dnsClusterIP))
  }

  /** What a deploy admits: as much of it as could be read. */
  function DeployedPairs(db: Db, cfg: Config, id: ProjectId, got: Reads): set<Pair>
    requires id in db.projects
  {
    Admitted(DeployerFor(cfg), [])
    + (if got.rules then RulePairs(RulesOf(db, id)) else {})
    + (if Both(got) then ProxyPairs(db.projects[id], ProxyHost(cfg)) else {})
  }

  /** The policy a deploy writes: after a failed read, with the catch-all. */
  ghost function DeployedPolicy(db: Db, cfg: Config, id: ProjectId, got: Reads): Option<seq<EgressRule>>
    requires id in db.projects
  {
    var pairs := DeployedPairs(db, cfg, id, got);
    if DeployerFor(cfg).endpoints == [] || pairs == {} then None
    else Some(PolicyFor(pairs, Both(got), cfg.dnsClusterIP))
  }

  /** The proxy file the tables call for. */
  ghost predicate ProxyInSync(db: Db, conf: seq<Line>) {
    exists ts :: IsTargetList(db, ts) && conf == Rendered(ts)
  }

  // ----- request bodies -----

  ghost predicate Asked(body: seq<RawRule>, r: Rule) { exists raw :: raw in body && AsksFor(raw, r) }

  /** The rules an accepted list stands for. */
  ghost predicate Lists(body: seq<RawRule>, protected: seq<nat>, rules: seq<Rule>) {
    && (forall r :: r in rules <==> Asked(body, r))
    && (forall r | r in rules :: Storable(r, protected))
    && (forall j, k | 0 <= j < k < |rules| :: rules[j] != rules[k])
  }

  ghost predicate Acceptable(raw: RawRule, protected: seq<nat>) {
    exists r :: AsksFor(raw, r) && Storable(r, protected)
  }

  /** BadRule carries the position the message names: one more than the index. */
  datatype PutAnswer = NotAdmin | BadRule(position: nat, why: Fault) | SyncFailed | Saved(rules: nat)

  datatype PatchAnswer = PatchNotAdmin | BadMode | NoPort | ProxyFailed | PodsFailed | Patched

  function ModeOf(text: string): Option<Mode> {
    if text == "off" then Some(Off)
    else if text == "observe" then Some(Observe)
    else if text == "enforce" then Some(Enforce)
    else None
  }

  lemma ModeTexts(text: string)
    ensures ModeOf(text).None? <==> text !in {"off", "observe", "enforce"}
    ensures text == "off" ==> ModeOf(text) == Some(Off)
    ensures text == "observe" ==> ModeOf(text) == Some(Observe)
    ensures text == "enforce" ==> ModeOf(text) == Some(Enforce)
  {
    assert "off"[0] == 'o' && "observe"[1] == 'b' && "off"[1] == 'f' && "enforce"[0] == 'e' && "observe"[0] == 'o';
  }

  /** The loop over the body: dedupe, stop at the first bad rule. */
  method CheckBody(body: seq<RawRule>, protected: seq<nat>) returns (out: seq<Rule>, bad: Option<(nat, Fault)>)
    ensures bad.None? ==> Lists(body, protected, out) && forall k | 0 <= k < |body| :: Acceptable(body[k], protected)
    ensures bad.Some? ==>
              && 1 <= bad.value.0 <= |body| && !Acceptable(body[bad.value.0 - 1], protected)
              && forall k | 0 <= k < bad.value.0 - 1 :: Acceptable(body[k], protected)
  {
    hide Storable, AsksFor;
    out, bad := [], None;
    for i := 0 to |body|
      invariant Lists(body[..i], protected, out)
      invariant forall k | 0 <= k < i :: Acceptable(body[k], protected)
    {
      var rule := NormaliseRule(body[i], protected);
      if rule.Rejected? {
        bad := Some((i + 1, rule.why));
        return;
      }
      OneAnswer(body[i], rule.value);
      ListsSnoc(body, i, protected, out, rule.value);
      if rule.value !in out {
        out := out + [rule.value];
      }
    }
    assert body[..|body|] == body;
  }

  /** A raw rule asks for one rule only. */
  lemma OneAnswer(raw: RawRule, r: Rule)
    requires AsksFor(raw, r)
    ensures forall s | AsksFor(raw, s) :: s == r
  {
    KindsDiffer();
    hide NormaliseCidr, Lower, Trim, DomainPortFor, EndpointPortFor;
  }

  lemma ListsSnoc(body: seq<RawRule>, i: nat, protected: seq<nat>, out: seq<Rule>, r: Rule)
    requires i < |body| && Lists(body[..i], protected, out) && Storable(r, protected)
    requires forall s :: AsksFor(body[i], s) <==> s == r
    ensures Lists(body[..i + 1], protected, if r in out then out else out + [r])
  {
    hide Storable, AsksFor;
    forall s ensures Asked(body[..i + 1], s) <==> Asked(body[..i], s) || s == r {
      AskedSnoc(body, i, s);
    }
  }

  lemma AskedSnoc(body: seq<RawRule>, i: nat, s: Rule)
    requires i < |body|
    ensures Asked(body[..i + 1], s) <==> Asked(body[..i], s) || AsksFor(body[i], s)
  {
    hide AsksFor;
    assert body[..i + 1] == body[..i] + [body[i]];
    assert forall raw :: raw in body[..i + 1] <==> raw in body[..i] || raw == body[i];
  }

  class Server {
    const cfg: Config
    const store: EgressStore
    var policies: map<ProjectId, seq<EgressRule>>   // the cluster's policy, per project namespace
    var proxyConf: seq<Line>                        // the cluster's proxy file
    var podEnv: map<ProjectId, seq<EnvVar>>         // the environment of each project's container, once deployed

    constructor (cfg: Config, store: EgressStore)
      ensures this.cfg == cfg && this.store == store && policies == map[] && proxyConf == [] && podEnv == map[]
    {
      this.cfg, this.store := cfg, store;
      policies, proxyConf, podEnv := map[], [], map[];
    }

    /** The endpoint half of the allow-list. */
    method EgressAllowsForProject(id: ProjectId) returns (out: seq<EgressAllow>)
      ensures AllExtraPairs(out) == RulePairs(RulesOf(store.Value(), id))
    {
      var all := store.ListProjectEgressRules(id);
      out := [];
      for i := 0 to |all|
        invariant forall e :: e in out <==> Rule(EndpointKind, e.cidr, e.port) in all[..i]
      {
        if !all[i].kind.EndpointKind? {
          continue;
        }
        out := out + [EgressAllow(all[i].value, all[i].port)];
      }
      assert all[..|all|] == all;
      AllowsAreRules(out, RulesOf(store.Value(), id));
    }

    /** The proxy's own port is added last; the catch-all is dropped in every mode, unless a read fails. */
    method EgressConfigForProject(id: ProjectId, got: Reads)
        returns (allows: seq<EgressAllow>, enforce: bool, proxyUrl: string, ok: bool)
      requires Live(store.Value(), id)
      ensures ok == enforce == Both(got)
      ensures Admitted(DeployerFor(cfg), allows) == DeployedPairs(store.Value(), cfg, id, got)
      ensures proxyUrl == if ok then ProxyUrl(store.projects[id], ProxyHost(cfg)) else ""
    {
      hide RulePairs, ExtraPairs, AllExtraPairs, Admitted, DeployerFor, ParseIp, HostPart, Trim, ItoaInt;
      NoAllows();
      AdmittedSplit(DeployerFor(cfg), []);
      if !got.rules {
        return [], false, "", false;
      }
      allows := EgressAllowsForProject(id);
      AdmittedSplit(DeployerFor(cfg), allows);
      if !got.mode {
        return allows, false, "", false;
      }
      enforce, proxyUrl, ok := true, "", true;
      var p, host := store.projects[id], ProxyHost(cfg);
      if p.mode.Off? || p.port.None? || ParseIp(host).None? {
        return;
      }
      OneMoreAllow(allows, EgressAllow(host + "/32", p.port.value));
      allows := allows + [EgressAllow(host + "/32", p.port.value)];
      AdmittedSplit(DeployerFor(cfg), allows);
      proxyUrl := "http://" + (host + (":" + ItoaInt(p.port.value)));
    }

    /** After a change of rules or mode: nothing is pushed unless everything could be read. `ok` is the cluster's answer. */
    method SyncEgressPolicy(id: ProjectId, got: Reads, ok: bool) returns (done: bool, proxyUrl: string)
      requires Live(store.Value(), id)
      modifies this`policies
      ensures done <==> Both(got) && ok
      ensures done ==> PolicyFollows(store.Value(), cfg, id, policies)
      ensures done ==> proxyUrl == ProxyUrl(store.projects[id], ProxyHost(cfg))
      ensures !done ==> policies == old(policies)
      ensures policies.Keys == old(policies).Keys || policies.Keys == old(policies).Keys + {id}
      ensures forall j | j in old(policies) && j != id :: j in policies && policies[j] == old(policies)[j]
    {
      hide RulePairs, ExtraPairs, AllExtraPairs, ProxyPairs, PolicyFor, Admitted, IfSet, ParseIp, ProxyHost,
          ProxyUrl;
      var allows, enforce, url, read := EgressConfigForProject(id, got);
      proxyUrl := url;
      if !read || !ok {
        return false, url;
      }
      var policy := EnsureEgressPolicy(DeployerFor(cfg), allows, enforce);
      ReadPairs(store.Value(), cfg, id, got);
      assert policy == ProjectPolicy(store.Value(), cfg, id);
      hide ProjectPolicy;
      if policy.Some? {
        policies := policies[id := policy.value];
      }
      done := true;
    }

    /** The egress half of a deploy: what could not be read is left out, and the policy written all the same. */
    method ApplyEgress(id: ProjectId, env: seq<EnvVar>, got: Reads)
      requires Live(store.Value(), id)
      modifies this`policies, this`podEnv
      ensures var policy := DeployedPolicy(store.Value(), cfg, id, got);
              policies == if policy.Some? then old(policies)[id := policy.value] else old(policies)
      ensures podEnv == old(podEnv)[id :=
                WithProxy(env, if Both(got) then ProxyUrl(store.projects[id], ProxyHost(cfg)) else "", NoProxy(cfg))]
    {
      hide RulePairs, ExtraPairs, AllExtraPairs, ProxyPairs, PolicyFor, Admitted, IfSet, ParseIp, ProxyHost,
          ProxyUrl, WithProxy, NoProxy, DeployedPairs;
      var allows, enforce, url, read := EgressConfigForProject(id, got);
      var policy := EnsureEgressPolicy(DeployerFor(cfg), allows, enforce);
      assert policy == DeployedPolicy(store.Value(), cfg, id, got);
      hide DeployedPolicy;
      if policy.Some? {
        policies := policies[id := policy.value];
      }
      var vars := WithProxyEnv(env, url, NoProxy(cfg));
      podEnv := podEnv[id := vars];
    }

    /** A rollout with the new proxy variables; no deployment yet is fine. */
    method SetProxyEnv(id: ProjectId, proxyUrl: string)
      modifies this`podEnv
      ensures podEnv == if id in old(podEnv) then old(podEnv)[id := WithProxy(old(podEnv)[id], proxyUrl, NoProxy(cfg))]
                        else old(podEnv)
    {
      if id !in podEnv {
        return;
      }
      var vars := WithProxyEnv(podEnv[id], proxyUrl, NoProxy(cfg));
      podEnv := podEnv[id := vars];
    }

    method SyncEgressProxy(ok: bool)
      requires SlugsDistinct(store.Value())
      modifies this`proxyConf
      ensures if ok then ProxyInSync(store.Value(), proxyConf) else proxyConf == old(proxyConf)
    {
      var targets := store.ListEgressProxyTargets();
      var conf := RenderSquidConf(targets);
      if ok {
        proxyConf := conf;
      }
    }

    /** PUT /v1/projects/:slug/egress */
    method HandlePutProjectEgress(admin: bool, id: ProjectId, body: seq<RawRule>, got: Reads, policyOk: bool,
        proxyOk: bool)
      returns (answer: PutAnswer, ghost protected: seq<nat>, ghost rules: seq<Rule>)
      requires Live(store.Value(), id) && SlugsDistinct(store.Value())
      modifies this, store
      ensures NamedOnce(ConfiguredHosts(cfg), protected)
      ensures answer.NotAdmin? <==> !admin
      ensures answer.BadRule? <==> admin && exists k :: 0 <= k < |body| && !Acceptable(body[k], protected)
      ensures answer.BadRule? ==>
                && 1 <= answer.position <= |body| && !Acceptable(body[answer.position - 1], protected)
                && forall k | 0 <= k < answer.position - 1 :: Acceptable(body[k], protected)
      ensures answer.NotAdmin? || answer.BadRule? ==>
                store.Value() == old(store.Value()) && policies == old(policies) && proxyConf == old(proxyConf)
      ensures podEnv == old(podEnv)
      ensures answer.Saved? <==>
                admin && (forall k | 0 <= k < |body| :: Acceptable(body[k], protected)) && got.rules && got.mode && policyOk
      ensures answer.SyncFailed? || answer.Saved? ==> Lists(body, protected, rules)
      ensures answer.SyncFailed? ==>
                !(Both(got) && policyOk) && store.Value() == ReplaceRules(old(store.Value()), id, rules)
      ensures answer.Saved? ==>
                && answer.rules == |rules| && Live(ReplaceRules(old(store.Value()), id, rules), id)
                && store.Value() == EnsurePort(ReplaceRules(old(store.Value()), id, rules), id)
                && PolicyFollows(ReplaceRules(old(store.Value()), id, rules), cfg, id, policies)
      ensures answer.Saved? && proxyOk ==> ProxyInSync(store.Value(), proxyConf)
    {
      hide ConfiguredHosts, ProjectPolicy, ProxyInSync, NamedOnce, Acceptable, Lists, ReplaceRules, EnsurePort,
          SlugsDistinct, PolicyFollows;
      var ips := ProtectedIPs(cfg);
      protected, rules := ips, [];
      if !admin {
        return NotAdmin, ips, [];
      }
      var inputs, bad := CheckBody(body, ips);
      if bad.Some? {
        return BadRule(bad.value.0, bad.value.1), ips, [];
      }
      rules := inputs;
      var saved := SaveRules(id, inputs, got, policyOk, proxyOk);
      answer := if saved then Saved(|inputs|) else SyncFailed;
    }

    /** The rules are stored first, then the policy, the listener and the proxy file follow. */
    method SaveRules(id: ProjectId, rules: seq<Rule>, got: Reads, policyOk: bool, proxyOk: bool)
        returns (saved: bool)
      requires Live(store.Value(), id) && SlugsDistinct(store.Value())
      modifies this, store
      ensures saved <==> Both(got) && policyOk
      ensures podEnv == old(podEnv)
      ensures Live(ReplaceRules(old(store.Value()), id, rules), id)
      ensures !saved ==> store.Value() == ReplaceRules(old(store.Value()), id, rules)
      ensures saved ==>
                && store.Value() == EnsurePort(ReplaceRules(old(store.Value()), id, rules), id)
                && PolicyFollows(ReplaceRules(old(store.Value()), id, rules), cfg, id, policies)
      ensures saved && proxyOk ==> ProxyInSync(store.Value(), proxyConf)
    {
      hide *;
      ghost var was := store.Value();
      ghost var replaced := ReplaceRules(was, id, rules);
      StatementsKeepSlugs(was, id, Off, rules);
      StatementsKeepSlugs(replaced, id, Off, rules);
      store.ReplaceProjectEgressRules(id, rules);
      assert store.Value() == replaced;
      var done, _ := SyncEgressPolicy(id, got, policyOk);
      assert store.Value() == replaced;
      if !done {
        return false;
      }
      assert PolicyFollows(replaced, cfg, id, policies);
      var _ := store.EnsureEgressProxyPort(id);
      assert store.Value() == EnsurePort(replaced, id);
      SyncEgressProxy(proxyOk);
      assert store.Value() == EnsurePort(replaced, id);
      saved := true;
    }

    /** PATCH /v1/projects/:slug/egress-mode: listener and mode, then what follows from them is pushed. */
    method HandlePatchEgressMode(admin: bool, id: ProjectId, text: string, proxyOk: bool, got: Reads,
        policyOk: bool, envOk: bool)
      returns (answer: PatchAnswer)
      requires Live(store.Value(), id) && SlugsDistinct(store.Value())
      modifies this, store
      ensures answer.PatchNotAdmin? <==> !admin
      ensures answer.BadMode? <==> admin && text !in {"off", "observe", "enforce"}
      ensures Pushed(answer) && text == "off" ==> id in store.projects && store.projects[id].mode.Off?
      ensures Pushed(answer) && text == "observe" ==> id in store.projects && store.projects[id].mode.Observe?
      ensures Pushed(answer) && text == "enforce" ==> id in store.projects && store.projects[id].mode.Enforce?
      ensures answer.NoPort? <==> admin && ModeOf(text).Some? && NoListenerFor(old(store.Value()), id, ModeOf(text).value)
      ensures answer.ProxyFailed? ==> !proxyOk
      ensures answer.PodsFailed? ==> proxyOk && !(Both(got) && policyOk && envOk)
      ensures answer.Patched? ==> proxyOk && Both(got) && policyOk && envOk
      ensures Pushed(answer) ==>
                ModeOf(text).Some? && store.Value() == Moded(old(store.Value()), id, ModeOf(text).value)
      ensures !Pushed(answer) ==> store.Value() == old(store.Value())
      ensures !Pushed(answer) || answer.ProxyFailed? ==> policies == old(policies) && proxyConf == old(proxyConf)
      ensures answer.PodsFailed? && !(Both(got) && policyOk) ==> policies == old(policies)
      ensures answer.PodsFailed? || answer.Patched? ==> ProxyInSync(store.Value(), proxyConf)
      ensures answer.Patched? ==> Live(store.Value(), id) && PolicyFollows(store.Value(), cfg, id, policies)
      ensures answer.Patched? && !ModeOf(text).value.Off? ==> store.projects[id].port.Some?
      ensures !answer.Patched? ==> podEnv == old(podEnv)
      ensures answer.Patched? ==> Live(store.Value(), id) && EnvFollows(store.Value(), cfg, id, old(podEnv), podEnv)
    {
      ModeTexts(text);
      hide ModeOf, ProxyInSync, SlugsDistinct, PolicyFollows, EnvFollows, NoListenerFor, EnsurePort;
      if !admin {
        return PatchNotAdmin;
      }
      var mode := ModeOf(text);
      if mode.None? {
        return BadMode;
      }
      var stored := StoreMode(id, mode.value);
      if !stored {
        return NoPort;
      }
      answer := PushMode(id, proxyOk, got, policyOk, envOk);
    }

    /** A listener first unless the mode is off, then the mode itself. */
    method StoreMode(id: ProjectId, mode: Mode) returns (stored: bool)
      requires Live(store.Value(), id) && SlugsDistinct(store.Value())
      modifies store
      ensures stored <==> !NoListenerFor(old(store.Value()), id, mode)
      ensures store.Value() == if stored then Moded(old(store.Value()), id, mode) else old(store.Value())
      ensures stored ==> Live(store.Value(), id) && SlugsDistinct(store.Value())
      ensures stored && !mode.Off? ==> store.projects[id].port.Some?
    {
      hide SlugsDistinct;
      ModedKeeps(store.Value(), id, mode);
      RefusalIsExhaustion(store.Value(), id);
      if !mode.Off? {
        var granted := store.EnsureEgressProxyPort(id);
        if !granted.Granted? {
          return false;
        }
      }
      store.SetProjectEgressMode(id, mode);
      stored := true;
    }

    /** The proxy file first, so that the listener exists; then the policy, and last the pods' variables. */
    method PushMode(id: ProjectId, proxyOk: bool, got: Reads, policyOk: bool, envOk: bool)
        returns (answer: PatchAnswer)
      requires Live(store.Value(), id) && SlugsDistinct(store.Value())
      modifies this`policies, this`proxyConf, this`podEnv
      ensures Pushed(answer)
      ensures answer.ProxyFailed? <==> !proxyOk
      ensures answer.Patched? <==> proxyOk && Both(got) && policyOk && envOk
      ensures answer.ProxyFailed? ==> policies == old(policies) && proxyConf == old(proxyConf)
      ensures !(Both(got) && policyOk) ==> policies == old(policies)
      ensures !answer.ProxyFailed? ==> ProxyInSync(store.Value(), proxyConf)
      ensures answer.Patched? ==> PolicyFollows(store.Value(), cfg, id, policies)
      ensures if answer.Patched? then EnvFollows(store.Value(), cfg, id, old(podEnv), podEnv) else podEnv == old(podEnv)
    {
      hide ProxyInSync, SlugsDistinct, PolicyFollows, ProxyUrl, WithProxy, NoProxy, ProxyHost;
      SyncEgressProxy(proxyOk);
      if !proxyOk {
        return ProxyFailed;
      }
      var done, url := SyncEgressPolicy(id, got, policyOk);
      if !done || !envOk {
        return PodsFailed;
      }
      SetProxyEnv(id, url);
      answer := Patched;
    }
  }

  /** The request got as far as storing the mode. */
  predicate Pushed(answer: PatchAnswer) { answer.ProxyFailed? || answer.PodsFailed? || answer.Patched? }

  /** The mode needs a listener, the project has none, and no port of the window is free. */
  predicate NoListenerFor(db: Db, id: ProjectId, mode: Mode)
    requires id in db.projects
  {
    !mode.Off? && db.projects[id].port.None? && FirstFree(HeldPorts(db.projects), PORT_MIN).None?
  }

  /** A refused allocation is one without a free port, and leaves everything as it was. */
  lemma RefusalIsExhaustion(db: Db, id: ProjectId)
    requires Live(db, id)
    ensures AnswerFor(EnsurePort(db, id), id).Granted?
            <==> db.projects[id].port.Some? || FirstFree(HeldPorts(db.projects), PORT_MIN).Some?
    ensures AnswerFor(EnsurePort(db, id), id).Granted? ==> EnsurePort(db, id).projects[id].port.Some?
    ensures !AnswerFor(EnsurePort(db, id), id).Granted? ==> EnsurePort(db, id) == db
  {
    hide FirstFree, HeldPorts;
    if db.projects[id].port.None? && FirstFree(HeldPorts(db.projects), PORT_MIN).None? {
      assert db.projects[id := db.projects[id].(port := None)] == db.projects;
    }
  }

  /** The deployed containers are as before, but the project's proxy variables are those the tables call for. */
  ghost predicate EnvFollows(db: Db, cfg: Config, id: ProjectId, was: map<ProjectId, seq<EnvVar>>,
      now: map<ProjectId, seq<EnvVar>>)
    requires id in db.projects
  {
    now == if id in was then was[id := WithProxy(was[id], ProxyUrl(db.projects[id], ProxyHost(cfg)), NoProxy(cfg))] else was
  }

  lemma NoAllows()
    ensures AllExtraPairs([]) == {}
  {
  }

  /** With both reads a deploy admits what the project should. */
  lemma ReadPairs(db: Db, cfg: Config, id: ProjectId, got: Reads)
    requires id in db.projects && Both(got)
    ensures DeployedPairs(db, cfg, id, got) == ProjectPairs(db, cfg, id)
  {
    hide RulePairs, ProxyPairs, Admitted, DeployerFor, ProxyHost;
  }

  /** A listener first, unless the mode is off; then the mode. */
  function Moded(db: Db, id: ProjectId, mode: Mode): Db {
    SetMode(if mode.Off? then db else EnsurePort(db, id), id, mode)
  }

  lemma ModedKeeps(db: Db, id: ProjectId, mode: Mode)
    requires SlugsDistinct(db) && Live(db, id)
    ensures SlugsDistinct(Moded(db, id, mode)) && Live(Moded(db, id, mode), id)
  {
    hide SlugsDistinct, EnsurePort, SetMode, Live;
    StatementsKeepSlugs(db, id, mode, []);
    StatementsKeepSlugs(EnsurePort(db, id), id, mode, []);
  }

  /** The cluster holds the policy the tables call for, if they call for one. */
  ghost predicate PolicyFollows(db: Db, cfg: Config, id: ProjectId, policies: map<ProjectId, seq<EgressRule>>)
    requires id in db.projects
  {
    ProjectPolicy(db, cfg, id).Some? ==> id in policies && policies[id] == ProjectPolicy(db, cfg, id).value
  }

  lemma AllowsAreRules(es: seq<EgressAllow>, rules: set<Rule>)
    requires forall e :: e in es <==> Rule(EndpointKind, e.cidr, e.port) in rules
    ensures AllExtraPairs(es) == RulePairs(rules)
  {
    hide ExtraPairs;
    forall x ensures x in AllExtraPairs(es) <==> x in RulePairs(rules) {
      if x in AllExtraPairs(es) {
        var i :| 0 <= i < |es| && x in ExtraPairs(es[i]);
        assert es[i] in es && es[i] == EgressAllow(es[i].cidr, es[i].port);
      }
      if x in RulePairs(rules) {
        var r :| r in rules && r.kind.EndpointKind? && x in ExtraPairs(EgressAllow(r.value, r.port));
        assert r == Rule(EndpointKind, r.value, r.port) && EgressAllow(r.value, r.port) in es;
      }
    }
  }

  lemma OneMoreAllow(es: seq<EgressAllow>, e: EgressAllow)
    ensures AllExtraPairs(es + [e]) == AllExtraPairs(es) + ExtraPairs(e)
  {
    AllExtrasSnoc(es + [e], |es|);
    assert (es + [e])[..|es|] == es && (es + [e])[..|es| + 1] == es + [e];
  }

  lemma AdmittedSplit(d: Deployer, es: seq<EgressAllow>)
    ensures Admitted(d, es) == Admitted(d, []) + AllExtraPairs(es)
  {
    NoExtras([]);
  }
}
