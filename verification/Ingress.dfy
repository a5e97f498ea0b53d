/**
 The ingress compiler (internal/api/project_actions.go, internal/k8sdriver/deployer.go): a project's
 effective allow-list and its path rules become one Ingress, one IngressRoute and their middlewares.
 */
module Ingress {
  import opened Text
  import opened MatchText
  import opened PathRules

  // ----- cluster objects of one project's namespace -----

  datatype Middleware = AllowList(name: string) | TokenVerify | ErrorsRedirect | ForwardAuth

  /** `rule` is the match text the controller reads. */
  datatype Route = Route(rule: string, priority: int, middlewares: seq<Middleware>)

  /** `lists` are the IPAllowList middlewares, `labelled` those carrying the per-rule label. */
  datatype Cluster = Cluster(
    lists: map<string, seq<string>>, labelled: set<string>,
    refs: seq<Middleware>, routes: seq<Route>)

  /** k8sdriver.PathRule: an empty list stands for the project's own. */
  datatype DeployRule = DeployRule(prefix: string, mode: RuleMode, allow: seq<string>)

  const BASE_PRIORITY := 100_000
  const DENY_ALL := "127.0.0.1/32"

  function OwnListName(slug: string): string { "iai-allowlist-" + slug }

  /** `hash` is the hexadecimal prefix hash. */
  function RuleListName(slug: string, hash: string): string { OwnListName(slug) + ("-p" + hash) }

  lemma RuleListIsNotOwn(slug: string, hash: string)
    ensures RuleListName(slug, hash) != OwnListName(slug)
  {
    assert |RuleListName(slug, hash)| > |OwnListName(slug)|;
  }

  // ----- the effective list -----

  type Presets = map<string, seq<string>>

  /** A preset that may be used: it exists, is not empty, and is not world-open. */
  predicate Usable(presets: Presets, name: string) {
    name in presets && presets[name] != [] && !HasWorld(presets[name])
  }

  /** The project's preset if it is usable (`public` and none never are), else `internal`, else nothing. */
  method EffectiveAllowCidrs(presets: Presets, access: string) returns (base: seq<string>)
    ensures base == if access !in {"", "public"} && Usable(presets, access) then presets[access]
                    else if Usable(presets, "internal") then presets["internal"] else []
    ensures !HasWorld(base)
  {
    base := [];
    if access != "" && access != "public" {
      if access in presets {
        base := presets[access];
      }
    }
    var world := HasWorldCidr(base);
    if |base| == 0 || world {
      base := [];
      if "internal" in presets {
        var open := HasWorldCidr(presets["internal"]);
        if !open {
          base := presets["internal"];
        }
      }
    }
  }

  // ----- path rules for the deployer -----

  function NotWorld(cidrs: seq<string>): seq<string> {
    if cidrs == [] then []
    else
      var last := cidrs[|cidrs| - 1];
      NotWorld(cidrs[..|cidrs| - 1]) + if IsWorld(last) then [] else [last]
  }

  function ForDeployer(allow: seq<string>, r: PathRule): DeployRule {
    DeployRule(r.prefix, r.mode, if r.external == [] then [] else allow + NotWorld(r.external))
  }

  function AllForDeployer(allow: seq<string>, rules: seq<PathRule>): seq<DeployRule> {
    seq(|rules|, i requires 0 <= i < |rules| => ForDeployer(allow, rules[i]))
  }

  lemma {:induction false} InNotWorld(cidrs: seq<string>, c: string)
    ensures c in NotWorld(cidrs)
            <==> c in cidrs && !IsWorld(c)
  {
    if cidrs != [] { InNotWorld(cidrs[..|cidrs| - 1], c); }
    hide IsWorld;
  }

  /** A rule with sources of its own gets the project's list and those that are not world-open; another one none. */
  lemma DeployedSources(allow: seq<string>, r: PathRule, c: string)
    ensures var d := ForDeployer(allow, r);
            && d.prefix == r.prefix && d.mode == r.mode
            && (c in d.allow <==>
                  && r.external != []
                  && (c in allow || (c in r.external && !IsWorld(c))))
  {
    InNotWorld(r.external, c);
    hide NotWorld, IsWorld;
  }

  /** The inner loop: the project's list, then the rule's own sources. */
  method WidenedList(allow: seq<string>, external: seq<string>) returns (out: seq<string>)
    ensures out == allow + NotWorld(external)
  {
    out := allow;
    for i := 0 to |external|
      invariant out == allow + NotWorld(external[..i])
    {
      assert external[..i + 1][..i] == external[..i];
      var world := HasWorldCidr([external[i]]);
      assert world <==> IsWorld(external[i]) by { assert external[i] in [external[i]]; }
      if !world {
        out := out + [external[i]];
      }
    }
    assert external[..|external|] == external;
  }

  method RulesForDeployer(allow: seq<string>, rules: seq<PathRule>) returns (out: seq<DeployRule>)
    ensures out == AllForDeployer(allow, rules)
  {
    hide NotWorld;
    out := [];
    for i := 0 to |rules|
      invariant |out| == i && forall k | 0 <= k < i :: out[k] == ForDeployer(allow, rules[k])
    {
      var r := rules[i];
      var list: seq<string> := [];
      if |r.external| > 0 {
        list := WidenedList(allow, r.external);
      }
      out := out + [DeployRule(r.prefix, r.mode, list)];
    }
  }

  // ----- the project's own middleware -----

  ghost predicate TrimmedFrom(cidrs: seq<string>,
      c: string) { c != "" && exists raw :: raw in cidrs && Trim(raw) == c }

  /** The non-blank entries, trimmed, each once; the loopback placeholder when there are none. */
  ghost predicate IsOwnList(cidrs: seq<string>, list: seq<string>) {
    if exists c :: TrimmedFrom(cidrs, c) then
      && (forall c :: c in list <==> TrimmedFrom(cidrs, c))
      && (forall j, k | 0 <= j < k < |list| :: list[j] != list[k])
    else list == [DENY_ALL]
  }

  method CleanList(cidrs: seq<string>) returns (clean: seq<string>)
    ensures IsOwnList(cidrs, clean)
  {
    hide Trim;
    clean := [];
    for i := 0 to |cidrs|
      invariant forall c :: c in clean <==> TrimmedFrom(cidrs[..i], c)
      invariant forall j, k | 0 <= j < k < |clean| :: clean[j] != clean[k]
    {
      assert cidrs[..i + 1] == cidrs[..i] + [cidrs[i]];
      assert forall raw :: raw in cidrs[..i + 1] <==> raw in cidrs[..i] || raw == cidrs[i];
      var c := Trim(cidrs[i]);
      if c == "" {
        continue;
      }
      if c in clean {
        continue;
      }
      clean := clean + [c];
    }
    assert cidrs[..|cidrs|] == cidrs;
    if |clean| == 0 {
      assert forall c :: c !in clean;
      clean := [DENY_ALL];
    } else {
      assert clean[0] in clean;
    }
  }

  // ----- the exchange sort -----

  ghost predicate LongestFirst(rules: seq<DeployRule>) {
    forall j, k | 0 <= j < k < |rules| :: |rules[j].prefix| >= |rules[k].prefix|
  }

  /** The first i positions are settled: nothing behind them is longer. */
  ghost predicate Settled(rules: seq<DeployRule>, i: nat) {
    forall j, k | 0 <= j < i && j < k < |rules| :: |rules[j].prefix| >= |rules[k].prefix|
  }

  /** Exchanging two positions behind the settled ones. */
  lemma SwapKeeps(s: seq<DeployRule>, i: nat, j: nat)
    requires i < j < |s| && Settled(s, i)
    ensures multiset(s[i := s[j]][j := s[i]]) == multiset(s) && Settled(s[i := s[j]][j := s[i]], i)
  {
  }

  method SortRules(a: array<DeployRule>)
    modifies a
    ensures multiset(a[..]) == multiset(old(a[..])) && LongestFirst(a[..])
  {
    var i := 0;
    while i < a.Length
      invariant 0 <= i <= a.Length
      invariant multiset(a[..]) == multiset(old(a[..])) && Settled(a[..], i)
    {
      Select(a, i);
      i := i + 1;
    }
  }

  /** The inner loop: position i ends up with a longest prefix of the rest. */
  method Select(a: array<DeployRule>, i: nat)
    requires i < a.Length && Settled(a[..], i)
    modifies a
    ensures multiset(a[..]) == multiset(old(a[..])) && Settled(a[..], i + 1)
  {
    var j := i + 1;
    hide Settled;
    while j < a.Length
      invariant i < j <= a.Length
      invariant multiset(a[..]) == multiset(old(a[..])) && Settled(a[..], i)
      invariant forall k | i < k < j :: |a[i].prefix| >= |a[k].prefix|
    {
      if |a[j].prefix| > |a[i].prefix| {
        ghost var before := a[..];
        SwapKeeps(before, i, j);
        a[i], a[j] := a[j], a[i];
        assert a[..] == before[i := before[j]][j := before[i]];
      }
      j := j + 1;
    }
    OneMoreSettled(a[..], i);
  }

  lemma OneMoreSettled(s: seq<DeployRule>, i: nat)
    requires i < |s| && Settled(s, i) && forall k | i < k < |s| :: |s[i].prefix| >= |s[k].prefix|
    ensures Settled(s, i + 1)
  {
  }

  // ----- the IngressRoute -----

  function AuthOf(mode: RuleMode): seq<Middleware> { if mode.Token? then [TokenVerify] else [] }

  /** The i-th route: the rule's own list when it has one, else the project's, if that exists. */
  function RouteOf(r: DeployRule, i: nat, slug: string, hosts: seq<string>, hash: string -> string,
      ownList: bool): Route {
    Route(MatchRule(HostMatch(hosts), r.prefix), BASE_PRIORITY - i,
          (if r.allow != [] then [AllowList(RuleListName(slug, hash(r.prefix)))]
           else if ownList then [AllowList(OwnListName(slug))] else [])
          + AuthOf(r.mode))
  }

  function RoutesOf(rules: seq<DeployRule>, slug: string, hosts: seq<string>, hash: string -> string,
      ownList: bool): seq<Route> {
    seq(|rules|, i requires 0 <= i < |rules| => RouteOf(rules[i], i, slug, hosts, hash, ownList))
  }

  /** The per-rule middlewares after upserting them in order. */
  function WithRuleLists(lists: map<string, seq<string>>, rules: seq<DeployRule>, slug: string,
      hash: string -> string): map<string, seq<string>> {
    if rules == [] then lists
    else
      var last := rules[|rules| - 1];
      var before := WithRuleLists(lists, rules[..|rules| - 1], slug, hash);
      if last.allow == [] then before else before[RuleListName(slug, hash(last.prefix)) := last.allow]
  }

  function Wanted(rules: seq<DeployRule>, slug: string, hash: string -> string): set<string> {
    set k | 0 <= k < |rules| && rules[k].allow != [] :: RuleListName(slug, hash(rules[k].prefix))
  }

  /** The whole override part, for rules in their final order. */
  function Overridden(c: Cluster, rules: seq<DeployRule>, slug: string, hosts: seq<string>, hash: string -> string,
      ownList: bool): Cluster {
    var keep := Wanted(rules, slug, hash);
    c.(lists := WithRuleLists(c.lists, rules, slug, hash) - (c.labelled - keep),
       labelled := keep,
       routes := RoutesOf(rules, slug, hosts, hash, ownList))
  }

  /** How a sync ends: after its last write, or at one that fails. Middlewares go when pruned, unless it stops before `kept`. */
  datatype Fate = Complete | IngressFails | UpsertFails(n: nat) | PruneFails(kept: set<string>) | RoutesFail

  /** The upsert of the n-th rule's list, if it has one. */
  predicate StopsEmitting(ordered: seq<DeployRule>, fate: Fate) {
    fate.UpsertFails? && fate.n < |ordered| && ordered[fate.n].allow != []
  }

  /** The override part as far as it came. Without rules the routes go first, else they are written last. */
  function OverriddenTo(c: Cluster, ordered: seq<DeployRule>, slug: string, hosts: seq<string>,
      hash: string -> string, ownList: bool, fate: Fate): Cluster {
    var all, keep := Overridden(c, ordered, slug, hosts, hash, ownList), Wanted(ordered, slug, hash);
    match fate
    case Complete => all
    case IngressFails => c
    case UpsertFails(n) =>
      if !StopsEmitting(ordered, fate) then all
      else c.(lists := WithRuleLists(c.lists, ordered[..n], slug, hash),
              labelled := c.labelled + Wanted(ordered[..n], slug, hash))
    case PruneFails(kept) =>
      c.(lists := WithRuleLists(c.lists, ordered, slug, hash) - (c.labelled - keep - kept),
         labelled := keep + c.labelled * kept,
         routes := if ordered == [] then [] else c.routes)
    case RoutesFail => if ordered == [] then c else all.(routes := c.routes)
  }

  class Namespace {
    const slug: string
    var lists: map<string, seq<string>>
    var labelled: set<string>
    var refs: seq<Middleware>
    var routes: seq<Route>

    ghost function Value(): Cluster
      reads this
    {
      Cluster(lists, labelled, refs, routes)
    }

    constructor (slug: string)
      ensures this.slug == slug && Value() == Cluster(map[], {}, [], [])
    {
      this.slug := slug;
      lists, labelled, refs, routes := map[], {}, [], [];
    }

    /** `ok` is the cluster's answer; without the middleware nothing may refer to it. */
    method SyncIPAllowList(cidrs: seq<string>, ok: bool) returns (ownList: bool, ghost list: seq<string>)
      modifies this`lists
      ensures ownList == ok && IsOwnList(cidrs, list)
      ensures lists == if ok then old(lists)[OwnListName(slug) := list] else old(lists)
    {
      var clean := CleanList(cidrs);
      list := clean;
      ownList := ok;
      if ok {
        lists := lists[OwnListName(slug) := clean];
      }
    }

    method PruneRuleAllowLists(keep: set<string>)
      modifies this`lists, this`labelled
      ensures lists == old(lists) - (old(labelled) - keep) && labelled == old(labelled) * keep
    {
      var todo := labelled;
      ghost var all, start := labelled, lists;
      ghost var gone: set<string> := {};
      while todo != {}
        invariant todo <= all && gone == all - todo - keep
        invariant lists == start - gone && labelled == all - gone
        decreases |todo|
      {
        var name :| name in todo;
        if name !in keep {
          WithoutOneMore(start, all, gone, name);
          lists := lists - {name};
          labelled := labelled - {name};
          gone := gone + {name};
        }
        todo := todo - {name};
      }
      assert all - gone == all * keep;
    }

    /** The loop over the sorted rules: one route each, and the rule's own list if it has one. */
    method EmitRoutes(ordered: seq<DeployRule>, hosts: seq<string>, hash: string -> string, ownList: bool,
        fate: Fate)
        returns (ok: bool, wanted: set<string>, out: seq<Route>)
      requires hosts != []
      modifies this`lists, this`labelled
      ensures ok <==> !StopsEmitting(ordered, fate)
      ensures var done := if ok then ordered else ordered[..fate.n];
              && out == RoutesOf(done, slug, hosts, hash, ownList) && wanted == Wanted(done, slug, hash)
              && lists == WithRuleLists(old(lists), done, slug, hash) && labelled == old(labelled) + wanted
    {
      hide RuleListName, OwnListName, Wanted, HostMatch, MatchRule, RoutesOf, WithRuleLists;
      NoRoutes(ordered[..0], slug, hosts, hash, ownList);
      NoLists(lists, ordered[..0], slug, hash);
      NothingWanted(ordered[..0], slug, hash);
      var hostMatch := BuildHostMatch(hosts);
      ok, out, wanted := true, [], {};
      for i := 0 to |ordered|
        invariant ok && (StopsEmitting(ordered, fate) ==> i <= fate.n)
        invariant out == RoutesOf(ordered[..i], slug, hosts, hash, ownList) && wanted == Wanted(ordered[..i], slug, hash)
        invariant lists == WithRuleLists(old(lists), ordered[..i], slug, hash) && labelled == old(labelled) + wanted
      {
        WantedSnoc(ordered, i, slug, hash);
        RoutesSnoc(ordered, i, slug, hosts, hash, ownList);
        ListsSnoc(old(lists), ordered, i, slug, hash);
        var rule := ordered[i];
        var mws: seq<Middleware> := [];
        if ownList {
          mws := [AllowList(OwnListName(slug))];
        }
        if |rule.allow| > 0 {
          if fate == UpsertFails(i) {
            ok := false;
            return;
          }
          var name := RuleListName(slug, hash(rule.prefix));
          lists := lists[name := rule.allow];
          labelled := labelled + {name};
          wanted := wanted + {name};
          mws := [AllowList(name)];
        }
        if rule.mode.Token? {
          mws := mws + [TokenVerify];
        }
        assert mws == RouteOf(rule, i, slug, hosts, hash, ownList).middlewares;
        out := out + [Route(MatchRule(hostMatch, rule.prefix), BASE_PRIORITY - i, mws)];
      }
      assert ordered[..|ordered|] == ordered;
    }

    /** Pruning that stops early has spared some of what it should have removed. */
    method PruneTo(keep: set<string>, fate: Fate) returns (ok: bool)
      modifies this`lists, this`labelled
      ensures ok <==> !fate.PruneFails?
      ensures var spared := if fate.PruneFails? then keep + fate.kept else keep;
              lists == old(lists) - (old(labelled) - spared) && labelled == old(labelled) * spared
    {
      ok := !fate.PruneFails?;
      PruneRuleAllowLists(if fate.PruneFails? then keep + fate.kept else keep);
    }

    method SyncPathRuleIngressRoute(hosts: seq<string>, rules: seq<DeployRule>, hash: string -> string,
        ownList: bool, fate: Fate)
      returns (ghost ordered: seq<DeployRule>)
      requires !fate.IngressFails?
      modifies this`lists, this`labelled, this`routes
      ensures multiset(ordered) == multiset(if hosts == [] then [] else rules) && LongestFirst(ordered)
      ensures Value() == OverriddenTo(old(Value()), ordered, slug, hosts, hash, ownList, fate)
    {
      hide RoutesOf, Wanted, WithRuleLists, LongestFirst;
      if |rules| == 0 || |hosts| == 0 {
        ordered := [];
        DropRoutes(hosts, hash, ownList, fate);
        NothingIsOrdered();
        return;
      }
      var sorted := new DeployRule[|rules|](i requires 0 <= i < |rules| => rules[i]);
      assert sorted[..] == rules;
      SortRules(sorted);
      ordered := sorted[..];
      assert ordered != [] by { assert |multiset(ordered)| == |multiset(rules)|; }
      WriteRoutes(sorted[..], hosts, hash, ownList, fate);
    }

    /** Without rules: the route object goes, then all the rules' lists. */
    method DropRoutes(hosts: seq<string>, hash: string -> string, ownList: bool, fate: Fate)
      requires !fate.IngressFails?
      modifies this`lists, this`labelled, this`routes
      ensures Value() == OverriddenTo(old(Value()), [], slug, hosts, hash, ownList, fate)
    {
      NothingWanted([], slug, hash);
      NoRoutes([], slug, hosts, hash, ownList);
      if fate.RoutesFail? {
        return;
      }
      routes := [];
      var _ := PruneTo({}, fate);
    }

    /** With rules: their lists are upserted, the others pruned, and the route object is written. */
    method WriteRoutes(ordered: seq<DeployRule>, hosts: seq<string>, hash: string -> string, ownList: bool,
        fate: Fate)
      requires hosts != [] && ordered != [] && !fate.IngressFails?
      modifies this`lists, this`labelled, this`routes
      ensures Value() == OverriddenTo(old(Value()), ordered, slug, hosts, hash, ownList, fate)
    {
      hide RoutesOf, Wanted, WithRuleLists;
      ghost var before := labelled;
      var ok, wanted, out := EmitRoutes(ordered, hosts, hash, ownList, fate);
      if !ok {
        return;
      }
      KeptLabels(before, wanted, if fate.PruneFails? then fate.kept else {});
      ok := PruneTo(wanted, fate);
      if !ok || fate.RoutesFail? {
        return;
      }
      routes := out;
    }

    /** applyIngress: a deploy writes the Ingress without any middleware. */
    method ApplyIngress(ok: bool)
      modifies this`refs
      ensures Value() == Deployed(old(Value()), ok)
    {
      if ok {
        refs := [];
      }
    }

    /** Middleware, Ingress, then the overrides. */
    method SyncIngressHostnames(hosts: seq<string>, allow: seq<string>, rules: seq<DeployRule>,
        hash: string -> string, listOk: bool, fate: Fate)
      returns (ghost list: seq<string>, ghost ordered: seq<DeployRule>)
      modifies this
      ensures hosts == [] ==> Value() == old(Value())
      ensures hosts != [] ==>
                && IsOwnList(allow, list) && Ordered(rules, ordered, fate)
                && Value() == SyncedTo(old(Value()), slug, hosts, hash, list, ordered, listOk, fate)
    {
      hide IsOwnList, OverriddenTo, LongestFirst;
      list, ordered := [], [];
      if |hosts| == 0 {
        return;
      }
      var ownList: bool;
      ownList, list := SyncIPAllowList(allow, listOk);
      if fate.IngressFails? {
        return;
      }
      refs := [];
      if ownList {
        refs := refs + [AllowList(OwnListName(slug))];
      }
      refs := refs + [ErrorsRedirect, ForwardAuth];
      assert refs == GuardRefs(slug, listOk);
      ordered := SyncPathRuleIngressRoute(hosts, rules, hash, ownList, fate);
    }
  }

  /** `ordered` are these rules sorted; a sync that fails at the Ingress does not get to sort them. */
  ghost predicate Ordered(rules: seq<DeployRule>, ordered: seq<DeployRule>, fate: Fate) {
    fate.IngressFails? || (multiset(ordered) == multiset(rules) && LongestFirst(ordered))
  }

  function Deployed(c: Cluster, ok: bool): Cluster { if ok then c.(refs := []) else c }

  lemma NothingIsOrdered()
    ensures LongestFirst([])
  {
  }

  lemma KeptLabels(before: set<string>, wanted: set<string>, kept: set<string>)
    ensures (before + wanted) * (wanted + kept) == wanted + before * kept
    ensures (before + wanted) - (wanted + kept) == before - wanted - kept
    ensures (before + wanted) * wanted == wanted && (before + wanted) - wanted == before - wanted
  {
  }

  /** `c` is what a sync makes of `before`, for a project with this effective list and these rules. */
  ghost predicate Outcome(before: Cluster, c: Cluster, slug: string, hosts: seq<string>, hash: string -> string,
      allow: seq<string>, rules: seq<PathRule>, listOk: bool, fate: Fate) {
    exists list, ordered ::
      && IsOwnList(allow, list) && Ordered(AllForDeployer(allow, rules), ordered, fate)
      && c == SyncedTo(before, slug, hosts, hash, list, ordered, listOk, fate)
  }

  /** The same for a sync that came to its end. */
  ghost predicate Compiled(before: Cluster, c: Cluster, slug: string, hosts: seq<string>, hash: string -> string,
      allow: seq<string>, rules: seq<PathRule>, listOk: bool) {
    Outcome(before, c, slug, hosts, hash, allow, rules, listOk, Complete)
  }

  /** What a read returns when it may fail. */
  function IfRead<T>(ok: bool, items: seq<T>): seq<T> { if ok then items else [] }

  /**
   syncIngressForProject: everything a change of access, domains or rules triggers. A failed read of the domains
   leaves the platform's own host, a failed read of the rules leaves no override.
   */
  method SyncIngressForProject(ns: Namespace, store: PathRuleStore, project: ProjectId, presets: Presets,
      access: string, appHost: string, domains: seq<string>, hash: string -> string, domainsOk: bool,
      rulesOk: bool, listOk: bool, fate: Fate)
    returns (ghost allow: seq<string>, ghost rules: seq<PathRule>)
    requires UniquePrefixes(store.rows)
    modifies ns
    ensures !HasWorld(allow)
    ensures allow == if access !in {"", "public"} && Usable(presets, access) then presets[access]
                     else if Usable(presets, "internal") then presets["internal"] else []
    ensures if rulesOk then ListsRules(store.rows, project, rules) else rules == []
    ensures Outcome(old(ns.Value()), ns.Value(), ns.slug, [appHost] + IfRead(domainsOk, domains), hash, allow, rules, listOk,
                    fate)
  {
    var hosts := [appHost];
    if domainsOk {
      hosts := hosts + domains;
    }
    assert hosts == [appHost] + IfRead(domainsOk, domains);
    var base := EffectiveAllowCidrs(presets, access);
    hide IsOwnList, SyncedTo, LongestFirst, AllForDeployer, ListsRules, UniquePrefixes, HasWorld, Usable, IfRead;
    var listed: seq<PathRule> := [];
    if rulesOk {
      listed := store.ListProjectPathRules(project);
    }
    allow, rules := base, listed;
    var forDeployer := RulesForDeployer(base, listed);
    var list, ordered := ns.SyncIngressHostnames(hosts, base, forDeployer, hash, listOk, fate);
  }

  /** The middlewares on the Ingress after a sync. */
  function GuardRefs(slug: string, listOk: bool): seq<Middleware> {
    (if listOk then [AllowList(OwnListName(slug))] else []) + [ErrorsRedirect, ForwardAuth]
  }

  function WithOwnList(c: Cluster, slug: string, list: seq<string>, listOk: bool): Cluster {
    if listOk then c.(lists := c.lists[OwnListName(slug) := list]) else c
  }

  /** The namespace after a sync, from the project's cleaned list and its rules in their final order. */
  function SyncedTo(c: Cluster, slug: string, hosts: seq<string>, hash: string -> string, list: seq<string>,
      ordered: seq<DeployRule>, listOk: bool, fate: Fate): Cluster {
    var listed := WithOwnList(c, slug, list, listOk);
    if fate.IngressFails? then listed
    else OverriddenTo(listed.(refs := GuardRefs(slug, listOk)), ordered, slug, hosts, hash, listOk, fate)
  }

  function Synced(c: Cluster, slug: string, hosts: seq<string>, hash: string -> string, list: seq<string>,
      ordered: seq<DeployRule>, listOk: bool): Cluster {
    SyncedTo(c, slug, hosts, hash, list, ordered, listOk, Complete)
  }

  lemma WithoutOneMore(m: map<string, seq<string>>, s: set<string>, gone: set<string>, name: string)
    ensures m - (gone + {name}) == (m - gone) - {name}
    ensures s - (gone + {name}) == (s - gone) - {name}
  {
  }

  /** Routes come in the order of the rules, each with a priority of its own. */
  lemma RoutePriorities(rules: seq<DeployRule>, slug: string, hosts: seq<string>, hash: string -> string,
      ownList: bool, k: nat)
    requires k < |rules| < 100_000 && hosts != []
    ensures var out := RoutesOf(rules, slug, hosts, hash, ownList);
            && |out| == |rules| && out[k].priority == 100_000 - k > 0
            && out[k].rule == MatchRule(HostMatch(hosts), rules[k].prefix)
  {
  }

  lemma NoRoutes(rules: seq<DeployRule>, slug: string, hosts: seq<string>, hash: string -> string, ownList: bool)
    requires rules == []
    ensures RoutesOf(rules, slug, hosts, hash, ownList) == []
  {
  }

  lemma RoutesSnoc(rules: seq<DeployRule>, i: nat, slug: string, hosts: seq<string>, hash: string -> string,
      ownList: bool)
    requires i < |rules|
    ensures RoutesOf(rules[..i + 1], slug, hosts, hash, ownList)
            == RoutesOf(rules[..i], slug, hosts, hash, ownList) + [RouteOf(rules[i], i, slug, hosts, hash, ownList)]
  {
    hide RouteOf;
  }

  lemma ListsSnoc(lists: map<string, seq<string>>, rules: seq<DeployRule>, i: nat, slug: string,
      hash: string -> string)
    requires i < |rules|
    ensures WithRuleLists(lists, rules[..i + 1], slug, hash)
            == var before := WithRuleLists(lists, rules[..i], slug, hash);
               if rules[i].allow == [] then before
               else before[RuleListName(slug, hash(rules[i].prefix)) := rules[i].allow]
  {
    assert rules[..i + 1][..i] == rules[..i];
    hide RuleListName;
  }

  lemma NoLists(lists: map<string, seq<string>>, rules: seq<DeployRule>, slug: string, hash: string -> string)
    requires rules == []
    ensures WithRuleLists(lists, rules, slug, hash) == lists
  {
  }

  lemma NothingWanted(rules: seq<DeployRule>, slug: string, hash: string -> string)
    requires rules == []
    ensures Wanted(rules, slug, hash) == {}
  {
  }

  lemma WantedSnoc(rules: seq<DeployRule>, i: nat, slug: string, hash: string -> string)
    requires i < |rules|
    ensures Wanted(rules[..i + 1], slug, hash)
            == Wanted(rules[..i], slug, hash) + if rules[i].allow != [] then {RuleListName(slug, hash(rules[i].prefix))} else {}
  {
    var a, b := Wanted(rules[..i + 1], slug, hash), Wanted(rules[..i], slug, hash);
    hide RuleListName;
    assert forall k | 0 <= k < i :: rules[..i + 1][k] == rules[k] && rules[..i][k] == rules[k];
    assert rules[..i + 1][i] == rules[i];
    forall x ensures x in a <==> x in b || (rules[i].allow != [] && x == RuleListName(slug, hash(rules[i].prefix))) {
      if x in b {
        var k :| 0 <= k < i && rules[..i][k].allow != [] && x == RuleListName(slug, hash(rules[..i][k].prefix));
        assert rules[..i + 1][k].allow != [];
      }
      if rules[i].allow != [] && x == RuleListName(slug, hash(rules[i].prefix)) {
        assert rules[..i + 1][i].allow != [];
      }
    }
  }
}
