/**
 The Ingress of a project over any run of deploys and syncs, any of which may fail at any of its writes: what the
 catch-all checks follows from the last write of the Ingress and the last write of the project's list.
 */
module IngressRuns {
  import opened Wrappers
  import opened PathRules
  import opened Ingress
  import opened IngressGate

  datatype Step =
    | Deploy(ok: bool)      // applyIngress, or a deploy that fails before it
    | Sync(hosts: seq<string>, allow: seq<string>, rules: seq<PathRule>, listOk: bool, fate: Fate)

  ghost predicate Steps(slug: string, hash: string -> string, before: Cluster, step: Step, after: Cluster) {
    match step
    case Deploy(ok) => after == Deployed(before, ok)
    case Sync(hosts, allow, rules, listOk, fate) =>
      if hosts == [] then after == before else Outcome(before, after, slug, hosts, hash, allow, rules, listOk, fate)
  }

  /** `cs` are the namespaces before, between and after the steps; it starts out empty. */
  ghost predicate Run(slug: string, hash: string -> string, cs: seq<Cluster>, steps: seq<Step>) {
    && |cs| == |steps| + 1 && cs[0] == Cluster(map[], {}, [], [])
    && forall k | 0 <= k < |steps| :: Steps(slug, hash, cs[k], steps[k], cs[k + 1])
  }

  // ----- what was written last -----

  /** The last write of the Ingress: a deploy's, or a sync's with or without the project's list. */
  datatype Written = Never | Bare | Guarded(own: bool)

  function WrittenBy(step: Step, before: Written): Written {
    match step
    case Deploy(ok) => if ok then Bare else before
    case Sync(hosts, _, _, listOk, fate) => if hosts == [] || fate.IngressFails? then before else Guarded(listOk)
  }

  function LastWrite(steps: seq<Step>): Written {
    if steps == [] then Never else WrittenBy(steps[|steps| - 1], LastWrite(steps[..|steps| - 1]))
  }

  function ListBy(step: Step, before: Option<seq<string>>): Option<seq<string>> {
    if step.Sync? && step.hosts != [] && step.listOk then Some(step.allow) else before
  }

  /** The list the project's middleware was last written for. */
  function LastList(steps: seq<Step>): Option<seq<string>> {
    if steps == [] then None else ListBy(steps[|steps| - 1], LastList(steps[..|steps| - 1]))
  }

  function RefsFor(slug: string, w: Written): seq<Middleware> {
    if w.Guarded? then GuardRefs(slug, w.own) else []
  }

  /** The namespace is as these last writes say. */
  ghost predicate Follows(slug: string, c: Cluster, w: Written, list: Option<seq<string>>) {
    && c.refs == RefsFor(slug, w) && (w == Guarded(true) ==> list.Some?)
    && OwnListName(slug) !in c.labelled
    && (list.Some? ==> OwnListName(slug) in c.lists && IsOwnList(list.value, c.lists[OwnListName(slug)]))
  }

  // ----- one step -----

  /** Whatever an override part gets done, it does not touch the project's own middleware or the Ingress. */
  lemma OverridesSpareOwn(c: Cluster, ordered: seq<DeployRule>, slug: string, hosts: seq<string>,
      hash: string -> string, ownList: bool, fate: Fate)
    requires OwnListName(slug) !in c.labelled
    ensures var c', own := OverriddenTo(c, ordered, slug, hosts, hash, ownList, fate), OwnListName(slug);
            && c'.refs == c.refs && own !in c'.labelled
            && (own in c.lists ==> own in c'.lists && c'.lists[own] == c.lists[own])
  {
    OwnListKept(c.lists, ordered, slug, hash);
    OwnNotWanted(ordered, slug, hash);
    if StopsEmitting(ordered, fate) {
      OwnListKept(c.lists, ordered[..fate.n], slug, hash);
      OwnNotWanted(ordered[..fate.n], slug, hash);
    }
    hide WithRuleLists, Wanted, RoutesOf, OwnListName;
  }

  lemma SyncFollows(c: Cluster, slug: string, hosts: seq<string>, hash: string -> string, list: seq<string>,
      ordered: seq<DeployRule>, allow: seq<string>, listOk: bool, fate: Fate, w: Written, was: Option<seq<string>>)
    requires Follows(slug, c, w, was) && IsOwnList(allow, list)
    ensures Follows(slug, SyncedTo(c, slug, hosts, hash, list, ordered, listOk, fate),
                    if fate.IngressFails? then w else Guarded(listOk), if listOk then Some(allow) else was)
  {
    hide IsOwnList, OverriddenTo, OwnListName, GuardRefs;
    var listed := WithOwnList(c, slug, list, listOk);
    OverridesSpareOwn(listed.(refs := GuardRefs(slug, listOk)), ordered, slug, hosts, hash, listOk, fate);
  }

  lemma StepFollows(slug: string, hash: string -> string, c: Cluster, step: Step, c': Cluster, w: Written,
      list: Option<seq<string>>)
    requires Follows(slug, c, w, list) && Steps(slug, hash, c, step, c')
    ensures Follows(slug, c', WrittenBy(step, w), ListBy(step, list))
  {
    hide IsOwnList, OwnListName, GuardRefs, SyncedTo, Ordered, AllForDeployer;
    if step.Sync? && step.hosts != [] {
      var own: seq<string>, ordered: seq<DeployRule> :|
        && IsOwnList(step.allow, own) && Ordered(AllForDeployer(step.allow, step.rules), ordered, step.fate)
        && c' == SyncedTo(c, slug, step.hosts, hash, own, ordered, step.listOk, step.fate);
      SyncFollows(c, slug, step.hosts, hash, own, ordered, step.allow, step.listOk, step.fate, w, list);
    }
  }

  // ----- whole runs -----

  lemma {:induction false} RunFollows(slug: string, hash: string -> string, cs: seq<Cluster>, steps: seq<Step>)
    requires Run(slug, hash, cs, steps)
    ensures Follows(slug, cs[|steps|], LastWrite(steps), LastList(steps))
    decreases |steps|
  {
    hide Steps, WrittenBy, ListBy, IsOwnList, OwnListName, GuardRefs;
    if steps != [] {
      var n := |steps| - 1;
      assert Run(slug, hash, cs[..n + 1], steps[..n]);
      RunFollows(slug, hash, cs[..n + 1], steps[..n]);
      assert cs[..n + 1][n] == cs[n];
      hide Follows;
      StepFollows(slug, hash, cs[n], steps[n], cs[n + 1], LastWrite(steps[..n]), LastList(steps[..n]));
    }
  }

  /**
   After any run, on the paths no rule matches: there is single sign-on exactly when the Ingress was last written by a
   sync, and the project's list is attached exactly when that sync had written it. The address check is then the one
   list last written; otherwise there is none.
   */
  lemma CatchAllGate(slug: string, hash: string -> string, cs: seq<Cluster>, steps: seq<Step>, src: nat)
    requires Run(slug, hash, cs, steps) && forall s | s in steps && s.Sync? :: NormalList(s.allow)
    ensures var c, w := cs[|steps|], LastWrite(steps);
            && (ForwardAuth in c.refs <==> w.Guarded?)
            && (AllowList(OwnListName(slug)) in c.refs <==> w == Guarded(true))
            && (w == Guarded(true) ==> LastList(steps).Some?)
            && (IpCheck(c, c.refs, src) <==> w == Guarded(true) ==> OwnGate(LastList(steps).value, src))
  {
    RunFollows(slug, hash, cs, steps);
    LastListIsNormal(steps);
    var c, w := cs[|steps|], LastWrite(steps);
    hide Run, IsOwnList, OwnListName, GuardRefs, LastWrite, LastList, NormalList, InList;
    if w.Guarded? {
      GuardChecks(c, slug, w.own, src);
      if w.own { OwnListIsOwnGate(LastList(steps).value, c.lists[OwnListName(slug)], src); }
    }
  }

  lemma {:induction false} LastListIsNormal(steps: seq<Step>)
    requires forall s | s in steps && s.Sync? :: NormalList(s.allow)
    ensures LastList(steps).Some? ==> NormalList(LastList(steps).value)
  {
    hide NormalList;
    if steps != [] {
      assert steps[|steps| - 1] in steps;
      LastListIsNormal(steps[..|steps| - 1]);
    }
  }

  predicate WritesIngress(step: Step) {
    if step.Deploy? then step.ok else step.hosts != [] && !step.fate.IngressFails?
  }

  lemma {:induction false} LastWriteStays(steps: seq<Step>, m: nat)
    requires m < |steps| && WritesIngress(steps[m]) && forall k | m < k < |steps| :: !WritesIngress(steps[k])
    ensures LastWrite(steps) == WrittenBy(steps[m], Never)
    decreases |steps|
  {
    var n := |steps| - 1;
    if m < n { LastWriteStays(steps[..n], m); }
  }

  /** A deploy takes the gate off the Ingress, until a sync gets to write it again. */
  lemma DeployDropsTheGate(slug: string, hash: string -> string, cs: seq<Cluster>, steps: seq<Step>, m: nat,
      src: nat)
    requires Run(slug, hash, cs, steps) && m < |steps| && steps[m] == Deploy(true)
    requires forall k | m < k < |steps| :: !WritesIngress(steps[k])
    ensures cs[|steps|].refs == [] && IpCheck(cs[|steps|], cs[|steps|].refs, src)
  {
    RunFollows(slug, hash, cs, steps);
    LastWriteStays(steps, m);
    hide Run, IsOwnList, OwnListName, LastWrite, LastList;
  }
}
