# A verified model of the deployment control plane

The control plane takes source uploads, builds and deploys them to a cluster, and decides what
traffic may go in and out of every project. This project models its decision-making code in Dafny
and proves what that code keeps. Database tables, cluster objects, the proxy's configuration language
and the ingress controller's routing are modelled as values with explicit semantics; code that changes
state is modelled as classes and methods with loops, each proved against a function or predicate about
which the main results are then shown.

Verify everything with `dafny verify dfyconfig.toml`.

## The parts

**Deployment pipeline** (`Deployments`, `Pipeline`, `PipelineAlways`, `PipelineOrder`,
`PipelineActors`, `PipelineLimits`). Upload handlers, build workers with their watchdogs and the
reconciler share one table. Every step is one SQL statement or one move of an actor between statements;
the reconciler's snapshot of at most eight rows is part of its own state. Some facts hold in every
interleaving. Others rest on three named assumptions about the steps, none of which the code enforces:

- S1: a deployment is uploaded while it is `pending`, so once. The queueing statement itself is unconditional.
- S2: the upload handler's two statements run with no other step in between.
- S3: when the reconciler writes `deploying` or `running`, the row still has the status its snapshot recorded.

`PipelineLimits` gives, for each of them, a run from the empty database that keeps the other two and breaks
the conclusion. The reconciler may restart at any step; the one restart that matters, between marking a deployment
running and superseding its siblings, is part of every statement about running deployments.

**Egress policy** (`EgressRules`, `EgressServer`, `NetPolicy`, `NetPolicyMeaning`, `Squid`, `SquidMeaning`,
`EgressDb`, `EgressRuns`, `EgressSafety`, `EgressExample`, `ProxyEnv`). Admin rules are validated, stored, and
compiled twice: to an additive network policy over address blocks (RFC 4632, section 3.1) and to a proxy
configuration read first-match (CONNECT as in section 9.3.6 of RFC 9110). Each target language has an evaluator,
and the compiled form is proved to mean what the rules say. `EgressSafety` joins the two: what a pod can do with
the proxy depends on its own project alone.

**Learning from the proxy's log** (`Collector`, `CollectorRuns`, `ObserveEnforce`). Over any passes and restarts,
each with whatever listeners are assigned at the time, no line is counted twice, the figures are those of the
counted lines, and a line is lost exactly when an earlier pass counted one of the same millisecond. Switching from
observe to enforce keeps what was seen working, from the logged text on.

**Ingress** (`PathRules`, `MatchText`, `Ingress`, `IngressGate`, `IngressRuns`). Role-checked handlers keep a table of
path rules; an in-place exchange sort and descending priorities turn it into routes. Each route's match rule is text:
`MatchText` lexes and parses it as the ingress controller does (Go expressions, raw strings in backticks) and shows
which prefixes come back out. The compiled objects give longest-prefix routing and one combined address and sign-on
gate. `IngressRuns` follows the default Ingress over any run of deploys and syncs, any of whose writes may fail.

**Smaller cores**: re-keying the encrypted environment (`Rekey`), resuming the event stream (`Sse`), slugs
and the names made from them (`Slugs`, `SquidMeaning`), the Postgres provisioner (`Provision`). `Text`, `Ipv4`,
`Sorting` and `Wrappers` hold the library operations the program uses.

## Where the code and its documentation differ

- Rules for port 80 and for port 443 have the same effect once rendered: the lines at
  internal/api/egress_proxy.go:122 and :126 carry neither a port nor a method. The closed form says so.
- A project that is `off` but has a listener keeps its allow lines in the proxy file; only its network policy
  closes it (`EgressSafety.OnlyThePolicyClosesOff`).
- Allocating a listener port reads and updates in two statements. The update alone moves the port of a project that
  has one (`EgressRuns.LateAssignMovesPort`), so stability is proved for runs without such a late update.
- A rule change pushes the policy before it allocates the listener. That is harmless unless the project is not off and has
  no listener yet (`EgressSafety.AllocationKeepsPolicy`, `EgressSafety.AllocationOutdatesPolicy`).
- The slug pattern accepts a single character although its message says 3 to 32 (`Slugs.ShortSlugs`).
- A reconnect whose URL still has an `after` parameter starts there and not at Last-Event-ID, so ids repeat
  (`Sse.ResumesAtLastSeen`, `Sse.OutdatedAfterRepeats`).
- The event stream has no gap exactly when ids become visible in order (`Sse.StreamIsExact`); an id that commits
  late is never sent (`Sse.LateIdIsNeverSent`).
- The project's address check is there exactly when its middleware could be written. Without it there is none on paths
  without a rule, and none under rules without sources of their own; of those, the `no_auth` ones are then open to
  everyone (`IngressGate.GateMeaning`, `IngressGate.OutsidersNeedTokens`, `IngressGate.UnwrittenListOpensRule`).
- The comment at internal/k8sdriver/deployer.go:847-848 promises longest prefix first for all rules. The prefix goes
  into the match rule unescaped, and path rules accept backticks, carriage returns and byte order marks. The promise holds
  exactly for prefixes the text can carry, with none of these and no NUL (`MatchText.TextMeansPrefix`). A backtick can
  leave a route unread (`IngressGate.BacktickRouteIsUnread`), or have it answer for every host and path without sign-on
  (`IngressGate.BacktickRouteAnswersAll`).
- A deploy writes the default Ingress without any middleware and leaves the gate to the sync that follows, whose failure
  is only a warning. Until a sync gets to write it, paths without a rule have neither address check nor sign-on
  (`IngressRuns.CatchAllGate`, `IngressRuns.DeployDropsTheGate`).
- The collector's cursor is a timestamp. Of two lines of one millisecond the later is lost when a pass ends between them
  (`CollectorRuns.CountedWhenReached`, `CollectorRuns.SharedMillisecondIsLost`).
- An update of a path rule decides on the sources it read a moment ago, or on none when that read fails. Someone who is
  not an admin can then take off sources added meanwhile, never add or alter any (`PathRules.StaleReadWipesSources`,
  `PathRules.OnlyAdminsAdmitSources`).
- "Direct internet is never open" (internal/api/egress_rules.go:353) fails for a deploy that cannot read the project's
  rules or mode: it goes ahead and writes the policy with the catch-all (`EgressSafety.DeployClosesInternet`).
- A reconciler that dies between marking a deployment running and superseding its siblings leaves two running, and no
  later tick comes back to them (`PipelineLimits.CrashLeavesTwoRunning`); the project's next deployment mends it.
- A legacy value, sealed without associated data, is adopted by whatever row it is found in (`Rekey.LegacyValueIsAdopted`).

## Model

| member | source | states |
|---|---|---|
| Deployments.DeploymentStore.MarkDeploymentQueued | internal/store/deployments.go:97-101 | queueing is unconditional: any existing row goes to queued with its key and time, others stay |
| Deployments.DeploymentStore.ClaimNextQueued | internal/store/deployments.go:109-126 | a claim takes to building a queued, unlocked row whose time no other such row beats, one without a time only if none has one; and nothing is claimed only if every queued row is locked |
| Deployments.DeploymentStore.TryAdvanceDeploymentStatus | internal/store/deployments.go:134-145 | the compare-and-set succeeds exactly when the row has the expected status, and stamps build_done_at once |
| Deployments.DeploymentStore.MarkDeploymentStatus | internal/store/deployments.go:147-158 | the unconditional status write, with its write-once stamps |
| Deployments.DeploymentStore.SupersedeOlderDeployments | internal/store/deployments.go:166-174 | exactly the project's other in-flight rows become superseded |
| Deployments.DeploymentStore.SupersedeRunningSiblings | internal/store/deployments.go:180-187 | exactly the project's other running rows become superseded |
| PipelineAlways.RowByRow | internal/store/deployments.go:97-187 | the effect of every protocol step on every single row, and that no other row changes or appears |
| PipelineAlways.StepSound | internal/api/reconciler.go:127-389 | every step of every actor keeps images, stamps, snapshot, slots and the one-running rule |
| PipelineAlways.AlwaysSound | internal/store/deployments.go:134-163 | in every reachable state rows past building have an image, stamps are there when the status says so, and every snapshot row exists with its project and image |
| PipelineAlways.AtMostOneRunning | internal/api/reconciler.go:371-373 | in every reachable state, stale snapshots, repeated uploads and crashes included, a project has two running deployments only while the reconciler is between its mark and its supersede, or after a crash there and before that project's next supersede |
| PipelineAlways.TornByCrashOnly | internal/api/reconciler.go:371-373 | along every run a project gets into that state only by a crash between its own mark and supersede |
| PipelineAlways.SupersedeMends | internal/store/deployments.go:180-187 | the project's next supersede ends it: no two of its deployments are running |
| PipelineAlways.OneRunningWithoutCrash | internal/api/reconciler.go:371-373 | in a run without such a crash of a project, two of its deployments are running only between mark and supersede |
| PipelineAlways.TimestampsWriteOnce | internal/store/deployments.go:134-158 | along every run, build_done_at and deployed_at never change once set |
| PipelineAlways.BuildServiceLeavesTerminal | cmd/build-service/main.go:97-217 | no build-service step takes a row from a terminal to a non-terminal status |
| PipelineAlways.SlotReturnedAfterBuilding | cmd/build-service/main.go:61-206 | a slot is returned only when its row is no longer building |
| PipelineOrder.StepRaisesRank | internal/store/deployments.go:97-187 | under S1 and S3 every status change goes up in one fixed order |
| PipelineOrder.ChangesAreBounded | internal/store/deployments.go:97-187 | under S1 and S3 a deployment changes status at most seven times in any run |
| PipelineOrder.SupersededStaysOut | internal/store/deployments.go:166-187 | under S1 and S3 a superseded deployment is never in flight or running again |
| PipelineOrder.TerminalStaysTerminal | internal/api/reconciler.go:164-389 | under S1 and S3 finished deployments stay finished |
| PipelineOrder.BuildingRowsAreHeld | cmd/build-service/main.go:61-206 | under S1 every building row is held by exactly one slot, so at most MaxConcurrent rows build |
| PipelineOrder.CancelledBuildIsNotFailed | cmd/build-service/main.go:135-186 | the watchdog cancels only a build whose row moved on, and such a build returns its slot without stamping the row failed |
| PipelineOrder.UploadOrder | internal/api/deployments.go:96-100 | under S1 to S3 a project has at most one deployment in flight, it is the latest upload, and deployments go live in upload order |
| PipelineActors.ReconcilerLoop.Handle | internal/api/reconciler.go:164-389 | one snapshot row handled: the table, the remembered summaries, and when a summary is emitted |
| PipelineActors.ReconcilerLoop.FetchSnapshot | internal/api/reconciler.go:135-159 | the snapshot: at most eight pushing or deploying rows of live projects, their times never decreasing, none passed over |
| Pipeline.SnapshotIsOldest | internal/api/reconciler.go:135-143 | along a snapshot times never decrease and rows without one come last; a row left out by the limit of eight has a time no smaller than any of them |
| PipelineActors.ReconcilerLoop.Tick | internal/api/reconciler.go:127-162 | a tick fetches such a snapshot and handles it row by row |
| PipelineActors.HandleIsARun | internal/api/reconciler.go:164-389 | handling a row, however stale, is a run of the protocol: same table, one row consumed; S3 needs the row to be current |
| PipelineActors.TickIsARun | internal/api/reconciler.go:127-162 | a whole tick with nobody interleaving is a run of the protocol, and keeps S3 by itself |
| PipelineActors.RunBuild | cmd/build-service/main.go:97-206 | what one build writes for each way it can end, whatever became of its row: one no longer building is neither stamped failed nor handed off |
| PipelineActors.BuildIsARun | cmd/build-service/main.go:97-206 | every build, successful, failed, aborted or never prepared, is a run of the protocol that frees its slot |
| PipelineActors.AbortedBuildIsARun | cmd/build-service/main.go:172-183 | a build that ends in an error after its row moved on leaves the table alone |
| PipelineActors.HandleDeploymentUploaded | internal/api/deployments.go:73-110 | only the project's own deployment is queued, and then its older ones superseded |
| PipelineActors.UploadIsARun | internal/api/deployments.go:96-100 | the handler's two statements, uninterrupted, are the protocol's atomic upload |
| PipelineLimits.RepeatedUploadRevives | internal/store/deployments.go:97-101 | without S1 a failed deployment goes back to the queue |
| PipelineLimits.CrossedUploadsLoseBoth | internal/api/deployments.go:96-100 | without S2 two uploads supersede each other |
| PipelineLimits.StaleSnapshotRevives | internal/api/reconciler.go:289-289 | without S3 a superseded deployment is put back in flight beside its successor |
| PipelineLimits.CrashLeavesTwoRunning | internal/api/reconciler.go:371-373 | whichever of S1 to S3 hold, a crash between mark and supersede leaves two running deployments that no later tick revisits |
| Squid.SplitDomains | internal/api/egress_proxy.go:105-116 | the sorted 443 and 80 lists of a project, any-port names left out |
| Squid.SpliceAnyPort | internal/api/egress_proxy.go:155-155 | the any-port lines replace the placeholder and nothing else |
| Squid.RenderTarget | internal/api/egress_proxy.go:85-129 | the block written for one project |
| Squid.RenderSquidConf | internal/api/egress_proxy.go:32-157 | the file that is rendered for any list of projects |
| SquidMeaning.ProjNameInjective | internal/api/egress_proxy.go:86-86 | names built from slugs determine the slug |
| SquidMeaning.AclNamesDiffer | internal/api/egress_proxy.go:86-153 | ACL names of different projects or purposes never collide |
| SquidMeaning.ComposedAcl | internal/api/egress_proxy.go:85-154 | in the whole file an ACL name stands for its own project's test only |
| SquidMeaning.RenderedMeansAllowed | internal/api/egress_proxy.go:63-155 | read first-match, the file admits exactly the closed form: enforce with an any-port name, or a safe request that observe or the lists let through |
| SquidMeaning.DomainPatternMeans | internal/api/egress_proxy.go:118-128 | what a listed name stands for: itself, whatever the case, and with a dot in front every name that ends in it |
| SquidMeaning.ListenerDependsOnItsProject | internal/api/egress_proxy.go:85-154 | a listener's answers depend on its own project's mode and set of domains only |
| SquidMeaning.NoDomainsNoAccess | internal/api/egress_proxy.go:98-104 | a project without domains fails closed unless it observes |
| SquidMeaning.UnownedListenerIsClosed | internal/api/egress_proxy.go:74-81 | the probe listener admits only manager requests from loopback |
| SquidMeaning.BlockIgnoresRuleOrder | internal/api/egress_proxy.go:105-116 | the order in which rules are listed does not change a byte of the block |
| SquidMeaning.ListenersAreTargets | internal/api/egress_proxy.go:80-89 | the file opens exactly the projects' ports, each under its slug, and the loopback probe |
| NetPolicy.CollectAllowed | internal/k8sdriver/deployer.go:242-282 | the nested map holds exactly the admitted pairs of endpoints, registry and rules |
| NetPolicy.EnsureEgressPolicy | internal/k8sdriver/deployer.go:234-389 | the emitted policy is a function of the set of admitted pairs, whatever the map iteration order; none without an endpoint or a pair |
| NetPolicyMeaning.PolicyMeaning | internal/k8sdriver/deployer.go:242-389 | a destination is allowed exactly by an admitted pair covering it (0 for any port), by DNS, as an own pod, or, with enforce off, outside every carve-out |
| NetPolicyMeaning.PolicyOpens | internal/k8sdriver/deployer.go:234-389 | read against the configuration's text, the enforcing policy opens each endpoint's address on 80, 443 and its own port, the registry's on 80 and 443, each rule's range on its port, DNS and own pods, and nothing else |
| NetPolicyMeaning.DnsOverUdp | internal/k8sdriver/deployer.go:336-370 | names resolve over UDP too: port 53 is named for the DNS pods and the DNS address, and no other UDP port is named |
| NetPolicyMeaning.EndpointText | internal/k8sdriver/deployer.go:252-260 | an address, a colon and a port between 1 and 65535 are such an endpoint |
| NetPolicyMeaning.PublicBlockIs | internal/k8sdriver/deployer.go:309-325 | the blocks carved out besides the four private ones: those whose written address is in none of them and not a loopback one |
| NetPolicyMeaning.AdmittedIgnoresOrder | internal/k8sdriver/deployer.go:254-282 | the order of endpoints and rules does not reach the policy |
| EgressRules.CheckDomain | internal/api/egress_rules.go:233-264 | a domain is accepted exactly when it is dot-separated labels with an optional leading dot and not an address; which fault is reported first |
| EgressRules.NormaliseCidr | internal/api/project_actions.go:59-78 | a block stays as it is written, a bare address becomes the block of just that address, anything else is refused, blank or unreadable |
| EgressRules.NormaliseCidrIdempotent | internal/api/project_actions.go:59-78 | normalising twice is normalising once |
| EgressRules.ProtectedIPs | internal/api/egress_rules.go:301-328 | exactly the non-loopback addresses among the configured hosts, each once |
| EgressRules.ProtectedAre | internal/api/egress_rules.go:301-328 | an address is protected exactly when it is not a loopback one and one of the six configured hosts is that address, with or without a port |
| EgressRules.NormaliseRule | internal/api/egress_rules.go:166-227 | a rule is accepted exactly when what it asks for may be stored: port ranges, and no any-port or reserved port on a protected address; which port it gets, and which ports are refused |
| EgressRules.NormaliseEndpoint | internal/api/egress_rules.go:185-224 | the same for endpoints, with the exact condition of each refusal: any port, or 5001, 5173, 5432 or 8080, on a range a protected address lies in |
| Ipv4.ContainsRange | internal/api/egress_rules.go:195-219 | a block of length n holds exactly the 2^(32-n) addresses from its base on |
| Ipv4.ShorterHoldsMore | internal/api/egress_rules.go:195-219 | shortening the length only adds addresses; length 32 holds just the one written |
| EgressDb.FirstFree | internal/store/egress_proxy.go:62-69 | the lowest port of the window that is not held, or none when all are |
| EgressDb.EgressStore.EnsureEgressProxyPort | internal/store/egress_proxy.go:44-82 | a held port is kept, otherwise the lowest free one is assigned, and what the caller is told |
| EgressDb.EgressStore.ReplaceProjectEgressRules | internal/store/egress_rules.go:62-83 | the whole list is swapped, conflicting duplicates skipped |
| EgressDb.EgressStore.ListEgressProxyTargets | internal/store/egress_proxy.go:88-123 | every live project with a port, once, ordered by slug, with exactly its domain rules |
| EgressDb.EgressStore.ProxyPortSlugs | internal/store/egress_proxy.go:168-185 | exactly the inverse of the live projects' ports |
| EgressDb.EgressStore.LearnDomain | internal/api/egress_mode.go:320-324 | a host is added for the project of that slug only while it observes |
| EgressRuns.PortsStayDistinct | internal/store/egress_proxy.go:14-82 | over every run of create, delete, allocate, re-mode, replace and learn, live ports are distinct and in the window |
| EgressRuns.LowestFreePort | internal/store/egress_proxy.go:58-69 | a new port is free and every lower one is held |
| EgressRuns.ExhaustedWhenFull | internal/store/egress_proxy.go:19-21 | allocation fails exactly when 872 live projects hold ports |
| EgressRuns.PortIsStable | internal/store/egress_proxy.go:39-56 | over every run without its deletion or a late update, a project keeps its port |
| EgressRuns.LateAssignMovesPort | internal/store/egress_proxy.go:61-73 | the update without its read always takes the port away |
| EgressRuns.PortIsReused | internal/store/egress_proxy.go:61-73 | a deleted project's port is handed out again |
| EgressServer.Server.EgressAllowsForProject | internal/api/egress_rules.go:270-283 | exactly the project's endpoint rules |
| EgressServer.Server.EgressConfigForProject | internal/api/egress_rules.go:338-362 | what is admitted and the proxy URL, with the listener unless the mode is off, there is none or the host is not an address; enforce unless one of the two reads fails |
| EgressServer.Server.SyncEgressPolicy | internal/api/egress_rules.go:287-296 | the policy is pushed only when everything could be read, and is then the project's |
| EgressServer.Server.ApplyEgress | internal/api/reconciler.go:278-314 | a deploy writes policy and proxy variables from whatever could be read |
| EgressServer.Server.SetProxyEnv | internal/k8sdriver/deployer.go:1566-1585 | the proxy variables of a deployed container are rewritten, one not deployed yet is left alone |
| EgressServer.CheckBody | internal/api/egress_rules.go:87-103 | all rules accepted, each once, or the position of the first bad one |
| EgressServer.Server.HandlePutProjectEgress | internal/api/egress_rules.go:65-144 | who may write, which list is stored, what is pushed, when each answer is given, and that a refused request changes nothing |
| EgressServer.Server.HandlePatchEgressMode | internal/api/egress_mode.go:21-67 | a listener first unless off, then the mode, the proxy file, the policy and the pods' proxy variables; when each answer is given, a refused listener included, and what it leaves as it was |
| EgressSafety.RulesStaySafe | internal/api/egress_rules.go:200-224 | over every run of accepted lists, no stored endpoint rule opens a reserved or any port on a protected address |
| EgressSafety.PolicyOpensExactly | internal/api/egress_rules.go:330-362 | the policy of a live project opens what the platform's configuration names, the range of each of its endpoint rules on the rule's port, its own listener unless it is off, DNS and its own pods, and nothing else |
| EgressSafety.ReservedPortsStayClosed | internal/api/egress_rules.go:27-32 | in every reachable state a project's policy reaches 5001, 5432, 8080 or 5173 on an address the handler protects exactly when the platform's own configuration puts an endpoint there |
| EgressSafety.PolicyOpensOwnListener | internal/api/egress_rules.go:343-362 | in the port window the policy opens the project's own listener only, and only while its mode is not off |
| EgressSafety.ListenerOwner | internal/store/egress_proxy.go:88-123 | a listener in the proxy file belongs to the one live project holding its port |
| EgressSafety.OwnListenerAdmits | internal/api/egress_proxy.go:85-155 | at its own listener a project gets exactly what its own rules say |
| EgressSafety.PushedPolicyIsInSync | internal/api/egress_rules.go:287-296 | the policy the server pushes is compiled from exactly the pairs its tables and configuration admit |
| EgressSafety.ProxyUseIsOwnRules | internal/api/egress_rules.go:330-362 | with policy and proxy file in sync, a pod can use the proxy for a request exactly when its project is not off and its own rules allow it |
| EgressSafety.OtherProjectsDoNotMatter | internal/api/egress_proxy.go:85-155 | two worlds that agree on one project give its pods the same use of the proxy |
| EgressSafety.OnlyThePolicyClosesOff | internal/api/egress_rules.go:353-359 | an off project's listener still serves its listed names |
| EgressSafety.AllocationKeepsPolicy | internal/api/egress_rules.go:115-131 | allocating the listener after the policy was pushed changes nothing for a project that is off or has one |
| EgressSafety.AllocationOutdatesPolicy | internal/api/egress_rules.go:115-131 | otherwise the pushed policy misses exactly the listener just allocated |
| EgressSafety.DeployClosesInternet | internal/api/reconciler.go:278-314 | the policy a deploy writes keeps the internet closed if and only if the project's rules and mode could both be read |
| EgressSafety.DeployIsInSync | internal/api/egress_rules.go:338-362 | with both reads it is the policy the project should have |
| EgressSafety.PodsUseOwnListener | internal/api/egress_rules.go:353-361 | the proxy variables of a project's pods name its own listener, and there are none when it is off |
| EgressSafety.PodsBypassProxy | internal/k8sdriver/deployer.go:1532-1562 | what the pods keep off the proxy |
| EgressSafety.SituationArises | internal/api/egress_mode.go:37-62 | any live project that is not off and holds a port can be in the end-to-end situation |
| EgressExample.HypothesesHold | internal/api/egress_rules.go:298-362 | a worked installation meets every hypothesis of the egress results |
| ProxyEnv.WithProxyEnv | internal/k8sdriver/deployer.go:1540-1564 | other variables kept in order, the proxy ones replaced |
| ProxyEnv.LatestSettingWins | internal/k8sdriver/deployer.go:1538-1564 | only the latest proxy setting leaves a trace |
| ProxyEnv.ProxyVariablesAfter | internal/k8sdriver/deployer.go:1538-1564 | a proxy variable is there exactly when there is a URL and it has its one value: the URL for the four proxy names, the exceptions for the other two |
| Collector.ParseProxyLog | internal/api/egress_mode.go:91-124 | which lines of the log's text are read, and as what |
| Collector.Fold | internal/api/egress_mode.go:247-281 | accumulators, rows and next cursor of a pass are those of its counted lines |
| Collector.LogCollector.Restart | internal/api/egress_mode.go:202-215 | the cursor comes from the newest last_seen, and past hosts are backfilled for observing projects |
| Collector.LogCollector.UpsertStats | internal/api/egress_mode.go:282-295 | counts add up, first_seen stays, last_seen is the greater |
| Collector.LogCollector.Collect | internal/api/egress_mode.go:232-328 | one pass: statistics, access log, cursor, and the rules learned |
| CollectorRuns.PassCountsNewLines | internal/api/egress_mode.go:252-259 | what a pass counts lies behind everything counted before, whatever listeners are assigned by then |
| CollectorRuns.MergeCounts | internal/api/egress_mode.go:282-295 | upserting a pass's figures is counting its lines after the earlier ones |
| CollectorRuns.RebootKeepsCursor | internal/api/egress_mode.go:202-206 | whatever lines were counted, the newest last_seen in the table is the cursor that was lost |
| CollectorRuns.CountedOnceAtMost | internal/api/egress_mode.go:195-328 | over any passes and restarts, each with its own listeners, the state is that of the counted lines and no position of the log is counted twice |
| CollectorRuns.CountedWhenReached | internal/api/egress_mode.go:252-259 | a line with a host whose listener is known to the first pass that reaches it is counted exactly once in the whole run, under that listener's project, if and only if no earlier pass has counted a line of its millisecond |
| CollectorRuns.SharedMillisecondIsLost | internal/api/egress_mode.go:252-259 | two passes and two lines of one millisecond: the second is never counted |
| CollectorRuns.CountedByAPass | internal/api/egress_mode.go:252-259 | whatever is counted was counted by some pass, under that pass's listeners |
| CollectorRuns.ExactlyOnce | internal/api/egress_mode.go:195-328 | while the listeners stay as they are, any passes and restarts leave the state of one pass over all of the log, if and only if no pass begins between two readable lines of one millisecond |
| CollectorRuns.TotalsMatchRows | internal/api/egress_mode.go:282-307 | over any run, allowed plus denied is the number of access-log rows, and the cursor is the newest last_seen |
| CollectorRuns.FiguresAreCounts | internal/api/egress_mode.go:260-281 | over any run each host's figures are the numbers of its counted lines and the times of the first and the last of them, and every counted line is one row, field by field |
| ObserveEnforce.UrlRoundTrip | internal/api/egress_mode.go:103-120 | host and port come back out of the URL the proxy logs |
| ObserveEnforce.UrlWithoutPort | internal/api/egress_mode.go:103-120 | without a port the destination port is 80 after http:// and 443 otherwise |
| ObserveEnforce.TimeRoundTrip | internal/api/egress_mode.go:121-121 | a time in the file's format is read back to the millisecond |
| ObserveEnforce.DeniedMeans | internal/api/egress_mode.go:272-276 | a status counts as denied exactly when the word DENIED occurs in it |
| ObserveEnforce.ProbeIsSkipped | internal/api/egress_mode.go:100-102 | lines of the loopback probe's listener are skipped |
| ObserveEnforce.LineRoundTrip | internal/api/egress_mode.go:90-124 | the collector reads back time, listener, status, method, host and port from the line the proxy writes (internal/api/egress_proxy.go:52) |
| ObserveEnforce.HostIsLearned | internal/api/egress_mode.go:308-325 | after a pass, every host it saw let through has a rule, on the port of the first of its counted lines when that is 80 or 443 and on any port otherwise |
| ObserveEnforce.LearnedRules | internal/api/egress_mode.go:308-325 | a pass adds exactly these rules: a rule is new if and only if its host was let through and its port is the one the host's first counted line calls for |
| ObserveEnforce.BackfilledRules | internal/api/egress_mode.go:207-215 | a restart adds exactly a rule for port 443 for every host an observing project was ever let through to |
| ObserveEnforce.LearnedHostStaysNarrow | internal/api/egress_mode.go:312-319 | a host first seen on 80 or 443, and matched by no any-port rule before, is not admitted on any other port by the file rendered once the project enforces |
| ObserveEnforce.ObserveThenEnforce | internal/api/egress_mode.go:308-325 | a request that got through, whose logged line is in the text a pass reads while the project observes and holds that listener, is let through by the file rendered once it enforces; tables at the three moments are independent, but no rule goes |
| ObserveEnforce.LateLinesTeachNothing | internal/api/egress_mode.go:320-324 | a project that no longer observes learns nothing |
| PathRules.InputFaultOf | internal/api/path_rules.go:196-216 | exactly the absolute, blank-free prefixes of at most 200 characters with a known mode pass; which fault is reported, for every other input |
| PathRules.HasWorldCidr | internal/api/project_actions.go:44-53 | whether any entry has length zero |
| PathRules.NormaliseCidrs | internal/api/project_actions.go:82-100 | the normal forms of the non-blank entries, each once, or a refusal when one is unreadable |
| PathRules.CheckExternal | internal/api/path_rules.go:222-244 | which external sources may be stored, and exactly when each of the four refusals is given, from the request's own entries |
| PathRules.PathRuleStore.HandleCreate | internal/api/path_rules.go:36-83 | what a created rule is, that a refusal changes nothing, and exactly when each answer is given, from the request and the table before: done if and only if the actor may manage, the input is well-formed, the sources pass and no rule of the project has the prefix |
| PathRules.PathRuleStore.HandleUpdate | internal/api/path_rules.go:87-161 | the same for updates with nobody interleaving, not-found included, keeping the sources when they are left out and reserving rules that have some to admins |
| PathRules.PathRuleStore.FinishUpdate | internal/api/path_rules.go:127-147 | the update given whatever its first statement read, with the table as it is by then: exactly when each answer is given, and what is stored |
| PathRules.PathRuleStore.HandleDelete | internal/api/path_rules.go:164-192 | the rule goes if it is there and the project's |
| PathRules.PathRuleStore.ListProjectPathRules | internal/store/path_rules.go:33-52 | exactly the project's rules, longest prefix first, equal lengths in byte order |
| PathRules.SessionStaysValid | internal/api/path_rules.go:36-244 | over every session, stale reads included, prefixes are unique per project, and external sources are normal, not world-open, and in token mode |
| PathRules.OnlyAdminsAdmitSources | internal/api/path_rules.go:115-136 | however stale the read, whoever is not an admin can neither add nor alter external sources |
| PathRules.SourcesSurviveOwners | internal/api/path_rules.go:112-127 | with an up-to-date read they cannot take sources off a rule either, short of deleting it |
| PathRules.StaleReadWipesSources | internal/api/path_rules.go:115-136 | their update gets through exactly when the read found no sources, and then leaves none |
| PathRules.RulesStayInTheirProject | internal/store/path_rules.go:76-105 | no request changes another project's rules, nor any rule without the right to manage |
| MatchText.BuildHostMatch | internal/k8sdriver/deployer.go:858-868 | one Host call, or several joined by `||` in parentheses |
| MatchText.RuleReads | internal/k8sdriver/deployer.go:858-914 | the controller reads the match rule of any prefix without a backtick as "one of these hosts, and this prefix less its carriage returns", or not at all |
| MatchText.TextMeansPrefix | internal/k8sdriver/deployer.go:912-914 | the match rule means "one of these hosts, and this prefix" if and only if the prefix is absolute and has no backtick, carriage return, byte order mark or NUL |
| MatchText.TwoPartReads | internal/k8sdriver/deployer.go:912-914 | a prefix that goes on behind its own closing backtick adds an alternative to the hosts as well |
| Ingress.EffectiveAllowCidrs | internal/api/project_actions.go:22-41 | the project's usable preset, else a usable `internal`, else nothing; never a world-open list |
| Ingress.RulesForDeployer | internal/api/project_actions.go:164-180 | a rule with sources gets the project's list and its own, others the project's |
| Ingress.DeployedSources | internal/api/project_actions.go:164-180 | which sources such a rule has: the project's and those of its own that are not world-open |
| Ingress.CleanList | internal/k8sdriver/deployer.go:985-1005 | the non-blank entries, trimmed, each once, or the loopback placeholder |
| Ingress.SortRules | internal/k8sdriver/deployer.go:849-856 | the exchange sort permutes the rules into non-increasing prefix length |
| Ingress.Namespace.EmitRoutes | internal/k8sdriver/deployer.go:858-922 | one route per rule: its match text, priority 100000 minus its position, its list and its authentication; and how far it came when a list could not be written |
| Ingress.RoutePriorities | internal/k8sdriver/deployer.go:878-914 | the routes stand in the order of the rules, with priorities counting down from 100000 |
| Ingress.Namespace.PruneRuleAllowLists | internal/k8sdriver/deployer.go:1487-1505 | exactly the per-rule lists no longer wanted disappear |
| Ingress.Namespace.SyncIngressHostnames | internal/k8sdriver/deployer.go:785-828 | the namespace after a sync, as a function of list and sorted rules, whichever write it fails at |
| Ingress.Namespace.ApplyIngress | internal/k8sdriver/deployer.go:737-743 | a deploy writes the Ingress without middlewares and touches nothing else |
| Ingress.SyncIngressForProject | internal/api/project_actions.go:144-190 | the objects compiled for a project are those of its effective list, its hosts and its rules, as far as hosts and rules could be read |
| IngressGate.WinnerIsLongest | internal/k8sdriver/deployer.go:849-922 | where the match texts carry their prefixes, the answering route of highest priority is that of the unique longest matching prefix, whatever the input order |
| IngressGate.CatchAllWins | internal/k8sdriver/deployer.go:883-887 | the default Ingress serves a path exactly when no rule matches |
| IngressGate.GateMeaning | internal/k8sdriver/deployer.go:785-922 | for every host, path and source, and whether or not the list could be written: sign-on applies exactly where no rule matches, and the address check is the project's list there and the longest rule's elsewhere, except that an unwritten list is no check |
| IngressGate.OutsidersNeedTokens | internal/api/path_rules.go:218-244 | a source outside the project's list meets neither sign-on nor a token exactly when the list could not be written and the longest rule has no sources and no token mode |
| IngressGate.UnwrittenListOpensRule | internal/k8sdriver/deployer.go:789-811 | this happens: with the list unwritten a `no_auth` rule has an empty chain |
| IngressGate.PrefixIsStored | internal/api/path_rules.go:196-216 | every well-formed prefix is stored for whoever manages the project |
| IngressGate.BacktickRouteIsUnread | internal/k8sdriver/deployer.go:912-914 | a stored prefix with one backtick: its route answers nothing, so its paths stay with the catch-all |
| IngressGate.BacktickRouteAnswersAll | internal/k8sdriver/deployer.go:912-914 | a stored prefix that goes on behind its backtick: its route answers every path of every host |
| IngressGate.ListedRulesAreGood | internal/store/path_rules.go:33-52 | the rules of every reachable table are as the gate expects them |
| IngressGate.OwnListNeverLabelled | internal/k8sdriver/deployer.go:971-980 | pruning can never remove the project's own middleware |
| IngressRuns.CatchAllGate | internal/k8sdriver/deployer.go:737-828 | over any run of deploys and syncs, failing at any write: sign-on guards unmatched paths exactly when the Ingress was last written by a sync, the list is attached exactly when that sync had written it, and the check is the one list last written |
| IngressRuns.DeployDropsTheGate | internal/k8sdriver/deployer.go:737-743 | after a deploy nothing is checked there until the Ingress is written again |
| Rekey.EnvAadInjective | internal/auth/crypto.go:71-80 | different rows have different associated data, never the empty one |
| Rekey.EnvStore.Plan | cmd/rekey-env/main.go:94-122 | every row is skipped, rewritten or unreadable, and a rewritten one keeps its plaintext |
| Rekey.EnvStore.Verify | cmd/rekey-env/main.go:187-201 | every row opens under the key and its own associated data, and there is one |
| Rekey.EnvStore.Migrate | cmd/rekey-env/main.go:94-168 | aborts exactly when some row is unreadable, changes all or nothing, and its verification never fails |
| Rekey.SecondRunIsIdle | cmd/rekey-env/main.go:97-102 | a second run changes nothing |
| Rekey.MovedValueFails | internal/auth/crypto.go:71-80 | a bound value copied to another row opens nowhere else |
| Rekey.CorpusMigrates | cmd/rekey-env/main.go:104-121 | any mix of legacy and bound rows can be re-keyed and keeps its plaintexts |
| Rekey.RotationsCompose | cmd/rekey-env/main.go:1-25 | any number of rotations keeps every plaintext and leaves all rows bound under the latest key |
| Rekey.OldKeyIsRetired | cmd/rekey-env/main.go:97-121 | after a rotation the old key opens nothing |
| Rekey.LegacyValueIsAdopted | cmd/rekey-env/main.go:108-112 | a legacy value is accepted in any row |
| Sse.StreamEvents | internal/api/sse.go:114-130 | the ids above the cursor in order, and the cursor to go on from |
| Sse.EventStream.Turn | internal/api/sse.go:84-111 | the frames one wake-up or heartbeat appends: a ping first on a heartbeat, the new events, and the end marker last |
| Sse.EventStream.Serve | internal/api/sse.go:69-111 | a session sends the stream of its passes and stops at the first terminal one; the end marker is sent exactly then, as the last frame |
| Sse.StreamIsIncreasing | internal/api/sse.go:114-130 | the stream is strictly increasing, above the start, up to the cursor |
| Sse.StreamIsExact | internal/store/deployments.go:199-218 | it is exactly the ids above the start up to the last read if and only if, at every pass, the ids still to come are greater than all the table holds |
| Sse.LateIdIsNeverSent | internal/api/sse.go:114-130 | id 2 visible before id 1: 1 is never sent |
| Sse.ResumedStream | internal/api/sse.go:56-64 | sessions joined at the cursor send what one session would have |
| Sse.CursorIsLastSeen | internal/api/sse.go:119-128 | the cursor is the last id the client saw |
| Sse.CutPass | internal/api/sse.go:114-130 | losing the connection inside a pass is a pass over what was received |
| Sse.ResumesAtLastSeen | internal/api/sse.go:56-64 | a reconnect goes on from the last seen id exactly when the URL has no other readable `after` |
| Sse.OutdatedAfterRepeats | internal/api/sse.go:60-64 | an older `after` in the URL repeats every id in between |
| Slugs.SanitizeForSlug | internal/api/projects.go:270-292 | the base of a slug: 3 to 24 slug characters, no leading or double hyphen; "app" when less than three are left, cut at 24 |
| Slugs.SqueezeKeepsLetters | internal/api/projects.go:270-283 | no letter or digit of the name is lost or moved |
| Slugs.RandomSuffix | internal/scan/slug.go:39-47 | every byte picks a letter or digit |
| Slugs.NewSlug | internal/api/projects.go:115-129 | every generated slug is accepted, and is made of the name, or else the manifest's name, or else "app", and four random letters or digits |
| Slugs.AcceptedSlugsAreText | internal/scan/slug.go:11-37 | accepted slugs have no underscore, so names built from them are injective |
| Slugs.AcceptedSlugs | internal/scan/slug.go:10-37 | a slug is accepted exactly when its lower-case form has the shape and is none of the reserved names |
| Slugs.LongSlugs | internal/scan/slug.go:10-31 | from three characters on: a letter or digit at either end, letters, digits and hyphens between, 32 at most |
| Slugs.ShortSlugs | internal/scan/slug.go:10-31 | one character is accepted, two never |
| Provision.PostgresServer.Provision | internal/provision/postgres.go:79-149 | role, database and grant after provisioning, and that the returned URL logs in |
| Provision.OtherProjectsDoNotInterfere | internal/provision/postgres.go:53-181 | over any provisioning and deprovisioning of others a project's URL keeps working and its data stays |
| Provision.ReprovisionRotates | internal/provision/postgres.go:69-74 | provisioning again rotates the password and keeps the contents |
| Provision.DeprovisionUndoes | internal/provision/postgres.go:151-181 | deprovisioning undoes a first provisioning |

## Left out

- Errors of database writes: they succeed. Reads that may fail are parameters where the program goes on without them (egress configuration, domains, path rules).
- Crashes of the build service: it is one process that does not die. The reconciler may restart at any step.
- S3 is stated as the row still having its recorded status when `deploying` or `running` is written, not as when it was fetched.
- Squid and cluster files as text: directives and middlewares are values with string names, not bytes; only a route's match rule is text. Cache, DNS and log settings of the proxy file carry no decision.
- MatchText.TextMeansPrefix: of the controller's rule language it reads `Host`, `PathPrefix`, `!`, `&&`, `||`, parentheses and raw strings; a text with other matchers, double-quoted strings or line breaks counts as unread. Hosts are as the pattern at internal/api/domains.go:21 admits them and compare as they are written.
- IPv6 text: addresses and blocks are dotted quads, so a value the program reads as IPv6 counts as unreadable. Host and label comparison is ASCII.
- Loopback platform endpoints, and any endpoint rule naming a port of the listener window on the proxy's own host, are excluded by hypothesis (`WindowIsOurs`).
- EgressSafety.ReservedPortsStayClosed: speaks of destinations that are neither cluster DNS pods nor the project's own pods, because platform addresses are neither.
- Sse.StreamIsExact: says nothing of an event appended between the last listing and the end marker, which is not part of the stream.
- CollectorRuns.CountedOnceAtMost: lines are logged in the order of their timestamps, and a pass sees every line it would still count; database errors and project deletions in the middle of a pass, pruning of old rows and the scanner's line limit are not modelled.
- Collector.ParseProxyLog: a timestamp is read in the file's own format only; other float forms read as 0.
- IngressGate.GateMeaning: prefixes are such as the match text carries (`MatchText.TextMeansPrefix` says which), presets are stored in normal form, the short prefix hash tells a project's prefixes apart, and the default Ingress has a lower priority than every route. It speaks of a sync that came to its end; after one that stopped in the overrides the model says what is there, and what the catch-all checks (`IngressRuns.CatchAllGate`), but not how the controller treats a route whose list is gone. Deploys that fail between their writes, and the hosts a deploy leaves out of the Ingress, are not modelled.
- Rekey.EnvStore.Migrate: no environment row is written while the tool runs; key loading, nonces and the cipher itself are the ideal AEAD's.
- Provision.PostgresServer.Provision: all statements succeed; connections and SQL quoting are not modelled.
- Redis and S3 credentials, the platform-wide allow-list, TLS, access visibility and domains beyond their number: no property of their own here.
- Project health, pod summaries, the startup sweeps, pagination, audit records, the wake-up bus (wake-ups come at any time), HTTP routing, JSON, JWT, OIDC and the web UI.
