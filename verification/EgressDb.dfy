/**
 The egress tables: projects with their mode and proxy port, and the rules of each project
 (internal/store/egress_proxy.go, internal/store/egress_rules.go). Statements are functions on
 the database value; the class is the store that performs them.
 */
module EgressDb {
  import opened Wrappers
  import opened Sorting
  import opened Squid

  type ProjectId = nat

  datatype Kind = DomainKind | EndpointKind

  /** One row of project_egress_rules under its unique key; the note does not matter here. */
  datatype Rule = Rule(kind: Kind, value: string, port: int)

  datatype Project = Project(slug: string, live: bool, mode: Mode, port: Option<int>)

  datatype Db = Db(projects: map<ProjectId, Project>, rules: map<ProjectId, set<Rule>>)

  const PORT_MIN := 13128
  const PORT_MAX := 13999

  predicate InWindow(p: int) { PORT_MIN <= p <= PORT_MAX }

  function RulesOf(db: Db, id: ProjectId): set<Rule> {
    if id in db.rules then db.rules[id] else {}
  }

  predicate Live(db: Db, id: ProjectId) { id in db.projects && db.projects[id].live }

  /** `id` is a live project holding listener port `p`. */
  predicate Holds(db: Db, id: ProjectId, p: int) {
    Live(db, id) && db.projects[id].port == Some(p)
  }

  function HeldPorts(projects: map<ProjectId, Project>): set<int> {
    set id | id in projects && projects[id].live && projects[id].port.Some? :: projects[id].port.value
  }

  /** generate_series(lo, PORT_MAX) minus `held`, ORDER BY p LIMIT 1. */
  function FirstFree(held: set<int>, lo: int): (r: Option<int>)
    ensures r.Some? ==> lo <= r.value <= PORT_MAX && r.value !in held && forall q | lo <= q < r.value :: q in held
    ensures r.None? ==> forall q | lo <= q <= PORT_MAX :: q in held
    decreases PORT_MAX + 1 - lo
  {
    if lo > PORT_MAX then None
    else if lo !in held then Some(lo)
    else FirstFree(held, lo + 1)
  }

  // ----- statements -----

  function CreateProject(db: Db, id: ProjectId, slug: string): Db {
    db.(projects := db.projects[id := Project(slug, true, Off, None)])
  }

  function SoftDelete(db: Db, id: ProjectId): Db {
    if Live(db, id) then db.(projects := db.projects[id := db.projects[id].(live := false)]) else db
  }

  function SetMode(db: Db, id: ProjectId, mode: Mode): Db {
    if id in db.projects then db.(projects := db.projects[id := db.projects[id].(mode := mode)]) else db
  }

  /** The allocating UPDATE: it does not look at the port the project may already have. */
  function AssignPort(db: Db, id: ProjectId): Db {
    if !Live(db, id) then db
    else db.(projects := db.projects[id := db.projects[id].(port := FirstFree(HeldPorts(db.projects), PORT_MIN))])
  }

  /** The read that comes before it, then the UPDATE if there was no port. */
  function EnsurePort(db: Db, id: ProjectId): Db {
    if Live(db, id) && db.projects[id].port.Some? then db else AssignPort(db, id)
  }

  function ReplaceRules(db: Db, id: ProjectId, rules: seq<Rule>): Db {
    db.(rules := db.rules[id := set r | r in rules])
  }

  predicate Observing(db: Db, id: ProjectId, slug: string) {
    Live(db, id) && db.projects[id].slug == slug && db.projects[id].mode.Observe?
  }

  /** A domain the collector saw a project use. */
  datatype Lesson = Lesson(slug: string, host: string, port: int)

  /** The rules a project gets out of some lessons: those under its slug, while it observes. */
  function Taught(db: Db, id: ProjectId, lessons: set<Lesson>): set<Rule> {
    set l | l in lessons && Observing(db, id, l.slug) :: Rule(DomainKind, l.host, l.port)
  }

  /** INSERT ... SELECT id FROM projects WHERE slug = $1 AND live AND egress_mode = 'observe', conflicts skipped. */
  function Learn(db: Db, lessons: set<Lesson>): Db {
    var pupils := set id | id in db.projects && Taught(db, id, lessons) != {};
    db.(rules := map id | id in db.rules.Keys + pupils :: RulesOf(db, id) + Taught(db, id, lessons))
  }

  /** The rows afterwards, project by project. */
  lemma LearnRow(db: Db, lessons: set<Lesson>, id: ProjectId)
    ensures id in Learn(db, lessons).rules <==> id in db.rules || Taught(db, id, lessons) != {}
    ensures id in Learn(db, lessons).rules ==> Learn(db, lessons).rules[id] == RulesOf(db, id) + Taught(db, id, lessons)
  {
    if Taught(db, id, lessons) != {} {
      var r :| r in Taught(db, id, lessons);
      assert id in db.projects;
    }
  }

  lemma LearnNothing(db: Db)
    ensures Learn(db, {}) == db
  {
    forall id ensures id in Learn(db, {}).rules <==> id in db.rules
              ensures id in db.rules ==> Learn(db, {}).rules[id] == db.rules[id]
    {
      LearnRow(db, {}, id);
      assert Taught(db, id, {}) == {};
    }
    assert Learn(db, {}).rules == db.rules;
  }

  /** Lessons learned one after the other. */
  lemma LearnTwice(db: Db, a: set<Lesson>, b: set<Lesson>)
    ensures Learn(Learn(db, a), b) == Learn(db, a + b)
  {
    var once, twice, both := Learn(db, a), Learn(Learn(db, a), b), Learn(db, a + b);
    hide Observing, Learn, Taught;
    forall id ensures id in twice.rules <==> id in both.rules
              ensures id in both.rules && id in twice.rules ==> twice.rules[id] == both.rules[id]
    {
      SameProjects(db, a);
      TaughtByProjects(db, once, id, b);
      TaughtBoth(db, id, a, b);
      LearnRow(db, a, id);
      LearnRow(once, b, id);
      LearnRow(db, a + b, id);
    }
    assert twice.rules == both.rules;
    SameProjects(db, a);
    SameProjects(once, b);
    SameProjects(db, a + b);
  }

  lemma SameProjects(db: Db, lessons: set<Lesson>)
    ensures Learn(db, lessons).projects == db.projects
  {
  }

  lemma TaughtByProjects(db: Db, db': Db, id: ProjectId, lessons: set<Lesson>)
    requires db'.projects == db.projects
    ensures Taught(db', id, lessons) == Taught(db, id, lessons)
  {
  }

  lemma TaughtBoth(db: Db, id: ProjectId, a: set<Lesson>, b: set<Lesson>)
    ensures Taught(db, id, a + b) == Taught(db, id, a) + Taught(db, id, b)
  {
    hide Observing;
  }

  lemma OneLesson(db: Db, l: Lesson, id: ProjectId)
    ensures Taught(db, id, {l}) == if Observing(db, id, l.slug) then {Rule(DomainKind, l.host, l.port)} else {}
  {
  }

  lemma RulesAfterLearn(db: Db, lessons: set<Lesson>, id: ProjectId)
    ensures RulesOf(Learn(db, lessons), id) == RulesOf(db, id) + Taught(db, id, lessons)
  {
    LearnRow(db, lessons, id);
  }

  // ----- the store object -----

  datatype PortAnswer = Granted(port: int) | NotFound | Exhausted

  /** What the caller is told, from the state afterwards. */
  function AnswerFor(db: Db, id: ProjectId): PortAnswer {
    if !Live(db, id) then NotFound
    else match db.projects[id].port
      case None => Exhausted
      case Some(p) => Granted(p)
  }

  class EgressStore {
    var projects: map<ProjectId, Project>
    var rules: map<ProjectId, set<Rule>>

    ghost function Value(): Db
      reads this
    {
      Db(projects, rules)
    }

    constructor ()
      ensures Value() == Db(map[], map[])
    {
      projects, rules := map[], map[];
    }

    method SoftDeleteProject(id: ProjectId) returns (found: bool)
      modifies this
      ensures Value() == SoftDelete(old(Value()), id)
      ensures !Live(Value(), id) && forall j | j != id :: Live(Value(), j) <==> Live(old(Value()), j)
      ensures found <==> Live(old(Value()), id)
    {
      found := id in projects && projects[id].live;
      if found {
        projects := projects[id := projects[id].(live := false)];
      }
    }

    method SetProjectEgressMode(id: ProjectId, mode: Mode)
      modifies this
      ensures Value() == SetMode(old(Value()), id, mode)
      ensures id in projects ==> projects[id].mode == mode && projects[id].port == old(projects)[id].port
    {
      if id in projects {
        projects := projects[id := projects[id].(mode := mode)];
      }
    }

    /** The project's listener port: kept if it has one, else the lowest free one. */
    method EnsureEgressProxyPort(id: ProjectId) returns (answer: PortAnswer)
      modifies this
      ensures Value() == EnsurePort(old(Value()), id)
      ensures answer == AnswerFor(Value(), id)
    {
      if id !in projects || !projects[id].live {
        return NotFound;
      }
      if projects[id].port.Some? {
        return Granted(projects[id].port.value);
      }
      var held := HeldPorts(projects);
      var p := PORT_MIN;
      while p <= PORT_MAX && p in held
        invariant PORT_MIN <= p <= PORT_MAX + 1
        invariant FirstFree(held, PORT_MIN) == FirstFree(held, p)
      {
        p := p + 1;
      }
      if p > PORT_MAX {
        assert FirstFree(held, PORT_MIN) == None;
        projects := projects[id := projects[id].(port := None)];
        return Exhausted;
      }
      projects := projects[id := projects[id].(port := Some(p))];
      answer := Granted(p);
    }

    /** Delete-then-insert in one transaction; a row that conflicts with an earlier one is skipped. */
    method ReplaceProjectEgressRules(id: ProjectId, inputs: seq<Rule>)
      modifies this
      ensures Value() == ReplaceRules(old(Value()), id, inputs)
      ensures forall r :: r in RulesOf(Value(), id) <==> r in inputs
      ensures forall j | j != id :: RulesOf(Value(), j) == RulesOf(old(Value()), j)
    {
      var rows: set<Rule> := {};
      for i := 0 to |inputs|
        invariant rows == set r | r in inputs[..i]
        invariant Value() == old(Value())
      {
        if inputs[i] !in rows {
          rows := rows + {inputs[i]};
        }
      }
      assert inputs[..|inputs|] == inputs;
      rules := rules[id := rows];
    }

    /** One INSERT ... SELECT of the collector. */
    method LearnDomain(lesson: Lesson)
      modifies this`rules
      ensures Value() == Learn(old(Value()), {lesson})
    {
      var found := map id | id in projects && projects[id].live && projects[id].slug == lesson.slug && projects[id].mode.Observe?
        :: (if id in rules then rules[id] else {}) + {Rule(DomainKind, lesson.host, lesson.port)};
      ghost var was := Value();
      rules := rules + found;
      forall id ensures id in rules <==> id in Learn(was, {lesson}).rules
                ensures id in rules && id in Learn(was, {lesson}).rules ==> rules[id] == Learn(was, {lesson}).rules[id]
      {
        LearnRow(was, {lesson}, id);
        OneLesson(was, lesson, id);
      }
      assert rules == Learn(was, {lesson}).rules;
    }

    /** ListProjectEgressRules: every rule once. */
    method ListProjectEgressRules(id: ProjectId) returns (out: seq<Rule>)
      ensures Enumerates(out, RulesOf(Value(), id))
    {
      if id in rules {
        out := Range(rules[id]);
      } else {
        out := [];
      }
    }

    /** Port to slug, for the live projects that hold a port. */
    method ProxyPortSlugs() returns (out: map<int, string>)
      requires PortsDistinct(Value())
      ensures IsPortMap(Value(), out)
    {
      out := map[];
      var todo := Holders(projects);
      while todo != {}
        invariant todo <= Holders(projects)
        invariant PortMapOf(Value(), Holders(projects) - todo, out)
        decreases |todo|
      {
        var id :| id in todo;
        PortMapStep(Value(), Holders(projects) - todo, id, projects[id].port.value, out);
        out := out[projects[id].port.value := projects[id].slug];
        assert Holders(projects) - (todo - {id}) == Holders(projects) - todo + {id};
        todo := todo - {id};
      }
      assert Holders(projects) - {} == Holders(projects);
    }

    /** One project's proxy target, its domains listed in some order. */
    method TargetOf(id: ProjectId) returns (t: Target)
      requires Live(Value(), id) && projects[id].port.Some?
      ensures IsTargetOf(Value(), id, t)
    {
      var all := ListProjectEgressRules(id);
      var domains: seq<DomainRule> := [];
      for i := 0 to |all|
        invariant forall d :: d in domains <==> Rule(DomainKind, d.value, d.port) in all[..i]
      {
        if all[i].kind.DomainKind? {
          domains := domains + [DomainRule(all[i].value, all[i].port)];
        }
      }
      assert all[..|all|] == all;
      t := Target(projects[id].slug, projects[id].port.value, projects[id].mode, domains);
    }

    /** ORDER BY p.slug over the live projects with a port. */
    method HoldersBySlug() returns (order: seq<ProjectId>)
      requires SlugsDistinct(Value())
      ensures Enumerates(order, Holders(projects))
      ensures forall j, k | 0 <= j < k < |order| :: StrLe(projects[order[j]].slug, projects[order[k]].slug)
    {
      var bySlug := map id | id in Holders(projects) :: projects[id].slug;
      var slugs := SortedSlugs(bySlug.Values);
      hide Sorted, StrLe;
      order := [];
      for i := 0 to |slugs|
        invariant |order| == i
        invariant forall k | 0 <= k < i :: order[k] in Holders(projects) && projects[order[k]].slug == slugs[k]
      {
        assert slugs[i] in bySlug.Values;
        var id :| id in Holders(projects) && projects[id].slug == slugs[i];
        order := order + [id];
      }
      forall id | id in Holders(projects) ensures id in order {
        assert bySlug[id] in bySlug.Values;
        var k :| 0 <= k < |slugs| && slugs[k] == projects[id].slug;
        assert order[k] == id;
      }
    }

    /** Every live project with a listener port, ordered by slug. */
    method ListEgressProxyTargets() returns (ts: seq<Target>)
      requires SlugsDistinct(Value())
      ensures IsTargetList(Value(), ts) && |ts| == |Holders(projects)|
      ensures forall j, k | 0 <= j < k < |ts| :: StrLe(ts[j].slug, ts[k].slug) && ts[j].slug != ts[k].slug
    {
      var order := HoldersBySlug();
      ts := [];
      for i := 0 to |order|
        invariant |ts| == i
        invariant forall k | 0 <= k < i :: IsTargetOf(Value(), order[k], ts[k])
      {
        var t := TargetOf(order[i]);
        ts := ts + [t];
      }
      TargetsAreListed(Value(), order, ts);
      EnumerationSize(order, Holders(projects));
    }
  }

  lemma TargetsAreListed(db: Db, order: seq<ProjectId>, ts: seq<Target>)
    requires SlugsDistinct(db) && Enumerates(order, Holders(db.projects)) && |ts| == |order|
    requires forall k | 0 <= k < |order| :: IsTargetOf(db, order[k], ts[k])
    ensures IsTargetList(db, ts)
  {
    forall k | 0 <= k < |ts| ensures SomeProjectsTarget(db, ts[k]) {
      assert IsTargetOf(db, order[k], ts[k]);
    }
    forall id, p | Holds(db, id, p) ensures exists k :: 0 <= k < |ts| && IsTargetOf(db, id, ts[k]) {
      assert id in Holders(db.projects);
      var k :| 0 <= k < |order| && order[k] == id;
      assert IsTargetOf(db, id, ts[k]);
    }
    forall j, k | 0 <= j < k < |ts| ensures ts[j].slug != ts[k].slug {
      assert order[j] != order[k];
    }
  }

  /** A set of slugs in ascending order. */
  method SortedSlugs(values: set<string>) returns (slugs: seq<string>)
    ensures Enumerates(slugs, values)
    ensures forall j, k | 0 <= j < k < |slugs| :: StrLe(slugs[j], slugs[k])
  {
    slugs := Range(values);
    StringsAreOrdered();
    hide TotalOrder, Sort, StrLe;
    SortSorts(StrLe, slugs);
    RangeThenSort(StrLe, slugs, slugs, values);
    slugs := Sort(StrLe, slugs);
  }

  function Holders(projects: map<ProjectId, Project>): set<ProjectId> {
    set id | id in projects && projects[id].live && projects[id].port.Some?
  }

  ghost predicate PortMapOf(db: Db, done: set<ProjectId>, m: map<int, string>) {
    && (forall p | p in m :: exists id :: id in done && Holds(db, id, p))
    && (forall id, p | id in done && Holds(db, id, p) :: p in m && m[p] == db.projects[id].slug)
  }

  lemma PortMapStep(db: Db, done: set<ProjectId>, id: ProjectId, p: int, m: map<int, string>)
    requires PortsDistinct(db) && PortMapOf(db, done, m) && Holds(db, id, p) && id !in done
    ensures PortMapOf(db, done + {id}, m[p := db.projects[id].slug])
  {
    var m' := m[p := db.projects[id].slug];
    forall q | q in m' ensures exists j :: j in done + {id} && Holds(db, j, q) {
      if q == p {
        assert id in done + {id} && Holds(db, id, q);
      } else {
        var j :| j in done && Holds(db, j, q);
        assert j in done + {id};
      }
    }
  }

  // ----- what the listings promise -----

  ghost predicate SlugsDistinct(db: Db) {
    forall i, j | i in db.projects && j in db.projects && db.projects[i].slug == db.projects[j].slug :: i == j
  }

  /** No statement changes a slug. */
  lemma StatementsKeepSlugs(db: Db, id: ProjectId, mode: Mode, rules: seq<Rule>)
    requires SlugsDistinct(db)
    ensures SlugsDistinct(EnsurePort(db, id)) && SlugsDistinct(SetMode(db, id, mode)) && SlugsDistinct(ReplaceRules(db, id, rules))
    ensures Live(db, id) ==> Live(EnsurePort(db, id), id) && Live(SetMode(db, id, mode), id) && Live(ReplaceRules(db, id, rules), id)
  {
  }

  ghost predicate PortsDistinct(db: Db) {
    forall i, j, p | Holds(db, i, p) && Holds(db, j, p) :: i == j
  }

  ghost predicate PortsInWindow(db: Db) {
    forall i, p | Holds(db, i, p) :: InWindow(p)
  }

  /** `m` is the inverse of the live projects' port assignment: no more, no less. */
  ghost predicate IsPortMap(db: Db, m: map<int, string>) {
    && (forall p | p in m :: exists id :: Holds(db, id, p))
    && (forall id, p | Holds(db, id, p) :: p in m && m[p] == db.projects[id].slug)
  }

  ghost predicate IsTargetOf(db: Db, id: ProjectId, t: Target) {
    && Holds(db, id, t.port)
    && t.slug == db.projects[id].slug && t.mode == db.projects[id].mode
    && forall d :: d in t.domains <==> Rule(DomainKind, d.value, d.port) in RulesOf(db, id)
  }

  ghost predicate SomeProjectsTarget(db: Db, t: Target) { exists id :: IsTargetOf(db, id, t) }

  ghost predicate IsTargetList(db: Db, ts: seq<Target>) {
    && (forall k | 0 <= k < |ts| :: SomeProjectsTarget(db, ts[k]))
    && (forall id, p | Holds(db, id, p) :: exists k :: 0 <= k < |ts| && IsTargetOf(db, id, ts[k]))
    && (forall j, k | 0 <= j < k < |ts| :: ts[j].slug != ts[k].slug)
  }
}
