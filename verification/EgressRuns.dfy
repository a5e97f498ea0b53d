/**
 Runs of the egress tables: whatever is created, allocated, soft-deleted, re-moded, replaced or
 learned, in whatever order, the listener ports stay a partial injection into the window.
 */
module EgressRuns {
  import opened Wrappers
  import opened Sorting
  import opened Squid
  import opened EgressDb

  datatype Op =
    | Create(id: ProjectId, slug: string)
    | Delete(id: ProjectId)
    | ChangeMode(id: ProjectId, mode: Mode)
    | Ensure(id: ProjectId)             // EnsureEgressProxyPort with nobody in between
    | LateAssign(id: ProjectId)         // its UPDATE alone, the read having happened earlier
    | Replace(id: ProjectId, rules: seq<Rule>)
    | Learned(lessons: set<Lesson>)

  /** Ids are fresh and slugs unique over all projects, deleted ones included. */
  ghost predicate Possible(db: Db, op: Op) {
    match op
    case Create(id, slug) => id !in db.projects && forall j | j in db.projects :: db.projects[j].slug != slug
    case _ => true
  }

  function Perform(db: Db, op: Op): Db {
    match op
    case Create(id, slug) => CreateProject(db, id, slug)
    case Delete(id) => SoftDelete(db, id)
    case ChangeMode(id, mode) => SetMode(db, id, mode)
    case Ensure(id) => EnsurePort(db, id)
    case LateAssign(id) => AssignPort(db, id)
    case Replace(id, rules) => ReplaceRules(db, id, rules)
    case Learned(lessons) => Learn(db, lessons)
  }

  ghost predicate AllPossible(db: Db, ops: seq<Op>)
    decreases |ops|
  {
    ops == [] || (Possible(db, ops[0]) && AllPossible(Perform(db, ops[0]), ops[1..]))
  }

  function PerformAll(db: Db, ops: seq<Op>): Db
    decreases |ops|
  {
    if ops == [] then db else PerformAll(Perform(db, ops[0]), ops[1..])
  }

  const EMPTY := Db(map[], map[])

  ghost predicate PortInvariant(db: Db) {
    SlugsDistinct(db) && PortsDistinct(db) && PortsInWindow(db)
  }

  /** One statement changes the port of one project only, and hands out only free ports. */
  lemma PortAfter(db: Db, op: Op, id: ProjectId, p: int)
    requires Possible(db, op) && Holds(Perform(db, op), id, p)
    ensures || Holds(db, id, p)
            || ((op.Ensure? || op.LateAssign?) && op.id == id && InWindow(p) && !Taken(db, p))
  {
    if (op.Ensure? || op.LateAssign?) && op.id == id && !Holds(db, id, p) {
      assert FirstFree(HeldPorts(db.projects), PORT_MIN) == Some(p);
      HolderOf(db, p);
    }
  }

  lemma OneMoreStatement(db: Db, op: Op)
    requires PortInvariant(db) && Possible(db, op)
    ensures PortInvariant(Perform(db, op))
  {
    var db' := Perform(db, op);
    assert SlugsDistinct(db');
    hide Perform, Possible, SlugsDistinct;
    forall i, p | Holds(db', i, p) ensures InWindow(p) { PortAfter(db, op, i, p); }
    forall i, j, p | Holds(db', i, p) && Holds(db', j, p) ensures i == j {
      PortAfter(db, op, i, p);
      PortAfter(db, op, j, p);
    }
  }

  lemma {:induction false} InvariantThroughout(db: Db, ops: seq<Op>)
    requires PortInvariant(db) && AllPossible(db, ops)
    ensures PortInvariant(PerformAll(db, ops))
    decreases |ops|
  {
    hide PortInvariant, Perform, Possible;
    if ops != [] {
      OneMoreStatement(db, ops[0]);
      InvariantThroughout(Perform(db, ops[0]), ops[1..]);
    }
  }

  /** From an empty database: live projects' ports are distinct and in the window, slugs are distinct. */
  lemma PortsStayDistinct(ops: seq<Op>)
    requires AllPossible(EMPTY, ops)
    ensures PortInvariant(PerformAll(EMPTY, ops))
  {
    InvariantThroughout(EMPTY, ops);
  }

  // ----- allocation -----

  /** Some live project holds the port. */
  ghost predicate Taken(db: Db, p: int) { exists j :: Holds(db, j, p) }

  /** A first allocation is the lowest port no live project holds. */
  lemma LowestFreePort(db: Db, id: ProjectId)
    requires PortInvariant(db) && Live(db, id) && db.projects[id].port.None?
    ensures var r := EnsurePort(db, id).projects[id].port;
            r.Some? ==>
              13128 <= r.value <= 13999 && !Taken(db, r.value) && forall q | 13128 <= q < r.value :: Taken(db, q)
  {
    var r := FirstFree(HeldPorts(db.projects), PORT_MIN);
    hide FirstFree, HeldPorts, PortInvariant, Taken;
    if r.Some? {
      HolderOf(db, r.value);
      forall q | PORT_MIN <= q < r.value ensures Taken(db, q) { HolderOf(db, q); }
    }
  }

  lemma HolderOf(db: Db, p: int)
    ensures p in HeldPorts(db.projects) <==> Taken(db, p)
  {
    if p in HeldPorts(db.projects) {
      var j :| j in db.projects && db.projects[j].live && db.projects[j].port == Some(p);
      assert Holds(db, j, p);
    }
  }

  /** Allocation fails exactly when the window's 872 ports are all held, by 872 live projects. */
  lemma ExhaustedWhenFull(db: Db, id: ProjectId)
    requires PortInvariant(db) && Live(db, id) && db.projects[id].port.None?
    ensures EnsurePort(db, id).projects[id].port.None? <==> |Holders(db.projects)| == 872
  {
    var held, all := HeldPorts(db.projects), Interval(PORT_MIN, PORT_MAX + 1);
    HoldersCount(db);
    forall p | p in held ensures p in all {
      HolderOf(db, p);
    }
    hide HeldPorts, Holders;
    if FirstFree(held, PORT_MIN).None? {
      assert held == all;
    } else {
      var p := FirstFree(held, PORT_MIN).value;
      SubsetIsSmaller(held, all - {p});
    }
  }

  /** The integers from lo up to hi, hi excluded. */
  function Interval(lo: int, hi: int): (r: set<int>)
    requires lo <= hi
    ensures |r| == hi - lo && forall p :: p in r <==> lo <= p < hi
    decreases hi - lo
  {
    if lo == hi then {} else Interval(lo, hi - 1) + {hi - 1}
  }

  /** Distinct ports: as many holders as held ports. */
  lemma HoldersCount(db: Db)
    requires PortsDistinct(db)
    ensures |Holders(db.projects)| == |HeldPorts(db.projects)|
  {
    var ids := Holders(db.projects);
    PortsCount(db, ids);
    assert HeldPorts(db.projects) == set id | id in ids :: db.projects[id].port.value;
  }

  lemma {:induction false} PortsCount(db: Db, ids: set<ProjectId>)
    requires PortsDistinct(db) && ids <= Holders(db.projects)
    ensures |ids| == |set id | id in ids :: db.projects[id].port.value|
    decreases |ids|
  {
    if ids != {} {
      var id :| id in ids;
      var rest, p := ids - {id}, db.projects[id].port.value;
      PortsCount(db, rest);
      var ports := set j | j in rest :: db.projects[j].port.value;
      forall j | j in rest ensures db.projects[j].port.value != p {
        assert Holds(db, id, p) && Holds(db, j, db.projects[j].port.value);
      }
      assert (set j | j in ids :: db.projects[j].port.value) == ports + {p};
    }
  }

  // ----- stability -----

  /** No deletion of the project, and no allocating UPDATE based on an outdated read of it. */
  predicate LeavesPort(op: Op, id: ProjectId) {
    !((op.Delete? || op.LateAssign?) && op.id == id)
  }

  lemma {:induction false} PortIsStable(db: Db, ops: seq<Op>, id: ProjectId, p: int)
    requires AllPossible(db, ops) && Holds(db, id, p)
    requires forall k | 0 <= k < |ops| :: LeavesPort(ops[k], id)
    ensures Holds(PerformAll(db, ops), id, p)
    decreases |ops|
  {
    if ops != [] {
      assert LeavesPort(ops[0], id);
      assert Holds(Perform(db, ops[0]), id, p);
      hide Perform;
      PortIsStable(Perform(db, ops[0]), ops[1..], id, p);
    }
  }

  /** The read and the UPDATE are separate statements: an UPDATE that comes late always moves the port. */
  lemma LateAssignMovesPort(db: Db, id: ProjectId, p: int)
    requires Holds(db, id, p)
    ensures !Holds(AssignPort(db, id), id, p)
  {
    HolderOf(db, p);
  }

  /** A deleted project's port is the next one handed out when every lower one is held. */
  lemma PortIsReused(db: Db, gone: ProjectId, p: int, id: ProjectId)
    requires PortInvariant(db) && Holds(db, gone, p) && id != gone && Live(db, id) && db.projects[id].port.None?
    requires forall q | PORT_MIN <= q < p :: Taken(db, q)
    ensures Holds(EnsurePort(SoftDelete(db, gone), id), id, p)
  {
    var db' := SoftDelete(db, gone);
    var held := HeldPorts(db'.projects);
    forall q | PORT_MIN <= q < p ensures q in held {
      assert Taken(db, q);
      var j :| Holds(db, j, q);
      assert Holds(db', j, q);
    }
    assert p !in held by {
      HolderOf(db', p);
      assert forall j | Holds(db', j, p) :: Holds(db, j, p);
    }
    assert InWindow(p);
    assert FirstFree(held, PORT_MIN) == Some(p);
  }
}
