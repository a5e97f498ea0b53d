/**
 The deployments table (internal/store/deployments.go).

 Every store function is one SQL statement, so it is one atomic update of the table.
 The updates are functions on the table, used by the protocol in module Pipeline; the
 class is the store object whose methods perform them in place.
 */
module Deployments {
  import opened Wrappers

  type ProjectId = nat
  type DepId = nat
  type Time = nat

  datatype Status = Pending | Queued | Building | Pushing | Deploying | Running | Failed | Superseded

  datatype Deployment = Deployment(
    project: ProjectId,
    status: Status,
    sourceKey: string,
    image: string,                 // "" while the column is NULL
    reason: string,                // "" while the column is NULL
    queuedAt: Option<Time>,
    buildStartedAt: Option<Time>,
    buildDoneAt: Option<Time>,
    deployedAt: Option<Time>)

  type Table = map<DepId, Deployment>

  /** The statuses SupersedeOlderDeployments looks for. */
  predicate InFlight(s: Status) {
    s.Queued? || s.Building? || s.Pushing? || s.Deploying?
  }

  /** The statuses a deployment is finished in. */
  predicate Terminal(s: Status) {
    s.Running? || s.Failed? || s.Superseded?
  }

  /** The statuses whose write stamps build_done_at. */
  predicate StampsBuildDone(s: Status) {
    s.Pushing? || s.Deploying? || s.Running? || s.Failed?
  }

  function Fresh(project: ProjectId): Deployment {
    Deployment(project, Pending, "", "", "", None, None, None, None)
  }

  function OrElse(t: Option<Time>, now: Time): Option<Time> {
    if t.None? then Some(now) else t
  }

  // ----- one function per statement -----

  function Queue(t: Table, id: DepId, key: string, now: Time): Table {
    if id !in t then t
    else t[id := t[id].(status := Queued, sourceKey := key, queuedAt := Some(now))]
  }

  /** ORDER BY queued_at ASC: NULL sorts last. */
  predicate NotLaterQueued(a: Deployment, b: Deployment) {
    b.queuedAt.None? || (a.queuedAt.Some? && a.queuedAt.value <= b.queuedAt.value)
  }

  /** `id` may be the row the claim subselect returns while other transactions hold `locked`. */
  ghost predicate Claimable(t: Table, id: DepId, locked: set<DepId>) {
    && id in t && t[id].status.Queued? && id !in locked
    && forall other | other in t && t[other].status.Queued? && other !in locked ::
         NotLaterQueued(t[id], t[other])
  }

  /** A queued row no other transaction holds. */
  predicate Waits(t: Table, id: DepId, locked: set<DepId>) { id in t && t[id].status.Queued? && id !in locked }

  function Claim(t: Table, id: DepId, now: Time): Table
    requires id in t
  {
    t[id := t[id].(status := Building, buildStartedAt := Some(now))]
  }

  function Advance(t: Table, id: DepId, from: Status, to: Status, now: Time): Table {
    if id in t && t[id].status == from then
      t[id := t[id].(status := to,
                     buildDoneAt := if StampsBuildDone(to) then OrElse(t[id].buildDoneAt, now) else t[id].buildDoneAt)]
    else t
  }

  function Mark(t: Table, id: DepId, to: Status, reason: string, now: Time): Table {
    if id !in t then t
    else t[id := t[id].(status := to,
                        reason := reason,
                        buildDoneAt := if StampsBuildDone(to) then OrElse(t[id].buildDoneAt, now) else t[id].buildDoneAt,
                        deployedAt := if to.Running? then OrElse(t[id].deployedAt, now) else t[id].deployedAt)]
  }

  function SetImage(t: Table, id: DepId, image: string): Table {
    if id !in t then t else t[id := t[id].(image := image)]
  }

  function SupersedeOlder(t: Table, project: ProjectId, keep: DepId): Table {
    map i | i in t ::
      if t[i].project == project && i != keep && InFlight(t[i].status)
      then t[i].(status := Superseded) else t[i]
  }

  function SupersedeSiblings(t: Table, project: ProjectId, keep: DepId): Table {
    map i | i in t ::
      if t[i].project == project && i != keep && t[i].status.Running?
      then t[i].(status := Superseded) else t[i]
  }

  // ----- the store object -----

  class DeploymentStore {
    var rows: Table

    constructor ()
      ensures rows == map[]
    {
      rows := map[];
    }

    method CreateDeployment(id: DepId, project: ProjectId)
      requires id !in rows          // gen_random_uuid() is taken to be fresh
      modifies this
      ensures rows == old(rows)[id := Fresh(project)]
      ensures rows[id].project == project && rows[id].status.Pending? && rows[id].image == "" && rows[id].sourceKey == ""
      ensures rows[id].queuedAt.None? && rows[id].buildDoneAt.None? && rows[id].deployedAt.None?
    {
      rows := rows[id := Fresh(project)];
    }

    method MarkDeploymentQueued(id: DepId, key: string, now: Time)
      modifies this
      ensures rows == Queue(old(rows), id, key, now)
      ensures id in old(rows) ==>
                && id in rows && rows[id].status.Queued? && rows[id].sourceKey == key && rows[id].queuedAt == Some(now)
                && rows[id].image == old(rows)[id].image && rows[id].project == old(rows)[id].project
    {
      if id in rows {
        rows := rows[id := rows[id].(status := Queued, sourceKey := key, queuedAt := Some(now))];
      }
    }

    /** SKIP LOCKED: rows in `locked` belong to other transactions and are passed over. */
    method ClaimNextQueued(locked: set<DepId>, now: Time) returns (claimed: Option<DepId>)
      modifies this
      ensures claimed.None? ==> rows == old(rows) && forall i | i in rows && rows[i].status.Queued? :: i in locked
      ensures claimed.Some? ==>
                && Claimable(old(rows), claimed.value, locked)
                && rows == Claim(old(rows), claimed.value, now)
                && rows[claimed.value].status.Building? && rows[claimed.value].buildStartedAt == Some(now)
                && (forall i | Waits(old(rows), i, locked) && old(rows)[i].queuedAt.Some? ::
                      && old(rows)[claimed.value].queuedAt.Some?
                      && old(rows)[claimed.value].queuedAt.value <= old(rows)[i].queuedAt.value)
    {
      var queued := set i | i in rows && rows[i].status.Queued? && i !in locked;
      var todo := queued;
      claimed := None;
      while todo != {}
        invariant todo <= queued
        invariant claimed.None? ==> todo == queued
        invariant claimed.Some? ==> claimed.value in queued
        invariant claimed.Some? ==> forall i | i in queued - todo :: NotLaterQueued(rows[claimed.value], rows[i])
        invariant rows == old(rows)
        decreases |todo|
      {
        var i :| i in todo;
        if claimed.None? || !NotLaterQueued(rows[claimed.value], rows[i]) {
          claimed := Some(i);
        }
        todo := todo - {i};
      }
      assert forall i | i in rows && rows[i].status.Queued? && i !in locked :: i in queued;
      if claimed.Some? {
        rows := rows[claimed.value := rows[claimed.value].(status := Building, buildStartedAt := Some(now))];
      }
    }

    method TryAdvanceDeploymentStatus(id: DepId, from: Status, to: Status, now: Time) returns (moved: bool)
      modifies this
      ensures moved <==> (id in old(rows) && old(rows)[id].status == from)
      ensures rows == Advance(old(rows), id, from, to, now)
      ensures moved ==>
                && rows[id].status == to && rows[id].image == old(rows)[id].image
                && (to in {Pushing, Deploying, Running, Failed} && old(rows)[id].buildDoneAt.None? ==>
                      rows[id].buildDoneAt == Some(now))
                && (old(rows)[id].buildDoneAt.Some? ==> rows[id].buildDoneAt == old(rows)[id].buildDoneAt)
    {
      moved := id in rows && rows[id].status == from;
      if moved {
        var done := rows[id].buildDoneAt;
        if StampsBuildDone(to) && done.None? {
          done := Some(now);
        }
        rows := rows[id := rows[id].(status := to, buildDoneAt := done)];
      }
    }

    method MarkDeploymentStatus(id: DepId, to: Status, reason: string, now: Time)
      modifies this
      ensures rows == Mark(old(rows), id, to, reason, now)
      ensures id in old(rows) ==>
                && id in rows && rows[id].status == to && rows[id].reason == reason
                && (to.Running? ==> rows[id].deployedAt == OrElse(old(rows)[id].deployedAt, now))
                && (!to.Running? ==> rows[id].deployedAt == old(rows)[id].deployedAt)
    {
      if id in rows {
        var done, deployed := rows[id].buildDoneAt, rows[id].deployedAt;
        if StampsBuildDone(to) && done.None? {
          done := Some(now);
        }
        if to.Running? && deployed.None? {
          deployed := Some(now);
        }
        rows := rows[id := rows[id].(status := to, reason := reason, buildDoneAt := done, deployedAt := deployed)];
      }
    }

    method SetDeploymentImage(id: DepId, image: string)
      modifies this
      ensures rows == SetImage(old(rows), id, image)
      ensures id in old(rows) ==> id in rows && rows[id].image == image && rows[id].status == old(rows)[id].status
    {
      if id in rows {
        rows := rows[id := rows[id].(image := image)];
      }
    }

    method SupersedeOlderDeployments(project: ProjectId, keep: DepId)
      modifies this
      ensures rows == SupersedeOlder(old(rows), project, keep)
      ensures rows.Keys == old(rows).Keys
      ensures forall i | i in rows && rows[i] != old(rows)[i] ::
                && i != keep && old(rows)[i].project == project && rows[i].status.Superseded?
                && old(rows)[i].status in {Queued, Building, Pushing, Deploying}
      ensures forall i | i in rows && i != keep && rows[i].project == project ::
                rows[i].status !in {Queued, Building, Pushing, Deploying}
    {
      var hit := map i | i in rows && rows[i].project == project && i != keep && InFlight(rows[i].status)
        :: rows[i].(status := Superseded);
      rows := rows + hit;
    }

    method SupersedeRunningSiblings(project: ProjectId, keep: DepId)
      modifies this
      ensures rows == SupersedeSiblings(old(rows), project, keep)
      ensures rows.Keys == old(rows).Keys
      ensures forall i | i in rows && rows[i] != old(rows)[i] ::
                i != keep && old(rows)[i].project == project && old(rows)[i].status.Running? && rows[i].status.Superseded?
      ensures forall i | i in rows && i != keep && rows[i].project == project :: !rows[i].status.Running?
    {
      var hit := map i | i in rows && rows[i].project == project && i != keep && rows[i].status.Running?
        :: rows[i].(status := Superseded);
      rows := rows + hit;
    }
  }
}
