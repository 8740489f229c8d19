/** The read-only queries the handlers run against the tables: the filtered
    listings, the allocation table's inner join, and the creation timestamps
    the monthly report counts. */
module Queries {
  import opened Outcomes
  import opened Tables
  import opened Models
  import opened Schemas

  /** The projects whose PI is `piId`, in table order. */
  function ProjectsOfPi(projects: seq<Project>, piId: int): (r: seq<Project>)
    ensures |r| <= |projects|
    ensures forall p :: p in r <==> p in projects && p.piId == piId
    ensures Increasing(projects, ProjectKey) ==> Increasing(r, ProjectKey)
  {
    var keep := (p: Project) => p.piId == piId;
    FilterIncreasing(projects, keep, ProjectKey);
    Filter(projects, keep)
  }

  /** The requests filed for project `projectId`, in table order. */
  function RequestsOfProject(requests: seq<BeamtimeRequest>, projectId: int): (r: seq<BeamtimeRequest>)
    ensures |r| <= |requests|
    ensures forall q :: q in r <==> q in requests && q.projectId == projectId
    ensures Increasing(requests, RequestKey) ==> Increasing(r, RequestKey)
  {
    var keep := (q: BeamtimeRequest) => q.projectId == projectId;
    FilterIncreasing(requests, keep, RequestKey);
    Filter(requests, keep)
  }

  /** The ids of the projects managed by `managerId`. */
  function ManagedProjectIds(projects: seq<Project>, managerId: int): (ids: seq<int>)
    ensures forall id :: id in ids <==> exists p :: p in projects && p.managerId == managerId && p.id == id
  {
    var mine := Filter(projects, (p: Project) => p.managerId == managerId);
    var ids := seq(|mine|, k requires 0 <= k < |mine| => mine[k].id);
    assert forall id :: id in ids ==> exists p :: p in mine && p.id == id by {
      forall id | id in ids ensures exists p :: p in mine && p.id == id {
        var k :| 0 <= k < |ids| && ids[k] == id;
        assert mine[k] in mine;
      }
    }
    assert forall p :: p in mine ==> p.id in ids by {
      forall p | p in mine ensures p.id in ids {
        var k :| 0 <= k < |mine| && mine[k] == p;
        assert ids[k] == p.id;
      }
    }
    ids
  }

  /** The requests of every project managed by `managerId`, in table order;
      a manager without projects gets the empty list straight away. */
  function RequestsManagedBy(projects: seq<Project>, requests: seq<BeamtimeRequest>, managerId: int): (r: seq<BeamtimeRequest>)
    ensures forall q :: q in r <==>
      q in requests && exists p :: p in projects && p.managerId == managerId && p.id == q.projectId
    ensures Increasing(requests, RequestKey) ==> Increasing(r, RequestKey)
  {
    var ids := ManagedProjectIds(projects, managerId);
    if ids == [] then
      []
    else
      var keep := (q: BeamtimeRequest) => q.projectId in ids;
      FilterIncreasing(requests, keep, RequestKey);
      Filter(requests, keep)
  }

  /** The project an allocation reaches through its request, when both rows
      exist: the two inner-join conditions. */
  function JoinedProject(a: Allocation, requests: seq<BeamtimeRequest>, projects: seq<Project>): (r: Option<Project>)
    ensures r.Some? ==>
      r.value in projects && exists q :: q in requests && q.id == a.requestId && q.projectId == r.value.id
    ensures r.None? && HasId(requests, RequestKey, a.requestId) ==>
      !HasId(projects, ProjectKey, Get(requests, RequestKey, a.requestId).projectId)
  {
    match Find(requests, RequestKey, a.requestId)
    case None => None
    case Some(i) =>
      match Find(projects, ProjectKey, requests[i].projectId)
      case None => None
      case Some(j) => Some(projects[j])
  }

  function TableRow(title: string, a: Allocation): AllocationTableRow {
    AllocationTableRow(title, a.beamline, a.slotDate, a.slotTime, a.durationHours, a.status)
  }

  /** The allocation table: one row per allocation that joins with a request
      and that request's project, carrying the project's title and the
      allocation's own columns, in allocation order. */
  function TableRows(allocations: seq<Allocation>, requests: seq<BeamtimeRequest>, projects: seq<Project>): (rows: seq<AllocationTableRow>)
    ensures |rows| <= |allocations|
    ensures forall row :: row in rows ==>
      exists a :: a in allocations && JoinedProject(a, requests, projects).Some? && row == TableRow(JoinedProject(a, requests, projects).value.title, a)
  {
    if allocations == [] then
      []
    else
      var a := allocations[0];
      var rest := TableRows(allocations[1..], requests, projects);
      assert forall x :: x in allocations[1..] ==> x in allocations;
      match JoinedProject(a, requests, projects)
      case None => rest
      case Some(p) => [TableRow(p.title, a)] + rest
  }

  /** When every allocation joins, the table has exactly one row per
      allocation, in allocation order. */
  lemma {:induction false} TableRowsAllJoin(allocations: seq<Allocation>, requests: seq<BeamtimeRequest>, projects: seq<Project>)
    requires forall a :: a in allocations ==> JoinedProject(a, requests, projects).Some?
    ensures |TableRows(allocations, requests, projects)| == |allocations|
    ensures forall k :: 0 <= k < |allocations| ==>
      TableRows(allocations, requests, projects)[k] == TableRow(JoinedProject(allocations[k], requests, projects).value.title, allocations[k])
  {
    if allocations != [] {
      var a := allocations[0];
      var tail := allocations[1..];
      assert forall x :: x in tail ==> x in allocations;
      TableRowsAllJoin(tail, requests, projects);
      assert a in allocations;
      var rows := TableRows(allocations, requests, projects);
      assert rows == [TableRow(JoinedProject(a, requests, projects).value.title, a)] + TableRows(tail, requests, projects);
      forall k | 1 <= k < |allocations|
        ensures rows[k] == TableRow(JoinedProject(allocations[k], requests, projects).value.title, allocations[k])
      {
        assert allocations[k] == tail[k - 1];
      }
    }
  }

  /** The `created_at` column of the requests. */
  function RequestTimes(requests: seq<BeamtimeRequest>): (ts: seq<DateTime>)
    ensures |ts| == |requests| && forall k :: 0 <= k < |ts| ==> ts[k] == requests[k].createdAt
  {
    seq(|requests|, k requires 0 <= k < |requests| => requests[k].createdAt)
  }

  /** The `created_at` column of the allocations. */
  function AllocationTimes(allocations: seq<Allocation>): (ts: seq<DateTime>)
    ensures |ts| == |allocations| && forall k :: 0 <= k < |ts| ==> ts[k] == allocations[k].createdAt
  {
    seq(|allocations|, k requires 0 <= k < |allocations| => allocations[k].createdAt)
  }
}
