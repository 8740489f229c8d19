/** The API's handlers over one database: the five tables are fields of a
    `Store`, each handler a method that checks what the endpoint checks, in
    the same order, and commits its change only when every check passed. A
    failed check (an HTTP error, or a commit the database refuses) leaves
    every table as it was. */
module Handlers {
  import opened Outcomes
  import opened Tables
  import opened Models
  import opened Schemas
  import opened Dependencies
  import opened Updates
  import opened Queries
  import Report

  /** The `email` column is UNIQUE. */
  ghost predicate EmailsUnique(users: seq<User>) {
    forall i, j :: 0 <= i < j < |users| ==> users[i].email != users[j].email
  }

  /** Some user already has this email. */
  predicate EmailTaken(users: seq<User>, email: string) {
    exists u :: u in users && u.email == email
  }

  /** Some user other than `id` already has this email. */
  predicate EmailClash(users: seq<User>, email: string, id: int) {
    exists u :: u in users && u.id != id && u.email == email
  }

  /** Every project's PI is a user with role PI and its manager a user with
      role project manager. */
  ghost predicate ProjectRefsValid(users: seq<User>, projects: seq<Project>) {
    forall p :: p in projects ==> HasRole(users, p.piId, PI) && HasRole(users, p.managerId, ProjectManager)
  }

  /** Every request belongs to a stored project. */
  ghost predicate RequestRefsValid(projects: seq<Project>, requests: seq<BeamtimeRequest>) {
    forall q :: q in requests ==> HasId(projects, ProjectKey, q.projectId)
  }

  /** Every allocation belongs to a stored request. */
  ghost predicate AllocationRefsValid(requests: seq<BeamtimeRequest>, allocations: seq<Allocation>) {
    forall a :: a in allocations ==> HasId(requests, RequestKey, a.requestId)
  }

  /** Every approval is of a stored allocation, by a user with role approver. */
  ghost predicate ApprovalRefsValid(users: seq<User>, allocations: seq<Allocation>, approvals: seq<Approval>) {
    forall v :: v in approvals ==> HasId(allocations, AllocationKey, v.allocationId) && HasRole(users, v.approverId, Approver)
  }

  /** Rows already stored keep their id and creation time; rows may only be
      added at the end. */
  ghost predicate RequestHistoryKept(before: seq<BeamtimeRequest>, after: seq<BeamtimeRequest>) {
    |before| <= |after| &&
    forall k :: 0 <= k < |before| ==> after[k].id == before[k].id && after[k].createdAt == before[k].createdAt
  }

  ghost predicate AllocationHistoryKept(before: seq<Allocation>, after: seq<Allocation>) {
    |before| <= |after| &&
    forall k :: 0 <= k < |before| ==> after[k].id == before[k].id && after[k].createdAt == before[k].createdAt
  }

  ghost predicate ApprovalHistoryKept(before: seq<Approval>, after: seq<Approval>) {
    |before| <= |after| && after[..|before|] == before
  }

  /** The commit of a user update is refused: a null sent for a NOT NULL
      column, or an email another user already has. */
  predicate UserUpdateRefused(users: seq<User>, u: User, p: UserUpdate) {
    NullIntoRequiredUserField(p) || (p.email.Given? && EmailClash(users, p.email.value, u.id))
  }

  /** The role guard for an id field of an update payload: run only when the
      field was sent; a sent null names no user. */
  function GuardSent(users: seq<User>, f: Field<int>, role: UserRole): (r: Option<Error>)
    ensures r.None? <==> f.Unset? || (f.Given? && EnsureRole(users, f.value, role).Ok?)
    ensures f.Null? ==> r == Some(NotFound)
    ensures f.Given? && EnsureRole(users, f.value, role).Err? ==> r == Some(EnsureRole(users, f.value, role).error)
  {
    match f
    case Unset => None
    case Null => Some(NotFound)
    case Given(id) => if EnsureRole(users, id, role).Err? then Some(EnsureRole(users, id, role).error) else None
  }

  class Store {
    var users: seq<User>
    var projects: seq<Project>
    var requests: seq<BeamtimeRequest>
    var allocations: seq<Allocation>
    var approvals: seq<Approval>

    /** Ids increase along each table, emails are unique, and every foreign
        key names a stored row (of the right role, for user references). */
    ghost predicate Valid()
      reads this
    {
      && Increasing(users, UserKey)
      && Increasing(projects, ProjectKey)
      && Increasing(requests, RequestKey)
      && Increasing(allocations, AllocationKey)
      && Increasing(approvals, ApprovalKey)
      && EmailsUnique(users)
      && ProjectRefsValid(users, projects)
      && RequestRefsValid(projects, requests)
      && AllocationRefsValid(requests, allocations)
      && ApprovalRefsValid(users, allocations, approvals)
    }

    /** A fresh database: every table empty. */
    constructor ()
      ensures Valid()
      ensures users == [] && projects == [] && requests == [] && allocations == [] && approvals == []
    {
      users := [];
      projects := [];
      requests := [];
      allocations := [];
      approvals := [];
    }

    /** `POST /users/`: insert the user under the next id; a duplicate email
        makes the commit fail. */
    method CreateUser(payload: UserCreate) returns (r: Result<User>)
      requires Valid()
      modifies this`users
      ensures Valid()
      ensures r.Err? ==> unchanged(this)
      ensures
        if EmailTaken(old(users), payload.email) then r == Err(StorageConstraint)
        else
          && r == Ok(User(NextId(old(users), UserKey), payload.name, payload.email, payload.affiliation, payload.role))
          && users == old(users) + [r.value]
    {
      if EmailTaken(users, payload.email) {
        return Err(StorageConstraint);
      }
      var u := User(NextId(users, UserKey), payload.name, payload.email, payload.affiliation, payload.role);
      AppendIncreasing(users, UserKey, u);
      HasRoleAppend(users, u);
      var next := users + [u];
      forall i, j | 0 <= i < j < |next| ensures next[i].email != next[j].email {
        if j == |users| {
          assert next[i] in users;
        }
      }
      users := next;
      r := Ok(u);
    }

    /** `PUT /users/{user_id}`: 404 for an unknown id; otherwise the sent
        fields are written one by one, and the commit is refused for a null
        name or email or for an email another user has. */
    method UpdateUser(userId: int, payload: UserUpdate) returns (r: Result<User>)
      requires Valid()
      modifies this`users
      ensures Valid()
      ensures r.Err? ==> unchanged(this)
      ensures match Find(old(users), UserKey, userId)
        case None => r == Err(NotFound)
        case Some(i) =>
          if UserUpdateRefused(old(users), old(users)[i], payload) then r == Err(StorageConstraint)
          else r == Ok(PatchedUser(old(users)[i], payload)) && users == old(users)[i := r.value]
    {
      var found := Find(users, UserKey, userId);
      if found.None? {
        return Err(NotFound);
      }
      var i := found.value;
      if NullIntoRequiredUserField(payload) {
        return Err(StorageConstraint);
      }
      var u := SetAttrs(users[i], UserItems(payload), AssignUser);
      UserItemsPatch(users[i], payload);
      if !payload.email.Given? {
        forall w | w in users && w.id != u.id ensures w.email != u.email {
          var j :| 0 <= j < |users| && users[j] == w;
          assert j != i;
        }
      }
      if EmailClash(users, u.email, u.id) {
        return Err(StorageConstraint);
      }
      UpdateIncreasing(users, UserKey, i, u);
      HasRoleUpdate(users, i, u);
      var next := users[i := u];
      forall j, k | 0 <= j < k < |next| ensures next[j].email != next[k].email {
        if j == i {
          assert users[k] in users && users[k].id != u.id;
        } else if k == i {
          assert users[j] in users && users[j].id != u.id;
        }
      }
      users := next;
      r := Ok(u);
    }

    /** `GET /users/{user_id}/projects`: the PI guard, then the projects of
        that PI. */
    method ListProjectsForPi(userId: int) returns (r: Result<seq<Project>>)
      ensures match EnsureRole(users, userId, PI)
        case Err(e) => r == Err(e)
        case Ok(_) => r == Ok(ProjectsOfPi(projects, userId))
    {
      var guard := EnsureRole(users, userId, PI);
      if guard.Err? {
        return Err(guard.error);
      }
      r := Ok(ProjectsOfPi(projects, userId));
    }

    /** `POST /projects/`: the manager guard, then the PI guard, then the
        insert under the next id. */
    method CreateProject(payload: ProjectCreate) returns (r: Result<Project>)
      requires Valid()
      modifies this`projects
      ensures Valid()
      ensures r.Err? ==> unchanged(this)
      ensures match EnsureRole(users, payload.managerId, ProjectManager)
        case Err(e) => r == Err(e)
        case Ok(_) =>
          match EnsureRole(users, payload.piId, PI)
          case Err(e) => r == Err(e)
          case Ok(_) =>
            && r == Ok(Project(NextId(old(projects), ProjectKey), payload.title, payload.description, payload.piId, payload.managerId))
            && projects == old(projects) + [r.value]
    {
      var guard := EnsureRole(users, payload.managerId, ProjectManager);
      if guard.Err? {
        return Err(guard.error);
      }
      guard := EnsureRole(users, payload.piId, PI);
      if guard.Err? {
        return Err(guard.error);
      }
      var p := Project(NextId(projects, ProjectKey), payload.title, payload.description, payload.piId, payload.managerId);
      AppendIncreasing(projects, ProjectKey, p);
      HasIdAppend(projects, ProjectKey, p);
      projects := projects + [p];
      r := Ok(p);
    }

    /** `PUT /projects/{project_id}`: 404 for an unknown id; a sent manager
        or PI must pass its role guard (manager first); then the sent fields
        are written one by one, and the commit is refused for a null title. */
    method UpdateProject(projectId: int, payload: ProjectUpdate) returns (r: Result<Project>)
      requires Valid()
      modifies this`projects
      ensures Valid()
      ensures r.Err? ==> unchanged(this)
      ensures match Find(old(projects), ProjectKey, projectId)
        case None => r == Err(NotFound)
        case Some(i) =>
          match GuardSent(users, payload.managerId, ProjectManager)
          case Some(e) => r == Err(e)
          case None =>
            match GuardSent(users, payload.piId, PI)
            case Some(e) => r == Err(e)
            case None =>
              if payload.title.Null? then r == Err(StorageConstraint)
              else r == Ok(PatchedProject(old(projects)[i], payload)) && projects == old(projects)[i := r.value]
    {
      var found := Find(projects, ProjectKey, projectId);
      if found.None? {
        return Err(NotFound);
      }
      var i := found.value;
      var guard := GuardSent(users, payload.managerId, ProjectManager);
      if guard.Some? {
        return Err(guard.value);
      }
      guard := GuardSent(users, payload.piId, PI);
      if guard.Some? {
        return Err(guard.value);
      }
      if payload.title.Null? {
        return Err(StorageConstraint);
      }
      var p := SetAttrs(projects[i], ProjectItems(payload), AssignProject);
      ProjectItemsPatch(projects[i], payload);
      assert projects[i] in projects;
      UpdateIncreasing(projects, ProjectKey, i, p);
      HasIdUpdate(projects, ProjectKey, i, p);
      projects := projects[i := p];
      r := Ok(p);
    }

    /** `DELETE /projects/{project_id}`: 404 for an unknown id, otherwise the
        row is removed. The model deletes only a project no request refers
        to (see the README). */
    method DeleteProject(projectId: int) returns (r: Result<()>)
      requires Valid()
      requires forall q :: q in requests ==> q.projectId != projectId
      modifies this`projects
      ensures Valid()
      ensures r.Err? ==> unchanged(this)
      ensures match Find(old(projects), ProjectKey, projectId)
        case None => r == Err(NotFound)
        case Some(i) => r == Ok(()) && projects == old(projects)[..i] + old(projects)[i + 1..]
    {
      var found := Find(projects, ProjectKey, projectId);
      if found.None? {
        return Err(NotFound);
      }
      RemoveProject(found.value);
      r := Ok(());
    }

    /** `db.delete(db_project)` for a project no request refers to. */
    method RemoveProject(i: nat)
      requires Valid()
      requires i < |projects|
      requires forall q :: q in requests ==> q.projectId != projects[i].id
      modifies this`projects
      ensures Valid()
      ensures projects == old(projects)[..i] + old(projects)[i + 1..]
    {
      var next := projects[..i] + projects[i + 1..];
      RemoveIncreasing(projects, ProjectKey, i);
      HasIdRemove(projects, ProjectKey, i);
      forall p | p in next ensures p in projects {
        var k :| 0 <= k < |next| && next[k] == p;
        if k < i { assert projects[k] == p; } else { assert projects[k + 1] == p; }
      }
      projects := next;
    }

    /** `POST /projects/{project_id}/requests`: 404 for an unknown project,
        the PI guard, 403 unless that PI owns the project, then a pending
        request created at `now` under the next id. */
    method CreateRequest(projectId: int, payload: BeamtimeRequestCreate, piId: int, now: DateTime) returns (r: Result<BeamtimeRequest>)
      requires Valid()
      modifies this`requests
      ensures Valid()
      ensures r.Err? ==> unchanged(this)
      ensures RequestHistoryKept(old(requests), requests)
      ensures match Find(projects, ProjectKey, projectId)
        case None => r == Err(NotFound)
        case Some(i) =>
          match EnsureRole(users, piId, PI)
          case Err(e) => r == Err(e)
          case Ok(_) =>
            if projects[i].piId != piId then r == Err(Forbidden)
            else
              && r == Ok(BeamtimeRequest(NextId(old(requests), RequestKey), projectId, payload.requestedDate,
                                         payload.durationHours, payload.justification, Pending, now))
              && requests == old(requests) + [r.value]
    {
      var found := Find(projects, ProjectKey, projectId);
      if found.None? {
        return Err(NotFound);
      }
      var guard := EnsureRole(users, piId, PI);
      if guard.Err? {
        return Err(guard.error);
      }
      if projects[found.value].piId != piId {
        return Err(Forbidden);
      }
      var q := BeamtimeRequest(NextId(requests, RequestKey), projectId, payload.requestedDate,
                               payload.durationHours, payload.justification, Pending, now);
      AppendIncreasing(requests, RequestKey, q);
      HasIdAppend(requests, RequestKey, q);
      requests := requests + [q];
      r := Ok(q);
    }

    /** `GET /projects/{project_id}/requests`: 404 for an unknown project,
        otherwise its requests. */
    method ListRequests(projectId: int) returns (r: Result<seq<BeamtimeRequest>>)
      ensures match Find(projects, ProjectKey, projectId)
        case None => r == Err(NotFound)
        case Some(_) => r == Ok(RequestsOfProject(requests, projectId))
    {
      var found := Find(projects, ProjectKey, projectId);
      if found.None? {
        return Err(NotFound);
      }
      r := Ok(RequestsOfProject(requests, projectId));
    }

    /** `GET /managers/{manager_id}/requests`: the manager guard, then the
        requests of every project that manager runs. */
    method ManagerRequests(managerId: int) returns (r: Result<seq<BeamtimeRequest>>)
      ensures match EnsureRole(users, managerId, ProjectManager)
        case Err(e) => r == Err(e)
        case Ok(_) => r == Ok(RequestsManagedBy(projects, requests, managerId))
    {
      var guard := EnsureRole(users, managerId, ProjectManager);
      if guard.Err? {
        return Err(guard.error);
      }
      r := Ok(RequestsManagedBy(projects, requests, managerId));
    }

    /** `PATCH /requests/{request_id}/status`: the manager guard, 404 for an
        unknown request, 403 unless the manager runs the request's project,
        then only the status changes. */
    method UpdateRequestStatus(requestId: int, payload: BeamtimeRequestUpdate, managerId: int) returns (r: Result<BeamtimeRequest>)
      requires Valid()
      modifies this`requests
      ensures Valid()
      ensures r.Err? ==> unchanged(this)
      ensures RequestHistoryKept(old(requests), requests)
      ensures match EnsureRole(users, managerId, ProjectManager)
        case Err(e) => r == Err(e)
        case Ok(_) =>
          match Find(old(requests), RequestKey, requestId)
          case None => r == Err(NotFound)
          case Some(i) =>
            HasId(projects, ProjectKey, old(requests)[i].projectId) &&
            if Get(projects, ProjectKey, old(requests)[i].projectId).managerId != managerId then r == Err(Forbidden)
            else r == Ok(old(requests)[i].(status := payload.status)) && requests == old(requests)[i := r.value]
    {
      var guard := EnsureRole(users, managerId, ProjectManager);
      if guard.Err? {
        return Err(guard.error);
      }
      var found := Find(requests, RequestKey, requestId);
      if found.None? {
        return Err(NotFound);
      }
      var i := found.value;
      assert requests[i] in requests;
      var project := Get(projects, ProjectKey, requests[i].projectId);
      if project.managerId != managerId {
        return Err(Forbidden);
      }
      SetRequestStatus(i, payload.status);
      r := Ok(requests[i]);
    }

    /** `db_request.status = payload.status`, whatever the status was. */
    method SetRequestStatus(i: nat, status: RequestStatus)
      requires Valid()
      requires i < |requests|
      modifies this`requests
      ensures Valid()
      ensures RequestHistoryKept(old(requests), requests)
      ensures requests == old(requests)[i := old(requests)[i].(status := status)]
    {
      var q := requests[i].(status := status);
      UpdateIncreasing(requests, RequestKey, i, q);
      HasIdUpdate(requests, RequestKey, i, q);
      forall x | x in requests[i := q] ensures HasId(projects, ProjectKey, x.projectId) {
        var k :| 0 <= k < |requests| && requests[i := q][k] == x;
        assert requests[k] in requests;
      }
      requests := requests[i := q];
    }

    /** `POST /requests/{request_id}/allocations`: the allocator guard, 404
        for an unknown request, then a scheduled allocation created at `now`
        under the next id. */
    method CreateAllocation(requestId: int, payload: AllocationCreate, allocatorId: int, now: DateTime) returns (r: Result<Allocation>)
      requires Valid()
      modifies this`allocations
      ensures Valid()
      ensures r.Err? ==> unchanged(this)
      ensures AllocationHistoryKept(old(allocations), allocations)
      ensures match EnsureRole(users, allocatorId, Allocator)
        case Err(e) => r == Err(e)
        case Ok(_) =>
          match Find(requests, RequestKey, requestId)
          case None => r == Err(NotFound)
          case Some(_) =>
            && r == Ok(Allocation(NextId(old(allocations), AllocationKey), requestId, payload.beamline, payload.slotDate,
                                  payload.slotTime, payload.durationHours, Scheduled, now))
            && allocations == old(allocations) + [r.value]
    {
      var guard := EnsureRole(users, allocatorId, Allocator);
      if guard.Err? {
        return Err(guard.error);
      }
      var found := Find(requests, RequestKey, requestId);
      if found.None? {
        return Err(NotFound);
      }
      var a := Allocation(NextId(allocations, AllocationKey), requestId, payload.beamline, payload.slotDate,
                          payload.slotTime, payload.durationHours, Scheduled, now);
      AppendIncreasing(allocations, AllocationKey, a);
      HasIdAppend(allocations, AllocationKey, a);
      allocations := allocations + [a];
      r := Ok(a);
    }

    /** `GET /allocations/`: every allocation. */
    method ListAllocations() returns (r: seq<Allocation>)
      ensures r == allocations
    {
      r := allocations;
    }

    /** `GET /allocations/table`: the inner join of allocations with their
        requests and projects. In a consistent database every allocation
        joins, so the table has exactly one row per allocation. */
    method AllocationTable() returns (rows: seq<AllocationTableRow>)
      requires Valid()
      ensures rows == TableRows(allocations, requests, projects)
      ensures |rows| == |allocations|
      ensures forall k :: 0 <= k < |rows| ==>
        rows[k].projectTitle == JoinedProject(allocations[k], requests, projects).value.title
        && rows[k].beamline == allocations[k].beamline && rows[k].status == allocations[k].status
    {
      forall a | a in allocations ensures JoinedProject(a, requests, projects).Some? {
        var q := Get(requests, RequestKey, a.requestId);
        assert HasId(projects, ProjectKey, q.projectId);
      }
      TableRowsAllJoin(allocations, requests, projects);
      rows := TableRows(allocations, requests, projects);
    }

    /** `POST /allocations/{allocation_id}/approve`: the approver guard, 404
        for an unknown allocation, then the approval is recorded at `now`
        and, when it approves, the allocation becomes confirmed. */
    method ApproveAllocation(allocationId: int, payload: ApprovalCreate, now: DateTime) returns (r: Result<Approval>)
      requires Valid()
      modifies this`approvals, this`allocations
      ensures Valid()
      ensures r.Err? ==> unchanged(this)
      ensures AllocationHistoryKept(old(allocations), allocations)
      ensures ApprovalHistoryKept(old(approvals), approvals)
      ensures match EnsureRole(users, payload.approverId, Approver)
        case Err(e) => r == Err(e)
        case Ok(_) =>
          match Find(old(allocations), AllocationKey, allocationId)
          case None => r == Err(NotFound)
          case Some(i) =>
            && r == Ok(Approval(NextId(old(approvals), ApprovalKey), allocationId, payload.approverId,
                                payload.approved, payload.notes, now))
            && approvals == old(approvals) + [r.value]
            && allocations == (if payload.approved then old(allocations)[i := old(allocations)[i].(status := Confirmed)]
                               else old(allocations))
    {
      var guard := EnsureRole(users, payload.approverId, Approver);
      if guard.Err? {
        return Err(guard.error);
      }
      var found := Find(allocations, AllocationKey, allocationId);
      if found.None? {
        return Err(NotFound);
      }
      var i := found.value;
      var v := Approval(NextId(approvals, ApprovalKey), allocationId, payload.approverId,
                        payload.approved, payload.notes, now);
      RecordApproval(v);
      if payload.approved {
        ConfirmAllocation(i);
      }
      r := Ok(v);
    }

    /** `db.add(approval)` for an approval of a stored allocation by an
        approver. */
    method RecordApproval(v: Approval)
      requires Valid()
      requires v.id == NextId(approvals, ApprovalKey)
      requires HasId(allocations, AllocationKey, v.allocationId) && HasRole(users, v.approverId, Approver)
      modifies this`approvals
      ensures Valid()
      ensures ApprovalHistoryKept(old(approvals), approvals)
      ensures approvals == old(approvals) + [v]
    {
      AppendIncreasing(approvals, ApprovalKey, v);
      approvals := approvals + [v];
    }

    /** `allocation.status = CONFIRMED`, whatever the status was. */
    method ConfirmAllocation(i: nat)
      requires Valid()
      requires i < |allocations|
      modifies this`allocations
      ensures Valid()
      ensures AllocationHistoryKept(old(allocations), allocations)
      ensures allocations == old(allocations)[i := old(allocations)[i].(status := Confirmed)]
    {
      var a := allocations[i].(status := Confirmed);
      UpdateIncreasing(allocations, AllocationKey, i, a);
      HasIdUpdate(allocations, AllocationKey, i, a);
      forall x | x in allocations[i := a] ensures HasId(requests, RequestKey, x.requestId) {
        var k :| 0 <= k < |allocations| && allocations[i := a][k] == x;
        assert allocations[k] in allocations;
      }
      allocations := allocations[i := a];
    }

    /** `GET /reports/monthly?year=`: request and allocation counts per month
        of `year`, by creation time; a year no `datetime` can hold fails
        before anything is counted. */
    method MonthlyReport(year: int) returns (r: Result<seq<MonthlyReportItem>>)
      ensures !Report.YearInRange(year) ==> r == Err(OutOfRange)
      ensures Report.YearInRange(year) ==> r == Ok(Report.ReportRows(RequestTimes(requests), AllocationTimes(allocations), year))
    {
      r := Report.MonthlyReport(RequestTimes(requests), AllocationTimes(allocations), year);
    }
  }
}
