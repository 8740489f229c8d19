/** The API's end-to-end workflow, as its own test drives it: one user per
    role, a project, a request that its manager approves, an allocation, an
    approval of it, and the listings that follow. The handlers' contracts
    alone decide every outcome. */
module Workflow {
  import opened Outcomes
  import opened Tables
  import opened Models
  import opened Schemas
  import opened Dependencies
  import opened Queries
  import opened Handlers
  import Report

  /** On an empty database every step succeeds; the PI then sees exactly one
      project, the report of the year of `now` has a row, and the allocation
      table's first row carries the project's title. */
  method FullWorkflow(now: DateTime)
    returns (status: RequestStatus, approved: bool, piProjects: seq<Project>,
             report: seq<MonthlyReportItem>, table: seq<AllocationTableRow>)
    requires ValidDateTime(now) && Report.InWindow(now, now.date.year)
    ensures status == Approved && approved
    ensures |piProjects| == 1 && piProjects[0].title == "Project A"
    ensures |report| >= 1
    ensures |table| >= 1 && table[0].projectTitle == "Project A"
  {
    var store := new Store();
    RegisterUsers(store);
    status := FileRequest(store, now);
    approved := ScheduleAndApprove(store, now);
    piProjects, report, table := ReadBack(store, now);
  }

  /** What the PI, the report and the allocation table show afterwards. */
  method ReadBack(store: Store, now: DateTime)
    returns (piProjects: seq<Project>, report: seq<MonthlyReportItem>, table: seq<AllocationTableRow>)
    requires store.Valid() && ValidDateTime(now) && Report.InWindow(now, now.date.year)
    requires HasRole(store.users, 1, PI)
    requires |store.projects| == 1 && store.projects[0].title == "Project A" && store.projects[0].piId == 1
    requires |store.requests| == 1 && store.requests[0].createdAt == now
    requires |store.allocations| == 1
    ensures |piProjects| == 1 && piProjects[0].title == "Project A"
    ensures |report| >= 1
    ensures |table| >= 1 && table[0].projectTitle == "Project A"
  {
    var listed := store.ListProjectsForPi(1);
    piProjects := listed.value;
    assert store.projects[0] in piProjects;
    assert piProjects[0] in store.projects;

    var monthly := store.MonthlyReport(now.date.year);
    report := monthly.value;
    var times := RequestTimes(store.requests);
    assert times[0] == now;
    Report.InWindowCountPositive(times, now.date.year);
    Report.ReportEmpty(times, AllocationTimes(store.allocations), now.date.year);

    table := store.AllocationTable();
    assert JoinedProject(store.allocations[0], store.requests, store.projects).value in store.projects;
  }

  /** Four users with distinct emails, one per role, get ids 1 to 4. */
  method RegisterUsers(store: Store)
    requires store.Valid() && store.users == []
    modifies store`users
    ensures store.Valid()
    ensures HasRole(store.users, 1, PI) && HasRole(store.users, 2, ProjectManager)
    ensures HasRole(store.users, 3, Allocator) && HasRole(store.users, 4, Approver)
  {
    var pi := AddUser(store, UserCreate("Dr. PI", "pi@example.com", Some("Lab"), PI));
    var manager := AddUser(store, UserCreate("Manager", "manager@example.com", Some("Lab"), ProjectManager));
    var allocator := AddUser(store, UserCreate("Allocator", "allocator@example.com", Some("Lab"), Allocator));
    var approver := AddUser(store, UserCreate("Approver", "approver@example.com", Some("Lab"), Approver));
  }

  /** `POST /users/` with an email nobody has yet, on a table whose ids run
      from 1: the user is stored under the next id, and every role held
      before is still held. */
  method AddUser(store: Store, payload: UserCreate) returns (id: int)
    requires store.Valid()
    requires forall j :: 0 <= j < |store.users| ==> store.users[j].id == j + 1
    requires forall w :: w in store.users ==> w.email != payload.email
    modifies store`users
    ensures store.Valid()
    ensures forall j :: 0 <= j < |store.users| ==> store.users[j].id == j + 1
    ensures |store.users| == |old(store.users)| + 1 && id == |store.users|
    ensures HasRole(store.users, id, payload.role)
    ensures forall w :: w in store.users ==> w in old(store.users) || w.email == payload.email
    ensures forall i, role :: HasRole(old(store.users), i, role) ==> HasRole(store.users, i, role)
  {
    var created := store.CreateUser(payload);
    id := created.value.id;
    HasRoleAppend(old(store.users), created.value);
    assert created.value in store.users;
  }

  /** The manager opens the PI's project. */
  method OpenProject(store: Store)
    requires store.Valid() && store.projects == []
    requires HasRole(store.users, 1, PI) && HasRole(store.users, 2, ProjectManager)
    modifies store`projects
    ensures store.Valid()
    ensures store.projects == [Project(1, "Project A", Some("Study"), 1, 2)]
  {
    var project := store.CreateProject(ProjectCreate("Project A", Some("Study"), 1, 2));
  }

  /** The PI's project is opened, the PI files a request for it, and the
      manager approves the request. */
  method FileRequest(store: Store, now: DateTime) returns (status: RequestStatus)
    requires store.Valid() && store.projects == [] && store.requests == []
    requires HasRole(store.users, 1, PI) && HasRole(store.users, 2, ProjectManager)
    modifies store`projects, store`requests
    ensures store.Valid()
    ensures status == Approved
    ensures |store.projects| == 1 && store.projects[0].title == "Project A" && store.projects[0].piId == 1
    ensures |store.requests| == 1 && store.requests[0].id == 1 && store.requests[0].createdAt == now
  {
    OpenProject(store);
    SubmitRequest(store, now);
    var updated := store.UpdateRequestStatus(1, BeamtimeRequestUpdate(Approved), 2);
    status := updated.value.status;
  }

  /** The PI files a request for the project; it is stored as request 1. */
  method SubmitRequest(store: Store, now: DateTime)
    requires store.Valid() && store.requests == []
    requires HasRole(store.users, 1, PI)
    requires store.projects == [Project(1, "Project A", Some("Study"), 1, 2)]
    modifies store`requests
    ensures store.Valid()
    ensures |store.requests| == 1 && store.requests[0].id == 1 && store.requests[0].projectId == 1
    ensures store.requests[0].createdAt == now
  {
    var request := store.CreateRequest(1, BeamtimeRequestCreate(now.date, 8, Some("Need beamtime")), 1, now);
  }

  /** The allocator schedules beamtime for the request and the approver
      approves it, sending `approved` as true. */
  method ScheduleAndApprove(store: Store, now: DateTime) returns (approved: bool)
    requires store.Valid() && store.allocations == [] && store.approvals == []
    requires HasRole(store.users, 3, Allocator) && HasRole(store.users, 4, Approver)
    requires |store.requests| >= 1 && store.requests[0].id == 1
    modifies store`allocations, store`approvals
    ensures store.Valid()
    ensures approved
    ensures |store.allocations| == 1
  {
    assert store.requests[0] in store.requests;
    var allocation := store.CreateAllocation(1, AllocationCreate("BL1", now.date, "08:00", 8), 3, now);
    assert store.allocations == [allocation.value] && allocation.value.id == 1;
    var approval := store.ApproveAllocation(1, ApprovalBody(4, None, Some(true)), now);
    approved := approval.value.approved;
  }
}
