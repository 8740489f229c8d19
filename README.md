# Beamtime management: the role-gated request workflow

This Dafny project models the request handlers of the beamtime-management API.
Users hold exactly one of four roles: PI, project manager, allocator or approver.
- A project manager runs research projects that belong to a PI.
- A PI files beamtime requests for a project.
- The project's manager reviews the request.
- An allocator schedules beamline slots for a request.
- An approver approves or rejects a slot. An approval confirms the slot.
- A monthly report counts the requests and allocations created in each month of a year.

The model is split into these modules:
- **`Outcomes`**: the error outcomes and their HTTP statuses. These are 404 (not found), 400 (wrong role), 403 (not the owner or manager) and 500 (a commit the database refuses, or a `ValueError` the handler raises).
- **`Models`**: the three status enumerations, the five record types with their foreign keys, and calendar dates and timestamps.
- **`Schemas`**: the payloads and the two report-row shapes. A field of a partial-update payload is a `Field`, which is one of three things:
  - left out of the body;
  - sent as an explicit `null`;
  - sent with a value.
- **`Tables`**: a table is a sequence of rows with strictly increasing ids.
  - `Find` is the `.first()` lookup by id.
  - `NextId` is the id the database gives a new row.
- **`Dependencies`**: the role guard `ensure_role`.
- **`Updates`**: the `setattr` loop of the two update handlers. It is proved to write exactly the sent fields.
- **`Queries`**: the filters and the allocation-table join.
- **`Report`**: the monthly report. It is a method with the source's two counting loops over a map from month to counts. It is proved equal to a month-by-month specification. Properties are proved about that specification: keys in order, no empty months, and totals that match the window counts.
- **`Handlers`**: a `Store` class whose five sequence fields are the tables. Each endpoint is a method of `Store`.
  - Each method runs the endpoint's checks in the endpoint's order.
  - It states the exact outcome for each branch.
  - It changes nothing when it fails.
  - It keeps `Store.Valid()`. That invariant covers increasing ids, unique emails, and every foreign key naming a stored row. A user reference must also name a user of the right role.
  - Stored requests, allocations and approvals keep their id and `created_at`.
- **`Workflow`**: the API's own end-to-end test, replayed against the handlers' contracts. Four users are registered, then a project is opened, a request is filed and approved, an allocation is made and approved, and the listings are read back.

Three properties need no proof, because the datatypes give them:
- A user always holds exactly one of the four roles.
- A request status is always one of the four request statuses.
- An allocation status is always one of the three allocation statuses.

An update payload has no `role` field, so no update can change a role.

## Model

| member | source | states |
|---|---|---|
| Dependencies.EnsureRole | app/dependencies.py:16-25 | 404 exactly when no user has the id. 400 only when the user holds another role. On success it returns the stored user with that id and that role. With unique ids, success holds exactly when the user holds the role. It only reads. |
| Tables.Find | app/main.py:28 | The `.first()` lookup returns the first row with that id, and nothing exactly when no row has it. |
| Tables.NextId | app/models.py:43 | A new row's id is larger than every stored id, so it names no stored row. |
| Tables.FilterIncreasing | app/main.py:41 | A filtered table keeps the primary-key order. |
| Updates.SetAttrs | app/main.py:31-32 | The `setattr` loop writes the items onto the row from left to right. |
| Updates.PatchedUser | app/schemas.py:20-23 | A patched user keeps its id and its role. An empty payload changes nothing. |
| Updates.UserItemsPatch | app/main.py:31-32 | Writing the sent fields one by one yields exactly the field-wise patch. Sent fields take the sent value and the other fields keep their old value. |
| Updates.PatchedProject | app/schemas.py:44-48 | A patched project keeps its id. An empty payload changes nothing. |
| Updates.ProjectItemsPatch | app/main.py:60-66 | Writing the sent fields one by one yields exactly the field-wise patch of the project. |
| Updates.AssignAllAppend | app/main.py:65-66 | Writing two lists of items is writing the first list, then the second. |
| Schemas.ApprovalBody | app/schemas.py:108-109 | An approval body without `approved` approves. |
| Queries.ProjectsOfPi | app/main.py:40-41 | The result holds exactly the projects whose PI is the user, in id order. |
| Queries.RequestsOfProject | app/main.py:102 | The result holds exactly the requests of the project, in id order. |
| Queries.ManagedProjectIds | app/main.py:108 | The ids are exactly those of the projects the user manages. |
| Queries.RequestsManagedBy | app/main.py:107-111 | The result holds exactly the requests whose project the user manages, in id order. It is empty when the user manages no project. |
| Queries.JoinedProject | app/main.py:159-164 | An allocation joins a stored project through a stored request with its id. It fails to join only when the request or the request's project is missing. |
| Queries.TableRows | app/main.py:159-176 | There are never more rows than allocations. Every row is an allocation that joins, carrying its project's title and its own columns. |
| Queries.TableRowsAllJoin | app/main.py:159-176 | When every allocation joins, the table has exactly one row per allocation, in allocation order. |
| Report.WindowIsYear | app/main.py:201-202 | A valid timestamp is in the window exactly when it lies in the year and is not later than 23:59:59 on December 31. |
| Report.WindowKey | app/main.py:201-210 | Every timestamp in the window is bucketed under one of the twelve months of that year. |
| Report.TallyStep | app/main.py:209-211 | Counting one more timestamp adds one to its own month's count only. |
| Report.CountRequests | app/main.py:204-211 | The first loop leaves a key in the map exactly for the months with requests in the window, counting them. Every key is a month 1 to 12 of the year. |
| Report.CountAllocations | app/main.py:213-220 | The second loop adds the months with allocations and counts them, keeping the request counts. Every key is a month 1 to 12 of the year, so visiting the twelve months in order is visiting the sorted keys. |
| Report.TallyKey | app/main.py:204-220 | A month with a positive count is one of the twelve months of the requested year. |
| Report.RowFor | app/main.py:222-228 | A month yields at most one row, keyed by that month. |
| Report.MonthlyReport | app/main.py:200-228 | A year outside 1 to 9999 fails with a server error before anything is counted, as `datetime(year, 1, 1)` raises `ValueError`. For any other year the rows built from the map are the report specification `ReportRows`. |
| Report.ReportSorted | app/main.py:222-228 | Every row's key is a month of the requested year, and the keys strictly increase. |
| Report.ReportRowsAreMonths | app/main.py:200-228 | A month has a row exactly when it saw a request or an allocation in the window. The row carries both counts. |
| Report.ReportRowsNonEmpty | app/main.py:209-228 | Every row counts at least one request or allocation. |
| Report.ReportTotals | app/main.py:204-228 | The request counts add up to the number of requests in the window. The allocation counts add up to the number of allocations in the window. |
| Report.MonthsPartition | app/main.py:209-211 | Every timestamp in the window is counted under exactly one month. |
| Report.InWindowCountPositive | app/main.py:204-208 | The window count is positive exactly when a timestamp lies in the window. |
| Report.ReportEmpty | app/main.py:200-228 | The report is empty exactly when nothing was created in the window. |
| Handlers.GuardSent | app/main.py:60-64 | A role guard runs only on a sent id field. A sent `null` names no user, so it gives 404. A sent id that fails the guard gets the guard's own error, 404 or 400. |
| Handlers.Store.constructor | app/models.py:40-109 | The empty database satisfies the invariant. |
| Handlers.Store.CreateUser | app/main.py:17-23 | A duplicate email is refused at commit. Otherwise one user is appended under the next id, with the payload's fields. |
| Handlers.Store.UpdateUser | app/main.py:26-35 | An unknown id gives 404. A `null` name or email, or an email another user has, is refused and nothing changes. Otherwise only that user changes, and it becomes the patched user. |
| Handlers.Store.ListProjectsForPi | app/main.py:38-41 | The PI guard's error, or exactly the PI's projects. |
| Handlers.Store.CreateProject | app/main.py:44-52 | The manager guard, then the PI guard. Then one project is appended with the payload's fields. |
| Handlers.Store.UpdateProject | app/main.py:55-69 | 404 comes before any guard. A sent manager is checked, then a sent PI. A `null` title is refused. Otherwise only that project changes, and it becomes the patched project. |
| Handlers.Store.DeleteProject | app/main.py:72-79 | An unknown id gives 404. Otherwise exactly that row is removed. |
| Handlers.Store.RemoveProject | app/main.py:77-78 | Removing a project no request refers to keeps the invariant. |
| Handlers.Store.CreateRequest | app/main.py:82-94 | The checks run in order: unknown project gives 404, then the PI guard, then 403 unless the PI owns the project. Then one `Pending` request is appended for the project, stamped `now`. No stored request changes. |
| Handlers.Store.ListRequests | app/main.py:97-102 | An unknown project gives 404. Otherwise the result is exactly that project's requests. |
| Handlers.Store.ManagerRequests | app/main.py:105-111 | The manager guard's error, or exactly the requests of the projects the user manages. |
| Handlers.Store.UpdateRequestStatus | app/main.py:114-131 | The checks run in order: the manager guard, then 404, then 403 unless the user manages the request's project. Then the status is set to the sent one, whatever it was. Nothing else changes. |
| Handlers.Store.SetRequestStatus | app/main.py:128-129 | Overwriting a status keeps the invariant and every request's id and creation time. |
| Handlers.Store.CreateAllocation | app/main.py:134-149 | The allocator guard, then 404 for an unknown request. Then one `Scheduled` allocation is appended for the request, stamped `now`. |
| Handlers.Store.ListAllocations | app/main.py:152-154 | The result is every allocation. |
| Handlers.Store.AllocationTable | app/main.py:157-176 | In a valid store every allocation joins. The table has one row per allocation, with its project's title and its own beamline and status. |
| Handlers.Store.ApproveAllocation | app/main.py:179-195 | The approver guard, then 404. Then exactly one approval is appended. An approving one sets that allocation to `Confirmed`, whatever its status. A rejecting one leaves the allocations untouched. |
| Handlers.Store.RecordApproval | app/main.py:189-190 | Appending an approval of a stored allocation by an approver keeps the invariant. |
| Handlers.Store.ConfirmAllocation | app/main.py:191-192 | Confirming an allocation keeps the invariant and every allocation's id and creation time. |
| Handlers.Store.MonthlyReport | app/main.py:198-228 | A year outside 1 to 9999 gives a 500. Otherwise the result is the report specification over the stored requests' and allocations' creation times. |
| Workflow.AddUser | tests/test_app.py:34-37 | Registering a user with a fresh email succeeds. On a table with ids 1 to n the user gets id n + 1 with the requested role, and every role held before is kept. |
| Workflow.RegisterUsers | tests/test_app.py:41-64 | Users 1 to 4 hold the four roles. |
| Workflow.OpenProject | tests/test_app.py:66-74 | The project is created as project 1. |
| Workflow.SubmitRequest | tests/test_app.py:76-87 | The PI's request for the project succeeds and is stored as request 1, stamped `now`. |
| Workflow.FileRequest | tests/test_app.py:76-95 | The request is created, and the manager's status change succeeds with `Approved`. |
| Workflow.ScheduleAndApprove | tests/test_app.py:97-116 | The allocation succeeds, and the approval succeeds with `approved` true. |
| Workflow.ReadBack | tests/test_app.py:118-128 | The PI lists one project. The year's report has a row. The table's first row carries the project's title. |
| Workflow.FullWorkflow | tests/test_app.py:40-128 | Every step of the test succeeds, with the outcomes the test expects. |

## Left out

- `get_db` and the session lifecycle are not modelled. Neither are `Base.metadata.create_all` and the FastAPI app wiring. This is framework plumbing.
- Queries, commits and refreshes become reads and writes of the `Store` fields. A failed commit leaves the tables as they were, as a rolled-back transaction does.
- The database module is not part of this model. A new row gets one more than the largest stored id, SQLite's rule for an integer primary key. SQLite does not enforce foreign keys by default. The model keeps them as the invariant `Store.Valid`, which the handlers' own checks maintain.
- `datetime.utcnow` is not modelled. The clock is the `now` parameter of the create handlers, with microsecond resolution.
- `strftime("%Y-%m")` is not modelled. A month key is a (year, month) pair. Lexicographic order on pairs agrees with order on the zero-padded strings.
- Handlers.Store.DeleteProject: it requires that no request refers to the project. The effect of the delete on child requests depends on relationship-cascade and NOT NULL behaviour that the code does not show.
- List order is not modelled. The queries have no ORDER BY, and the model returns rows in id order, the order SQLite returns them in. The allocation table follows allocation order.
- Payload validation is not modelled. That covers malformed bodies (HTTP 422), `EmailStr` format checks and type coercion. Payloads reach the handlers already validated.
- An integrity error at commit is modelled only as the `StorageConstraint` outcome. The error's text and the HTTP 500 body are not.
- Concurrent requests and last-commit-wins races are not modelled.
- Integer width is not modelled. Ids, the `pi_id`, `manager_id`, `allocator_id` and `approver_id` values and `duration_hours` are unbounded integers. SQLite stores a signed 64-bit INTEGER, and binding a larger Python int raises `OverflowError` (HTTP 500). For example, `GET /users/9223372036854775808/projects` is a 500 in the API and a 404 in the model.
- Workflow.FullWorkflow: it asks for the report of the year of `now`. That is the UTC year of the `created_at` stamps (`datetime.utcnow`). The test asks for `date.today().year`, the local year. Around New Year the two differ, and the test's `len(...) >= 1` would then fail.
- Workflow.FullWorkflow: it requires `now` to lie inside its own year's report window. That leaves out a `now` in the fraction of a second after 23:59:59 on December 31. Such a request is outside the window, and the test's `len(...) >= 1` would then fail too.
- `app/__init__.py` is not part of this model. It holds interpreter compatibility glue.
- The alembic migration and the frontend are not part of this model.
