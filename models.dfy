/** The persisted records: the three status enumerations, the five tables'
    row types with their foreign keys, and calendar dates and timestamps. */
module Models {
  import opened Outcomes

  /** Each user holds exactly one of these roles, and always one. */
  datatype UserRole = PI | ProjectManager | Allocator | Approver

  /** A beamtime request's review state; new requests are `Pending`. */
  datatype RequestStatus = Pending | Reviewed | Approved | Rejected

  /** An allocation's state; new allocations are `Scheduled`. */
  datatype AllocationStatus = Scheduled | Confirmed | Completed

  /** A calendar date (a `Date` column). */
  datatype Date = Date(year: int, month: int, day: int)

  /** A naive timestamp (a `DateTime` column): a date and the microseconds
      elapsed since midnight, the resolution of the stored values. */
  datatype DateTime = DateTime(date: Date, micros: int)

  const MicrosPerDay: int := 86400 * 1000000

  predicate IsLeapYear(y: int) {
    y % 4 == 0 && (y % 100 != 0 || y % 400 == 0)
  }

  function DaysInMonth(y: int, m: int): int
    requires 1 <= m <= 12
  {
    if m == 2 then (if IsLeapYear(y) then 29 else 28)
    else if m == 4 || m == 6 || m == 9 || m == 11 then 30
    else 31
  }

  predicate ValidDate(d: Date) {
    1 <= d.year <= 9999 && 1 <= d.month <= 12 && 1 <= d.day <= DaysInMonth(d.year, d.month)
  }

  predicate ValidDateTime(t: DateTime) {
    ValidDate(t.date) && 0 <= t.micros < MicrosPerDay
  }

  /** Chronological order of timestamps: year, month, day, then time of day. */
  predicate Before(a: DateTime, b: DateTime) {
    a.date.year < b.date.year
    || (a.date.year == b.date.year && a.date.month < b.date.month)
    || (a.date.year == b.date.year && a.date.month == b.date.month && a.date.day < b.date.day)
    || (a.date == b.date && a.micros < b.micros)
  }

  /** SQL `BETWEEN lo AND hi`: both ends included. */
  predicate Between(t: DateTime, lo: DateTime, hi: DateTime) {
    !Before(t, lo) && !Before(hi, t)
  }

  datatype User = User(id: int, name: string, email: string, affiliation: Option<string>, role: UserRole)

  /** `piId` and `managerId` refer to users. */
  datatype Project = Project(id: int, title: string, description: Option<string>, piId: int, managerId: int)

  /** `projectId` refers to a project. */
  datatype BeamtimeRequest = BeamtimeRequest(
    id: int, projectId: int, requestedDate: Date, durationHours: int,
    justification: Option<string>, status: RequestStatus, createdAt: DateTime)

  /** `requestId` refers to a beamtime request. */
  datatype Allocation = Allocation(
    id: int, requestId: int, beamline: string, slotDate: Date, slotTime: string,
    durationHours: int, status: AllocationStatus, createdAt: DateTime)

  /** `allocationId` refers to an allocation and `approverId` to a user. */
  datatype Approval = Approval(
    id: int, allocationId: int, approverId: int, approved: bool,
    notes: Option<string>, createdAt: DateTime)

  // The primary key of each table.
  function UserKey(u: User): int { u.id }
  function ProjectKey(p: Project): int { p.id }
  function RequestKey(q: BeamtimeRequest): int { q.id }
  function AllocationKey(a: Allocation): int { a.id }
  function ApprovalKey(a: Approval): int { a.id }
}
