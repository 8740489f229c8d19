/** The request payloads the handlers accept and the report rows they return.
    Payloads are values that have already passed shape validation. */
module Schemas {
  import opened Outcomes
  import opened Models

  /** A field of a partial-update payload: left out of the request body,
      sent as an explicit null, or sent with a value. Only fields that were
      sent (`Null` or `Given`) are written. */
  datatype Field<+T> = Unset | Null | Given(value: T)

  datatype UserCreate = UserCreate(name: string, email: string, affiliation: Option<string>, role: UserRole)

  /** No `role` field: an update can never change a user's role. */
  datatype UserUpdate = UserUpdate(name: Field<string>, email: Field<string>, affiliation: Field<string>)

  datatype ProjectCreate = ProjectCreate(title: string, description: Option<string>, piId: int, managerId: int)

  datatype ProjectUpdate = ProjectUpdate(
    title: Field<string>, description: Field<string>, piId: Field<int>, managerId: Field<int>)

  datatype BeamtimeRequestCreate = BeamtimeRequestCreate(
    requestedDate: Date, durationHours: int, justification: Option<string>)

  /** The status is required and is one of the four request statuses. */
  datatype BeamtimeRequestUpdate = BeamtimeRequestUpdate(status: RequestStatus)

  datatype AllocationCreate = AllocationCreate(beamline: string, slotDate: Date, slotTime: string, durationHours: int)

  datatype ApprovalCreate = ApprovalCreate(approverId: int, notes: Option<string>, approved: bool)

  /** The approval payload as validated from a body in which `approved` may be
      missing: a missing flag means `true`. */
  function ApprovalBody(approverId: int, notes: Option<string>, approved: Option<bool>): (p: ApprovalCreate)
    ensures p.approverId == approverId && p.notes == notes
    ensures p.approved <==> approved != Some(false)
  {
    ApprovalCreate(approverId, notes, approved.GetOr(true))
  }

  /** One row of the allocation table: the allocation joined with the title
      of its request's project. */
  datatype AllocationTableRow = AllocationTableRow(
    projectTitle: string, beamline: string, slotDate: Date, slotTime: string,
    durationHours: int, status: AllocationStatus)

  /** A calendar month, the report's grouping key (`"%Y-%m"`). */
  datatype MonthKey = MonthKey(year: int, month: int)

  /** One month of the monthly report. */
  datatype MonthlyReportItem = MonthlyReportItem(month: MonthKey, requestCount: nat, allocationCount: nat)
}
