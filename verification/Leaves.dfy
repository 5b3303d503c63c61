/**
 * Leave requests and the attendance rows an approval writes
 * (backend/src/modules/hrm/leaves/services.ts). Each call is one transaction: a function
 * from the tables to the new tables and a result; a failed call changes nothing.
 */
module Leaves {
  import opened Prelude
  import opened AttendanceRows
  import opened Weekdays

  datatype LeaveStatus = Pending | Approved | Rejected | Cancelled

  datatype Leave = Leave(
    employee: nat,
    leaveType: nat,
    start: int,
    end: int,
    totalDays: int,
    halfDay: bool,
    status: LeaveStatus)

  /** `leaveTypes` says which leave types exist and whether they are active. */
  datatype Hr = Hr(
    leaves: map<nat, Leave>,
    attendance: Table,
    employees: set<nat>,
    leaveTypes: map<nat, bool>,
    nextLeave: nat)

  /** `readAll`: may act for anyone; `self`: the employee record linked to the account. */
  datatype Caller = Caller(readAll: bool, self: Option<nat>)

  datatype CreateDto = CreateDto(employee: Option<nat>, leaveType: nat, start: int, end: int, halfDay: bool)
  datatype UpdateDto = UpdateDto(leaveType: Option<nat>, start: Option<int>, end: Option<int>, halfDay: Option<bool>)

  datatype Reply = Reply(hr: Hr, result: Result<nat>)

  predicate IsActive(leave: Leave) { leave.status == Pending || leave.status == Approved }

  /** Some other active leave of the employee meets `[start, end]`. */
  predicate Overlaps(leaves: map<nat, Leave>, employee: nat, start: int, end: int, exclude: Option<nat>) {
    exists id | id in leaves ::
      leaves[id].employee == employee && IsActive(leaves[id])
      && leaves[id].start <= end && leaves[id].end >= start && Some(id) != exclude
  }

  function TotalDays(start: int, end: int, halfDay: bool): int {
    if halfDay then 1 else |Listed(start, end)|
  }

  /** Who a new leave is for: the named employee if the caller may choose, else the caller. */
  function ResolveEmployee(caller: Caller, named: Option<nat>): Result<nat> {
    if !caller.readAll then
      if caller.self.None? then Err(BadRequest)
      else if named.Some? && named != caller.self then Err(Forbidden)
      else Ok(caller.self.value)
    else if named.None? then Err(BadRequest)
    else Ok(named.value)
  }

  predicate TypeIsActive(hr: Hr, leaveType: nat) {
    leaveType in hr.leaveTypes && hr.leaveTypes[leaveType]
  }

  function Create(hr: Hr, caller: Caller, dto: CreateDto): Reply {
    var who := ResolveEmployee(caller, dto.employee);
    if who.Err? then Reply(hr, Err(who.error))
    else if who.value !in hr.employees || !TypeIsActive(hr, dto.leaveType) || dto.start > dto.end
    then Reply(hr, Err(BadRequest))
    else if Overlaps(hr.leaves, who.value, dto.start, dto.end, None) then Reply(hr, Err(Conflict))
    else
      var totalDays := TotalDays(dto.start, dto.end, dto.halfDay);
      if totalDays <= 0 then Reply(hr, Err(BadRequest))
      else
        var leave := Leave(who.value, dto.leaveType, dto.start, dto.end, totalDays, dto.halfDay, Pending);
        Reply(hr.(leaves := hr.leaves[hr.nextLeave := leave], nextLeave := hr.nextLeave + 1), Ok(hr.nextLeave))
  }

  function OwnsOrReadsAll(caller: Caller, leave: Leave): Option<Error> {
    if caller.readAll then None
    else if caller.self.None? then Some(BadRequest)
    else if caller.self.value != leave.employee then Some(Forbidden)
    else None
  }

  function Update(hr: Hr, caller: Caller, id: nat, dto: UpdateDto): Reply {
    if id !in hr.leaves then Reply(hr, Err(NotFound))
    else
      var before := hr.leaves[id];
      var start, end := Or(dto.start, before.start), Or(dto.end, before.end);
      var halfDay := Or(dto.halfDay, before.halfDay);
      if before.status != Pending then Reply(hr, Err(BadRequest))
      else if OwnsOrReadsAll(caller, before).Some? then Reply(hr, Err(OwnsOrReadsAll(caller, before).value))
      else if start > end then Reply(hr, Err(BadRequest))
      else if (dto.start.Some? || dto.end.Some?) && Overlaps(hr.leaves, before.employee, start, end, Some(id))
      then Reply(hr, Err(Conflict))
      else if (dto.leaveType.Some? && !TypeIsActive(hr, dto.leaveType.value)) || TotalDays(start, end, halfDay) <= 0
      then Reply(hr, Err(BadRequest))
      else
        var after := before.(leaveType := Or(dto.leaveType, before.leaveType), start := start, end := end,
                             halfDay := halfDay, totalDays := TotalDays(start, end, halfDay));
        Reply(hr.(leaves := hr.leaves[id := after]), Ok(id))
  }

  function LeaveHours(halfDay: bool): int { if halfDay then 400 else 0 }

  /** An existing row keeps its check-in and check-out times. */
  function StampRow(table: Table, key: (nat, int), halfDay: bool): Attendance {
    if key in table then table[key].(status := OnLeave, centiHours := Some(LeaveHours(halfDay)))
    else Attendance(OnLeave, None, None, Some(LeaveHours(halfDay)))
  }

  function StampAll(table: Table, employee: nat, days: seq<int>, halfDay: bool): Table {
    if days == [] then table
    else
      var rest := StampAll(table, employee, days[..|days| - 1], halfDay);
      var key := (employee, days[|days| - 1]);
      rest[key := StampRow(rest, key, halfDay)]
  }

  function SetStatus(hr: Hr, id: nat, status: LeaveStatus): Hr
    requires id in hr.leaves
  {
    hr.(leaves := hr.leaves[id := hr.leaves[id].(status := status)])
  }

  function Approve(hr: Hr, id: nat): Reply {
    if id !in hr.leaves then Reply(hr, Err(NotFound))
    else if hr.leaves[id].status != Pending then Reply(hr, Err(BadRequest))
    else
      var leave := hr.leaves[id];
      Reply(SetStatus(hr, id, Approved)
            .(attendance := StampAll(hr.attendance, leave.employee, Listed(leave.start, leave.end), leave.halfDay)),
            Ok(id))
  }

  function Reject(hr: Hr, id: nat): Reply {
    if id !in hr.leaves then Reply(hr, Err(NotFound))
    else if hr.leaves[id].status != Pending then Reply(hr, Err(BadRequest))
    else Reply(SetStatus(hr, id, Rejected), Ok(id))
  }

  function Cancel(hr: Hr, caller: Caller, id: nat): Reply {
    if id !in hr.leaves then Reply(hr, Err(NotFound))
    else if hr.leaves[id].status != Pending || caller.self.None? then Reply(hr, Err(BadRequest))
    else if caller.self.value != hr.leaves[id].employee then Reply(hr, Err(Forbidden))
    else Reply(SetStatus(hr, id, Cancelled), Ok(id))
  }

  function Remove(hr: Hr, id: nat): Reply {
    if id !in hr.leaves then Reply(hr, Err(NotFound))
    else if hr.leaves[id].status == Approved then Reply(hr, Err(BadRequest))
    else Reply(hr.(leaves := hr.leaves - {id}), Ok(id))
  }

  datatype Event =
    | CreateEvent(caller: Caller, create: CreateDto)
    | UpdateEvent(caller: Caller, id: nat, update: UpdateDto)
    | ApproveEvent(id: nat)
    | RejectEvent(id: nat)
    | CancelEvent(caller: Caller, id: nat)
    | RemoveEvent(id: nat)

  function Step(hr: Hr, e: Event): Reply {
    match e
    case CreateEvent(caller, dto) => Create(hr, caller, dto)
    case UpdateEvent(caller, id, dto) => Update(hr, caller, id, dto)
    case ApproveEvent(id) => Approve(hr, id)
    case RejectEvent(id) => Reject(hr, id)
    case CancelEvent(caller, id) => Cancel(hr, caller, id)
    case RemoveEvent(id) => Remove(hr, id)
  }

  function Exec(hr: Hr, run: seq<Event>): Hr
    decreases |run|
  {
    if run == [] then hr else Exec(Step(hr, run[0]).hr, run[1..])
  }
}
