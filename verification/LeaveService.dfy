/**
 * The leave service in its own form (backend/src/modules/hrm/leaves/services.ts): each call is
 * proved against the function of Leaves of the same name, and to keep the invariant.
 */
module LeaveService {
  import opened Prelude
  import opened AttendanceRows
  import opened Weekdays
  import opened Leaves
  import opened LeaveProofs
  import opened LeaveOutcomes

  class Service {
    var leaves: map<nat, Leave>
    var attendance: Table
    var nextLeave: nat
    const employees: set<nat>
    const leaveTypes: map<nat, bool>

    constructor (attendance: Table, employees: set<nat>, leaveTypes: map<nat, bool>)
      ensures Valid() && Tables() == Hr(map[], attendance, employees, leaveTypes, 0)
    {
      this.leaves, this.attendance, this.nextLeave := map[], attendance, 0;
      this.employees, this.leaveTypes := employees, leaveTypes;
    }

    function Tables(): Hr
      reads this
    {
      Hr(leaves, attendance, employees, leaveTypes, nextLeave)
    }

    /** Ranges and day counts are right, active leaves disjoint, approved leaves stamped. */
    ghost predicate Valid()
      reads this
    {
      Inv(Tables())
    }

    method CountTotalDays(start: int, end: int, halfDay: bool) returns (totalDays: int)
      ensures totalDays == TotalDays(start, end, halfDay)
    {
      if halfDay {
        return 1;
      }
      totalDays := CountWeekdays(start, end);
    }

    method CreateLeave(caller: Caller, dto: CreateDto) returns (result: Result<nat>)
      requires Valid()
      modifies this`leaves, this`nextLeave
      ensures Valid()
      ensures Reply(Tables(), result) == Create(old(Tables()), caller, dto)
      ensures forall employee :: FilesFor(caller, dto.employee, employee) ==>
        (result == Err(Conflict) <==> IsAcceptable(old(Tables()), employee, dto)
                                      && MeetsLeave(old(leaves), employee, dto.start, dto.end, None))
    {
      hide Inv, MeetsLeave;
      forall employee | FilesFor(caller, dto.employee, employee) {
        CreationIsAcceptedExactly(Tables(), caller, dto, employee);
      }
      StepKeepsInv(Tables(), CreateEvent(caller, dto));
      var employee := dto.employee;
      if !caller.readAll {
        if caller.self.None? {
          return Err(BadRequest);
        }
        if employee.Some? && employee != caller.self {
          return Err(Forbidden);
        }
        employee := caller.self;
      }
      if employee.None? {
        return Err(BadRequest);
      }
      if employee.value !in employees {
        return Err(BadRequest);
      }
      if dto.leaveType !in leaveTypes || !leaveTypes[dto.leaveType] {
        return Err(BadRequest);
      }
      if dto.start > dto.end {
        return Err(BadRequest);
      }
      if Overlaps(leaves, employee.value, dto.start, dto.end, None) {
        return Err(Conflict);
      }
      var totalDays := CountTotalDays(dto.start, dto.end, dto.halfDay);
      if totalDays <= 0 {
        return Err(BadRequest);
      }
      var id := nextLeave;
      leaves := leaves[id := Leave(employee.value, dto.leaveType, dto.start, dto.end, totalDays, dto.halfDay, Pending)];
      nextLeave := nextLeave + 1;
      result := Ok(id);
    }

    method UpdateLeave(caller: Caller, id: nat, dto: UpdateDto) returns (result: Result<nat>)
      requires Valid()
      modifies this`leaves
      ensures Valid()
      ensures Reply(Tables(), result) == Update(old(Tables()), caller, id, dto)
      ensures id in old(leaves) && (result.Ok? || result == Err(Conflict)) ==>
        var after := Changed(old(leaves)[id], dto);
        result == Err(Conflict) <==>
          (dto.start.Some? || dto.end.Some?) &&
            MeetsLeave(old(leaves), after.employee, after.start, after.end, Some(id))
    {
      hide Inv, MeetsLeave;
      if id in leaves { UpdateIsAcceptedExactly(Tables(), caller, id, dto); }
      StepKeepsInv(Tables(), UpdateEvent(caller, id, dto));
      if id !in leaves {
        return Err(NotFound);
      }
      var before := leaves[id];
      if before.status != Pending {
        return Err(BadRequest);
      }
      if !caller.readAll {
        if caller.self.None? {
          return Err(BadRequest);
        }
        if before.employee != caller.self.value {
          return Err(Forbidden);
        }
      }
      var newStart, newEnd := before.start, before.end;
      if dto.start.Some? {
        newStart := dto.start.value;
      }
      if dto.end.Some? {
        newEnd := dto.end.value;
      }
      if newStart > newEnd {
        return Err(BadRequest);
      }
      if dto.start.Some? || dto.end.Some? {
        if Overlaps(leaves, before.employee, newStart, newEnd, Some(id)) {
          return Err(Conflict);
        }
      }
      if dto.leaveType.Some? {
        if dto.leaveType.value !in leaveTypes || !leaveTypes[dto.leaveType.value] {
          return Err(BadRequest);
        }
      }
      var newHalfDay := if dto.halfDay.Some? then dto.halfDay.value else before.halfDay;
      var totalDays := CountTotalDays(newStart, newEnd, newHalfDay);
      if totalDays <= 0 {
        return Err(BadRequest);
      }
      var after := before;
      if dto.leaveType.Some? {
        after := after.(leaveType := dto.leaveType.value);
      }
      after := after.(start := newStart, end := newEnd, halfDay := newHalfDay, totalDays := totalDays);
      leaves := leaves[id := after];
      result := Ok(id);
    }

    method ApproveLeave(id: nat) returns (result: Result<nat>)
      requires Valid()
      modifies this`leaves, this`attendance
      ensures Valid()
      ensures Reply(Tables(), result) == Approve(old(Tables()), id)
    {
      hide Inv;
      StepKeepsInv(Tables(), ApproveEvent(id));
      if id !in leaves {
        return Err(NotFound);
      }
      var before := leaves[id];
      if before.status != Pending {
        return Err(BadRequest);
      }
      leaves := leaves[id := before.(status := Approved)];
      var weekdays := GetWeekdaysInRange(before.start, before.end);
      StampWeekdays(before.employee, weekdays, before.halfDay);
      result := Ok(id);
    }

    /** The approval's loop: one attendance row per weekday, updated or created. */
    method StampWeekdays(employee: nat, weekdays: seq<int>, halfDay: bool)
      modifies this`attendance
      ensures attendance == StampAll(old(attendance), employee, weekdays, halfDay)
    {
      for i := 0 to |weekdays|
        invariant attendance == StampAll(old(attendance), employee, weekdays[..i], halfDay)
      {
        var key := (employee, weekdays[i]);
        if key in attendance {
          attendance := attendance[key :=
            attendance[key].(status := OnLeave, centiHours := Some(if halfDay then 400 else 0))];
        } else {
          attendance := attendance[key := Attendance(OnLeave, None, None, Some(if halfDay then 400 else 0))];
        }
        assert weekdays[..i + 1][..i] == weekdays[..i];
      }
      assert weekdays[..|weekdays|] == weekdays;
    }

    method RejectLeave(id: nat) returns (result: Result<nat>)
      requires Valid()
      modifies this`leaves
      ensures Valid()
      ensures Reply(Tables(), result) == Reject(old(Tables()), id)
    {
      hide Inv;
      StepKeepsInv(Tables(), RejectEvent(id));
      if id !in leaves {
        return Err(NotFound);
      }
      if leaves[id].status != Pending {
        return Err(BadRequest);
      }
      leaves := leaves[id := leaves[id].(status := Rejected)];
      result := Ok(id);
    }

    method CancelLeave(caller: Caller, id: nat) returns (result: Result<nat>)
      requires Valid()
      modifies this`leaves
      ensures Valid()
      ensures Reply(Tables(), result) == Cancel(old(Tables()), caller, id)
    {
      hide Inv;
      StepKeepsInv(Tables(), CancelEvent(caller, id));
      if id !in leaves {
        return Err(NotFound);
      }
      if leaves[id].status != Pending {
        return Err(BadRequest);
      }
      if caller.self.None? {
        return Err(BadRequest);
      }
      if leaves[id].employee != caller.self.value {
        return Err(Forbidden);
      }
      leaves := leaves[id := leaves[id].(status := Cancelled)];
      result := Ok(id);
    }

    method RemoveLeave(id: nat) returns (result: Result<nat>)
      requires Valid()
      modifies this`leaves
      ensures Valid()
      ensures Reply(Tables(), result) == Remove(old(Tables()), id)
    {
      hide Inv;
      StepKeepsInv(Tables(), RemoveEvent(id));
      if id !in leaves {
        return Err(NotFound);
      }
      var status := leaves[id].status;
      if status != Pending && status != Cancelled && status != Rejected {
        return Err(BadRequest);
      }
      leaves := leaves - {id};
      result := Ok(id);
    }
  }
}
