/** Exactly when each leave call is accepted, what it refuses with, and what it changes. */
module LeaveOutcomes {
  import opened Prelude
  import opened AttendanceRows
  import opened Weekdays
  import opened Leaves
  import opened LeaveProofs

  /** An active leave of the employee, other than `except`, shares a day with `[start, end]`. */
  ghost predicate MeetsLeave(leaves: map<nat, Leave>, employee: nat, start: int, end: int, except: Option<nat>) {
    exists id, day :: SharesDay(leaves, employee, start, end, except, id, day)
  }

  predicate SharesDay(leaves: map<nat, Leave>, employee: nat, start: int, end: int, except: Option<nat>,
    id: nat, day: int)
  {
    && id in leaves && except != Some(id)
    && leaves[id].employee == employee && leaves[id].status in {Pending, Approved}
    && start <= day <= end && Covers(leaves[id], day)
  }

  /** The range holds a weekday, or the leave is for half a day, which is not looked at. */
  ghost predicate CountsADay(start: int, end: int, halfDay: bool) {
    halfDay || exists day :: start <= day <= end && !IsWeekend(day)
  }

  lemma DaysCount(start: int, end: int, halfDay: bool)
    ensures TotalDays(start, end, halfDay) >= 1 <==> CountsADay(start, end, halfDay)
  {
    ListedIsExact(start, end);
    if Listed(start, end) != [] {
      assert Listed(start, end)[0] in Listed(start, end);
    }
    if day :| start <= day <= end && !IsWeekend(day) {
      assert day in Listed(start, end);
    }
  }

  lemma OverlapIsASharedDay(hr: Hr, employee: nat, start: int, end: int, except: Option<nat>)
    requires WellFormed(hr) && start <= end
    ensures Overlaps(hr.leaves, employee, start, end, except) <==> MeetsLeave(hr.leaves, employee, start, end, except)
  {
    if Overlaps(hr.leaves, employee, start, end, except) {
      var id :|
        && id in hr.leaves && hr.leaves[id].employee == employee && IsActive(hr.leaves[id])
        && hr.leaves[id].start <= end && hr.leaves[id].end >= start && except != Some(id);
      assert SharesDay(hr.leaves, employee, start, end, except, id, Max(start, hr.leaves[id].start));
    }
  }

  /* ── Creation ───────────────────────────────────────────────────────── */

  /** The caller may file for the employee: anyone by name with `readAll`, else only itself. */
  predicate FilesFor(caller: Caller, named: Option<nat>, employee: nat) {
    if caller.readAll then named == Some(employee)
    else caller.self == Some(employee) && (named == None || named == Some(employee))
  }

  /** What is asked of a range, whoever it is for. */
  predicate IsAcceptable(hr: Hr, employee: nat, dto: CreateDto) {
    && employee in hr.employees && dto.leaveType in hr.leaveTypes && hr.leaveTypes[dto.leaveType]
    && dto.start <= dto.end
  }

  /**
   * In every state a run reaches: a creation that names an acceptable leave of an employee the
   * caller may file for is a conflict exactly if it shares a day with another active leave of
   * that employee; without one it goes through exactly if it counts a day. It is forbidden
   * exactly to file for somebody else.
   */
  lemma CreationIsAcceptedExactly(hr: Hr, caller: Caller, dto: CreateDto, employee: nat)
    requires Inv(hr) && FilesFor(caller, dto.employee, employee)
    ensures var reply := Create(hr, caller, dto);
      var fits := IsAcceptable(hr, employee, dto);
      var meets := MeetsLeave(hr.leaves, employee, dto.start, dto.end, None);
      && (reply.result == Err(Conflict) <==> fits && meets)
      && (reply.result.Ok? <==> fits && !meets && CountsADay(dto.start, dto.end, dto.halfDay))
      && (reply.result.Err? ==> reply.result.error in {Conflict, BadRequest} && reply.hr == hr)
      && (reply.result.Ok? ==>
            var id := reply.result.value;
            && id !in hr.leaves && reply.hr == hr.(leaves := hr.leaves[id := reply.hr.leaves[id]], nextLeave := id + 1)
            && reply.hr.leaves[id] == Leave(employee, dto.leaveType, dto.start, dto.end,
                 if dto.halfDay then 1 else ClosedForm(dto.start, dto.end - dto.start + 1), dto.halfDay, Pending))
  {
    hide Overlaps, MeetsLeave, Listed, ClosedForm, CountsADay, Disjoint, ApprovedStamped;
    if dto.start <= dto.end {
      OverlapIsASharedDay(hr, employee, dto.start, dto.end, None);
      CountIsClosedForm(dto.start, dto.end - dto.start + 1);
    }
    DaysCount(dto.start, dto.end, dto.halfDay);
  }

  lemma NobodyElseFiles(hr: Hr, caller: Caller, dto: CreateDto)
    requires forall employee :: !FilesFor(caller, dto.employee, employee)
    ensures Create(hr, caller, dto) ==
      Reply(hr, Err(if !caller.readAll && caller.self.Some? then Forbidden else BadRequest))
  {
    if caller.readAll && dto.employee.Some? { assert FilesFor(caller, dto.employee, dto.employee.value); }
    if !caller.readAll && caller.self.Some? { assert !FilesFor(caller, dto.employee, caller.self.value); }
  }

  /* ── Only the employee's own active leaves matter ───────────────────── */

  /** The two tables hold the same active leaves of the employee. */
  ghost predicate SameActive(hr: Hr, hr': Hr, employee: nat) {
    forall id, leave: Leave :: leave.employee == employee && IsActive(leave) ==>
      ((id in hr.leaves && hr.leaves[id] == leave) <==> (id in hr'.leaves && hr'.leaves[id] == leave))
  }

  lemma SameActiveOverlaps(hr: Hr, hr': Hr, employee: nat, start: int, end: int, except: Option<nat>)
    requires SameActive(hr, hr', employee)
    ensures Overlaps(hr.leaves, employee, start, end, except) <==> Overlaps(hr'.leaves, employee, start, end, except)
  {
  }

  /**
   * The answers to a creation and to an update depend on no leave of anybody else and on no
   * rejected or cancelled one.
   */
  lemma OnlyOwnActiveLeavesMatter(hr: Hr, hr': Hr, caller: Caller, create: CreateDto, employee: nat, id: nat,
      update: UpdateDto)
    requires SameActive(hr, hr', employee) && hr'.employees == hr.employees && hr'.leaveTypes == hr.leaveTypes
    ensures FilesFor(caller, create.employee, employee) && hr'.nextLeave == hr.nextLeave ==>
      Create(hr', caller, create).result == Create(hr, caller, create).result
    ensures id in hr.leaves && id in hr'.leaves && hr.leaves[id].employee == employee && hr'.leaves[id] == hr.leaves[id]
      ==> Update(hr', caller, id, update).result == Update(hr, caller, id, update).result
  {
    SameActiveOverlaps(hr, hr', employee, create.start, create.end, None);
    if id in hr.leaves {
      SameActiveOverlaps(hr, hr', employee, Or(update.start, hr.leaves[id].start), Or(update.end, hr.leaves[id].end),
                         Some(id));
    }
  }

  /* ── Update ─────────────────────────────────────────────────────────── */

  /** The leave as it would be after the update, but for the counted days. */
  function Changed(before: Leave, dto: UpdateDto): Leave {
    before.(leaveType := if dto.leaveType.Some? then dto.leaveType.value else before.leaveType,
            start := if dto.start.Some? then dto.start.value else before.start,
            end := if dto.end.Some? then dto.end.value else before.end,
            halfDay := if dto.halfDay.Some? then dto.halfDay.value else before.halfDay)
  }

  predicate MayTouch(caller: Caller, leave: Leave) { caller.readAll || caller.self == Some(leave.employee) }

  /**
   * In every state a run reaches: an update that names a date is a conflict exactly if the
   * caller may touch the pending leave, the new range is not reversed and another active leave
   * of the same employee shares a day with it; one that names none never is. It goes through
   * exactly if moreover a named type is active and the range counts a day.
   */
  lemma UpdateIsAcceptedExactly(hr: Hr, caller: Caller, id: nat, dto: UpdateDto)
    requires Inv(hr) && id in hr.leaves
    ensures var before, after, reply := hr.leaves[id], Changed(hr.leaves[id], dto), Update(hr, caller, id, dto);
      var open := before.status == Pending && MayTouch(caller, before) && after.start <= after.end;
      var meets := (dto.start.Some? || dto.end.Some?)
                   && MeetsLeave(hr.leaves, before.employee, after.start, after.end, Some(id));
      && (reply.result == Err(Conflict) <==> open && meets)
      && (reply.result == Err(Forbidden) <==> before.status == Pending && !MayTouch(caller, before)
                                              && caller.self.Some?)
      && (reply.result.Ok? <==>
            && open && !meets && CountsADay(after.start, after.end, after.halfDay)
            && (dto.leaveType.Some? ==> after.leaveType in hr.leaveTypes && hr.leaveTypes[after.leaveType]))
      && (reply.result.Err? ==> reply.result.error in {Conflict, Forbidden, BadRequest} && reply.hr == hr)
      && (reply.result.Ok? ==>
            reply.hr == hr.(leaves := hr.leaves[id := after.(totalDays :=
              if after.halfDay then 1 else ClosedForm(after.start, after.end - after.start + 1))]))
  {
    hide Overlaps, MeetsLeave, Listed, ClosedForm, CountsADay, WellFormed, Disjoint, ApprovedStamped;
    var before, after := hr.leaves[id], Changed(hr.leaves[id], dto);
    if after.start <= after.end {
      OverlapIsASharedDay(hr, before.employee, after.start, after.end, Some(id));
      CountIsClosedForm(after.start, after.end - after.start + 1);
    }
    DaysCount(after.start, after.end, after.halfDay);
  }

  /* ── Closing a leave ────────────────────────────────────────────────── */

  /** The call gives the pending leave this status and changes no other leave. */
  predicate Closes(hr: Hr, reply: Reply, id: nat, status: LeaveStatus) {
    && id in hr.leaves && hr.leaves[id].status == Pending && reply.result == Ok(id)
    && reply.hr == hr.(leaves := hr.leaves[id := hr.leaves[id].(status := status)], attendance := reply.hr.attendance)
  }

  predicate Refuses(hr: Hr, reply: Reply, id: nat) {
    reply == Reply(hr, Err(if id in hr.leaves then BadRequest else NotFound))
  }

  /**
   * Only a pending leave is approved, rejected or cancelled, and a cancellation is for its own
   * employee alone; each sets its status and nothing else of any leave, and only an approval
   * touches attendance. Every leave but an approved one can be deleted.
   */
  lemma ClosingIsAcceptedExactly(hr: Hr, caller: Caller, id: nat)
    ensures Approve(hr, id).result.Ok? <==> Closes(hr, Approve(hr, id), id, Approved)
    ensures Reject(hr, id).result.Ok? <==> Closes(hr, Reject(hr, id), id, LeaveStatus.Rejected)
    ensures Cancel(hr, caller, id).result.Ok? <==> Closes(hr, Cancel(hr, caller, id), id, Cancelled)
    ensures id in hr.leaves && hr.leaves[id].status == Pending ==>
      && Approve(hr, id).result.Ok? && Reject(hr, id).result.Ok?
      && Cancel(hr, caller, id).result ==
           (if caller.self.None? then Err(BadRequest)
            else if caller.self.value == hr.leaves[id].employee then Ok(id) else Err(Forbidden))
    ensures Reject(hr, id).hr.attendance == hr.attendance == Cancel(hr, caller, id).hr.attendance
    ensures Remove(hr, id).result.Ok? <==> id in hr.leaves && hr.leaves[id].status != Approved
    ensures Remove(hr, id).hr == if Remove(hr, id).result.Ok? then hr.(leaves := hr.leaves - {id}) else hr
    ensures Approve(hr, id).result.Err? ==> Refuses(hr, Approve(hr, id), id)
    ensures Reject(hr, id).result.Err? ==> Refuses(hr, Reject(hr, id), id)
    ensures Remove(hr, id).result.Err? ==> Refuses(hr, Remove(hr, id), id)
    ensures (id in hr.leaves && hr.leaves[id].status == Pending) || Refuses(hr, Cancel(hr, caller, id), id)
  {
  }
}
