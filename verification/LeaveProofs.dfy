/** What every run of the leave service keeps. */
module LeaveProofs {
  import opened Prelude
  import opened AttendanceRows
  import opened Weekdays
  import opened Leaves

  /** Ranges are not reversed and the stored day count is the counted one, at least 1. */
  ghost predicate WellFormed(hr: Hr) {
    forall id :: id in hr.leaves ==>
      var l := hr.leaves[id];
      id < hr.nextLeave && l.start <= l.end && l.totalDays == TotalDays(l.start, l.end, l.halfDay) && l.totalDays >= 1
  }

  predicate Covers(leave: Leave, day: int) { leave.start <= day <= leave.end }

  /** No two active leaves of one employee meet. */
  ghost predicate Disjoint(hr: Hr) {
    forall a, b :: a in hr.leaves && b in hr.leaves && a != b
      && IsActive(hr.leaves[a]) && IsActive(hr.leaves[b]) && hr.leaves[a].employee == hr.leaves[b].employee
      ==> hr.leaves[a].end < hr.leaves[b].start || hr.leaves[b].end < hr.leaves[a].start
  }

  /** The day carries the leave's stamp. */
  predicate IsStamped(table: Table, leave: Leave, day: int) {
    var key := (leave.employee, day);
    key in table && table[key].status == OnLeave && table[key].centiHours == Some(if leave.halfDay then 400 else 0)
  }

  ghost predicate ApprovedStamped(hr: Hr) {
    forall id, day :: id in hr.leaves && hr.leaves[id].status == Approved && Covers(hr.leaves[id], day) &&
      !IsWeekend(day)
      ==> IsStamped(hr.attendance, hr.leaves[id], day)
  }

  ghost predicate Inv(hr: Hr) { WellFormed(hr) && Disjoint(hr) && ApprovedStamped(hr) }

  /* ── Stamping ───────────────────────────────────────────────────────── */

  /** Exactly the listed days of the employee are rewritten, each keeping its check-in and check-out. */
  lemma {:induction false} StampAllAt(table: Table, employee: nat, days: seq<int>, halfDay: bool, key: (nat, int))
    ensures var r := StampAll(table, employee, days, halfDay);
      if key.0 == employee && key.1 in days then key in r && r[key] == StampRow(table, key, halfDay)
      else (key in r <==> key in table) && (key in table ==> r[key] == table[key])
    decreases |days|
  {
    if days != [] {
      var init, last := days[..|days| - 1], days[|days| - 1];
      assert days == init + [last];
      StampAllAt(table, employee, init, halfDay, key);
      StampAllAt(table, employee, init, halfDay, (employee, last));
    }
  }

  /**
   * Approval writes exactly the leave's weekdays and leaves every other attendance row
   * alone; the number of rows written is the stored day count, except for a half-day leave
   * over more or fewer than one weekday.
   */
  lemma ApprovalWritesItsWeekdays(hr: Hr, id: nat)
    requires Inv(hr) && Approve(hr, id).result.Ok?
    ensures var leave, after := hr.leaves[id], Approve(hr, id).hr.attendance;
      var days := set d | d in Listed(leave.start, leave.end);
      && (forall d :: d in days <==> Covers(leave, d) && !IsWeekend(d))
      && (forall key: (nat, int) ::
            if key.0 == leave.employee && key.1 in days
            then key in after && after[key] ==
              (if key in hr.attendance
               then hr.attendance[key].(status := OnLeave, centiHours := Some(if leave.halfDay then 400 else 0))
               else Attendance(OnLeave, None, None, Some(if leave.halfDay then 400 else 0)))
            else (key in after <==> key in hr.attendance) && (key in after ==> after[key] == hr.attendance[key]))
      && (|days| == leave.totalDays <==> !leave.halfDay || |days| == 1)
  {
    var leave, after := hr.leaves[id], Approve(hr, id).hr.attendance;
    ListedIsExact(leave.start, leave.end);
    ListedHasNoDuplicates(leave.start, leave.end);
    forall key: (nat, int) {
      StampAllAt(hr.attendance, leave.employee, Listed(leave.start, leave.end), leave.halfDay, key);
    }
  }

  /* ── Each call keeps the invariant ──────────────────────────────────── */

  lemma CreateKeepsInv(hr: Hr, caller: Caller, dto: CreateDto)
    requires Inv(hr)
    ensures Inv(Create(hr, caller, dto).hr)
  {
  }

  lemma UpdateKeepsInv(hr: Hr, caller: Caller, id: nat, dto: UpdateDto)
    requires Inv(hr)
    ensures Inv(Update(hr, caller, id, dto).hr)
  {
    if Update(hr, caller, id, dto).result.Ok? {
      ReplacementKeepsInv(hr, id, Update(hr, caller, id, dto).hr.leaves[id], dto.start.Some? || dto.end.Some?);
    }
  }

  /** A pending leave is replaced; its new range was checked against the others unless it is the old one. */
  lemma ReplacementKeepsInv(hr: Hr, id: nat, after: Leave, checked: bool)
    requires Inv(hr) && id in hr.leaves && hr.leaves[id].status == Pending == after.status
    requires after.employee == hr.leaves[id].employee
    requires after.start <= after.end && after.totalDays == TotalDays(after.start, after.end, after.halfDay) >= 1
    requires if checked then !Overlaps(hr.leaves, after.employee, after.start, after.end, Some(id))
             else after.start == hr.leaves[id].start && after.end == hr.leaves[id].end
    ensures Inv(hr.(leaves := hr.leaves[id := after]))
  {
  }

  lemma ApproveKeepsStamps(hr: Hr, id: nat)
    requires Inv(hr) && Approve(hr, id).result.Ok?
    ensures ApprovedStamped(Approve(hr, id).hr)
  {
    var hr' := Approve(hr, id).hr;
    ApprovalWritesItsWeekdays(hr, id);
    forall a, day | a in hr'.leaves && hr'.leaves[a].status == Approved && Covers(hr'.leaves[a], day) && !IsWeekend(day)
      ensures IsStamped(hr'.attendance, hr'.leaves[a], day)
    {
      var key := (hr'.leaves[a].employee, day);
      if a != id {
        assert IsStamped(hr.attendance, hr.leaves[a], day);
      }
    }
  }

  lemma ApproveKeepsInv(hr: Hr, id: nat)
    requires Inv(hr)
    ensures Inv(Approve(hr, id).hr)
  {
    if Approve(hr, id).result.Ok? {
      ApproveKeepsStamps(hr, id);
    }
  }

  /** Rejecting or cancelling a pending leave. */
  lemma ClosingKeepsInv(hr: Hr, id: nat, status: LeaveStatus)
    requires Inv(hr) && id in hr.leaves && (status == Rejected || status == Cancelled)
    ensures Inv(SetStatus(hr, id, status))
  {
  }

  lemma RemovalKeepsInv(hr: Hr, id: nat)
    requires Inv(hr)
    ensures Inv(hr.(leaves := hr.leaves - {id}))
  {
  }

  lemma StepKeepsInv(hr: Hr, e: Event)
    requires Inv(hr)
    ensures Inv(Step(hr, e).hr)
  {
    match e
    case CreateEvent(caller, dto) => CreateKeepsInv(hr, caller, dto);
    case UpdateEvent(caller, id, dto) => UpdateKeepsInv(hr, caller, id, dto);
    case ApproveEvent(id) => ApproveKeepsInv(hr, id);
    case RejectEvent(id) => if Reject(hr, id).result.Ok? { ClosingKeepsInv(hr, id, Rejected); }
    case CancelEvent(caller, id) => if Cancel(hr, caller, id).result.Ok? { ClosingKeepsInv(hr, id, Cancelled); }
    case RemoveEvent(id) => if Remove(hr, id).result.Ok? { RemovalKeepsInv(hr, id); }
  }

  lemma {:induction false} RunKeepsInv(hr: Hr, run: seq<Event>)
    requires Inv(hr)
    ensures Inv(Exec(hr, run))
    decreases |run|
  {
    if run != [] {
      StepKeepsInv(hr, run[0]);
      RunKeepsInv(Step(hr, run[0]).hr, run[1..]);
    }
  }

  /* ── Main results ───────────────────────────────────────────────────── */

  /** In every state reached from no leave at all, no two active leaves of an employee share a day. */
  lemma ActiveLeavesShareNoDay(hr: Hr, run: seq<Event>, a: nat, b: nat, day: int)
    requires hr.leaves == map[] && a != b
    requires var end := Exec(hr, run).leaves;
      a in end && b in end && IsActive(end[a]) && IsActive(end[b]) && end[a].employee == end[b].employee
    ensures !(Covers(Exec(hr, run).leaves[a], day) && Covers(Exec(hr, run).leaves[b], day))
  {
    RunKeepsInv(hr, run);
  }

  /** In every such state each weekday of an approved leave carries its stamp, whatever was approved later. */
  lemma ApprovedLeavesStayStamped(hr: Hr, run: seq<Event>, id: nat, day: int)
    requires hr.leaves == map[]
    requires var end := Exec(hr, run).leaves;
      id in end && end[id].status == Approved && Covers(end[id], day) && !IsWeekend(day)
    ensures IsStamped(Exec(hr, run).attendance, Exec(hr, run).leaves[id], day)
  {
    RunKeepsInv(hr, run);
  }

  /** In every such state the stored day count is 1 for a half day, else the weekdays of the range, and at least 1. */
  lemma DayCountsAreExact(hr: Hr, run: seq<Event>, id: nat)
    requires hr.leaves == map[] && id in Exec(hr, run).leaves
    ensures var l := Exec(hr, run).leaves[id];
      && l.start <= l.end && l.totalDays >= 1
      && l.totalDays == if l.halfDay then 1 else ClosedForm(l.start, l.end - l.start + 1)
  {
    RunKeepsInv(hr, run);
    var l := Exec(hr, run).leaves[id];
    CountIsClosedForm(l.start, l.end - l.start + 1);
  }

  lemma StepKeepsApproved(hr: Hr, e: Event, id: nat)
    requires WellFormed(hr) && id in hr.leaves && hr.leaves[id].status == Approved
    ensures id in Step(hr, e).hr.leaves && Step(hr, e).hr.leaves[id] == hr.leaves[id]
  {
  }

  /** An approved leave is final: no later call changes or removes it. */
  lemma {:induction false} ApprovedLeavesAreFinal(hr: Hr, run: seq<Event>, id: nat)
    requires Inv(hr) && id in hr.leaves && hr.leaves[id].status == Approved
    ensures id in Exec(hr, run).leaves && Exec(hr, run).leaves[id] == hr.leaves[id]
    decreases |run|
  {
    if run != [] {
      StepKeepsInv(hr, run[0]);
      StepKeepsApproved(hr, run[0], id);
      ApprovedLeavesAreFinal(Step(hr, run[0]).hr, run[1..], id);
    }
  }
}
