/**
 * Self-service check-in and check-out (backend/src/modules/hrm/attendance/services.ts), on a
 * table that approved leaves stamp too. Work hours are kept in hundredths of an hour, as the
 * database column stores them.
 */
module AttendanceService {
  import opened Prelude
  import opened AttendanceRows
  import Leaves

  const MS_PER_CENTIHOUR := 36000

  /** Rounds to hundredths of an hour, halves up; nothing for an empty or negative interval. */
  function WorkCentiHours(checkIn: int, checkOut: int): nat {
    var diff := checkOut - checkIn;
    if diff <= 0 then 0 else (2 * diff + MS_PER_CENTIHOUR) / (2 * MS_PER_CENTIHOUR)
  }

  function DetermineStatus(checkIn: Option<int>, checkOut: Option<int>, centiHours: Option<int>): AttendanceStatus {
    if checkIn.None? && checkOut.None? then Absent
    else if centiHours.Some? && centiHours.value >= 700 then Present
    else if centiHours.Some? && centiHours.value >= 400 then HalfDay
    else Present
  }

  datatype Reply = Reply(table: Table, result: Result<Attendance>)

  /** `self` is the employee record linked to the account. */
  function CheckIn(table: Table, self: Option<nat>, day: int, now: int): Reply {
    if self.None? then Reply(table, Err(BadRequest))
    else
      var key := (self.value, day);
      if key in table && table[key].checkInAt.Some? then Reply(table, Err(BadRequest))
      else
        var row := if key in table then table[key].(checkInAt := Some(now), status := Present)
                   else Attendance(Present, Some(now), None, None);
        Reply(table[key := row], Ok(row))
  }

  function CheckOut(table: Table, self: Option<nat>, day: int, now: int): Reply {
    if self.None? then Reply(table, Err(BadRequest))
    else
      var key := (self.value, day);
      if key !in table || table[key].checkInAt.None? || table[key].checkOutAt.Some? then Reply(table, Err(BadRequest))
      else
        var hours := WorkCentiHours(table[key].checkInAt.value, now);
        // The column holds four digits, two of them decimals.
        if hours > 9999 then Reply(table, Err(NumericOverflow))
        else
          var row := table[key].(checkOutAt := Some(now), centiHours := Some(hours),
                                 status := DetermineStatus(table[key].checkInAt, Some(now), Some(hours)));
          Reply(table[key := row], Ok(row))
  }

  datatype Event =
    | In(self: Option<nat>, day: int, now: int)
    | Out(self: Option<nat>, day: int, now: int)
    | Stamp(employee: nat, day: int, halfDay: bool)   // one day of a leave that is approved

  function Step(table: Table, e: Event): Reply {
    match e
    case In(self, day, now) => CheckIn(table, self, day, now)
    case Out(self, day, now) => CheckOut(table, self, day, now)
    case Stamp(employee, day, halfDay) =>
      var row := Leaves.StampRow(table, (employee, day), halfDay);
      Reply(table[(employee, day) := row], Ok(row))
  }

  function Exec(table: Table, run: seq<Event>): Table
    decreases |run|
  {
    if run == [] then table else Exec(Step(table, run[0]).table, run[1..])
  }

  class Service {
    var table: Table

    /** Nobody is checked out who was not checked in. */
    predicate Valid()
      reads this
    {
      InBeforeOut(table)
    }

    constructor (table: Table)
      requires InBeforeOut(table)
      ensures Valid() && this.table == table
    {
      this.table := table;
    }

    method SelfCheckIn(self: Option<nat>, day: int, now: int) returns (result: Result<Attendance>)
      requires Valid()
      modifies this
      ensures Valid()
      ensures Reply(table, result) == CheckIn(old(table), self, day, now)
    {
      if self.None? {
        return Err(BadRequest);
      }
      var key := (self.value, day);
      if key in table {
        if table[key].checkInAt.Some? {
          return Err(BadRequest);
        }
        table := table[key := table[key].(checkInAt := Some(now), status := Present)];
      } else {
        table := table[key := Attendance(Present, Some(now), None, None)];
      }
      result := Ok(table[key]);
    }

    method SelfCheckOut(self: Option<nat>, day: int, now: int) returns (result: Result<Attendance>)
      requires Valid()
      modifies this
      ensures Valid()
      ensures Reply(table, result) == CheckOut(old(table), self, day, now)
    {
      if self.None? {
        return Err(BadRequest);
      }
      var key := (self.value, day);
      if key !in table {
        return Err(BadRequest);
      }
      var existing := table[key];
      if existing.checkInAt.None? {
        return Err(BadRequest);
      }
      if existing.checkOutAt.Some? {
        return Err(BadRequest);
      }
      var workHours := WorkCentiHours(existing.checkInAt.value, now);
      var status := DetermineStatus(existing.checkInAt, Some(now), Some(workHours));
      if workHours > 9999 {
        return Err(NumericOverflow);
      }
      table := table[key := existing.(checkOutAt := Some(now), centiHours := Some(workHours), status := status)];
      result := Ok(table[key]);
    }
  }

  /* ── Hours and thresholds ───────────────────────────────────────────── */

  /** Within half a hundredth of an hour of a positive interval, halves up, and never less for a later check-out. */
  lemma HoursAreRounded(checkIn: int, checkOut: int, later: int)
    requires checkOut <= later
    ensures checkOut > checkIn ==>
      var error := WorkCentiHours(checkIn, checkOut) * 36000 - (checkOut - checkIn);
      -18000 < error <= 18000
    ensures checkOut <= checkIn ==> WorkCentiHours(checkIn, checkOut) == 0
    ensures WorkCentiHours(checkIn, checkOut) <= WorkCentiHours(checkIn, later)
  {
  }

  /**
   * An accepted check-out is a half day exactly for intervals from 3 h 59 min 42 s up to,
   * not including, 6 h 59 min 42 s; every shorter or longer one counts as present.
   */
  lemma HalfDayWindow(table: Table, self: Option<nat>, day: int, now: int)
    requires CheckOut(table, self, day, now).result.Ok?
    ensures var row := CheckOut(table, self, day, now).result.value;
      var worked := now - row.checkInAt.value;
      && (row.status == HalfDay <==> 14382000 <= worked < 25182000)
      && (row.status == Present <==> !(14382000 <= worked < 25182000))
  {
  }

  /** Of the check-outs the calls allow, only those of a hundred hours or more are refused. */
  lemma OnlyHundredHoursOverflow(table: Table, employee: nat, day: int, now: int)
    requires (employee, day) in table && table[(employee, day)].checkInAt.Some? &&
      table[(employee, day)].checkOutAt.None?
    ensures CheckOut(table, Some(employee), day, now).result.Err? <==>
      now - table[(employee, day)].checkInAt.value >= 359982000
  {
  }

  /* ── Once a day ─────────────────────────────────────────────────────── */

  function CheckedIn(table: Table, key: (nat, int)): nat {
    if key in table && table[key].checkInAt.Some? then 1 else 0
  }

  function CheckedOut(table: Table, key: (nat, int)): nat {
    if key in table && table[key].checkOutAt.Some? then 1 else 0
  }

  predicate About(e: Event, key: (nat, int)) {
    e.day == key.1 && if e.Stamp? then e.employee == key.0 else e.self == Some(key.0)
  }

  function AcceptedIns(table: Table, run: seq<Event>, key: (nat, int)): nat
    decreases |run|
  {
    if run == [] then 0
    else (if run[0].In? && About(run[0], key) && Step(table, run[0]).result.Ok? then 1 else 0)
         + AcceptedIns(Step(table, run[0]).table, run[1..], key)
  }

  function AcceptedOuts(table: Table, run: seq<Event>, key: (nat, int)): nat
    decreases |run|
  {
    if run == [] then 0
    else (if run[0].Out? && About(run[0], key) && Step(table, run[0]).result.Ok? then 1 else 0)
         + AcceptedOuts(Step(table, run[0]).table, run[1..], key)
  }

  predicate InBeforeOut(table: Table) {
    forall k :: k in table && table[k].checkOutAt.Some? ==> table[k].checkInAt.Some?
  }

  /**
   * Over any run of check-ins, check-outs and stamps a day of an employee is checked in at
   * most once and checked out at most once, and never out without in.
   */
  lemma {:induction false} OncePerDay(table: Table, run: seq<Event>, key: (nat, int))
    requires InBeforeOut(table)
    ensures InBeforeOut(Exec(table, run))
    ensures CheckedIn(table, key) + AcceptedIns(table, run, key) == CheckedIn(Exec(table, run), key) <= 1
    ensures CheckedOut(table, key) + AcceptedOuts(table, run, key) == CheckedOut(Exec(table, run), key)
    ensures CheckedOut(Exec(table, run), key) <= CheckedIn(Exec(table, run), key)
    decreases |run|
  {
    if run != [] {
      OncePerDay(Step(table, run[0]).table, run[1..], key);
    }
  }

  /** If the day is checked out, its row stores the hours and status of the interval it records. */
  predicate IsSound(table: Table, key: (nat, int)) {
    key in table && table[key].checkOutAt.Some? ==>
      var row := table[key];
      && row.checkInAt.Some?
      && row.centiHours == Some(WorkCentiHours(row.checkInAt.value, row.checkOutAt.value))
      && row.status == DetermineStatus(row.checkInAt, row.checkOutAt, row.centiHours)
  }

  /** How often the day was stamped after it was checked out. */
  function StampsOver(table: Table, run: seq<Event>, key: (nat, int)): nat
    decreases |run|
  {
    if run == [] then 0
    else (if run[0].Stamp? && About(run[0], key) then CheckedOut(table, key) else 0)
         + StampsOver(Step(table, run[0]).table, run[1..], key)
  }

  /**
   * Over any run, what is stored for a checked-out day is what its two times say, exactly if
   * no leave was stamped over it after its check-out.
   */
  lemma {:induction false} HoursStandExactlyUnlessStamped(table: Table, run: seq<Event>, key: (nat, int))
    requires InBeforeOut(table)
    ensures IsSound(Exec(table, run), key) <==> IsSound(table, key) && StampsOver(table, run, key) == 0
    decreases |run|
  {
    if run != [] {
      HoursStandExactlyUnlessStamped(Step(table, run[0]).table, run[1..], key);
    }
  }

  /* ── Which times are recorded ───────────────────────────────────────── */

  /** Only the row of that employee and day may differ. */
  predicate OnlyRow(table: Table, table': Table, key: (nat, int)) {
    key in table' && table' == table[key := table'[key]]
  }

  /**
   * A linked employee is checked in exactly once a day: the row then says PRESENT from `now`
   * and keeps the rest. It is checked out exactly after that, once, and less than a hundred
   * hours later: the row then ends at `now`. Everybody else's and every other day's row stays,
   * and a refusal changes nothing.
   */
  lemma ChecksAreAcceptedExactly(table: Table, self: Option<nat>, day: int, now: int)
    ensures var into, out := CheckIn(table, self, day, now), CheckOut(table, self, day, now);
      && (into.result.Ok? <==> self.Some? && CheckedIn(table, (self.value, day)) == 0)
      && (into.result.Err? ==> into == Reply(table, Err(BadRequest)))
      && (into.result.Ok? ==>
            var key := (self.value, day);
            && OnlyRow(table, into.table, key) && into.table[key] == into.result.value
            && into.table[key] == (if key in table then table[key] else into.table[key])
                                  .(checkInAt := Some(now), status := Present)
            && (key !in table ==> into.table[key].checkOutAt.None? && into.table[key].centiHours.None?))
      && (out.result.Ok? <==>
            && self.Some? && CheckedIn(table, (self.value, day)) == 1 && CheckedOut(table, (self.value, day)) == 0
            && now - table[(self.value, day)].checkInAt.value < 359982000)
      && (out.result.Err? ==> out.table == table && out.result.error in {BadRequest, NumericOverflow})
      && (out.result.Ok? ==>
            var key := (self.value, day);
            && OnlyRow(table, out.table, key) && out.table[key] == out.result.value
            && out.table[key].checkOutAt == Some(now) && out.table[key].checkInAt == table[key].checkInAt)
  {
  }

  /** The time of the day's first check-in. */
  function FirstIn(run: seq<Event>, key: (nat, int)): Option<int> {
    if run == [] then None
    else if run[0].In? && About(run[0], key) then Some(run[0].now)
    else FirstIn(run[1..], key)
  }

  /** The time of the first check-out less than a hundred hours after the check-in at `start`. */
  function FirstOut(run: seq<Event>, key: (nat, int), start: int): Option<int> {
    if run == [] then None
    else if run[0].Out? && About(run[0], key) && run[0].now - start < 359982000 then Some(run[0].now)
    else FirstOut(run[1..], key, start)
  }

  /** The same of the calls after the first check-in. */
  function FirstOutAfterIn(run: seq<Event>, key: (nat, int)): Option<int> {
    if run == [] then None
    else if run[0].In? && About(run[0], key) then FirstOut(run[1..], key, run[0].now)
    else FirstOutAfterIn(run[1..], key)
  }

  function InTime(table: Table, key: (nat, int)): Option<int> { if key in table then table[key].checkInAt else None }
  function OutTime(table: Table, key: (nat, int)): Option<int> { if key in table then table[key].checkOutAt else None }

  lemma {:induction false} RecordedTimesStay(table: Table, run: seq<Event>, key: (nat, int))
    requires InBeforeOut(table) && InTime(table, key).Some?
    ensures InTime(Exec(table, run), key) == InTime(table, key)
    ensures OutTime(Exec(table, run), key) ==
      if OutTime(table, key).Some? then OutTime(table, key) else FirstOut(run, key, InTime(table, key).value)
    decreases |run|
  {
    if run != [] {
      RecordedTimesStay(Step(table, run[0]).table, run[1..], key);
    }
  }

  /**
   * Over any run of check-ins, check-outs and stamps, a day that was not checked in before
   * records the time of its first check-in, and of its first check-out after that which came
   * less than a hundred hours later.
   */
  lemma {:induction false} RecordedTimesAreTheFirst(table: Table, run: seq<Event>, key: (nat, int))
    requires InBeforeOut(table) && InTime(table, key).None?
    ensures InTime(Exec(table, run), key) == FirstIn(run, key)
    ensures OutTime(Exec(table, run), key) == FirstOutAfterIn(run, key)
    decreases |run|
  {
    if run != [] {
      var table' := Step(table, run[0]).table;
      if run[0].In? && About(run[0], key) {
        RecordedTimesStay(table', run[1..], key);
      } else {
        RecordedTimesAreTheFirst(table', run[1..], key);
      }
    }
  }
}
