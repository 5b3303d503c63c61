/** Attendance rows, written by the leave service and by self-service attendance. */
module AttendanceRows {
  import opened Prelude

  datatype AttendanceStatus = Present | Late | Absent | OnLeave | HalfDay

  /** Times are milliseconds; `centiHours` are the stored work hours in hundredths. */
  datatype Attendance = Attendance(
    status: AttendanceStatus,
    checkInAt: Option<int>,
    checkOutAt: Option<int>,
    centiHours: Option<int>)

  /** One row per employee and day. */
  type Table = map<(nat, int), Attendance>
}
