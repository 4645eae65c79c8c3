/**
 * The attendance service of the backend: how a database outcome becomes the
 * reply of the add and update endpoints, and how the per-(employee, status)
 * counts of the trends query are grouped into one record per employee.
 * The SQL itself is not modelled: its outcome and its result rows are inputs.
 */
module AttendanceService {
  import opened TrendRecords

  // ---------------------------------------------------------------------------
  // Outcome of a statement → reply
  // ---------------------------------------------------------------------------

  /** How executing a statement ended. */
  datatype DbOutcome =
    | Executed(rowCount: int)           // the statement ran; rows it affected
    | IntegrityViolation(reason: string)  // a constraint of the table was violated
    | OtherFailure(reason: string)        // any other error, with its text

  datatype Reply =
    | Ok(message: string)
    | HttpError(status: int, detail: string)

  const AddedMessage := "Attendance added successfully"
  const AddConflictDetail := "Attendance record already exists or violates constraints"
  const UpdatedMessage := "Attendance updated successfully"
  const UpdateConflictDetail := "Update violates data constraints"
  const NotFoundDetail := "Attendance record not found"

  /** `add_attendance`: an insert that ran is a success, whatever it reports. */
  function AddAttendance(outcome: DbOutcome): (r: Reply)
    ensures r.Ok? <==> outcome.Executed?
    ensures r.Ok? ==> r.message == AddedMessage
    ensures r == HttpError(409, AddConflictDetail) <==> outcome.IntegrityViolation?
    ensures r.HttpError? && r.status == 500 <==> outcome.OtherFailure?
    ensures outcome.OtherFailure? ==> r.detail == "Failed to add attendance: " + outcome.reason
  {
    match outcome
    case Executed(_) => Ok(AddedMessage)
    case IntegrityViolation(_) => HttpError(409, AddConflictDetail)
    case OtherFailure(reason) => HttpError(500, "Failed to add attendance: " + reason)
  }

  /**
   * `update_attendance`: an update that touched no row is a 404, raised
   * inside the `try` and re-raised as it is, so it never becomes a 500.
   */
  function UpdateAttendance(outcome: DbOutcome): (r: Reply)
    ensures r.Ok? <==> outcome.Executed? && outcome.rowCount != 0
    ensures r.Ok? ==> r.message == UpdatedMessage
    ensures r == HttpError(404, NotFoundDetail) <==> outcome == Executed(0)
    ensures r == HttpError(409, UpdateConflictDetail) <==> outcome.IntegrityViolation?
    ensures r.HttpError? && r.status == 500 <==> outcome.OtherFailure?
    ensures outcome.OtherFailure? ==> r.detail == "Failed to update attendance: " + outcome.reason
  {
    match outcome
    case Executed(rows) =>
      if rows == 0 then HttpError(404, NotFoundDetail) else Ok(UpdatedMessage)
    case IntegrityViolation(_) => HttpError(409, UpdateConflictDetail)
    case OtherFailure(reason) => HttpError(500, "Failed to update attendance: " + reason)
  }

  // ---------------------------------------------------------------------------
  // Grouping the trend counts
  // ---------------------------------------------------------------------------

  /** A row of the trends query: how many days an employee had a status. */
  datatype CountRecord = CountRecord(employeeId: int, department: string, status: string, count: int)

  function Ids(rs: seq<CountRecord>): set<int> {
    set i | 0 <= i < |rs| :: rs[i].employeeId
  }

  /** The department of the first record of employee `id`. */
  function FirstDepartment(rs: seq<CountRecord>, id: int): string
    requires id in Ids(rs)
    decreases |rs|
  {
    var p := rs[..|rs| - 1];
    assert id in Ids(p) || rs[|rs| - 1].employeeId == id by {
      var i :| 0 <= i < |rs| && rs[i].employeeId == id;
      if i < |rs| - 1 {
        assert p[i] == rs[i];
      }
    }
    if id in Ids(p) then FirstDepartment(p, id) else rs[|rs| - 1].department
  }

  /** The status counts of employee `id`, each set by its records in turn. */
  function AttendanceOf(rs: seq<CountRecord>, id: int): map<string, int>
    decreases |rs|
  {
    if rs == [] then map[]
    else
      var prior := AttendanceOf(rs[..|rs| - 1], id);
      var r := rs[|rs| - 1];
      if r.employeeId == id then prior[r.status := r.count] else prior
  }

  /**
   * The loop of `get_attendance_trends`: the first record of an employee
   * creates its entry with that record's department and no counts; every
   * record then sets its status's count.
   */
  method GroupTrends(records: seq<CountRecord>) returns (trends: map<int, EmployeeTrend>)
    ensures trends.Keys == Ids(records)
    ensures records == [] ==> trends == map[]
    ensures forall id :: id in trends ==>
      trends[id] == EmployeeTrend(FirstDepartment(records, id), AttendanceOf(records, id))
  {
    trends := map[];
    var n := 0;
    while n < |records|
      invariant 0 <= n <= |records|
      invariant trends.Keys == Ids(records[..n])
      invariant forall id :: id in trends ==>
        trends[id] == EmployeeTrend(FirstDepartment(records[..n], id), AttendanceOf(records[..n], id))
    {
      var r := records[n];
      GroupStep(records[..n], r);
      assert records[..n + 1] == records[..n] + [r];
      if r.employeeId !in trends {
        trends := trends[r.employeeId := EmployeeTrend(r.department, map[])];
      }
      var t := trends[r.employeeId];
      trends := trends[r.employeeId := t.(attendance := t.attendance[r.status := r.count])];
      n := n + 1;
    }
    assert records[..n] == records;
  }

  /** How one more record changes the ids, first departments and counts. */
  lemma GroupStep(rs: seq<CountRecord>, r: CountRecord)
    ensures Ids(rs + [r]) == Ids(rs) + {r.employeeId}
    ensures forall id :: id in Ids(rs) ==> FirstDepartment(rs + [r], id) == FirstDepartment(rs, id)
    ensures r.employeeId !in Ids(rs) ==> FirstDepartment(rs + [r], r.employeeId) == r.department
    ensures forall id :: (AttendanceOf(rs + [r], id)
      == if r.employeeId == id then AttendanceOf(rs, id)[r.status := r.count] else AttendanceOf(rs, id))
    ensures r.employeeId !in Ids(rs) ==> AttendanceOf(rs, r.employeeId) == map[]
  {
    if r.employeeId !in Ids(rs) {
      NoRecordsNoCounts(rs, r.employeeId);
    }
    var rs' := rs + [r];
    assert rs'[..|rs|] == rs;
    forall id | id in Ids(rs') ensures id in Ids(rs) + {r.employeeId} {
      var i :| 0 <= i < |rs'| && rs'[i].employeeId == id;
      if i < |rs| {
        assert rs[i] == rs'[i];
      }
    }
    forall id | id in Ids(rs) ensures id in Ids(rs') {
      var i :| 0 <= i < |rs| && rs[i].employeeId == id;
      assert rs'[i] == rs[i];
    }
    assert rs'[|rs|].employeeId == r.employeeId;
  }

  /** An employee without records has no counts. */
  lemma {:induction false} NoRecordsNoCounts(rs: seq<CountRecord>, id: int)
    requires id !in Ids(rs)
    ensures AttendanceOf(rs, id) == map[]
    decreases |rs|
  {
    if rs != [] {
      var p := rs[..|rs| - 1];
      assert Ids(p) <= Ids(rs) by {
        forall x | x in Ids(p) ensures x in Ids(rs) {
          var i :| 0 <= i < |p| && p[i].employeeId == x;
          assert rs[i] == p[i];
        }
      }
      NoRecordsNoCounts(p, id);
    }
  }

  /**
   * The department kept for an employee is that of the employee's first
   * record: later records never change it.
   */
  lemma {:induction false} FirstDepartmentIsFirst(rs: seq<CountRecord>, id: int)
    requires id in Ids(rs)
    ensures exists j :: (0 <= j < |rs| && rs[j].employeeId == id && rs[j].department == FirstDepartment(rs, id)
      && forall k :: 0 <= k < j ==> rs[k].employeeId != id)
    decreases |rs|
  {
    var p := rs[..|rs| - 1];
    if id in Ids(p) {
      FirstDepartmentIsFirst(p, id);
      var j :| 0 <= j < |p| && p[j].employeeId == id && p[j].department == FirstDepartment(p, id)
        && forall k :: 0 <= k < j ==> p[k].employeeId != id;
      assert rs[j] == p[j];
      forall k | 0 <= k < j ensures rs[k].employeeId != id {
        assert rs[k] == p[k];
      }
    } else {
      var j := |rs| - 1;
      forall k | 0 <= k < j ensures rs[k].employeeId != id {
        assert rs[k] == p[k];
      }
    }
  }

  /** An employee has a count for exactly the statuses among its records. */
  lemma {:induction false} AttendanceStatuses(rs: seq<CountRecord>, id: int, s: string)
    ensures s in AttendanceOf(rs, id) <==> exists i :: 0 <= i < |rs| && rs[i].employeeId == id && rs[i].status == s
    decreases |rs|
  {
    if rs != [] {
      var p := rs[..|rs| - 1];
      AttendanceStatuses(p, id, s);
      if exists i :: 0 <= i < |rs| && rs[i].employeeId == id && rs[i].status == s {
        var i :| 0 <= i < |rs| && rs[i].employeeId == id && rs[i].status == s;
        if i < |rs| - 1 {
          assert p[i] == rs[i];
        }
      }
      if exists i :: 0 <= i < |p| && p[i].employeeId == id && p[i].status == s {
        var i :| 0 <= i < |p| && p[i].employeeId == id && p[i].status == s;
        assert rs[i] == p[i];
      }
    }
  }

  /**
   * The count kept for an (employee, status) pair is that of the pair's last
   * record: a later record of the pair overwrites an earlier one.
   */
  lemma {:induction false} LastCountWins(rs: seq<CountRecord>, id: int, s: string, j: int)
    requires 0 <= j < |rs| && rs[j].employeeId == id && rs[j].status == s
    requires forall k :: j < k < |rs| ==> !(rs[k].employeeId == id && rs[k].status == s)
    ensures s in AttendanceOf(rs, id) && AttendanceOf(rs, id)[s] == rs[j].count
    decreases |rs|
  {
    var p := rs[..|rs| - 1];
    if j < |rs| - 1 {
      forall k | j < k < |p| ensures !(p[k].employeeId == id && p[k].status == s) {
        assert p[k] == rs[k];
      }
      assert p[j] == rs[j];
      LastCountWins(p, id, s, j);
    }
  }
}
