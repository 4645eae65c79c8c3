/**
 * The per-employee trend record the backend builds and the trends chart reads:
 * the employee's department and, per attendance status, a day count.
 */
module TrendRecords {

  datatype EmployeeTrend = EmployeeTrend(department: string, attendance: map<string, int>)

  /** The three statuses an attendance entry can have. */
  const Statuses: seq<string> := ["Present", "Absent", "WFH"]
}
