/**
 * The attendance trends chart: it fetches the per-employee trend records and
 * rolls them up into one bar group per department, holding the department's
 * Present, Absent and WFH totals.
 */
module AttendanceTrends {
  import opened Wrappers
  import opened OrderedMaps
  import opened TrendRecords

  datatype TrendRow = TrendRow(name: string, present: int, absent: int, wfh: int)

  /** `entry.attendance[status]`, with a missing status counting as 0. */
  function Count(e: EmployeeTrend, status: string): int {
    if status in e.attendance then e.attendance[status] else 0
  }

  /** The bar of a row that belongs to `status`. */
  function Column(row: TrendRow, status: string): int {
    if status == "Present" then row.present
    else if status == "Absent" then row.absent
    else if status == "WFH" then row.wfh
    else 0
  }

  // ---------------------------------------------------------------------------
  // What the roll-up computes
  // ---------------------------------------------------------------------------

  /**
   * The members every object inherits from `Object.prototype`. Looking one of
   * them up on the roll-up's `{}` finds the inherited value, which is truthy,
   * so a department with such a name never gets a row of its own: its counts
   * are written onto the inherited member and `Object.values` never lists it.
   */
  const InheritedNames: set<string> := {
    "constructor", "__defineGetter__", "__defineSetter__", "hasOwnProperty",
    "__lookupGetter__", "__lookupSetter__", "isPrototypeOf", "propertyIsEnumerable",
    "toString", "valueOf", "__proto__", "toLocaleString"
  }

  /** The entries that reach the chart, in order: those whose department is not an inherited name. */
  function Charted(es: seq<EmployeeTrend>): seq<EmployeeTrend>
    decreases |es|
  {
    if es == [] then []
    else
      var prior := Charted(es[..|es| - 1]);
      var e := es[|es| - 1];
      if e.department in InheritedNames then prior else prior + [e]
  }

  /** The departments of `es`, each once, in order of first appearance. */
  function Departments(es: seq<EmployeeTrend>): seq<string>
    decreases |es|
  {
    if es == [] then []
    else
      var prior := Departments(es[..|es| - 1]);
      var d := es[|es| - 1].department;
      if d in prior then prior else prior + [d]
  }

  /** The `status` counts of the entries of department `d`, added up. */
  function Total(es: seq<EmployeeTrend>, d: string, status: string): int
    decreases |es|
  {
    if es == [] then 0
    else
      var e := es[|es| - 1];
      Total(es[..|es| - 1], d, status) + (if e.department == d then Count(e, status) else 0)
  }

  /** The `status` counts of all entries, added up. */
  function GrandTotal(es: seq<EmployeeTrend>, status: string): int
    decreases |es|
  {
    if es == [] then 0 else GrandTotal(es[..|es| - 1], status) + Count(es[|es| - 1], status)
  }

  function RowFor(es: seq<EmployeeTrend>, d: string): TrendRow {
    TrendRow(d, Total(es, d, "Present"), Total(es, d, "Absent"), Total(es, d, "WFH"))
  }

  /** One row per department, in order of first appearance, holding its totals. */
  function ExpectedRows(es: seq<EmployeeTrend>): (rows: seq<TrendRow>)
    ensures |rows| == |Departments(es)|
    ensures forall i :: 0 <= i < |rows| ==> rows[i] == RowFor(es, Departments(es)[i])
  {
    var ds := Departments(es);
    seq(|ds|, i requires 0 <= i < |ds| => RowFor(es, ds[i]))
  }

  function SumColumn(rows: seq<TrendRow>, status: string): int
    decreases |rows|
  {
    if rows == [] then 0 else SumColumn(rows[..|rows| - 1], status) + Column(rows[|rows| - 1], status)
  }

  // ---------------------------------------------------------------------------
  // The roll-up loop
  // ---------------------------------------------------------------------------

  /** The roll-up so far: one row per department seen, in order, holding its totals. */
  predicate Tabulates(table: OMap<string, TrendRow>, es: seq<EmployeeTrend>) {
    && DistinctKeys(table)
    && KeyList(table) == Departments(es)
    && forall k :: k in ToMap(table) ==> ToMap(table)[k] == RowFor(es, k)
  }

  /**
   * The `forEach` over the trend records: a department seen for the first
   * time gets a zero row, then the entry's counts are added to its columns.
   * The result is the rows in the order their departments were first seen,
   * and no day is lost or counted twice.
   */
  method RollUp(entries: seq<EmployeeTrend>) returns (rows: seq<TrendRow>)
    ensures rows == ExpectedRows(Charted(entries))
    ensures forall s :: s in Statuses ==> SumColumn(rows, s) == GrandTotal(Charted(entries), s)
  {
    var table: OMap<string, TrendRow> := [];
    var n := 0;
    while n < |entries|
      invariant 0 <= n <= |entries|
      invariant Tabulates(table, Charted(entries[..n]))
    {
      var entry := entries[n];
      var d := entry.department;
      PrefixSnoc(entries, n);
      ChartedSnoc(entries[..n], entry);
      if d !in InheritedNames {
        table := Tally(table, Charted(entries[..n]), entry);
      }
      n := n + 1;
    }
    assert entries[..n] == entries;
    TabulatedRows(table, Charted(entries));
    rows := Values(table);
    forall s | s in Statuses ensures SumColumn(rows, s) == GrandTotal(Charted(entries), s) {
      Conservation(Charted(entries), s);
    }
  }

  /** One charted entry: open its department's row if there is none, then add its counts. */
  method Tally(table: OMap<string, TrendRow>, ghost es: seq<EmployeeTrend>, entry: EmployeeTrend)
    returns (next: OMap<string, TrendRow>)
    requires Tabulates(table, es)
    ensures Tabulates(next, es + [entry])
  {
    var d := entry.department;
    next := table;
    if Get(next, d).None? {
      next := Put(next, d, TrendRow(d, 0, 0, 0));
    }
    var row := Get(next, d).value;
    row := AddCounts(row, entry);
    EntryStep(table, es, entry, next, row);
    next := Put(next, d, row);
  }

  lemma ChartedSnoc(es: seq<EmployeeTrend>, e: EmployeeTrend)
    ensures Charted(es + [e]) == if e.department in InheritedNames then Charted(es) else Charted(es) + [e]
  {
    assert (es + [e])[..|es|] == es;
  }

  /**
   * The chart has a row for a department exactly when some entry belongs to
   * it and its name is not an inherited one.
   */
  lemma {:induction false} ChartedDepartments(es: seq<EmployeeTrend>)
    ensures forall d :: d in Departments(Charted(es)) <==>
      d !in InheritedNames && exists i :: 0 <= i < |es| && es[i].department == d
  {
    DepartmentsCover(Charted(es));
    ChartedCover(es);
  }

  lemma ChartedCover(es: seq<EmployeeTrend>)
    ensures forall d :: (exists i :: 0 <= i < |Charted(es)| && Charted(es)[i].department == d) <==>
      d !in InheritedNames && exists i :: 0 <= i < |es| && es[i].department == d
  {
    forall d ensures (exists i :: 0 <= i < |Charted(es)| && Charted(es)[i].department == d) <==>
      d !in InheritedNames && exists i :: 0 <= i < |es| && es[i].department == d
    {
      if exists i :: 0 <= i < |Charted(es)| && Charted(es)[i].department == d {
        var i :| 0 <= i < |Charted(es)| && Charted(es)[i].department == d;
        ChartedSound(es, d, i);
      }
      if d !in InheritedNames && exists i :: 0 <= i < |es| && es[i].department == d {
        var i :| 0 <= i < |es| && es[i].department == d;
        ChartedComplete(es, i);
      }
    }
  }

  /** A charted entry is an entry of `es`, and its department is not an inherited name. */
  lemma {:induction false} ChartedSound(es: seq<EmployeeTrend>, d: string, i: int)
    requires 0 <= i < |Charted(es)| && Charted(es)[i].department == d
    ensures d !in InheritedNames && exists j :: 0 <= j < |es| && es[j].department == d
    decreases |es|
  {
    var p := es[..|es| - 1];
    var e := es[|es| - 1];
    assert es == p + [e];
    ChartedSnoc(p, e);
    if i < |Charted(p)| {
      ChartedSound(p, d, i);
      var j :| 0 <= j < |p| && p[j].department == d;
      assert es[j] == p[j];
    } else {
      assert es[|es| - 1].department == d;
    }
  }

  /** An entry whose department is not an inherited name is charted. */
  lemma {:induction false} ChartedComplete(es: seq<EmployeeTrend>, i: int)
    requires 0 <= i < |es| && es[i].department !in InheritedNames
    ensures exists j :: 0 <= j < |Charted(es)| && Charted(es)[j].department == es[i].department
    decreases |es|
  {
    var p := es[..|es| - 1];
    var e := es[|es| - 1];
    assert es == p + [e];
    ChartedSnoc(p, e);
    if i < |p| {
      assert p[i] == es[i];
      ChartedComplete(p, i);
      var j :| 0 <= j < |Charted(p)| && Charted(p)[j].department == p[i].department;
      assert Charted(es)[j] == Charted(p)[j];
    } else {
      assert Charted(es)[|Charted(es)| - 1] == e;
    }
  }

  /** With no department named after an inherited member, every entry reaches the chart. */
  lemma {:induction false} ChartedAll(es: seq<EmployeeTrend>)
    requires forall i :: 0 <= i < |es| ==> es[i].department !in InheritedNames
    ensures Charted(es) == es
    decreases |es|
  {
    if es != [] {
      var p := es[..|es| - 1];
      ChartedAll(p);
      assert es == p + [es[|es| - 1]];
    }
  }

  lemma PrefixSnoc<T>(s: seq<T>, n: nat)
    requires n < |s|
    ensures s[..n + 1] == s[..n] + [s[n]]
  {
  }

  /** Each count that is present and non-zero is added to its column. */
  method AddCounts(row: TrendRow, entry: EmployeeTrend) returns (r: TrendRow)
    ensures r.name == row.name
    ensures forall s :: s in Statuses ==> Column(r, s) == Column(row, s) + Count(entry, s)
  {
    r := row;
    var c := Count(entry, "Present");
    if c != 0 {
      r := r.(present := r.present + c);
    }
    c := Count(entry, "Absent");
    if c != 0 {
      r := r.(absent := r.absent + c);
    }
    c := Count(entry, "WFH");
    if c != 0 {
      r := r.(wfh := r.wfh + c);
    }
  }

  /** One turn of the loop extends the roll-up by one entry. */
  lemma EntryStep(table: OMap<string, TrendRow>, es: seq<EmployeeTrend>, e: EmployeeTrend,
                  mid: OMap<string, TrendRow>, row: TrendRow)
    requires Tabulates(table, es)
    requires mid == if Get(table, e.department).None? then Put(table, e.department, TrendRow(e.department, 0, 0, 0)) else table
    requires Get(mid, e.department).Some?
    requires row.name == Get(mid, e.department).value.name
    requires forall s :: s in Statuses ==> Column(row, s) == Column(Get(mid, e.department).value, s) + Count(e, s)
    ensures Tabulates(Put(mid, e.department, row), es + [e])
  {
    OpenRowKeys(table, es, e.department, mid);
    OpenRowValues(table, es, e.department, mid);
    OpenRowGet(table, es, e.department, mid);
    CloseRow(mid, es, e, row);
  }

  /** The rows of a finished roll-up, in table order, are the expected rows. */
  lemma TabulatedRows(table: OMap<string, TrendRow>, es: seq<EmployeeTrend>)
    requires Tabulates(table, es)
    ensures Values(table) == ExpectedRows(es)
  {
    var rows := Values(table);
    forall i | 0 <= i < |rows| ensures rows[i] == RowFor(es, Departments(es)[i]) {
      assert rows[i] == ToMap(table)[table[i].0];
      assert table[i].0 == KeyList(table)[i];
    }
  }

  /** Putting the zero row in place keeps the keys distinct and in first-seen order. */
  lemma OpenRowKeys(table: OMap<string, TrendRow>, es: seq<EmployeeTrend>, d: string, mid: OMap<string, TrendRow>)
    requires Tabulates(table, es)
    requires mid == if Get(table, d).None? then Put(table, d, TrendRow(d, 0, 0, 0)) else table
    ensures DistinctKeys(mid) && d in KeySet(mid)
    ensures KeyList(mid) == if d in Departments(es) then Departments(es) else Departments(es) + [d]
  {
    if Get(table, d).None? {
      PutOrder(table, d, TrendRow(d, 0, 0, 0));
      assert KeyList(mid) == KeyList(table) + [d];
    }
  }

  /** The zero row is the row of a department not seen yet, so every row stays right. */
  lemma OpenRowValues(table: OMap<string, TrendRow>, es: seq<EmployeeTrend>, d: string, mid: OMap<string, TrendRow>)
    requires Tabulates(table, es)
    requires mid == if Get(table, d).None? then Put(table, d, TrendRow(d, 0, 0, 0)) else table
    ensures DistinctKeys(mid)
    ensures forall k :: k in ToMap(mid) ==> ToMap(mid)[k] == RowFor(es, k)
  {
    if Get(table, d).None? {
      ZeroRow(es, d);
    }
  }

  lemma OpenRowGet(table: OMap<string, TrendRow>, es: seq<EmployeeTrend>, d: string, mid: OMap<string, TrendRow>)
    requires Tabulates(table, es)
    requires mid == if Get(table, d).None? then Put(table, d, TrendRow(d, 0, 0, 0)) else table
    ensures Get(mid, d).Some? && Get(mid, d).value == RowFor(es, d)
  {
    if Get(table, d).None? {
      ZeroRow(es, d);
    }
  }

  /** The row of a department not seen yet is all zeros. */
  lemma ZeroRow(es: seq<EmployeeTrend>, d: string)
    requires d !in Departments(es)
    ensures RowFor(es, d) == TrendRow(d, 0, 0, 0)
  {
    TotalAbsent(es, d, "Present");
    TotalAbsent(es, d, "Absent");
    TotalAbsent(es, d, "WFH");
  }

  /** Writing the updated row back extends the roll-up by one entry. */
  lemma CloseRow(mid: OMap<string, TrendRow>, es: seq<EmployeeTrend>, e: EmployeeTrend, row: TrendRow)
    requires DistinctKeys(mid)
    requires KeyList(mid) == if e.department in Departments(es) then Departments(es) else Departments(es) + [e.department]
    requires forall k :: k in ToMap(mid) ==> ToMap(mid)[k] == RowFor(es, k)
    requires e.department in KeySet(mid)
    requires row.name == RowFor(es, e.department).name
    requires forall s :: s in Statuses ==> Column(row, s) == Column(RowFor(es, e.department), s) + Count(e, s)
    ensures Tabulates(Put(mid, e.department, row), es + [e])
  {
    PutOrder(mid, e.department, row);
    DepartmentsSnoc(es, e);
    RowAfter(es, e, row);
    RowsAfter(ToMap(mid), es, e, row);
  }

  lemma RowAfter(es: seq<EmployeeTrend>, e: EmployeeTrend, row: TrendRow)
    requires row.name == RowFor(es, e.department).name
    requires forall s :: s in Statuses ==> Column(row, s) == Column(RowFor(es, e.department), s) + Count(e, s)
    ensures row == RowFor(es + [e], e.department)
  {
    RowSnoc(es, e, e.department);
    assert Column(row, "Present") == row.present;
    assert Column(row, "Absent") == row.absent;
    assert Column(row, "WFH") == row.wfh;
  }

  lemma RowsAfter(m: map<string, TrendRow>, es: seq<EmployeeTrend>, e: EmployeeTrend, row: TrendRow)
    requires forall k :: k in m ==> m[k] == RowFor(es, k)
    requires row == RowFor(es + [e], e.department)
    ensures forall k :: k in m[e.department := row] ==> m[e.department := row][k] == RowFor(es + [e], k)
  {
    forall k | k in m && k != e.department ensures m[k] == RowFor(es + [e], k) {
      RowSnoc(es, e, k);
    }
  }

  lemma DepartmentsSnoc(es: seq<EmployeeTrend>, e: EmployeeTrend)
    ensures Departments(es + [e])
      == if e.department in Departments(es) then Departments(es) else Departments(es) + [e.department]
  {
    assert (es + [e])[..|es|] == es;
  }

  /** One more entry adds its counts to its own department's row only. */
  lemma RowSnoc(es: seq<EmployeeTrend>, e: EmployeeTrend, k: string)
    ensures RowFor(es + [e], k) == if k == e.department then
        TrendRow(k, Total(es, k, "Present") + Count(e, "Present"), Total(es, k, "Absent") + Count(e, "Absent"),
                 Total(es, k, "WFH") + Count(e, "WFH"))
      else RowFor(es, k)
  {
    assert (es + [e])[..|es|] == es;
  }

  lemma TotalSnoc(es: seq<EmployeeTrend>, e: EmployeeTrend, d: string, status: string)
    ensures Total(es + [e], d, status) == Total(es, d, status) + (if e.department == d then Count(e, status) else 0)
    ensures GrandTotal(es + [e], status) == GrandTotal(es, status) + Count(e, status)
  {
    assert (es + [e])[..|es|] == es;
  }

  // ---------------------------------------------------------------------------
  // Properties of the roll-up
  // ---------------------------------------------------------------------------

  /** A department that does not occur has nothing to add up. */
  lemma {:induction false} TotalAbsent(es: seq<EmployeeTrend>, d: string, status: string)
    requires d !in Departments(es)
    ensures Total(es, d, status) == 0
    decreases |es|
  {
    if es != [] {
      TotalAbsent(es[..|es| - 1], d, status);
    }
  }

  /** No department gets two rows. */
  lemma {:induction false} DepartmentsDistinct(es: seq<EmployeeTrend>)
    ensures forall i, j :: 0 <= i < j < |Departments(es)| ==> Departments(es)[i] != Departments(es)[j]
    decreases |es|
  {
    if es != [] {
      DepartmentsDistinct(es[..|es| - 1]);
    }
  }

  /** Every department that occurs among the entries gets a row, and no other does. */
  lemma {:induction false} DepartmentsCover(es: seq<EmployeeTrend>)
    ensures forall d :: d in Departments(es) <==> exists i :: 0 <= i < |es| && es[i].department == d
    decreases |es|
  {
    if es != [] {
      var p := es[..|es| - 1];
      DepartmentsCover(p);
      forall d | d in Departments(es) ensures exists i :: 0 <= i < |es| && es[i].department == d {
        if d in Departments(p) {
          var i :| 0 <= i < |p| && p[i].department == d;
          assert es[i] == p[i];
        } else {
          assert es[|es| - 1].department == d;
        }
      }
      forall d | (exists i :: 0 <= i < |es| && es[i].department == d) ensures d in Departments(es) {
        var i :| 0 <= i < |es| && es[i].department == d;
        if i < |es| - 1 {
          assert p[i] == es[i];
        }
      }
    }
  }

  /** `Total` over a list of departments, added up. */
  function SumTotals(ds: seq<string>, es: seq<EmployeeTrend>, status: string): int
    decreases |ds|
  {
    if ds == [] then 0 else SumTotals(ds[..|ds| - 1], es, status) + Total(es, ds[|ds| - 1], status)
  }

  lemma {:induction false} SumTotalsStep(ds: seq<string>, es: seq<EmployeeTrend>, e: EmployeeTrend, status: string)
    requires forall i, j :: 0 <= i < j < |ds| ==> ds[i] != ds[j]
    ensures SumTotals(ds, es + [e], status)
      == SumTotals(ds, es, status) + (if e.department in ds then Count(e, status) else 0)
    decreases |ds|
  {
    if ds != [] {
      var p := ds[..|ds| - 1];
      var x := ds[|ds| - 1];
      SumTotalsStep(p, es, e, status);
      TotalSnoc(es, e, x, status);
      assert ds == p + [x];
      assert x !in p by {
        forall i | 0 <= i < |p| ensures p[i] != x {
          assert p[i] == ds[i];
        }
      }
    }
  }

  /** Conservation: the departments' totals of a status add up to the entries' total of it. */
  lemma {:induction false} TotalsConserved(es: seq<EmployeeTrend>, status: string)
    ensures SumTotals(Departments(es), es, status) == GrandTotal(es, status)
    decreases |es|
  {
    if es != [] {
      var p := es[..|es| - 1];
      var e := es[|es| - 1];
      assert es == p + [e];
      TotalsConserved(p, status);
      TotalsStep(p, e, status);
    }
  }

  /** One more entry keeps the departments' totals equal to the grand total. */
  lemma TotalsStep(p: seq<EmployeeTrend>, e: EmployeeTrend, status: string)
    requires SumTotals(Departments(p), p, status) == GrandTotal(p, status)
    ensures SumTotals(Departments(p + [e]), p + [e], status) == GrandTotal(p + [e], status)
  {
    DepartmentsSnoc(p, e);
    DepartmentsDistinct(p);
    TotalSnoc(p, e, e.department, status);
    SumTotalsStep(Departments(p), p, e, status);
    if e.department !in Departments(p) {
      TotalAbsent(p, e.department, status);
      var ds := Departments(p) + [e.department];
      assert ds[..|ds| - 1] == Departments(p);
    }
  }

  lemma {:induction false} ColumnsAreTotals(ds: seq<string>, es: seq<EmployeeTrend>, status: string)
    requires status in Statuses
    ensures SumColumn(seq(|ds|, i requires 0 <= i < |ds| => RowFor(es, ds[i])), status) == SumTotals(ds, es, status)
    decreases |ds|
  {
    var rows := seq(|ds|, i requires 0 <= i < |ds| => RowFor(es, ds[i]));
    if ds != [] {
      var p := ds[..|ds| - 1];
      ColumnsAreTotals(p, es, status);
      assert rows[..|rows| - 1] == seq(|p|, i requires 0 <= i < |p| => RowFor(es, p[i]));
    }
  }

  /** For every status, the chart's rows add up to the total over all entries. */
  lemma Conservation(es: seq<EmployeeTrend>, status: string)
    requires status in Statuses
    ensures SumColumn(ExpectedRows(es), status) == GrandTotal(es, status)
  {
    var ds := Departments(es);
    assert ExpectedRows(es) == seq(|ds|, i requires 0 <= i < |ds| => RowFor(es, ds[i]));
    ColumnsAreTotals(ds, es, status);
    TotalsConserved(es, status);
  }

  // ---------------------------------------------------------------------------
  // The component's state
  // ---------------------------------------------------------------------------

  /** How a trends request ended. */
  datatype TrendsOutcome =
    | Rejected(reason: Option<string>)              // fetch or body reading threw; the message when it was an Error
    | NotOk                                         // a response whose status is not 2xx
    | Received(attendanceTrends: Option<seq<EmployeeTrend>>)  // the body; None when it has no `attendance_trends`

  const FetchFailedMessage := "Failed to fetch attendance trends"

  class TrendsPanel {
    var isLoading: bool
    var trends: seq<TrendRow>

    constructor ()
      ensures isLoading && trends == []
    {
      isLoading := true;
      trends := [];
    }

    method StartFetch()
      modifies this
      ensures isLoading && trends == old(trends)
    {
      isLoading := true;
    }

    /**
     * The end of `fetchTrends`: the loading flag always drops; records are
     * rolled up into `trends`; a failure shows a toast and keeps the old rows.
     */
    method ResolveFetch(outcome: TrendsOutcome) returns (toast: Option<string>)
      modifies this
      ensures !isLoading
      ensures outcome.Received? && outcome.attendanceTrends.Some? ==>
        trends == ExpectedRows(Charted(outcome.attendanceTrends.value)) && toast == None
      ensures outcome.Received? && outcome.attendanceTrends.None? ==>
        trends == old(trends) && toast == None
      ensures outcome.NotOk? ==> trends == old(trends) && toast == Some(FetchFailedMessage)
      ensures outcome.Rejected? ==>
        && trends == old(trends)
        && toast == Some(if outcome.reason.Some? then outcome.reason.value else FetchFailedMessage)
    {
      isLoading := false;
      match outcome
      case Rejected(reason) =>
        toast := Some(if reason.Some? then reason.value else FetchFailedMessage);
      case NotOk =>
        toast := Some(FetchFailedMessage);
      case Received(records) =>
        toast := None;
        if records.Some? {
          trends := RollUp(records.value);
        }
    }
  }
}
