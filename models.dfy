/**
 * The validation of an attendance entry on the backend: a positive employee
 * id, a date written YYYY-MM-DD that is a real Gregorian date, one of the
 * three statuses, and a department of 1 to 50 characters. Every field is
 * checked, and the entry is accepted unchanged when all of them pass.
 */
module Models {
  import opened Wrappers
  import opened TrendRecords

  const DateFormatMessage := "Date must be in YYYY-MM-DD format"
  const InvalidDateMessage := "Invalid date"
  const StatusMessage := "Status must be one of Present, Absent, WFH"

  // ---------------------------------------------------------------------------
  // Dates
  // ---------------------------------------------------------------------------

  /** `\d`, for ASCII digits. */
  predicate IsDigit(c: char) {
    '0' <= c <= '9'
  }

  function DigitValue(c: char): (n: nat)
    requires IsDigit(c)
    ensures n < 10
  {
    (c as int) - ('0' as int)
  }

  function DigitChar(n: nat): (c: char)
    requires n < 10
    ensures IsDigit(c) && DigitValue(c) == n
  {
    ('0' as int + n) as char
  }

  /** Ten characters `dddd-dd-dd`. */
  predicate DateShape(s: string) {
    && |s| == 10
    && IsDigit(s[0]) && IsDigit(s[1]) && IsDigit(s[2]) && IsDigit(s[3])
    && s[4] == '-'
    && IsDigit(s[5]) && IsDigit(s[6])
    && s[7] == '-'
    && IsDigit(s[8]) && IsDigit(s[9])
  }

  /**
   * The pattern `^\d{4}-\d{2}-\d{2}$`: Python's `$` also matches just before
   * a newline that ends the string, so one trailing `\n` gets through.
   */
  predicate MatchesDatePattern(s: string) {
    (|s| == 10 && DateShape(s)) || (|s| == 11 && DateShape(s[..10]) && s[10] == '\n')
  }

  function Year(s: string): nat
    requires |s| >= 10 && DateShape(s[..10])
  {
    1000 * DigitValue(s[0]) + 100 * DigitValue(s[1]) + 10 * DigitValue(s[2]) + DigitValue(s[3])
  }

  function Month(s: string): nat
    requires |s| >= 10 && DateShape(s[..10])
  {
    10 * DigitValue(s[5]) + DigitValue(s[6])
  }

  function Day(s: string): nat
    requires |s| >= 10 && DateShape(s[..10])
  {
    10 * DigitValue(s[8]) + DigitValue(s[9])
  }

  predicate IsLeapYear(y: int) {
    y % 4 == 0 && (y % 100 != 0 || y % 400 == 0)
  }

  function DaysInMonth(y: int, m: int): (n: int)
    requires 1 <= m <= 12
    ensures 28 <= n <= 31
    ensures n == 29 <==> m == 2 && IsLeapYear(y)
    ensures n == 31 <==> m in {1, 3, 5, 7, 8, 10, 12}
    ensures n == 30 <==> m in {4, 6, 9, 11}
    ensures n == 28 <==> m == 2 && !IsLeapYear(y)
  {
    if m == 2 then (if IsLeapYear(y) then 29 else 28)
    else if m == 4 || m == 6 || m == 9 || m == 11 then 30
    else 31
  }

  /** A date `datetime` accepts: years 1 to 9999 of the proleptic Gregorian calendar. */
  predicate IsCalendarDate(y: int, m: int, d: int) {
    1 <= y <= 9999 && 1 <= m <= 12 && 1 <= d <= DaysInMonth(y, m)
  }

  /**
   * `validate_date_format`: the pattern is checked first, then the text must
   * read as a whole, real date (a trailing newline is left over).
   */
  function ValidateDate(s: string): (r: Result<string, string>)
    ensures r.Success? ==> r.value == s
    ensures r == Failure(DateFormatMessage) <==> !MatchesDatePattern(s)
    ensures r == Failure(InvalidDateMessage) <==>
      MatchesDatePattern(s) && (|s| != 10 || !IsCalendarDate(Year(s), Month(s), Day(s)))
    ensures r.Success? || r == Failure(DateFormatMessage) || r == Failure(InvalidDateMessage)
  {
    if !MatchesDatePattern(s) then Failure(DateFormatMessage)
    else if |s| != 10 || !IsCalendarDate(Year(s), Month(s), Day(s)) then Failure(InvalidDateMessage)
    else Success(s)
  }

  /** The YYYY-MM-DD text of a date, zero-padded. */
  function FormatDate(y: nat, m: nat, d: nat): (s: string)
    requires y < 10000 && m < 100 && d < 100
    ensures |s| == 10 && DateShape(s)
  {
    [DigitChar(y / 1000), DigitChar(y / 100 % 10), DigitChar(y / 10 % 10), DigitChar(y % 10), '-',
     DigitChar(m / 10), DigitChar(m % 10), '-',
     DigitChar(d / 10), DigitChar(d % 10)]
  }

  lemma DigitRoundTrip(c: char)
    requires IsDigit(c)
    ensures DigitChar(DigitValue(c)) == c
  {
  }

  lemma TwoDigits(a: nat, b: nat)
    requires a < 10 && b < 10
    ensures (10 * a + b) / 10 == a && (10 * a + b) % 10 == b
  {
  }

  lemma FourDigits(a: nat, b: nat, c: nat, d: nat)
    requires a < 10 && b < 10 && c < 10 && d < 10
    ensures var y := 1000 * a + 100 * b + 10 * c + d;
      y / 1000 == a && y / 100 % 10 == b && y / 10 % 10 == c && y % 10 == d
  {
    var y := 1000 * a + 100 * b + 10 * c + d;
    assert y / 10 == 100 * a + 10 * b + c;
    assert y / 100 == 10 * a + b;
    assert y / 1000 == a;
  }

  lemma DecimalYear(y: nat)
    requires y < 10000
    ensures 1000 * (y / 1000) + 100 * (y / 100 % 10) + 10 * (y / 10 % 10) + y % 10 == y
  {
    assert y / 10 == 10 * (y / 100) + y / 10 % 10;
    assert y / 100 == 10 * (y / 1000) + y / 100 % 10;
  }

  /** The fields of a formatted date read back as the numbers it was made from. */
  lemma FormatReadsBack(y: nat, m: nat, d: nat)
    requires y < 10000 && m < 100 && d < 100
    ensures var s := FormatDate(y, m, d);
      s[..10] == s && Year(s) == y && Month(s) == m && Day(s) == d
  {
    var s := FormatDate(y, m, d);
    assert s[..10] == s;
    DecimalYear(y);
  }

  /** Every real date is accepted in its YYYY-MM-DD form and reads back as itself. */
  lemma FormatThenValidate(y: nat, m: nat, d: nat)
    requires IsCalendarDate(y, m, d)
    ensures var s := FormatDate(y, m, d);
      ValidateDate(s) == Success(s) && Year(s) == y && Month(s) == m && Day(s) == d
  {
    FormatReadsBack(y, m, d);
  }

  /** Every accepted date is the YYYY-MM-DD form of the real date it reads as. */
  lemma ValidateThenFormat(s: string)
    requires ValidateDate(s).Success?
    ensures |s| == 10 && IsCalendarDate(Year(s), Month(s), Day(s))
    ensures s == FormatDate(Year(s), Month(s), Day(s))
  {
    assert s[..10] == s;
    FourDigits(DigitValue(s[0]), DigitValue(s[1]), DigitValue(s[2]), DigitValue(s[3]));
    TwoDigits(DigitValue(s[5]), DigitValue(s[6]));
    TwoDigits(DigitValue(s[8]), DigitValue(s[9]));
    DigitRoundTrip(s[0]);
    DigitRoundTrip(s[1]);
    DigitRoundTrip(s[2]);
    DigitRoundTrip(s[3]);
    DigitRoundTrip(s[5]);
    DigitRoundTrip(s[6]);
    DigitRoundTrip(s[8]);
    DigitRoundTrip(s[9]);
  }

  /** Dates the pattern lets through but the calendar does not, and the other way round. */
  lemma DateExamples()
    ensures ValidateDate("2024-02-29") == Success("2024-02-29")
    ensures ValidateDate("2023-02-29") == Failure(InvalidDateMessage)
    ensures ValidateDate("1900-02-29") == Failure(InvalidDateMessage)
    ensures ValidateDate("2024-04-31") == Failure(InvalidDateMessage)
    ensures ValidateDate("2024-13-01") == Failure(InvalidDateMessage)
    ensures ValidateDate("2024-00-10") == Failure(InvalidDateMessage)
    ensures ValidateDate("0000-01-01") == Failure(InvalidDateMessage)
    ensures ValidateDate("2024-01-15\n") == Failure(InvalidDateMessage)
    ensures ValidateDate("2024-1-15") == Failure(DateFormatMessage)
    ensures ValidateDate("2024/01/15") == Failure(DateFormatMessage)
  {
    assert "2024-02-29"[..10] == "2024-02-29";
    assert "2023-02-29"[..10] == "2023-02-29";
    assert "1900-02-29"[..10] == "1900-02-29";
    assert "2024-04-31"[..10] == "2024-04-31";
    assert "2024-13-01"[..10] == "2024-13-01";
    assert "2024-00-10"[..10] == "2024-00-10";
    assert "0000-01-01"[..10] == "0000-01-01";
    assert "2024-01-15\n"[..10] == "2024-01-15";
  }

  // ---------------------------------------------------------------------------
  // Status
  // ---------------------------------------------------------------------------

  /** `validate_status`: exactly one of the three statuses, compared case-sensitively. */
  function ValidateStatus(s: string): (r: Result<string, string>)
    ensures r.Success? <==> s == "Present" || s == "Absent" || s == "WFH"
    ensures r.Success? ==> r.value == s
    ensures r.Failure? ==> r.error == StatusMessage
  {
    if s in Statuses then Success(s) else Failure("Status must be one of " + Join(Statuses, ", "))
  }

  /** `sep.join(items)`. */
  function Join(items: seq<string>, sep: string): string
    decreases |items|
  {
    if items == [] then ""
    else if |items| == 1 then items[0]
    else items[0] + sep + Join(items[1..], sep)
  }

  // ---------------------------------------------------------------------------
  // The whole entry
  // ---------------------------------------------------------------------------

  datatype AttendanceEntry = AttendanceEntry(employeeId: int, date: string, status: string, department: string)

  /** Why a field was refused. */
  datatype FieldError =
    | EmployeeIdNotPositive
    | DateRejected(message: string)
    | StatusRejected(message: string)
    | DepartmentTooShort
    | DepartmentTooLong

  /** The position of a field among the entry's declared fields. */
  function FieldIndex(e: FieldError): nat {
    match e
    case EmployeeIdNotPositive => 0
    case DateRejected(_) => 1
    case StatusRejected(_) => 2
    case _ => 3
  }

  const MaxDepartmentLength := 50

  /** The refusals of the entry's fields, in field order. */
  function FieldErrors(e: AttendanceEntry): seq<FieldError> {
    (if e.employeeId <= 0 then [EmployeeIdNotPositive] else [])
    + (if ValidateDate(e.date).Failure? then [DateRejected(ValidateDate(e.date).error)] else [])
    + (if ValidateStatus(e.status).Failure? then [StatusRejected(ValidateStatus(e.status).error)] else [])
    + (if |e.department| < 1 then [DepartmentTooShort]
       else if |e.department| > MaxDepartmentLength then [DepartmentTooLong]
       else [])
  }

  /**
   * Building an `AttendanceEntry`: every field is checked, all refusals are
   * reported, and an entry that passes is kept as it is.
   */
  function ValidateEntry(e: AttendanceEntry): (r: Result<AttendanceEntry, seq<FieldError>>)
    ensures r.Success? <==>
      && e.employeeId > 0
      && ValidateDate(e.date).Success?
      && ValidateStatus(e.status).Success?
      && 1 <= |e.department| <= MaxDepartmentLength
    ensures r.Success? ==> r.value == e
    ensures r.Failure? ==> r.error == FieldErrors(e) && r.error != []
  {
    var errors := FieldErrors(e);
    if errors == [] then Success(e) else Failure(errors)
  }

  /** A field is reported exactly when it is refused, with the validator's own message. */
  lemma ErrorsPerField(e: AttendanceEntry)
    ensures EmployeeIdNotPositive in FieldErrors(e) <==> e.employeeId <= 0
    ensures forall m :: DateRejected(m) in FieldErrors(e) <==> ValidateDate(e.date) == Failure(m)
    ensures forall m :: StatusRejected(m) in FieldErrors(e) <==> ValidateStatus(e.status) == Failure(m)
    ensures DepartmentTooShort in FieldErrors(e) <==> |e.department| < 1
    ensures DepartmentTooLong in FieldErrors(e) <==> |e.department| > MaxDepartmentLength
  {
    forall x ensures x in FieldErrors(e) <==> Refused(e, x) {
      ErrorMembership(e, x);
    }
  }

  /** Whether `x` is the refusal the field it names gets. */
  predicate Refused(e: AttendanceEntry, x: FieldError) {
    match x
    case EmployeeIdNotPositive => e.employeeId <= 0
    case DateRejected(m) => ValidateDate(e.date) == Failure(m)
    case StatusRejected(m) => ValidateStatus(e.status) == Failure(m)
    case DepartmentTooShort => |e.department| < 1
    case DepartmentTooLong => |e.department| > MaxDepartmentLength
  }

  lemma ErrorMembership(e: AttendanceEntry, x: FieldError)
    ensures x in FieldErrors(e) <==> Refused(e, x)
  {
    var a := if e.employeeId <= 0 then [EmployeeIdNotPositive] else [];
    var b := if ValidateDate(e.date).Failure? then [DateRejected(ValidateDate(e.date).error)] else [];
    var c := if ValidateStatus(e.status).Failure? then [StatusRejected(ValidateStatus(e.status).error)] else [];
    var d := if |e.department| < 1 then [DepartmentTooShort]
      else if |e.department| > MaxDepartmentLength then [DepartmentTooLong] else [];
    assert FieldErrors(e) == a + b + c + d;
    assert x in a + b + c + d <==> x in a || x in b || x in c || x in d;
  }

  /** Refusals come in the order the fields are declared, one per field at most. */
  lemma ErrorsInFieldOrder(e: AttendanceEntry)
    ensures forall i, j :: 0 <= i < j < |FieldErrors(e)| ==> FieldIndex(FieldErrors(e)[i]) < FieldIndex(FieldErrors(e)[j])
  {
    var a := if e.employeeId <= 0 then [EmployeeIdNotPositive] else [];
    var b := if ValidateDate(e.date).Failure? then [DateRejected(ValidateDate(e.date).error)] else [];
    var c := if ValidateStatus(e.status).Failure? then [StatusRejected(ValidateStatus(e.status).error)] else [];
    var d := if |e.department| < 1 then [DepartmentTooShort]
      else if |e.department| > MaxDepartmentLength then [DepartmentTooLong] else [];
    var errs := a + b + c + d;
    assert FieldErrors(e) == errs;
    forall i | 0 <= i < |errs|
      ensures FieldIndex(errs[i]) == if i < |a| then 0 else if i < |a| + |b| then 1 else if i < |a| + |b| + |c| then 2 else 3
    {
      if i < |a| {
        assert errs[i] == a[i];
      } else if i < |a| + |b| {
        assert errs[i] == b[i - |a|];
      } else if i < |a| + |b| + |c| {
        assert errs[i] == c[i - |a| - |b|];
      } else {
        assert errs[i] == d[i - |a| - |b| - |c|];
      }
    }
  }
}
