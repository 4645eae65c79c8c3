/**
 * The employee attendance lookup: an employee id is typed, the backend's
 * attendance endpoint is asked for that employee's records, and the page
 * shows a loading line, a "no records" card, the records table, or nothing.
 */
module EmployeeAttendance {
  import opened Wrappers
  import opened OrderedMaps
  import opened JsText
  import opened Json

  const EnterIdMessage := "Please enter an employee ID"
  /** The message the backend sends for an employee without records. */
  const NoAttendanceReply := "No attendance found for employee"
  const NoRecordsText := "No attendance records found for this employee"
  const InvalidFormatMessage := "Invalid data format"
  const FetchFailedMessage := "Failed to fetch attendance data"
  /** The message of the TypeError raised by reading a property of `null`. */
  const NullBodyMessage := "Cannot read properties of null (reading 'message')"

  // ---------------------------------------------------------------------------
  // The backend's reply
  // ---------------------------------------------------------------------------

  /**
   * The body of `GET /attendance/{employee_id}`: a message object when the
   * employee has no records, the records under `attendance` otherwise.
   */
  function AttendanceReply(records: seq<JsonValue>): (v: JsonValue)
    ensures v.JObject? && |v.members| == 1
    ensures records == [] <==> v.members[0].0 == "message"
  {
    if records == [] then JObject([("message", JString(NoAttendanceReply))])
    else JObject([("attendance", JArray(records))])
  }

  // ---------------------------------------------------------------------------
  // Reading the reply
  // ---------------------------------------------------------------------------

  /** `data[key]` on a parsed body that is not `null`: only objects have the fields asked for. */
  function Property(data: JsonValue, key: string): (r: Option<JsonValue>)
    ensures r.Some? <==> data.JObject? && key in KeySet(data.members)
    ensures r.Some? && WellFormed(data) ==> r.value == ToMap(data.members)[key]
  {
    if data.JObject? then Get(data.members, key) else None
  }

  /** What the lookup makes of a parsed body. */
  datatype Reading =
    | NullBody                      // reading `data.message` throws
    | NoAttendance                  // the backend's "no records" message
    | Records(items: seq<JsonValue>)  // an `attendance` array
    | BadFormat                     // anything else

  function Classify(data: JsonValue): (r: Reading)
    ensures r == NullBody <==> data == JNull
    ensures r == NoAttendance <==> data != JNull && Property(data, "message") == Some(JString(NoAttendanceReply))
    ensures r.Records? <==>
      && data != JNull
      && Property(data, "message") != Some(JString(NoAttendanceReply))
      && Property(data, "attendance").Some? && Property(data, "attendance").value.JArray?
    ensures r.Records? ==> Property(data, "attendance") == Some(JArray(r.items))
  {
    if data == JNull then NullBody
    else if Property(data, "message") == Some(JString(NoAttendanceReply)) then NoAttendance
    else
      match Property(data, "attendance")
      case Some(JArray(items)) => Records(items)
      case _ => BadFormat
  }

  /** The lookup reads the backend's reply as intended: the message for no records, the records otherwise. */
  lemma ReplyClassified(records: seq<JsonValue>)
    ensures Classify(AttendanceReply(records)) == if records == [] then NoAttendance else Records(records)
  {
    var v := AttendanceReply(records);
    if records != [] {
      assert KeySet(v.members) == {"attendance"};
      assert "message" != "attendance";
    }
  }

  // ---------------------------------------------------------------------------
  // The component's state
  // ---------------------------------------------------------------------------

  /** How the request ended once it was sent. */
  datatype LookupOutcome =
    | Rejected(reason: Option<string>)  // fetch or `response.json()` threw; the message when it was an Error
    | Received(data: JsonValue)         // the parsed body, whatever the status code

  datatype Display =
    | Loading
    | NoData(message: string)
    | RecordTable(records: seq<JsonValue>)
    | Blank

  class EmployeeLookup {
    var employeeId: string
    var isLoading: bool
    var attendanceData: Option<seq<JsonValue>>
    var noDataMessage: Option<string>

    constructor ()
      ensures employeeId == "" && !isLoading && attendanceData == None && noDataMessage == None
    {
      employeeId := "";
      isLoading := false;
      attendanceData := None;
      noDataMessage := None;
    }

    method SetEmployeeId(id: string)
      modifies this
      ensures employeeId == id
      ensures isLoading == old(isLoading) && attendanceData == old(attendanceData)
      ensures noDataMessage == old(noDataMessage)
    {
      employeeId := id;
    }

    /**
     * The start of `fetchAttendance`. A blank id is refused with a toast and
     * no request; otherwise the loading flag rises and the old "no records"
     * card goes, while the previous records stay until the reply.
     */
    method StartFetch() returns (sent: bool, toast: Option<string>)
      modifies this
      ensures sent <==> Trim(old(employeeId)) != []
      ensures !sent ==>
        && toast == Some(EnterIdMessage)
        && isLoading == old(isLoading) && noDataMessage == old(noDataMessage)
      ensures sent ==> toast == None && isLoading && noDataMessage == None
      ensures employeeId == old(employeeId) && attendanceData == old(attendanceData)
    {
      if Trim(employeeId) == [] {
        return false, Some(EnterIdMessage);
      }
      isLoading := true;
      noDataMessage := None;
      sent, toast := true, None;
    }

    /**
     * The end of `fetchAttendance`: records are kept; the backend's "no
     * records" reply shows the card; every failure shows a toast and drops
     * the records. The loading flag always drops.
     */
    method ResolveFetch(outcome: LookupOutcome) returns (toast: Option<string>)
      modifies this
      ensures !isLoading && employeeId == old(employeeId)
      ensures outcome.Rejected? ==>
        && toast == Some(if outcome.reason.Some? then outcome.reason.value else FetchFailedMessage)
        && attendanceData == None && noDataMessage == old(noDataMessage)
      ensures outcome.Received? ==> match Classify(outcome.data)
        case NullBody => toast == Some(NullBodyMessage) && attendanceData == None && noDataMessage == old(noDataMessage)
        case NoAttendance => toast == None && attendanceData == None && noDataMessage == Some(NoRecordsText)
        case Records(items) => toast == None && attendanceData == Some(items) && noDataMessage == old(noDataMessage)
        case BadFormat => toast == Some(InvalidFormatMessage) && attendanceData == None && noDataMessage == old(noDataMessage)
    {
      isLoading := false;
      match outcome
      case Rejected(reason) =>
        toast := Some(if reason.Some? then reason.value else FetchFailedMessage);
        attendanceData := None;
      case Received(data) =>
        match Classify(data)
        case NullBody =>
          toast := Some(NullBodyMessage);
          attendanceData := None;
        case NoAttendance =>
          toast := None;
          attendanceData := None;
          noDataMessage := Some(NoRecordsText);
        case Records(items) =>
          toast := None;
          attendanceData := Some(items);
        case BadFormat =>
          toast := Some(InvalidFormatMessage);
          attendanceData := None;
    }

    /** The area under the search box, by priority: loading, the card, the table, nothing. */
    function Shown(): (d: Display)
      reads this
      ensures d == Loading <==> isLoading
      ensures d.NoData? <==> !isLoading && noDataMessage.Some? && noDataMessage.value != ""
      ensures d.RecordTable? <==>
        && !isLoading && (noDataMessage.None? || noDataMessage.value == "")
        && attendanceData.Some? && |attendanceData.value| > 0
      ensures d.RecordTable? ==> d.records == attendanceData.value
    {
      if isLoading then Loading
      else if noDataMessage.Some? && noDataMessage.value != "" then NoData(noDataMessage.value)
      else if attendanceData.Some? && |attendanceData.value| > 0 then RecordTable(attendanceData.value)
      else Blank
    }
  }

  /**
   * A search for an employee, answered by the backend: the card when the
   * employee has no records, the table of exactly the backend's records
   * otherwise.
   */
  method Search(lookup: EmployeeLookup, records: seq<JsonValue>) returns (toast: Option<string>)
    requires Trim(lookup.employeeId) != []
    modifies lookup
    ensures toast == None
    ensures lookup.Shown() == if records == [] then NoData(NoRecordsText) else RecordTable(records)
  {
    var sent, t := lookup.StartFetch();
    ReplyClassified(records);
    toast := lookup.ResolveFetch(Received(AttendanceReply(records)));
  }
}
