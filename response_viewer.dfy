/**
 * The response panel: which of its views is shown, the colour of the status
 * badge, and how the response body is turned into display text.
 */
module ResponseViewer {
  import opened Wrappers
  import opened OrderedMaps
  import opened Json
  import opened JsonRoundTrip

  /** What the request dispatcher hands over after a response arrived. */
  datatype Response = Response(
    data: JsonValue,
    status: int,
    statusText: string,
    headers: OMap<string, string>,
    time: int)

  datatype Color = Green | Blue | Yellow | Red | Gray

  datatype View =
    | Placeholder
    | ErrorView(message: string)
    | ResponseView(badge: Color, status: int, statusText: string, time: int,
                   bodyText: string, headers: OMap<string, string>)
    | Nothing

  /** A JavaScript string or null is truthy when it is a non-empty string. */
  predicate Truthy(error: Option<string>) {
    error.Some? && error.value != ""
  }

  /** The badge colour of an HTTP status. */
  function StatusColor(status: int): (c: Color)
    ensures c == Green <==> 200 <= status < 300
    ensures c == Blue <==> 300 <= status < 400
    ensures c == Yellow <==> 400 <= status < 500
    ensures c == Red <==> 500 <= status
    ensures c == Gray <==> status < 200
  {
    if status >= 200 && status < 300 then Green
    else if status >= 300 && status < 400 then Blue
    else if status >= 400 && status < 500 then Yellow
    else if status >= 500 then Red
    else Gray
  }

  /**
   * The body as shown. A string that is JSON is shown re-indented; any other
   * string is shown as it is; any other value is shown indented. Printing a
   * JSON value cannot fail, so the `String(data)` fallback never applies.
   */
  function FormatJson(data: JsonValue): string {
    if data.JString? then
      match Parse(data.s)
      case Success(parsed) => Stringify(parsed)
      case Failure(_) => data.s
    else Stringify(data)
  }

  /** The panel chosen for the response and error the page holds. */
  function SelectView(response: Option<Response>, error: Option<string>): (v: View)
    ensures v != Nothing
    ensures v == Placeholder <==> response.None? && !Truthy(error)
    ensures v.ErrorView? <==> Truthy(error)
    ensures v.ErrorView? ==> v.message == error.value
    ensures v.ResponseView? ==> response.Some? && v.badge == StatusColor(response.value.status)
  {
    if response.None? && !Truthy(error) then Placeholder
    else if Truthy(error) then ErrorView(error.value)
    else if response.None? then Nothing
    else
      var r := response.value;
      ResponseView(StatusColor(r.status), r.status, r.statusText, r.time, FormatJson(r.data), r.headers)
  }

  /** What is shown for a body always reads back: as the body itself, or as the JSON a string body held. */
  lemma FormatJsonParsesBack(data: JsonValue)
    requires WellFormed(data)
    ensures !data.JString? ==> Parse(FormatJson(data)) == Success(data)
    ensures data.JString? && Parse(data.s).Success? ==>
      Parse(FormatJson(data)) == Parse(data.s)
    ensures data.JString? && Parse(data.s).Failure? ==> FormatJson(data) == data.s
  {
    if data.JString? {
      var p := Parse(data.s);
      if p.Success? {
        ParseWellFormed(data.s);
        StringifyThenParse(p.value);
      }
    } else {
      StringifyThenParse(data);
    }
  }

  /** Showing a string body a second time changes nothing. */
  lemma FormatJsonIdempotent(s: string)
    ensures FormatJson(JString(FormatJson(JString(s)))) == FormatJson(JString(s))
  {
    var p := Parse(s);
    if p.Success? {
      ParseWellFormed(s);
      StringifyThenParse(p.value);
    }
  }
}
