/**
 * The JSON values the request composer and the response viewer handle, the
 * pretty printer `JSON.stringify(v, null, 2)` and the parser `JSON.parse`,
 * restricted to integer numbers.
 */
module Json {
  import opened Wrappers
  import opened OrderedMaps

  datatype JsonValue =
    | JNull
    | JBool(b: bool)
    | JNumber(n: int)
    | JString(s: string)
    | JArray(items: seq<JsonValue>)
    | JObject(members: OMap<string, JsonValue>)

  /** No object repeats a key: true of every value a JavaScript program can hold. */
  predicate WellFormed(v: JsonValue)
    decreases v
  {
    match v
    case JArray(items) => forall i :: 0 <= i < |items| ==> WellFormed(items[i])
    case JObject(ms) => DistinctKeys(ms) && forall i :: 0 <= i < |ms| ==> WellFormed(ms[i].1)
    case _ => true
  }

  // ---------------------------------------------------------------------------
  // Printing: JSON.stringify(v, null, 2)
  // ---------------------------------------------------------------------------

  function Spaces(n: nat): (s: string)
    ensures |s| == n && forall i :: 0 <= i < n ==> s[i] == ' '
  {
    seq(n, _ => ' ')
  }

  function DigitChar(d: int): char
    requires 0 <= d < 10
  {
    ('0' as int + d) as char
  }

  /** Lower-case hexadecimal digit, as JSON.stringify writes in `\u00xx`. */
  function HexChar(d: int): char
    requires 0 <= d < 16
  {
    if d < 10 then DigitChar(d) else ('a' as int + d - 10) as char
  }

  function NatToString(n: nat): (s: string)
    decreases n
  {
    if n < 10 then [DigitChar(n)] else NatToString(n / 10) + [DigitChar(n % 10)]
  }

  function IntToString(n: int): string {
    if n < 0 then "-" + NatToString(-n) else NatToString(n)
  }

  /** How JSON.stringify writes one character inside a string literal. */
  function EscapeChar(c: char): string {
    if c == '"' then "\\\""
    else if c == '\\' then "\\\\"
    else if c == '\n' then "\\n"
    else if c == '\r' then "\\r"
    else if c == '\t' then "\\t"
    else if c as int == 8 then "\\b"
    else if c as int == 12 then "\\f"
    else if c < ' ' then "\\u00" + [HexChar(c as int / 16), HexChar(c as int % 16)]
    else [c]
  }

  function EscapeString(s: string): string {
    if s == [] then [] else EscapeChar(s[0]) + EscapeString(s[1..])
  }

  function Quote(s: string): string {
    "\"" + EscapeString(s) + "\""
  }

  /** `v` printed with its nested lines indented by `indent` + 2 spaces. */
  function Print(v: JsonValue, indent: nat): string
    decreases v, 1
  {
    match v
    case JNull => "null"
    case JBool(b) => if b then "true" else "false"
    case JNumber(n) => IntToString(n)
    case JString(s) => Quote(s)
    case JArray(items) =>
      if items == [] then "[]"
      else "[" + PrintItems(items, indent + 2) + "\n" + Spaces(indent) + "]"
    case JObject(ms) =>
      if ms == [] then "{}"
      else "{" + PrintMembers(v, 0, indent + 2) + "\n" + Spaces(indent) + "}"
  }

  /** Each item on its own line, separated by commas. */
  function PrintItems(items: seq<JsonValue>, indent: nat): string
    decreases items, 0
  {
    if items == [] then ""
    else
      "\n" + Spaces(indent) + Print(items[0], indent)
      + (if |items| == 1 then "" else "," + PrintItems(items[1..], indent))
  }

  /** The members of object `v` from position `from` on, each `"key": value`
      on its own line, separated by commas. */
  function PrintMembers(v: JsonValue, from: nat, indent: nat): string
    requires v.JObject? && from <= |v.members|
    decreases v, 0, |v.members| - from
  {
    var ms := v.members;
    if from == |ms| then ""
    else
      "\n" + Spaces(indent) + Quote(ms[from].0) + ": " + Print(ms[from].1, indent)
      + (if from + 1 == |ms| then "" else "," + PrintMembers(v, from + 1, indent))
  }

  /** `JSON.stringify(v, null, 2)`. */
  function Stringify(v: JsonValue): string {
    Print(v, 0)
  }

  // ---------------------------------------------------------------------------
  // Parsing: JSON.parse
  // ---------------------------------------------------------------------------

  datatype Parsed<T> = Parsed(value: T, rest: string)

  type ParseResult<T> = Result<Parsed<T>, string>

  predicate IsWhitespace(c: char) {
    c == ' ' || c == '\t' || c == '\n' || c == '\r'
  }

  predicate IsDigit(c: char) {
    '0' <= c <= '9'
  }

  function SkipWhitespace(s: string): (r: string)
    ensures |r| <= |s|
    ensures r == [] || !IsWhitespace(r[0])
    decreases |s|
  {
    if s != [] && IsWhitespace(s[0]) then SkipWhitespace(s[1..]) else s
  }

  function HexValue(c: char): (d: int)
    ensures -1 <= d < 16
  {
    if '0' <= c <= '9' then c as int - '0' as int
    else if 'a' <= c <= 'f' then c as int - 'a' as int + 10
    else if 'A' <= c <= 'F' then c as int - 'A' as int + 10
    else -1
  }

  function ParseLiteral(s: string, word: string, v: JsonValue): (r: ParseResult<JsonValue>)
    requires word != []
    ensures r.Success? ==> |r.value.rest| < |s|
  {
    if |word| <= |s| && s[..|word|] == word then Success(Parsed(v, s[|word|..]))
    else Failure("Unexpected token in JSON")
  }

  /** The value of a run of decimal digits, read left to right onto `acc`. */
  function ParseDigits(s: string, acc: nat): (r: (nat, string))
    ensures |r.1| <= |s| && (r.1 == [] || !IsDigit(r.1[0]))
    ensures s != [] && IsDigit(s[0]) ==> |r.1| < |s|
    decreases |s|
  {
    if s != [] && IsDigit(s[0]) then ParseDigits(s[1..], acc * 10 + (s[0] as int - '0' as int))
    else (acc, s)
  }

  function ParseNumber(s: string): (r: ParseResult<JsonValue>)
    ensures r.Success? ==> |r.value.rest| < |s|
  {
    var negative := s != [] && s[0] == '-';
    var t := if negative then s[1..] else s;
    if t == [] || !IsDigit(t[0]) then Failure("No number after minus sign in JSON")
    else if t[0] == '0' && |t| > 1 && IsDigit(t[1]) then Failure("Unexpected number in JSON")
    else
      var (n, rest) := ParseDigits(t, 0);
      if rest != [] && (rest[0] == '.' || rest[0] == 'e' || rest[0] == 'E') then
        Failure("Non-integer number")
      else
        var value: int := if negative then -(n as int) else n;
        Success(Parsed(JNumber(value), rest))
  }

  /** The character an escape sequence stands for; `s` follows the backslash. */
  function ParseEscape(s: string): (r: ParseResult<char>)
    ensures r.Success? ==> |r.value.rest| < |s|
  {
    if s == [] then Failure("Bad escaped character in JSON")
    else if s[0] == '"' || s[0] == '\\' || s[0] == '/' then Success(Parsed(s[0], s[1..]))
    else if s[0] == 'b' then Success(Parsed(8 as char, s[1..]))
    else if s[0] == 'f' then Success(Parsed(12 as char, s[1..]))
    else if s[0] == 'n' then Success(Parsed('\n', s[1..]))
    else if s[0] == 'r' then Success(Parsed('\r', s[1..]))
    else if s[0] == 't' then Success(Parsed('\t', s[1..]))
    else if s[0] == 'u' && |s| >= 5
      && HexValue(s[1]) >= 0 && HexValue(s[2]) >= 0 && HexValue(s[3]) >= 0 && HexValue(s[4]) >= 0 then
      var code := HexValue(s[1]) * 4096 + HexValue(s[2]) * 256 + HexValue(s[3]) * 16 + HexValue(s[4]);
      if 0xD800 <= code < 0xE000 then Failure("Surrogate escape")
      else Success(Parsed(code as char, s[5..]))
    else Failure("Bad escaped character in JSON")
  }

  /** The characters of a string literal; `s` follows the opening quote. */
  function ParseStringBody(s: string): (r: ParseResult<string>)
    ensures r.Success? ==> |r.value.rest| < |s|
    decreases |s|
  {
    if s == [] then Failure("Unterminated string in JSON")
    else if s[0] == '"' then Success(Parsed([], s[1..]))
    else if s[0] == '\\' then
      var e :- ParseEscape(s[1..]);
      var p :- ParseStringBody(e.rest);
      Success(Parsed([e.value] + p.value, p.rest))
    else if s[0] < ' ' then Failure("Bad control character in string literal in JSON")
    else
      var p :- ParseStringBody(s[1..]);
      Success(Parsed([s[0]] + p.value, p.rest))
  }

  /** A value starting at the first character of `s`. */
  function ParseValue(s: string): (r: ParseResult<JsonValue>)
    ensures r.Success? ==> |r.value.rest| < |s|
    decreases |s|, 1
  {
    if s == [] then Failure("Unexpected end of JSON input")
    else if s[0] == 'n' then ParseLiteral(s, "null", JNull)
    else if s[0] == 't' then ParseLiteral(s, "true", JBool(true))
    else if s[0] == 'f' then ParseLiteral(s, "false", JBool(false))
    else if s[0] == '"' then
      var p :- ParseStringBody(s[1..]);
      Success(Parsed(JString(p.value), p.rest))
    else if s[0] == '[' then ParseArray(s[1..])
    else if s[0] == '{' then ParseObject(s[1..])
    else if s[0] == '-' || IsDigit(s[0]) then ParseNumber(s)
    else Failure("Unexpected token in JSON")
  }

  /** An array; `s` follows the opening bracket. */
  function ParseArray(s: string): (r: ParseResult<JsonValue>)
    ensures r.Success? ==> |r.value.rest| < |s|
    decreases |s|, 3
  {
    var t := SkipWhitespace(s);
    if t != [] && t[0] == ']' then Success(Parsed(JArray([]), t[1..]))
    else
      var p :- ParseItems(t);
      Success(Parsed(JArray(p.value), p.rest))
  }

  /** One or more items and the closing bracket. */
  function ParseItems(s: string): (r: ParseResult<seq<JsonValue>>)
    ensures r.Success? ==> |r.value.rest| < |s|
    decreases |s|, 2
  {
    var v :- ParseValue(s);
    var t := SkipWhitespace(v.rest);
    if t == [] then Failure("Unexpected end of JSON input")
    else if t[0] == ',' then
      var more :- ParseItems(SkipWhitespace(t[1..]));
      Success(Parsed([v.value] + more.value, more.rest))
    else if t[0] == ']' then Success(Parsed([v.value], t[1..]))
    else Failure("Unexpected token in JSON")
  }

  /** An object; `s` follows the opening brace. A repeated key keeps its first
      position and takes its last value, as JSON.parse does. */
  function ParseObject(s: string): (r: ParseResult<JsonValue>)
    ensures r.Success? ==> |r.value.rest| < |s|
    decreases |s|, 3
  {
    var t := SkipWhitespace(s);
    if t != [] && t[0] == '}' then Success(Parsed(JObject([]), t[1..]))
    else
      var p :- ParseMembers(t);
      Success(Parsed(JObject(Collect([], p.value)), p.rest))
  }

  /** One or more `"key": value` members and the closing brace, as written. */
  function ParseMembers(s: string): (r: ParseResult<OMap<string, JsonValue>>)
    ensures r.Success? ==> |r.value.rest| < |s|
    decreases |s|, 2
  {
    if s == [] || s[0] != '"' then Failure("Expected property name in JSON")
    else
      var k :- ParseStringBody(s[1..]);
      var t := SkipWhitespace(k.rest);
      if t == [] || t[0] != ':' then Failure("Expected ':' after property name in JSON")
      else
        var v :- ParseValue(SkipWhitespace(t[1..]));
        var u := SkipWhitespace(v.rest);
        if u == [] then Failure("Unexpected end of JSON input")
        else if u[0] == ',' then
          var more :- ParseMembers(SkipWhitespace(u[1..]));
          Success(Parsed([(k.value, v.value)] + more.value, more.rest))
        else if u[0] == '}' then Success(Parsed([(k.value, v.value)], u[1..]))
        else Failure("Unexpected token in JSON")
  }

  /** Members assigned one after another into the object `acc`. */
  function Collect(acc: OMap<string, JsonValue>, ps: OMap<string, JsonValue>): OMap<string, JsonValue>
    decreases |ps|
  {
    if ps == [] then acc else Collect(Put(acc, ps[0].0, ps[0].1), ps[1..])
  }

  /** `JSON.parse(s)`: one value, optionally surrounded by whitespace. */
  function Parse(s: string): Result<JsonValue, string> {
    var p :- ParseValue(SkipWhitespace(s));
    if SkipWhitespace(p.rest) == [] then Success(p.value)
    else Failure("Unexpected non-whitespace character after JSON")
  }
}
