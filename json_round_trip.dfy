/**
 * What the JSON printer and parser promise each other: every well-formed value
 * printed with `Stringify` is read back by `Parse` as the same value.
 */
module JsonRoundTrip {
  import opened Wrappers
  import opened OrderedMaps
  import opened Json

  /** What may follow a printed value inside printed output. */
  predicate Delimited(rest: string) {
    rest == [] || rest[0] == ',' || IsWhitespace(rest[0])
  }

  /** The characters a printed value can start with. */
  predicate StartsValue(c: char) {
    c == 'n' || c == 't' || c == 'f' || c == '"' || c == '[' || c == '{' || c == '-' || IsDigit(c)
  }

  // ---------------------------------------------------------------------------
  // Whitespace
  // ---------------------------------------------------------------------------

  lemma {:induction false} SkipSpaces(n: nat, t: string)
    requires t == [] || !IsWhitespace(t[0])
    ensures SkipWhitespace(Spaces(n) + t) == t
    decreases n
  {
    if n > 0 {
      var s := Spaces(n) + t;
      assert s[0] == ' ';
      assert s[1..] == Spaces(n - 1) + t;
      SkipSpaces(n - 1, t);
    }
  }

  lemma SkipIndent(n: nat, t: string)
    requires t == [] || !IsWhitespace(t[0])
    ensures SkipWhitespace("\n" + Spaces(n) + t) == t
  {
    var s := "\n" + Spaces(n) + t;
    assert s[1..] == Spaces(n) + t;
    SkipSpaces(n, t);
  }

  // ---------------------------------------------------------------------------
  // Numbers
  // ---------------------------------------------------------------------------

  predicate AllDigits(ds: string) {
    forall i :: 0 <= i < |ds| ==> IsDigit(ds[i])
  }

  /** The value of the digits `ds` read left to right onto `acc`. */
  function Fold(acc: nat, ds: string): nat
    requires AllDigits(ds)
    decreases |ds|
  {
    if ds == [] then acc else Fold(acc * 10 + (ds[0] as int - '0' as int), ds[1..])
  }

  lemma {:induction false} ParseDigitsAppend(ds: string, rest: string, acc: nat)
    requires AllDigits(ds)
    ensures ParseDigits(ds + rest, acc) == ParseDigits(rest, Fold(acc, ds))
    decreases |ds|
  {
    if ds != [] {
      var s := ds + rest;
      var acc' := acc * 10 + (ds[0] as int - '0' as int);
      assert s[0] == ds[0] && IsDigit(s[0]);
      assert s[1..] == ds[1..] + rest;
      assert ParseDigits(s, acc) == ParseDigits(s[1..], acc');
      assert Fold(acc, ds) == Fold(acc', ds[1..]);
      ParseDigitsAppend(ds[1..], rest, acc');
    } else {
      assert ds + rest == rest;
    }
  }

  lemma {:induction false} FoldSnoc(acc: nat, ds: string, d: char)
    requires AllDigits(ds) && IsDigit(d)
    ensures AllDigits(ds + [d]) && Fold(acc, ds + [d]) == Fold(acc, ds) * 10 + (d as int - '0' as int)
    decreases |ds|
  {
    if ds == [] {
      assert [] + [d] == [d];
    } else {
      assert (ds + [d])[1..] == ds[1..] + [d];
      FoldSnoc(acc * 10 + (ds[0] as int - '0' as int), ds[1..], d);
    }
  }

  lemma {:induction false} NatToStringDigits(n: nat)
    ensures var ds := NatToString(n);
      && ds != [] && AllDigits(ds) && Fold(0, ds) == n
      && (ds[0] == '0' ==> n == 0 && |ds| == 1)
    decreases n
  {
    if n >= 10 {
      NatToStringDigits(n / 10);
      FoldSnoc(0, NatToString(n / 10), DigitChar(n % 10));
    }
  }

  lemma NumberRoundTrip(n: int, rest: string)
    requires Delimited(rest)
    ensures ParseNumber(IntToString(n) + rest) == Success(Parsed(JNumber(n), rest))
  {
    var m: nat := if n < 0 then -n else n;
    var ds := NatToString(m);
    NatToStringDigits(m);
    ParseDigitsAppend(ds, rest, 0);
    NumberSign(n, ds, rest);
  }

  lemma NumberSign(n: int, ds: string, rest: string)
    requires ds == NatToString(if n < 0 then -n else n)
    requires ds != [] && IsDigit(ds[0])
    ensures var s := IntToString(n) + rest;
      s != [] && (s[0] == '-' <==> n < 0)
      && (if n < 0 then s[1..] else s) == ds + rest
  {
    var s := IntToString(n) + rest;
    if n < 0 {
      assert s == "-" + (ds + rest);
    }
  }

  // ---------------------------------------------------------------------------
  // Strings
  // ---------------------------------------------------------------------------

  lemma HexRoundTrip(d: int)
    requires 0 <= d < 16
    ensures HexValue(HexChar(d)) == d
  {
  }

  /** Every escape JSON.stringify writes is read back as the character it stands for. */
  lemma EscapeCharRoundTrip(c: char, t: string)
    ensures var e := EscapeChar(c);
      || (e == [c] && c != '"' && c != '\\' && !(c < ' '))
      || (|e| >= 2 && e[0] == '\\' && ParseEscape(e[1..] + t) == Success(Parsed(c, t)))
  {
    var e := EscapeChar(c);
    if c < ' ' && c != '\n' && c != '\r' && c != '\t' && c as int != 8 && c as int != 12 {
      var hi, lo := c as int / 16, c as int % 16;
      HexRoundTrip(hi);
      HexRoundTrip(lo);
      var s := e[1..] + t;
      assert s[..5] == ['u', '0', '0', HexChar(hi), HexChar(lo)];
      assert s[5..] == t;
    } else if |e| >= 2 {
      assert (e[1..] + t)[1..] == t;
    }
  }

  lemma {:induction false} StringRoundTrip(str: string, rest: string)
    ensures ParseStringBody(EscapeString(str) + "\"" + rest) == Success(Parsed(str, rest))
    decreases |str|
  {
    if str == [] {
      assert EscapeString(str) + "\"" + rest == "\"" + rest;
    } else {
      var t := EscapeString(str[1..]) + "\"" + rest;
      assert EscapeString(str) + "\"" + rest == EscapeChar(str[0]) + t;
      StringRoundTrip(str[1..], rest);
      EscapedCharStep(str[0], t, str[1..], rest);
      HeadTail(str);
    }
  }

  /** One character written by `EscapeChar` in front of an already readable rest. */
  lemma EscapedCharStep(c: char, t: string, more: string, rest: string)
    requires ParseStringBody(t) == Success(Parsed(more, rest))
    ensures ParseStringBody(EscapeChar(c) + t) == Success(Parsed([c] + more, rest))
  {
    var e := EscapeChar(c);
    var s := e + t;
    EscapeCharRoundTrip(c, t);
    if e == [c] && c != '"' && c != '\\' && !(c < ' ') {
      assert s[0] == c && s[1..] == t;
    } else {
      assert s[0] == '\\' && s[1..] == e[1..] + t;
    }
  }

  // ---------------------------------------------------------------------------
  // Values
  // ---------------------------------------------------------------------------

  lemma PrintStart(v: JsonValue, indent: nat)
    ensures Print(v, indent) != [] && StartsValue(Print(v, indent)[0])
  {
    if v.JNumber? {
      var m: nat := if v.n < 0 then -v.n else v.n;
      NatToStringDigits(m);
    }
  }

  lemma {:induction false} CollectDistinct(acc: OMap<string, JsonValue>, ps: OMap<string, JsonValue>)
    requires DistinctKeys(acc + ps)
    ensures Collect(acc, ps) == acc + ps
    decreases |ps|
  {
    if ps != [] {
      var all := acc + ps;
      assert ps[0].0 !in KeySet(acc) by {
        forall j | 0 <= j < |acc| ensures acc[j].0 != ps[0].0 {
          assert all[j] == acc[j] && all[|acc|] == ps[0];
        }
      }
      var acc' := Put(acc, ps[0].0, ps[0].1);
      assert acc' == acc + [ps[0]];
      assert acc' + ps[1..] == all;
      CollectDistinct(acc', ps[1..]);
    }
  }

  // One step of the parser each: kept apart so that the proofs below never
  // unfold the whole parser at once.

  lemma DispatchContainer(x: string)
    ensures ParseValue("[" + x) == ParseArray(x)
    ensures ParseValue("{" + x) == ParseObject(x)
  {
    assert ("[" + x)[0] == '[' && ("[" + x)[1..] == x;
    assert ("{" + x)[0] == '{' && ("{" + x)[1..] == x;
  }

  lemma ParseArrayStep(x: string, items: seq<JsonValue>, rest: string)
    requires var t := SkipWhitespace(x); t != [] && t[0] != ']' && ParseItems(t) == Success(Parsed(items, rest))
    ensures ParseValue("[" + x) == Success(Parsed(JArray(items), rest))
  {
    DispatchContainer(x);
  }

  lemma ParseObjectStep(x: string, ms: OMap<string, JsonValue>, rest: string)
    requires var t := SkipWhitespace(x); t != [] && t[0] != '}' && ParseMembers(t) == Success(Parsed(ms, rest))
    ensures ParseValue("{" + x) == Success(Parsed(JObject(Collect([], ms)), rest))
  {
    DispatchContainer(x);
    var t := SkipWhitespace(x);
    var p := ParseMembers(t);
    assert !p.IsFailure() && p.Extract() == Parsed(ms, rest);
  }

  lemma ParseEmptyContainers(rest: string)
    ensures ParseValue("[]" + rest) == Success(Parsed(JArray([]), rest))
    ensures ParseValue("{}" + rest) == Success(Parsed(JObject([]), rest))
  {
    assert ("[]" + rest)[1..] == "]" + rest;
    assert ("{}" + rest)[1..] == "}" + rest;
  }

  lemma ParseItemsLast(s: string, v: JsonValue, y: string, rest: string)
    requires ParseValue(s) == Success(Parsed(v, y))
    requires var t := SkipWhitespace(y); t != [] && t[0] == ']' && t[1..] == rest
    ensures ParseItems(s) == Success(Parsed([v], rest))
  {
    var pv := ParseValue(s);
    assert !pv.IsFailure() && pv.Extract() == Parsed(v, y);
  }

  lemma ParseItemsMore(s: string, v: JsonValue, y: string, more: seq<JsonValue>, rest: string)
    requires ParseValue(s) == Success(Parsed(v, y))
    requires SkipWhitespace(y) == y && y != [] && y[0] == ','
    requires ParseItems(SkipWhitespace(y[1..])) == Success(Parsed(more, rest))
    ensures ParseItems(s) == Success(Parsed([v] + more, rest))
  {
    var pv := ParseValue(s);
    assert !pv.IsFailure() && pv.Extract() == Parsed(v, y);
  }

  lemma ParseMembersLast(s: string, key: string, z: string, v: JsonValue, y: string, rest: string)
    requires s != [] && s[0] == '"'
    requires ParseStringBody(s[1..]) == Success(Parsed(key, z))
    requires SkipWhitespace(z) == z && z != [] && z[0] == ':'
    requires ParseValue(SkipWhitespace(z[1..])) == Success(Parsed(v, y))
    requires var u := SkipWhitespace(y); u != [] && u[0] == '}' && u[1..] == rest
    ensures ParseMembers(s) == Success(Parsed([(key, v)], rest))
  {
    var k := ParseStringBody(s[1..]);
    assert !k.IsFailure() && k.Extract() == Parsed(key, z);
    var pv := ParseValue(SkipWhitespace(z[1..]));
    assert !pv.IsFailure() && pv.Extract() == Parsed(v, y);
  }

  lemma ParseMembersMore(s: string, key: string, z: string, v: JsonValue, y: string,
                         more: OMap<string, JsonValue>, rest: string)
    requires s != [] && s[0] == '"'
    requires ParseStringBody(s[1..]) == Success(Parsed(key, z))
    requires SkipWhitespace(z) == z && z != [] && z[0] == ':'
    requires ParseValue(SkipWhitespace(z[1..])) == Success(Parsed(v, y))
    requires SkipWhitespace(y) == y && y != [] && y[0] == ','
    requires ParseMembers(SkipWhitespace(y[1..])) == Success(Parsed(more, rest))
    ensures ParseMembers(s) == Success(Parsed([(key, v)] + more, rest))
  {
  }

  lemma {:induction false} ValueRoundTrip(v: JsonValue, indent: nat, rest: string)
    requires WellFormed(v) && Delimited(rest)
    ensures ParseValue(Print(v, indent) + rest) == Success(Parsed(v, rest))
    decreases v, 2
  {
    if v.JArray? {
      ArrayRoundTrip(v, indent, rest);
    } else if v.JObject? {
      ObjectRoundTrip(v, indent, rest);
    } else {
      ScalarRoundTrip(v, indent, rest);
    }
  }

  lemma ScalarRoundTrip(v: JsonValue, indent: nat, rest: string)
    requires !v.JArray? && !v.JObject? && Delimited(rest)
    ensures ParseValue(Print(v, indent) + rest) == Success(Parsed(v, rest))
  {
    match v
    case JNull => LiteralRoundTrip(v, "null", rest);
    case JBool(b) => LiteralRoundTrip(v, if b then "true" else "false", rest);
    case JNumber(n) => NumberValueRoundTrip(n, rest);
    case JString(str) => StringValueRoundTrip(str, rest);
  }

  lemma NumberValueRoundTrip(n: int, rest: string)
    requires Delimited(rest)
    ensures ParseValue(IntToString(n) + rest) == Success(Parsed(JNumber(n), rest))
  {
    NumberRoundTrip(n, rest);
    var m: nat := if n < 0 then -n else n;
    NatToStringDigits(m);
    var s := IntToString(n) + rest;
    assert s[0] == '-' || IsDigit(s[0]);
  }

  lemma LiteralRoundTrip(v: JsonValue, word: string, rest: string)
    requires (v == JNull && word == "null") || (v == JBool(true) && word == "true")
          || (v == JBool(false) && word == "false")
    requires Delimited(rest)
    ensures ParseValue(word + rest) == Success(Parsed(v, rest))
  {
    var s := word + rest;
    assert s[..|word|] == word && s[|word|..] == rest;
  }

  lemma StringValueRoundTrip(str: string, rest: string)
    ensures ParseValue(Quote(str) + rest) == Success(Parsed(JString(str), rest))
  {
    var s := Quote(str) + rest;
    assert s[0] == '"' && s[1..] == EscapeString(str) + "\"" + rest;
    StringRoundTrip(str, rest);
  }

  // How the printer lays out a container, with an arbitrary `tail` after it.

  lemma PrintArrayLayout(v: JsonValue, indent: nat, rest: string) returns (x: string, tail: string)
    requires v.JArray? && v.items != []
    ensures tail == "\n" + Spaces(indent) + ("]" + rest)
    ensures x == PrintItems(v.items, indent + 2) + tail
    ensures Print(v, indent) + rest == "[" + x
  {
    tail := "\n" + Spaces(indent) + ("]" + rest);
    x := PrintItems(v.items, indent + 2) + tail;
  }

  lemma PrintObjectLayout(v: JsonValue, indent: nat, rest: string) returns (x: string, tail: string)
    requires v.JObject? && v.members != []
    ensures tail == "\n" + Spaces(indent) + ("}" + rest)
    ensures x == PrintMembers(v, 0, indent + 2) + tail
    ensures Print(v, indent) + rest == "{" + x
  {
    tail := "\n" + Spaces(indent) + ("}" + rest);
    x := PrintMembers(v, 0, indent + 2) + tail;
  }

  lemma PrintItemsLayout(items: seq<JsonValue>, indent: nat, tail: string) returns (y: string)
    requires items != []
    ensures y == if |items| == 1 then tail else "," + (PrintItems(items[1..], indent) + tail)
    ensures PrintItems(items, indent) + tail == "\n" + Spaces(indent) + (Print(items[0], indent) + y)
  {
    y := if |items| == 1 then tail else "," + (PrintItems(items[1..], indent) + tail);
  }

  lemma PrintMembersLayout(v: JsonValue, from: nat, indent: nat, tail: string) returns (s: string, z: string, y: string)
    requires v.JObject? && from < |v.members|
    ensures y == if from + 1 == |v.members| then tail else "," + (PrintMembers(v, from + 1, indent) + tail)
    ensures z == ": " + (Print(v.members[from].1, indent) + y)
    ensures s == "\"" + (EscapeString(v.members[from].0) + "\"" + z)
    ensures PrintMembers(v, from, indent) + tail == "\n" + Spaces(indent) + s
  {
    var ms := v.members;
    var key, p := ms[from].0, Print(ms[from].1, indent);
    var more := if from + 1 == |ms| then "" else "," + PrintMembers(v, from + 1, indent);
    y := more + tail;
    z := ": " + (p + y);
    s := "\"" + (EscapeString(key) + "\"" + z);
    var head := "\n" + Spaces(indent);
    assert PrintMembers(v, from, indent) == head + Quote(key) + ": " + p + more;
    Reassociate(head, Quote(key), ": ", p, more, tail);
    assert Quote(key) + (": " + (p + (more + tail))) == s;
  }

  lemma Reassociate(a: string, b: string, c: string, d: string, e: string, f: string)
    ensures a + b + c + d + e + f == a + (b + (c + (d + (e + f))))
  {
  }

  lemma MemberPieces(key: string, p: string, y: string, s: string, z: string)
    requires p != [] && StartsValue(p[0])
    requires z == ": " + (p + y)
    requires s == "\"" + (EscapeString(key) + "\"" + z)
    ensures s != [] && s[0] == '"' && s[1..] == EscapeString(key) + "\"" + z
    ensures z != [] && z[0] == ':' && SkipWhitespace(z) == z
    ensures SkipWhitespace(z[1..]) == p + y
  {
    assert z[1..] == " " + (p + y);
    assert (p + y)[0] == p[0];
  }

  lemma CommaFirst(x: string, y: string)
    requires y == "," + x
    ensures y != [] && y[0] == ',' && y[1..] == x && SkipWhitespace(y) == y
  {
  }

  lemma HeadTail<T>(s: seq<T>)
    requires s != []
    ensures [s[0]] + s[1..] == s
  {
  }

  lemma SliceHead<T>(s: seq<T>, i: nat)
    requires i < |s|
    ensures [s[i]] + s[i + 1..] == s[i..]
    ensures i + 1 == |s| ==> s[i..] == [s[i]]
  {
  }

  lemma {:induction false} ArrayRoundTrip(v: JsonValue, indent: nat, rest: string)
    requires v.JArray? && WellFormed(v) && Delimited(rest)
    ensures ParseValue(Print(v, indent) + rest) == Success(Parsed(v, rest))
    decreases v, 1
  {
    if v.items == [] {
      ParseEmptyContainers(rest);
    } else {
      var x, tail := PrintArrayLayout(v, indent, rest);
      SkipIndent(indent, "]" + rest);
      ItemsRoundTrip(v.items, indent + 2, tail, rest);
      ParseArrayStep(x, v.items, rest);
    }
  }

  lemma {:induction false} ObjectRoundTrip(v: JsonValue, indent: nat, rest: string)
    requires v.JObject? && WellFormed(v) && Delimited(rest)
    ensures ParseValue(Print(v, indent) + rest) == Success(Parsed(v, rest))
    decreases v, 1
  {
    var ms := v.members;
    if ms == [] {
      ParseEmptyContainers(rest);
    } else {
      var x, tail := PrintObjectLayout(v, indent, rest);
      SkipIndent(indent, "}" + rest);
      MembersRoundTrip(v, 0, indent + 2, tail, rest);
      assert ms[0..] == [] + ms;
      CollectDistinct([], ms);
      ParseObjectStep(x, ms, rest);
    }
  }

  /** The items printed one per line parse back, up to the closing bracket
      that `tail` supplies. */
  lemma {:induction false} ItemsRoundTrip(items: seq<JsonValue>, indent: nat, tail: string, rest: string)
    requires items != [] && Delimited(tail) && SkipWhitespace(tail) == "]" + rest && Delimited(rest)
    requires forall i :: 0 <= i < |items| ==> WellFormed(items[i])
    ensures var t := SkipWhitespace(PrintItems(items, indent) + tail);
      && t != [] && t[0] != ']'
      && ParseItems(t) == Success(Parsed(items, rest))
    decreases items, 0
  {
    var p := Print(items[0], indent);
    var y := PrintItemsLayout(items, indent, tail);
    PrintStart(items[0], indent);
    assert (p + y)[0] == p[0];
    SkipIndent(indent, p + y);
    ValueRoundTrip(items[0], indent, y);
    if |items| == 1 {
      ParseItemsLast(p + y, items[0], y, rest);
      assert [items[0]] == items;
    } else {
      var x := PrintItems(items[1..], indent) + tail;
      CommaFirst(x, y);
      ItemsRoundTrip(items[1..], indent, tail, rest);
      ParseItemsMore(p + y, items[0], y, items[1..], rest);
      HeadTail(items);
    }
  }

  /** Reading one printed member up to its value: the key and the colon. */
  lemma MemberHead(v: JsonValue, from: nat, indent: nat, tail: string) returns (s: string, z: string, y: string)
    requires v.JObject? && from < |v.members|
    ensures y == if from + 1 == |v.members| then tail else "," + (PrintMembers(v, from + 1, indent) + tail)
    ensures SkipWhitespace(PrintMembers(v, from, indent) + tail) == s
    ensures s != [] && s[0] == '"' && ParseStringBody(s[1..]) == Success(Parsed(v.members[from].0, z))
    ensures SkipWhitespace(z) == z && z != [] && z[0] == ':'
    ensures SkipWhitespace(z[1..]) == Print(v.members[from].1, indent) + y
  {
    var key, value := v.members[from].0, v.members[from].1;
    s, z, y := PrintMembersLayout(v, from, indent, tail);
    PrintStart(value, indent);
    MemberPieces(key, Print(value, indent), y, s, z);
    SkipIndent(indent, s);
    StringRoundTrip(key, z);
  }

  /** The members of `v` from `from` on, printed one per line, parse back as
      written, up to the closing brace that `tail` supplies. */
  lemma {:induction false} MembersRoundTrip(v: JsonValue, from: nat, indent: nat, tail: string, rest: string)
    requires v.JObject? && from < |v.members| && WellFormed(v)
    requires Delimited(tail) && SkipWhitespace(tail) == "}" + rest && Delimited(rest)
    ensures var t := SkipWhitespace(PrintMembers(v, from, indent) + tail);
      && t != [] && t[0] != '}'
      && ParseMembers(t) == Success(Parsed(v.members[from..], rest))
    decreases v, 0, |v.members| - from
  {
    var ms := v.members;
    var key, value := ms[from].0, ms[from].1;
    var s, z, y := MemberHead(v, from, indent, tail);
    assert WellFormed(value) && Delimited(y);
    ValueRoundTrip(value, indent, y);
    SliceHead(ms, from);
    if from + 1 == |ms| {
      ParseMembersLast(s, key, z, value, y, rest);
    } else {
      var x := PrintMembers(v, from + 1, indent) + tail;
      CommaFirst(x, y);
      MembersRoundTrip(v, from + 1, indent, tail, rest);
      ParseMembersMore(s, key, z, value, y, ms[from + 1..], rest);
    }
  }

  /** `JSON.parse(JSON.stringify(v, null, 2))` gives back `v`. */
  lemma StringifyThenParse(v: JsonValue)
    requires WellFormed(v)
    ensures Parse(Stringify(v)) == Success(v)
  {
    var s := Stringify(v);
    PrintStart(v, 0);
    assert s + [] == s;
    ValueRoundTrip(v, 0, []);
    ParseWholeValue(s, v);
  }

  lemma ParseWholeValue(s: string, v: JsonValue)
    requires s != [] && !IsWhitespace(s[0])
    requires ParseValue(s) == Success(Parsed(v, []))
    ensures Parse(s) == Success(v)
  {
  }

  // ---------------------------------------------------------------------------
  // Everything the parser returns is well formed
  // ---------------------------------------------------------------------------

  predicate AllWellFormed(items: seq<JsonValue>) {
    forall i :: 0 <= i < |items| ==> WellFormed(items[i])
  }

  predicate MembersWellFormed(ms: OMap<string, JsonValue>) {
    forall i :: 0 <= i < |ms| ==> WellFormed(ms[i].1)
  }

  /** `Put` keeps every value well formed when the new one is. */
  lemma PutWellFormed(m: OMap<string, JsonValue>, k: string, v: JsonValue)
    requires MembersWellFormed(m) && WellFormed(v)
    ensures MembersWellFormed(Put(m, k, v))
  {
    var r := Put(m, k, v);
    var i := IndexOf(m, k);
    forall j | 0 <= j < |r| ensures WellFormed(r[j].1) {
      if i < 0 {
        assert r[j] == (m + [(k, v)])[j];
      } else {
        assert r[j] == m[i := (k, v)][j];
      }
    }
  }

  /** Assigning members one after another yields a well-formed object. */
  lemma {:induction false} CollectWellFormed(acc: OMap<string, JsonValue>, ps: OMap<string, JsonValue>)
    requires DistinctKeys(acc) && MembersWellFormed(acc) && MembersWellFormed(ps)
    ensures WellFormed(JObject(Collect(acc, ps)))
    decreases |ps|
  {
    if ps != [] {
      var next := Put(acc, ps[0].0, ps[0].1);
      PutWellFormed(acc, ps[0].0, ps[0].1);
      assert MembersWellFormed(ps[1..]) by {
        forall j | 0 <= j < |ps| - 1 ensures WellFormed(ps[1..][j].1) {
          assert ps[1..][j] == ps[j + 1];
        }
      }
      CollectWellFormed(next, ps[1..]);
    }
  }

  lemma {:induction false} ParseValueWellFormed(s: string)
    ensures ParseValue(s).Success? ==> WellFormed(ParseValue(s).value.value)
    decreases |s|, 1
  {
    if s != [] && s[0] == '[' {
      ParseArrayWellFormed(s[1..]);
    } else if s != [] && s[0] == '{' {
      ParseObjectWellFormed(s[1..]);
    }
  }

  lemma {:induction false} ParseArrayWellFormed(s: string)
    ensures ParseArray(s).Success? ==> WellFormed(ParseArray(s).value.value)
    decreases |s|, 3
  {
    var t := SkipWhitespace(s);
    if !(t != [] && t[0] == ']') {
      ParseItemsWellFormed(t);
    }
  }

  lemma {:induction false} ParseItemsWellFormed(s: string)
    ensures ParseItems(s).Success? ==> AllWellFormed(ParseItems(s).value.value)
    decreases |s|, 2
  {
    var r := ParseItems(s);
    if r.Success? {
      ParseValueWellFormed(s);
      var v := ParseValue(s).value;
      var t := SkipWhitespace(v.rest);
      if t[0] == ',' {
        var more := SkipWhitespace(t[1..]);
        ParseItemsWellFormed(more);
        var tailItems := ParseItems(more).value.value;
        assert r.value.value == [v.value] + tailItems;
        forall j | 0 <= j < |r.value.value| ensures WellFormed(r.value.value[j]) {
          if j > 0 { assert r.value.value[j] == tailItems[j - 1]; }
        }
      }
    }
  }

  lemma {:induction false} ParseObjectWellFormed(s: string)
    ensures ParseObject(s).Success? ==> WellFormed(ParseObject(s).value.value)
    decreases |s|, 3
  {
    var t := SkipWhitespace(s);
    if !(t != [] && t[0] == '}') && ParseMembers(t).Success? {
      ParseMembersWellFormed(t);
      CollectWellFormed([], ParseMembers(t).value.value);
    }
  }

  lemma {:induction false} ParseMembersWellFormed(s: string)
    ensures ParseMembers(s).Success? ==> MembersWellFormed(ParseMembers(s).value.value)
    decreases |s|, 2
  {
    var r := ParseMembers(s);
    if r.Success? {
      var k := ParseStringBody(s[1..]).value;
      var t := SkipWhitespace(k.rest);
      var vs := SkipWhitespace(t[1..]);
      ParseValueWellFormed(vs);
      var v := ParseValue(vs).value;
      var u := SkipWhitespace(v.rest);
      if u[0] == ',' {
        var more := SkipWhitespace(u[1..]);
        ParseMembersWellFormed(more);
        var tailMembers := ParseMembers(more).value.value;
        assert r.value.value == [(k.value, v.value)] + tailMembers;
        forall j | 0 <= j < |r.value.value| ensures WellFormed(r.value.value[j].1) {
          if j > 0 { assert r.value.value[j] == tailMembers[j - 1]; }
        }
      }
    }
  }

  /** Whatever `JSON.parse` returns is a well-formed value. */
  lemma ParseWellFormed(s: string)
    ensures Parse(s).Success? ==> WellFormed(Parse(s).value)
  {
    ParseValueWellFormed(SkipWhitespace(s));
  }
}
