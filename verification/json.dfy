/** JSON values as the dashboard sees them (event payloads, response bodies)
    and `JSON.stringify` without indentation. */
module Json {
  import opened Numbers
  import opened Wrappers
  import opened Text

  /** A JSON value. Numbers are integers; object members keep their order. */
  datatype Json =
    | JNull
    | JBool(b: bool)
    | JNumber(n: int)
    | JString(s: string)
    | JArray(items: seq<Json>)
    | JObject(fields: seq<(string, Json)>)

  function HexDigit(d: int): char
    requires 0 <= d < 16
  {
    if d < 10 then ('0' as int + d) as char else ('a' as int + d - 10) as char
  }

  /** How `JSON.stringify` writes one character inside a string literal. */
  function EscapeChar(c: char): (r: string)
    ensures |r| > 0
    ensures c != '"' && c != '\\' && c >= ' ' ==> r == [c]
  {
    if c == '"' then "\\\""
    else if c == '\\' then "\\\\"
    else if c == '\n' then "\\n"
    else if c == '\r' then "\\r"
    else if c == '\t' then "\\t"
    else if c == '\U{0008}' then "\\b"
    else if c == '\U{000C}' then "\\f"
    else if c < ' ' then "\\u00" + [HexDigit(c as int / 16), HexDigit(c as int % 16)]
    else [c]
  }

  function EscapeString(s: string): (r: string)
    ensures |r| >= |s|
  {
    if |s| == 0 then "" else EscapeChar(s[0]) + EscapeString(s[1..])
  }

  /** A string literal: quoted and escaped. */
  function Quote(s: string): (r: string)
    ensures |r| >= 2 && r[0] == '"' && r[|r| - 1] == '"'
  {
    "\"" + EscapeString(s) + "\""
  }

  /** `JSON.stringify(j)`. */
  function Serialize(j: Json): (r: string)
    ensures |r| > 0
    decreases j
  {
    match j
    case JNull => "null"
    case JBool(b) => if b then "true" else "false"
    case JNumber(n) => IntToString(n)
    case JString(s) => Quote(s)
    case JArray(items) =>
      "[" + Join(seq(|items|, i requires 0 <= i < |items| => Serialize(items[i])), ",") + "]"
    case JObject(fields) =>
      "{" + Join(seq(|fields|, i requires 0 <= i < |fields| =>
                       assert fields[i] in fields;
                       Quote(fields[i].0) + ":" + Serialize(fields[i].1)), ",") + "}"
  }

  /** The value of member `name` in an object (the last one wins, as in
      `JSON.parse`); absent for other values. */
  function Member(j: Json, name: string): (r: Option<Json>)
    ensures r.Some? ==> j.JObject?
  {
    match j
    case JObject(fields) => LastMember(fields, name)
    case _ => None
  }

  function LastMember(fields: seq<(string, Json)>, name: string): (r: Option<Json>)
    ensures r.Some? <==> exists i :: 0 <= i < |fields| && fields[i].0 == name
  {
    if |fields| == 0 then None
    else if fields[|fields| - 1].0 == name then Some(fields[|fields| - 1].1)
    else LastMember(fields[..|fields| - 1], name)
  }

  /** Looking a member up in two concatenated member lists: the later list wins. */
  lemma {:induction false} LastMemberAppend(a: seq<(string, Json)>, b: seq<(string, Json)>, name: string)
    ensures LastMember(a + b, name) == if LastMember(b, name).Some? then LastMember(b, name) else LastMember(a, name)
    decreases |b|
  {
    if |b| == 0 {
      assert a + b == a;
    } else {
      assert (a + b)[..|a + b| - 1] == a + b[..|b| - 1];
      LastMemberAppend(a, b[..|b| - 1], name);
    }
  }

  /** `String(v)` for a JSON value. */
  function ToJsString(j: Json): string
    decreases j
  {
    match j
    case JNull => "null"
    case JBool(b) => if b then "true" else "false"
    case JNumber(n) => IntToString(n)
    case JString(s) => s
    case JArray(items) =>
      Join(seq(|items|, i requires 0 <= i < |items| =>
                 if items[i].JNull? then "" else ToJsString(items[i])), ",")
    case JObject(_) => "[object Object]"
  }
}
