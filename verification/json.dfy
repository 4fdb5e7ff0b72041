/**
 * JSON values as the two processes exchange them: what `JSON.stringify`
 * produces on the Electron side, and how JavaScript reads a property of a
 * parsed value. Parsing text into a value is not modelled here: every module
 * that parses takes the parser as a parameter.
 */
module Json {
  import opened Base
  import Text

  /** A JSON value. Numbers are integers: no handler computes with fractions. */
  datatype Value =
    | Null
    | Bool(b: bool)
    | Num(n: int)
    | Str(s: string)
    | Arr(elems: seq<Value>)
    | Obj(members: seq<Member>)

  /** One `key: value` member of an object, in insertion order. */
  datatype Member = Member(key: string, value: Value)

  /** Property access `v[key]`; with duplicate keys the last one wins, as in `JSON.parse`. */
  function Get(v: Value, key: string): (r: Option<Value>)
    ensures r.Some? ==> v.Obj? && exists i :: 0 <= i < |v.members| && v.members[i] == Member(key, r.value)
    ensures v.Obj? && (exists i :: 0 <= i < |v.members| && v.members[i].key == key) ==> r.Some?
  {
    if v.Obj? then LastWithKey(v.members, key) else None
  }

  function LastWithKey(ms: seq<Member>, key: string): (r: Option<Value>)
    ensures r.Some? ==> exists i :: 0 <= i < |ms| && ms[i] == Member(key, r.value)
    ensures (exists i :: 0 <= i < |ms| && ms[i].key == key) ==> r.Some?
  {
    if |ms| == 0 then None
    else if ms[|ms| - 1].key == key then Some(ms[|ms| - 1].value)
    else
      var r := LastWithKey(ms[..|ms| - 1], key);
      assert forall i :: 0 <= i < |ms| - 1 ==> ms[..|ms| - 1][i] == ms[i];
      r
  }

  /**
   * JavaScript truthiness of a property that may be missing (`undefined`):
   * `undefined`, `null`, `false`, `0` and `""` are falsy, everything else is truthy.
   */
  predicate Truthy(v: Option<Value>) {
    match v
    case None => false
    case Some(Null) => false
    case Some(Bool(b)) => b
    case Some(Num(n)) => n != 0
    case Some(Str(s)) => s != ""
    case Some(Arr(_)) => true
    case Some(Obj(_)) => true
  }

  // ---------------------------------------------------------------------------
  // JSON.stringify

  function HexDigit(d: nat): (c: char)
    requires d < 16
  {
    "0123456789abcdef"[d]
  }

  /** How `JSON.stringify` writes one character inside a string literal. */
  function EscapeChar(c: char): (r: string)
    ensures |r| >= 1
    ensures r[0] != '"'
    ensures (c == '"' || c == '\\' || c < ' ') <==> |r| > 1
  {
    if c == '"' then "\\\""
    else if c == '\\' then "\\\\"
    else if c == '\U{8}' then "\\b"
    else if c == '\U{C}' then "\\f"
    else if c == '\n' then "\\n"
    else if c == '\r' then "\\r"
    else if c == '\t' then "\\t"
    else if c < ' ' then "\\u00" + [HexDigit(c as int / 16), HexDigit(c as int % 16)]
    else [c]
  }

  function EscapeString(s: string): string {
    if |s| == 0 then "" else EscapeChar(s[0]) + EscapeString(s[1..])
  }

  /** A string literal: the escaped characters between double quotes. */
  function Quote(s: string): (r: string)
    ensures |r| >= 2 && r[0] == '"' && r[|r| - 1] == '"'
  {
    "\"" + EscapeString(s) + "\""
  }

  /** Concatenates `parts` with `sep` between neighbours. */
  function Join(parts: seq<string>, sep: string): string {
    if |parts| == 0 then ""
    else if |parts| == 1 then parts[0]
    else parts[0] + sep + Join(parts[1..], sep)
  }

  /**
   * `JSON.stringify(v)` without indentation. The first character tells the
   * kind of value, which is what the worker's argument parser looks at.
   */
  function Stringify(v: Value): (r: string)
    ensures |r| > 0
    ensures v.Bool? ==> r == (if v.b then "true" else "false")
    ensures v.Str? ==> r[0] == '"'
    ensures v.Arr? ==> r[0] == '['
    ensures v.Obj? ==> r[0] == '{'
    ensures r[0] == '-' <==> v.Num? && v.n < 0
  {
    match v
    case Null => "null"
    case Bool(b) => if b then "true" else "false"
    case Num(n) => Text.IntToString(n)
    case Str(s) => Quote(s)
    case Arr(es) =>
      "[" + Join(seq(|es|, i requires 0 <= i < |es| => Stringify(es[i])), ",") + "]"
    case Obj(ms) =>
      "{" + Join(seq(|ms|, i requires 0 <= i < |ms| => Quote(ms[i].key) + ":" + Stringify(ms[i].value)), ",") + "}"
  }

  /** A list of strings as a JSON array value. */
  function StringArray(items: seq<string>): (r: Value)
    ensures r.Arr? && |r.elems| == |items|
    ensures forall i :: 0 <= i < |items| ==> r.elems[i] == Str(items[i])
  {
    Arr(seq(|items|, i requires 0 <= i < |items| => Str(items[i])))
  }

  /** `{ key: value, ... }` built from a list of pairs. */
  function Object(pairs: seq<(string, Value)>): (r: Value)
    ensures r.Obj? && |r.members| == |pairs|
  {
    Obj(seq(|pairs|, i requires 0 <= i < |pairs| => Member(pairs[i].0, pairs[i].1)))
  }
}
