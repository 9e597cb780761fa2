/** JSON values as the layout code handles them (navigation states, request
    options, the operands of `Object.identical`), and `JSON.stringify`. */
module JsonValue {
  import opened Strings

  /** A JSON value. An object is the ordered list of its members, in the
      order JavaScript enumerates an object's own keys and so the order
      `JSON.stringify` writes them: keys that are array indices first, in
      ascending numeric order, then the other keys in insertion order
      (`{q: 1, "0": 2}` is written `{"0":2,"q":1}`). A `JObj` is taken to list
      its members in that order already. Numbers are integers. */
  datatype Json =
    | JNull
    | JBool(b: bool)
    | JNum(n: int)
    | JStr(s: string)
    | JArr(items: seq<Json>)
    | JObj(members: seq<(string, Json)>)

  /** The keys of an object, in member order. */
  function KeysOf(ms: seq<(string, Json)>): (ks: seq<string>)
    ensures |ks| == |ms|
    ensures forall i :: 0 <= i < |ms| ==> ks[i] == ms[i].0
  {
    seq(|ms|, i requires 0 <= i < |ms| => ms[i].0)
  }

  /** No key occurs twice: the members of a real JavaScript object. */
  predicate DistinctKeys(ms: seq<(string, Json)>) {
    forall i, j :: 0 <= i < j < |ms| ==> ms[i].0 != ms[j].0
  }

  /** The position of the member that `object[k]` reads. */
  function KeyIndex(ms: seq<(string, Json)>, k: string): (i: nat)
    requires k in KeysOf(ms)
    ensures i < |ms| && ms[i].0 == k
    ensures forall j :: 0 <= j < i ==> ms[j].0 != k
  {
    if ms[0].0 == k then 0
    else
      assert k in KeysOf(ms[1..]) by {
        var j :| 0 <= j < |ms| && KeysOf(ms)[j] == k;
        assert KeysOf(ms[1..])[j - 1] == k;
      }
      1 + KeyIndex(ms[1..], k)
  }

  /** In an object with distinct keys, `object[k]` is the value stored with `k`. */
  lemma KeyIndexOfMember(ms: seq<(string, Json)>, k: string, v: Json)
    requires DistinctKeys(ms) && (k, v) in ms
    ensures k in KeysOf(ms) && ms[KeyIndex(ms, k)].1 == v
  {
    var j :| 0 <= j < |ms| && ms[j] == (k, v);
    assert KeysOf(ms)[j] == k;
  }

  /** Every object inside the value has distinct keys. */
  predicate WellFormed(j: Json) {
    match j
    case JArr(xs) => forall i :: 0 <= i < |xs| ==> WellFormed(xs[i])
    case JObj(ms) => DistinctKeys(ms) && forall i :: 0 <= i < |ms| ==> WellFormed(ms[i].1)
    case _ => true
  }

  function HexDigit(d: nat): char
    requires d < 16
  {
    "0123456789abcdef"[d]
  }

  /** One character as it appears inside a JSON string literal. */
  function EscapeChar(c: char): (r: string)
    ensures r != [] && r[0] != '"'
  {
    if c == '"' then "\\\""
    else if c == '\\' then "\\\\"
    else if c == '\U{8}' then "\\b"
    else if c == '\U{C}' then "\\f"
    else if c == '\n' then "\\n"
    else if c == '\r' then "\\r"
    else if c == '\t' then "\\t"
    else if (c as int) < 0x20 then "\\u00" + [HexDigit((c as int) / 16), HexDigit((c as int) % 16)]
    else [c]
  }

  /** A string as a JSON string literal, quotes included. */
  function Quote(s: string): (r: string)
    ensures |r| >= 2 && r[0] == '"' && r[|r| - 1] == '"'
  {
    "\"" + EscapeBody(s) + "\""
  }

  function EscapeBody(s: string): string {
    if s == [] then "" else EscapeChar(s[0]) + EscapeBody(s[1..])
  }

  /** `JSON.stringify(j)` without indentation. */
  function Serialize(j: Json): (r: string)
    ensures r != []
    decreases j
  {
    match j
    case JNull => "null"
    case JBool(b) => if b then "true" else "false"
    case JNum(n) => IntToString(n)
    case JStr(s) => Quote(s)
    case JArr(xs) =>
      "[" + Join(seq(|xs|, i requires 0 <= i < |xs| => Serialize(xs[i])), ",") + "]"
    case JObj(ms) =>
      "{" + Join(seq(|ms|, i requires 0 <= i < |ms| => Quote(ms[i].0) + ":" + Serialize(ms[i].1)), ",") + "}"
  }

  /** `JSON.stringify` tells apart values of different kinds by their first
      character. */
  lemma SerializeFirstChar(j: Json)
    ensures j.JObj? <==> Serialize(j)[0] == '{'
    ensures j.JArr? <==> Serialize(j)[0] == '['
    ensures j.JStr? <==> Serialize(j)[0] == '"'
  {
    match j
    case JNum(n) =>
      if n < 0 {} else { assert '0' <= NatToString(n)[0] <= '9'; }
    case _ =>
  }
}
