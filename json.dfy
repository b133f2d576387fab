/** JSON values as the server produces them with `JSON.stringify`, the
    string-literal encoding that `JSON.stringify` applies to a string, and the
    decoding that `JSON.parse` applies to such a literal.

    Strings are sequences of Unicode scalar values, so the lone UTF-16
    surrogates that `JSON.stringify` escapes cannot occur. Numbers are
    integers, written in plain decimal notation; `JSON.stringify` writes a
    number of magnitude 10^21 or more in exponent form instead, and integers
    beyond 2^53 are not JavaScript numbers at all. */
module Json {
  import opened Base

  datatype Json =
    | JNull
    | JBool(b: bool)
    | JNum(n: int)
    | JStr(s: string)
    | JArr(items: seq<Json>)
    | JObj(members: seq<Member>)

  /** One key/value pair of an object, in the order the object was built. */
  datatype Member = Member(key: string, value: Json)

  // ----- string literals -------------------------------------------------

  const HexDigits: string := "0123456789abcdef"

  /** The escape `JSON.stringify` writes for one character: the two-character
      escapes for `"`, `\`, backspace, tab, line feed, form feed and carriage
      return, `\u00xx` with lower-case hex for the other control characters
      below U+0020, and the character itself otherwise. */
  function EscapeChar(c: char): (r: string)
    ensures |r| >= 1
    ensures (r == [c]) <==> (c != '"' && c != '\\' && c as int >= 0x20)
  {
    if c == '"' then "\\\""
    else if c == '\\' then "\\\\"
    else if c as int == 0x08 then "\\b"
    else if c as int == 0x09 then "\\t"
    else if c as int == 0x0A then "\\n"
    else if c as int == 0x0C then "\\f"
    else if c as int == 0x0D then "\\r"
    else if c as int < 0x20 then "\\u00" + [HexDigits[c as int / 16], HexDigits[c as int % 16]]
    else [c]
  }

  function Escape(s: string): string
  {
    if s == [] then "" else EscapeChar(s[0]) + Escape(s[1..])
  }

  /** `JSON.stringify(s)` for a string `s`. */
  function Quote(s: string): (r: string)
    ensures |r| >= 2 && r[0] == '"' && r[|r| - 1] == '"'
  {
    "\"" + Escape(s) + "\""
  }

  function HexValue(c: char): Option<nat>
  {
    if '0' <= c <= '9' then Some(c as int - '0' as int)
    else if 'a' <= c <= 'f' then Some(c as int - 'a' as int + 10)
    else if 'A' <= c <= 'F' then Some(c as int - 'A' as int + 10)
    else None
  }

  /** The code point named by the four hex digits of a `\uXXXX` escape, when it
      denotes a Unicode scalar value. */
  function Hex4(h: string): (r: Option<char>)
    requires |h| == 4
  {
    match (HexValue(h[0]), HexValue(h[1]), HexValue(h[2]), HexValue(h[3]))
    case (Some(a), Some(b), Some(c), Some(d)) =>
      var v := a * 4096 + b * 256 + c * 16 + d;
      if v < 0xD800 || 0xE000 <= v then Some(v as char) else None
    case _ => None
  }

  /** Decodes the characters between the quotes of a JSON string literal, or
      `None` when they are not a well-formed literal body. Surrogate escapes
      are refused because the model's characters are scalar values. */
  function Unescape(s: string): Option<string>
    decreases |s|
  {
    if s == [] then Some("")
    else if s[0] == '\\' then
      if |s| < 2 then None
      else
        var d: Option<(char, nat)> :=
          if s[1] == '"' then Some(('"', 2))
          else if s[1] == '\\' then Some(('\\', 2))
          else if s[1] == '/' then Some(('/', 2))
          else if s[1] == 'b' then Some((0x08 as char, 2))
          else if s[1] == 't' then Some((0x09 as char, 2))
          else if s[1] == 'n' then Some((0x0A as char, 2))
          else if s[1] == 'f' then Some((0x0C as char, 2))
          else if s[1] == 'r' then Some((0x0D as char, 2))
          else if s[1] == 'u' && |s| >= 6 then
            (match Hex4(s[2..6]) case Some(c) => Some((c, 6)) case None => None)
          else None;
        match d
        case None => None
        case Some((c, n)) =>
          match Unescape(s[n..])
          case None => None
          case Some(rest) => Some([c] + rest)
    else if s[0] == '"' || s[0] as int < 0x20 then None
    else
      match Unescape(s[1..])
      case None => None
      case Some(rest) => Some([s[0]] + rest)
  }

  /** `JSON.parse` of a string literal. */
  function Unquote(q: string): Option<string>
  {
    if |q| >= 2 && q[0] == '"' && q[|q| - 1] == '"' then Unescape(q[1..|q| - 1]) else None
  }

  lemma HexDigitValue(n: nat)
    requires n < 16
    ensures HexValue(HexDigits[n]) == Some(n)
  {
  }

  lemma {:induction false} UnescapeCons(c: char, t: string)
    ensures Unescape(EscapeChar(c) + t)
         == match Unescape(t) case None => None case Some(u) => Some([c] + u)
  {
    var e := EscapeChar(c);
    var s := e + t;
    assert s[|e|..] == t;
    if c != '"' && c != '\\' && c as int < 0x20 && c as int !in {0x08, 0x09, 0x0A, 0x0C, 0x0D} {
      var n := c as int;
      HexDigitValue(n / 16);
      HexDigitValue(n % 16);
      assert s[2..6] == "00" + [HexDigits[n / 16], HexDigits[n % 16]];
      assert Hex4(s[2..6]) == Some(c);
    }
  }

  lemma {:induction false} UnescapeEscape(s: string)
    ensures Unescape(Escape(s)) == Some(s)
  {
    if s != [] {
      UnescapeEscape(s[1..]);
      UnescapeCons(s[0], Escape(s[1..]));
      assert [s[0]] + s[1..] == s;
    }
  }

  /** `JSON.parse` undoes `JSON.stringify` on every string. */
  lemma QuoteRoundTrip(s: string)
    ensures Unquote(Quote(s)) == Some(s)
  {
    var q := Quote(s);
    assert q[1..|q| - 1] == Escape(s);
    UnescapeEscape(s);
  }

  /** A string with no character that needs escaping is quoted as itself. */
  lemma {:induction false} EscapePlain(s: string)
    requires forall i :: 0 <= i < |s| ==> s[i] != '"' && s[i] != '\\' && s[i] as int >= 0x20
    ensures Escape(s) == s
  {
    if s != [] {
      EscapePlain(s[1..]);
      assert [s[0]] + s[1..] == s;
    }
  }

  // ----- values ----------------------------------------------------------

  function NatToString(n: nat): (r: string)
    ensures |r| >= 1
    ensures forall i :: 0 <= i < |r| ==> '0' <= r[i] <= '9'
  {
    if n < 10 then [HexDigits[n]] else NatToString(n / 10) + [HexDigits[n % 10]]
  }

  /** The plain decimal notation of an integer, which is what
      `JSON.stringify` and `String` give a JavaScript integer of magnitude
      below 10^21. */
  function IntToString(n: int): string
  {
    if n < 0 then "-" + NatToString(-n) else NatToString(n)
  }

  /** `JSON.stringify(j)`, members in the order given. */
  function Stringify(j: Json): string
    decreases j, 1
  {
    match j
    case JNull => "null"
    case JBool(b) => if b then "true" else "false"
    case JNum(n) => IntToString(n)
    case JStr(s) => Quote(s)
    case JArr(items) => "[" + StringifyItems(items, j) + "]"
    case JObj(ms) => "{" + StringifyMembers(ms, j) + "}"
  }

  /** The elements of an array, comma-separated. */
  function StringifyItems(items: seq<Json>, ghost parent: Json): string
    requires forall i :: 0 <= i < |items| ==> items[i] < parent
    decreases parent, 0, |items|
  {
    if items == [] then ""
    else Stringify(items[0]) + (if |items| == 1 then "" else "," + StringifyItems(items[1..], parent))
  }

  /** The members of an object as `"key":value`, comma-separated. */
  function StringifyMembers(ms: seq<Member>, ghost parent: Json): string
    requires forall i :: 0 <= i < |ms| ==> ms[i] < parent
    decreases parent, 0, |ms|
  {
    if ms == [] then ""
    else
      Quote(ms[0].key) + ":" + Stringify(ms[0].value)
      + (if |ms| == 1 then "" else "," + StringifyMembers(ms[1..], parent))
  }

  /** An object with at least two members is written as its first member, a
      comma and the rest. */
  lemma ObjectHead(ms: seq<Member>, j: Json)
    requires j == JObj(ms) && |ms| >= 2
    ensures Stringify(j)
         == "{" + (Quote(ms[0].key) + ":" + Stringify(ms[0].value)) + ("," + StringifyMembers(ms[1..], j) + "}")
  {
  }

  /** JavaScript's `String(v)` of a parsed JSON value, which is the key the
      `in` operator and property access use. */
  function ToJsString(j: Json): string
    decreases j
  {
    match j
    case JNull => "null"
    case JBool(b) => if b then "true" else "false"
    case JNum(n) => IntToString(n)
    case JStr(s) => s
    case JArr(items) =>
      Join(seq(|items|, i requires 0 <= i < |items| =>
        if items[i].JNull? then "" else ToJsString(items[i])), ",")
    case JObj(_) => "[object Object]"
  }

  /** The value `JSON.parse` gives property `key` of an object: the last member
      with that key, `None` when there is none or the value is no object. */
  function Property(j: Json, key: string): Option<Json>
  {
    match j
    case JObj(ms) => LastMember(ms, key)
    case _ => None
  }

  function LastMember(ms: seq<Member>, key: string): (r: Option<Json>)
    ensures r.Some? <==> exists i :: 0 <= i < |ms| && ms[i].key == key
  {
    if ms == [] then None
    else if ms[|ms| - 1].key == key then Some(ms[|ms| - 1].value)
    else LastMember(ms[..|ms| - 1], key)
  }
}
