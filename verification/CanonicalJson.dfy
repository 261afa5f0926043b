/**
The JSON text that src/llm_judge.rs hashes: object keys sorted, ", " between items and
": " behind keys, strings escaped as serde_json escapes them.

Beside the printer stands a reader of the same format. JsonRoundTrip proves that the reader
recovers every printed value, JsonMeaning that equal texts therefore mean equal values.
*/
module CanonicalJson {
  import opened Common
  import opened Text

  /** A value as parsed: an object lists its fields in any order, a number keeps its text. */
  datatype Json =
    | Null
    | Bool(b: bool)
    | Number(text: string)
    | String(s: string)
    | Array(items: seq<Json>)
    | Object(fields: seq<Field<Json>>)

  datatype Field<T> = Field(key: string, value: T)

  // ---------- strings ----------

  function HexDigit(n: nat): char
    requires n < 16
  {
    if n < 10 then '0' + n as char else 'a' + (n - 10) as char
  }

  function HexValue(c: char): Option<nat> {
    if '0' <= c <= '9' then Some((c - '0') as nat)
    else if 'a' <= c <= 'f' then Some(10 + (c - 'a') as nat)
    else None
  }

  /** The characters with an escape of two characters in section 7 of RFC 8259. */
  function ShortEscape(c: char): Option<char> {
    if c == '"' || c == '\\' then Some(c)
    else if c as int == 8 then Some('b')
    else if c == '\t' then Some('t')
    else if c == '\n' then Some('n')
    else if c as int == 12 then Some('f')
    else if c == '\r' then Some('r')
    else None
  }

  function EscapeChar(c: char): string {
    if ShortEscape(c).Some? then ['\\', ShortEscape(c).value]
    else if c as int < 32 then ['\\', 'u', '0', '0', HexDigit(c as int / 16), HexDigit(c as int % 16)]
    else [c]
  }

  function Escape(s: string): string {
    if s == [] then "" else EscapeChar(s[0]) + Escape(s[1..])
  }

  function Quoted(s: string): string {
    "\"" + Escape(s) + "\""
  }

  // ---------- printing ----------

  function InsertField<T>(f: Field<T>, fields: seq<Field<T>>): seq<Field<T>> {
    if fields == [] || Before(f.key, fields[0].key) then [f] + fields
    else [fields[0]] + InsertField(f, fields[1..])
  }

  /** The fields in the order of their keys. */
  function SortFields<T>(fields: seq<Field<T>>): seq<Field<T>> {
    if fields == [] then [] else InsertField(fields[0], SortFields(fields[1..]))
  }

  function FieldTexts(fields: seq<Field<string>>): (r: seq<string>)
    ensures |r| == |fields|
  {
    if fields == [] then []
    else [Quoted(fields[0].key) + ": " + fields[0].value] + FieldTexts(fields[1..])
  }

  function Print(v: Json): string
    decreases v
  {
    match v
    case Null => "null"
    case Bool(b) => if b then "true" else "false"
    case Number(text) => text
    case String(s) => Quoted(s)
    case Array(items) => "[" + Join(PrintAll(items), ", ") + "]"
    case Object(fields) => "{" + Join(FieldTexts(SortFields(PrintFields(fields))), ", ") + "}"
  }

  function PrintAll(items: seq<Json>): (r: seq<string>)
    ensures |r| == |items|
    decreases items
  {
    if items == [] then [] else [Print(items[0])] + PrintAll(items[1..])
  }

  function PrintFields(fields: seq<Field<Json>>): (r: seq<Field<string>>)
    ensures |r| == |fields|
    decreases fields
  {
    if fields == [] then [] else [Field(fields[0].key, Print(fields[0].value))] + PrintFields(fields[1..])
  }

  // ---------- reading ----------

  /** A string literal behind its opening quote. */
  function ReadString(s: string): (r: Option<(string, string)>)
    ensures r.Some? ==> |r.value.1| < |s|
  {
    if s == [] then None
    else if s[0] == '"' then Some(("", s[1..]))
    else if s[0] != '\\' then Prepend(s[0], ReadString(s[1..]))
    else if |s| >= 2 && Unescape(s[1]).Some? then Prepend(Unescape(s[1]).value, ReadString(s[2..]))
    else if |s| >= 6 && s[1..4] == "u00" && HexValue(s[4]).Some? && HexValue(s[5]).Some? then
      Prepend((16 * HexValue(s[4]).value + HexValue(s[5]).value) as char, ReadString(s[6..]))
    else None
  }

  function Prepend(c: char, r: Option<(string, string)>): Option<(string, string)> {
    if r.Some? then Some(([c] + r.value.0, r.value.1)) else None
  }

  function Unescape(c: char): Option<char> {
    match c
    case '"' => Some('"')
    case '\\' => Some('\\')
    case 'b' => Some(8 as char)
    case 't' => Some('\t')
    case 'n' => Some('\n')
    case 'f' => Some(12 as char)
    case 'r' => Some('\r')
    case _ => None
  }

  predicate IsNumberChar(c: char) {
    '0' <= c <= '9' || c == '-' || c == '+' || c == '.' || c == 'e' || c == 'E'
  }

  predicate StartsNumber(s: string) {
    s != [] && ('0' <= s[0] <= '9' || s[0] == '-')
  }

  function NumberLength(s: string): (n: nat)
    ensures n <= |s|
    ensures s != [] && IsNumberChar(s[0]) ==> n > 0
  {
    if s != [] && IsNumberChar(s[0]) then 1 + NumberLength(s[1..]) else 0
  }

  /** A value at the front of the text, and what follows it. */
  function ReadValue(s: string): (r: Option<(Json, string)>)
    ensures r.Some? ==> |r.value.1| < |s|
    decreases |s|, 0
  {
    if "null" <= s then Some((Null, s[4..]))
    else if "true" <= s then Some((Bool(true), s[4..]))
    else if "false" <= s then Some((Bool(false), s[5..]))
    else if StartsNumber(s) then Some((Number(s[..NumberLength(s)]), s[NumberLength(s)..]))
    else if s == [] then None
    else if s[0] == '"' then
      var r := ReadString(s[1..]);
      if r.Some? then Some((String(r.value.0), r.value.1)) else None
    else if "[]" <= s then Some((Array([]), s[2..]))
    else if s[0] == '[' then
      var r := ReadItems(s[1..]);
      if r.Some? then Some((Array(r.value.0), r.value.1)) else None
    else if "{}" <= s then Some((Object([]), s[2..]))
    else if s[0] == '{' then
      var r := ReadFields(s[1..]);
      if r.Some? then Some((Object(r.value.0), r.value.1)) else None
    else None
  }

  /** One item or more, up to the closing bracket. */
  function ReadItems(s: string): (r: Option<(seq<Json>, string)>)
    ensures r.Some? ==> |r.value.1| < |s|
    decreases |s|, 1
  {
    var first := ReadValue(s);
    if first.None? then None
    else if "]" <= first.value.1 then Some(([first.value.0], first.value.1[1..]))
    else if ", " <= first.value.1 then
      var others := ReadItems(first.value.1[2..]);
      if others.Some? then Some(([first.value.0] + others.value.0, others.value.1)) else None
    else None
  }

  /** One field or more, up to the closing brace. */
  function ReadFields(s: string): (r: Option<(seq<Field<Json>>, string)>)
    ensures r.Some? ==> |r.value.1| < |s|
    decreases |s|, 1
  {
    if s == [] || s[0] != '"' then None
    else
      var key := ReadString(s[1..]);
      if key.None? || !(": " <= key.value.1) then None
      else
        var first := ReadValue(key.value.1[2..]);
        if first.None? then None
        else if "}" <= first.value.1 then Some(([Field(key.value.0, first.value.0)], first.value.1[1..]))
        else if ", " <= first.value.1 then
          var others := ReadFields(first.value.1[2..]);
          if others.Some? then Some(([Field(key.value.0, first.value.0)] + others.value.0, others.value.1)) else None
        else None
  }

  function Decode(text: string): Option<Json> {
    var r := ReadValue(text);
    if r.Some? && r.value.1 == [] then Some(r.value.0) else None
  }

  // ---------- reading back a string ----------

  lemma HexReadsBack(n: nat)
    requires n < 16
    ensures HexValue(HexDigit(n)) == Some(n)
  {
  }

  lemma ShortReadsBack(c: char, rest: string)
    requires ShortEscape(c).Some?
    ensures ReadString(['\\', ShortEscape(c).value] + rest) == Prepend(c, ReadString(rest))
  {
    var s := ['\\', ShortEscape(c).value] + rest;
    assert s[2..] == rest && s[1] == ShortEscape(c).value;
    assert Unescape(s[1]) == Some(c);
  }

  lemma HexEscapeReadsBack(c: char, h: char, l: char, rest: string)
    requires HexValue(h).Some? && HexValue(l).Some? && 16 * HexValue(h).value + HexValue(l).value == c as int
    ensures ReadString(['\\', 'u', '0', '0', h, l] + rest) == Prepend(c, ReadString(rest))
  {
    var s := ['\\', 'u', '0', '0', h, l] + rest;
    assert s[6..] == rest && s[1] == 'u' && s[4] == h && s[5] == l;
    assert s[1..4] == "u00";
  }

  lemma CharReadsBack(c: char, rest: string)
    ensures ReadString(EscapeChar(c) + rest) == Prepend(c, ReadString(rest))
  {
    if ShortEscape(c).Some? {
      ShortReadsBack(c, rest);
    } else if c as int < 32 {
      HexReadsBack(c as int / 16);
      HexReadsBack(c as int % 16);
      HexEscapeReadsBack(c, HexDigit(c as int / 16), HexDigit(c as int % 16), rest);
    } else {
      assert ([c] + rest)[1..] == rest;
    }
  }

  lemma {:induction false} EscapedReadsBack(s: string, rest: string)
    ensures ReadString(Escape(s) + ("\"" + rest)) == Some((s, rest))
  {
    if s == [] {
      assert Escape(s) + ("\"" + rest) == "\"" + rest;
      assert ("\"" + rest)[1..] == rest;
    } else {
      var tail := Escape(s[1..]) + ("\"" + rest);
      assert Escape(s) + ("\"" + rest) == EscapeChar(s[0]) + tail;
      CharReadsBack(s[0], tail);
      EscapedReadsBack(s[1..], rest);
      assert [s[0]] + s[1..] == s;
    }
  }
}
