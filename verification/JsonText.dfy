/**
The canonical text of src/llm_judge.rs, piece by piece: brackets, separators, escapes, key order.
*/
module JsonText {
  import opened Common
  import opened Text
  import opened TextMeaning
  import opened CanonicalJson
  import opened JsonRoundTrip
  import opened JsonMeaning

  // ---------- strings ----------

  lemma EscapeCharIs(c: char)
    ensures EscapeChar(c) ==
      if c == '"' then "\\\"" else if c == '\\' then "\\\\"
      else if c as int == 8 then "\\b" else if c as int == 9 then "\\t" else if c as int == 10 then "\\n"
      else if c as int == 12 then "\\f" else if c as int == 13 then "\\r"
      else if c as int < 32 then
        ['\\', 'u', '0', '0', if c as int < 16 then '0' else '1', "0123456789abcdef"[c as int % 16]]
      else [c]
  {
    if c as int < 32 {
      HexDigitIs(c as int / 16);
      HexDigitIs(c as int % 16);
    }
  }

  /** A string is its characters between quotes, those escaped that serde_json escapes. */
  lemma PrintsStrings(c: char, s: string)
    ensures Print(String("")) == "\"\""
    ensures var escaped :=
        if c == '"' then "\\\"" else if c == '\\' then "\\\\"
        else if c as int == 8 then "\\b" else if c as int == 9 then "\\t" else if c as int == 10 then "\\n"
        else if c as int == 12 then "\\f" else if c as int == 13 then "\\r"
        else if c as int < 32 then
          ['\\', 'u', '0', '0', if c as int < 16 then '0' else '1', "0123456789abcdef"[c as int % 16]]
        else [c];
      Print(String([c] + s)) == "\"" + escaped + Print(String(s))[1..]
  {
    EscapeCharIs(c);
    CharThenString(c, s);
  }

  lemma CharThenString(c: char, s: string)
    ensures Print(String([c] + s)) == "\"" + EscapeChar(c) + Print(String(s))[1..]
  {
    assert ([c] + s)[1..] == s;
    assert ("\"" + Escape(s) + "\"")[1..] == Escape(s) + "\"";
  }

  lemma HexDigitIs(n: nat)
    requires n < 16
    ensures HexDigit(n) == "0123456789abcdef"[n]
  {
  }

  // ---------- words, arrays ----------

  lemma PrintsWords(text: string)
    ensures Print(Null) == "null" && Print(Bool(true)) == "true" && Print(Bool(false)) == "false"
    ensures Print(Number(text)) == text
  {
  }

  /** Items stand between brackets, with a comma and a blank between them. */
  lemma PrintsArrays(first: Json, others: seq<Json>)
    ensures Print(Array([])) == "[]" && Print(Array([first])) == "[" + Print(first) + "]"
    ensures others != [] ==>
      Print(Array([first] + others)) == "[" + Print(first) + ", " + Print(Array(others))[1..]
  {
    ItemsInParts([first] + others);
    assert ([first] + others)[1..] == others;
    OneItem(first);
    if others != [] {
      JoinFirst(Print(first), PrintAll(others), ", ");
      assert Print(Array(others))[1..] == Join(PrintAll(others), ", ") + "]";
    }
  }

  /** Which values the laws are about: a number is a text of digits, signs, points and e's that
      starts with a digit or a minus sign, and an object has no key twice. */
  lemma WellFormedMeans(text: string, items: seq<Json>, fields: seq<Field<Json>>)
    ensures WellFormed(Null) && WellFormed(Bool(true)) && WellFormed(Bool(false)) && WellFormed(String(text))
    ensures WellFormed(Number(text)) <==>
      && text != [] && ('0' <= text[0] <= '9' || text[0] == '-')
      && forall i :: 0 <= i < |text| ==>
           || '0' <= text[i] <= '9' || text[i] == '-' || text[i] == '+' || text[i] == '.'
           || text[i] == 'e' || text[i] == 'E'
    ensures WellFormed(Array(items)) <==> forall i :: 0 <= i < |items| ==> WellFormed(items[i])
    ensures WellFormed(Object(fields)) <==>
      && (forall i, j :: 0 <= i < j < |fields| ==> fields[i].key != fields[j].key)
      && forall i :: 0 <= i < |fields| ==> WellFormed(fields[i].value)
  {
  }

  // ---------- objects ----------

  /** The keys are in dictionary order. */
  ghost predicate KeysGoUp(fields: seq<Field<Json>>) {
    forall i, j :: 0 <= i < j < |fields| ==> GoesBefore(fields[i].key, fields[j].key)
  }

  lemma KeysGoUpIffSorted(fields: seq<Field<Json>>)
    ensures KeysGoUp(fields) <==> StrictlySorted(fields)
  {
    forall i, j | 0 <= i < j < |fields|
      ensures Before(fields[i].key, fields[j].key) <==> GoesBefore(fields[i].key, fields[j].key)
    {
      BeforeMeans(fields[i].key, fields[j].key);
    }
  }

  lemma SortedFieldTexts(fields: seq<Field<Json>>)
    requires StrictlySorted(fields)
    ensures Print(Object(fields)) == "{" + Join(FieldTexts(PrintFields(fields)), ", ") + "}"
  {
    SortThenPrint(fields);
    SortOfSorted(fields);
  }

  lemma OneFieldPrints(first: Field<Json>)
    ensures Print(Object([])) == "{}"
    ensures Print(Object([first])) == "{" + Print(String(first.key)) + ": " + Print(first.value) + "}"
  {
    SortedFieldTexts([first]);
    OneField(first);
  }

  /** Behind the first field the text goes on as that of the other fields does. */
  lemma MoreFieldTexts(first: Field<Json>, others: seq<Field<Json>>)
    requires others != []
    ensures Join(FieldTexts(PrintFields([first] + others)), ", ")
      == Quoted(first.key) + ": " + Print(first.value) + ", " + Join(FieldTexts(PrintFields(others)), ", ")
  {
    FieldsInParts([first] + others);
    assert ([first] + others)[1..] == others;
    JoinFirst(Quoted(first.key) + ": " + Print(first.value), FieldTexts(PrintFields(others)), ", ");
  }

  lemma TailIsSorted(first: Field<Json>, others: seq<Field<Json>>)
    requires StrictlySorted([first] + others)
    ensures StrictlySorted(others)
  {
    assert forall i :: 0 <= i < |others| ==> others[i] == ([first] + others)[i + 1];
  }

  /** Fields in key order stand between braces, each as its quoted key, a colon and a blank,
      and its value, with a comma and a blank between them. */
  lemma PrintsObjects(first: Field<Json>, others: seq<Field<Json>>)
    requires KeysGoUp([first] + others)
    ensures Print(Object([])) == "{}"
    ensures Print(Object([first])) == "{" + Print(String(first.key)) + ": " + Print(first.value) + "}"
    ensures others != [] ==>
      Print(Object([first] + others)) ==
        "{" + Print(String(first.key)) + ": " + Print(first.value) + ", " + Print(Object(others))[1..]
  {
    OneFieldPrints(first);
    if others != [] {
      KeysGoUpIffSorted([first] + others);
      TailIsSorted(first, others);
      SortedFieldTexts(others);
      SortedFieldTexts([first] + others);
      MoreFieldTexts(first, others);
      Regrouped(Print(String(first.key)), Print(first.value), Join(FieldTexts(PrintFields(others)), ", "));
    }
  }

  lemma Regrouped(key: string, value: string, inner: string)
    ensures "{" + (key + ": " + value + ", " + inner) + "}" ==
      "{" + key + ": " + value + ", " + ("{" + inner + "}")[1..]
  {
    assert ("{" + inner + "}")[1..] == inner + "}";
  }

  // ---------- key order at every depth ----------

  ghost predicate AllKeysGoUp(v: Json)
    decreases v
  {
    match v
    case Array(items) => forall i :: 0 <= i < |items| ==> AllKeysGoUp(items[i])
    case Object(fields) => KeysGoUp(fields) && forall i :: 0 <= i < |fields| ==> AllKeysGoUp(fields[i].value)
    case _ => true
  }

  lemma CanonGoesUp(v: Json)
    requires WellFormed(v)
    ensures AllKeysGoUp(Canon(v))
    decreases v
  {
    match v {
      case Array(items) =>
        CanonAllIsPointwise(items);
        forall i | 0 <= i < |items|
          ensures AllKeysGoUp(CanonAll(items)[i])
        {
          CanonGoesUp(items[i]);
        }
      case Object(fields) =>
        var sorted := SortFields(CanonFields(fields));
        CanonKeys(fields, "");
        KeysGoUpIffSorted(sorted);
        forall i | 0 <= i < |sorted|
          ensures AllKeysGoUp(sorted[i].value)
        {
          var k := CanonFieldIsFrom(fields, sorted[i]);
          CanonGoesUp(fields[k].value);
        }
      case _ =>
    }
  }

  /** In the canonical text of a value the keys of every object go up, at every depth. */
  lemma PrintedKeysGoUp(v: Json)
    requires WellFormed(v)
    ensures Decode(Print(v)).Some? && AllKeysGoUp(Decode(Print(v)).value)
  {
    DecodeOfPrint(v);
    CanonGoesUp(v);
  }
}
