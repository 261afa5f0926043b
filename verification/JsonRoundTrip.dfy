/**
Reading back what CanonicalJson prints: the reader recovers every well-formed value, at any
depth and in any surroundings, with the fields of its objects in key order.

The proof follows the printer: a value inside a list is followed by a separator or the
closing bracket, neither of which a number can run into.
*/
module JsonRoundTrip {
  import opened Common
  import opened Text
  import opened CanonicalJson

  // ---------- well-formed values ----------

  ghost predicate DistinctKeys<T>(fields: seq<Field<T>>) {
    forall i, j :: 0 <= i < j < |fields| ==> fields[i].key != fields[j].key
  }

  predicate IsNumberText(text: string) {
    StartsNumber(text) && forall i :: 0 <= i < |text| ==> IsNumberChar(text[i])
  }

  /** What a parsed value satisfies: its objects repeat no key, its numbers are numbers. */
  ghost predicate WellFormed(v: Json)
    decreases v
  {
    match v
    case Number(text) => IsNumberText(text)
    case Array(items) => forall i :: 0 <= i < |items| ==> WellFormed(items[i])
    case Object(fields) => DistinctKeys(fields) && forall i :: 0 <= i < |fields| ==> WellFormed(fields[i].value)
    case _ => true
  }

  // ---------- the canonical value ----------

  /** The value with the fields of every object in key order. */
  function Canon(v: Json): Json
    decreases v
  {
    match v
    case Array(items) => Array(CanonAll(items))
    case Object(fields) => Object(SortFields(CanonFields(fields)))
    case _ => v
  }

  function CanonAll(items: seq<Json>): (r: seq<Json>)
    ensures |r| == |items|
    decreases items
  {
    if items == [] then [] else [Canon(items[0])] + CanonAll(items[1..])
  }

  function CanonFields(fields: seq<Field<Json>>): (r: seq<Field<Json>>)
    ensures |r| == |fields|
    decreases fields
  {
    if fields == [] then [] else [Field(fields[0].key, Canon(fields[0].value))] + CanonFields(fields[1..])
  }

  // ---------- sorting and mapping commute ----------

  ghost predicate Mapped<T, U>(a: seq<Field<T>>, b: seq<Field<U>>, f: T -> U) {
    |a| == |b| && forall i :: 0 <= i < |a| ==> b[i] == Field(a[i].key, f(a[i].value))
  }

  lemma {:induction false} InsertMaps<T, U>(x: Field<T>, a: seq<Field<T>>, b: seq<Field<U>>, f: T -> U)
    requires Mapped(a, b, f)
    ensures Mapped(InsertField(x, a), InsertField(Field(x.key, f(x.value)), b), f)
  {
    if a != [] && !Before(x.key, a[0].key) {
      InsertMaps(x, a[1..], b[1..], f);
    }
  }

  lemma {:induction false} SortMaps<T, U>(a: seq<Field<T>>, b: seq<Field<U>>, f: T -> U)
    requires Mapped(a, b, f)
    ensures Mapped(SortFields(a), SortFields(b), f)
  {
    if a != [] {
      SortMaps(a[1..], b[1..], f);
      InsertMaps(a[0], SortFields(a[1..]), SortFields(b[1..]), f);
    }
  }

  function Printer(): Json -> string {
    v => Print(v)
  }

  function Canonizer(): Json -> Json {
    v => Canon(v)
  }

  lemma {:induction false} PrintMaps(fields: seq<Field<Json>>)
    ensures Mapped(fields, PrintFields(fields), Printer())
  {
    if fields != [] {
      PrintMaps(fields[1..]);
    }
  }

  lemma {:induction false} CanonMaps(fields: seq<Field<Json>>)
    ensures Mapped(fields, CanonFields(fields), Canonizer())
  {
    if fields != [] {
      CanonMaps(fields[1..]);
    }
  }

  /** Sorting the fields and then printing each is printing each and then sorting. */
  lemma SortThenPrint(fields: seq<Field<Json>>)
    ensures PrintFields(SortFields(fields)) == SortFields(PrintFields(fields))
    ensures CanonFields(SortFields(fields)) == SortFields(CanonFields(fields))
  {
    PrintMaps(fields);
    SortMaps(fields, PrintFields(fields), Printer());
    PrintMaps(SortFields(fields));
    CanonMaps(fields);
    SortMaps(fields, CanonFields(fields), Canonizer());
    CanonMaps(SortFields(fields));
  }

  // ---------- members of a sorted list ----------

  lemma {:induction false} InsertMembers<T>(x: Field<T>, fields: seq<Field<T>>, f: Field<T>)
    ensures f in InsertField(x, fields) <==> f == x || f in fields
    ensures |InsertField(x, fields)| == |fields| + 1
  {
    if fields != [] && !Before(x.key, fields[0].key) {
      InsertMembers(x, fields[1..], f);
      assert fields == [fields[0]] + fields[1..];
    }
  }

  lemma {:induction false} SortMembers<T>(fields: seq<Field<T>>, f: Field<T>)
    ensures f in SortFields(fields) <==> f in fields
    ensures |SortFields(fields)| == |fields|
  {
    if fields != [] {
      SortMembers(fields[1..], f);
      InsertMembers(fields[0], SortFields(fields[1..]), f);
      assert fields == [fields[0]] + fields[1..];
    }
  }

  // ---------- reading back ----------

  ghost predicate EndsNumber(rest: string) {
    rest == [] || !IsNumberChar(rest[0])
  }

  lemma {:induction false} NumberIsSpan(text: string, rest: string)
    requires (forall i :: 0 <= i < |text| ==> IsNumberChar(text[i])) && EndsNumber(rest)
    ensures NumberLength(text + rest) == |text|
  {
    if text == [] {
      assert text + rest == rest;
    } else {
      assert (text + rest)[1..] == text[1..] + rest;
      NumberIsSpan(text[1..], rest);
    }
  }

  lemma NumberReadsBack(text: string, rest: string)
    requires IsNumberText(text) && EndsNumber(rest)
    ensures ReadValue(text + rest) == Some((Number(text), rest))
  {
    var s := text + rest;
    assert s[0] == text[0];
    NumberIsSpan(text, rest);
    assert s[..|text|] == text && s[|text|..] == rest;
  }

  lemma StringReadsBack(t: string, rest: string)
    ensures ReadValue(Quoted(t) + rest) == Some((String(t), rest))
  {
    var s := Quoted(t) + rest;
    assert s[0] == '"';
    assert s[1..] == Escape(t) + ("\"" + rest);
    EscapedReadsBack(t, rest);
  }

  lemma WordsReadBack(rest: string)
    ensures ReadValue("null" + rest) == Some((Null, rest))
    ensures ReadValue("true" + rest) == Some((Bool(true), rest))
    ensures ReadValue("false" + rest) == Some((Bool(false), rest))
  {
    assert ("null" + rest)[4..] == rest;
    assert ("true" + rest)[4..] == rest && ("true" + rest)[0] == 't';
    assert ("false" + rest)[5..] == rest && ("false" + rest)[0] == 'f';
  }

  /** No value starts like the end of a list. */
  lemma FirstChar(v: Json)
    requires WellFormed(v)
    ensures Print(v) != [] && Print(v)[0] != ']'
  {
  }

  lemma ReadPrinted(v: Json, rest: string)
    requires WellFormed(v) && EndsNumber(rest)
    ensures ReadValue(Print(v) + rest) == Some((Canon(v), rest))
    decreases v, 2, 0
  {
    match v {
      case Null => WordsReadBack(rest);
      case Bool(b) => WordsReadBack(rest);
      case Number(text) => NumberReadsBack(text, rest);
      case String(s) => StringReadsBack(s, rest);
      case Array(items) => ReadPrintedArray(v, rest);
      case Object(fields) => ReadPrintedObject(v, rest);
    }
  }

  lemma ReadPrintedArray(v: Json, rest: string)
    requires v.Array? && WellFormed(v)
    ensures ReadValue(Print(v) + rest) == Some((Canon(v), rest))
    decreases v, 1, 0
  {
    if v.items == [] {
      EmptyArrayReadsBack(rest);
    } else {
      ReadPrintedItems(v, v.items, rest);
      FirstChar(v.items[0]);
      ArrayReadsBack(v.items, rest);
    }
  }

  lemma MembersAreFine(v: Json, f: Field<Json>)
    requires v.Object? && WellFormed(v) && f in v.fields
    ensures WellFormed(f.value)
  {
    var i :| 0 <= i < |v.fields| && v.fields[i] == f;
  }

  lemma SortedMembersAreFine(v: Json)
    requires v.Object? && WellFormed(v) && v.fields != []
    ensures SortFields(v.fields) != []
    ensures forall f :: f in SortFields(v.fields) ==> f in v.fields && WellFormed(f.value)
  {
    SortMembers(v.fields, v.fields[0]);
    forall f | f in SortFields(v.fields)
      ensures f in v.fields && WellFormed(f.value)
    {
      SortMembers(v.fields, f);
      MembersAreFine(v, f);
    }
  }

  lemma ReadPrintedObject(v: Json, rest: string)
    requires v.Object? && WellFormed(v)
    ensures ReadValue(Print(v) + rest) == Some((Canon(v), rest))
    decreases v, 1, 0
  {
    if v.fields == [] {
      EmptyObjectReadsBack(rest);
    } else {
      SortedMembersAreFine(v);
      SortThenPrint(v.fields);
      ReadPrintedFields(v, SortFields(v.fields), rest);
      FieldsStartQuoted(PrintFields(SortFields(v.fields)));
      BracedReadsBack(Join(FieldTexts(PrintFields(SortFields(v.fields))), ", "),
                      CanonFields(SortFields(v.fields)), rest);
    }
  }

  lemma EmptyArrayReadsBack(rest: string)
    ensures ReadValue(Print(Array([])) + rest) == Some((Array([]), rest))
  {
    var s := Print(Array([])) + rest;
    assert s[0] == '[' && s[1] == ']' && s[2..] == rest;
  }

  lemma EmptyObjectReadsBack(rest: string)
    ensures ReadValue(Print(Object([])) + rest) == Some((Object([]), rest))
  {
    var s := Print(Object([])) + rest;
    assert s[0] == '{' && s[1] == '}' && s[2..] == rest;
  }

  lemma ArrayReadsBack(items: seq<Json>, rest: string)
    requires items != [] && Print(items[0]) != [] && Print(items[0])[0] != ']'
    requires ReadItems(Join(PrintAll(items), ", ") + ("]" + rest)) == Some((CanonAll(items), rest))
    ensures ReadValue(Print(Array(items)) + rest) == Some((Array(CanonAll(items)), rest))
  {
    var inner := Join(PrintAll(items), ", ");
    Enclosed('[', inner, "]", rest);
    BracketOpensArray(("[" + inner + "]") + rest, CanonAll(items), rest);
  }

  lemma BraceOpensObject(s: string, fields: seq<Field<Json>>, rest: string)
    requires |s| > 1 && s[0] == '{' && s[1] == '"' && ReadFields(s[1..]) == Some((fields, rest))
    ensures ReadValue(s) == Some((Object(fields), rest))
  {
  }

  lemma BracketOpensArray(s: string, items: seq<Json>, rest: string)
    requires |s| > 1 && s[0] == '[' && s[1] != ']' && ReadItems(s[1..]) == Some((items, rest))
    ensures ReadValue(s) == Some((Array(items), rest))
  {
  }

  lemma Enclosed(open: char, inner: string, close: string, rest: string)
    requires inner != []
    ensures var s := ([open] + inner + close) + rest;
      |s| > 1 && s[0] == open && s[1] == inner[0] && s[1..] == inner + (close + rest)
  {
  }

  lemma BracedReadsBack(inner: string, fields: seq<Field<Json>>, rest: string)
    requires inner != [] && inner[0] == '"' && ReadFields(inner + ("}" + rest)) == Some((fields, rest))
    ensures ReadValue(("{" + inner + "}") + rest) == Some((Object(fields), rest))
  {
    Enclosed('{', inner, "}", rest);
    BraceOpensObject(("{" + inner + "}") + rest, fields, rest);
  }

  lemma FieldsStartQuoted(fields: seq<Field<string>>)
    requires fields != []
    ensures var inner := Join(FieldTexts(fields), ", "); inner != [] && inner[0] == '"'
  {
  }

  lemma JoinMore(first: string, others: seq<string>, tail: string)
    requires others != []
    ensures Join([first] + others, ", ") + tail == first + (", " + (Join(others, ", ") + tail))
  {
    assert ([first] + others)[1..] == others;
  }

  lemma LastItem(text: string, item: Json, rest: string)
    requires ReadValue(text + ("]" + rest)) == Some((item, "]" + rest))
    ensures ReadItems(text + ("]" + rest)) == Some(([item], rest))
  {
    assert ("]" + rest)[1..] == rest;
  }

  lemma ItemThenMore(text: string, item: Json, more: string, others: seq<Json>, rest: string)
    requires ReadValue(text + (", " + more)) == Some((item, ", " + more)) && ReadItems(more) == Some((others, rest))
    ensures ReadItems(text + (", " + more)) == Some(([item] + others, rest))
  {
    assert (", " + more)[2..] == more && (", " + more)[0] == ',';
  }

  lemma OneItem(item: Json)
    ensures PrintAll([item]) == [Print(item)] && CanonAll([item]) == [Canon(item)]
  {
  }

  lemma ItemsInParts(items: seq<Json>)
    requires items != []
    ensures PrintAll(items) == [Print(items[0])] + PrintAll(items[1..])
    ensures CanonAll(items) == [Canon(items[0])] + CanonAll(items[1..])
  {
  }

  lemma ReadPrintedItems(v: Json, items: seq<Json>, rest: string)
    requires v.Array? && items != [] && forall item :: item in items ==> item in v.items && WellFormed(item)
    ensures ReadItems(Join(PrintAll(items), ", ") + ("]" + rest)) == Some((CanonAll(items), rest))
    decreases v, 0, |items|
  {
    var first, others := items[0], items[1..];
    assert first in v.items;
    if others == [] {
      ReadPrinted(first, "]" + rest);
      LastItem(Print(first), Canon(first), rest);
      OneItem(first);
      assert items == [first];
    } else {
      var more := Join(PrintAll(others), ", ") + ("]" + rest);
      ReadPrinted(first, ", " + more);
      ReadPrintedItems(v, others, rest);
      ItemThenMore(Print(first), Canon(first), more, CanonAll(others), rest);
      JoinMore(Print(first), PrintAll(others), "]" + rest);
      ItemsInParts(items);
    }
  }

  lemma KeyReadsBack(key: string, behind: string)
    ensures var s := Quoted(key) + (": " + behind);
      s[0] == '"' && ReadString(s[1..]) == Some((key, ": " + behind)) && (": " + behind)[2..] == behind
  {
    var s := Quoted(key) + (": " + behind);
    assert s[1..] == Escape(key) + ("\"" + (": " + behind));
    EscapedReadsBack(key, ": " + behind);
  }

  lemma LastField(key: string, text: string, value: Json, rest: string)
    requires ReadValue(text + ("}" + rest)) == Some((value, "}" + rest))
    ensures ReadFields(Quoted(key) + (": " + (text + ("}" + rest)))) == Some(([Field(key, value)], rest))
  {
    KeyReadsBack(key, text + ("}" + rest));
    assert ("}" + rest)[1..] == rest;
  }

  lemma FieldThenMore(
    key: string, text: string, value: Json, more: string, others: seq<Field<Json>>, rest: string)
    requires ReadValue(text + (", " + more)) == Some((value, ", " + more)) && ReadFields(more) == Some((others, rest))
    ensures ReadFields(Quoted(key) + (": " + (text + (", " + more)))) == Some(([Field(key, value)] + others, rest))
  {
    KeyReadsBack(key, text + (", " + more));
    assert (", " + more)[2..] == more && (", " + more)[0] == ',';
  }

  lemma Regroup(key: string, text: string, tail: string)
    ensures (key + ": " + text) + tail == key + (": " + (text + tail))
  {
  }

  lemma OneField(f: Field<Json>)
    ensures FieldTexts(PrintFields([f])) == [Quoted(f.key) + ": " + Print(f.value)]
    ensures CanonFields([f]) == [Field(f.key, Canon(f.value))]
  {
  }

  lemma FieldsInParts(fields: seq<Field<Json>>)
    requires fields != []
    ensures FieldTexts(PrintFields(fields)) ==
      [Quoted(fields[0].key) + ": " + Print(fields[0].value)] + FieldTexts(PrintFields(fields[1..]))
    ensures CanonFields(fields) == [Field(fields[0].key, Canon(fields[0].value))] + CanonFields(fields[1..])
  {
    assert PrintFields(fields)[1..] == PrintFields(fields[1..]);
  }

  lemma ReadPrintedFields(v: Json, fields: seq<Field<Json>>, rest: string)
    requires v.Object? && fields != [] && forall f :: f in fields ==> f in v.fields && WellFormed(f.value)
    ensures ReadFields(Join(FieldTexts(PrintFields(fields)), ", ") + ("}" + rest)) == Some((CanonFields(fields), rest))
    decreases v, 0, |fields|
  {
    var f, others := fields[0], fields[1..];
    assert f in v.fields;
    if others == [] {
      ReadPrinted(f.value, "}" + rest);
      LastField(f.key, Print(f.value), Canon(f.value), rest);
      Regroup(Quoted(f.key), Print(f.value), "}" + rest);
      OneField(f);
      assert fields == [f];
    } else {
      var more := Join(FieldTexts(PrintFields(others)), ", ") + ("}" + rest);
      ReadPrinted(f.value, ", " + more);
      ReadPrintedFields(v, others, rest);
      FieldThenMore(f.key, Print(f.value), Canon(f.value), more, CanonFields(others), rest);
      Regroup(Quoted(f.key), Print(f.value), ", " + more);
      JoinMore(Quoted(f.key) + ": " + Print(f.value), FieldTexts(PrintFields(others)), "}" + rest);
      FieldsInParts(fields);
    }
  }

  /** Decoding a canonical text gives back the value, its objects in key order. */
  lemma DecodeOfPrint(v: Json)
    requires WellFormed(v)
    ensures Decode(Print(v)) == Some(Canon(v))
  {
    ReadPrinted(v, []);
    assert Print(v) + [] == Print(v);
  }
}
