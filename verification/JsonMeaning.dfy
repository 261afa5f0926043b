/**
The canonical text is the same for two values exactly when they mean the same.

A value means what remains when the order of the fields of its objects does not count.
*/
module JsonMeaning {
  import opened Text
  import opened CanonicalJson
  import opened JsonRoundTrip

  /** What a value means when the order of fields does not matter: objects are maps. */
  datatype Value =
    | VNull
    | VBool(b: bool)
    | VNumber(text: string)
    | VString(s: string)
    | VArray(items: seq<Value>)
    | VObject(fields: map<string, Value>)

  function Meaning(v: Json): Value
    decreases v
  {
    match v
    case Null => VNull
    case Bool(b) => VBool(b)
    case Number(text) => VNumber(text)
    case String(s) => VString(s)
    case Array(items) => VArray(Meanings(items))
    case Object(fields) => VObject(FieldMap(fields))
  }

  function Meanings(items: seq<Json>): (r: seq<Value>)
    ensures |r| == |items|
    ensures forall i :: 0 <= i < |items| ==> r[i] == Meaning(items[i])
    decreases items
  {
    if items == [] then [] else [Meaning(items[0])] + Meanings(items[1..])
  }

  function FieldMap(fields: seq<Field<Json>>): map<string, Value>
    decreases fields
  {
    if fields == [] then map[] else FieldMap(fields[1..])[fields[0].key := Meaning(fields[0].value)]
  }

  // ---------- lookups ----------

  ghost predicate HasKey<T>(fields: seq<Field<T>>, key: string) {
    exists i :: 0 <= i < |fields| && fields[i].key == key
  }

  lemma {:induction false} MapHasKeys(fields: seq<Field<Json>>, key: string)
    ensures key in FieldMap(fields) <==> HasKey(fields, key)
  {
    if fields != [] {
      MapHasKeys(fields[1..], key);
      if HasKey(fields[1..], key) {
        var i :| 0 <= i < |fields| - 1 && fields[1..][i].key == key;
        assert fields[i + 1].key == key;
      }
      if HasKey(fields, key) && fields[0].key != key {
        var i :| 0 <= i < |fields| && fields[i].key == key;
        assert fields[1..][i - 1].key == key;
      }
    }
  }

  lemma {:induction false} MapHasValue(fields: seq<Field<Json>>, i: nat)
    requires DistinctKeys(fields) && i < |fields|
    ensures fields[i].key in FieldMap(fields) && FieldMap(fields)[fields[i].key] == Meaning(fields[i].value)
  {
    if i > 0 {
      MapHasValue(fields[1..], i - 1);
    }
  }

  // ---------- strictly sorted fields ----------

  ghost predicate StrictlySorted<T>(fields: seq<Field<T>>) {
    forall i, j :: 0 <= i < j < |fields| ==> Before(fields[i].key, fields[j].key)
  }

  lemma {:induction false} InsertKeys<T>(x: Field<T>, fields: seq<Field<T>>, key: string)
    ensures HasKey(InsertField(x, fields), key) <==> key == x.key || HasKey(fields, key)
  {
    var all := InsertField(x, fields);
    if HasKey(fields, key) {
      var i :| 0 <= i < |fields| && fields[i].key == key;
      InsertMembers(x, fields, fields[i]);
      var j :| 0 <= j < |all| && all[j] == fields[i];
    }
    InsertMembers(x, fields, x);
    var k :| 0 <= k < |all| && all[k] == x;
    if HasKey(all, key) {
      var i :| 0 <= i < |all| && all[i].key == key;
      InsertMembers(x, fields, all[i]);
    }
  }

  lemma {:induction false} InsertSorted<T>(x: Field<T>, fields: seq<Field<T>>)
    requires StrictlySorted(fields) && !HasKey(fields, x.key)
    ensures StrictlySorted(InsertField(x, fields))
  {
    if fields != [] {
      BeforeIsTotal(x.key, fields[0].key);
      if Before(x.key, fields[0].key) {
        forall j | 0 < j < |fields|
          ensures Before(x.key, fields[j].key)
        {
          BeforeIsTransitive(x.key, fields[0].key, fields[j].key);
        }
      } else {
        var tail := fields[1..];
        assert forall i :: 0 <= i < |tail| ==> tail[i] == fields[i + 1];
        InsertSorted(x, tail);
        var rest := InsertField(x, tail);
        forall j | 0 <= j < |rest|
          ensures Before(fields[0].key, rest[j].key)
        {
          InsertMembers(x, tail, rest[j]);
        }
      }
    }
  }

  lemma {:induction false} SortKeys<T>(fields: seq<Field<T>>, key: string)
    ensures HasKey(SortFields(fields), key) <==> HasKey(fields, key)
  {
    if fields != [] {
      SortKeys(fields[1..], key);
      InsertKeys(fields[0], SortFields(fields[1..]), key);
      KeysInParts(fields, key);
    }
  }

  lemma KeysInParts<T>(fields: seq<Field<T>>, key: string)
    requires fields != []
    ensures HasKey(fields, key) <==> fields[0].key == key || HasKey(fields[1..], key)
  {
    if HasKey(fields[1..], key) {
      var i :| 0 <= i < |fields| - 1 && fields[1..][i].key == key;
      assert fields[i + 1].key == key;
    }
    if HasKey(fields, key) && fields[0].key != key {
      var i :| 0 <= i < |fields| && fields[i].key == key;
      assert fields[1..][i - 1].key == key;
    }
  }

  lemma {:induction false} SortSorts<T>(fields: seq<Field<T>>)
    requires DistinctKeys(fields)
    ensures StrictlySorted(SortFields(fields))
  {
    if fields != [] {
      SortSorts(fields[1..]);
      SortKeys(fields[1..], fields[0].key);
      InsertSorted(fields[0], SortFields(fields[1..]));
    }
  }

  lemma {:induction false} SortOfSorted<T>(fields: seq<Field<T>>)
    requires StrictlySorted(fields)
    ensures SortFields(fields) == fields
  {
    if |fields| > 1 {
      SortOfSorted(fields[1..]);
      assert fields[1..][0] == fields[1];
    }
  }

  // ---------- the canonical value means the same ----------

  lemma {:induction false} InsertMeans(x: Field<Json>, fields: seq<Field<Json>>)
    requires !HasKey(fields, x.key)
    ensures FieldMap(InsertField(x, fields)) == FieldMap(fields)[x.key := Meaning(x.value)]
  {
    if fields == [] || Before(x.key, fields[0].key) {
      assert ([x] + fields)[1..] == fields;
    } else {
      KeysInParts(fields, x.key);
      InsertMeans(x, fields[1..]);
      var rest := InsertField(x, fields[1..]);
      assert ([fields[0]] + rest)[1..] == rest;
    }
  }

  lemma {:induction false} SortMeans(fields: seq<Field<Json>>)
    requires DistinctKeys(fields)
    ensures FieldMap(SortFields(fields)) == FieldMap(fields)
  {
    if fields != [] {
      SortMeans(fields[1..]);
      SortKeys(fields[1..], fields[0].key);
      assert !HasKey(fields[1..], fields[0].key);
      InsertMeans(fields[0], SortFields(fields[1..]));
    }
  }

  lemma CanonMeansTheSame(v: Json)
    requires WellFormed(v)
    ensures Meaning(Canon(v)) == Meaning(v)
    decreases v, 1, 0
  {
    match v {
      case Array(items) => CanonItemsMeanTheSame(v, items);
      case Object(fields) =>
        CanonFieldsMeanTheSame(v, fields);
        CanonMaps(fields);
        SortMeans(CanonFields(fields));
      case _ =>
    }
  }

  lemma CanonItemsMeanTheSame(v: Json, items: seq<Json>)
    requires v.Array? && forall item :: item in items ==> item in v.items && WellFormed(item)
    ensures Meanings(CanonAll(items)) == Meanings(items)
    decreases v, 0, |items|
  {
    if items != [] {
      assert items[0] in v.items;
      CanonMeansTheSame(items[0]);
      CanonItemsMeanTheSame(v, items[1..]);
    }
  }

  lemma CanonFieldsMeanTheSame(v: Json, fields: seq<Field<Json>>)
    requires v.Object? && forall i :: 0 <= i < |fields| ==> fields[i] in v.fields && WellFormed(fields[i].value)
    ensures FieldMap(CanonFields(fields)) == FieldMap(fields)
    decreases v, 0, |fields|
  {
    if fields != [] {
      assert fields[0] in v.fields;
      CanonMeansTheSame(fields[0].value);
      CanonFieldsMeanTheSame(v, fields[1..]);
    }
  }

  // ---------- values that mean the same have one canonical value ----------

  /** The lists have the same keys, and equal values under equal keys. */
  ghost predicate Agree<T>(a: seq<Field<T>>, b: seq<Field<T>>) {
    && (forall key :: HasKey(a, key) <==> HasKey(b, key))
    && (forall i, j :: 0 <= i < |a| && 0 <= j < |b| && a[i].key == b[j].key ==> a[i] == b[j])
  }

  lemma NotBeforeItself(s: string)
    ensures !Before(s, s)
    decreases |s|
  {
    if s != [] {
      NotBeforeItself(s[1..]);
    }
  }

  lemma HeadsMeet<T>(a: seq<Field<T>>, b: seq<Field<T>>)
    requires StrictlySorted(a) && StrictlySorted(b) && Agree(a, b) && a != []
    ensures b != [] && a[0] == b[0]
  {
    assert HasKey(a, a[0].key);
    var j :| 0 <= j < |b| && b[j].key == a[0].key;
    assert HasKey(b, b[0].key);
    var i :| 0 <= i < |a| && a[i].key == b[0].key;
    NotBeforeItself(a[0].key);
    if i > 0 && j > 0 {
      BeforeIsTransitive(a[0].key, b[0].key, a[0].key);
    }
  }

  lemma TailsAgree<T>(a: seq<Field<T>>, b: seq<Field<T>>)
    requires StrictlySorted(a) && StrictlySorted(b) && Agree(a, b) && a != [] && b != [] && a[0] == b[0]
    ensures StrictlySorted(a[1..]) && StrictlySorted(b[1..]) && Agree(a[1..], b[1..])
  {
    forall key
      ensures HasKey(a[1..], key) <==> HasKey(b[1..], key)
    {
      KeysInParts(a, key);
      KeysInParts(b, key);
      NotBeforeItself(key);
      HeadKeyIsGone(a, key);
      HeadKeyIsGone(b, key);
    }
  }

  lemma HeadKeyIsGone<T>(a: seq<Field<T>>, key: string)
    requires StrictlySorted(a) && a != []
    ensures a[0].key == key ==> !HasKey(a[1..], key)
  {
    NotBeforeItself(key);
    assert forall i :: 0 <= i < |a| - 1 ==> a[1..][i] == a[i + 1];
  }

  lemma {:induction false} SortedAndAgreeingAreEqual<T>(a: seq<Field<T>>, b: seq<Field<T>>)
    requires StrictlySorted(a) && StrictlySorted(b) && Agree(a, b)
    ensures a == b
    decreases |a|
  {
    if a == [] {
      if b != [] {
        assert HasKey(b, b[0].key);
      }
    } else {
      HeadsMeet(a, b);
      TailsAgree(a, b);
      SortedAndAgreeingAreEqual(a[1..], b[1..]);
    }
  }

  lemma CanonKeys(fields: seq<Field<Json>>, key: string)
    requires DistinctKeys(fields)
    ensures HasKey(SortFields(CanonFields(fields)), key) <==> key in FieldMap(fields)
    ensures StrictlySorted(SortFields(CanonFields(fields)))
  {
    CanonMaps(fields);
    assert HasKey(CanonFields(fields), key) <==> HasKey(fields, key);
    SortKeys(CanonFields(fields), key);
    SortSorts(CanonFields(fields));
    MapHasKeys(fields, key);
  }

  /** Where a field of the canonical object comes from. */
  lemma CanonFieldIsFrom(fields: seq<Field<Json>>, f: Field<Json>) returns (i: nat)
    requires f in SortFields(CanonFields(fields))
    ensures i < |fields| && f == Field(fields[i].key, Canon(fields[i].value))
  {
    SortMembers(CanonFields(fields), f);
    CanonMaps(fields);
    i :| i < |fields| && CanonFields(fields)[i] == f;
  }

  lemma SameMeaningSameCanon(a: Json, b: Json)
    requires WellFormed(a) && WellFormed(b) && Meaning(a) == Meaning(b)
    ensures Canon(a) == Canon(b)
    decreases a, 1
  {
    match a {
      case Array(items) =>
        forall i | 0 <= i < |items|
          ensures Canon(items[i]) == Canon(b.items[i])
        {
          assert Meanings(items)[i] == Meanings(b.items)[i];
          SameMeaningSameCanon(items[i], b.items[i]);
        }
        CanonAllIsPointwise(items);
        CanonAllIsPointwise(b.items);
      case Object(fields) =>
        ObjectsAgree(a, b);
        SortedAndAgreeingAreEqual(SortFields(CanonFields(fields)), SortFields(CanonFields(b.fields)));
      case _ =>
    }
  }

  lemma {:induction false} CanonAllIsPointwise(items: seq<Json>)
    ensures forall i :: 0 <= i < |items| ==> CanonAll(items)[i] == Canon(items[i])
  {
    if items != [] {
      CanonAllIsPointwise(items[1..]);
    }
  }

  lemma ObjectsAgree(a: Json, b: Json)
    requires a.Object? && b.Object? && WellFormed(a) && WellFormed(b) && Meaning(a) == Meaning(b)
    ensures var x, y := SortFields(CanonFields(a.fields)), SortFields(CanonFields(b.fields));
      StrictlySorted(x) && StrictlySorted(y) && Agree(x, y)
    decreases a, 0
  {
    var x, y := SortFields(CanonFields(a.fields)), SortFields(CanonFields(b.fields));
    CanonKeys(a.fields, "");
    CanonKeys(b.fields, "");
    forall key
      ensures HasKey(x, key) <==> HasKey(y, key)
    {
      CanonKeys(a.fields, key);
      CanonKeys(b.fields, key);
    }
    forall i, j | 0 <= i < |x| && 0 <= j < |y| && x[i].key == y[j].key
      ensures x[i] == y[j]
    {
      var k := CanonFieldIsFrom(a.fields, x[i]);
      var l := CanonFieldIsFrom(b.fields, y[j]);
      MapHasValue(a.fields, k);
      MapHasValue(b.fields, l);
      SameMeaningSameCanon(a.fields[k].value, b.fields[l].value);
    }
  }

  // ---------- the canonical text of the canonical value ----------

  lemma PrintOfCanon(v: Json)
    requires WellFormed(v)
    ensures Print(Canon(v)) == Print(v)
    decreases v, 1, 0
  {
    match v {
      case Array(items) => PrintOfCanonItems(v, items);
      case Object(fields) =>
        PrintOfCanonFields(v, fields);
        CanonMaps(fields);
        var canon := CanonFields(fields);
        SortThenPrint(canon);
        SortSorts(canon);
        SortOfSorted(SortFields(canon));
        SortThenPrint(SortFields(canon));
      case _ =>
    }
  }

  lemma PrintOfCanonItems(v: Json, items: seq<Json>)
    requires v.Array? && forall item :: item in items ==> item in v.items && WellFormed(item)
    ensures PrintAll(CanonAll(items)) == PrintAll(items)
    decreases v, 0, |items|
  {
    if items != [] {
      assert items[0] in v.items;
      PrintOfCanon(items[0]);
      PrintOfCanonItems(v, items[1..]);
    }
  }

  lemma PrintOfCanonFields(v: Json, fields: seq<Field<Json>>)
    requires v.Object? && forall i :: 0 <= i < |fields| ==> fields[i] in v.fields && WellFormed(fields[i].value)
    ensures PrintFields(CanonFields(fields)) == PrintFields(fields)
    decreases v, 0, |fields|
  {
    if fields != [] {
      assert fields[0] in v.fields;
      PrintOfCanon(fields[0].value);
      PrintOfCanonFields(v, fields[1..]);
    }
  }

  /** Two values have the same canonical text exactly when they differ at most in the
      order of object keys, at any depth. */
  lemma SameTextExactlyWhenSameMeaning(a: Json, b: Json)
    requires WellFormed(a) && WellFormed(b)
    ensures Print(a) == Print(b) <==> Meaning(a) == Meaning(b)
  {
    if Print(a) == Print(b) {
      DecodeOfPrint(a);
      DecodeOfPrint(b);
      CanonMeansTheSame(a);
      CanonMeansTheSame(b);
    }
    if Meaning(a) == Meaning(b) {
      SameMeaningSameCanon(a, b);
      PrintOfCanon(a);
      PrintOfCanon(b);
    }
  }

  /** Decoding a canonical text gives a value that means what the printed one does. */
  lemma DecodeKeepsMeaning(v: Json)
    requires WellFormed(v)
    ensures Decode(Print(v)).Some? && Meaning(Decode(Print(v)).value) == Meaning(v)
  {
    DecodeOfPrint(v);
    CanonMeansTheSame(v);
  }
}
