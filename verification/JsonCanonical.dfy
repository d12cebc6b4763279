/** `stringifyDeterministic`: one text per value, whatever the insertion order of its keys. */
module JsonCanonical {
  import opened Text
  import opened Json
  import opened JsonInjective
  import opened KeyOrder

  /** The printer: the keys of an object sorted, and written between quotes as they are. */
  function Stringify(v: Value): string {
    match v
    case Undefined => "undefined"
    case Null => "null"
    case Bool(b) => if b then "true" else "false"
    case Num(t) => t
    case Str(s) => Quote(s)
    case Arr(items) => "[" + Join(StringifyItems(items), ',') + "]"
    case Obj(fields) => "{" + Join(Pairs(Sort(StringifyFields(fields))), ',') + "}"
  }

  function StringifyItems(items: seq<Value>): seq<string> {
    if items == [] then [] else [Stringify(items[0])] + StringifyItems(items[1..])
  }

  function StringifyFields(fields: seq<Entry<Value>>): seq<Entry<string>> {
    if fields == [] then []
    else [Entry(fields[0].key, Stringify(fields[0].value))] + StringifyFields(fields[1..])
  }

  function Pairs(fields: seq<Entry<string>>): seq<string> {
    if fields == [] then [] else [PrintField(fields[0].key, fields[0].value, Raw)] + Pairs(fields[1..])
  }

  /** A value with the fields of every object in key order. */
  function Canon(v: Value): Value {
    match v
    case Arr(items) => Arr(CanonItems(items))
    case Obj(fields) => Obj(Sort(CanonFields(fields)))
    case _ => v
  }

  function CanonItems(items: seq<Value>): (r: seq<Value>)
    ensures |r| == |items| && forall i | 0 <= i < |items| :: r[i] == Canon(items[i])
  {
    if items == [] then [] else [Canon(items[0])] + CanonItems(items[1..])
  }

  function CanonFields(fields: seq<Entry<Value>>): (r: seq<Entry<Value>>)
    ensures |r| == |fields|
    ensures forall i | 0 <= i < |fields| :: r[i] == Entry(fields[i].key, Canon(fields[i].value))
  {
    if fields == [] then []
    else [Entry(fields[0].key, Canon(fields[0].value))] + CanonFields(fields[1..])
  }

  /** A value without any order among its fields: what the source program can observe of it by
      indexing. */
  datatype Flat =
    | FUndefined
    | FNull
    | FBool(b: bool)
    | FNum(text: string)
    | FStr(s: string)
    | FArr(items: seq<Flat>)
    | FObj(fields: map<string, Flat>)

  function Forget(v: Value): Flat {
    match v
    case Undefined => FUndefined
    case Null => FNull
    case Bool(b) => FBool(b)
    case Num(t) => FNum(t)
    case Str(s) => FStr(s)
    case Arr(items) => FArr(ForgetItems(items))
    case Obj(fields) => FObj(AsMap(ForgetFields(fields)))
  }

  function ForgetItems(items: seq<Value>): (r: seq<Flat>)
    ensures |r| == |items| && forall i | 0 <= i < |items| :: r[i] == Forget(items[i])
  {
    if items == [] then [] else [Forget(items[0])] + ForgetItems(items[1..])
  }

  function ForgetFields(fields: seq<Entry<Value>>): (r: seq<Entry<Flat>>)
    ensures |r| == |fields|
    ensures forall i | 0 <= i < |fields| :: r[i] == Entry(fields[i].key, Forget(fields[i].value))
  {
    if fields == [] then []
    else [Entry(fields[0].key, Forget(fields[0].value))] + ForgetFields(fields[1..])
  }

  // ----- The printer prints the key-ordered value

  function Raws(fields: seq<Entry<Value>>): seq<Entry<string>> {
    MapValues(v => Print(v, Raw), fields)
  }

  lemma {:induction false} PairsOfRaws(fields: seq<Entry<Value>>)
    ensures Pairs(Raws(fields)) == PrintFields(fields, Raw)
  {
    hide Print, PrintField;
    if fields != [] {
      PairsOfRaws(fields[1..]);
    }
  }

  lemma {:induction false} StringifyIsPrint(v: Value)
    ensures Stringify(v) == Print(Canon(v), Raw)
    decreases v
  {
    match v
    case Arr(items) => StringifyItemsIsPrint(items);
    case Obj(fields) =>
      StringifyFieldsIsPrint(fields);
      SortMapValues(x => Print(x, Raw), CanonFields(fields));
      PairsOfRaws(Sort(CanonFields(fields)));
    case _ =>
  }

  lemma {:induction false} StringifyItemsIsPrint(items: seq<Value>)
    ensures StringifyItems(items) == PrintItems(CanonItems(items), Raw)
    decreases items
  {
    hide Print, Stringify;
    if items != [] {
      StringifyIsPrint(items[0]);
      StringifyItemsIsPrint(items[1..]);
    }
  }

  lemma {:induction false} StringifyFieldsIsPrint(fields: seq<Entry<Value>>)
    ensures StringifyFields(fields) == Raws(CanonFields(fields))
    decreases fields
  {
    hide Print, Stringify;
    if fields != [] {
      StringifyIsPrint(fields[0].value);
      StringifyFieldsIsPrint(fields[1..]);
    }
  }

  // ----- Records

  lemma {:induction false} MapAt<T>(fields: seq<Entry<T>>, i: nat)
    requires i < |fields| && Distinct(Keys(fields))
    ensures fields[i].key in AsMap(fields) && AsMap(fields)[fields[i].key] == fields[i].value
  {
    DistinctTail(fields);
    if i > 0 {
      MapAt(fields[1..], i - 1);
    }
  }

  lemma {:induction false} MapFind<T>(fields: seq<Entry<T>>, key: string) returns (i: nat)
    requires key in AsMap(fields)
    ensures i < |fields| && fields[i].key == key && AsMap(fields)[key] == fields[i].value
  {
    if fields[0].key == key {
      i := 0;
    } else {
      i := MapFind(fields[1..], key);
      i := i + 1;
    }
  }

  lemma {:induction false} SameKeys<A, B>(a: seq<Entry<A>>, b: seq<Entry<B>>)
    requires |a| == |b| && forall i | 0 <= i < |a| :: a[i].key == b[i].key
    ensures Keys(a) == Keys(b)
  {
    if a != [] {
      SameKeys(a[1..], b[1..]);
    }
  }

  // ----- Same printed text, same value

  /** Values that differ only in field order get the same key-ordered value. */
  lemma {:induction false} SameFlatSameCanon(v: Value, w: Value)
    requires Valid(v) && Valid(w) && Forget(v) == Forget(w)
    ensures Canon(v) == Canon(w)
    decreases v
  {
    match v
    case Arr(items) =>
      forall i | 0 <= i < |items| ensures Canon(items[i]) == Canon(w.items[i]) {
        assert ForgetItems(items)[i] == ForgetItems(w.items)[i];
        SameFlatSameCanon(items[i], w.items[i]);
      }
      assert CanonItems(items) == CanonItems(w.items);
    case Obj(fields) =>
      assert AsMap(ForgetFields(fields)) == AsMap(ForgetFields(w.fields));
      SameFields(fields, w.fields);
    case _ =>
  }

  lemma {:induction false} SameFields(f: seq<Entry<Value>>, g: seq<Entry<Value>>)
    requires Distinct(Keys(f)) && Distinct(Keys(g))
    requires forall x | x in f :: Valid(x.value)
    requires forall x | x in g :: Valid(x.value)
    requires AsMap(ForgetFields(f)) == AsMap(ForgetFields(g))
    ensures Sort(CanonFields(f)) == Sort(CanonFields(g))
    decreases f, 1
  {
    hide Valid, Sort, Canon, Forget;
    var a, b := CanonFields(f), CanonFields(g);
    CanonKeys(f);
    CanonKeys(g);
    forall k | k in AsMap(a) ensures k in AsMap(b) && AsMap(a)[k] == AsMap(b)[k] {
      SameCanonAt(f, g, k);
    }
    assert AsMap(a) == AsMap(b);
    SortCorrect(a);
    SortCorrect(b);
    SortedUnique(Sort(a), Sort(b));
  }

  /** Neither printing nor forgetting changes the keys. */
  lemma CanonKeys(f: seq<Entry<Value>>)
    ensures Keys(CanonFields(f)) == Keys(f)
    ensures AsMap(CanonFields(f)).Keys == AsMap(ForgetFields(f)).Keys
  {
    hide Canon, Forget;
    SameKeys(f, CanonFields(f));
    SameKeys(f, ForgetFields(f));
    KeysOfMap(CanonFields(f));
    KeysOfMap(ForgetFields(f));
  }

  lemma {:induction false} SameCanonAt(f: seq<Entry<Value>>, g: seq<Entry<Value>>, key: string)
    requires Distinct(Keys(f)) && Distinct(Keys(g))
    requires forall x | x in f :: Valid(x.value)
    requires forall x | x in g :: Valid(x.value)
    requires AsMap(ForgetFields(f)) == AsMap(ForgetFields(g))
    requires key in AsMap(CanonFields(f)) && key in AsMap(CanonFields(g))
    ensures AsMap(CanonFields(f))[key] == AsMap(CanonFields(g))[key]
    decreases f, 0
  {
    hide Valid;
    var i := MapFind(CanonFields(f), key);
    var j := MapFind(CanonFields(g), key);
    SameKeys(f, ForgetFields(f));
    SameKeys(g, ForgetFields(g));
    MapAt(ForgetFields(f), i);
    MapAt(ForgetFields(g), j);
    assert f[i] in f && g[j] in g;
    SameFlatSameCanon(f[i].value, g[j].value);
  }

  /** Ordering the keys changes nothing that can be observed by indexing. */
  lemma {:induction false} CanonKeepsFlat(v: Value)
    requires Valid(v)
    ensures Forget(Canon(v)) == Forget(v)
    decreases v
  {
    match v
    case Arr(items) =>
      forall i | 0 <= i < |items| ensures Forget(CanonItems(items)[i]) == Forget(items[i]) {
        assert items[i] in items;
        CanonKeepsFlat(items[i]);
      }
      assert ForgetItems(CanonItems(items)) == ForgetItems(items);
    case Obj(fields) =>
      var a := CanonFields(fields);
      forall i | 0 <= i < |fields| ensures Forget(a[i].value) == Forget(fields[i].value) {
        assert fields[i] in fields;
        CanonKeepsFlat(fields[i].value);
      }
      assert ForgetFields(a) == ForgetFields(fields);
      ForgetSorted(a);
      SameKeys(fields, ForgetFields(fields));
      SortCorrect(ForgetFields(fields));
    case _ =>
  }

  lemma ForgetSorted(fields: seq<Entry<Value>>)
    ensures ForgetFields(Sort(fields)) == Sort(ForgetFields(fields))
  {
    ForgetIsMap(fields);
    ForgetIsMap(Sort(fields));
    SortMapValues(Forget, fields);
  }

  lemma {:induction false} ForgetIsMap(fields: seq<Entry<Value>>)
    ensures ForgetFields(fields) == MapValues(Forget, fields)
  {
    hide Forget;
    if fields != [] {
      ForgetIsMap(fields[1..]);
    }
  }

  lemma {:induction false} CanonPrintable(v: Value)
    requires Valid(v) && Printable(v, Raw)
    ensures Printable(Canon(v), Raw)
    decreases v
  {
    match v
    case Arr(items) =>
      forall i | 0 <= i < |items| ensures Printable(CanonItems(items)[i], Raw) {
        assert items[i] in items;
        CanonPrintable(items[i]);
      }
    case Obj(fields) =>
      var a := CanonFields(fields);
      forall i | 0 <= i < |fields| ensures PrintableField(a[i], Raw) {
        assert fields[i] in fields;
        CanonPrintable(fields[i].value);
      }
      forall x | x in Sort(a) ensures PrintableField(x, Raw) {
        SortMembers(a, x);
      }
    case _ =>
  }

  lemma {:induction false} InsertMembers<T>(x: Entry<T>, fields: seq<Entry<T>>, y: Entry<T>)
    ensures y in Insert(x, fields) <==> y == x || y in fields
  {
    hide Less;
    if fields != [] {
      InsertMembers(x, fields[1..], y);
      assert fields == [fields[0]] + fields[1..];
    }
  }

  lemma {:induction false} SortMembers<T>(fields: seq<Entry<T>>, y: Entry<T>)
    ensures y in Sort(fields) <==> y in fields
  {
    if fields != [] {
      SortMembers(fields[1..], y);
      InsertMembers(fields[0], Sort(fields[1..]), y);
      assert fields == [fields[0]] + fields[1..];
    }
  }

  /** The text does not depend on the order in which keys were inserted, at any depth. */
  lemma StringifyIgnoresOrder(v: Value, w: Value)
    requires Valid(v) && Valid(w) && Forget(v) == Forget(w)
    ensures Stringify(v) == Stringify(w)
  {
    SameFlatSameCanon(v, w);
    StringifyIsPrint(v);
    StringifyIsPrint(w);
  }

  /** As long as no key contains a quote and a colon in a row, two values have the same text if and only if
      they are the same value up to field order. */
  lemma StringifyCanonical(v: Value, w: Value)
    requires Valid(v) && Valid(w) && Printable(v, Raw) && Printable(w, Raw)
    ensures Stringify(v) == Stringify(w) <==> Forget(v) == Forget(w)
  {
    if Forget(v) == Forget(w) {
      StringifyIgnoresOrder(v, w);
    }
    StringifyIsPrint(v);
    StringifyIsPrint(w);
    CanonPrintable(v);
    CanonPrintable(w);
    CanonKeepsFlat(v);
    CanonKeepsFlat(w);
    if Stringify(v) == Stringify(w) {
      PrintInjective(Canon(v), Canon(w), Raw);
    }
  }

  /** The text of a key, its value, and the start of another key. */
  function KeyLike(k: string, x: Value, l: string): string {
    k + "\":" + Stringify(x) + ",\"" + l
  }

  /** Without that condition it fails: keys are not escaped, so one key can read like a key, its value and
      another key. An object with a single key reads like one with the keys `k` and `l` and the same last
      value exactly if its key is of that form. */
  lemma QuotedKeyCollides(key: string, k: string, l: string, x: Value, y: Value)
    requires Less(k, l) && Valid(x) && Valid(y)
    ensures var v, w := Obj([Entry(key, y)]), Obj([Entry(k, x), Entry(l, y)]);
            && Valid(v) && Valid(w) && Forget(v) != Forget(w)
            && (Stringify(v) == Stringify(w) <==> key == KeyLike(k, x, l))
  {
    var v, w := Obj([Entry(key, y)]), Obj([Entry(k, x), Entry(l, y)]);
    DifferentKeys(key, k, l, x, y);
    OneText(key, y);
    TwoText(k, x, l, y);
    hide *;
    if Stringify(v) == Stringify(w) {
      SameMiddle("{\"", key, KeyLike(k, x, l), "\":" + Stringify(y) + "}");
    }
  }

  lemma SameMiddle(a: string, s: string, t: string, b: string)
    requires a + s + b == a + t + b
    ensures s == t
  {
    assert |s| == |t|;
    assert s == (a + s + b)[|a|..|a| + |s|] && t == (a + t + b)[|a|..|a| + |t|];
  }

  lemma DifferentKeys(key: string, k: string, l: string, x: Value, y: Value)
    requires Less(k, l) && Valid(x) && Valid(y)
    ensures var v, w := Obj([Entry(key, y)]), Obj([Entry(k, x), Entry(l, y)]);
            Valid(v) && Valid(w) && Forget(v) != Forget(w)
  {
    LessTotal(k, l);
    hide Less;
    KeysOne(Entry(key, y));
    KeysTwo(Entry(k, x), Entry(l, y));
    OneForgotten(key, y);
    TwoForgotten(k, x, l, y);
    assert k in {k, l} && l in {k, l};
  }

  lemma KeysOne<T>(e: Entry<T>)
    ensures Keys([e]) == [e.key]
  {
    assert [e][1..] == [];
  }

  lemma KeysTwo<T>(e: Entry<T>, f: Entry<T>)
    ensures Keys([e, f]) == [e.key, f.key]
  {
    assert [e, f][1..] == [f];
    KeysOne(f);
  }

  lemma TwoForgotten(k: string, x: Value, l: string, y: Value)
    ensures AsMap(ForgetFields([Entry(k, x), Entry(l, y)])).Keys == {k, l}
  {
    hide Forget;
    assert [Entry(k, x), Entry(l, y)][1..] == [Entry(l, y)];
    OneForgotten(l, y);
    var flat, rest := ForgetFields([Entry(k, x), Entry(l, y)]), ForgetFields([Entry(l, y)]);
    assert flat == [Entry(k, Forget(x))] + rest && flat[1..] == rest;
  }

  lemma OneForgotten(key: string, y: Value)
    ensures AsMap(ForgetFields([Entry(key, y)])).Keys == {key}
  {
    assert [Entry(key, y)][1..] == [];
    var flat := ForgetFields([Entry(key, y)]);
    assert flat == [Entry(key, Forget(y))] + ForgetFields([]);
    assert flat[1..] == [];
  }

  lemma OneText(key: string, y: Value)
    ensures Stringify(Obj([Entry(key, y)])) == "{\"" + key + ("\":" + Stringify(y) + "}")
  {
    var x, f := Entry(key, y), Entry(key, Stringify(y));
    assert [x][1..] == [] && [f][1..] == [];
    assert StringifyFields([x]) == [f];
    SortedOne(f);
    PairsOne(f);
    hide PrintField, Stringify;
    assert StringifyObject([x]) by { ObjectText([x]); }
    RawFieldEnd(key, Stringify(y));
    BraceFirst(key, "\":", Stringify(y));
  }

  /** The text of an object, from the texts of its fields. */
  predicate StringifyObject(fields: seq<Entry<Value>>) {
    Stringify(Obj(fields)) == "{" + Join(Pairs(Sort(StringifyFields(fields))), ',') + "}"
  }

  lemma ObjectText(fields: seq<Entry<Value>>)
    ensures StringifyObject(fields)
  {
  }

  lemma RawFieldEnd(k: string, p: string)
    ensures PrintField(k, p, Raw) == "\"" + (k + "\":" + p)
  {
    hide PrintField;
    RawField(k, p, "");
    NoTail(PrintField(k, p, Raw));
    NoTail(p);
  }

  lemma NoTail(s: string)
    ensures s + "" == s
  {
  }

  lemma BraceFirst(key: string, close: string, p: string)
    ensures "{" + ("\"" + (key + close + p)) + "}" == "{\"" + key + (close + p + "}")
  {
    assert "{" + "\"" == "{\"";
  }

  lemma SortedOne<T>(f: Entry<T>)
    ensures Sort([f]) == [f]
  {
    assert [f][1..] == [];
    assert Sort([f]) == Insert(f, Sort([]));
  }

  lemma SortedTwo<T>(e: Entry<T>, f: Entry<T>)
    requires Less(e.key, f.key)
    ensures Sort([e, f]) == [e, f]
  {
    LessTotal(e.key, f.key);
    hide Less;
    assert [e, f][1..] == [f] && [f][1..] == [];
    SortedOne(f);
    assert Sort([e, f]) == Insert(e, [f]);
  }

  lemma PairsOne(f: Entry<string>)
    ensures Pairs([f]) == [PrintField(f.key, f.value, Raw)]
  {
    assert [f][1..] == [];
  }

  lemma PairsTwo(e: Entry<string>, f: Entry<string>)
    ensures Join(Pairs([e, f]), ',') == PrintField(e.key, e.value, Raw) + "," + PrintField(f.key, f.value, Raw)
  {
    hide PrintField;
    assert [e, f][1..] == [f];
    PairsOne(f);
    var a, b := PrintField(e.key, e.value, Raw), PrintField(f.key, f.value, Raw);
    assert Pairs([e, f]) == [a] + [b] && ([a] + [b])[1..] == [b];
  }

  lemma TwoText(k: string, x: Value, l: string, y: Value)
    requires Less(k, l)
    ensures Stringify(Obj([Entry(k, x), Entry(l, y)])) == "{\"" + KeyLike(k, x, l) + ("\":" + Stringify(y) + "}")
  {
    var e, f := Entry(k, x), Entry(l, y);
    var p, q := Entry(k, Stringify(x)), Entry(l, Stringify(y));
    assert [e, f][1..] == [f] && [f][1..] == [];
    assert StringifyFields([f]) == [q];
    assert StringifyFields([e, f]) == [p] + [q] == [p, q];
    SortedTwo(p, q);
    PairsTwo(p, q);
    hide PrintField, Stringify, Less;
    ObjectText([e, f]);
    var a, b := PrintField(k, Stringify(x), Raw), PrintField(l, Stringify(y), Raw);
    assert Stringify(Obj([e, f])) == "{" + (a + "," + b) + "}";
    RawFieldEnd(k, Stringify(x));
    RawFieldEnd(l, Stringify(y));
    TwoFieldsText(k, Stringify(x), l, Stringify(y), a, b);
  }

  lemma TwoFieldsText(k: string, p: string, l: string, q: string, a: string, b: string)
    requires a == "\"" + (k + "\":" + p) && b == "\"" + (l + "\":" + q)
    ensures "{" + (a + "," + b) + "}" == "{\"" + (k + "\":" + p + ",\"" + l) + ("\":" + q + "}")
  {
    var quote, comma, close := "\"", ",", "\":";
    assert "{\"" == "{" + quote && ",\"" == comma + quote;
    SevenParts("{", quote, k + close + p, comma, l, close + q, "}");
  }

  lemma SevenParts(open: string, quote: string, first: string, comma: string, l: string, last: string, end: string)
    ensures open + ((quote + first) + comma + (quote + (l + last))) + end
         == (open + quote) + (first + (comma + quote) + l) + (last + end)
  {
  }
}
