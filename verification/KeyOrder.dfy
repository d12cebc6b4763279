/** The order of `Array.prototype.sort` on strings, and sorting the fields of an object by key. */
module KeyOrder {
  import opened Text
  import opened Json

  type CodeUnit = u: nat | u < 0x10000

  /** UTF-16 code units of a character (section 11.1.1 of ECMA-262). */
  function Units(c: char): (u: seq<CodeUnit>)
    ensures u != []
  {
    var n := c as int;
    if n < 0x10000 then [n]
    else [0xD800 + (n - 0x10000) / 0x400, 0xDC00 + (n - 0x10000) % 0x400]
  }

  function Utf16(s: string): seq<CodeUnit> {
    if s == "" then [] else Units(s[0]) + Utf16(s[1..])
  }

  /** A code unit stands for its character; a high surrogate and a low one for a character beyond 0xFFFF
      (section 11.1.3 of ECMA-262). */
  lemma UnitsDecode(c: char)
    ensures var u := Units(c);
            || (|u| == 1 && u[0] == c as int)
            || (|u| == 2 && 0xD800 <= u[0] <= 0xDBFF && 0xDC00 <= u[1] <= 0xDFFF
                && c as int == (u[0] as int - 0xD800) * 0x400 + (u[1] as int - 0xDC00) + 0x10000)
  {
  }

  lemma {:induction false} Utf16Injective(s: string, t: string)
    requires Utf16(s) == Utf16(t)
    ensures s == t
  {
    if s != "" && t != "" {
      var u, v := Utf16(s), Utf16(t);
      assert u[0] == Units(s[0])[0] && v[0] == Units(t[0])[0];
      assert |Units(s[0])| == 2 ==> 0xD800 <= u[0] < 0xDC00;
      assert |Units(t[0])| == 2 ==> 0xD800 <= v[0] < 0xDC00;
      assert |Units(s[0])| == 2 ==> u[1] == Units(s[0])[1];
      assert |Units(t[0])| == 2 ==> v[1] == Units(t[0])[1];
      assert s[0] == t[0];
      assert Utf16(s[1..]) == u[|Units(s[0])|..];
      Utf16Injective(s[1..], t[1..]);
      assert s == [s[0]] + s[1..] && t == [t[0]] + t[1..];
    }
  }

  predicate UnitsLess(a: seq<nat>, b: seq<nat>) {
    b != [] && (a == [] || a[0] < b[0] || (a[0] == b[0] && UnitsLess(a[1..], b[1..])))
  }

  /** The two sequences agree up to `k`, where the first one ends or has the smaller unit. */
  predicate SmallerAt(a: seq<nat>, b: seq<nat>, k: nat) {
    k <= |a| && k < |b| && a[..k] == b[..k] && (k == |a| || a[k] < b[k])
  }

  /** The order is lexicographic, a proper prefix first (section 7.2.12 of ECMA-262). */
  lemma {:induction false} LexicographicOrder(a: seq<nat>, b: seq<nat>)
    ensures UnitsLess(a, b) <==> exists k: nat :: SmallerAt(a, b, k)
  {
    if a != [] && b != [] && a[0] == b[0] {
      LexicographicOrder(a[1..], b[1..]);
      if k: nat :| SmallerAt(a[1..], b[1..], k) {
        assert a[..k + 1] == [a[0]] + a[1..][..k] && b[..k + 1] == [b[0]] + b[1..][..k];
        assert SmallerAt(a, b, k + 1);
      }
      if k: nat :| SmallerAt(a, b, k) {
        assert a[1..][..k - 1] == a[..k][1..] && b[1..][..k - 1] == b[..k][1..];
        assert SmallerAt(a[1..], b[1..], k - 1);
      }
    } else {
      assert SmallerAt(a, b, 0) <==> b != [] && (a == [] || a[0] < b[0]);
      assert forall k: nat | k > 0 && SmallerAt(a, b, k) :: a[..k][0] == b[..k][0];
    }
  }

  lemma {:induction false} UnitsTotal(a: seq<nat>, b: seq<nat>)
    ensures UnitsLess(a, b) || UnitsLess(b, a) || a == b
    ensures !(UnitsLess(a, b) && UnitsLess(b, a))
    ensures !UnitsLess(a, a)
  {
    if a != [] && b != [] && a[0] == b[0] {
      UnitsTotal(a[1..], b[1..]);
      assert a == [a[0]] + a[1..] && b == [b[0]] + b[1..];
    }
    if a != [] {
      UnitsTotal(a[1..], []);
    }
  }

  lemma {:induction false} UnitsTransitive(a: seq<nat>, b: seq<nat>, c: seq<nat>)
    requires UnitsLess(a, b) && UnitsLess(b, c)
    ensures UnitsLess(a, c)
  {
    if a != [] && a[0] == b[0] && b[0] == c[0] {
      UnitsTransitive(a[1..], b[1..], c[1..]);
    }
  }

  predicate Less(s: string, t: string) {
    UnitsLess(Utf16(s), Utf16(t))
  }

  /** `Less` is a strict total order. */
  lemma LessTotal(s: string, t: string)
    ensures Less(s, t) || Less(t, s) || s == t
    ensures !(Less(s, t) && Less(t, s)) && !Less(s, s)
  {
    UnitsTotal(Utf16(s), Utf16(t));
    if Utf16(s) == Utf16(t) {
      Utf16Injective(s, t);
    }
  }

  lemma LessTransitive(s: string, t: string, u: string)
    requires Less(s, t) && Less(t, u)
    ensures Less(s, u)
  {
    UnitsTransitive(Utf16(s), Utf16(t), Utf16(u));
  }

  // ----- Sorting fields by key

  function Insert<T>(x: Entry<T>, fields: seq<Entry<T>>): seq<Entry<T>> {
    if fields == [] || !Less(fields[0].key, x.key) then [x] + fields
    else [fields[0]] + Insert(x, fields[1..])
  }

  function Sort<T>(fields: seq<Entry<T>>): seq<Entry<T>> {
    if fields == [] then [] else Insert(fields[0], Sort(fields[1..]))
  }

  predicate Sorted<T>(fields: seq<Entry<T>>) {
    forall i | 0 < i < |fields| :: Less(fields[i - 1].key, fields[i].key)
  }

  /** The record that a list of fields stands for. */
  function AsMap<T>(fields: seq<Entry<T>>): map<string, T> {
    if fields == [] then map[] else AsMap(fields[1..])[fields[0].key := fields[0].value]
  }

  lemma {:induction false} KeysOfMap<T>(fields: seq<Entry<T>>)
    ensures forall k :: k in AsMap(fields) <==> k in Keys(fields)
  {
    if fields != [] {
      KeysOfMap(fields[1..]);
    }
  }

  lemma {:induction false} InsertAsMap<T>(x: Entry<T>, fields: seq<Entry<T>>)
    requires x.key !in AsMap(fields)
    ensures AsMap(Insert(x, fields)) == AsMap(fields)[x.key := x.value]
  {
    hide Less;
    if fields != [] && Less(fields[0].key, x.key) {
      InsertAsMap(x, fields[1..]);
      assert AsMap(fields[1..])[x.key := x.value][fields[0].key := fields[0].value]
          == AsMap(fields[1..])[fields[0].key := fields[0].value][x.key := x.value];
    }
  }

  lemma {:induction false} InsertSorted<T>(x: Entry<T>, fields: seq<Entry<T>>)
    requires Sorted(fields) && x.key !in AsMap(fields)
    ensures Sorted(Insert(x, fields))
    ensures Insert(x, fields) != []
    ensures fields != [] ==> Insert(x, fields)[0].key == x.key || Insert(x, fields)[0].key == fields[0].key
  {
    hide Less;
    if fields != [] {
      LessTotal(x.key, fields[0].key);
      if Less(fields[0].key, x.key) {
        InsertSorted(x, fields[1..]);
      }
    }
  }

  lemma DistinctTail<T>(fields: seq<Entry<T>>)
    requires fields != [] && Distinct(Keys(fields))
    ensures Distinct(Keys(fields[1..])) && fields[0].key !in AsMap(fields[1..])
  {
    var keys := Keys(fields);
    KeysOfMap(fields[1..]);
    assert keys[1..] == Keys(fields[1..]);
    assert forall i | 0 < i < |keys| :: keys[i] != keys[0];
    assert forall k :: k in keys[1..] ==> k != keys[0];
  }

  /** Sorting keeps the record and puts the keys in strictly increasing order. */
  lemma {:induction false} SortCorrect<T>(fields: seq<Entry<T>>)
    requires Distinct(Keys(fields))
    ensures AsMap(Sort(fields)) == AsMap(fields) && Sorted(Sort(fields))
  {
    if fields != [] {
      DistinctTail(fields);
      SortCorrect(fields[1..]);
      InsertAsMap(fields[0], Sort(fields[1..]));
      InsertSorted(fields[0], Sort(fields[1..]));
    }
  }

  lemma {:induction false} SortedFirst<T>(fields: seq<Entry<T>>, key: string)
    requires Sorted(fields) && key in AsMap(fields)
    ensures fields != [] && (key == fields[0].key || Less(fields[0].key, key))
  {
    hide Less;
    if key != fields[0].key {
      SortedFirst(fields[1..], key);
      assert Less(fields[0].key, fields[1].key);
      if key != fields[1].key {
        LessTransitive(fields[0].key, fields[1].key, key);
      }
    }
  }

  lemma SortedTail<T>(fields: seq<Entry<T>>)
    requires fields != [] && Sorted(fields)
    ensures Sorted(fields[1..]) && fields[0].key !in AsMap(fields[1..])
  {
    hide Less;
    if fields[0].key in AsMap(fields[1..]) {
      SortedFirst(fields[1..], fields[0].key);
      LessTotal(fields[0].key, fields[1].key);
    }
  }

  /** A record has only one sorted list of fields. */
  lemma {:induction false} SortedUnique<T>(a: seq<Entry<T>>, b: seq<Entry<T>>)
    requires Sorted(a) && Sorted(b) && AsMap(a) == AsMap(b)
    ensures a == b
  {
    hide Less;
    assert b != [] ==> b[0].key in AsMap(b);
    if a != [] {
      assert a[0].key in AsMap(a);
      SortedFirst(b, a[0].key);
      assert b[0].key in AsMap(b);
      SortedFirst(a, b[0].key);
      LessTotal(a[0].key, b[0].key);
      assert AsMap(a)[a[0].key] == a[0].value && AsMap(b)[b[0].key] == b[0].value;
      SortedTail(a);
      SortedTail(b);
      assert AsMap(a[1..]) == AsMap(a) - {a[0].key};
      assert AsMap(b[1..]) == AsMap(b) - {b[0].key};
      SortedUnique(a[1..], b[1..]);
      assert a == [a[0]] + a[1..] && b == [b[0]] + b[1..];
    }
  }

  function MapValues<A, B>(f: A -> B, fields: seq<Entry<A>>): (r: seq<Entry<B>>)
    ensures |r| == |fields|
  {
    if fields == [] then []
    else [Entry(fields[0].key, f(fields[0].value))] + MapValues(f, fields[1..])
  }

  lemma {:induction false} InsertMapValues<A, B>(f: A -> B, x: Entry<A>, fields: seq<Entry<A>>)
    ensures MapValues(f, Insert(x, fields)) == Insert(Entry(x.key, f(x.value)), MapValues(f, fields))
  {
    hide Less;
    if fields != [] && Less(fields[0].key, x.key) {
      InsertMapValues(f, x, fields[1..]);
    }
  }

  /** Sorting looks at the keys only. */
  lemma {:induction false} SortMapValues<A, B>(f: A -> B, fields: seq<Entry<A>>)
    ensures MapValues(f, Sort(fields)) == Sort(MapValues(f, fields))
  {
    if fields != [] {
      SortMapValues(f, fields[1..]);
      InsertMapValues(f, fields[0], Sort(fields[1..]));
    }
  }
}
