/** JavaScript objects as field lists: reading, writing and deleting properties, and `{...a, ...b}`. */
module Records {
  import opened Text
  import opened Json

  type Fields = seq<Entry<Value>>

  function Lookup(fields: Fields, key: string): Option<Value> {
    if fields == [] then None
    else if fields[0].key == key then Some(fields[0].value)
    else Lookup(fields[1..], key)
  }

  /** `obj[key]` */
  function Get(fields: Fields, key: string): Value {
    match Lookup(fields, key) case Some(v) => v case None => Undefined
  }

  /** `obj[key] = v`: an existing field keeps its place. */
  function Put(fields: Fields, key: string, v: Value): (r: Fields)
    ensures forall k :: Lookup(r, k) == if k == key then Some(v) else Lookup(fields, k)
  {
    if fields == [] then [Entry(key, v)]
    else if fields[0].key == key then [Entry(key, v)] + fields[1..]
    else [fields[0]] + Put(fields[1..], key, v)
  }

  /** `delete obj[key]` */
  function Remove(fields: Fields, key: string): (r: Fields)
    ensures forall k :: Lookup(r, k) == if k == key then None else Lookup(fields, k)
  {
    if fields == [] then []
    else if fields[0].key == key then Remove(fields[1..], key)
    else [fields[0]] + Remove(fields[1..], key)
  }

  /** `{...fields, ...extra}` */
  function Spread(fields: Fields, extra: Fields): Fields
    decreases |extra|
  {
    if extra == [] then fields else Spread(Put(fields, extra[0].key, extra[0].value), extra[1..])
  }

  lemma {:induction false} SpreadLookup(fields: Fields, extra: Fields, key: string)
    requires Distinct(Keys(extra))
    ensures Lookup(Spread(fields, extra), key)
         == if Lookup(extra, key).Some? then Lookup(extra, key) else Lookup(fields, key)
    decreases |extra|
  {
    if extra != [] {
      DistinctRest(extra);
      SpreadLookup(Put(fields, extra[0].key, extra[0].value), extra[1..], key);
    }
  }

  function RemoveAll(fields: Fields, keys: seq<string>): (r: Fields)
    ensures forall k :: Lookup(r, k) == if k in keys then None else Lookup(fields, k)
    decreases |keys|
  {
    if keys == [] then fields else RemoveAll(Remove(fields, keys[0]), keys[1..])
  }

  lemma {:induction false} LookupKeys(fields: Fields, key: string)
    ensures Lookup(fields, key).Some? <==> key in Keys(fields)
  {
    if fields != [] {
      LookupKeys(fields[1..], key);
    }
  }

  lemma DistinctRest(fields: Fields)
    requires fields != [] && Distinct(Keys(fields))
    ensures Distinct(Keys(fields[1..])) && Lookup(fields[1..], fields[0].key).None?
  {
    var keys := Keys(fields);
    LookupKeys(fields[1..], fields[0].key);
    assert keys[1..] == Keys(fields[1..]);
    assert forall i | 0 < i < |keys| :: keys[i] != keys[0];
    assert forall k :: k in keys[1..] ==> k != keys[0];
  }

  lemma {:induction false} PutDistinct(fields: Fields, key: string, v: Value)
    requires Distinct(Keys(fields))
    ensures Distinct(Keys(Put(fields, key, v)))
  {
    if fields != [] {
      DistinctRest(fields);
      if fields[0].key == key {
        assert Keys(Put(fields, key, v)) == [key] + Keys(fields[1..]) == Keys(fields);
      } else {
        PutDistinct(fields[1..], key, v);
        var rest := Put(fields[1..], key, v);
        LookupKeys(rest, fields[0].key);
        assert Keys(Put(fields, key, v)) == [fields[0].key] + Keys(rest);
      }
    }
  }

  /** A field's value is a proper part of the object. */
  lemma {:induction false} LookupSmaller(v: Value, fields: Fields, key: string)
    requires forall f :: f in fields ==> f.value < v
    requires Lookup(fields, key).Some?
    ensures Lookup(fields, key).value < v
  {
    if fields[0].key != key {
      assert forall f :: f in fields[1..] ==> f in fields;
      LookupSmaller(v, fields[1..], key);
    } else {
      assert fields[0] in fields;
    }
  }

  lemma {:induction false} LookupJson(fields: Fields, key: string)
    requires forall f :: f in fields ==> IsJson(f.value)
    ensures Lookup(fields, key).Some? ==> IsJson(Lookup(fields, key).value)
  {
    hide IsJson;
    if fields != [] {
      assert fields[0] in fields && forall f :: f in fields[1..] ==> f in fields;
      LookupJson(fields[1..], key);
    }
  }
}
