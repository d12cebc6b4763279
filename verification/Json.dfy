/** JavaScript data values, `JSON.stringify`, and the deterministic printer of snapshot.ts. */
module Json {
  import opened Text

  datatype Entry<+T> = Entry(key: string, value: T)

  /** A plain data value. The fields of an object are in insertion order; a number is carried as the
      text that `String(n)` gives it (section 6.1.6.1.20 of ECMA-262). */
  datatype Value =
    | Undefined
    | Null
    | Bool(b: bool)
    | Num(text: string)
    | Str(s: string)
    | Arr(items: seq<Value>)
    | Obj(fields: seq<Entry<Value>>)

  const WORDS: set<string> := {"NaN", "Infinity", "-Infinity"}

  predicate IsNumberText(t: string) {
    t in WORDS || (t != "" && forall c | c in t :: IsDigit(c) || c in "+-.e")
  }

  function Keys<T>(fields: seq<Entry<T>>): seq<string> {
    if fields == [] then [] else [fields[0].key] + Keys(fields[1..])
  }

  /** An object has one field per key, at every depth, and every number is a number. */
  predicate Valid(v: Value) {
    match v
    case Num(t) => IsNumberText(t)
    case Arr(items) => forall x | x in items :: Valid(x)
    case Obj(fields) => Distinct(Keys(fields)) && forall f | f in fields :: Valid(f.value)
    case _ => true
  }

  // ----- String quoting: section 25.5.2.3 of ECMA-262, QuoteJSONString

  predicate IsHexDigit(c: char) {
    '0' <= c <= '9' || 'a' <= c <= 'f'
  }

  function HexDigit(d: nat): (c: char)
    requires d < 16
    ensures IsHexDigit(c)
  {
    "0123456789abcdef"[d]
  }

  function EscapeChar(c: char): (e: string)
    ensures e != ""
  {
    var n := c as int;
    if c == '"' then "\\\""
    else if c == '\\' then "\\\\"
    else if n == 8 then "\\b"
    else if n == 9 then "\\t"
    else if n == 10 then "\\n"
    else if n == 12 then "\\f"
    else if n == 13 then "\\r"
    else if n < 32 then "\\u00" + [HexDigit(n / 16), HexDigit(n % 16)]
    else [c]
  }

  function Escape(s: string): string {
    if s == "" then "" else EscapeChar(s[0]) + Escape(s[1..])
  }

  function Quote(s: string): string {
    "\"" + Escape(s) + "\""
  }

  // ----- Printing in field order

  /** How keys are written: as they are, or quoted like strings. */
  datatype KeyStyle = Raw | Escaped

  function PrintKey(key: string, style: KeyStyle): string {
    if style == Raw then "\"" + key + "\"" else Quote(key)
  }

  function Print(v: Value, style: KeyStyle): string {
    match v
    case Undefined => "undefined"
    case Null => "null"
    case Bool(b) => if b then "true" else "false"
    case Num(t) => t
    case Str(s) => Quote(s)
    case Arr(items) => "[" + Join(PrintItems(items, style), ',') + "]"
    case Obj(fields) => "{" + Join(PrintFields(fields, style), ',') + "}"
  }

  function PrintItems(items: seq<Value>, style: KeyStyle): (texts: seq<string>)
    ensures |texts| == |items|
  {
    if items == [] then [] else [Print(items[0], style)] + PrintItems(items[1..], style)
  }

  function PrintField(key: string, text: string, style: KeyStyle): string {
    PrintKey(key, style) + ":" + text
  }

  function PrintFields(fields: seq<Entry<Value>>, style: KeyStyle): (texts: seq<string>)
    ensures |texts| == |fields|
  {
    if fields == [] then []
    else [PrintField(fields[0].key, Print(fields[0].value, style), style)] + PrintFields(fields[1..], style)
  }

  // ----- JSON.stringify and JSON.parse

  /** The value that `JSON.stringify(v)` writes down, or `None` where it returns `undefined`. */
  function Wire(v: Value): Option<Value> {
    match v
    case Undefined => None
    case Num(t) => if t in WORDS then Some(Null) else Some(v)
    case Arr(items) => Some(Arr(WireItems(items)))
    case Obj(fields) => Some(Obj(WireFields(fields)))
    case _ => Some(v)
  }

  function WireItems(items: seq<Value>): seq<Value> {
    if items == [] then []
    else
      var w := Wire(items[0]);
      [if w.Some? then w.value else Null] + WireItems(items[1..])
  }

  function WireFields(fields: seq<Entry<Value>>): seq<Entry<Value>> {
    if fields == [] then []
    else
      var w := Wire(fields[0].value);
      (if w.Some? then [Entry(fields[0].key, w.value)] else []) + WireFields(fields[1..])
  }

  /** `JSON.stringify(v)` */
  function JsonText(v: Value): Option<string> {
    match Wire(v)
    case None => None
    case Some(w) => Some(Print(w, Escaped))
  }

  /** A value that JSON can carry: no `undefined` and no non-finite number at any depth. */
  predicate IsJson(v: Value) {
    match v
    case Undefined => false
    case Num(t) => t !in WORDS && IsNumberText(t)
    case Arr(items) => forall x | x in items :: IsJson(x)
    case Obj(fields) => forall f | f in fields :: IsJson(f.value)
    case _ => true
  }

  /** `JSON.parse(JSON.stringify(v))` gives a JSON value back unchanged. */
  lemma {:induction false} WireJson(v: Value)
    requires IsJson(v)
    ensures Wire(v) == Some(v)
    decreases v
  {
    match v
    case Arr(items) => WireJsonItems(v, items);
    case Obj(fields) => WireJsonFields(v, fields);
    case _ =>
  }

  lemma {:induction false} WireJsonItems(v: Value, items: seq<Value>)
    requires forall x :: x in items ==> x < v && IsJson(x)
    ensures WireItems(items) == items
    decreases v, |items|
  {
    if items != [] {
      assert items[0] in items && forall x :: x in items[1..] ==> x in items;
      WireJson(items[0]);
      WireJsonItems(v, items[1..]);
    }
  }

  lemma {:induction false} WireJsonFields(v: Value, fields: seq<Entry<Value>>)
    requires forall f :: f in fields ==> f.value < v && IsJson(f.value)
    ensures WireFields(fields) == fields
    decreases v, |fields|
  {
    if fields != [] {
      var f := fields[0];
      assert f in fields;
      WireJson(f.value);
      assert forall g :: g in fields[1..] ==> g in fields;
      WireJsonFields(v, fields[1..]);
    }
  }

  /** What the wire makes of other values: `undefined` is dropped, except from arrays, where it becomes
      null, like the numbers that are not finite. */
  lemma WireScalars(t: string)
    ensures Wire(Undefined) == None
    ensures t == "NaN" || t == "Infinity" || t == "-Infinity" ==> Wire(Num(t)) == Some(Null)
    ensures t != "NaN" && t != "Infinity" && t != "-Infinity" ==> Wire(Num(t)) == Some(Num(t))
  {
  }

  lemma {:induction false} WireItem(items: seq<Value>, i: nat)
    requires i < |items|
    ensures |WireItems(items)| == |items|
    ensures if items[i] == Undefined then WireItems(items)[i] == Null
            else Wire(items[i]) == Some(WireItems(items)[i])
  {
    if |items| > 1 {
      WireItem(items[1..], if i == 0 then 0 else i - 1);
    }
  }

  /** The result is always a JSON value. */
  lemma {:induction false} WireIsJson(v: Value)
    requires Valid(v)
    ensures Wire(v).Some? ==> IsJson(Wire(v).value)
    decreases v
  {
    match v
    case Arr(items) => WireItemsJson(v, items);
    case Obj(fields) => WireFieldsJson(v, fields);
    case _ =>
  }

  lemma {:induction false} WireItemsJson(v: Value, items: seq<Value>)
    requires forall x :: x in items ==> x < v && Valid(x)
    ensures forall x :: x in WireItems(items) ==> IsJson(x)
    decreases v, |items|
  {
    hide Valid;
    if items != [] {
      assert items[0] in items && forall x :: x in items[1..] ==> x in items;
      WireIsJson(items[0]);
      WireItemsJson(v, items[1..]);
    }
  }

  lemma {:induction false} WireFieldsJson(v: Value, fields: seq<Entry<Value>>)
    requires forall f :: f in fields ==> f.value < v && Valid(f.value)
    ensures forall f :: f in WireFields(fields) ==> IsJson(f.value)
    decreases v, |fields|
  {
    hide Valid;
    if fields != [] {
      assert fields[0] in fields && forall f :: f in fields[1..] ==> f in fields;
      WireIsJson(fields[0].value);
      WireFieldsJson(v, fields[1..]);
    }
  }
}
