/** Reading the deterministic text character by character: where a key that is not escaped can end. */
module JsonScan {
  import opened Text
  import opened Json
  import opened JsonInjective
  import opened KeyOrder
  import opened JsonCanonical

  // ----- A reader that only tells strings from what is around them

  datatype Mode = Outside | Inside | Escaping

  datatype State = State(mode: Mode, depth: int)

  function Read(st: State, c: char): State {
    match st.mode
    case Escaping => State(Inside, st.depth)
    case Inside => State(if c == '\\' then Escaping else if c == '"' then Outside else Inside, st.depth)
    case Outside =>
      if c == '"' then State(Inside, st.depth)
      else if c == '[' || c == '{' then State(Outside, st.depth + 1)
      else if c == ']' || c == '}' then State(Outside, st.depth - 1)
      else st
  }

  function Scan(st: State, s: string): State
    decreases |s|
  {
    if s == "" then st else Scan(Read(st, s[0]), s[1..])
  }

  /** Outside strings the depth never falls below `floor`, and no backslash comes. */
  predicate High(st: State, s: string, floor: int)
    decreases |s|
  {
    && (st.mode == Outside ==> st.depth >= floor && (s != "" ==> s[0] != '\\'))
    && (s != "" ==> High(Read(st, s[0]), s[1..], floor))
  }

  lemma {:induction false} ScanAppend(st: State, a: string, b: string)
    ensures Scan(st, a + b) == Scan(Scan(st, a), b)
    decreases |a|
  {
    hide Read;
    if a == "" {
      assert a + b == b;
    } else {
      assert (a + b)[1..] == a[1..] + b;
      ScanAppend(Read(st, a[0]), a[1..], b);
    }
  }

  lemma {:induction false} HighAppend(st: State, a: string, b: string, floor: int)
    ensures High(st, a + b, floor) <==> High(st, a, floor) && High(Scan(st, a), b, floor)
    decreases |a|
  {
    hide Read;
    if a == "" {
      assert a + b == b;
    } else {
      assert (a + b)[1..] == a[1..] + b;
      HighAppend(Read(st, a[0]), a[1..], b, floor);
    }
  }

  lemma {:induction false} HighLower(st: State, s: string, floor: int, lower: int)
    requires High(st, s, floor) && lower <= floor
    ensures High(st, s, lower)
    decreases |s|
  {
    if s != "" {
      HighLower(Read(st, s[0]), s[1..], floor, lower);
    }
  }

  lemma {:induction false} HighEnd(st: State, s: string, floor: int)
    requires High(st, s, floor)
    ensures Scan(st, s).mode == Outside ==> Scan(st, s).depth >= floor
    decreases |s|
  {
    if s != "" {
      HighEnd(Read(st, s[0]), s[1..], floor);
    }
  }

  /** Read from depth `d` the text ends where it began and never falls below. */
  predicate Whole(s: string, d: int) {
    Scan(State(Outside, d), s) == State(Outside, d) && High(State(Outside, d), s, d)
  }

  lemma WholeAppend(a: string, b: string, d: int)
    requires Whole(a, d) && Whole(b, d)
    ensures Whole(a + b, d)
  {
    hide Scan, High;
    ScanAppend(State(Outside, d), a, b);
    HighAppend(State(Outside, d), a, b, d);
  }

  predicate PlainChar(c: char) {
    c != '"' && c != '\\' && c != '[' && c != '{' && c != ']' && c != '}'
  }

  lemma WholeChar(c: char, d: int)
    requires PlainChar(c)
    ensures Whole([c], d)
  {
  }

  lemma {:induction false} WholeWord(s: string, d: int)
    requires forall c | c in s :: PlainChar(c)
    ensures Whole(s, d)
    decreases |s|
  {
    if s != "" {
      assert s[0] in s && forall c | c in s[1..] :: c in s;
      WholeWord(s[1..], d);
    }
  }

  // ----- Strings

  lemma {:induction false} PlainInside(s: string, d: int, floor: int)
    requires forall c | c in s :: c != '"' && c != '\\'
    ensures Scan(State(Inside, d), s) == State(Inside, d) && High(State(Inside, d), s, floor)
    decreases |s|
  {
    if s != "" {
      assert s[0] in s && forall c | c in s[1..] :: c in s;
      PlainInside(s[1..], d, floor);
    }
  }

  /** An escaped character is plain, or a backslash, any character and plain ones. */
  lemma EscapedChar(c: char, d: int, floor: int)
    ensures Scan(State(Inside, d), EscapeChar(c)) == State(Inside, d)
    ensures High(State(Inside, d), EscapeChar(c), floor)
  {
    var e := EscapeChar(c);
    if e[0] == '\\' {
      EscapeTail(c);
      PlainInside(e[2..], d, floor);
      assert e[1..][1..] == e[2..];
      assert Read(Read(State(Inside, d), e[0]), e[1]) == State(Inside, d);
    } else {
      PlainInside(e, d, floor);
    }
  }

  lemma HexIsPlain(c: char)
    requires IsHexDigit(c)
    ensures c != '"' && c != '\\'
  {
  }

  lemma EscapeTail(c: char)
    ensures var e := EscapeChar(c); e[0] == '\\' ==> |e| >= 2 && forall x | x in e[2..] :: x != '"' && x != '\\'
  {
    var e := EscapeChar(c);
    if |e| == 6 {
      assert e[2..] == ['0', '0', e[4], e[5]];
      HexIsPlain(e[4]);
      HexIsPlain(e[5]);
    }
  }

  /** Within an escaped string the reader never gets out. */
  lemma {:induction false} EscapedInside(s: string, d: int, floor: int)
    ensures Scan(State(Inside, d), Escape(s)) == State(Inside, d)
    ensures High(State(Inside, d), Escape(s), floor)
    decreases |s|
  {
    hide EscapeChar, Scan, High;
    if s == "" {
      NothingInside(d, floor);
    } else {
      EscapedInside(s[1..], d, floor);
      EscapedChar(s[0], d, floor);
      ScanAppend(State(Inside, d), EscapeChar(s[0]), Escape(s[1..]));
      HighAppend(State(Inside, d), EscapeChar(s[0]), Escape(s[1..]), floor);
    }
  }

  lemma NothingInside(d: int, floor: int)
    ensures Scan(State(Inside, d), "") == State(Inside, d) && High(State(Inside, d), "", floor)
  {
  }

  lemma QuoteWhole(s: string, d: int)
    ensures Whole(Quote(s), d)
  {
    EscapedInside(s, d, d);
    Enclosed("\"", Escape(s), "\"", State(Outside, d), State(Inside, d), d);
  }

  /** One character that opens, a text, and one that closes. */
  lemma Enclosed(open: string, inner: string, close: string, st: State, within: State, floor: int)
    requires |open| == 1 && |close| == 1 && st == State(Outside, floor)
    requires open[0] != '\\' && Read(st, open[0]) == within
    requires Scan(within, inner) == within && High(within, inner, floor)
    requires Read(within, close[0]) == st && (within.mode == Outside ==> close[0] != '\\')
    ensures Whole(open + inner + close, floor)
  {
    var text := open + inner + close;
    assert text[1..] == inner + close && text[0] == open[0];
    ScanAppend(within, inner, close);
    HighAppend(within, inner, close, floor);
    assert close[1..] == "";
    assert Scan(within, close) == st && High(within, close, floor);
  }

  // ----- Values

  /** Every key is written as `JSON.stringify` would write it, and every number is a number. */
  predicate PlainKeyed(v: Value) {
    match v
    case Num(t) => IsNumberText(t)
    case Arr(items) => forall x | x in items :: PlainKeyed(x)
    case Obj(fields) => forall f | f in fields :: PlainField(f)
    case _ => true
  }

  predicate PlainField(f: Entry<Value>) {
    Escape(f.key) == f.key && PlainKeyed(f.value)
  }

  lemma AtomWhole(v: Value, d: int)
    requires IsAtom(v) && PlainKeyed(v)
    ensures Whole(Print(v, Raw), d)
    ensures '"' !in Print(v, Raw)
  {
    hide Whole;
    AtomPlain(v);
    WholeWord(Print(v, Raw), d);
  }

  lemma AtomPlain(v: Value)
    requires IsAtom(v) && PlainKeyed(v)
    ensures forall c | c in Print(v, Raw) :: PlainChar(c)
  {
    AtomChars(v, Raw);
    if v.Num? {
      NumberPlain(v.text);
    }
  }

  lemma NumberPlain(t: string)
    requires IsNumberText(t)
    ensures '\\' !in t
  {
    if t in WORDS {
      assert t == "NaN" || t == "Infinity" || t == "-Infinity";
    }
  }

  lemma {:induction false} JoinWhole(texts: seq<string>, d: int)
    requires forall t | t in texts :: Whole(t, d)
    ensures Whole(Join(texts, ','), d)
    decreases |texts|
  {
    hide Whole;
    if texts == [] {
      assert Whole("", d) by { WholeWord("", d); }
    } else {
      assert texts[0] in texts && forall t | t in texts[1..] :: t in texts;
      if |texts| > 1 {
        JoinWhole(texts[1..], d);
        WholeChar(',', d);
        WholeAppend(texts[0], [','], d);
        WholeAppend(texts[0] + [','], Join(texts[1..], ','), d);
      }
    }
  }

  lemma FieldWhole(f: Entry<Value>, d: int)
    requires PlainField(f) && Whole(Print(f.value, Raw), d)
    ensures Whole(PrintField(f.key, Print(f.value, Raw), Raw), d)
  {
    hide Whole, Print, PlainKeyed;
    QuoteWhole(f.key, d);
    WholeChar(':', d);
    WholeAppend(Quote(f.key), ":", d);
    WholeAppend(Quote(f.key) + ":", Print(f.value, Raw), d);
  }

  /** What stands between the first and the last character of an array, an object or a string. */
  function Inner(v: Value): string
    requires !IsAtom(v)
  {
    match v
    case Str(s) => Escape(s)
    case Arr(items) => Join(PrintItems(items, Raw), ',')
    case Obj(fields) => Join(PrintFields(fields, Raw), ',')
  }

  function Opening(v: Value): string
    requires !IsAtom(v)
  {
    match v case Str(_) => "\"" case Arr(_) => "[" case Obj(_) => "{"
  }

  function Closing(v: Value): string
    requires !IsAtom(v)
  {
    match v case Str(_) => "\"" case Arr(_) => "]" case Obj(_) => "}"
  }

  function Within(v: Value, d: int): State
    requires !IsAtom(v)
  {
    if v.Str? then State(Inside, d) else State(Outside, d + 1)
  }

  /** Inside a value that opens, the reader never falls back to where it was before. */
  lemma {:induction false} InnerHigh(v: Value, d: int)
    requires PlainKeyed(v) && !IsAtom(v)
    ensures Scan(Within(v, d), Inner(v)) == Within(v, d) && High(Within(v, d), Inner(v), d + 1)
    decreases v, 0
  {
    match v
    case Str(s) => EscapedInside(s, d, d + 1);
    case Arr(items) =>
      ItemsWhole(items, d + 1);
      JoinWhole(PrintItems(items, Raw), d + 1);
    case Obj(fields) =>
      FieldsWhole(fields, d + 1);
      JoinWhole(PrintFields(fields, Raw), d + 1);
  }

  lemma {:induction false} ItemsWhole(items: seq<Value>, d: int)
    requires forall x | x in items :: PlainKeyed(x)
    ensures forall t | t in PrintItems(items, Raw) :: Whole(t, d)
    decreases items, 0
  {
    hide Whole, PlainKeyed, Print;
    if items != [] {
      assert items[0] in items && forall x | x in items[1..] :: x in items;
      PrintWhole(items[0], d);
      ItemsWhole(items[1..], d);
    }
  }

  lemma {:induction false} FieldsWhole(fields: seq<Entry<Value>>, d: int)
    requires forall f | f in fields :: PlainField(f)
    ensures forall t | t in PrintFields(fields, Raw) :: Whole(t, d)
    decreases fields, 0
  {
    hide Whole, PlainKeyed, Print, PrintField;
    if fields != [] {
      assert fields[0] in fields && forall f | f in fields[1..] :: f in fields;
      PrintWhole(fields[0].value, d);
      FieldWhole(fields[0], d);
      FieldsWhole(fields[1..], d);
    }
  }

  lemma {:induction false} PrintWhole(v: Value, d: int)
    requires PlainKeyed(v)
    ensures Whole(Print(v, Raw), d)
    decreases v, 1
  {
    if IsAtom(v) {
      AtomWhole(v, d);
    } else {
      InnerHigh(v, d);
      HighLower(Within(v, d), Inner(v), d + 1, d);
      PrintEncloses(v);
      hide Inner, Print, Scan, High;
      Enclosed(Opening(v), Inner(v), Closing(v), State(Outside, d), Within(v, d), d);
    }
  }

  lemma PrintEncloses(v: Value)
    requires !IsAtom(v)
    ensures Print(v, Raw) == Opening(v) + Inner(v) + Closing(v)
  {
  }

  // ----- No value's text ends in a key's quote, a colon and another value's text

  /** One reader is in a string, the other is not. */
  predicate Opposite(a: State, b: State) {
    (a.mode == Inside && b.mode == Outside) || (a.mode == Outside && b.mode == Inside)
  }

  /** Quotes turn both readers over, and neither gets to escape one: they stay opposite. */
  lemma {:induction false} StayOpposite(a: State, b: State, s: string, floor: int, other: int)
    requires Opposite(a, b) && High(a, s, floor) && High(b, s, other)
    ensures Opposite(Scan(a, s), Scan(b, s))
    decreases |s|
  {
    if s != "" {
      StayOpposite(Read(a, s[0]), Read(b, s[0]), s[1..], floor, other);
    }
  }

  /** Behind the opening, before the end, a reader that is outside is deeper than at the start. */
  lemma PrefixDeep(v: Value, a: string, b: string)
    requires PlainKeyed(v) && Print(v, Raw) == a + b && '"' in a && b != ""
    ensures Scan(State(Outside, 0), a).mode == Outside ==> Scan(State(Outside, 0), a).depth >= 1
  {
    hide Scan, Print, PlainKeyed;
    InFront('"', a, b);
    if IsAtom(v) {
      AtomWhole(v, 0);
    } else {
      InnerHigh(v, 0);
      PrintEncloses(v);
      Opens(v);
      InnerDeep(Opening(v), Inner(v), Closing(v), Within(v, 0), a, b);
    }
  }

  lemma Opens(v: Value)
    requires !IsAtom(v)
    ensures |Opening(v)| == 1 && |Closing(v)| == 1 && Read(State(Outside, 0), Opening(v)[0]) == Within(v, 0)
  {
  }

  lemma InnerDeep(open: string, inner: string, close: string, within: State, a: string, b: string)
    requires |open| == 1 && |close| == 1 && open + inner + close == a + b && a != "" && b != ""
    requires Read(State(Outside, 0), open[0]) == within && High(within, inner, 1)
    ensures Scan(State(Outside, 0), a).mode == Outside ==> Scan(State(Outside, 0), a).depth >= 1
  {
    PrefixOfInner(open, inner, close, a, b);
    assert Scan(State(Outside, 0), a) == Scan(within, a[1..]);
    hide High, Scan, Read;
    HighAppend(within, a[1..], inner[|a| - 1..], 1);
    HighEnd(within, a[1..], 1);
  }

  lemma InFront(c: char, a: string, b: string)
    requires c in a
    ensures c in a + b
  {
    var i :| 0 <= i < |a| && a[i] == c;
    assert (a + b)[i] == c;
  }

  lemma PrefixOfInner(open: string, inner: string, close: string, a: string, b: string)
    requires |open| == 1 && |close| == 1 && open + inner + close == a + b && a != "" && b != ""
    ensures a[0] == open[0] && |a| - 1 <= |inner| && inner == a[1..] + inner[|a| - 1..]
  {
    var text := open + inner + close;
    assert |text| == |inner| + 2 && text[0] == a[0];
    assert forall i | 0 <= i < |a| - 1 :: a[1..][i] == text[i + 1] == inner[i];
    assert a[1..] == inner[..|a| - 1];
  }

  lemma NoValueSuffix(v: Value, w: Value, x: string)
    requires PlainKeyed(v) && PlainKeyed(w)
    ensures Print(v, Raw) != x + "\":" + Print(w, Raw)
  {
    var a, b := x + "\":", Print(w, Raw);
    if Print(v, Raw) == a + b {
      var st := Scan(State(Outside, 0), a);
      PrintWhole(v, 0);
      FirstOfPrint(w);
      assert a[|x|] == '"' && '"' in a;
      PrefixDeep(v, a, b);
      ScanAppend(State(Outside, 0), a, b);
      HighAppend(State(Outside, 0), a, b, 0);
      NotEscaping(x);
      hide Print, PlainKeyed, Scan, High;
      if st.mode == Outside {
        PrintWhole(w, st.depth);
      } else {
        PrintWhole(w, 0);
        StayOpposite(st, State(Outside, 0), b, 0, 0);
      }
    }
  }

  lemma NotEscaping(x: string)
    ensures Scan(State(Outside, 0), x + "\":").mode != Escaping
  {
    ScanAppend(State(Outside, 0), x, "\":");
    assert "\":"[1..] == ":" && ":"[1..] == "";
  }

  lemma FirstOfPrint(v: Value)
    requires PlainKeyed(v)
    ensures Print(v, Raw) != "" && Print(v, Raw)[0] != ':'
  {
    if v.Num? {
      assert v.text[0] in v.text;
    }
  }

  /** A key and a value with keys that need no escaping: their text tells where the value starts. */
  lemma ValueCancel(s: string, t: string, v: Value, w: Value)
    requires PlainKeyed(v) && PlainKeyed(w)
    requires s + "\":" + Print(v, Raw) == t + "\":" + Print(w, Raw)
    ensures s == t && Print(v, Raw) == Print(w, Raw)
  {
    FirstOfPrint(v);
    FirstOfPrint(w);
    var p, q := Print(v, Raw), Print(w, Raw);
    if |p| < |q| {
      var x := LongerRest(s, t, p, q);
      NoValueSuffix(w, v, x);
    } else if |q| < |p| {
      var x := LongerRest(t, s, q, p);
      NoValueSuffix(v, w, x);
    } else {
      SameRest(s, t, p, q);
    }
  }

  lemma LongerRest(s: string, t: string, p: string, q: string) returns (x: string)
    requires s + "\":" + p == t + "\":" + q && |p| < |q| && q[0] != ':'
    ensures q == x + "\":" + p
  {
    var a, b := s + "\":" + p, t + "\":" + q;
    var n := |q| - |p|;
    assert q == b[|t| + 2..] == a[|t| + 2..];
    assert |s| == |t| + n;
    assert q[0] == a[|t| + 2] && a[|s| + 1] == ':';
    x := s[|t| + 2..];
    assert s == s[..|t| + 2] + x;
    assert a == s[..|t| + 2] + (x + "\":" + p);
  }

  lemma SameRest(s: string, t: string, p: string, q: string)
    requires s + "\":" + p == t + "\":" + q && |p| == |q|
    ensures s == t && p == q
  {
    var a, b := s + "\":" + p, t + "\":" + q;
    assert |s| == |t| && s == a[..|s|] && t == b[..|t|] && p == a[|s| + 2..] && q == b[|t| + 2..];
  }

  // ----- Which values a single key reads like

  /** The text of some fields, from the first key to the last one, without the outer quotes. */
  function KeyText(fields: seq<Entry<Value>>): string
    requires fields != []
  {
    if |fields| == 1 then fields[0].key
    else fields[0].key + "\":" + Print(fields[0].value, Raw) + ",\"" + KeyText(fields[1..])
  }

  lemma {:induction false} FieldsText(fields: seq<Entry<Value>>)
    requires fields != []
    ensures Join(PrintFields(fields, Raw), ',')
         == "\"" + KeyText(fields) + "\":" + Print(fields[|fields| - 1].value, Raw)
    decreases |fields|
  {
    hide Print;
    var texts, key, value := PrintFields(fields, Raw), fields[0].key, Print(fields[0].value, Raw);
    assert texts[0] == "\"" + key + "\"" + ":" + value && texts[1..] == PrintFields(fields[1..], Raw);
    if |fields| == 1 {
      assert "\"" + key + "\"" + ":" + value == "\"" + key + "\":" + value;
    } else {
      FieldsText(fields[1..]);
      Regroup(key, value, KeyText(fields[1..]), Print(fields[|fields| - 1].value, Raw));
    }
  }

  lemma Regroup(key: string, value: string, keys: string, last: string)
    ensures ("\"" + key + "\"" + ":" + value) + [','] + ("\"" + keys + "\":" + last)
         == "\"" + (key + "\":" + value + ",\"" + keys) + "\":" + last
  {
  }

  lemma ObjText(fields: seq<Entry<Value>>)
    requires fields != []
    ensures Print(Obj(fields), Raw)
         == "{\"" + (KeyText(fields) + "\":" + Print(fields[|fields| - 1].value, Raw)) + "}"
  {
    FieldsText(fields);
    hide KeyText, PrintFields;
    Regrouped(KeyText(fields), Print(fields[|fields| - 1].value, Raw));
  }

  lemma Regrouped(keys: string, last: string)
    ensures "{" + ("\"" + keys + "\":" + last) + "}" == "{\"" + (keys + "\":" + last) + "}"
  {
  }

  /** The canonical fields of a value that is an object with some. */
  predicate HasFields(w: Value) {
    w.Obj? && w.fields != []
  }

  lemma CanonHasFields(w: Value)
    ensures HasFields(Canon(w)) <==> HasFields(w)
  {
    if w.Obj? {
      SortSize(CanonFields(w.fields));
    }
  }

  lemma {:induction false} SortSize<T>(fields: seq<Entry<T>>)
    ensures |Sort(fields)| == |fields|
  {
    if fields != [] {
      SortSize(fields[1..]);
      InsertSize(fields[0], Sort(fields[1..]));
    }
  }

  lemma {:induction false} InsertSize<T>(x: Entry<T>, fields: seq<Entry<T>>)
    ensures |Insert(x, fields)| == |fields| + 1
  {
    hide Less;
    if fields != [] {
      InsertSize(x, fields[1..]);
    }
  }

  lemma StripObject(a: string, b: string)
    ensures "{\"" + a + "}" == "{\"" + b + "}" <==> a == b
  {
    var x, y := "{\"" + a + "}", "{\"" + b + "}";
    if x == y {
      assert |a| == |b| && a == x[2..|x| - 1] && b == y[2..|y| - 1];
    }
  }

  /** For every object whose last value has the same text, whatever its keys: the single key reads like all
      its keys exactly if it is their text. */
  lemma SameLastValue(key: string, y: Value, w: Value)
    requires HasFields(w)
    requires Print(Canon(y), Raw) == Print(Canon(w).fields[|Canon(w).fields| - 1].value, Raw)
    ensures HasFields(Canon(w))
    ensures Stringify(Obj([Entry(key, y)])) == Stringify(w) <==> key == KeyText(Canon(w).fields)
  {
    CanonHasFields(w);
    StringifyIsPrint(w);
    SingleText(key, y);
    var fields := Canon(w).fields;
    ObjText(fields);
    var last := Print(fields[|fields| - 1].value, Raw);
    hide *;
    StripObject(key + "\":" + last, KeyText(fields) + "\":" + last);
    if key + "\":" + last == KeyText(fields) + "\":" + last {
      SameRest(key, KeyText(fields), last, last);
    }
  }

  lemma SingleText(key: string, y: Value)
    ensures Stringify(Obj([Entry(key, y)])) == "{\"" + (key + "\":" + Print(Canon(y), Raw)) + "}"
  {
    OneText(key, y);
    StringifyIsPrint(y);
    hide Stringify, Print;
    Reassociate(key, Print(Canon(y), Raw));
  }

  lemma Reassociate(key: string, p: string)
    ensures "{\"" + key + ("\":" + p + "}") == "{\"" + (key + "\":" + p) + "}"
  {
  }

  lemma {:induction false} CanonPlain(v: Value)
    requires PlainKeyed(v)
    ensures PlainKeyed(Canon(v))
    decreases v
  {
    match v
    case Arr(items) =>
      forall i | 0 <= i < |items| ensures PlainKeyed(CanonItems(items)[i]) {
        assert items[i] in items;
        CanonPlain(items[i]);
      }
    case Obj(fields) =>
      var a := CanonFields(fields);
      forall i | 0 <= i < |fields| ensures PlainField(a[i]) {
        assert fields[i] in fields;
        CanonPlain(fields[i].value);
      }
      forall x | x in Sort(a) ensures PlainField(x) {
        SortMembers(a, x);
      }
    case _ =>
  }

  /** Against all values whose keys need no escaping, with any number of keys: an object with a single key,
      whatever it contains, has the text of such a value exactly if that is an object with the same last
      value, and the key is the text of all its keys and of the values between them. */
  lemma SingleKeyReads(key: string, y: Value, w: Value)
    requires PlainKeyed(y) && PlainKeyed(w)
    ensures HasFields(w) ==> HasFields(Canon(w))
    ensures Stringify(Obj([Entry(key, y)])) == Stringify(w)
       <==> HasFields(w) && key == KeyText(Canon(w).fields)
            && Canon(y) == Canon(w).fields[|Canon(w).fields| - 1].value
  {
    CanonHasFields(w);
    CanonPlain(y);
    CanonPlain(w);
    SingleText(key, y);
    StringifyIsPrint(w);
    hide *;
    if HasFields(w) {
      SingleKeyCancel(key, Canon(y), Canon(w));
    } else {
      NoFieldsText(Canon(w), key + "\":" + Print(Canon(y), Raw));
    }
  }

  lemma SingleKeyCancel(key: string, y: Value, w: Value)
    requires PlainKeyed(y) && PlainKeyed(w) && HasFields(w)
    ensures "{\"" + (key + "\":" + Print(y, Raw)) + "}" == Print(w, Raw)
       <==> key == KeyText(w.fields) && y == w.fields[|w.fields| - 1].value
  {
    var keys, last := KeyText(w.fields), w.fields[|w.fields| - 1];
    assert last in w.fields && PlainField(last);
    ObjText(w.fields);
    hide Print, KeyText;
    var a, b := key + "\":" + Print(y, Raw), keys + "\":" + Print(last.value, Raw);
    StripObject(a, b);
    if a == b {
      ValueCancel(key, keys, y, last.value);
      PlainPrintable(y);
      PlainPrintable(last.value);
      PrintInjective(y, last.value, Raw);
    }
  }

  lemma NoFieldsText(w: Value, s: string)
    requires PlainKeyed(w) && !HasFields(w)
    ensures Print(w, Raw) != "{\"" + s + "}"
  {
    PlainPrintable(w);
    FirstChar(w, Raw);
    assert ("{\"" + s + "}")[0] == '{' && ("{\"" + s + "}")[1] == '"';
  }

  lemma {:induction false} PlainPrintable(v: Value)
    requires PlainKeyed(v)
    ensures Printable(v, Raw)
    decreases v
  {
    match v
    case Arr(items) =>
      forall x | x in items ensures Printable(x, Raw) {
        PlainPrintable(x);
      }
    case Obj(fields) =>
      forall f | f in fields ensures PrintableField(f, Raw) {
        assert PlainField(f);
        PlainPrintable(f.value);
        PlainUndivided(f.key);
      }
    case _ =>
  }

  lemma {:induction false} PlainUndivided(key: string)
    requires Escape(key) == key
    ensures '"' !in key
    decreases |key|
  {
    if key != "" {
      var e := EscapeChar(key[0]);
      EscapeLength(key[1..]);
      assert |e| == 1;
      assert Escape(key) == e + Escape(key[1..]) && Escape(key[1..]) == key[1..];
      PlainUndivided(key[1..]);
    }
  }

  lemma {:induction false} EscapeLength(s: string)
    ensures |Escape(s)| >= |s|
  {
    hide EscapeChar;
    if s != "" {
      EscapeLength(s[1..]);
    }
  }

  /** Where keys hold quotes, even without a colon behind them, the two last values may differ: the text of
      a string and of the key behind it can read like a key. */
  lemma LastValuesDiffer()
    ensures var y, last := Obj([Entry(",\"k", Null)]), Obj([Entry("a", Str("x\":{")), Entry("k", Null)]);
            && Printable(y, Raw) && Printable(last, Raw) && y.fields[0].key != last.fields[0].key
            && Stringify(Obj([Entry("z\":{\"a\":\"x\\", y)])) == Stringify(Obj([Entry("z", last)]))
  {
    var y := Obj([Entry(",\"k", Null)]);
    var last := Obj([Entry("a", Str("x\":{")), Entry("k", Null)]);
    OneText("z\":{\"a\":\"x\\", y);
    OneText("z", last);
    InnerTexts();
    hide Stringify, Less;
    var inner := "{\"" + ",\"k" + ("\":" + "null" + "}");
    var outer := "{\"" + ("a" + "\":" + "\"x\\\":{\"" + ",\"" + "k") + ("\":" + "null" + "}");
    assert "z\":{\"a\":\"x\\" + "\":" + inner == "z" + "\":" + outer;
    Reassociate("z\":{\"a\":\"x\\", inner);
    Reassociate("z", outer);
  }

  lemma InnerTexts()
    ensures Stringify(Obj([Entry(",\"k", Null)])) == "{\"" + ",\"k" + ("\":" + "null" + "}")
    ensures Stringify(Obj([Entry("a", Str("x\":{")), Entry("k", Null)]))
         == "{\"" + ("a" + "\":" + "\"x\\\":{\"" + ",\"" + "k") + ("\":" + "null" + "}")
  {
    OneText(",\"k", Null);
    LessHere();
    TwoText("a", Str("x\":{"), "k", Null);
    QuotedHere();
    hide Stringify, Less;
  }

  lemma LessHere()
    ensures Less("a", "k")
  {
  }

  lemma QuotedHere()
    ensures Stringify(Str("x\":{")) == "\"x\\\":{\""
    ensures Stringify(Null) == "null"
  {
    var s := "x\":{";
    assert s[1..] == "\":{" && s[1..][1..] == ":{" && s[1..][1..][1..] == "{" && s[1..][1..][1..][1..] == "";
    assert Escape("{") == "{";
    assert Escape(":{") == ":{";
    assert Escape("\":{") == "\\\":{";
    assert Escape(s) == "x\\\":{";
  }
}
