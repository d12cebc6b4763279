/** A reader for JSON texts without white space, after the grammar of RFC 8259, and that it reads back what
    is printed. */
module JsonReader {
  import opened Text
  import opened Json
  import opened JsonInjective
  import opened KeyOrder
  import opened JsonCanonical
  import opened JsonScan

  // ----- Strings: section 7 of RFC 8259

  function HexDigitOf(c: char): Option<nat> {
    if '0' <= c <= '9' then Some(c as int - '0' as int)
    else if 'a' <= c <= 'f' then Some(c as int - 'a' as int + 10)
    else if 'A' <= c <= 'F' then Some(c as int - 'A' as int + 10)
    else None
  }

  /** Four hexadecimal digits. */
  function ReadHex4(s: string): Option<nat>
    requires |s| >= 4
  {
    match (HexDigitOf(s[0]), HexDigitOf(s[1]), HexDigitOf(s[2]), HexDigitOf(s[3]))
    case (Some(a), Some(b), Some(c), Some(d)) => Some(((a * 16 + b) * 16 + c) * 16 + d)
    case _ => None
  }

  /** The character that a single letter behind a backslash stands for. */
  function ReadEscape(c: char): Option<char> {
    match c
    case '"' => Some('"')
    case '\\' => Some('\\')
    case '/' => Some('/')
    case 'b' => Some(8 as char)
    case 'f' => Some(12 as char)
    case 'n' => Some(10 as char)
    case 'r' => Some(13 as char)
    case 't' => Some(9 as char)
    case _ => None
  }

  /** One character of a string, and what follows it. */
  function ReadChar(s: string): (r: Option<(char, string)>)
    ensures r.Some? ==> |r.value.1| < |s|
  {
    if s == "" || s[0] == '"' || s[0] as int < 0x20 then None
    else if s[0] != '\\' then Some((s[0], s[1..]))
    else if |s| >= 2 && ReadEscape(s[1]).Some? then Some((ReadEscape(s[1]).value, s[2..]))
    else if |s| >= 6 && s[1] == 'u' then
      match ReadHex4(s[2..6])
      case Some(n) => if n < 0xD800 || 0xE000 <= n < 0x10000 then Some((n as char, s[6..])) else None
      case None => None
    else None
  }

  /** The characters up to the closing quote, and what follows it. */
  function ReadChars(s: string): (r: Option<(string, string)>)
    ensures r.Some? ==> |r.value.1| < |s|
    decreases |s|
  {
    if s == "" then None
    else if s[0] == '"' then Some(("", s[1..]))
    else
      match ReadChar(s)
      case None => None
      case Some((c, rest)) =>
        match ReadChars(rest)
        case None => None
        case Some((t, after)) => Some(([c] + t, after))
  }

  // ----- Values: sections 3 to 6

  predicate NumberChar(c: char) {
    IsDigit(c) || c == '+' || c == '-' || c == '.' || c == 'e' || c == 'E'
  }

  function NumberRun(s: string): (k: nat)
    ensures k <= |s|
  {
    if s == "" || !NumberChar(s[0]) then 0 else 1 + NumberRun(s[1..])
  }

  function ReadWord(s: string, word: string, v: Value): Option<(Value, string)> {
    if word <= s then Some((v, s[|word|..])) else None
  }

  /** A value, and what follows it. Numbers are read as their text. */
  function ReadValue(s: string): (r: Option<(Value, string)>)
    ensures r.Some? ==> |r.value.1| < |s|
    decreases |s|, 0
  {
    if s == "" then None
    else if s[0] == 'n' then ReadWord(s, "null", Null)
    else if s[0] == 't' then ReadWord(s, "true", Bool(true))
    else if s[0] == 'f' then ReadWord(s, "false", Bool(false))
    else if s[0] == '"' then
      match ReadChars(s[1..])
      case None => None
      case Some((t, rest)) => Some((Str(t), rest))
    else if s[0] == '[' then
      if "]" <= s[1..] then Some((Arr([]), s[2..]))
      else
        match ReadItems(s[1..])
        case None => None
        case Some((items, rest)) => Some((Arr(items), rest))
    else if s[0] == '{' then
      if "}" <= s[1..] then Some((Obj([]), s[2..]))
      else
        match ReadFields(s[1..])
        case None => None
        case Some((fields, rest)) => Some((Obj(fields), rest))
    else
      var k := NumberRun(s);
      if k == 0 then None else Some((Num(s[..k]), s[k..]))
  }

  /** One or more values up to the closing bracket. */
  function ReadItems(s: string): (r: Option<(seq<Value>, string)>)
    ensures r.Some? ==> |r.value.1| < |s|
    decreases |s|, 1
  {
    match ReadValue(s)
    case None => None
    case Some((v, rest)) =>
      if "]" <= rest then Some(([v], rest[1..]))
      else if "," <= rest then
        match ReadItems(rest[1..])
        case None => None
        case Some((items, after)) => Some(([v] + items, after))
      else None
  }

  /** One or more fields up to the closing brace. */
  function ReadFields(s: string): (r: Option<(seq<Entry<Value>>, string)>)
    ensures r.Some? ==> |r.value.1| < |s|
    decreases |s|, 1
  {
    if !("\"" <= s) then None
    else
      match ReadChars(s[1..])
      case None => None
      case Some((key, colon)) =>
        if !(":" <= colon) then None
        else
          match ReadValue(colon[1..])
          case None => None
          case Some((v, rest)) =>
            if "}" <= rest then Some(([Entry(key, v)], rest[1..]))
            else if "," <= rest then
              match ReadFields(rest[1..])
              case None => None
              case Some((fields, after)) => Some(([Entry(key, v)] + fields, after))
            else None
  }

  // ----- Strings are read back

  lemma HexDigitReads(d: nat)
    requires d < 16
    ensures HexDigitOf(HexDigit(d)) == Some(d)
  {
  }

  /** Every escape stands for the character it was made of. */
  lemma EscapeCharReads(c: char, rest: string)
    ensures ReadChar(EscapeChar(c) + rest) == Some((c, rest))
  {
    var e := EscapeChar(c);
    var s := e + rest;
    assert s[|e|..] == rest && s[0] == e[0];
    if |e| == 2 {
      assert s[1] == e[1];
    } else if |e| == 6 {
      HexDigitReads(c as int / 16);
      HexDigitReads(c as int % 16);
      assert s[2..6] == ['0', '0', e[4], e[5]] && s[1] == 'u';
    }
  }

  /** Nothing is escaped without need: no shorter text reads as the character. */
  lemma EscapeIsShortest(c: char, e: string)
    requires ReadChar(e) == Some((c, ""))
    ensures |EscapeChar(c)| <= |e|
  {
    if e[0] != '\\' {
      assert e[1..] == "" && e == [c];
    }
  }

  lemma {:induction false} EscapeReads(s: string, rest: string)
    ensures ReadChars(Escape(s) + "\"" + rest) == Some((s, rest))
    decreases |s|
  {
    hide EscapeChar, ReadChar;
    var text := Escape(s) + "\"" + rest;
    if s == "" {
      assert text == "\"" + rest && text[1..] == rest;
    } else {
      var more := Escape(s[1..]) + "\"" + rest;
      assert text == EscapeChar(s[0]) + more;
      EscapeFirst(s, rest);
      EscapeCharReads(s[0], more);
      EscapeReads(s[1..], rest);
      assert [s[0]] + s[1..] == s;
    }
  }

  /** What is quoted reads back as the same string. */
  lemma QuoteReads(s: string, rest: string)
    ensures (Quote(s) + rest)[0] == '"' && ReadChars((Quote(s) + rest)[1..]) == Some((s, rest))
  {
    EscapeReads(s, rest);
    assert (Quote(s) + rest)[1..] == Escape(s) + "\"" + rest;
  }

  // ----- Values are read back

  lemma {:induction false} NumberRunOf(t: string, rest: string)
    requires (forall c | c in t :: NumberChar(c)) && Ends(rest)
    ensures NumberRun(t + rest) == |t|
    decreases |t|
  {
    if t == "" {
      assert t + rest == rest;
    } else {
      assert t[0] in t && (t + rest)[1..] == t[1..] + rest && forall c | c in t[1..] :: c in t;
      NumberRunOf(t[1..], rest);
    }
  }

  lemma NumberReads(t: string, rest: string)
    requires IsNumberText(t) && t !in WORDS && Ends(rest)
    ensures ReadValue(t + rest) == Some((Num(t), rest))
  {
    NumberChars(t);
    assert t[0] in t && (t + rest)[0] == t[0];
    NumberRunOf(t, rest);
    assert (t + rest)[..|t|] == t && (t + rest)[|t|..] == rest;
  }

  lemma NumberChars(t: string)
    requires IsNumberText(t) && t !in WORDS
    ensures forall c | c in t :: NumberChar(c)
  {
  }

  lemma WordReads(v: Value, rest: string)
    requires v.Null? || v.Bool?
    ensures ReadValue(Print(v, Escaped) + rest) == Some((v, rest))
  {
    var word := Print(v, Escaped);
    assert (word + rest)[0] == word[0] && word <= word + rest && (word + rest)[|word|..] == rest;
  }

  /** Every JSON text is read back as the value it was printed from, with what follows it. */
  lemma {:induction false} PrintReads(v: Value, rest: string)
    requires IsJson(v) && Ends(rest)
    ensures ReadValue(Print(v, Escaped) + rest) == Some((v, rest))
    decreases v, 1
  {
    hide ReadValue, Print;
    match v
    case Null => WordReads(v, rest);
    case Bool(_) => WordReads(v, rest);
    case Num(t) => NumberPrintReads(t, rest);
    case Str(t) => StringReads(t, rest);
    case Arr(items) =>
      if items == [] { EmptyReads(rest); } else { ArrReads(items, rest); }
    case Obj(fields) =>
      if fields == [] { EmptyReads(rest); } else { ObjReads(fields, rest); }
  }

  lemma NumberPrintReads(t: string, rest: string)
    requires IsNumberText(t) && t !in WORDS && Ends(rest)
    ensures ReadValue(Print(Num(t), Escaped) + rest) == Some((Num(t), rest))
  {
    NumberReads(t, rest);
  }

  lemma StringReads(t: string, rest: string)
    ensures ReadValue(Print(Str(t), Escaped) + rest) == Some((Str(t), rest))
  {
    QuoteReads(t, rest);
    var text := Quote(t) + rest;
    assert Print(Str(t), Escaped) == Quote(t) && text != "" && text[0] == '"';
    hide Quote, ReadChars, Print;
    assert ReadValue(text) == Some((Str(t), rest));
  }

  lemma EmptyReads(rest: string)
    ensures ReadValue(Print(Arr([]), Escaped) + rest) == Some((Arr([]), rest))
    ensures ReadValue(Print(Obj([]), Escaped) + rest) == Some((Obj([]), rest))
  {
    assert Print(Arr([]), Escaped) == "[]" && Print(Obj([]), Escaped) == "{}";
    assert ("[]" + rest)[1..] == "]" + rest && ("[]" + rest)[2..] == rest;
    assert ("{}" + rest)[1..] == "}" + rest && ("{}" + rest)[2..] == rest;
  }

  lemma {:induction false} ArrReads(items: seq<Value>, rest: string)
    requires items != [] && forall x | x in items :: IsJson(x)
    requires Ends(rest)
    ensures ReadValue(Print(Arr(items), Escaped) + rest) == Some((Arr(items), rest))
    decreases items, 1
  {
    var inner := Join(PrintItems(items, Escaped), ',') + "]" + rest;
    assert Print(Arr(items), Escaped) + rest == "[" + inner;
    ItemsRead(items, rest);
    FirstOfItems(items, rest);
    hide PrintItems, Print, ReadItems;
    OpenReads("[", inner);
  }

  /** Behind an opening character the reader goes on with what is inside. */
  lemma OpenReads(open: string, inner: string)
    requires open == "[" || open == "{"
    ensures open == "[" && !("]" <= inner) && ReadItems(inner).Some? ==>
              ReadValue(open + inner) == Some((Arr(ReadItems(inner).value.0), ReadItems(inner).value.1))
    ensures open == "{" && !("}" <= inner) && ReadFields(inner).Some? ==>
              ReadValue(open + inner) == Some((Obj(ReadFields(inner).value.0), ReadFields(inner).value.1))
  {
    assert (open + inner)[1..] == inner;
  }

  lemma FirstOfItems(items: seq<Value>, rest: string)
    requires items != [] && forall x | x in items :: IsJson(x)
    ensures !("]" <= Join(PrintItems(items, Escaped), ',') + "]" + rest)
  {
    assert items[0] in items;
    JsonPrintable(items[0]);
    FirstChar(items[0], Escaped);
    var texts := PrintItems(items, Escaped);
    hide Print, IsJson;
    JoinFirst(texts, "]" + rest);
    assert Join(texts, ',') + "]" + rest == Join(texts, ',') + ("]" + rest);
  }

  lemma {:induction false} ItemsRead(items: seq<Value>, rest: string)
    requires items != [] && forall x | x in items :: IsJson(x)
    ensures ReadItems(Join(PrintItems(items, Escaped), ',') + "]" + rest) == Some((items, rest))
    decreases items, 0
  {
    hide Print, IsJson, ReadValue;
    var texts := PrintItems(items, Escaped);
    assert items[0] in items && forall x | x in items[1..] :: x in items;
    assert Join(texts, ',') + "]" + rest == Join(texts, ',') + ("]" + rest);
    var after := JoinSplitFirst(texts, "]" + rest);
    PrintReads(items[0], after);
    if |items| == 1 {
      assert after[1..] == rest && items == [items[0]];
    } else {
      assert after[1..] == Join(texts[1..], ',') + "]" + rest;
      ItemsRead(items[1..], rest);
      assert items == [items[0]] + items[1..];
    }
  }

  lemma {:induction false} ObjReads(fields: seq<Entry<Value>>, rest: string)
    requires fields != [] && forall f | f in fields :: IsJson(f.value)
    requires Ends(rest)
    ensures ReadValue(Print(Obj(fields), Escaped) + rest) == Some((Obj(fields), rest))
    decreases fields, 1
  {
    var inner := Join(PrintFields(fields, Escaped), ',') + "}" + rest;
    assert Print(Obj(fields), Escaped) + rest == "{" + inner;
    FieldsRead(fields, rest);
    assert inner[0] == '"';
    hide PrintFields, Print, ReadFields;
    OpenReads("{", inner);
  }

  /** The first field of a list, and what is read behind it. */
  lemma FieldReads(key: string, v: Value, value: string, after: string)
    requires ReadValue(value + after) == Some((v, after)) && after != ""
    ensures var s := Quote(key) + (":" + (value + after));
            && "\"" <= s
            && (after[0] == '}' ==> ReadFields(s) == Some(([Entry(key, v)], after[1..])))
            && (after[0] == ',' && ReadFields(after[1..]).Some? ==>
                  var (fields, end) := ReadFields(after[1..]).value;
                  ReadFields(s) == Some(([Entry(key, v)] + fields, end)))
  {
    QuoteReads(key, ":" + (value + after));
    assert (":" + (value + after))[1..] == value + after;
    hide Quote, ReadValue, ReadChars;
  }

  lemma {:induction false} FieldsRead(fields: seq<Entry<Value>>, rest: string)
    requires fields != [] && forall f | f in fields :: IsJson(f.value)
    ensures ReadFields(Join(PrintFields(fields, Escaped), ',') + "}" + rest) == Some((fields, rest))
    ensures "\"" <= Join(PrintFields(fields, Escaped), ',') + "}" + rest
    decreases fields, 0
  {
    hide Print, IsJson, ReadValue, PrintField, ReadFields, Quote;
    var texts, key := PrintFields(fields, Escaped), fields[0].key;
    assert fields[0] in fields && forall f | f in fields[1..] :: f in fields;
    assert Join(texts, ',') + "}" + rest == Join(texts, ',') + ("}" + rest);
    var after := JoinSplitFirst(texts, "}" + rest);
    var value := Print(fields[0].value, Escaped);
    EscapedField(key, value, after);
    PrintReads(fields[0].value, after);
    FieldReads(key, fields[0].value, value, after);
    assert fields[0] == Entry(key, fields[0].value);
    if |fields| == 1 {
      assert after[1..] == rest && fields == [fields[0]];
    } else {
      assert after[1..] == Join(texts[1..], ',') + "}" + rest;
      FieldsRead(fields[1..], rest);
      assert fields == [fields[0]] + fields[1..];
    }
  }

  /** `JSON.parse(JSON.stringify(v))` by the grammar. */
  lemma JsonTextReads(v: Value)
    requires IsJson(v)
    ensures JsonText(v).Some? && ReadValue(JsonText(v).value) == Some((v, ""))
  {
    WireJson(v);
    PrintReads(v, "");
    assert Print(v, Escaped) + "" == Print(v, Escaped);
  }

  // ----- The deterministic text

  /** Keys that need no escaping are printed alike in both styles. */
  lemma {:induction false} PlainPrintsAlike(v: Value)
    requires PlainKeyed(v)
    ensures Print(v, Raw) == Print(v, Escaped)
    decreases v, 1
  {
    match v
    case Arr(items) => PlainItemsAlike(items);
    case Obj(fields) => PlainFieldsAlike(fields);
    case _ =>
  }

  lemma {:induction false} PlainItemsAlike(items: seq<Value>)
    requires forall x | x in items :: PlainKeyed(x)
    ensures PrintItems(items, Raw) == PrintItems(items, Escaped)
    decreases items, 0
  {
    hide Print, PlainKeyed;
    if items != [] {
      assert items[0] in items && forall x | x in items[1..] :: x in items;
      PlainPrintsAlike(items[0]);
      PlainItemsAlike(items[1..]);
    }
  }

  lemma {:induction false} PlainFieldsAlike(fields: seq<Entry<Value>>)
    requires forall f | f in fields :: PlainField(f)
    ensures PrintFields(fields, Raw) == PrintFields(fields, Escaped)
    decreases fields, 0
  {
    hide Print, PlainKeyed;
    if fields != [] {
      assert fields[0] in fields && forall f | f in fields[1..] :: f in fields;
      PlainPrintsAlike(fields[0].value);
      PlainFieldsAlike(fields[1..]);
    }
  }

  lemma {:induction false} CanonJson(v: Value)
    requires IsJson(v)
    ensures IsJson(Canon(v))
    decreases v
  {
    match v
    case Arr(items) =>
      forall i | 0 <= i < |items| ensures IsJson(CanonItems(items)[i]) {
        assert items[i] in items;
        CanonJson(items[i]);
      }
    case Obj(fields) =>
      var a := CanonFields(fields);
      forall i | 0 <= i < |fields| ensures IsJson(a[i].value) {
        assert fields[i] in fields;
        CanonJson(fields[i].value);
      }
      forall x | x in Sort(a) ensures IsJson(x.value) {
        SortMembers(a, x);
      }
    case _ =>
  }

  /** Where no key needs escaping, the deterministic text of a JSON value is a JSON text: it is read back as
      the value itself, with its fields in key order at every depth. */
  lemma StringifyReads(v: Value)
    requires IsJson(v) && PlainKeyed(v)
    ensures ReadValue(Stringify(v)) == Some((Canon(v), ""))
  {
    StringifyIsPrint(v);
    CanonJson(v);
    CanonPlain(v);
    PlainPrintsAlike(Canon(v));
    hide *;
    EndOfText();
    PrintReads(Canon(v), "");
    assert Print(Canon(v), Escaped) + "" == Print(Canon(v), Escaped);
  }

  lemma EndOfText()
    ensures Ends("")
  {
  }
}
