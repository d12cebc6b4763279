/** Printing loses nothing: from a printed value and whatever follows it, both can be told. */
module JsonInjective {
  import opened Text
  import opened Json

  /** No quote is followed by a colon: the two characters that end a key that is not escaped. */
  predicate Undivided(key: string) {
    forall i | 0 <= i < |key| - 1 :: !(key[i] == '"' && key[i + 1] == ':')
  }

  /** Every number is a number and, where keys are not escaped, no key contains a quote and a colon in a
      row. */
  predicate Printable(v: Value, style: KeyStyle) {
    match v
    case Num(t) => IsNumberText(t)
    case Arr(items) => forall x | x in items :: Printable(x, style)
    case Obj(fields) => forall f | f in fields :: PrintableField(f, style)
    case _ => true
  }

  predicate PrintableField(f: Entry<Value>, style: KeyStyle) {
    (style == Raw ==> Undivided(f.key)) && Printable(f.value, style)
  }

  predicate IsDelimiter(c: char) {
    c == ',' || c == ']' || c == '}'
  }

  /** What may follow a printed value. */
  predicate Ends(rest: string) {
    rest == "" || IsDelimiter(rest[0])
  }

  // ----- Strings

  lemma EscapeCharCancel(c: char, d: char, a: string, b: string)
    requires EscapeChar(c) + a == EscapeChar(d) + b
    ensures c == d && a == b
  {
    var x, y := EscapeChar(c), EscapeChar(d);
    assert (x + a)[0] == x[0] && (y + b)[0] == y[0];
    if x[0] == '\\' && y[0] == '\\' {
      assert (x + a)[1] == x[1] && (y + b)[1] == y[1];
      if x[1] == 'u' && y[1] == 'u' {
        assert (x + a)[4] == x[4] && (y + b)[4] == y[4];
        assert (x + a)[5] == x[5] && (y + b)[5] == y[5];
        HexDigitUnique(c as int / 16, d as int / 16);
        HexDigitUnique(c as int % 16, d as int % 16);
      }
    }
    assert c == d;
    assert a == (x + a)[|x|..];
  }

  lemma HexDigitUnique(d: nat, e: nat)
    requires d < 16 && e < 16
    ensures HexDigit(d) == HexDigit(e) ==> d == e
  {
  }

  lemma {:induction false} EscapeCancel(s: string, t: string, a: string, b: string)
    requires Escape(s) + "\"" + a == Escape(t) + "\"" + b
    ensures s == t && a == b
  {
    hide EscapeChar;
    EscapeFirst(s, a);
    EscapeFirst(t, b);
    if s == "" {
      assert Escape(s) + "\"" + a == "\"" + a && Escape(t) + "\"" + b == "\"" + b;
      assert a == ("\"" + a)[1..] && b == ("\"" + b)[1..];
    } else {
      var x, y := Escape(s[1..]) + "\"" + a, Escape(t[1..]) + "\"" + b;
      assert Escape(s) + "\"" + a == EscapeChar(s[0]) + x;
      assert Escape(t) + "\"" + b == EscapeChar(t[0]) + y;
      EscapeCharCancel(s[0], t[0], x, y);
      EscapeCancel(s[1..], t[1..], a, b);
    }
  }

  /** Only the closing quote starts with a quote. */
  lemma EscapeFirst(s: string, rest: string)
    ensures (Escape(s) + "\"" + rest)[0] == '"' <==> s == ""
  {
    if s != "" {
      NoQuoteFirst(s[0]);
      assert (Escape(s) + "\"" + rest)[0] == EscapeChar(s[0])[0];
    }
  }

  lemma NoQuoteFirst(c: char)
    ensures EscapeChar(c)[0] != '"'
  {
  }

  lemma QuoteCancel(s: string, t: string, a: string, b: string)
    requires Quote(s) + a == Quote(t) + b
    ensures s == t && a == b
  {
    assert (Quote(s) + a)[1..] == Escape(s) + "\"" + a;
    assert (Quote(t) + b)[1..] == Escape(t) + "\"" + b;
    EscapeCancel(s, t, a, b);
  }

  /** An undivided key ends at the first quote and colon. */
  lemma RawCancel(s: string, t: string, a: string, b: string)
    requires Undivided(s) && Undivided(t)
    requires s + "\":" + a == t + "\":" + b
    ensures s == t && a == b
  {
    var x, y := s + "\":" + a, t + "\":" + b;
    assert x[|s|] == '"' && x[|s| + 1] == ':' && y[|t|] == '"' && y[|t| + 1] == ':';
    assert forall i | 0 <= i < |s| :: x[i] == s[i];
    assert forall i | 0 <= i < |t| :: y[i] == t[i];
    assert |s| == |t|;
    assert s == x[..|s|] && a == x[|s| + 2..] && b == y[|t| + 2..];
  }

  // ----- Values that print as one word

  predicate IsAtom(v: Value) {
    !v.Str? && !v.Arr? && !v.Obj?
  }

  predicate AtomChar(c: char) {
    !IsDelimiter(c) && c != '"' && c != '[' && c != '{'
  }

  lemma AtomChars(v: Value, style: KeyStyle)
    requires IsAtom(v) && Printable(v, style)
    ensures Print(v, style) != "" && forall c | c in Print(v, style) :: AtomChar(c)
  {
  }

  lemma AtomUnique(v: Value, w: Value, style: KeyStyle)
    requires IsAtom(v) && IsAtom(w) && Printable(v, style) && Printable(w, style)
    requires Print(v, style) == Print(w, style)
    ensures v == w
  {
    assert "undefined"[0] == 'u' && "null"[0] == 'n' && "true"[0] == 't' && "false"[0] == 'f';
    assert v.Num? ==> v.text[0] in v.text;
    assert w.Num? ==> w.text[0] in w.text;
  }

  lemma WordCancel(s: string, t: string, a: string, b: string)
    requires s + a == t + b && Ends(a) && Ends(b)
    requires (forall c | c in s :: AtomChar(c)) && (forall c | c in t :: AtomChar(c))
    ensures s == t && a == b
  {
    var x := s + a;
    assert forall i | 0 <= i < |s| :: x[i] == s[i] && s[i] in s;
    assert forall i | 0 <= i < |t| :: x[i] == t[i] && t[i] in t;
    assert |s| < |x| ==> IsDelimiter(x[|s|]);
    assert |t| < |x| ==> IsDelimiter(x[|t|]);
    assert |s| == |t|;
    assert s == x[..|s|] && a == x[|s|..];
  }

  /** The first character tells what kind of value was printed. */
  lemma FirstChar(v: Value, style: KeyStyle)
    requires Printable(v, style)
    ensures var p := Print(v, style);
            && p != "" && !IsDelimiter(p[0])
            && (p[0] == '"' <==> v.Str?) && (p[0] == '[' <==> v.Arr?) && (p[0] == '{' <==> v.Obj?)
  {
    if IsAtom(v) {
      AtomChars(v, style);
      assert Print(v, style)[0] in Print(v, style);
    }
  }

  // ----- Values

  /** If two printed values, each followed by a delimiter or nothing, read the same, then the values
      and what follows are the same. */
  lemma {:induction false} PrintCancel(v: Value, w: Value, style: KeyStyle, a: string, b: string)
    requires Printable(v, style) && Printable(w, style)
    requires Ends(a) && Ends(b)
    requires Print(v, style) + a == Print(w, style) + b
    ensures v == w && a == b
    decreases v, 1
  {
    var p, q := Print(v, style), Print(w, style);
    FirstChar(v, style);
    FirstChar(w, style);
    assert (p + a)[0] == p[0] && (q + b)[0] == q[0];
    match v
    case Str(s) => QuoteCancel(s, w.s, a, b);
    case Arr(items) => ArrCancel(v, w, style, a, b);
    case Obj(fields) => ObjCancel(v, w, style, a, b);
    case _ =>
      AtomChars(v, style);
      AtomChars(w, style);
      WordCancel(p, q, a, b);
      AtomUnique(v, w, style);
  }

  lemma {:induction false} ArrCancel(v: Value, w: Value, style: KeyStyle, a: string, b: string)
    requires v.Arr? && w.Arr? && Printable(v, style) && Printable(w, style)
    requires Print(v, style) + a == Print(w, style) + b
    ensures v == w && a == b
    decreases v, 0
  {
    var xs, ys := PrintItems(v.items, style), PrintItems(w.items, style);
    var x, y := Join(xs, ',') + "]" + a, Join(ys, ',') + "]" + b;
    assert x == (Print(v, style) + a)[1..] && y == (Print(w, style) + b)[1..];
    assert x == Join(xs, ',') + ("]" + a) && y == Join(ys, ',') + ("]" + b);
    if v.items != [] {
      assert v.items[0] in v.items;
      FirstChar(v.items[0], style);
      JoinFirst(xs, "]" + a);
    }
    if w.items != [] {
      assert w.items[0] in w.items;
      FirstChar(w.items[0], style);
      JoinFirst(ys, "]" + b);
    }
    assert v.items == [] ==> x == "]" + a;
    assert w.items == [] ==> y == "]" + b;
    assert v.items == [] <==> w.items == [];
    if v.items == [] {
      assert a == x[1..] && b == y[1..];
    } else {
      ItemsCancel(v.items, w.items, style, a, b);
    }
  }

  lemma JoinFirst(xs: seq<string>, rest: string)
    requires xs != [] && xs[0] != ""
    ensures Join(xs, ',') != "" && Join(xs, ',')[0] == xs[0][0]
    ensures (Join(xs, ',') + rest)[0] == xs[0][0]
  {
  }

  /** The joined list: its first element and what follows it. */
  lemma JoinSplitFirst(xs: seq<string>, close: string) returns (rest: string)
    requires xs != [] && close != "" && IsDelimiter(close[0]) && close[0] != ','
    ensures Join(xs, ',') + close == xs[0] + rest && Ends(rest)
    ensures |xs| == 1 ==> rest == close
    ensures |xs| > 1 ==> rest == "," + (Join(xs[1..], ',') + close)
    ensures |xs| == 1 <==> rest[0] != ','
  {
    rest := if |xs| == 1 then close else "," + (Join(xs[1..], ',') + close);
  }

  lemma {:induction false} ItemsCancel(v: seq<Value>, w: seq<Value>, style: KeyStyle, a: string, b: string)
    requires v != [] && w != []
    requires forall x | x in v :: Printable(x, style)
    requires forall x | x in w :: Printable(x, style)
    requires Join(PrintItems(v, style), ',') + "]" + a == Join(PrintItems(w, style), ',') + "]" + b
    ensures v == w && a == b
    decreases v, 0
  {
    hide Print, Printable;
    var xs, ys := PrintItems(v, style), PrintItems(w, style);
    assert v[0] in v && w[0] in w;
    assert (forall z :: z in v[1..] ==> z in v) && (forall z :: z in w[1..] ==> z in w);
    assert Join(xs, ',') + "]" + a == Join(xs, ',') + ("]" + a);
    assert Join(ys, ',') + "]" + b == Join(ys, ',') + ("]" + b);
    var x := JoinSplitFirst(xs, "]" + a);
    var y := JoinSplitFirst(ys, "]" + b);
    PrintCancel(v[0], w[0], style, x, y);
    if |v| == 1 {
      assert a == x[1..] && b == y[1..];
      assert v == [v[0]] && w == [w[0]];
    } else {
      assert x[1..] == Join(xs[1..], ',') + "]" + a;
      assert y[1..] == Join(ys[1..], ',') + "]" + b;
      ItemsCancel(v[1..], w[1..], style, a, b);
      assert v == [v[0]] + v[1..] && w == [w[0]] + w[1..];
    }
  }

  lemma FieldFirst(f: Entry<Value>, style: KeyStyle)
    ensures var text := PrintField(f.key, Print(f.value, style), style);
            text != "" && text[0] == '"'
  {
  }

  lemma PrintableFields(v: Value, style: KeyStyle)
    requires v.Obj? && Printable(v, style)
    ensures forall f | f in v.fields :: PrintableField(f, style)
  {
  }

  lemma {:induction false} ObjCancel(v: Value, w: Value, style: KeyStyle, a: string, b: string)
    requires v.Obj? && w.Obj? && Printable(v, style) && Printable(w, style)
    requires Print(v, style) + a == Print(w, style) + b
    ensures v == w && a == b
    decreases v, 0
  {
    hide PrintField, PrintKey, Printable;
    var xs, ys := PrintFields(v.fields, style), PrintFields(w.fields, style);
    var x, y := Join(xs, ',') + "}" + a, Join(ys, ',') + "}" + b;
    assert x == (Print(v, style) + a)[1..] && y == (Print(w, style) + b)[1..];
    assert x == Join(xs, ',') + ("}" + a) && y == Join(ys, ',') + ("}" + b);
    if v.fields != [] {
      FieldFirst(v.fields[0], style);
      JoinFirst(xs, "}" + a);
    }
    if w.fields != [] {
      FieldFirst(w.fields[0], style);
      JoinFirst(ys, "}" + b);
    }
    assert v.fields == [] ==> x == "}" + a;
    assert w.fields == [] ==> y == "}" + b;
    assert v.fields == [] <==> w.fields == [];
    if v.fields == [] {
      assert a == x[1..] && b == y[1..];
    } else {
      PrintableFields(v, style);
      PrintableFields(w, style);
      FieldsCancel(v.fields, w.fields, style, a, b);
    }
  }

  lemma FieldCancel(k: string, l: string, p: string, q: string, style: KeyStyle, x: string, y: string)
    requires style == Raw ==> Undivided(k) && Undivided(l)
    requires PrintField(k, p, style) + x == PrintField(l, q, style) + y
    ensures k == l && p + x == q + y
  {
    hide *;
    if style == Raw {
      RawField(k, p, x);
      RawField(l, q, y);
      SkipFirst('"', k + "\":" + (p + x), l + "\":" + (q + y));
      RawCancel(k, l, p + x, q + y);
    } else {
      EscapedField(k, p, x);
      EscapedField(l, q, y);
      QuoteCancel(k, l, ":" + (p + x), ":" + (q + y));
      SkipFirst(':', p + x, q + y);
    }
  }

  lemma SkipFirst(c: char, a: string, b: string)
    requires [c] + a == [c] + b
    ensures a == b
  {
    assert ([c] + a)[1..] == a && ([c] + b)[1..] == b;
  }

  lemma Assoc(quote: string, k: string, colon: string, p: string, x: string)
    ensures quote + k + quote + colon + p + x == quote + (k + (quote + colon) + (p + x))
  {
  }

  lemma RawField(k: string, p: string, x: string)
    ensures PrintField(k, p, Raw) + x == "\"" + (k + "\":" + (p + x))
  {
    Assoc("\"", k, ":", p, x);
    assert "\"" + ":" == "\":";
  }

  lemma EscapedField(k: string, p: string, x: string)
    ensures PrintField(k, p, Escaped) + x == Quote(k) + (":" + (p + x))
  {
    hide Quote;
    Assoc("", Quote(k), ":", p, x);
  }

  lemma {:induction false} FieldsCancel(v: seq<Entry<Value>>, w: seq<Entry<Value>>, style: KeyStyle, a: string,
                                           b: string)
    requires v != [] && w != []
    requires forall f | f in v :: PrintableField(f, style)
    requires forall f | f in w :: PrintableField(f, style)
    requires Join(PrintFields(v, style), ',') + "}" + a == Join(PrintFields(w, style), ',') + "}" + b
    ensures v == w && a == b
    decreases v, 0
  {
    hide Print, Printable, PrintField;
    var xs, ys := PrintFields(v, style), PrintFields(w, style);
    assert v[0] in v && w[0] in w;
    assert (forall z :: z in v[1..] ==> z in v) && (forall z :: z in w[1..] ==> z in w);
    assert Join(xs, ',') + "}" + a == Join(xs, ',') + ("}" + a);
    assert Join(ys, ',') + "}" + b == Join(ys, ',') + ("}" + b);
    var x := JoinSplitFirst(xs, "}" + a);
    var y := JoinSplitFirst(ys, "}" + b);
    var p, q := Print(v[0].value, style), Print(w[0].value, style);
    FieldCancel(v[0].key, w[0].key, p, q, style, x, y);
    PrintCancel(v[0].value, w[0].value, style, x, y);
    if |v| == 1 {
      assert a == x[1..] && b == y[1..];
      assert v == [v[0]] && w == [w[0]];
    } else {
      assert x[1..] == Join(xs[1..], ',') + "}" + a;
      assert y[1..] == Join(ys[1..], ',') + "}" + b;
      FieldsCancel(v[1..], w[1..], style, a, b);
      assert v == [v[0]] + v[1..] && w == [w[0]] + w[1..];
    }
  }

  /** `Print` is one-to-one. */
  lemma PrintInjective(v: Value, w: Value, style: KeyStyle)
    requires Printable(v, style) && Printable(w, style)
    requires Print(v, style) == Print(w, style)
    ensures v == w
  {
    assert Print(v, style) + "" == Print(w, style) + "";
    PrintCancel(v, w, style, "", "");
  }

  lemma {:induction false} JsonPrintable(v: Value)
    requires IsJson(v)
    ensures Printable(v, Escaped)
    decreases v
  {
    match v
    case Arr(items) =>
      forall x | x in items ensures Printable(x, Escaped) {
        JsonPrintable(x);
      }
    case Obj(fields) =>
      forall f | f in fields ensures PrintableField(f, Escaped) {
        JsonPrintable(f.value);
      }
    case _ =>
  }

  /** `JSON.stringify` tells JSON values apart, down to the order of their fields. */
  lemma JsonTextInjective(v: Value, w: Value)
    requires IsJson(v) && IsJson(w)
    ensures JsonText(v) == JsonText(w) <==> v == w
  {
    WireJson(v);
    WireJson(w);
    JsonPrintable(v);
    JsonPrintable(w);
    if JsonText(v) == JsonText(w) {
      PrintInjective(v, w, Escaped);
    }
  }
}
