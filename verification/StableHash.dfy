/** `stableHash`: the shift-and-add loop over doubles and 32-bit integers, and its hexadecimal text. */
module StableHash {
  import opened Json
  import opened KeyOrder
  import opened JsonCanonical

  const TWO31 := 0x8000_0000
  const TWO32 := 0x1_0000_0000
  /** Integers up to this size are exact doubles (section 6.1.6.1 of ECMA-262). */
  const MAX_SAFE := 0x1F_FFFF_FFFF_FFFF

  /** Section 7.1.6 of ECMA-262. */
  function ToInt32(x: int): (r: int)
    ensures -TWO31 <= r < TWO31 && r % TWO32 == x % TWO32
  {
    var m := x % TWO32;
    if m >= TWO31 then m - TWO32 else m
  }

  /** `x << k`, given 2^k: both operand and result are 32-bit. */
  function ShiftLeft(x: int, power: nat): (r: int)
    ensures -TWO31 <= r < TWO31
  {
    ToInt32(ToInt32(x) * power)
  }

  /** Bitwise exclusive or. */
  function XorBits(a: nat, b: nat): nat {
    if a == 0 && b == 0 then 0 else XorBits(a / 2, b / 2) * 2 + (a + b) % 2
  }

  function Power2(k: nat): (p: nat)
    ensures p > 0
  {
    if k == 0 then 1 else 2 * Power2(k - 1)
  }

  lemma Doubled(x: int, y: int)
    ensures 2 * (x * y) == (2 * x) * y
  {
  }

  lemma {:induction false} Power2Add(a: nat, b: nat)
    ensures Power2(a + b) == Power2(a) * Power2(b)
  {
    if a > 0 {
      Power2Add(a - 1, b);
      assert Power2(a + b) == 2 * Power2(a - 1 + b);
      Doubled(Power2(a - 1), Power2(b));
    }
  }

  lemma Power2Of32()
    ensures Power2(32) == TWO32
  {
    assert Power2(2) == 4;
    Power2Add(2, 2);
    Power2Add(4, 4);
    Power2Add(8, 8);
    Power2Add(16, 16);
  }

  lemma {:induction false} XorBound(a: nat, b: nat, k: nat)
    requires a < Power2(k) && b < Power2(k)
    ensures XorBits(a, b) < Power2(k)
  {
    if k > 0 {
      XorBound(a / 2, b / 2, k - 1);
    }
  }

  /** The bit of weight 2^k. */
  predicate Bit(x: nat, k: nat) {
    x / Power2(k) % 2 == 1
  }

  /** Each bit of the result is set exactly if it is set in one of the two numbers and not in the other. */
  lemma {:induction false} XorBit(a: nat, b: nat, k: nat)
    ensures Bit(XorBits(a, b), k) <==> Bit(a, k) != Bit(b, k)
    decreases k
  {
    hide Bit, XorBits;
    if k == 0 {
      LowestBit(a);
      LowestBit(b);
      LowestBit(XorBits(a, b));
      XorLowest(a, b);
    } else {
      XorBit(a / 2, b / 2, k - 1);
      HigherBit(a, k);
      HigherBit(b, k);
      HigherBit(XorBits(a, b), k);
      XorHalf(a, b);
    }
  }

  lemma XorLowest(a: nat, b: nat)
    ensures XorBits(a, b) % 2 == (a + b) % 2
  {
  }

  lemma XorHalf(a: nat, b: nat)
    ensures XorBits(a, b) / 2 == XorBits(a / 2, b / 2)
  {
  }

  lemma LowestBit(x: nat)
    ensures Bit(x, 0) <==> x % 2 == 1
  {
  }

  lemma HigherBit(x: nat, k: nat)
    requires k > 0
    ensures Bit(x, k) <==> Bit(x / 2, k - 1)
  {
    DivideTwice(x, Power2(k - 1));
  }

  lemma DivideTwice(x: nat, p: nat)
    requires p > 0
    ensures x / (2 * p) == x / 2 / p
  {
    var q, m := x / 2 / p, x / 2 % p;
    var d := 2 * m + x % 2;
    Doubled(p, q);
    assert x == (2 * p) * q + d;
    QuotientIs(x, 2 * p, q, d);
  }

  lemma QuotientIs(x: nat, n: nat, q: nat, d: nat)
    requires n > 0 && x == n * q + d && d < n
    ensures x / n == q
  {
    var p, e := x / n, x % n;
    Difference(n, p, q);
    if p < q {
      AtLeast(n, q - p);
    } else if q < p {
      AtLeast(n, p - q);
    }
  }

  lemma Difference(n: int, p: int, q: int)
    ensures n * p - n * q == n * (p - q) && n * q - n * p == n * (q - p)
  {
  }

  lemma AtLeast(n: nat, m: nat)
    requires m >= 1
    ensures n * m >= n
  {
  }

  function Xor32(h: nat, unit: nat): (r: nat)
    requires h < TWO32 && unit < TWO32
    ensures r < TWO32
  {
    Power2Of32();
    XorBound(h, unit, 32);
    XorBits(h, unit)
  }

  /** `x ^ unit`, a signed 32-bit result. */
  function Xor(x: int, unit: nat): (r: int)
    requires unit < TWO32
    ensures -TWO31 <= r < TWO31
  {
    ToInt32(Xor32(x % TWO32, unit))
  }

  // ----- FNV-1a: section 2 of draft-eastlake-fnv, over UTF-16 code units

  const FNV_OFFSET := 0x811C_9DC5
  const FNV_PRIME := 16777619

  function Fnv1a(units: seq<CodeUnit>): (h: nat)
    ensures h < TWO32
  {
    if units == [] then FNV_OFFSET
    else
      var n := |units| - 1;
      Xor32(Fnv1a(units[..n]), units[n]) * FNV_PRIME % TWO32
  }

  /** One shift-and-add round is a multiplication by the FNV prime modulo 2^32. */
  lemma ShiftAddIsMultiply(x: int)
    requires -TWO31 <= x < TWO31
    ensures var sum := ShiftLeft(x, 2) + ShiftLeft(x, 16) + ShiftLeft(x, 128)
                     + ShiftLeft(x, 256) + ShiftLeft(x, 0x100_0000);
            (x + sum) % TWO32 == (x % TWO32) * FNV_PRIME % TWO32
  {
    assert ToInt32(x) == x;
    var a := Carry(x * 2);
    var b := Carry(x * 16);
    var c := Carry(x * 128);
    var d := Carry(x * 256);
    var e := Carry(x * 0x100_0000);
    var q := x / TWO32;
    var total := x * FNV_PRIME + (a + b + c + d + e) * TWO32;
    assert total % TWO32 == (x * FNV_PRIME) % TWO32 by {
      Periodic(x * FNV_PRIME, a + b + c + d + e);
    }
    assert x == x % TWO32 + q * TWO32;
    assert x * FNV_PRIME == (x % TWO32) * FNV_PRIME + (q * FNV_PRIME) * TWO32;
    Periodic((x % TWO32) * FNV_PRIME, q * FNV_PRIME);
  }

  /** One round of the loop: exact in doubles, and one FNV-1a step modulo 2^32. */
  function Round(hash: int, unit: CodeUnit): (r: int)
    ensures -6 * TWO31 <= r <= 6 * TWO31
  {
    var x := Xor(hash, unit);
    x + (ShiftLeft(x, 2) + ShiftLeft(x, 16) + ShiftLeft(x, 128) + ShiftLeft(x, 256) + ShiftLeft(x, 0x100_0000))
  }

  lemma RoundIsFnvStep(hash: int, unit: CodeUnit)
    ensures Round(hash, unit) % TWO32 == Xor32(hash % TWO32, unit) * FNV_PRIME % TWO32
  {
    hide ShiftLeft, Xor32;
    ShiftAddIsMultiply(Xor(hash, unit));
    assert Xor(hash, unit) % TWO32 == Xor32(hash % TWO32, unit);
  }

  lemma Carry(y: int) returns (k: int)
    ensures ToInt32(y) == y + k * TWO32
  {
    k := if y % TWO32 >= TWO31 then -(y / TWO32) - 1 else -(y / TWO32);
  }

  lemma Periodic(x: int, k: int)
    ensures (x + k * TWO32) % TWO32 == x % TWO32
  {
    var q, r := x / TWO32, x % TWO32;
    assert x + k * TWO32 == (q + k) * TWO32 + r;
  }

  // ----- Eight hexadecimal digits

  predicate AllHex(t: string) {
    forall i | 0 <= i < |t| :: IsHexDigit(t[i])
  }

  /** `n.toString(16)` */
  function HexText(n: nat): (t: string)
    ensures t != "" && AllHex(t)
  {
    if n < 16 then [HexDigit(n)] else HexText(n / 16) + [HexDigit(n % 16)]
  }

  /** The last eight characters of `00000000${n.toString(16)}`. */
  function Hex8(n: nat): (t: string)
    ensures |t| == 8 && AllHex(t)
  {
    var t := "00000000" + HexText(n);
    t[|t| - 8..]
  }

  function HexDigitValue(c: char): nat
    requires IsHexDigit(c)
  {
    if c <= '9' then c as int - '0' as int else c as int - 'a' as int + 10
  }

  function HexValue(t: string): nat
    requires AllHex(t)
  {
    if t == "" then 0
    else HexValue(t[..|t| - 1]) * 16 + HexDigitValue(t[|t| - 1])
  }

  function Power16(k: nat): nat {
    if k == 0 then 1 else 16 * Power16(k - 1)
  }

  lemma {:induction false} HexTextLength(n: nat, k: nat, bound: nat)
    requires k >= 1 && bound == Power16(k) && n < bound
    ensures |HexText(n)| <= k
    decreases k
  {
    if n >= 16 {
      HexTextLength(n / 16, k - 1, Power16(k - 1));
    }
  }

  function Zeros(k: nat): (z: string)
    ensures |z| == k && forall i | 0 <= i < k :: z[i] == '0'
  {
    seq(k, _ => '0')
  }

  lemma DigitDecodes(d: nat)
    requires d < 16
    ensures HexDigitValue(HexDigit(d)) == d
  {
  }

  lemma {:induction false} HexValuePadded(k: nat, n: nat)
    ensures HexValue(Zeros(k) + HexText(n)) == n
    decreases n
  {
    hide HexDigit, Zeros;
    var t := Zeros(k) + HexText(n);
    DigitDecodes(n % 16);
    if n < 16 {
      assert t[..|t| - 1] == Zeros(k);
      ZeroValue(k);
    } else {
      assert t[..|t| - 1] == Zeros(k) + HexText(n / 16);
      HexValuePadded(k, n / 16);
    }
  }

  lemma {:induction false} ZeroValue(k: nat)
    ensures HexValue(Zeros(k)) == 0
  {
    if k > 0 {
      assert Zeros(k)[..k - 1] == Zeros(k - 1);
      ZeroValue(k - 1);
    }
  }

  /** The eight digits decode to the number: nothing is cut off. */
  lemma Hex8Decodes(n: nat)
    requires n < TWO32
    ensures HexValue(Hex8(n)) == n
  {
    assert Power16(8) == TWO32 by {
      assert Power16(4) == 0x10000;
    }
    HexTextLength(n, 8, TWO32);
    var k := 8 - |HexText(n)|;
    assert Hex8(n) == Zeros(k) + HexText(n) by {
      assert "00000000" == Zeros(8) && Zeros(8)[8 - k..] == Zeros(k);
    }
    HexValuePadded(k, n);
  }

  // ----- The function

  method HashText(str: string) returns (r: string)
    ensures r == Hex8(Fnv1a(Utf16(str)))
    ensures HexValue(r) == Fnv1a(Utf16(str))
  {
    hide ShiftLeft, Xor32, Xor, ToInt32, Utf16, Hex8, HexValue;
    var units := Utf16(str);
    var hash := FNV_OFFSET;
    for i := 0 to |units|
      invariant -6 * TWO31 <= hash <= 6 * TWO31 < MAX_SAFE
      invariant hash % TWO32 == Fnv1a(units[..i])
    {
      assert units[..i + 1][..i] == units[..i];
      RoundIsFnvStep(hash, units[i]);
      hash := Xor(hash, units[i]);
      var sum := ShiftLeft(hash, 2) + ShiftLeft(hash, 16) + ShiftLeft(hash, 128)
               + ShiftLeft(hash, 256) + ShiftLeft(hash, 0x100_0000);
      assert -MAX_SAFE <= sum <= MAX_SAFE;
      hash := hash + sum;
    }
    assert units[..|units|] == units;
    r := Hex8(hash % TWO32);
    Hex8Decodes(hash % TWO32);
  }

  /** The hash of a value: of a string directly, of anything else through the deterministic text. */
  function HashOf(v: Value): string {
    var text := match v case Str(s) => s case _ => Stringify(v);
    Hex8(Fnv1a(Utf16(text)))
  }

  method StableHashOf(v: Value) returns (r: string)
    ensures r == HashOf(v)
  {
    match v {
      case Str(s) => r := HashText(s);
      case _ => r := HashText(Stringify(v));
    }
  }

  /** Two texts get the same eight digits exactly when their FNV-1a values agree. */
  lemma HashEqualIffFnvEqual(s: string, t: string)
    ensures HashOf(Str(s)) == HashOf(Str(t)) <==> Fnv1a(Utf16(s)) == Fnv1a(Utf16(t))
  {
    Hex8Decodes(Fnv1a(Utf16(s)));
    Hex8Decodes(Fnv1a(Utf16(t)));
  }

  /** The published test vectors for the empty text and for "a" (section 6 of draft-eastlake-fnv). */
  lemma TestVectors()
    ensures HashOf(Str("")) == "811c9dc5"
    ensures HashOf(Str("a")) == "e40c292c"
  {
    HashOfNothing();
    HashOfA();
    OffsetDigits();
    ResultDigits();
    hide Hex8, HexValue, Fnv1a;
    HexDecoded("811c9dc5", 0x811C_9DC5);
    HexDecoded("e40c292c", 0xE40C_292C);
  }

  lemma HashOfNothing()
    ensures Fnv1a(Utf16("")) == 0x811C_9DC5
  {
  }

  lemma HashOfA()
    ensures Fnv1a(Utf16("a")) == 0xE40C_292C
  {
    assert "a"[1..] == "" && Utf16("a") == Units('a') + [] == [97];
    assert [97][..0] == [];
    XorOfA();
    ProductOfA();
    hide XorBits;
    assert Fnv1a([97]) == Xor32(Fnv1a([]), 97) * FNV_PRIME % TWO32;
  }

  lemma ProductOfA()
    ensures 0x811C_9DA4 * FNV_PRIME % TWO32 == 0xE40C_292C
  {
    assert 0x811C_9DA4 * FNV_PRIME == 8461672 * TWO32 + 0xE40C_292C;
  }

  lemma XorStep(a: nat, b: nat)
    requires a > 0
    ensures XorBits(a, b) == XorBits(a / 2, b / 2) * 2 + (a + b) % 2
  {
  }

  lemma XorOfA()
    ensures XorBits(0x811C_9DC5, 97) == 0x811C_9DA4
  {
    hide XorBits;
    XorNothing(0x102393B);
    XorStep(0x2047277, 1);
    XorStep(0x408E4EE, 3);
    XorStep(0x811C9DC, 6);
    XorStep(0x102393B8, 12);
    XorStep(0x20472771, 24);
    XorStep(0x408E4EE2, 48);
    XorStep(0x811C9DC5, 97);
  }

  lemma HexSnoc(t: string, c: char, u: string)
    requires AllHex(t) && IsHexDigit(c) && u == t + [c]
    ensures AllHex(u) && HexValue(u) == HexValue(t) * 16 + HexDigitValue(c)
  {
    assert u[..|t|] == t;
  }

  lemma OffsetDigits()
    ensures AllHex("811c9dc5") && HexValue("811c9dc5") == 0x811C_9DC5
  {
    ZeroValue(0);
    hide HexValue;
    assert Zeros(0) == "";
    HexSnoc("", '8', "8");
    HexSnoc("8", '1', "81");
    HexSnoc("81", '1', "811");
    HexSnoc("811", 'c', "811c");
    HexSnoc("811c", '9', "811c9");
    HexSnoc("811c9", 'd', "811c9d");
    HexSnoc("811c9d", 'c', "811c9dc");
    HexSnoc("811c9dc", '5', "811c9dc5");
  }

  lemma ResultDigits()
    ensures AllHex("e40c292c") && HexValue("e40c292c") == 0xE40C_292C
  {
    ZeroValue(0);
    hide HexValue;
    assert Zeros(0) == "";
    HexSnoc("", 'e', "e");
    HexSnoc("e", '4', "e4");
    HexSnoc("e4", '0', "e40");
    HexSnoc("e40", 'c', "e40c");
    HexSnoc("e40c", '2', "e40c2");
    HexSnoc("e40c2", '9', "e40c29");
    HexSnoc("e40c29", '2', "e40c292");
    HexSnoc("e40c292", 'c', "e40c292c");
  }

  lemma {:induction false} XorNothing(a: nat)
    ensures XorBits(a, 0) == a
  {
    if a > 0 {
      XorNothing(a / 2);
    }
  }

  lemma HexDecoded(t: string, n: nat)
    requires |t| == 8 && AllHex(t) && n < TWO32 && HexValue(t) == n
    ensures Hex8(n) == t
  {
    Hex8Decodes(n);
    HexValueInjective(t, Hex8(n));
  }

  lemma {:induction false} HexValueInjective(s: string, t: string)
    requires AllHex(s) && AllHex(t) && |s| == |t| && HexValue(s) == HexValue(t)
    ensures s == t
  {
    hide HexValue, HexDigitValue;
    if s != "" {
      var n := |s| - 1;
      HexLast(s);
      HexLast(t);
      assert HexValue(s[..n]) == HexValue(t[..n]) && HexDigitValue(s[n]) == HexDigitValue(t[n]);
      HexDigitInjective(s[n], t[n]);
      HexValueInjective(s[..n], t[..n]);
      assert s == s[..n] + [s[n]] && t == t[..n] + [t[n]];
    }
  }

  lemma HexLast(t: string)
    requires AllHex(t) && t != ""
    ensures HexValue(t) == HexValue(t[..|t| - 1]) * 16 + HexDigitValue(t[|t| - 1])
    ensures HexDigitValue(t[|t| - 1]) < 16
  {
    HexDigitRange(t[|t| - 1]);
  }

  lemma HexDigitInjective(c: char, d: char)
    requires IsHexDigit(c) && IsHexDigit(d) && HexDigitValue(c) == HexDigitValue(d)
    ensures c == d
  {
  }

  lemma HexDigitRange(c: char)
    requires IsHexDigit(c)
    ensures HexDigitValue(c) < 16
  {
  }

  /** The hash does not see the order of keys. */
  lemma HashIgnoresOrder(v: Value, w: Value)
    requires Valid(v) && Valid(w) && Forget(v) == Forget(w)
    ensures HashOf(v) == HashOf(w)
  {
    StringifyIgnoresOrder(v, w);
  }
}
