/** Numeric character references: the digits are read from the right with a 32-bit weight,
    and the number becomes UTF-8 bytes, one to four of them by its size, that no other
    number begins with.  A byte is a char below 256. */
module CharRef {

  const WORD: nat := 0x1_0000_0000

  // ---------------------------------------------------------------- digits

  function HexDigit(c: char): int {
    if '0' <= c <= '9' then c as int - '0' as int
    else if 'a' <= c <= 'f' then c as int - 'a' as int + 10
    else if 'A' <= c <= 'F' then c as int - 'A' as int + 10
    else -1
  }

  function DecDigit(c: char): int { if '0' <= c <= '9' then c as int - '0' as int else -1 }

  function DigitOf(c: char, base: nat): (d: int)
    ensures base == 10 || base == 16 ==> d < base
  {
    if base == 16 then HexDigit(c) else DecDigit(c)
  }

  predicate Digits(s: string, base: nat) { forall i :: 0 <= i < |s| ==> DigitOf(s[i], base) >= 0 }

  function Power(base: nat, i: nat): nat { if i == 0 then 1 else base * Power(base, i - 1) }

  /** The digits and their values. */
  lemma DigitTable(d: nat)
    requires d < 16
    ensures DigitOf("0123456789abcdef"[d], 16) == d && DigitOf("0123456789ABCDEF"[d], 16) == d
    ensures d < 10 ==> DigitOf("0123456789"[d], 10) == d
  {
    assert d >= 10 ==> "0123456789abcdef"[d] == "abcdef"[d - 10] && "0123456789ABCDEF"[d] == "ABCDEF"[d - 10];
  }

  /** One more digit at the end. */
  lemma NumberMore(s: string, c: char, base: nat)
    requires Digits(s + [c], base)
    ensures Digits(s, base) && NumberOf("", base) == 0 && NumberOf(s + [c], base) == base * NumberOf(s, base) + DigitOf(c, base)
  {
    DigitsFront(s, c, base);
    hide Digits, DigitOf;
    assert (s + [c])[..|s|] == s && (s + [c])[|s|] == c;
  }

  lemma DigitsFront(s: string, c: char, base: nat)
    requires Digits(s + [c], base)
    ensures Digits(s, base) && DigitOf(c, base) >= 0
  {
    hide DigitOf;
    assert (s + [c])[|s|] == c;
    assert forall i :: 0 <= i < |s| ==> s[i] == (s + [c])[i];
  }

  /** The number that the digits write. */
  function NumberOf(s: string, base: nat): nat
    requires Digits(s, base)
  {
    if s == [] then 0 else NumberOf(s[..|s| - 1], base) * base + DigitOf(s[|s| - 1], base)
  }

  /** What the loop adds up: each digit times a weight kept in 32 bits, each product cut to
      32 bits as well, from the last digit on. */
  function Summed(s: string, base: nat, mult: nat): nat
    requires Digits(s, base)
  {
    if s == [] then 0 else
      mult * DigitOf(s[|s| - 1], base) % WORD + Summed(s[..|s| - 1], base, mult * base % WORD)
  }

  lemma ModMul(a: nat, b: nat)
    ensures a % WORD * b % WORD == a * b % WORD
  {
    var q, r := a / WORD, a % WORD;
    assert a * b == q * b * WORD + r * b;
    ModAdd(r * b, q * b);
  }

  lemma ModAdd(x: nat, k: nat)
    ensures (x + k * WORD) % WORD == x % WORD
  {
    var q := x / WORD;
    assert x + k * WORD == (q + k) * WORD + x % WORD;
  }

  lemma ModSum(x: nat, y: nat)
    ensures (x % WORD + y) % WORD == (x + y) % WORD
  {
    var q := x / WORD;
    assert x + y == (x % WORD + y) + q * WORD;
    ModAdd(x % WORD + y, q);
  }

  lemma StepMod(mult: nat, base: nat, n: nat, d: nat, rest: nat)
    requires rest % WORD == mult * base % WORD * n % WORD
    ensures (mult * d % WORD + rest) % WORD == mult * (n * base + d) % WORD
  {
    ModMul(mult * base, n);
    ModSum(mult * d, rest);
    ModSum(rest, mult * d);
    ModSum(mult * base * n, mult * d);
    Spread(mult, base, n, d);
  }

  lemma Spread(mult: nat, base: nat, n: nat, d: nat)
    ensures mult * (n * base + d) == mult * base * n + mult * d
  {
    assert mult * (n * base) == mult * base * n;
  }

  /** Whatever the length, the sum agrees with the number on its low 32 bits. */
  lemma {:induction false} SummedModWord(s: string, base: nat, mult: nat)
    requires Digits(s, base)
    ensures Summed(s, base, mult) % WORD == mult * NumberOf(s, base) % WORD
  {
    if s != [] {
      var front, d := s[..|s| - 1], DigitOf(s[|s| - 1], base);
      var n, w := NumberOf(front, base), mult * base % WORD;
      SummedModWord(front, base, w);
      StepMod(mult, base, n, d, Summed(front, base, w));
    }
  }

  lemma {:induction false} NumberBound(s: string, base: nat)
    requires Digits(s, base) && (base == 10 || base == 16)
    ensures NumberOf(s, base) < Power(base, |s|)
  {
    if s != [] { NumberBound(s[..|s| - 1], base); }
  }

  lemma {:induction false} PowerMono(base: nat, i: nat, j: nat)
    requires base >= 1 && i <= j
    ensures 1 <= Power(base, i) <= Power(base, j)
    decreases j
  {
    if i < j { PowerMono(base, i, j - 1); } else if i > 0 { PowerMono(base, i - 1, i - 1); }
  }

  lemma PowerStep(base: nat, i: nat)
    requires i > 0
    ensures Power(base, i) == base * Power(base, i - 1)
  {}

  lemma PowersOfTen()
    ensures Power(10, 9) == 1_000_000_000
  {
    assert Power(10, 3) == 1000;
    assert Power(10, 6) == 1_000_000 by { PowerStep(10, 6); PowerStep(10, 5); PowerStep(10, 4); }
    PowerStep(10, 9);
    PowerStep(10, 8);
    PowerStep(10, 7);
  }

  lemma PowersOfSixteen()
    ensures Power(16, 8) == WORD
  {
    assert Power(16, 2) == 256;
    assert Power(16, 4) == 0x1_0000 by { PowerStep(16, 4); PowerStep(16, 3); }
    PowerStep(16, 8);
    PowerStep(16, 7);
    PowerStep(16, 6);
    PowerStep(16, 5);
  }

  /** While weight and number stay below 32 bits, nothing is cut off. */
  lemma {:induction false} SummedExact(s: string, base: nat, mult: nat)
    requires Digits(s, base) && (base == 10 || base == 16) && mult >= 1
    requires mult * Power(base, |s|) <= WORD
    ensures Summed(s, base, mult) == mult * NumberOf(s, base)
  {
    if s != [] {
      var front, d := s[..|s| - 1], DigitOf(s[|s| - 1], base);
      PowerStep(base, |s|);
      PowerMono(base, 0, |front|);
      WeightFits(mult, base, Power(base, |front|), d);
      Spread(mult, base, NumberOf(front, base), d);
      if front != [] {
        PowerStep(base, |front|);
        PowerMono(base, 0, |front| - 1);
        WeightBelow(mult, base, Power(base, |front| - 1));
        SummedExact(front, base, mult * base);
      }
    }
  }

  lemma WeightFits(mult: nat, base: nat, w: nat, d: nat)
    requires mult >= 1 && base >= 1 && w >= 1 && d < base && mult * (base * w) <= WORD
    ensures mult * d % WORD == mult * d && mult * base * w <= WORD
  {
    assert mult * (base * w) == mult * base * w;
    Widen(mult * base, w);
    assert mult * (d + 1) <= mult * base by { Grow(mult, d + 1, base); }
  }

  lemma WeightBelow(mult: nat, base: nat, v: nat)
    requires mult >= 1 && base >= 2 && v >= 1 && mult * base * (base * v) <= WORD
    ensures mult * base < WORD && mult * base % WORD == mult * base
  {
    Grow(mult * base, 2, base * v) by { Grow(2, 1, v); Grow(v, 2, base); }
  }

  lemma Grow(x: nat, y: nat, z: nat)
    requires y <= z
    ensures x * y <= x * z
  {}

  lemma Widen(x: nat, w: nat)
    requires w >= 1
    ensures x <= x * w
  {}

  /** Up to nine decimal digits read as the number they write. */
  lemma DecimalExact(s: string)
    requires Digits(s, 10) && |s| <= 9
    ensures Summed(s, 10, 1) == NumberOf(s, 10)
  {
    PowersOfTen();
    PowerMono(10, |s|, 9);
    SummedExact(s, 10, 1);
  }

  /** Hexadecimal digits of any number read as their number's low 32 bits. */
  lemma HexExact(s: string)
    requires Digits(s, 16)
    ensures Summed(s, 16, 1) == NumberOf(s, 16) % WORD
  {
    hide Summed, NumberOf, Digits;
    SummedModWord(s, 16, 1);
    HexBelowWord(s);
    SmallMod(Summed(s, 16, 1), NumberOf(s, 16));
  }

  lemma SmallMod(x: nat, n: nat)
    requires x < WORD && x % WORD == 1 * n % WORD
    ensures x == n % WORD
  {}

  lemma HexBelowWord(s: string)
    requires Digits(s, 16)
    ensures Summed(s, 16, 1) < WORD
  {
    PowersOfSixteen();
    if |s| <= 8 {
      PowerMono(16, |s|, 8);
      SummedExact(s, 16, 1);
      NumberBound(s, 16);
    } else {
      HighDigits(s, 8, 1);
      SummedExact(s[|s| - 8..], 16, 1);
      NumberBound(s[|s| - 8..], 16);
    }
  }

  /** Beyond the k digits at which the weight reaches 32 bits it is zero. */
  lemma {:induction false} HighDigits(s: string, k: nat, mult: nat)
    requires Digits(s, 16) && k <= |s| && mult * Power(16, k) == WORD
    ensures Summed(s, 16, mult) == Summed(s[|s| - k..], 16, mult)
  {
    if k == 0 {
      WordWeight(s);
      assert s[|s|..] == [];
    } else {
      PowerStep(16, k);
      var front := s[..|s| - 1];
      Rescale(mult, Power(16, k - 1));
      if k == 1 {
        ZeroWeight(front);
        assert s[|s| - 1..][..0] == [];
      } else {
        PowerMono(16, 1, k - 1);
        Narrow(mult * 16, Power(16, k - 1));
        HighDigits(front, k - 1, mult * 16);
        assert s[|s| - k..][..k - 1] == front[|front| - (k - 1)..];
      }
    }
  }

  lemma Rescale(mult: nat, w: nat)
    ensures mult * (16 * w) == mult * 16 * w
  {}

  lemma Narrow(x: nat, w: nat)
    requires w >= 16 && x * w == WORD
    ensures x < WORD && x % WORD == x
  {
    Grow(x, 16, w);
  }

  lemma WordWeight(s: string)
    requires Digits(s, 16)
    ensures Summed(s, 16, WORD) == 0
  {
    if s != [] {
      ModAdd(0, DigitOf(s[|s| - 1], 16));
      ModAdd(0, 16);
      ZeroWeight(s[..|s| - 1]);
    }
  }

  lemma {:induction false} ZeroWeight(s: string)
    requires Digits(s, 16)
    ensures Summed(s, 16, 0) == 0
  {
    if s != [] { ZeroWeight(s[..|s| - 1]); }
  }

  // ----------------------------------------------------------------- UTF-8

  function Byte(n: nat): char
    requires n < 256
  {
    n as char
  }

  /** XMLUtil::ConvertUTF32ToUTF8; nothing from 0x200000 on. */
  function Utf8(u: nat): (s: string)
    ensures |s| <= 4 && forall i :: 0 <= i < |s| ==> s[i] as int < 256
  {
    if u < 0x80 then [Byte(u)]
    else if u < 0x800 then [Byte(0xC0 + u / 64), Byte(0x80 + u % 64)]
    else if u < 0x1_0000 then [Byte(0xE0 + u / 64 / 64), Byte(0x80 + u / 64 % 64), Byte(0x80 + u % 64)]
    else if u < 0x20_0000 then
      [Byte(0xF0 + u / 64 / 64 / 64), Byte(0x80 + u / 64 / 64 % 64), Byte(0x80 + u / 64 % 64), Byte(0x80 + u % 64)]
    else []
  }

  /** Characters of one to four bytes. */
  lemma Utf8Examples()
    ensures Utf8(0x41) == "A" && Utf8(0xE9) == [0xC3 as char, 0xA9 as char]
    ensures Utf8(0x20AC) == [0xE2 as char, 0x82 as char, 0xAC as char]
    ensures Utf8(0x1F600) == [0xF0 as char, 0x9F as char, 0x98 as char, 0x80 as char]
  {}

  /** The same, byte by byte from the last one: ( input | 0x80 ) & 0xBF keeps six bits, and
      input >>= 6 drops them. */
  method ConvertUTF32ToUTF8(input: nat) returns (output: string)
    ensures output == Utf8(input)
  {
    var length: nat;
    if input < 0x80 { length := 1; }
    else if input < 0x800 { length := 2; }
    else if input < 0x1_0000 { length := 3; }
    else if input < 0x20_0000 { length := 4; }
    else { return []; }
    output := [];
    var rest, k := input, length;
    if k == 4 { output := [Byte(0x80 + rest % 64)] + output; rest := rest / 64; k := 3; }
    if k == 3 { output := [Byte(0x80 + rest % 64)] + output; rest := rest / 64; k := 2; }
    if k == 2 { output := [Byte(0x80 + rest % 64)] + output; rest := rest / 64; }
    var mark := if length == 1 then 0 else if length == 2 then 0xC0 else if length == 3 then 0xE0 else 0xF0;
    output := [Byte(mark + rest)] + output;
  }

  datatype Decoded = NoCode | Code(point: nat, length: nat)

  predicate Follows(c: char) { 0x80 <= c as int < 0xC0 }

  /** The first code point of a byte string, by the table of section 3 of RFC 3629. */
  function DecodeFirst(s: string): Decoded {
    if s == [] then NoCode
    else if s[0] as int < 0x80 then Code(s[0] as int, 1)
    else if 0xC0 <= s[0] as int < 0xE0 && |s| >= 2 && Follows(s[1]) then Code((s[0] as int - 0xC0) * 64 + (s[1] as int - 0x80), 2)
    else if 0xE0 <= s[0] as int < 0xF0 && |s| >= 3 && Follows(s[1]) && Follows(s[2]) then
      Code(((s[0] as int - 0xE0) * 64 + (s[1] as int - 0x80)) * 64 + (s[2] as int - 0x80), 3)
    else if 0xF0 <= s[0] as int < 0xF8 && |s| >= 4 && Follows(s[1]) && Follows(s[2]) && Follows(s[3]) then
      Code((((s[0] as int - 0xF0) * 64 + (s[1] as int - 0x80)) * 64 + (s[2] as int - 0x80)) * 64 + (s[3] as int - 0x80), 4)
    else NoCode
  }

  /** The bytes of a code point decode to it, whatever follows. */
  lemma Utf8RoundTrip(u: nat, rest: string)
    requires u < 0x20_0000
    ensures DecodeFirst(Utf8(u) + rest) == Code(u, |Utf8(u)|)
  {
    var s := Utf8(u) + rest;
    assert forall i :: 0 <= i < |Utf8(u)| ==> s[i] == Utf8(u)[i];
  }

  /** Different code points have different bytes, and neither begins the other's. */
  lemma Utf8Injective(u: nat, v: nat, rest: string)
    requires u < 0x20_0000 && v < 0x20_0000 && Utf8(u) + rest == Utf8(v)
    ensures u == v
  {
    Utf8RoundTrip(u, rest);
    Utf8RoundTrip(v, []);
    assert Utf8(v) + [] == Utf8(v);
  }
}
