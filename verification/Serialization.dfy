/** The wire format: SerialBuf is a stack of bytes, so everything is read back in the reverse
    of the order in which it was written: numbers by their bytes, strings by their
    characters and a length, vectors by their elements and a count, at any depth. */
module Serialization {
  import opened Common

  type Byte = b: int | 0 <= b < 256

  /** What SerialBuf writes: a number of 1 to 8 bytes, a string, or a vector. */
  datatype Val = Num(width: nat, raw: nat) | Str(text: seq<Byte>) | Vec(elems: seq<Val>)

  /** What a reader asks for: the static type at the other end of operator>>. */
  datatype Shape = NumOf(bytes: nat) | StrOf | VecOf(elem: Shape)

  // ------------------------------------------------------------ little endian

  function Pow(i: nat): nat { if i == 0 then 1 else 256 * Pow(i - 1) }

  lemma PowValues()
    ensures Pow(0) == 1 && Pow(1) == 0x100 && Pow(2) == 0x1_0000 && Pow(4) == 0x1_0000_0000 && Pow(8) == 0x1_0000_0000_0000_0000
  {
    assert Pow(3) == 0x100_0000 && Pow(4) == 256 * Pow(3);
    assert Pow(5) == 256 * Pow(4) && Pow(6) == 256 * Pow(5) && Pow(7) == 256 * Pow(6) && Pow(8) == 256 * Pow(7);
  }

  /** The low w bytes of a number, lowest first. */
  function Little(raw: nat, w: nat): (s: seq<Byte>)
    ensures |s| == w
  {
    if w == 0 then [] else [raw % 256] + Little(raw / 256, w - 1)
  }

  function ValueOf(s: seq<Byte>): nat { if s == [] then 0 else s[0] + 256 * ValueOf(s[1..]) }

  lemma PowPositive(i: nat)
    ensures Pow(i) > 0
  {}

  lemma {:induction false} DivPow(raw: nat, i: nat)
    ensures Pow(i) > 0 && Pow(i + 1) > 0 && raw / 256 / Pow(i) == raw / Pow(i + 1)
  {
    PowPositive(i);
    var p := Pow(i);
    assert Pow(i + 1) == 256 * p;
    var q := raw / 256 / p;
    var s, r := raw / 256 % p, raw % 256;
    assert raw == 256 * (q * p + s) + r;
    assert 256 * (q * p + s) + r == q * (256 * p) + (256 * s + r);
    assert 256 * s + r < 256 * p;
    QuotientIs(raw, 256 * p, q, 256 * s + r);
  }

  lemma QuotientIs(a: nat, b: nat, q: nat, r: nat)
    requires r < b && a == q * b + r
    ensures a / b == q
  {
    if a / b < q { assert (a / b + 1) * b <= q * b by { Mono(a / b + 1, q, b); } }
    if a / b > q { assert (q + 1) * b <= a / b * b by { Mono(q + 1, a / b, b); } }
  }

  lemma Mono(x: nat, y: nat, b: nat)
    requires x <= y
    ensures x * b <= y * b
  {}

  /** The byte that out() pushes in its round i: tmp >> (8 * i) & 0xff. */
  lemma {:induction false} LittleAt(raw: nat, w: nat, i: nat)
    requires i < w
    ensures Pow(i) > 0 && Little(raw, w)[i] == raw / Pow(i) % 256
  {
    PowPositive(i);
    if i > 0 {
      LittleAt(raw / 256, w - 1, i - 1);
      DivPow(raw, i - 1);
    }
  }

  /** Reading back the bytes of a number gives its low bytes. */
  lemma {:induction false} LittleRoundTrip(raw: nat, w: nat)
    requires raw < Pow(w)
    ensures ValueOf(Little(raw, w)) == raw
  {
    if w > 0 {
      assert raw / 256 < Pow(w - 1);
      LittleRoundTrip(raw / 256, w - 1);
    }
  }

  // ------------------------------------------------------------ what is written

  ghost function Encode(v: Val): seq<Byte>
    decreases v
  {
    match v
    case Num(w, raw) => Little(raw, w)
    case Str(text) => text + Little(|text|, 8)
    case Vec(elems) => EncodeAll(elems) + Little(|elems|, 8)
  }

  ghost function EncodeAll(vs: seq<Val>): seq<Byte>
    decreases vs
  {
    if vs == [] then [] else EncodeAll(vs[..|vs| - 1]) + Encode(vs[|vs| - 1])
  }

  lemma EncodeLast(vs: seq<Val>)
    ensures EncodeAll(vs) == if vs == [] then [] else EncodeAll(vs[..|vs| - 1]) + Encode(vs[|vs| - 1])
  {}

  lemma EncodeMore(vs: seq<Val>, v: Val)
    ensures EncodeAll(vs + [v]) == EncodeAll(vs) + Encode(v)
  {
    assert (vs + [v])[..|vs|] == vs;
  }

  /** v has this shape: its numbers fit their widths, and its lengths the 32 bits of the
      loops' counters. */
  ghost predicate Fits(v: Val, s: Shape)
    decreases v
  {
    match v
    case Num(w, raw) => s.NumOf? && w == s.bytes <= 8 && raw < Pow(w)
    case Str(text) => s.StrOf? && |text| < Pow(4)
    case Vec(elems) => s.VecOf? && |elems| < Pow(4) && forall i :: 0 <= i < |elems| ==> Fits(elems[i], s.elem)
  }

  lemma LengthFits(n: nat)
    requires n < Pow(4)
    ensures n < Pow(8)
  {
    assert Pow(5) == 256 * Pow(4) && Pow(6) == 256 * Pow(5) && Pow(7) == 256 * Pow(6) && Pow(8) == 256 * Pow(7);
  }

  class SerialBuf {
    var buf: seq<Byte>

    constructor ()
      ensures buf == []
    {
      buf := [];
    }

    /** out: the low len bytes of tmp. */
    method Out(tmp: nat, len: nat)
      modifies this
      ensures buf == old(buf) + Little(tmp, len)
      ensures |buf| == |old(buf)| + len && forall i :: 0 <= i < len ==> Pow(i) > 0 && buf[|old(buf)| + i] == tmp / Pow(i) % 256
    {
      var i := 0;
      while i < len
        invariant 0 <= i <= len && buf == old(buf) + Little(tmp, len)[..i]
      {
        LittleAt(tmp, len, i);
        buf := buf + [tmp / Pow(i) % 256];
        i := i + 1;
      }
      assert Little(tmp, len)[..len] == Little(tmp, len);
      forall k | 0 <= k < len ensures Pow(k) > 0 && buf[|old(buf)| + k] == tmp / Pow(k) % 256 { LittleAt(tmp, len, k); }
    }

    /** in: the bytes are popped from the highest to the lowest; the bits that the source
        ORs together never overlap, so they are added here. */
    method In(len: nat) returns (tmp: nat)
      requires |buf| >= len
      modifies this
      ensures buf == old(buf)[..|old(buf)| - len]
      ensures tmp == ValueOf(old(buf)[|old(buf)| - len..])
    {
      AtNothing(len);
      hide ValueOf, Pow;
      ghost var top := buf[|buf| - len..];
      ghost var rest := buf[..|buf| - len];
      assert buf == rest + top && top[..len] == top && top[len..] == [];
      tmp := 0;
      var i := len;
      while i > 0
        invariant 0 <= i <= len && buf == rest + top[..i]
        invariant tmp == ValueOf(top[i..]) * Pow(i)
      {
        var c := buf[|buf| - 1];
        buf := buf[..|buf| - 1];
        assert buf == rest + top[..i - 1] && c == top[i - 1];
        TakeByte(top, i);
        tmp := tmp + c * Pow(i - 1);
        i := i - 1;
      }
      assert top[0..] == top;
      assert rest + top[..0] == rest;
    }

    /** operator<< of a number. */
    method PutNum(w: nat, raw: nat)
      modifies this
      ensures buf == old(buf) + Encode(Num(w, raw))
    {
      Out(raw, w);
    }

    /** operator<< of a string: its characters, then its length. */
    method PutStr(text: seq<Byte>)
      modifies this
      ensures buf == old(buf) + Encode(Str(text)) && buf == old(buf) + (text + Little(|text|, 8))
    {
      var i := 0;
      while i < |text|
        invariant 0 <= i <= |text| && buf == old(buf) + text[..i]
      {
        buf := buf + [text[i]];
        i := i + 1;
      }
      assert text[..i] == text;
      Out(|text|, 8);
    }

    /** operator<<: a vector's elements, then their number. */
    method Put(v: Val)
      modifies this
      ensures buf == old(buf) + Encode(v)
      decreases v, 1
    {
      match v
      case Num(w, raw) => PutNum(w, raw);
      case Str(text) => PutStr(text);
      case Vec(elems) => PutVec(elems);
    }

    method PutVec(elems: seq<Val>)
      modifies this
      ensures buf == old(buf) + Encode(Vec(elems)) && buf == old(buf) + (EncodeAll(elems) + Little(|elems|, 8))
      decreases Vec(elems), 0
    {
      hide EncodeAll, Little;
      ghost var was := buf;
      var i := 0;
      EncodeLast(elems[..0]);
      while i < |elems|
        invariant 0 <= i <= |elems| && buf == was + EncodeAll(elems[..i])
      {
        Put(elems[i]);
        EncodeLast(elems[..i + 1]);
        assert elems[..i + 1][..i] == elems[..i];
        Assoc(was, EncodeAll(elems[..i]), Encode(elems[i]));
        i := i + 1;
      }
      assert elems[..i] == elems;
      Out(|elems|, 8);
      Assoc(was, EncodeAll(elems), Little(|elems|, 8));
    }

    /** operator>> of a number, as its bytes. */
    method GetNum(w: nat, ghost before: seq<Byte>, ghost raw: nat) returns (r: nat)
      requires buf == before + Encode(Num(w, raw)) && raw < Pow(w)
      modifies this
      ensures buf == before && r == raw
    {
      r := In(w);
      LittleRoundTrip(raw, w);
      assert old(buf)[|before|..] == Little(raw, w);
      assert old(buf)[..|before|] == before;
    }

    method GetStr(ghost before: seq<Byte>, ghost text: seq<Byte>) returns (r: seq<Byte>)
      requires buf == before + Encode(Str(text)) && |text| < Pow(4)
      modifies this
      ensures buf == before && r == text
    {
      LengthFits(|text|);
      assert buf == (before + text) + Little(|text|, 8);
      var len := GetNum(8, before + text, |text|);
      r := [];
      var i := len;
      while i > 0
        invariant 0 <= i <= len == |text| && buf == before + text[..i] && r == text[i..]
      {
        r := [buf[|buf| - 1]] + r;
        buf := buf[..|buf| - 1];
        assert buf == before + text[..i - 1];
        i := i - 1;
      }
      assert before + text[..0] == before && text[0..] == text;
    }

    /** operator>>: whatever was written last comes back, and the rest is as before. */
    method Get(s: Shape, ghost before: seq<Byte>, ghost v: Val) returns (r: Val)
      requires buf == before + Encode(v) && Fits(v, s)
      modifies this
      ensures buf == before && r == v
      decreases s, 0
    {
      match s
      case NumOf(w) =>
        var raw := GetNum(w, before, v.raw);
        r := Num(w, raw);
      case StrOf =>
        var text := GetStr(before, v.text);
        r := Str(text);
      case VecOf(elem) =>
        var elems := GetVec(elem, before, v.elems);
        r := Vec(elems);
    }

    method GetVec(elem: Shape, ghost before: seq<Byte>, ghost vs: seq<Val>) returns (elems: seq<Val>)
      requires buf == before + Encode(Vec(vs)) && Fits(Vec(vs), VecOf(elem))
      modifies this
      ensures buf == before && elems == vs
      decreases elem, 1
    {
      LengthFits(|vs|);
      assert buf == (before + EncodeAll(vs)) + Little(|vs|, 8);
      var len := GetNum(8, before + EncodeAll(vs), |vs|);
      elems := [];
      var i := len;
      assert vs[..i] == vs && vs[i..] == [];
      while i > 0
        invariant 0 <= i <= len == |vs| && buf == before + EncodeAll(vs[..i]) && elems == vs[i..]
      {
        LastEncoded(before, vs, i);
        var x := Get(elem, before + EncodeAll(vs[..i - 1]), vs[i - 1]);
        elems := [x] + elems;
        i := i - 1;
      }
      assert before + EncodeAll(vs[..0]) == before && vs[0..] == vs;
    }
  }

  lemma LastEncoded(before: seq<Byte>, vs: seq<Val>, i: nat)
    requires 0 < i <= |vs|
    ensures before + EncodeAll(vs[..i]) == (before + EncodeAll(vs[..i - 1])) + Encode(vs[i - 1])
  {
    EncodeMore(vs[..i - 1], vs[i - 1]);
    assert vs[..i] == vs[..i - 1] + [vs[i - 1]];
  }

  lemma AtNothing(i: nat)
    ensures ValueOf([]) * Pow(i) == 0 && Pow(0) == 1
  {}

  lemma TakeByte(top: seq<Byte>, i: nat)
    requires 0 < i <= |top|
    ensures ValueOf(top[i - 1..]) * Pow(i - 1) == ValueOf(top[i..]) * Pow(i) + top[i - 1] * Pow(i - 1)
  {
    var v, p, c := ValueOf(top[i..]), Pow(i - 1), top[i - 1];
    assert top[i - 1..][1..] == top[i..];
    assert ValueOf(top[i - 1..]) == c + 256 * v;
    assert (c + 256 * v) * p == c * p + v * (256 * p);
  }

  // ------------------------------------------------- only one way to read back

  lemma SuffixEqual(a: seq<Byte>, x: seq<Byte>, b: seq<Byte>, y: seq<Byte>)
    requires a + x == b + y && |x| == |y|
    ensures a == b && x == y
  {
    assert |a| == |b|;
    assert a == (a + x)[..|a|] && b == (b + y)[..|b|];
    assert x == (a + x)[|a|..] && y == (b + y)[|b|..];
  }

  lemma LittleUnique(a: seq<Byte>, m: nat, b: seq<Byte>, n: nat, w: nat)
    requires a + Little(m, w) == b + Little(n, w) && m < Pow(w) && n < Pow(w)
    ensures a == b && m == n
  {
    SuffixEqual(a, Little(m, w), b, Little(n, w));
    LittleRoundTrip(m, w);
    LittleRoundTrip(n, w);
  }

  /** The bytes written for a value of a known shape can be read in one way only. */
  lemma {:induction false} EncodeUnique(a: seq<Byte>, v: Val, b: seq<Byte>, u: Val, s: Shape)
    requires a + Encode(v) == b + Encode(u) && Fits(v, s) && Fits(u, s)
    ensures a == b && v == u
    decreases v
  {
    hide EncodeAll, Little, Pow;
    match v
    case Num(w, raw) => LittleUnique(a, raw, b, u.raw, w);
    case Str(text) =>
      BlockUnique(a, text, |text|, b, u.text, |u.text|);
      SuffixEqual(a, text, b, u.text);
    case Vec(elems) =>
      BlockUnique(a, EncodeAll(elems), |elems|, b, EncodeAll(u.elems), |u.elems|);
      AllUnique(a, elems, b, u.elems, s.elem);
  }

  /** A string's or a vector's bytes, with the length behind them. */
  lemma BlockUnique(a: seq<Byte>, x: seq<Byte>, m: nat, b: seq<Byte>, y: seq<Byte>, n: nat)
    requires a + (x + Little(m, 8)) == b + (y + Little(n, 8)) && m < Pow(4) && n < Pow(4)
    ensures a + x == b + y && m == n
  {
    hide Little;
    LengthFits(m);
    LengthFits(n);
    Assoc(a, x, Little(m, 8));
    Assoc(b, y, Little(n, 8));
    LittleUnique(a + x, m, b + y, n, 8);
  }

  lemma {:induction false} AllUnique(a: seq<Byte>, vs: seq<Val>, b: seq<Byte>, us: seq<Val>, s: Shape)
    requires |vs| == |us| && a + EncodeAll(vs) == b + EncodeAll(us)
    requires forall i :: 0 <= i < |vs| ==> Fits(vs[i], s) && Fits(us[i], s)
    ensures a == b && vs == us
    decreases vs
  {
    hide Encode, EncodeAll, Fits;
    EncodeLast(vs);
    EncodeLast(us);
    if vs != [] {
      var n := |vs| - 1;
      assert a + EncodeAll(vs) == (a + EncodeAll(vs[..n])) + Encode(vs[n]);
      assert b + EncodeAll(us) == (b + EncodeAll(us[..n])) + Encode(us[n]);
      EncodeUnique(a + EncodeAll(vs[..n]), vs[n], b + EncodeAll(us[..n]), us[n], s);
      AllUnique(a, vs[..n], b, us[..n], s);
      assert vs == vs[..n] + [vs[n]] && us == us[..n] + [us[n]];
    } else {
      assert a + [] == a && b + [] == b;
    }
  }

  // ----------------------------------------------------------- typed numbers

  /** (uint64_t) t, cut to w bytes: two's complement for a negative t. */
  function ToRaw(w: nat, t: int): nat
  {
    PowPositive(w);
    t % Pow(w)
  }

  /** (T) of the bytes read, for a signed T of w bytes. */
  function FromRaw(w: nat, raw: nat): int
    requires w > 0
  {
    if raw >= 128 * Pow(w - 1) then raw - Pow(w) else raw
  }

  ghost predicate Signed(w: nat, t: int)
    requires w > 0
  {
    -128 * Pow(w - 1) <= t < 128 * Pow(w - 1)
  }

  /** A signed number, negative or not, comes back as itself. */
  lemma SignedRoundTrip(w: nat, t: int)
    requires w > 0 && Signed(w, t)
    ensures ToRaw(w, t) < Pow(w) && FromRaw(w, ToRaw(w, t)) == t
  {
    PowPositive(w - 1);
    SignedMod(t, Pow(w), Pow(w - 1));
  }

  lemma SignedMod(t: int, p: int, h: int)
    requires h > 0 && p == 256 * h && -128 * h <= t < 128 * h
    ensures t % p == if t >= 0 then t else t + p
  {
    if t >= 0 { RestIs(t, p, 0, t); } else { RestIs(t, p, -1, t + p); }
  }

  lemma RestIs(a: int, b: int, q: int, r: int)
    requires 0 <= r < b && a == q * b + r
    ensures a % b == r
  {
    var x := a / b;
    assert a == x * b + a % b;
    assert (x - q) * b == r - a % b;
    if x > q { Scale(1, x - q, b); }
    if x < q { Scale(x - q, -1, b); }
  }

  lemma Scale(x: int, y: int, b: int)
    requires x <= y && b >= 0
    ensures x * b <= y * b
  {}
}
