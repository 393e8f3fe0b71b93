/** Attribute values: decoding entities and line ends in place, and escaping on output. */
module XmlText {
  import opened CharRef
  import opened Names

  const NUL := 0 as char
  const LF := '\n'
  const CR := '\r'

  /** A C string holds no NUL; reading past its end gives the NUL that ends it. */
  predicate CString(s: string) { NUL !in s }

  function CharAt(s: string, i: nat): char { if i < |s| then s[i] else NUL }

  predicate StartsWith(s: string, prefix: string) { |prefix| <= |s| && s[..|prefix|] == prefix }

  // ----------------------------------------------------- numeric references

  /** What GetCharacterRef returns: 0, or how much it took and the bytes for it. */
  datatype Ref = Null | Ref(taken: nat, bytes: string)

  /** The digits are read leftwards from the semicolon to the nearest mark. */
  function RefBytes(field: string, mark: char, base: nat): (r: Ref)
    ensures r.Ref? ==> |r.bytes| <= 4 && (|field| == RFind(field, mark) + 1 ==> |r.bytes| == 1)
  {
    var digits := field[RFind(field, mark) + 1..];
    if Digits(digits, base) then Ref(0, Utf8(Summed(digits, base, 1))) else Null
  }

  /** XMLUtil::GetCharacterRef on a text that begins with "&#". */
  function CharacterRef(t: string): (r: Ref)
    requires |t| >= 2 && t[0] == '&' && t[1] == '#'
    ensures r.Ref? ==> 0 < r.taken <= |t| && |r.bytes| <= r.taken
  {
    if |t| == 2 then Ref(1, [])
    else
      var hex := t[2] == 'x';
      var from := if hex then 3 else 2;
      var k := Find(t[from..], ';');
      if from + k >= |t| then Null else
        var r := RefBytes(t[from - 1..from + k], if hex then 'x' else '#', if hex then 16 else 10);
        if r.Null? then Null else Ref(from + k + 1, r.bytes)
  }

  method GetCharacterRef(t: string) returns (r: Ref)
    requires |t| >= 2 && t[0] == '&' && t[1] == '#'
    ensures r == CharacterRef(t)
  {
    if |t| == 2 { return Ref(1, []); }
    var hex := t[2] == 'x';
    var from := if hex then 3 else 2;
    var end := from + Find(t[from..], ';');
    if end >= |t| { return Null; }
    var mark, base := if hex then 'x' else '#', if hex then 16 else 10;
    r := ReadDigits(t, from - 1, end, mark, base);
    if r.Null? { return Null; }
    return Ref(end + 1, r.bytes);
  }

  /** The digit loop and the conversion of its sum. */
  method ReadDigits(t: string, first: nat, end: nat, mark: char, base: nat) returns (r: Ref)
    requires first < end <= |t| && t[first] == mark && (base == 10 || base == 16)
    ensures r.Null? <==> RefBytes(t[first..end], mark, base).Null?
    ensures r.Ref? ==> r.bytes == RefBytes(t[first..end], mark, base).bytes
  {
    ghost var field := t[first..end];
    assert field[0] == mark;
    ghost var lo := first + RFind(field, mark) + 1;
    assert forall i :: lo <= i < end ==> t[i] == field[i - first];
    assert t[lo..end] == field[RFind(field, mark) + 1..];
    var ok, ucs := SumDigits(t, lo, end, mark, base);
    if !ok { return Null; }
    var bytes := ConvertUTF32ToUTF8(ucs);
    return Ref(1, bytes);
  }

  /** Leftwards from hi - 1 to the mark before lo. */
  method SumDigits(t: string, ghost lo: nat, hi: nat, mark: char, base: nat) returns (ok: bool, ucs: nat)
    requires 0 < lo <= hi <= |t| && t[lo - 1] == mark && forall i :: lo <= i < hi ==> t[i] != mark
    ensures ok <==> Digits(t[lo..hi], base)
    ensures ok ==> ucs == Summed(t[lo..hi], base, 1)
  {
    ucs := 0;
    var mult: nat, q := 1, hi - 1;
    while t[q] != mark
      invariant lo - 1 <= q < hi
      invariant forall i :: q < i < hi ==> DigitOf(t[i], base) >= 0
      invariant Digits(t[lo..hi], base) ==> ucs + SumOf(t[lo..q + 1], base, mult) == SumOf(t[lo..hi], base, 1)
      decreases q
    {
      var d := DigitOf(t[q], base);
      if d < 0 {
        assert t[lo..hi][q - lo] == t[q];
        return false, 0;
      }
      SumLast(t[lo..hi], q + 1 - lo, base, mult);
      assert t[lo..hi][..q + 1 - lo] == t[lo..q + 1] && t[lo..hi][..q - lo] == t[lo..q];
      ucs := ucs + mult * d % WORD;
      mult := mult * base % WORD;
      q := q - 1;
    }
    assert t[lo..q + 1] == [];
    ok := true;
  }

  function SumOf(s: string, base: nat, mult: nat): nat { if Digits(s, base) then Summed(s, base, mult) else 0 }

  lemma SumLast(digits: string, left: nat, base: nat, mult: nat)
    requires 0 < left <= |digits|
    ensures Digits(digits, base) ==>
              SumOf(digits[..left], base, mult) == mult * DigitOf(digits[left - 1], base) % WORD + SumOf(digits[..left - 1], base, mult * base % WORD)
  {
    assert digits[..left][..left - 1] == digits[..left - 1];
  }

  predicate IsHex(c: char) { '0' <= c <= '9' || 'a' <= c <= 'f' || 'A' <= c <= 'F' }

  lemma DigitsByHand(s: string)
    ensures Digits(s, 10) <==> forall i :: 0 <= i < |s| ==> '0' <= s[i] <= '9'
    ensures Digits(s, 16) <==> forall i :: 0 <= i < |s| ==> '0' <= s[i] <= '9' || 'a' <= s[i] <= 'f' || 'A' <= s[i] <= 'F'
  {
    assert forall i :: 0 <= i < |s| ==> (DigitOf(s[i], 10) >= 0 <==> '0' <= s[i] <= '9');
    assert forall i :: 0 <= i < |s| ==> (DigitOf(s[i], 16) >= 0 <==> '0' <= s[i] <= '9' || 'a' <= s[i] <= 'f' || 'A' <= s[i] <= 'F');
  }

  /** A reference up to its first semicolon at k, with its last mark at m: x in hexadecimal,
      the number sign in decimal. */
  ghost predicate Marked(t: string, k: nat, m: nat) {
    && 2 <= k < |t| && t[0] == '&' && t[1] == '#'
    && (var hex := t[2] == 'x';
        && (if hex then 3 <= k && 2 <= m < k else 2 <= k && 1 <= m < k)
        && t[k] == ';' && (forall i :: (if hex then 3 else 2) <= i < k ==> t[i] != ';')
        && t[m] == (if hex then 'x' else '#') && forall i :: m < i < k ==> t[i] != t[m])
  }

  lemma ReferenceReads(t: string, k: nat, m: nat)
    requires Marked(t, k, m)
    ensures var base := if t[2] == 'x' then 16 else 10; var digits := t[m + 1..k];
            CharacterRef(t) == if Digits(digits, base) then Ref(k + 1, Utf8(Summed(digits, base, 1))) else Null
  {
    hide Summed, Utf8, Digits, Find, RFind, Marked, CharacterRef;
    MarkedBegins(t, k, m);
    MarkedEnds(t, k, m);
    var hex := t[2] == 'x';
    ReferenceBetween(t, k, hex);
    BytesBehind(t[(if hex then 2 else 1)..k], if hex then 'x' else '#', if hex then 16 else 10);
  }

  lemma ReferenceBetween(t: string, k: nat, hex: bool)
    requires |t| > 2 && t[0] == '&' && t[1] == '#' && (hex <==> t[2] == 'x')
    requires var from := if hex then 3 else 2; from <= k < |t| && Find(t[from..], ';') == k - from
    ensures var r := RefBytes(t[(if hex then 2 else 1)..k], if hex then 'x' else '#', if hex then 16 else 10);
            CharacterRef(t) == if r.Null? then Null else Ref(k + 1, r.bytes)
  {
    hide RefBytes, Find;
  }

  lemma BytesBehind(field: string, mark: char, base: nat)
    ensures var digits := field[RFind(field, mark) + 1..];
            RefBytes(field, mark, base) == if Digits(digits, base) then Ref(0, Utf8(Summed(digits, base, 1))) else Null
  {
    hide Summed, Utf8, Digits, RFind;
  }

  lemma MarkedEnds(t: string, k: nat, m: nat)
    requires Marked(t, k, m)
    ensures var hex := t[2] == 'x'; var from := if hex then 3 else 2;
            && from <= k < |t| && from - 1 <= m < k && Find(t[from..], ';') == k - from
            && RFind(t[from - 1..k], if hex then 'x' else '#') == m - (from - 1)
            && t[from - 1..k][m - (from - 1) + 1..] == t[m + 1..k]
  {
    hide Find, RFind;
    var from := if t[2] == 'x' then 3 else 2;
    FirstAt(t, from, k, ';');
    LastAt(t, from - 1, k, m, if t[2] == 'x' then 'x' else '#');
  }

  lemma FirstAt(t: string, from: nat, k: nat, c: char)
    requires from <= k < |t| && t[k] == c && forall i :: from <= i < k ==> t[i] != c
    ensures Find(t[from..], c) == k - from
  {
    hide Find;
    assert t[from..][k - from] == t[k];
  }

  lemma LastAt(t: string, lo: nat, k: nat, m: nat, c: char)
    requires lo <= m < k <= |t| && t[m] == c && forall i :: m < i < k ==> t[i] != c
    ensures RFind(t[lo..k], c) == m - lo && t[lo..k][m - lo + 1..] == t[m + 1..k]
  {
    hide RFind;
    var field := t[lo..k];
    forall i | m - lo < i < |field| ensures field[i] != c { assert field[i] == t[lo + i]; }
    RFindIs(field, c, m - lo);
  }

  lemma DigitHasNoMark(s: string)
    ensures (forall i :: 0 <= i < |s| ==> '0' <= s[i] <= '9') ==> forall i :: 0 <= i < |s| ==> s[i] != '#' && s[i] != ';' && s[i] != 'x'
    ensures (forall i :: 0 <= i < |s| ==> IsHex(s[i])) ==> forall i :: 0 <= i < |s| ==> s[i] != ';' && s[i] != 'x'
  {}

  /** A reference with no further mark in its digits. */
  lemma PlainMarked(head: string, digits: string, rest: string)
    requires (head == "&#" && (digits == [] || digits[0] != 'x')) || head == "&#x"
    requires forall i :: 0 <= i < |digits| ==> digits[i] != ';' && digits[i] != head[|head| - 1]
    ensures var t, k := head + digits + ";" + rest, |head| + |digits|;
            Marked(t, k, |head| - 1) && t[|head|..k] == digits && (t[2] == 'x' <==> head == "&#x")
  {
    var t, k := head + digits + ";" + rest, |head| + |digits|;
    assert t == head + (digits + (";" + rest));
    assert forall i :: 0 <= i < |head| ==> t[i] == head[i];
    assert forall i :: |head| <= i < k ==> t[i] == digits[i - |head|];
    assert t[k] == ';';
  }

  lemma ReferenceOf(head: string, digits: string, rest: string, hex: bool)
    requires (head == "&#" && !hex && (digits == [] || digits[0] != 'x')) || (head == "&#x" && hex)
    requires forall i :: 0 <= i < |digits| ==> digits[i] != ';' && digits[i] != head[|head| - 1]
    requires Digits(digits, if hex then 16 else 10)
    ensures |head + digits + ";" + rest| >= 2 && (head + digits + ";" + rest)[0] == '&' && (head + digits + ";" + rest)[1] == '#'
    ensures CharacterRef(head + digits + ";" + rest) == Ref(|head| + |digits| + 1, Utf8(Summed(digits, if hex then 16 else 10, 1)))
  {
    PlainMarked(head, digits, rest);
    var t := head + digits + ";" + rest;
    MarkedBegins(t, |head| + |digits|, |head| - 1);
    hide Summed, Utf8, CharacterRef, Digits, Marked;
    ReferenceReads(t, |head| + |digits|, |head| - 1);
  }

  lemma MarkedBegins(t: string, k: nat, m: nat)
    requires Marked(t, k, m)
    ensures |t| > 2 && t[0] == '&' && t[1] == '#'
  {}

  /** "&#65;": up to nine decimal digits give the character of their number. */
  lemma DecimalReference(s: string, rest: string)
    requires |s| <= 9 && forall i :: 0 <= i < |s| ==> '0' <= s[i] <= '9'
    ensures Digits(s, 10) && CharacterRef("&#" + s + ";" + rest) == Ref(|s| + 3, Utf8(NumberOf(s, 10)))
  {
    hide Summed, NumberOf, Utf8, CharacterRef, Digits;
    DigitsByHand(s);
    DigitHasNoMark(s);
    ReferenceOf("&#", s, rest, false);
    DecimalExact(s);
  }

  /** "&#x41;": hexadecimal digits give the character of their number on 32 bits. */
  lemma HexReference(s: string, rest: string)
    requires forall i :: 0 <= i < |s| ==> IsHex(s[i])
    ensures Digits(s, 16) && CharacterRef("&#x" + s + ";" + rest) == Ref(|s| + 4, Utf8(NumberOf(s, 16) % 0x1_0000_0000))
  {
    hide Summed, NumberOf, Utf8, CharacterRef, Digits;
    DigitsByHand(s);
    DigitHasNoMark(s);
    ReferenceOf("&#x", s, rest, true);
    HexExact(s);
  }

  /** A reference is refused exactly when it has no semicolon, or a character between its last
      mark and the semicolon is no digit of its base. */
  lemma RefusedIff(t: string, k: nat, m: nat)
    requires |t| > 2 && t[0] == '&' && t[1] == '#'
    ensures (forall i :: (if t[2] == 'x' then 3 else 2) <= i < |t| ==> t[i] != ';') ==> CharacterRef(t).Null?
    ensures Marked(t, k, m) ==>
              (CharacterRef(t).Null? <==> exists i :: m < i < k && if t[2] == 'x' then !IsHex(t[i]) else !('0' <= t[i] <= '9'))
  {
    NoSemicolon(t);
    if Marked(t, k, m) {
      ReferenceReads(t, k, m);
      MarkedSpan(t, k, m);
      hide CharacterRef, Summed, Utf8, Digits, Marked, IsHex;
      SpanDigits(t, m + 1, k);
    }
  }

  lemma MarkedSpan(t: string, k: nat, m: nat)
    requires Marked(t, k, m)
    ensures m + 1 <= k < |t|
  {}

  lemma SpanDigits(t: string, lo: nat, hi: nat)
    requires lo <= hi <= |t|
    ensures Digits(t[lo..hi], 10) <==> forall i :: lo <= i < hi ==> '0' <= t[i] <= '9'
    ensures Digits(t[lo..hi], 16) <==> forall i :: lo <= i < hi ==> IsHex(t[i])
  {
    hide Digits;
    DigitsByHand(t[lo..hi]);
    assert forall i :: lo <= i < hi ==> t[i] == t[lo..hi][i - lo];
  }

  lemma NoSemicolon(t: string)
    requires |t| > 2 && t[0] == '&' && t[1] == '#'
    ensures (forall i :: (if t[2] == 'x' then 3 else 2) <= i < |t| ==> t[i] != ';') ==> CharacterRef(t).Null?
  {
    hide RefBytes;
    var from := if t[2] == 'x' then 3 else 2;
    var k := Find(t[from..], ';');
    if from + k < |t| { assert t[from + k] == ';'; }
  }

  // ----------------------------------------------------------- named entities

  datatype Entity = Entity(pattern: string, value: char)

  const ENTITIES: seq<Entity> := [Entity("quot", '"'), Entity("amp", '&'), Entity("apos", '\''), Entity("lt", '<'), Entity("gt", '>')]

  /** Entity k stands at the '&' that begins t. */
  predicate Matches(t: string, k: nat)
    requires k < |ENTITIES| && t != []
  {
    StartsWith(t[1..], ENTITIES[k].pattern) && CharAt(t, |ENTITIES[k].pattern| + 1) == ';'
  }

  /** The first entity that matches, or the number of entities. */
  function WhichEntity(t: string, k: nat): (i: nat)
    requires t != [] && k <= |ENTITIES|
    ensures k <= i <= |ENTITIES| && (i < |ENTITIES| ==> Matches(t, i)) && forall j :: k <= j < i ==> !Matches(t, j)
    decreases |ENTITIES| - k
  {
    if k == |ENTITIES| || Matches(t, k) then k else WhichEntity(t, k + 1)
  }

  // ---------------------------------------------------------- decoding a value

  /** The flags of a StrPair: entities to be replaced, line ends to be normalised. */
  datatype Flags = Flags(entities: bool, newlines: bool)

  datatype Text = Broken | Text(chars: string)

  function Before(front: string, t: Text): Text { if t.Broken? then Broken else Text(front + t.chars) }

  /** One round of StrPair::GetStr at read position p and write position q of the text s:
      how much is read, and what is written.  For an ampersand that begins no entity both
      pointers move on without a write, so what stays in the buffer is what stood at q. */
  datatype Round = Stop | Round(read: nat, put: string, stale: bool)

  function OneRound(s: string, p: nat, q: nat, f: Flags): (r: Round)
    requires q <= p < |s| && CString(s)
    ensures r.Round? ==> 0 < r.read <= |s| - p && |r.put| <= r.read && (r.stale ==> r.read == 1 && r.put == [s[q]] && s[p] == '&')
  {
    if f.newlines && s[p] == CR then Round(if CharAt(s, p + 1) == LF then 2 else 1, [LF], false)
    else if f.newlines && s[p] == LF then Round(if CharAt(s, p + 1) == CR then 2 else 1, [LF], false)
    else if f.entities && s[p] == '&' then
      if CharAt(s, p + 1) == '#' then
        var r := CharacterRef(s[p..]);
        if r.Null? then Stop else Round(r.taken, r.bytes, false)
      else
        var k := WhichEntity(s[p..], 0);
        if k < |ENTITIES| then Round(|ENTITIES[k].pattern| + 2, [ENTITIES[k].value], false) else Round(1, [s[q]], true)
    else Round(1, [s[p]], false)
  }

  /** The five entities, wherever they stand. */
  lemma EntityTable(post: string)
    ensures WhichEntity("&quot;" + post, 0) == 0 && ENTITIES[0] == Entity("quot", '"')
    ensures WhichEntity("&amp;" + post, 0) == 1 && ENTITIES[1] == Entity("amp", '&')
    ensures WhichEntity("&apos;" + post, 0) == 2 && ENTITIES[2] == Entity("apos", '\'')
    ensures WhichEntity("&lt;" + post, 0) == 3 && ENTITIES[3] == Entity("lt", '<')
    ensures WhichEntity("&gt;" + post, 0) == 4 && ENTITIES[4] == Entity("gt", '>')
  {
    hide WhichEntity;
    EntitiesSpelled();
    EntityReads(0, post);
    EntityReads(1, post);
    EntityReads(2, post);
    EntityReads(3, post);
    EntityReads(4, post);
  }

  lemma EntitiesSpelled()
    ensures ['&'] + ENTITIES[0].pattern + [';'] == "&quot;" && ['&'] + ENTITIES[1].pattern + [';'] == "&amp;"
    ensures ['&'] + ENTITIES[2].pattern + [';'] == "&apos;" && ['&'] + ENTITIES[3].pattern + [';'] == "&lt;"
    ensures ['&'] + ENTITIES[4].pattern + [';'] == "&gt;"
  {}

  /** What is read for an entity, and what is written for it. */
  lemma EntityRounds(pre: string, post: string, q: nat, f: Flags)
    requires f.entities && q <= |pre| && CString(pre + post)
    ensures CString(pre + ("&quot;" + post)) && OneRound(pre + ("&quot;" + post), |pre|, q, f) == Round(6, "\"", false)
    ensures CString(pre + ("&amp;" + post)) && OneRound(pre + ("&amp;" + post), |pre|, q, f) == Round(5, "&", false)
    ensures CString(pre + ("&apos;" + post)) && OneRound(pre + ("&apos;" + post), |pre|, q, f) == Round(6, "'", false)
    ensures CString(pre + ("&lt;" + post)) && OneRound(pre + ("&lt;" + post), |pre|, q, f) == Round(4, "<", false)
    ensures CString(pre + ("&gt;" + post)) && OneRound(pre + ("&gt;" + post), |pre|, q, f) == Round(4, ">", false)
  {
    hide WhichEntity, CharacterRef;
    EntityTable(post);
    OneEntity(pre, "&quot;", post, q, f);
    OneEntity(pre, "&amp;", post, q, f);
    OneEntity(pre, "&apos;", post, q, f);
    OneEntity(pre, "&lt;", post, q, f);
    OneEntity(pre, "&gt;", post, q, f);
  }

  lemma OneEntity(pre: string, e: string, post: string, q: nat, f: Flags)
    requires f.entities && q <= |pre| && CString(pre + post) && NUL !in e && |e| > 2 && e[0] == '&' && e[1] != '#' && WhichEntity(e + post, 0) < |ENTITIES|
    ensures CString(pre + (e + post))
    ensures var k := WhichEntity(e + post, 0);
            OneRound(pre + (e + post), |pre|, q, f) == Round(|ENTITIES[k].pattern| + 2, [ENTITIES[k].value], false)
  {
    hide WhichEntity, CharacterRef;
    var s := pre + (e + post);
    forall i | 0 <= i < |s| ensures s[i] != NUL {
      if i < |pre| { assert s[i] == (pre + post)[i]; } else if i >= |pre| + |e| { assert s[i] == (pre + post)[i - |e|]; } else { assert s[i] == e[i - |pre|]; }
    }
    assert s[|pre|..] == e + post && s[|pre|] == '&' && s[|pre| + 1] == e[1];
  }

  /** What GetStr makes of the text from p on, writing at q. */
  function Actual(s: string, p: nat, q: nat, f: Flags): (t: Text)
    requires q <= p <= |s| && CString(s)
    ensures t.Text? ==> |t.chars| <= |s| - p
    decreases |s| - p
  {
    if p == |s| then Text([]) else
      var r := OneRound(s, p, q, f);
      if r.Stop? then Broken else Before(r.put, Actual(s, p + r.read, q + |r.put|, f))
  }

  /** What is meant: the same, but an ampersand that begins no entity stays an ampersand. */
  function Ideal(s: string, p: nat, f: Flags): Text
    requires p <= |s| && CString(s)
    decreases |s| - p
  {
    if p == |s| then Text([]) else
      var r := OneRound(s, p, p, f);
      if r.Stop? then Broken else Before(r.put, Ideal(s, p + r.read, f))
  }

  /** At every ampersand that begins no entity, an ampersand also stands at the write
      position. */
  ghost predicate StaleIsAmp(s: string, p: nat, q: nat, f: Flags)
    requires q <= p <= |s| && CString(s)
    decreases |s| - p
  {
    p < |s| ==>
      var r := OneRound(s, p, q, f);
      r.Round? ==> (r.stale ==> s[q] == '&') && StaleIsAmp(s, p + r.read, q + |r.put|, f)
  }

  /** The two readings of one round differ only in what a stale byte is. */
  lemma SameRound(s: string, p: nat, q: nat, f: Flags)
    requires q <= p < |s| && CString(s)
    ensures OneRound(s, p, q, f).Stop? <==> OneRound(s, p, p, f).Stop?
    ensures var a, b := OneRound(s, p, q, f), OneRound(s, p, p, f);
            a.Round? ==> a.read == b.read && a.stale == b.stale && |a.put| == |b.put| && (!a.stale ==> a.put == b.put) && (a.stale ==> b.put == ['&'])
  {}

  /** Decoding in place gives what is meant exactly when that holds. */
  lemma {:induction false} DecodesRightIff(s: string, p: nat, q: nat, f: Flags)
    requires q <= p <= |s| && CString(s)
    ensures Actual(s, p, q, f).Broken? <==> Ideal(s, p, f).Broken?
    ensures !Ideal(s, p, f).Broken? ==> (Actual(s, p, q, f) == Ideal(s, p, f) <==> StaleIsAmp(s, p, q, f))
    decreases |s| - p
  {
    hide OneRound;
    if p < |s| {
      SameRound(s, p, q, f);
      var a, b := OneRound(s, p, q, f), OneRound(s, p, p, f);
      if a.Round? {
        DecodesRightIff(s, p + a.read, q + |a.put|, f);
        BeforeEqual(a.put, Actual(s, p + a.read, q + |a.put|, f), b.put, Ideal(s, p + b.read, f));
      }
    }
  }

  /** What the text consists of from p on, whatever is written where: characters, line ends,
      entities, references, and stray ampersands; each with the size it decodes to. */
  datatype Token = Token(size: nat, stray: bool)

  ghost function Tokens(s: string, p: nat, f: Flags): seq<Token>
    requires p <= |s| && CString(s)
    decreases |s| - p
  {
    if p == |s| then [] else
      var r := OneRound(s, p, p, f);
      if r.Stop? then [] else [Token(|r.put|, r.stale)] + Tokens(s, p + r.read, f)
  }

  /** Where token k goes: behind what the ones before it decode to. */
  ghost function PlaceOf(ts: seq<Token>, k: nat): nat
    requires k <= |ts|
  {
    if k == 0 then 0 else ts[0].size + PlaceOf(ts[1..], k - 1)
  }

  ghost predicate Lands(s: string, t: Token, q: nat) { t.stray ==> q < |s| && s[q] == '&' }

  /** The text has an ampersand wherever a stray ampersand goes, from q on. */
  ghost predicate StraysLand(s: string, ts: seq<Token>, q: nat) {
    forall k :: 0 <= k < |ts| ==> Lands(s, ts[k], q + PlaceOf(ts, k))
  }

  lemma {:induction false} StaleIsAmpIff(s: string, p: nat, q: nat, f: Flags)
    requires q <= p <= |s| && CString(s)
    ensures StaleIsAmp(s, p, q, f) <==> StraysLand(s, Tokens(s, p, f), q)
    decreases |s| - p
  {
    hide OneRound, StraysLand;
    NoStrays(s, q);
    if p < |s| {
      SameRound(s, p, q, f);
      var r := OneRound(s, p, q, f);
      if r.Round? {
        StaleIsAmpIff(s, p + r.read, q + |r.put|, f);
        StraysShift(s, Token(|r.put|, r.stale), Tokens(s, p + r.read, f), q);
      }
    }
  }

  lemma NoStrays(s: string, q: nat)
    ensures StraysLand(s, [], q)
  {}

  lemma StraysShift(s: string, t: Token, ts: seq<Token>, q: nat)
    ensures StraysLand(s, [t] + ts, q) <==> Lands(s, t, q) && StraysLand(s, ts, q + t.size)
  {
    hide StraysLand, Lands;
    if StraysLand(s, [t] + ts, q) { ShiftOff(s, t, ts, q); }
    if Lands(s, t, q) && StraysLand(s, ts, q + t.size) { ShiftOn(s, t, ts, q); }
  }

  lemma ShiftOff(s: string, t: Token, ts: seq<Token>, q: nat)
    requires StraysLand(s, [t] + ts, q)
    ensures Lands(s, t, q) && StraysLand(s, ts, q + t.size)
  {
    hide Lands, PlaceOf;
    var all := [t] + ts;
    PlaceAfter(t, ts, 0);
    assert Lands(s, all[0], q + PlaceOf(all, 0));
    forall k: nat | k < |ts| ensures Lands(s, ts[k], q + t.size + PlaceOf(ts, k)) {
      PlaceAfter(t, ts, k);
      assert Lands(s, all[k + 1], q + PlaceOf(all, k + 1));
    }
  }

  lemma ShiftOn(s: string, t: Token, ts: seq<Token>, q: nat)
    requires Lands(s, t, q) && StraysLand(s, ts, q + t.size)
    ensures StraysLand(s, [t] + ts, q)
  {
    hide Lands, PlaceOf;
    var all := [t] + ts;
    forall k: nat | k < |all| ensures Lands(s, all[k], q + PlaceOf(all, k)) {
      if k == 0 {
        PlaceAfter(t, ts, 0);
      } else {
        PlaceAfter(t, ts, k - 1);
        assert Lands(s, ts[k - 1], q + t.size + PlaceOf(ts, k - 1));
      }
    }
  }

  lemma PlaceAfter(t: Token, ts: seq<Token>, k: nat)
    requires k <= |ts|
    ensures PlaceOf([t] + ts, 0) == 0 && PlaceOf([t] + ts, k + 1) == t.size + PlaceOf(ts, k)
  {
    assert ([t] + ts)[1..] == ts;
  }

  /** A whole text decodes in place to what is meant exactly when it has an ampersand wherever
      a stray one goes. */
  lemma TextDecodesIff(s: string, f: Flags)
    requires CString(s) && !Ideal(s, 0, f).Broken?
    ensures Actual(s, 0, 0, f) == Ideal(s, 0, f) <==> StraysLand(s, Tokens(s, 0, f), 0)
  {
    DecodesRightIff(s, 0, 0, f);
    StaleIsAmpIff(s, 0, 0, f);
  }

  lemma BeforeEqual(a: string, t: Text, b: string, u: Text)
    requires |a| == |b|
    ensures t.Text? && u.Text? ==> (Before(a, t) == Before(b, u) <==> a == b && t == u)
  {
    if t.Text? && u.Text? && a + t.chars == b + u.chars {
      assert a == (a + t.chars)[..|a|] && b == (b + u.chars)[..|b|];
      assert t.chars == (a + t.chars)[|a|..] && u.chars == (b + u.chars)[|b|..];
    }
  }

  /** Every ampersand begins an entity or a reference. */
  ghost predicate WellFormed(s: string, p: nat, f: Flags)
    requires p <= |s| && CString(s)
    decreases |s| - p
  {
    p < |s| ==>
      var r := OneRound(s, p, p, f);
      r.Round? && !r.stale && WellFormed(s, p + r.read, f)
  }

  lemma {:induction false} WellFormedDecodes(s: string, p: nat, q: nat, f: Flags)
    requires q <= p <= |s| && CString(s) && WellFormed(s, p, f)
    ensures StaleIsAmp(s, p, q, f) && Actual(s, p, q, f) == Ideal(s, p, f) && Actual(s, p, q, f).Text?
    decreases |s| - p
  {
    hide OneRound;
    if p < |s| {
      SameRound(s, p, q, f);
      var r := OneRound(s, p, q, f);
      WellFormedDecodes(s, p + r.read, q + |r.put|, f);
    }
  }

  /** Nothing in the text is written shorter than it is read: no entity or reference begins
      at an ampersand, and no two different line ends stand side by side. */
  ghost predicate KeepsLength(s: string, f: Flags)
    requires CString(s)
  {
    && (f.entities ==> forall i :: 0 <= i < |s| && s[i] == '&' ==> CharAt(s, i + 1) != '#' && WhichEntity(s[i..], 0) == |ENTITIES|)
    && (f.newlines ==> forall i :: 0 <= i < |s| && IsBreak(s[i]) ==> !IsBreak(CharAt(s, i + 1)) || CharAt(s, i + 1) == s[i])
  }

  /** In such a text every ampersand comes out as itself. */
  lemma {:induction false} KeptLengthDecodes(s: string, p: nat, f: Flags)
    requires p <= |s| && CString(s) && KeepsLength(s, f)
    ensures StaleIsAmp(s, p, p, f) && Actual(s, p, p, f) == Ideal(s, p, f) && Actual(s, p, p, f).Text?
    decreases |s| - p
  {
    if p == |s| {
      hide OneRound;
    } else {
      var r := OneRound(s, p, p, f);
      assert r.Round? && r.read == 1 && |r.put| == 1;
      KeptLengthDecodes(s, p + 1, f);
    }
  }

  const SAMPLE := "&amp;b&c"

  /** A later ampersand that begins no entity can come out as another character. */
  lemma StaleExample()
    ensures Actual(SAMPLE, 0, 0, Flags(true, true)) == Text("&bmc") && Ideal(SAMPLE, 0, Flags(true, true)) == Text("&b&c")
  {
    hide OneRound;
    var f := Flags(true, true);
    SampleRounds(f);
    assert Actual(SAMPLE, 8, 4, f) == Text([]) && Ideal(SAMPLE, 8, f) == Text([]);
    assert Actual(SAMPLE, 7, 3, f) == Text("c") && Ideal(SAMPLE, 7, f) == Text("c");
    assert Actual(SAMPLE, 6, 2, f) == Text("mc") && Ideal(SAMPLE, 6, f) == Text("&c");
    assert Actual(SAMPLE, 5, 1, f) == Text("bmc") && Ideal(SAMPLE, 5, f) == Text("b&c");
  }

  lemma SampleRounds(f: Flags)
    requires f == Flags(true, true)
    ensures CString(SAMPLE) && |SAMPLE| == 8
    ensures OneRound(SAMPLE, 0, 0, f) == Round(5, ['&'], false)
    ensures OneRound(SAMPLE, 5, 1, f) == OneRound(SAMPLE, 5, 5, f) == Round(1, ['b'], false)
    ensures OneRound(SAMPLE, 6, 2, f) == Round(1, ['m'], true) && OneRound(SAMPLE, 6, 6, f) == Round(1, ['&'], true)
    ensures OneRound(SAMPLE, 7, 3, f) == OneRound(SAMPLE, 7, 7, f) == Round(1, ['c'], false)
  {
    SampleAmp();
    SampleNone();
  }

  lemma SampleAmp()
    ensures WhichEntity(SAMPLE[0..], 0) == 1
  {
    assert SAMPLE[0..] == SAMPLE && SAMPLE[1..][..3] == "amp" && SAMPLE[1..][..4][0] != "quot"[0];
    assert Matches(SAMPLE, 1) && !Matches(SAMPLE, 0);
  }

  lemma SampleNone()
    ensures WhichEntity(SAMPLE[6..], 0) == 5
  {
    var t := SAMPLE[6..];
    assert |t| == 2 && |t[1..]| == 1;
    assert !Matches(t, 0) && !Matches(t, 1) && !Matches(t, 2) && !Matches(t, 3) && !Matches(t, 4);
    assert WhichEntity(t, 5) == 5;
    assert WhichEntity(t, 4) == 5;
    assert WhichEntity(t, 3) == 5;
  }

  // ----------------------------------------------------- StrPair::GetStr in place

  /** Decodes a[start..end] where it stands: the result starts at start, is no longer than
      the text was, and ends with a NUL; nothing before start or after end is touched. */
  method GetStr(a: array<char>, start: nat, end: nat, f: Flags) returns (ok: bool, len: nat)
    requires start <= end < a.Length && CString(a[start..end])
    modifies a
    ensures ok <==> Actual(old(a[start..end]), 0, 0, f).Text?
    ensures ok ==> len <= end - start && a[start..start + len] == Actual(old(a[start..end]), 0, 0, f).chars && a[start + len] == NUL
    ensures forall i :: 0 <= i < start || end < i < a.Length ==> a[i] == old(a[i])
  {
    hide OneRound, Actual;
    ghost var s := a[start..end];
    a[end] := NUL;
    var p, q := start, start;
    ghost var out: string := [];
    while p < end
      invariant start <= q <= p <= end && |out| == q - start
      invariant forall i :: 0 <= i < start || end < i < a.Length ==> a[i] == old(a[i])
      invariant a[end] == NUL && forall i :: q <= i < end ==> a[i] == s[i - start]
      invariant forall i :: start <= i < q ==> a[i] == out[i - start]
      invariant Actual(s, 0, 0, f) == Before(out, Actual(s, p - start, q - start, f))
      decreases end - p
    {
      ActualStep(s, p - start, q - start, f);
      var more, p', q' := StepInPlace(a, start, end, p, q, f, s);
      if !more { return false, 0; }
      ghost var put := OneRound(s, p - start, q - start, f).put;
      BeforeBefore(out, put, Actual(s, p' - start, q' - start, f));
      out := out + put;
      p, q := p', q';
    }
    ActualStep(s, end - start, q - start, f);
    a[q] := NUL;
    assert a[start..q] == out;
    return true, q - start;
  }

  lemma ActualStep(s: string, p: nat, q: nat, f: Flags)
    requires q <= p <= |s| && CString(s)
    ensures p == |s| ==> Actual(s, p, q, f) == Text([])
    ensures p < |s| && OneRound(s, p, q, f).Stop? ==> Actual(s, p, q, f) == Broken
    ensures p < |s| && OneRound(s, p, q, f).Round? ==>
              Actual(s, p, q, f) == Before(OneRound(s, p, q, f).put, Actual(s, p + OneRound(s, p, q, f).read, q + |OneRound(s, p, q, f).put|, f))
  {
    hide OneRound;
  }

  /** One round of its loop. */
  method StepInPlace(a: array<char>, start: nat, end: nat, p: nat, q: nat, f: Flags, ghost s: string) returns (more: bool, p': nat, q': nat)
    requires start <= q <= p < end < a.Length && a[end] == NUL && |s| == end - start && CString(s)
    requires forall i :: q <= i < end ==> a[i] == s[i - start]
    modifies a
    ensures more <==> OneRound(s, p - start, q - start, f).Round?
    ensures more ==> p' == p + OneRound(s, p - start, q - start, f).read && q' == q + |OneRound(s, p - start, q - start, f).put| <= p' <= end
    ensures more ==> forall i :: q <= i < q' ==> a[i] == OneRound(s, p - start, q - start, f).put[i - q]
    ensures more ==> forall i :: 0 <= i < q || q' <= i < a.Length ==> a[i] == old(a[i])
    ensures !more ==> forall i :: 0 <= i < a.Length ==> a[i] == old(a[i])
  {
    var c, next := a[p], a[p + 1];
    assert a[p..end] == s[p - start..];
    p', q' := p + 1, q + 1;
    if f.newlines && c == CR {
      p' := p + if next == LF then 2 else 1;
      a[q] := LF;
    } else if f.newlines && c == LF {
      p' := p + if next == CR then 2 else 1;
      a[q] := LF;
    } else if f.entities && c == '&' {
      if next == '#' {
        var r := GetCharacterRef(a[p..end]);
        if r.Null? { return false, p, q; }
        CopyBytes(a, q, r.bytes);
        p', q' := p + r.taken, q + |r.bytes|;
      } else {
        var k := WhichEntity(a[p..end], 0);
        if k < |ENTITIES| {
          a[q] := ENTITIES[k].value;
          p' := p + |ENTITIES[k].pattern| + 2;
        }
      }
    } else {
      a[q] := c;
    }
    more := true;
  }

  /** The loop over buf. */
  method CopyBytes(a: array<char>, q: nat, bytes: string)
    requires q + |bytes| <= a.Length
    modifies a
    ensures forall i :: q <= i < q + |bytes| ==> a[i] == bytes[i - q]
    ensures forall i :: 0 <= i < q || q + |bytes| <= i < a.Length ==> a[i] == old(a[i])
  {
    var i := 0;
    while i < |bytes|
      invariant 0 <= i <= |bytes| && forall k :: q <= k < q + i ==> a[k] == bytes[k - q]
      invariant forall k :: 0 <= k < q || q + i <= k < a.Length ==> a[k] == old(a[k])
    {
      a[q + i] := bytes[i];
      i := i + 1;
    }
  }

  lemma BeforeBefore(a: string, b: string, t: Text)
    ensures Before(a, Before(b, t)) == Before(a + b, t)
  {}

  // ------------------------------------------------------------- escaping

  /** The entity for a character, or the number of entities. */
  function EntityFor(c: char, k: nat): (i: nat)
    requires k <= |ENTITIES|
    ensures k <= i <= |ENTITIES| && (i < |ENTITIES| ==> ENTITIES[i].value == c)
    decreases |ENTITIES| - k
  {
    if k == |ENTITIES| || ENTITIES[k].value == c then k else EntityFor(c, k + 1)
  }

  /** XMLPrinter's _entityFlag and _restrictedEntityFlag. */
  predicate Flagged(c: char, restricted: bool) {
    c == '&' || c == '<' || c == '>' || (!restricted && (c == '"' || c == '\''))
  }

  function EscapeChar(c: char, restricted: bool): (s: string)
    ensures |s| > 0
  {
    if Flagged(c, restricted) then EntityString(c) else [c]
  }

  /** "&%s;" of the character's entity. */
  function EntityString(c: char): (s: string)
    ensures |s| > 0
  {
    if EntityFor(c, 0) < |ENTITIES| then ['&'] + ENTITIES[EntityFor(c, 0)].pattern + [';'] else [c]
  }

  function Escape(s: string, restricted: bool): string {
    if s == [] then [] else Escape(s[..|s| - 1], restricted) + EscapeChar(s[|s| - 1], restricted)
  }

  /** What is written for a character: quotes and apostrophes are entities in attribute values
      only. */
  lemma EscapeTable(c: char)
    ensures EscapeChar(c, false) == if c == '&' then "&amp;" else if c == '<' then "&lt;" else if c == '>' then "&gt;"
                                    else if c == '"' then "&quot;" else if c == '\'' then "&apos;" else [c]
    ensures EscapeChar(c, true) == if c == '&' then "&amp;" else if c == '<' then "&lt;" else if c == '>' then "&gt;" else [c]
  {
    assert ENTITIES[0] == Entity("quot", '"') && ENTITIES[1] == Entity("amp", '&') && ENTITIES[2] == Entity("apos", '\'')
        && ENTITIES[3] == Entity("lt", '<') && ENTITIES[4] == Entity("gt", '>');
    assert EntityFor('"', 0) == 0 && EntityFor('&', 0) == 1 && EntityFor('\'', 0) == 2;
    assert EntityFor('<', 2) == 3 && EntityFor('<', 0) == 3;
    assert EntityFor('>', 3) == 4 && EntityFor('>', 1) == 4 && EntityFor('>', 0) == 4;
  }

  /** What is written for a value, character by character. */
  lemma EscapeSpelled(s: string, c: char)
    ensures Escape("", false) == "" && Escape("", true) == ""
    ensures Escape(s + [c], false)
         == Escape(s, false) + if c == '&' then "&amp;" else if c == '<' then "&lt;" else if c == '>' then "&gt;"
                               else if c == '"' then "&quot;" else if c == '\'' then "&apos;" else [c]
    ensures Escape(s + [c], true)
         == Escape(s, true) + if c == '&' then "&amp;" else if c == '<' then "&lt;" else if c == '>' then "&gt;" else [c]
  {
    hide EscapeChar;
    EscapeTable(c);
    EscapeSnoc(s, c, false);
    EscapeSnoc(s, c, true);
  }

  lemma FlaggedHasEntity(c: char, restricted: bool)
    requires Flagged(c, restricted)
    ensures EntityFor(c, 0) < |ENTITIES|
  {
    assert ENTITIES[0].value == '"' && ENTITIES[1].value == '&' && ENTITIES[2].value == '\'' && ENTITIES[3].value == '<' && ENTITIES[4].value == '>';
  }

  /** XMLPrinter::PrintString: runs between entities are flushed as they stand. */
  method PrintString(text: string, restricted: bool, processEntities: bool) returns (out: string)
    ensures out == if processEntities then Escape(text, restricted) else text
  {
    hide EscapeChar, Escape, EntityString, EntityFor;
    out := [];
    var p, q := 0, 0;
    EscapeNothing(restricted);
    if processEntities {
      while q < |text|
        invariant 0 <= p <= q <= |text| && out + text[p..q] == Escape(text[..q], restricted)
      {
        assert text[..q + 1] == text[..q] + [text[q]];
        EscapeSnoc(text[..q], text[q], restricted);
        EntityText(text[q], restricted);
        if Flagged(text[q], restricted) {
          out := Flush(text, p, q, out);
          out := out + EntityString(text[q]);
          p := q + 1;
        } else {
          assert out + text[p..q + 1] == out + text[p..q] + [text[q]];
        }
        q := q + 1;
      }
      assert text[..q] == text && text[p..q] == text[p..];
    }
    if !processEntities || q - p > 0 {
      out := out + text[p..];
    }
  }

  lemma EntityText(c: char, restricted: bool)
    ensures EscapeChar(c, restricted) == if Flagged(c, restricted) then EntityString(c) else [c]
  {}

  lemma EscapeNothing(restricted: bool)
    ensures Escape([], restricted) == []
  {}

  /** The characters before an entity, one by one. */
  method Flush(text: string, from: nat, q: nat, before: string) returns (out: string)
    requires from <= q <= |text|
    ensures out == before + text[from..q]
  {
    out := before;
    var p := from;
    while p < q
      invariant from <= p <= q && out == before + text[from..p]
    {
      out := out + [text[p]];
      p := p + 1;
    }
  }

  // ------------------------------------------------ reading back what was written

  /** No text written for a value holds a quote, a bracket or NUL. */
  lemma {:induction false} EscapedIsSafe(v: string)
    requires CString(v)
    ensures CString(Escape(v, false))
    ensures '"' !in Escape(v, false) && '\'' !in Escape(v, false) && '<' !in Escape(v, false) && '>' !in Escape(v, false)
  {
    if v != [] {
      EscapedIsSafe(v[..|v| - 1]);
      CharIsSafe(v[|v| - 1]);
    }
  }

  lemma CharIsSafe(c: char)
    requires c != NUL
    ensures forall x :: x in EscapeChar(c, false) ==> x != NUL && x != '"' && x != '\'' && x != '<' && x != '>'
  {
    if Flagged(c, false) {
      FlaggedHasEntity(c, false);
      var k := EntityFor(c, 0);
      PatternsAreLetters(k);
    }
  }

  lemma PatternsAreLetters(k: nat)
    requires k < |ENTITIES|
    ensures forall x :: x in ENTITIES[k].pattern ==> 'a' <= x <= 'z'
    ensures 2 <= |ENTITIES[k].pattern| <= 4
  {
    assert ENTITIES[0].pattern == "quot" && ENTITIES[1].pattern == "amp" && ENTITIES[2].pattern == "apos"
        && ENTITIES[3].pattern == "lt" && ENTITIES[4].pattern == "gt";
  }

  /** An entity that was written is the one that is found. */
  lemma EntityReads(k: nat, post: string)
    requires k < |ENTITIES|
    ensures WhichEntity(['&'] + ENTITIES[k].pattern + [';'] + post, 0) == k
  {
    var t := ['&'] + ENTITIES[k].pattern + [';'] + post;
    PatternsAreLetters(k);
    assert t[1..] == ENTITIES[k].pattern + ([';'] + post);
    assert t[1..][..|ENTITIES[k].pattern|] == ENTITIES[k].pattern;
    assert t[|ENTITIES[k].pattern| + 1] == ';';
    assert Matches(t, k);
    var i := WhichEntity(t, 0);
    if i < k { OnlyOne(t, i, k); }
  }

  /** No two entities begin alike. */
  lemma OnlyOne(t: string, i: nat, k: nat)
    requires i < |ENTITIES| && k < |ENTITIES| && t != [] && Matches(t, i) && Matches(t, k)
    ensures i == k
  {
    var a, b := ENTITIES[i].pattern, ENTITIES[k].pattern;
    PatternsAreLetters(i);
    PatternsAreLetters(k);
    assert a[0] == t[1..][..|a|][0] == t[1] && a[1] == t[1..][..|a|][1] == t[2];
    assert b[0] == t[1..][..|b|][0] == t[1] && b[1] == t[1..][..|b|][1] == t[2];
    assert ENTITIES[0].pattern == "quot" && ENTITIES[1].pattern == "amp" && ENTITIES[2].pattern == "apos"
        && ENTITIES[3].pattern == "lt" && ENTITIES[4].pattern == "gt";
  }

  const VALUE: Flags := Flags(true, true)

  predicate IsBreak(c: char) { c == CR || c == LF }

  /** A value with each line end, of one character or of two different ones, as one LF. */
  function Norm(v: string): string {
    if v == [] then []
    else if IsBreak(v[0]) then [LF] + Norm(v[BreakSize(v)..])
    else [v[0]] + Norm(v[1..])
  }

  function BreakSize(v: string): (n: nat)
    requires v != []
    ensures 0 < n <= |v|
  {
    if |v| > 1 && IsBreak(v[1]) && v[1] != v[0] then 2 else 1
  }

  /** A pair of different line ends is one LF, any other line end is one by itself. */
  lemma NormTable(v: string, c: char)
    ensures Norm("") == "" && Norm("\r\n" + v) == "\n" + Norm(v) && Norm("\n\r" + v) == "\n" + Norm(v)
    ensures v == [] || v[0] != '\n' ==> Norm("\r" + v) == "\n" + Norm(v)
    ensures v == [] || v[0] != '\r' ==> Norm("\n" + v) == "\n" + Norm(v)
    ensures c != '\r' && c != '\n' ==> Norm([c] + v) == [c] + Norm(v)
  {
    assert ("\r\n" + v)[2..] == v && ("\n\r" + v)[2..] == v && ("\r" + v)[1..] == v && ("\n" + v)[1..] == v && ([c] + v)[1..] == v;
  }

  /** The same when a text is read, in any value: what is taken and what is written. */
  lemma BreakRounds(pre: string, post: string, q: nat, f: Flags)
    requires f.newlines && q <= |pre| && CString(pre) && CString(post)
    ensures CString(pre + ("\r\n" + post)) && OneRound(pre + ("\r\n" + post), |pre|, q, f) == Round(2, "\n", false)
    ensures CString(pre + ("\n\r" + post)) && OneRound(pre + ("\n\r" + post), |pre|, q, f) == Round(2, "\n", false)
    ensures CString(pre + ("\r" + post)) && CString(pre + ("\n" + post))
    ensures post == [] || post[0] != '\n' ==> OneRound(pre + ("\r" + post), |pre|, q, f) == Round(1, "\n", false)
    ensures post == [] || post[0] != '\r' ==> OneRound(pre + ("\n" + post), |pre|, q, f) == Round(1, "\n", false)
  {
    hide WhichEntity, CharacterRef;
  }

  lemma {:induction false} NormHasNoCR(v: string)
    ensures CR !in Norm(v)
    decreases |v|
  {
    hide BreakSize;
    if v != [] {
      NormHasNoCR(if IsBreak(v[0]) then v[BreakSize(v)..] else v[1..]);
    }
  }

  lemma {:induction false} NormSame(v: string)
    requires CR !in v
    ensures Norm(v) == v
  {
    if v != [] {
      assert v[0] in v && (|v| > 1 ==> v[1] in v);
      NormSame(v[1..]);
      assert v == [v[0]] + v[1..];
    }
  }

  lemma NormIsSameIff(v: string)
    ensures CR !in Norm(v) && (Norm(v) == v <==> CR !in v)
  {
    hide Norm;
    NormHasNoCR(v);
    if CR !in v { NormSame(v); }
  }

  /** One written character that is no line end takes one round to read. */
  lemma CharReads(pre: string, c: char, post: string, q: nat)
    requires !IsBreak(c)
    requires var s := pre + EscapeChar(c, false) + post; CString(s) && q <= |pre| < |s|
    ensures OneRound(pre + EscapeChar(c, false) + post, |pre|, q, VALUE) == Round(|EscapeChar(c, false)|, [c], false)
  {
    var s, e := pre + EscapeChar(c, false) + post, EscapeChar(c, false);
    assert s[|pre|..] == e + post && s[|pre|] == e[0];
    assert |pre| + 1 < |s| ==> s[|pre| + 1] in s;
    if Flagged(c, false) {
      FlaggedHasEntity(c, false);
      var k := EntityFor(c, 0);
      EntityReads(k, post);
      PatternsAreLetters(k);
      assert s[|pre| + 1] == e[1] == ENTITIES[k].pattern[0];
      assert ENTITIES[k].pattern[0] in ENTITIES[k].pattern;
    }
  }

  lemma EscapeSnoc(a: string, c: char, restricted: bool)
    ensures Escape(a + [c], restricted) == Escape(a, restricted) + EscapeChar(c, restricted)
  {
    hide EscapeChar;
    assert (a + [c])[..|a|] == a;
  }

  lemma {:induction false} EscapeConcat(a: string, b: string)
    ensures Escape(a + b, false) == Escape(a, false) + Escape(b, false)
  {
    hide EscapeChar;
    if b == [] {
      assert a + b == a;
    } else {
      var front, c := b[..|b| - 1], b[|b| - 1];
      EscapeConcat(a, front);
      EscapeSnoc(a + front, c, false);
      assert a + b == (a + front) + [c];
      Joined(Escape(a, false), Escape(front, false), EscapeChar(c, false));
    }
  }

  lemma Joined(x: string, y: string, z: string)
    ensures (x + y) + z == x + (y + z)
  {}

  /** The written text, cut around one character. */
  lemma EscapeAround(a: string, c: char, b: string)
    ensures Escape(a + ([c] + b), false) == Escape(a, false) + EscapeChar(c, false) + Escape(b, false)
    ensures Escape(a + [c], false) == Escape(a, false) + EscapeChar(c, false)
  {
    hide EscapeChar;
    EscapeConcat(a + [c], b);
    EscapeSnoc(a, c, false);
    assert a + ([c] + b) == (a + [c]) + b;
  }

  lemma BreakWritten(c: char)
    requires IsBreak(c)
    ensures EscapeChar(c, false) == [c]
  {}

  /** What is written for a value begins as the value does, or with an ampersand. */
  lemma EscapeFirst(v: string)
    requires v != []
    ensures Escape(v, false) != [] && (Escape(v, false)[0] == v[0] || (Escape(v, false)[0] == '&' && !IsBreak(v[0])))
  {
    hide Escape;
    assert v == [] + ([v[0]] + v[1..]);
    EscapeAround([], v[0], v[1..]);
    EscapeNothing(false);
    if Flagged(v[0], false) { FlaggedHasEntity(v[0], false); }
  }

  /** A written line end takes one round to read, whatever its size. */
  lemma BreakReads(pre: string, b: string, q: nat)
    requires b != [] && IsBreak(b[0]) && CString(pre + Escape(b, false)) && q <= |pre|
    ensures |pre| + BreakSize(b) <= |pre + Escape(b, false)|
    ensures OneRound(pre + Escape(b, false), |pre|, q, VALUE) == Round(BreakSize(b), [LF], false)
  {
    hide Escape, EscapeChar;
    var s, c, rest := pre + Escape(b, false), b[0], b[1..];
    assert b == [] + ([c] + rest);
    EscapeAround([], c, rest);
    EscapeNothing(false);
    BreakWritten(c);
    assert s == pre + ([c] + Escape(rest, false));
    assert s[|pre|] == c;
    if rest == [] {
      EscapeNothing(false);
      assert |s| == |pre| + 1;
    } else {
      EscapeFirst(rest);
      assert s[|pre| + 1] == Escape(rest, false)[0];
    }
  }

  lemma BreakCut(a: string, b: string)
    requires b != [] && IsBreak(b[0])
    ensures Escape(a + b[..BreakSize(b)], false) == Escape(a, false) + b[..BreakSize(b)]
  {
    hide Escape, EscapeChar;
    EscapeSnoc(a, b[0], false);
    BreakWritten(b[0]);
    if BreakSize(b) == 2 {
      EscapeSnoc(a + [b[0]], b[1], false);
      BreakWritten(b[1]);
      assert a + b[..2] == (a + [b[0]]) + [b[1]];
      assert Escape(a, false) + b[..2] == (Escape(a, false) + [b[0]]) + [b[1]];
    } else {
      assert b[..1] == [b[0]];
    }
  }

  /** After the part a, what was written for a + b decodes to b, line ends normalised. */
  lemma {:induction false} EscapedDecodes(a: string, b: string, q: nat)
    requires CString(a + b) && q <= |Escape(a, false)|
    ensures CString(Escape(a + b, false)) && |Escape(a, false)| <= |Escape(a + b, false)|
    ensures Actual(Escape(a + b, false), |Escape(a, false)|, q, VALUE) == Text(Norm(b))
    ensures WellFormed(Escape(a + b, false), |Escape(a, false)|, VALUE)
    decreases |b|
  {
    hide OneRound, EscapeChar, Escape, IsBreak;
    EscapedIsSafe(a + b);
    EscapeConcat(a, b);
    if b == [] {
      assert a + b == a;
    } else if IsBreak(b[0]) {
      var n := BreakSize(b);
      assert a + b == (a + b[..n]) + b[n..];
      BreakCut(a, b);
      EscapedDecodes(a + b[..n], b[n..], q + 1);
      BreakReads(Escape(a, false), b, q);
      BreakReads(Escape(a, false), b, |Escape(a, false)|);
      DecodeOne(Escape(a + b, false), |Escape(a, false)|, q, LF, Norm(b[n..]), n);
    } else {
      var c, rest := b[0], b[1..];
      assert b == [c] + rest && a + b == (a + [c]) + rest;
      EscapeAround(a, c, rest);
      EscapedDecodes(a + [c], rest, q + 1);
      CharReads(Escape(a, false), c, Escape(rest, false), q);
      CharReads(Escape(a, false), c, Escape(rest, false), |Escape(a, false)|);
      DecodeOne(Escape(a + b, false), |Escape(a, false)|, q, c, Norm(rest), |EscapeChar(c, false)|);
    }
  }

  lemma DecodeOne(s: string, p: nat, q: nat, c: char, rest: string, n: nat)
    requires q <= p < |s| && CString(s) && n > 0 && p + n <= |s|
    requires OneRound(s, p, q, VALUE) == Round(n, [c], false) && OneRound(s, p, p, VALUE) == Round(n, [c], false)
    requires Actual(s, p + n, q + 1, VALUE) == Text(rest) && WellFormed(s, p + n, VALUE)
    ensures Actual(s, p, q, VALUE) == Text([c] + rest) && WellFormed(s, p, VALUE)
  {
    hide OneRound;
  }

  /** An attribute value that is written and read comes back with its line ends normalised. */
  lemma ValueRoundTrip(v: string)
    requires CString(v)
    ensures CString(Escape(v, false)) && Actual(Escape(v, false), 0, 0, VALUE) == Text(Norm(v))
    ensures Ideal(Escape(v, false), 0, VALUE) == Text(Norm(v))
  {
    hide Escape, Norm, Actual, Ideal;
    EscapedIsSafe(v);
    EscapeNothing(false);
    assert [] + v == v;
    EscapedDecodes([], v, 0);
    WellFormedDecodes(Escape(v, false), 0, 0, VALUE);
  }

  /** So a value survives being written and read exactly when it holds no CR. */
  lemma ValueRoundTripIff(v: string)
    requires CString(v)
    ensures CString(Escape(v, false)) && (Actual(Escape(v, false), 0, 0, VALUE) == Text(v) <==> CR !in v)
  {
    hide Actual, Escape, Norm;
    ValueRoundTrip(v);
    NormIsSameIff(v);
  }
}
