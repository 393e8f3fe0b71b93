/** Documents of elements: the parser, the printer, and that the one undoes the other. */
module XmlDoc {
  import opened Common
  import opened Names
  import opened XmlText

  datatype Attr = Attr(name: string, value: string)

  datatype Elem = Elem(name: string, attrs: seq<Attr>, kids: seq<Elem>)

  // ------------------------------------------------------------- characters

  /** isspace, outside UTF-8 continuation bytes. */
  predicate IsSpace(c: char) { c == ' ' || '\t' <= c <= '\r' }

  predicate IsAlpha(c: char) { 'a' <= c <= 'z' || 'A' <= c <= 'Z' }

  predicate IsNameStart(c: char) { IsAlpha(c) || c as int >= 128 || c == ':' || c == '_' }

  predicate IsNameChar(c: char) { IsNameStart(c) || IsDigit(c) || c == '.' || c == '-' }

  predicate IsName(s: string) { s != [] && IsNameStart(s[0]) && forall i :: 0 <= i < |s| ==> IsNameChar(s[i]) }

  function SkipSpace(s: string): (t: string)
    ensures |t| <= |s| && (t != [] ==> !IsSpace(t[0]))
  {
    if s != [] && IsSpace(s[0]) then SkipSpace(s[1..]) else s
  }

  predicate AllSpace(s: string) { forall i :: 0 <= i < |s| ==> IsSpace(s[i]) }

  lemma {:induction false} SkipsAll(lead: string, s: string)
    requires AllSpace(lead) && (s == [] || !IsSpace(s[0]))
    ensures SkipSpace(lead + s) == s
  {
    if lead == [] { assert lead + s == s; } else { SkipsAll(lead[1..], s); assert (lead + s)[1..] == lead[1..] + s; }
  }

  /** White space, and the characters of names, by their codes. */
  lemma CharTable(c: char)
    ensures IsSpace(c) <==> c as int in {9, 10, 11, 12, 13, 32}
    ensures IsNameStart(c) <==> 65 <= c as int <= 90 || 97 <= c as int <= 122 || c as int in {58, 95} || c as int >= 128
    ensures IsNameChar(c) <==> 65 <= c as int <= 90 || 97 <= c as int <= 122 || 48 <= c as int <= 58 || c as int in {45, 46, 95} || c as int >= 128
  {}

  // ------------------------------------------------------------- the parser

  /** How long the name characters at the front go on. */
  function NameRun(s: string): (k: nat)
    ensures k <= |s| && (forall i :: 0 <= i < k ==> IsNameChar(s[i])) && (k < |s| ==> !IsNameChar(s[k]))
  {
    if s == [] || !IsNameChar(s[0]) then 0 else
      assert forall i :: 1 <= i < |s| ==> s[i] == s[1..][i - 1];
      1 + NameRun(s[1..])
  }

  datatype Named = NoName | Named(name: string, rest: string)

  /** StrPair::ParseName. */
  function ParseName(s: string): (r: Named)
    ensures r.Named? ==> |r.rest| < |s| && IsName(r.name)
  {
    if s == [] || !IsNameStart(s[0]) then NoName else Named(s[..NameRun(s)], s[NameRun(s)..])
  }

  datatype Attributed = NoAttr | Attributed(attr: Attr, rest: string)

  /** The value that GetStr makes of a raw attribute text. */
  function ValueOf(raw: string): string {
    if CString(raw) then match Actual(raw, 0, 0, VALUE) case Text(t) => t case Broken => [] else []
  }

  /** XMLAttribute::ParseDeep. */
  function ParseAttr(s: string): (r: Attributed)
    ensures r.Attributed? ==> |r.rest| < |s|
  {
    match ParseName(s)
    case NoName => NoAttr
    case Named(name, r1) =>
      var r2 := SkipSpace(r1);
      if r2 == [] || r2[0] != '=' then NoAttr else
        var r3 := SkipSpace(r2[1..]);
        if r3 == [] || (r3[0] != '"' && r3[0] != '\'') then NoAttr else
          var k := Find(r3[1..], r3[0]);
          if k == |r3[1..]| then NoAttr else Attributed(Attr(name, ValueOf(r3[1..][..k])), r3[1..][k + 1..])
  }

  datatype Tag = BadTag | Sealed(attrs: seq<Attr>, rest: string) | OpenTag(attrs: seq<Attr>, rest: string)

  predicate HasAttr(attrs: seq<Attr>, name: string) { exists i :: 0 <= i < |attrs| && attrs[i].name == name }

  /** XMLElement::ParseAttributes, with the attributes read so far. */
  function ParseAttributes(s: string, acc: seq<Attr>): (r: Tag)
    ensures !r.BadTag? ==> |r.rest| < |s|
    decreases |s|
  {
    var t := SkipSpace(s);
    if t == [] then BadTag
    else if IsNameStart(t[0]) then
      var a := ParseAttr(t);
      if a.NoAttr? || HasAttr(acc, a.attr.name) then BadTag else ParseAttributes(a.rest, acc + [a.attr])
    else if t[0] == '/' && |t| > 1 && t[1] == '>' then Sealed(acc, t[2..])
    else if t[0] == '>' then OpenTag(acc, t[1..])
    else BadTag
  }

  /** What XMLElement::ParseDeep leaves: nothing, a closing tag, or an element. */
  datatype Found = Failed | Closing(name: string, rest: string) | Child(elem: Elem, rest: string)

  /** What XMLNode::ParseDeep leaves: its children and the closing tag that ended them, or
      the end of the text, with an error or without. */
  datatype Level = Closed(kids: seq<Elem>, name: string, rest: string) | Ended(kids: seq<Elem>, clean: bool)

  /** XMLElement::ParseDeep after the opening bracket. */
  function ParseElement(s: string): (r: Found)
    ensures !r.Failed? ==> |r.rest| < |s|
    decreases |s|, 0
  {
    var t := SkipSpace(s);
    var closing := t != [] && t[0] == '/';
    match ParseName(if closing then t[1..] else t)
    case NoName => Failed
    case Named(name, r1) =>
      match ParseAttributes(r1, [])
      case BadTag => Failed
      case Sealed(attrs, r2) => Child(Elem(name, attrs, []), r2)
      case OpenTag(attrs, r2) =>
        if closing then Closing(name, r2)
        else if r2 == [] then Failed
        else match ParseLevel(r2)
          case Closed(kids, end, r3) => if end == name then Child(Elem(name, attrs, kids), r3) else Failed
          case Ended(_, _) => Failed
  }

  /** Identify: a bracket that begins no declaration, comment, CDATA or DTD. */
  predicate BeginsElement(t: string) { t != [] && t[0] == '<' && !(|t| > 1 && (t[1] == '?' || t[1] == '!')) }

  /** XMLNode::ParseDeep; a node that is no element ends it as an error here. */
  function ParseLevel(s: string): (r: Level)
    ensures r.Closed? ==> |r.rest| < |s|
    decreases |s|, 1
  {
    var t := SkipSpace(s);
    if t == [] then Ended([], true)
    else if !BeginsElement(t) then Ended([], false)
    else match ParseElement(t[1..])
      case Failed => Ended([], false)
      case Closing(name, rest) => Closed([], name, rest)
      case Child(e, rest) => With(e, ParseLevel(rest))
  }

  function With(e: Elem, l: Level): Level {
    match l
    case Closed(kids, name, rest) => Closed([e] + kids, name, rest)
    case Ended(kids, clean) => Ended([e] + kids, clean)
  }

  datatype Parsed = ParseError | Document(roots: seq<Elem>)

  /** A UTF-8 byte order mark. */
  const BOM: string := [0xEF as char, 0xBB as char, 0xBF as char]

  function SkipBom(s: string): string { if StartsWith(s, BOM) then s[3..] else s }

  /** XMLDocument::Parse: the document's own level; an empty text is an error. */
  function Parse(text: string): Parsed {
    if SkipBom(SkipSpace(text)) == [] then ParseError else Whole(ParseLevel(SkipBom(SkipSpace(text))))
  }

  /** What the document's own level gives: a stray end tag ends it as the end of the text does. */
  function Whole(l: Level): Parsed {
    match l
    case Closed(kids, _, _) => Document(kids)
    case Ended(kids, clean) => if clean then Document(kids) else ParseError
  }

  // ------------------------------------------------------------ the printer

  function Spaces(n: nat): (s: string)
    ensures AllSpace(s)
  {
    if n == 0 then [] else Spaces(n - 1) + "    "
  }

  /** What stands before an element: a line break, unless it is the first, and its indent. */
  function Lead(depth: nat, first: bool, compact: bool): (s: string)
    ensures AllSpace(s)
  {
    if compact then [] else (if first then [] else ['\n']) + Spaces(depth)
  }

  /** Four blanks a level. */
  lemma {:induction false} SpacesSpelled(n: nat)
    ensures |Spaces(n)| == 4 * n && forall i :: 0 <= i < 4 * n ==> Spaces(n)[i] == ' '
  {
    if n > 0 { SpacesSpelled(n - 1); }
  }

  /** Each element but the first begins on a line of its own, indented by its depth. */
  lemma LeadSpelled(depth: nat, first: bool)
    ensures Lead(depth, first, true) == ""
    ensures |Lead(depth, true, false)| == 4 * depth && forall i :: 0 <= i < 4 * depth ==> Lead(depth, true, false)[i] == ' '
    ensures Lead(depth, false, false) == "\n" + Lead(depth, true, false)
  {
    SpacesSpelled(depth);
    assert [] + Spaces(depth) == Spaces(depth);
  }

  function AttrText(attrs: seq<Attr>): string {
    if attrs == [] then [] else
      AttrText(attrs[..|attrs| - 1]) + OneAttr(attrs[|attrs| - 1])
  }

  function OneAttr(a: Attr): string { [' '] + a.name + ['=', '"'] + Escape(a.value, false) + ['"'] }

  /** An element after its opening bracket. */
  function Inner(e: Elem, depth: nat, compact: bool): string
    decreases e
  {
    e.name + AttrText(e.attrs) +
    if e.kids == [] then ['/', '>'] else
      ['>'] + KidsText(e.kids, depth + 1, compact) + Lead(depth, false, compact) + ['<', '/'] + e.name + ['>']
  }

  function KidsText(kids: seq<Elem>, depth: nat, compact: bool): string
    decreases kids
  {
    if kids == [] then [] else
      Lead(depth, false, compact) + ['<'] + Inner(kids[0], depth, compact) + KidsText(kids[1..], depth, compact)
  }

  /** The line break after an element of the document's own level. */
  function Trail(depth: nat, compact: bool): string { if depth == 0 && !compact then ['\n'] else [] }

  function RootsText(roots: seq<Elem>, first: bool, compact: bool): string
    decreases roots
  {
    if roots == [] then [] else
      Lead(0, first, compact) + ['<'] + Inner(roots[0], 0, compact) + Trail(0, compact) + RootsText(roots[1..], false, compact)
  }

  lemma KidsStep(kids: seq<Elem>, i: nat, depth: nat, compact: bool, done: string)
    requires i <= |kids|
    ensures i == |kids| ==> KidsText(kids[i..], depth, compact) == []
    ensures i < |kids| ==>
      done + KidsText(kids[i..], depth, compact)
      == done + (Lead(depth, false, compact) + ['<'] + Inner(kids[i], depth, compact)) + KidsText(kids[i + 1..], depth, compact)
  {
    hide Lead, Inner;
    if i < |kids| { assert kids[i..][1..] == kids[i + 1..]; }
  }

  lemma NoTrail(depth: nat, compact: bool)
    requires depth > 0
    ensures Trail(depth, compact) == []
  {}

  lemma RootsStep(roots: seq<Elem>, i: nat, compact: bool, done: string)
    requires i <= |roots|
    ensures i == |roots| ==> RootsText(roots[i..], i == 0, compact) == []
    ensures i < |roots| ==>
      done + RootsText(roots[i..], i == 0, compact)
      == done + (Lead(0, i == 0, compact) + ['<'] + Inner(roots[i], 0, compact) + Trail(0, compact)) + RootsText(roots[i + 1..], false, compact)
  {
    hide Lead, Inner, Trail;
    if i < |roots| { assert roots[i..][1..] == roots[i + 1..]; }
  }

  /** A document as it is written, on lines and compact. */
  lemma DocExample()
    ensures var roots := [Elem("a", [Attr("x", "1<2")], [Elem("b", [], [])])];
            && RootsText(roots, true, false) == "<a x=\"1&lt;2\">\n    <b/>\n</a>\n"
            && RootsText(roots, true, true) == "<a x=\"1&lt;2\"><b/></a>"
  {
    hide RootsText;
    PrettyExample(Elem("a", [Attr("x", "1<2")], [Elem("b", [], [])]));
    CompactExample(Elem("a", [Attr("x", "1<2")], [Elem("b", [], [])]));
  }

  lemma PrettyExample(e: Elem)
    requires e == Elem("a", [Attr("x", "1<2")], [Elem("b", [], [])])
    ensures RootsText([e], true, false) == "<a x=\"1&lt;2\">\n    <b/>\n</a>\n"
  {
    hide Inner, Lead, RootsText;
    LeadExample();
    OuterExample(e, false);
    OneRoot(e, false);
  }

  lemma CompactExample(e: Elem)
    requires e == Elem("a", [Attr("x", "1<2")], [Elem("b", [], [])])
    ensures RootsText([e], true, true) == "<a x=\"1&lt;2\"><b/></a>"
  {
    hide Inner, Lead, RootsText;
    LeadExample();
    OuterExample(e, true);
    OneRoot(e, true);
  }

  lemma OneRoot(e: Elem, compact: bool)
    ensures RootsText([e], true, compact) == Lead(0, true, compact) + "<" + Inner(e, 0, compact) + if compact then "" else "\n"
  {
    hide Inner, Lead;
    assert [e][1..] == [];
  }

  lemma OuterExample(e: Elem, compact: bool)
    requires e == Elem("a", [Attr("x", "1<2")], [Elem("b", [], [])])
    ensures Inner(e, 0, compact) == "a x=\"1&lt;2\">" + (Lead(1, false, compact) + "<b/>") + (Lead(0, false, compact) + "</a>")
  {
    hide Lead, AttrText, KidsText;
    TagExample();
    KidExample(compact);
  }

  lemma TagExample()
    ensures AttrText([Attr("x", "1<2")]) == " x=\"1&lt;2\""
  {
    hide Escape;
    ValueExample();
    assert [Attr("x", "1<2")][..0] == [];
  }

  lemma KidExample(compact: bool)
    ensures KidsText([Elem("b", [], [])], 1, compact) == Lead(1, false, compact) + "<b/>"
  {
    hide Lead;
    var b := Elem("b", [], []);
    assert AttrText([]) == "" && [b][1..] == [];
    assert Inner(b, 1, compact) == "b/>";
  }

  lemma ValueExample()
    ensures Escape("1<2", false) == "1&lt;2"
  {
    hide Escape;
    EscapeSpelled("", '1');
    EscapeSpelled("1", '<');
    EscapeSpelled("1<", '2');
    assert "" + ['1'] == "1" && "1" + ['<'] == "1<" && "1<" + ['2'] == "1<2";
  }

  lemma LeadExample()
    ensures Lead(0, true, false) == "" && Lead(0, false, false) == "\n" && Lead(1, false, false) == "\n    "
    ensures forall d, first :: Lead(d, first, true) == ""
  {
    assert Spaces(0) == "" && Spaces(1) == "    ";
  }

  // -------------------------------------------------------------- round trip

  ghost predicate GoodAttrs(attrs: seq<Attr>) {
    && (forall i :: 0 <= i < |attrs| ==> IsName(attrs[i].name) && CString(attrs[i].value))
    && (forall i, j :: 0 <= i < j < |attrs| ==> attrs[i].name != attrs[j].name)
  }

  /** Legal names, distinct attribute names in an element, values without NUL. */
  ghost predicate Printable(e: Elem)
    decreases e
  {
    IsName(e.name) && GoodAttrs(e.attrs) && forall i :: 0 <= i < |e.kids| ==> Printable(e.kids[i])
  }

  /** The tree with the line ends in all values normalised. */
  function NormElem(e: Elem): Elem
    decreases e, 0
  {
    Elem(e.name, NormAttrs(e.attrs), NormAll(e.kids))
  }

  function NormAll(kids: seq<Elem>): (r: seq<Elem>)
    ensures |r| == |kids|
    decreases kids
  {
    if kids == [] then [] else [NormElem(kids[0])] + NormAll(kids[1..])
  }

  function NormAttr(a: Attr): Attr { Attr(a.name, Norm(a.value)) }

  function NormAttrs(attrs: seq<Attr>): (r: seq<Attr>)
    ensures |r| == |attrs| && forall i :: 0 <= i < |attrs| ==> r[i] == NormAttr(attrs[i])
  {
    seq(|attrs|, i requires 0 <= i < |attrs| => NormAttr(attrs[i]))
  }

  /** No value in the tree holds a CR. */
  ghost predicate WithoutCR(e: Elem)
    decreases e
  {
    (forall i :: 0 <= i < |e.attrs| ==> CR !in e.attrs[i].value) && forall i :: 0 <= i < |e.kids| ==> WithoutCR(e.kids[i])
  }

  lemma AttrsSameIff(attrs: seq<Attr>)
    ensures NormAttrs(attrs) == attrs <==> forall i :: 0 <= i < |attrs| ==> CR !in attrs[i].value
  {
    hide Norm;
    forall i | 0 <= i < |attrs| ensures NormAttrs(attrs)[i] == attrs[i] <==> CR !in attrs[i].value {
      NormIsSameIff(attrs[i].value);
    }
  }

  lemma {:induction false} ElemSameIff(e: Elem)
    ensures NormElem(e) == e <==> WithoutCR(e)
    decreases e, 0
  {
    hide NormAttrs, NormAll;
    AttrsSameIff(e.attrs);
    AllSameIff(e.kids);
  }

  lemma {:induction false} AllSameIff(kids: seq<Elem>)
    ensures NormAll(kids) == kids <==> forall i :: 0 <= i < |kids| ==> WithoutCR(kids[i])
    decreases kids
  {
    hide NormElem, WithoutCR;
    if kids != [] {
      var first, rest := kids[0], kids[1..];
      ElemSameIff(first);
      AllSameIff(rest);
      assert kids == [first] + rest && NormAll(kids)[0] == NormElem(first) && NormAll(kids)[1..] == NormAll(rest);
      assert forall i :: 0 < i < |kids| ==> kids[i] == rest[i - 1];
    }
  }

  lemma NameReads(name: string, rest: string)
    requires IsName(name) && (rest == [] || !IsNameChar(rest[0]))
    ensures ParseName(name + rest) == Named(name, rest)
  {
    var s := name + rest;
    assert forall i :: 0 <= i < |name| ==> s[i] == name[i];
    assert rest != [] ==> s[|name|] == rest[0];
    assert NameRun(s) == |name|;
    assert s[..|name|] == name && s[|name|..] == rest;
  }

  lemma NameIsNoSpace(name: string)
    requires IsName(name)
    ensures !IsSpace(name[0]) && name[0] != '/' && name[0] != '?' && name[0] != '!' && name[0] != '>'
  {}

  /** A quoted text without quotes ends at the closing quote. */
  lemma QuotedReads(name: string, v: string, rest: string)
    requires IsName(name) && '"' !in v
    ensures ParseAttr(name + (['=', '"'] + (v + ['"'] + rest))) == Attributed(Attr(name, ValueOf(v)), rest)
  {
    hide ValueOf;
    var tail := v + ['"'] + rest;
    var r2 := ['=', '"'] + tail;
    NameReads(name, r2);
    SkipsNone(r2);
    assert r2[1..] == ['"'] + tail;
    SkipsNone(['"'] + tail);
    assert (['"'] + tail)[1..] == tail;
    FindFirst(v, rest, '"');
    assert tail[..|v|] == v && tail[|v| + 1..] == rest;
  }

  /** Either kind of quote, with white space around the equals sign. */
  lemma AttrForms(name: string, a: string, b: string, quote: char, v: string, rest: string)
    requires IsName(name) && AllSpace(a) && AllSpace(b) && (quote == '"' || quote == '\'') && quote !in v
    ensures ParseAttr(name + (a + (['='] + (b + ([quote] + (v + [quote] + rest)))))) == Attributed(Attr(name, ValueOf(v)), rest)
  {
    hide ValueOf, AllSpace;
    var tail := v + [quote] + rest;
    var r3 := [quote] + tail;
    var r2 := ['='] + (b + r3);
    NameThenSpace(name, a, r2);
    SkipsAll(a, r2);
    assert r2[1..] == b + r3;
    SkipsAll(b, r3);
    assert r3[1..] == tail;
    FindFirst(v, rest, quote);
    assert tail[..|v|] == v && tail[|v| + 1..] == rest;
  }

  lemma NameThenSpace(name: string, a: string, r2: string)
    requires IsName(name) && AllSpace(a) && r2 != [] && r2[0] == '='
    ensures ParseName(name + (a + r2)) == Named(name, a + r2)
  {
    assert !IsNameChar((a + r2)[0]) by { if a != [] { assert IsSpace(a[0]); } }
    NameReads(name, a + r2);
  }

  lemma SkipsNone(s: string)
    requires s != [] && !IsSpace(s[0])
    ensures SkipSpace(s) == s
  {}

  lemma ValueReads(v: string)
    requires CString(v)
    ensures ValueOf(Escape(v, false)) == Norm(v) && '"' !in Escape(v, false)
  {
    hide Escape, Actual, Norm;
    ValueRoundTrip(v);
    EscapedIsSafe(v);
  }

  /** A written attribute reads as itself, normalised. */
  lemma AttrReads(a: Attr, rest: string)
    requires IsName(a.name) && CString(a.value)
    ensures ParseAttr(a.name + (['=', '"'] + (Escape(a.value, false) + ['"'] + rest))) == Attributed(NormAttr(a), rest)
  {
    hide Escape, ParseAttr, ValueOf, Norm;
    ValueReads(a.value);
    QuotedReads(a.name, Escape(a.value, false), rest);
  }

  lemma NoAttrs()
    ensures AttrText([]) == "" && NormAttrs([]) == []
  {}

  lemma NormMore(acc: seq<Attr>, attrs: seq<Attr>)
    requires attrs != []
    ensures acc + NormAttrs(attrs) == (acc + [NormAttr(attrs[0])]) + NormAttrs(attrs[1..])
  {
    hide NormAttr;
    assert NormAttrs(attrs) == [NormAttr(attrs[0])] + NormAttrs(attrs[1..]);
  }

  lemma AttrTextSplit(attrs: seq<Attr>)
    requires attrs != []
    ensures AttrText(attrs) == OneAttr(attrs[0]) + AttrText(attrs[1..])
  {
    hide OneAttr;
    if |attrs| > 1 {
      AttrTextSplit(attrs[..|attrs| - 1]);
      assert attrs[..|attrs| - 1][1..] == attrs[1..][..|attrs| - 2];
    } else {
      assert attrs[..0] == [] && attrs[1..] == [];
    }
  }

  predicate EndsTag(tail: string) { tail != [] && (tail[0] == '>' || (tail[0] == '/' && |tail| > 1 && tail[1] == '>')) }

  lemma TagEnds(acc: seq<Attr>, tail: string)
    requires EndsTag(tail)
    ensures ParseAttributes(tail, acc) == if tail[0] == '>' then OpenTag(acc, tail[1..]) else Sealed(acc, tail[2..])
  {
    SkipsNone(tail);
  }

  /** The written attributes of an element, up to the end of its tag. */
  lemma {:induction false} AttrsRead(acc: seq<Attr>, attrs: seq<Attr>, tail: string)
    requires GoodAttrs(attrs) && (forall a :: a in attrs ==> !HasAttr(acc, a.name)) && EndsTag(tail)
    ensures ParseAttributes(AttrText(attrs) + tail, acc)
         == if tail[0] == '>' then OpenTag(acc + NormAttrs(attrs), tail[1..]) else Sealed(acc + NormAttrs(attrs), tail[2..])
    decreases |attrs|
  {
    hide ParseAttributes, AttrText, OneAttr, NormAttrs, Norm, NormAttr, HasAttr, GoodAttrs, IsName;
    if attrs == [] {
      NoAttrs();
      assert AttrText(attrs) + tail == tail && acc + NormAttrs(attrs) == acc;
      TagEnds(acc, tail);
    } else {
      var a, rest := attrs[0], AttrText(attrs[1..]) + tail;
      AttrTextSplit(attrs);
      Assoc(OneAttr(a), AttrText(attrs[1..]), tail);
      StillOther(acc, attrs);
      OneAttrReads(a, AttrText(attrs) + tail, rest, acc);
      NormMore(acc, attrs);
      AttrsRead(acc + [NormAttr(a)], attrs[1..], tail);
    }
  }

  lemma StillOther(acc: seq<Attr>, attrs: seq<Attr>)
    requires attrs != [] && GoodAttrs(attrs) && forall a :: a in attrs ==> !HasAttr(acc, a.name)
    ensures IsName(attrs[0].name) && CString(attrs[0].value) && !HasAttr(acc, attrs[0].name)
    ensures GoodAttrs(attrs[1..]) && forall a :: a in attrs[1..] ==> !HasAttr(acc + [NormAttr(attrs[0])], a.name)
  {
    forall a | a in attrs[1..] ensures !HasAttr(acc + [NormAttr(attrs[0])], a.name) {
      var j :| 0 <= j < |attrs| - 1 && attrs[1..][j] == a;
      assert attrs[j + 1] == a && attrs[0].name != attrs[j + 1].name;
      assert !HasAttr(acc, a.name);
    }
  }

  lemma OneAttrReads(a: Attr, s: string, rest: string, acc: seq<Attr>)
    requires IsName(a.name) && CString(a.value) && s == OneAttr(a) + rest && !HasAttr(acc, a.name)
    ensures ParseAttributes(s, acc) == ParseAttributes(rest, acc + [NormAttr(a)])
  {
    hide Escape, ParseAttr;
    var t := a.name + (['=', '"'] + (Escape(a.value, false) + ['"'] + rest));
    assert s == [' '] + t;
    assert t[0] == a.name[0];
    NameIsNoSpace(a.name);
    SkipsAll([' '], t);
    AttrReads(a, rest);
  }

  lemma {:induction false} SkipsLead(lead: string, s: string)
    requires AllSpace(lead)
    ensures SkipSpace(lead + s) == SkipSpace(s)
  {
    if lead == [] { assert lead + s == s; } else { SkipsLead(lead[1..], s); assert (lead + s)[1..] == lead[1..] + s; }
  }

  /** Space before a node is skipped. */
  lemma LevelSkips(lead: string, s: string)
    requires AllSpace(lead)
    ensures ParseLevel(lead + s) == ParseLevel(s)
  {
    hide SkipSpace, ParseElement;
    SkipsLead(lead, s);
    assert ParseLevel(s) == ParseLevel(lead + s);
  }

  /** What follows the attributes of a written element. */
  function AfterAttrs(e: Elem, depth: nat, compact: bool): (s: string)
    ensures s != [] && (s[0] == '>' || (s[0] == '/' && |s| > 1 && s[1] == '>'))
  {
    if e.kids == [] then ['/', '>'] else
      ['>'] + KidsText(e.kids, depth + 1, compact) + Lead(depth, false, compact) + ['<', '/'] + e.name + ['>']
  }

  /** The tag of a written element: its name and attributes. */
  lemma TagReads(name: string, attrs: seq<Attr>, after: string)
    requires IsName(name) && GoodAttrs(attrs)
    requires after != [] && (after[0] == '>' || (after[0] == '/' && |after| > 1 && after[1] == '>'))
    ensures var s := name + AttrText(attrs) + after;
            SkipSpace(s) == s && s != [] && s[0] == name[0] && ParseName(s) == Named(name, AttrText(attrs) + after)
    ensures ParseAttributes(AttrText(attrs) + after, [])
         == if after[0] == '>' then OpenTag(NormAttrs(attrs), after[1..]) else Sealed(NormAttrs(attrs), after[2..])
  {
    hide ParseAttributes, Escape;
    NameIsNoSpace(name);
    var rest := AttrText(attrs) + after;
    assert name + AttrText(attrs) + after == name + rest;
    assert !IsNameChar(rest[0]) by {
      if attrs != [] { AttrTextSplit(attrs); } else { assert rest == after; }
    }
    NameReads(name, rest);
    SkipsNone(name + rest);
    assert [] + NormAttrs(attrs) == NormAttrs(attrs);
    AttrsRead([], attrs, after);
  }

  /** A written element reads as itself, normalised, and its closing tag is its own. */
  lemma {:induction false} ElementReads(e: Elem, depth: nat, compact: bool, tail: string)
    requires Printable(e)
    ensures ParseElement(Inner(e, depth, compact) + tail) == Child(NormElem(e), tail)
    decreases e, 0
  {
    hide ParseAttributes, ParseName, SkipSpace, AttrText, Lead, KidsText, NormAttrs, GoodAttrs;
    var after := AfterAttrs(e, depth, compact) + tail;
    TagReads(e.name, e.attrs, after);
    NameIsNoSpace(e.name);
    var s := e.name + AttrText(e.attrs) + after;
    assert Inner(e, depth, compact) + tail == s by { InnerIs(e, depth, compact); }
    if e.kids == [] {
      assert after[2..] == tail;
    } else {
      var closer := Lead(depth, false, compact) + (['<', '/'] + e.name + ['>'] + tail);
      var inside := KidsText(e.kids, depth + 1, compact) + closer;
      AfterIs(e, depth, compact, tail);
      KidsRead(e.kids, depth + 1, compact, e.name, Lead(depth, false, compact), tail);
      OpenReads(NormElem(e), s, AttrText(e.attrs) + after, inside, tail);
    }
  }

  lemma InnerIs(e: Elem, depth: nat, compact: bool)
    ensures Inner(e, depth, compact) == e.name + AttrText(e.attrs) + AfterAttrs(e, depth, compact)
  {
    hide AttrText, KidsText, Lead;
  }

  lemma AfterIs(e: Elem, depth: nat, compact: bool, tail: string)
    requires e.kids != []
    ensures var after := AfterAttrs(e, depth, compact) + tail;
            after[0] == '>' && after[1..] == KidsText(e.kids, depth + 1, compact) + (Lead(depth, false, compact) + (['<', '/'] + e.name + ['>'] + tail))
  {
    hide KidsText, Lead;
    var k, l := KidsText(e.kids, depth + 1, compact), Lead(depth, false, compact);
    assert AfterAttrs(e, depth, compact) + tail == ['>'] + (k + (l + (['<', '/'] + e.name + ['>'] + tail)));
  }

  /** An element whose tag is open and whose level is closed by its own name. */
  lemma OpenReads(e: Elem, s: string, r1: string, inside: string, tail: string)
    requires s != [] && s[0] != '/' && SkipSpace(s) == s && ParseName(s) == Named(e.name, r1)
    requires ParseAttributes(r1, []) == OpenTag(e.attrs, inside) && ParseLevel(inside) == Closed(e.kids, e.name, tail)
    ensures ParseElement(s) == Child(e, tail)
  {
    hide ParseAttributes, ParseName, SkipSpace;
    EmptyLevel();
  }

  lemma ClosingReads(name: string, tail: string)
    requires IsName(name)
    ensures ParseElement(['/'] + name + ['>'] + tail) == Closing(name, tail)
  {
    hide ParseLevel;
    var s := ['/'] + name + ['>'] + tail;
    SkipsNone(s);
    var t := ['>'] + tail;
    assert s[1..] == name + t;
    NameReads(name, t);
    SkipsNone(t);
    assert t[1..] == tail;
  }

  /** An element without children is read to its own closing tag, and no other's. */
  lemma ClosedByName(name: string, end: string, tail: string)
    requires IsName(name) && IsName(end)
    ensures ParseElement(name + (['>'] + (['<', '/'] + end + ['>'] + tail))) == if end == name then Child(Elem(name, [], []), tail) else Failed
    ensures ParseElement(name + (['/', '>'] + tail)) == Child(Elem(name, [], []), tail)
    ensures ParseElement(name + ['>']) == Failed
  {
    hide ParseLevel, ParseAttributes;
    NoAttrs();
    var inside := ['<', '/'] + end + ['>'] + tail;
    ClosingLevel(end, tail);
    PlainTag(name, ['>'] + inside);
    PlainTag(name, ['/', '>'] + tail);
    PlainTag(name, ['>']);
    assert (['>'] + inside)[1..] == inside && (['/', '>'] + tail)[2..] == tail;
  }

  lemma PlainTag(name: string, after: string)
    requires IsName(name) && EndsTag(after)
    ensures SkipSpace(name + after) == name + after && (name + after)[0] != '/' && ParseName(name + after) == Named(name, after)
    ensures ParseAttributes(after, []) == if after[0] == '>' then OpenTag([], after[1..]) else Sealed([], after[2..])
  {
    NameIsNoSpace(name);
    NameReads(name, after);
    SkipsNone(name + after);
    TagEnds([], after);
  }

  /** No text at all, or text that is no element, is an error; white space and a byte order
      mark at the front are skipped. */
  lemma NoDocument(lead: string, s: string)
    requires AllSpace(lead) && s != [] && !IsSpace(s[0]) && s[0] != '<' && s[0] as int != 0xEF
    ensures Parse(lead) == ParseError && Parse(lead + BOM) == ParseError
    ensures Parse(lead + s) == ParseError && Parse(lead + (BOM + s)) == ParseError
  {
    hide ParseElement;
    SkipsAll(lead, []);
    assert lead + [] == lead;
    SkipsAll(lead, s);
    SkipsAll(lead, BOM);
    SkipsAll(lead, BOM + s);
    assert BOM[3..] == [] && (BOM + s)[..3] == BOM && (BOM + s)[3..] == s;
  }

  lemma BomSkipped(lead: string, s: string)
    requires AllSpace(lead) && s != [] && s[0] == '<'
    ensures Parse(lead + s) == Parse(lead + (BOM + s)) == Parse(s)
  {
    hide ParseLevel;
    SkipsAll(lead, s);
    SkipsNone(s);
    SkipsAll(lead, BOM + s);
    assert (BOM + s)[..3] == BOM && (BOM + s)[3..] == s;
  }

  /** Written children, up to the closing tag of their parent. */
  lemma {:induction false} KidsRead(kids: seq<Elem>, depth: nat, compact: bool, name: string, lead: string, tail: string)
    requires IsName(name) && AllSpace(lead) && forall i :: 0 <= i < |kids| ==> Printable(kids[i])
    ensures ParseLevel(KidsText(kids, depth, compact) + (lead + (['<', '/'] + name + ['>'] + tail))) == Closed(NormAll(kids), name, tail)
    decreases kids
  {
    hide ParseElement, ParseLevel, SkipSpace, Inner, Lead, Printable, NormElem, IsName, AllSpace;
    var closer := lead + (['<', '/'] + name + ['>'] + tail);
    if kids == [] {
      assert KidsText(kids, depth, compact) + closer == closer;
      LevelSkips(lead, ['<', '/'] + name + ['>'] + tail);
      ClosingLevel(name, tail);
    } else {
      var rest := KidsText(kids[1..], depth, compact) + closer;
      KidsRead(kids[1..], depth, compact, name, lead, tail);
      ElementReads(kids[0], depth, compact, rest);
      ChildLevel(kids[0], depth, compact, Lead(depth, false, compact), rest);
      assert KidsText(kids, depth, compact) + closer == Lead(depth, false, compact) + (['<'] + (Inner(kids[0], depth, compact) + rest));
    }
  }

  lemma ClosingLevel(name: string, tail: string)
    requires IsName(name)
    ensures ParseLevel(['<', '/'] + name + ['>'] + tail) == Closed([], name, tail)
  {
    hide ParseElement;
    var s := ['<', '/'] + name + ['>'] + tail;
    SkipsNone(s);
    assert s[1..] == ['/'] + name + ['>'] + tail;
    ClosingReads(name, tail);
  }

  /** An end tag on the document's own level ends it without an error, whatever follows. */
  lemma StrayEnd(name: string, tail: string)
    requires IsName(name)
    ensures Parse(['<', '/'] + name + ['>'] + tail) == Document([])
  {
    hide ParseLevel;
    SkipsNone(['<', '/'] + name + ['>'] + tail);
    ClosingLevel(name, tail);
  }

  /** One element at the front of a level. */
  lemma ChildLevel(e: Elem, depth: nat, compact: bool, lead: string, rest: string)
    requires Printable(e) && AllSpace(lead) && ParseElement(Inner(e, depth, compact) + rest) == Child(NormElem(e), rest)
    ensures ParseLevel(lead + (['<'] + (Inner(e, depth, compact) + rest))) == With(NormElem(e), ParseLevel(rest))
  {
    hide ParseElement, AttrText, KidsText, Lead, NormElem, GoodAttrs;
    var s := ['<'] + (Inner(e, depth, compact) + rest);
    LevelSkips(lead, s);
    SkipsNone(s);
    NameIsNoSpace(e.name);
    assert s[1..] == Inner(e, depth, compact) + rest && s[1] == e.name[0];
  }

  lemma NoRoots(first: bool, compact: bool)
    ensures RootsText([], first, compact) == []
  {}

  lemma Regroup(a: string, b: string, c: string, d: string, e: string)
    ensures a + b + c + d + e == a + (b + (c + (d + e)))
  {
    assert c + d + e == c + (d + e);
  }

  lemma RootsFirst(roots: seq<Elem>, first: bool, compact: bool)
    requires roots != []
    ensures RootsText(roots, first, compact)
         == Lead(0, first, compact) + (['<'] + (Inner(roots[0], 0, compact) + (Trail(0, compact) + RootsText(roots[1..], false, compact))))
  {
    hide Lead, Inner, Trail;
    Regroup(Lead(0, first, compact), ['<'], Inner(roots[0], 0, compact), Trail(0, compact), RootsText(roots[1..], false, compact));
  }

  lemma {:induction false} RootsRead(roots: seq<Elem>, first: bool, compact: bool)
    requires forall i :: 0 <= i < |roots| ==> Printable(roots[i])
    ensures ParseLevel(RootsText(roots, first, compact)) == Ended(NormAll(roots), true)
    decreases roots
  {
    hide ParseElement, ParseLevel, SkipSpace, Inner, Lead, RootsText, Printable, NormElem;
    if roots == [] {
      NoRoots(first, compact);
      EmptyLevel();
    } else {
      var more := RootsText(roots[1..], false, compact);
      var rest := Trail(0, compact) + more;
      RootsRead(roots[1..], false, compact);
      LevelSkips(Trail(0, compact), more);
      ElementReads(roots[0], 0, compact, rest);
      ChildLevel(roots[0], 0, compact, Lead(0, first, compact), rest);
      RootsFirst(roots, first, compact);
    }
  }

  lemma EmptyLevel()
    ensures ParseLevel([]) == Ended([], true)
  {}

  /** Parsing what was printed, compact or not, gives back the document with the line ends
      of its values normalised. */
  lemma ParseUndoesPrint(roots: seq<Elem>, compact: bool)
    requires roots != [] && forall i :: 0 <= i < |roots| ==> Printable(roots[i])
    ensures Parse(RootsText(roots, true, compact)) == Document(NormAll(roots))
  {
    hide ParseLevel, Inner, NormAll, RootsText, Lead, Trail, SkipSpace, SkipBom;
    RootsRead(roots, true, compact);
    RootsFirst(roots, true, compact);
    var s := ['<'] + (Inner(roots[0], 0, compact) + (Trail(0, compact) + RootsText(roots[1..], false, compact)));
    FirstLead(compact);
    assert "" + s == s;
    SkipsNone(s);
    NoBom(s);
  }

  lemma FirstLead(compact: bool)
    ensures Lead(0, true, compact) == ""
  {}

  lemma NoBom(s: string)
    requires s != [] && s[0] == '<'
    ensures SkipBom(s) == s
  {
    assert |s| >= 3 ==> s[..3][0] == '<';
  }

  /** So the document comes back exactly when no value in it holds a CR. */
  lemma ParseUndoesPrintIff(roots: seq<Elem>, compact: bool)
    requires roots != [] && forall i :: 0 <= i < |roots| ==> Printable(roots[i])
    ensures Parse(RootsText(roots, true, compact)) == Document(roots) <==> forall i :: 0 <= i < |roots| ==> WithoutCR(roots[i])
  {
    hide Parse, NormAll, WithoutCR;
    ParseUndoesPrint(roots, compact);
    AllSameIff(roots);
  }

  // ------------------------------------------------ whatever the parser accepts

  ghost predicate LegalAttrs(attrs: seq<Attr>) {
    && (forall i :: 0 <= i < |attrs| ==> IsName(attrs[i].name))
    && (forall i, j :: 0 <= i < j < |attrs| ==> attrs[i].name != attrs[j].name)
  }

  /** Legal names, and distinct attribute names in an element. */
  ghost predicate Legal(e: Elem)
    decreases e
  {
    IsName(e.name) && LegalAttrs(e.attrs) && forall i :: 0 <= i < |e.kids| ==> Legal(e.kids[i])
  }

  ghost predicate AllLegal(kids: seq<Elem>) { forall i :: 0 <= i < |kids| ==> Legal(kids[i]) }

  /** No value in the tree holds a NUL; only a reference to code 0 makes one. */
  ghost predicate WithoutNul(e: Elem)
    decreases e
  {
    (forall i :: 0 <= i < |e.attrs| ==> CString(e.attrs[i].value)) && forall i :: 0 <= i < |e.kids| ==> WithoutNul(e.kids[i])
  }

  lemma {:induction false} LegalIsPrintable(e: Elem)
    requires Legal(e) && WithoutNul(e)
    ensures Printable(e) && Printable(NormElem(e)) && WithoutCR(NormElem(e))
    decreases e, 0
  {
    hide Norm;
    forall i | 0 <= i < |e.attrs| ensures CString(Norm(e.attrs[i].value)) && CR !in Norm(e.attrs[i].value) {
      NormCString(e.attrs[i].value);
      NormIsSameIff(e.attrs[i].value);
    }
    AllArePrintable(e.kids);
  }

  lemma {:induction false} AllArePrintable(kids: seq<Elem>)
    requires forall i :: 0 <= i < |kids| ==> Legal(kids[i]) && WithoutNul(kids[i])
    ensures forall i :: 0 <= i < |kids| ==> Printable(kids[i])
    ensures forall i :: 0 <= i < |kids| ==> Printable(NormAll(kids)[i]) && WithoutCR(NormAll(kids)[i])
    decreases kids
  {
    hide Legal, WithoutNul, Printable, WithoutCR, NormElem;
    if kids != [] {
      var rest := kids[1..];
      LegalIsPrintable(kids[0]);
      AllArePrintable(rest);
      assert forall i :: 0 < i < |kids| ==> kids[i] == rest[i - 1] && NormAll(kids)[i] == NormAll(rest)[i - 1];
    }
  }

  lemma {:induction false} NormCString(v: string)
    requires CString(v)
    ensures CString(Norm(v))
    decreases |v|
  {
    hide BreakSize;
    if v != [] {
      NormCString(if IsBreak(v[0]) then v[BreakSize(v)..] else v[1..]);
    }
  }

  lemma {:induction false} ParsedAttrs(s: string, acc: seq<Attr>)
    requires LegalAttrs(acc)
    ensures !ParseAttributes(s, acc).BadTag? ==> LegalAttrs(ParseAttributes(s, acc).attrs)
    decreases |s|
  {
    hide ValueOf, ParseAttr, IsName;
    var t := SkipSpace(s);
    if t != [] && IsNameStart(t[0]) {
      var a := ParseAttr(t);
      ParsedAttr(t);
      if a.Attributed? && !HasAttr(acc, a.attr.name) {
        assert LegalAttrs(acc + [a.attr]);
        ParsedAttrs(a.rest, acc + [a.attr]);
      }
    }
  }

  lemma ParsedAttr(t: string)
    ensures ParseAttr(t).Attributed? ==> IsName(ParseAttr(t).attr.name)
  {
    hide ValueOf, IsName;
  }

  /** Whatever text is parsed, the elements have legal names and distinct attributes. */
  lemma {:induction false} ParsedElement(s: string)
    ensures ParseElement(s).Child? ==> Legal(ParseElement(s).elem)
    decreases |s|, 0
  {
    hide ParseAttributes, ParseLevel, IsName, LegalAttrs;
    var t := SkipSpace(s);
    var name := ParseName(if t != [] && t[0] == '/' then t[1..] else t);
    if name.Named? {
      NoAttrsLegal();
      ParsedAttrs(name.rest, []);
      var tag := ParseAttributes(name.rest, []);
      if tag.OpenTag? { ParsedLevel(tag.rest); }
    }
  }

  lemma NoAttrsLegal()
    ensures LegalAttrs([])
  {}

  lemma {:induction false} ParsedLevel(s: string)
    ensures AllLegal(ParseLevel(s).kids)
    decreases |s|, 1
  {
    hide ParseElement, Legal;
    var t := SkipSpace(s);
    if BeginsElement(t) {
      var found := ParseElement(t[1..]);
      ParsedElement(t[1..]);
      if found.Child? { ParsedLevel(found.rest); }
    }
  }

  /** A document that was parsed can be printed and parsed: the second parse normalises line
      ends that references put into values, and from then on nothing changes. */
  lemma ReparseSettles(text: string, compact: bool)
    requires Parse(text).Document? && Parse(text).roots != []
    requires forall i :: 0 <= i < |Parse(text).roots| ==> WithoutNul(Parse(text).roots[i])
    ensures Parse(RootsText(Parse(text).roots, true, compact)) == Document(NormAll(Parse(text).roots))
    ensures Parse(RootsText(NormAll(Parse(text).roots), true, compact)) == Document(NormAll(Parse(text).roots))
  {
    hide ParseLevel, RootsText, NormAll, Printable, WithoutCR, WithoutNul, Legal;
    var roots := Parse(text).roots;
    ParsedLevel(SkipBom(SkipSpace(text)));
    assert AllLegal(roots);
    AllArePrintable(roots);
    var again := NormAll(roots);
    ParseUndoesPrint(roots, compact);
    ParseUndoesPrintIff(again, compact);
  }

  // ------------------------------------------------------ the parser's loops

  /** XMLUtil::SkipWhiteSpace. */
  method SkipWhiteSpace(s: string) returns (t: string)
    ensures t == SkipSpace(s)
  {
    t := s;
    while t != [] && IsSpace(t[0])
      invariant SkipSpace(t) == SkipSpace(s)
      decreases |t|
    {
      t := t[1..];
    }
  }

  /** The name loop: the first character by one rule, the others by another. */
  method ReadName(s: string) returns (r: Named)
    ensures r == ParseName(s)
  {
    if s == [] { return NoName; }
    var p := 0;
    while p < |s| && (if p == 0 then IsNameStart(s[p]) else IsNameChar(s[p]))
      invariant 0 <= p <= |s| && (p > 0 ==> IsNameStart(s[0])) && forall i :: 0 <= i < p ==> IsNameChar(s[i])
    {
      p := p + 1;
    }
    if p > 0 { return Named(s[..p], s[p..]); }
    return NoName;
  }

  /** StrPair::ParseText: the length of the text before the first end tag, and what follows
      that; or none. */
  method ReadText(s: string, endTag: string) returns (found: bool, len: nat, rest: string)
    requires endTag != []
    ensures len <= |s| && forall i :: 0 <= i < len ==> !StartsWith(s[i..], endTag)
    ensures if found then s[len..] == endTag + rest else len == |s|
    ensures |endTag| == 1 ==> len == Find(s, endTag[0]) && (found <==> len < |s|)
  {
    len, rest := 0, [];
    while len < |s|
      invariant 0 <= len <= |s| && forall i :: 0 <= i < len ==> !StartsWith(s[i..], endTag)
      invariant |endTag| == 1 ==> forall i :: 0 <= i < len ==> s[i] != endTag[0]
    {
      if s[len] == endTag[0] && StartsWith(s[len..], endTag) {
        rest := s[len + |endTag|..];
        assert s[len..][..|endTag|] == endTag && s[len..][|endTag|..] == rest;
        return true, len, rest;
      }
      assert |endTag| == 1 && s[len] == endTag[0] ==> s[len..][..1] == endTag;
      len := len + 1;
    }
    found := false;
  }

  method ReadAttr(s: string) returns (r: Attributed)
    ensures r == ParseAttr(s)
  {
    var n := ReadName(s);
    if n.NoName? { return NoAttr; }
    var p := SkipWhiteSpace(n.rest);
    if p == [] || p[0] != '=' { return NoAttr; }
    p := SkipWhiteSpace(p[1..]);
    if p == [] || (p[0] != '"' && p[0] != '\'') { return NoAttr; }
    var endTag := [p[0]];
    p := p[1..];
    var found, len, rest := ReadText(p, endTag);
    if !found { return NoAttr; }
    assert rest == (endTag + rest)[1..] == p[len..][1..] == p[len + 1..];
    return Attributed(Attr(n.name, ValueOf(p[..len])), rest);
  }

  /** XMLElement::FindAttribute. */
  method FindAttribute(attrs: seq<Attr>, name: string) returns (found: bool)
    ensures found <==> HasAttr(attrs, name)
  {
    var i := 0;
    while i < |attrs|
      invariant 0 <= i <= |attrs| && forall j :: 0 <= j < i ==> attrs[j].name != name
    {
      if attrs[i].name == name { return true; }
      i := i + 1;
    }
    return false;
  }

  /** The loop of ParseAttributes. */
  method ReadAttributes(s: string) returns (r: Tag)
    ensures r == ParseAttributes(s, [])
  {
    hide ParseAttr;
    var p := s;
    var attrs: seq<Attr> := [];
    while true
      invariant ParseAttributes(p, attrs) == ParseAttributes(s, [])
      decreases |p|
    {
      var t := SkipWhiteSpace(p);
      if t == [] { return BadTag; }
      if IsNameStart(t[0]) {
        var a := ReadAttr(t);
        if a.NoAttr? { return BadTag; }
        var known := FindAttribute(attrs, a.attr.name);
        if known { return BadTag; }
        attrs := attrs + [a.attr];
        p := a.rest;
      } else if t[0] == '/' && |t| > 1 && t[1] == '>' {
        return Sealed(attrs, t[2..]);
      } else if t[0] == '>' {
        return OpenTag(attrs, t[1..]);
      } else {
        return BadTag;
      }
    }
  }

  function WithAll(kids: seq<Elem>, l: Level): Level {
    match l
    case Closed(more, name, rest) => Closed(kids + more, name, rest)
    case Ended(more, clean) => Ended(kids + more, clean)
  }

  method ReadElement(s: string) returns (r: Found)
    ensures r == ParseElement(s)
    decreases |s|, 0
  {
    hide ParseAttributes;
    var t := SkipWhiteSpace(s);
    var closing := false;
    if t != [] && t[0] == '/' {
      closing := true;
      t := t[1..];
    }
    var n := ReadName(t);
    if n.NoName? { return Failed; }
    var tag := ReadAttributes(n.rest);
    match tag
    case BadTag => return Failed;
    case Sealed(attrs, rest) => return Child(Elem(n.name, attrs, []), rest);
    case OpenTag(attrs, rest) =>
      if closing { return Closing(n.name, rest); }
      if rest == [] { return Failed; }
      var inside := ReadLevel(rest);
      if inside.Ended? || inside.name != n.name { return Failed; }
      return Child(Elem(n.name, attrs, inside.kids), inside.rest);
  }

  /** The loop of XMLNode::ParseDeep. */
  method ReadLevel(s: string) returns (r: Level)
    ensures r == ParseLevel(s)
    decreases |s|, 1
  {
    hide ParseElement;
    var p := s;
    var kids: seq<Elem> := [];
    while true
      invariant |p| <= |s| && ParseLevel(s) == WithAll(kids, ParseLevel(p))
      decreases |p|
    {
      var t := SkipWhiteSpace(p);
      if t == [] { return Ended(kids, true); }
      if !BeginsElement(t) { return Ended(kids, false); }
      var found := ReadElement(t[1..]);
      match found
      case Failed => return Ended(kids, false);
      case Closing(name, rest) => return Closed(kids, name, rest);
      case Child(e, rest) =>
        WithMore(kids, e, ParseLevel(rest));
        kids := kids + [e];
        p := rest;
    }
  }

  /** XMLDocument::Parse. */
  method ReadDocument(text: string) returns (r: Parsed)
    ensures r == Parse(text)
  {
    hide ParseLevel;
    var p := SkipWhiteSpace(text);
    if |p| >= 3 && p[0] as int == 0xEF && p[1] as int == 0xBB && p[2] as int == 0xBF {
      assert p[..3] == BOM;
      p := p[3..];
    }
    if p == [] { return ParseError; }
    var level := ReadLevel(p);
    match level
    case Closed(kids, _, _) => return Document(kids);
    case Ended(kids, clean) => if clean { return Document(kids); } else { return ParseError; }
  }

  lemma WithMore(kids: seq<Elem>, e: Elem, l: Level)
    ensures WithAll(kids, With(e, l)) == WithAll(kids + [e], l)
  {
    match l
    case Closed(more, _, _) => assert kids + ([e] + more) == (kids + [e]) + more;
    case Ended(more, _) => assert kids + ([e] + more) == (kids + [e]) + more;
  }

  // --------------------------------------------------------- the printer's state

  /** An element's end: sealed at once, or its closing tag on a line of its own. */
  function EndText(name: string, empty: bool, depth: nat, compact: bool): string {
    if empty then ['/', '>'] else Lead(depth, false, compact) + (['<', '/'] + name + ['>'])
  }

  /** What stands between an element's attributes and its end. */
  function Between(kids: seq<Elem>, depth: nat, compact: bool): string {
    if kids == [] then [] else ['>'] + KidsText(kids, depth, compact)
  }

  lemma InnerParts(e: Elem, depth: nat, compact: bool)
    ensures Inner(e, depth, compact) == e.name + AttrText(e.attrs) + (Between(e.kids, depth + 1, compact) + EndText(e.name, e.kids == [], depth, compact))
  {
    hide AttrText, KidsText, Lead;
    var k, l := KidsText(e.kids, depth + 1, compact), Lead(depth, false, compact);
    assert ['>'] + k + l + ['<', '/'] + e.name + ['>'] == (['>'] + k) + (l + (['<', '/'] + e.name + ['>']));
    assert [] + ['/', '>'] == ['/', '>'];
  }

  lemma Regrouped(a: string, b: string, c: string)
    ensures (a + b) + c == a + (b + c)
  {}

  lemma Assembled(was: string, seal: string, lead: string, open: string, tag: string, between: string, end: string, trail: string)
    ensures was + seal + lead + open + tag + between + end + trail
         == was + seal + (lead + open + (tag + (between + end)) + trail)
  {}

  class XMLPrinter {
    const compactMode: bool
    var buffer: string
    var stack: seq<string>
    var depth: nat
    var elementJustOpened: bool
    var firstElement: bool

    /** In a document of elements no text is ever open: _textDepth stays -1. */
    constructor (compact: bool)
      ensures buffer == [] && stack == [] && depth == 0 && !elementJustOpened && firstElement && compactMode == compact
    {
      compactMode := compact;
      buffer, stack, depth, elementJustOpened, firstElement := [], [], 0, false, true;
    }

    method PrintSpace(n: nat)
      modifies this`buffer
      ensures buffer == old(buffer) + Spaces(n)
    {
      var i := 0;
      while i < n
        invariant 0 <= i <= n && buffer == old(buffer) + Spaces(i)
      {
        buffer := buffer + "    ";
        i := i + 1;
      }
    }

    method SealElement()
      modifies this`buffer, this`elementJustOpened
      ensures buffer == old(buffer) + ['>'] && !elementJustOpened
    {
      elementJustOpened := false;
      buffer := buffer + ['>'];
    }

    method OpenElement(name: string)
      modifies this
      ensures buffer == old(buffer) + (if old(elementJustOpened) then ['>'] else []) + Lead(old(depth), old(firstElement), compactMode) + ['<'] + name
      ensures stack == old(stack) + [name] && depth == old(depth) + 1 && elementJustOpened && !firstElement
    {
      hide Spaces;
      if elementJustOpened { SealElement(); }
      stack := stack + [name];
      ghost var was := buffer;
      if !firstElement && !compactMode { buffer := buffer + ['\n']; }
      if !compactMode { PrintSpace(depth); }
      assert buffer == was + Lead(depth, firstElement, compactMode);
      buffer := buffer + (['<'] + name);
      elementJustOpened := true;
      firstElement := false;
      depth := depth + 1;
    }

    method PushAttribute(a: Attr)
      requires elementJustOpened
      modifies this`buffer
      ensures buffer == old(buffer) + OneAttr(a)
    {
      var v := PrintString(a.value, false, true);
      buffer := buffer + ([' '] + a.name + ['=', '"']);
      buffer := buffer + v;
      buffer := buffer + ['"'];
    }

    method CloseElement()
      requires depth > 0 && stack != []
      modifies this
      ensures stack == old(stack)[..|old(stack)| - 1] && depth == old(depth) - 1 && !elementJustOpened && firstElement == old(firstElement)
      ensures buffer == old(buffer) + EndText(old(stack)[|old(stack)| - 1], old(elementJustOpened), depth, compactMode) + Trail(depth, compactMode)
    {
      depth := depth - 1;
      var name := stack[|stack| - 1];
      stack := stack[..|stack| - 1];
      if elementJustOpened {
        buffer := buffer + ['/', '>'];
      } else {
        if !compactMode {
          buffer := buffer + ['\n'];
          PrintSpace(depth);
        }
        assert buffer == old(buffer) + Lead(depth, false, compactMode);
        Regrouped(old(buffer), Lead(depth, false, compactMode), ['<', '/'] + name + ['>']);
        buffer := buffer + (['<', '/'] + name + ['>']);
      }
      assert buffer == old(buffer) + EndText(name, elementJustOpened, depth, compactMode);
      if depth == 0 && !compactMode { buffer := buffer + ['\n']; }
      elementJustOpened := false;
    }

    /** VisitEnter of an element: its tag, up to its attributes. */
    method VisitEnter(e: Elem)
      modifies this
      ensures buffer == old(buffer) + (if old(elementJustOpened) then ['>'] else [])
                        + Lead(old(depth), old(firstElement), compactMode) + ['<'] + (e.name + AttrText(e.attrs))
      ensures stack == old(stack) + [e.name] && depth == old(depth) + 1 && elementJustOpened && !firstElement
    {
      hide OneAttr, Lead;
      OpenElement(e.name);
      ghost var before := buffer;
      var i := 0;
      while i < |e.attrs|
        invariant 0 <= i <= |e.attrs| && buffer == before + AttrText(e.attrs[..i])
        invariant stack == old(stack) + [e.name] && depth == old(depth) + 1 && elementJustOpened && !firstElement
      {
        PushAttribute(e.attrs[i]);
        assert e.attrs[..i + 1][..i] == e.attrs[..i];
        i := i + 1;
      }
      assert e.attrs[..i] == e.attrs;
    }

    /** Accept: the element, its children, its end. */
    method Accept(e: Elem)
      modifies this
      ensures buffer == old(buffer) + (if old(elementJustOpened) then ['>'] else [])
                        + (Lead(old(depth), old(firstElement), compactMode) + ['<'] + Inner(e, old(depth), compactMode) + Trail(old(depth), compactMode))
      ensures stack == old(stack) && depth == old(depth) && !elementJustOpened && !firstElement
      decreases e, 1
    {
      hide AttrText, Lead, KidsText, EndText, Between, Inner, Trail;
      VisitEnter(e);
      AcceptKids(e.kids);
      CloseElement();
      InnerParts(e, depth, compactMode);
      Assembled(old(buffer), if old(elementJustOpened) then ['>'] else [], Lead(old(depth), old(firstElement), compactMode), ['<'],
                e.name + AttrText(e.attrs), Between(e.kids, old(depth) + 1, compactMode), EndText(e.name, e.kids == [], old(depth), compactMode),
                Trail(old(depth), compactMode));
    }

    method AcceptKids(kids: seq<Elem>)
      requires depth > 0 && elementJustOpened && !firstElement
      modifies this
      ensures buffer == old(buffer) + Between(kids, old(depth), compactMode)
      ensures stack == old(stack) && depth == old(depth) && (elementJustOpened <==> kids == []) && !firstElement
      decreases kids, 0
    {
      hide Inner, Lead, KidsText, Spaces, Trail;
      NoTrail(depth, compactMode);
      KidsStep(kids, |kids|, depth, compactMode, []);
      var i := 0;
      ghost var done: string := [];
      while i < |kids|
        invariant 0 <= i <= |kids|
        invariant stack == old(stack) && depth == old(depth) && (elementJustOpened <==> i == 0) && !firstElement
        invariant buffer == old(buffer) + (if i == 0 then [] else ['>']) + done
        invariant KidsText(kids, depth, compactMode) == done + KidsText(kids[i..], depth, compactMode)
      {
        ghost var was, mark := buffer, if elementJustOpened then ['>'] else [];
        Accept(kids[i]);
        ghost var one := Lead(depth, false, compactMode) + ['<'] + Inner(kids[i], depth, compactMode);
        KidsStep(kids, i, depth, compactMode, done);
        assert one + Trail(depth, compactMode) == one && buffer == was + mark + one;
        done := done + one;
        i := i + 1;
      }
    }

    /** XMLDocument::Print. */
    method PrintDocument(roots: seq<Elem>)
      requires buffer == [] && stack == [] && depth == 0 && !elementJustOpened && firstElement
      modifies this
      ensures buffer == RootsText(roots, true, compactMode)
    {
      hide Inner, Lead, RootsText;
      RootsStep(roots, |roots|, compactMode, []);
      var i := 0;
      while i < |roots|
        invariant 0 <= i <= |roots| && stack == [] && depth == 0 && !elementJustOpened && (firstElement <==> i == 0)
        invariant RootsText(roots, true, compactMode) == buffer + RootsText(roots[i..], i == 0, compactMode)
      {
        ghost var was := buffer;
        Accept(roots[i]);
        RootsStep(roots, i, compactMode, was);
        i := i + 1;
      }
    }
  }

  /** Printing a document and parsing the text, by the code. */
  method PrintAndParse(roots: seq<Elem>, compact: bool) returns (r: Parsed)
    requires roots != [] && forall i :: 0 <= i < |roots| ==> Printable(roots[i])
    ensures r == Document(NormAll(roots))
  {
    var printer := new XMLPrinter(compact);
    printer.PrintDocument(roots);
    ParseUndoesPrint(roots, compact);
    r := ReadDocument(printer.buffer);
  }
}
