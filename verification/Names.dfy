/** Names such as plat.cab1.board0.node3: writing and reading them, and what the scripts
    compute from their text: the parts of a name, the position of what it names among all
    of its type, the number of its children, and whether it names anything at all. */
module Names {
  import opened Common
  import opened Topology

  // ---------------------------------------------------------------- numbers

  predicate IsDigit(c: char) { '0' <= c <= '9' }

  predicate AllDigits(s: string) { forall i :: 0 <= i < |s| ==> IsDigit(s[i]) }

  predicate NoDigits(s: string) { forall i :: 0 <= i < |s| ==> !IsDigit(s[i]) }

  function Digit(d: nat): (c: char)
    requires d < 10
    ensures IsDigit(c) && DigitValue(c) == d
  {
    '0' + d as char
  }

  function DigitValue(c: char): nat { if IsDigit(c) then c as nat - '0' as nat else 0 }

  /** How a number is written. */
  function Decimal(n: nat): (s: string)
    ensures s != [] && AllDigits(s)
  {
    if n < 10 then [Digit(n)] else Decimal(n / 10) + [Digit(n % 10)]
  }

  /** A digit by itself, and one more digit at the end of a number. */
  lemma DecimalDigits(n: nat, d: nat)
    requires d < 10
    ensures Decimal(d) == ["0123456789"[d]] && (n > 0 ==> Decimal(10 * n + d) == Decimal(n) + ["0123456789"[d]])
  {
    var digits := "0123456789";
    assert Digit(d) == digits[d];
    assert (10 * n + d) / 10 == n && (10 * n + d) % 10 == d;
  }

  /** How digits are read. */
  function Number(s: string): nat { if s == [] then 0 else Number(s[..|s| - 1]) * 10 + DigitValue(s[|s| - 1]) }

  lemma {:induction false} NumberOfDecimal(n: nat)
    ensures Number(Decimal(n)) == n
  {
    if n >= 10 {
      NumberOfDecimal(n / 10);
      assert Decimal(n)[..|Decimal(n)| - 1] == Decimal(n / 10);
    } else {
      assert Decimal(n)[..0] == [];
    }
  }

  /** The digits at the front of a text. */
  function DigitRun(s: string): (k: nat)
    ensures k <= |s| && (forall i :: 0 <= i < k ==> IsDigit(s[i])) && (k < |s| ==> !IsDigit(s[k]))
  {
    if s == [] || !IsDigit(s[0]) then 0 else
      assert forall i :: 1 <= i < |s| ==> s[i] == s[1..][i - 1];
      1 + DigitRun(s[1..])
  }

  /** atoi of a text that starts with a digit. */
  function Atoi(s: string): nat { Number(s[..DigitRun(s)]) }

  lemma AtoiOfDecimal(n: nat, rest: string)
    requires rest == [] || !IsDigit(rest[0])
    ensures Atoi(Decimal(n) + rest) == n
  {
    var s := Decimal(n) + rest;
    var k := DigitRun(s);
    assert forall i :: 0 <= i < |Decimal(n)| ==> s[i] == Decimal(n)[i];
    assert rest != [] ==> s[|Decimal(n)|] == rest[0];
    assert s[..k] == Decimal(n);
    NumberOfDecimal(n);
  }

  // --------------------------------------------------------------- separators

  /** The index of the first c, or the length. */
  function Find(s: string, c: char): (k: nat)
    ensures k <= |s| && (forall i :: 0 <= i < k ==> s[i] != c) && (k < |s| ==> s[k] == c)
  {
    if s == [] || s[0] == c then 0 else
      assert forall i :: 1 <= i < |s| ==> s[i] == s[1..][i - 1];
      1 + Find(s[1..], c)
  }

  lemma FindFirst(a: string, b: string, c: char)
    requires c !in a
    ensures Find(a + [c] + b, c) == |a|
  {
    var s := a + [c] + b;
    var k := Find(s, c);
    assert forall i :: 0 <= i < |a| ==> s[i] == a[i];
    assert s[|a|] == c;
  }

  lemma FindNone(a: string, c: char)
    requires c !in a
    ensures Find(a, c) == |a|
  {}

  /** rfind: the index of the last c, or -1. */
  function RFind(s: string, c: char): (k: int)
    ensures -1 <= k < |s| && (forall i :: k < i < |s| ==> s[i] != c) && (k >= 0 ==> s[k] == c)
  {
    if s == [] then -1 else if s[|s| - 1] == c then |s| - 1 else RFind(s[..|s| - 1], c)
  }

  lemma RFindIs(s: string, c: char, j: nat)
    requires j < |s| && s[j] == c && forall i :: j < i < |s| ==> s[i] != c
    ensures RFind(s, c) == j
  {
    hide RFind;
    assert RFind(s, c) >= j;
  }

  lemma RFindLast(a: string, b: string, c: char)
    requires c !in b
    ensures RFind(a + [c] + b, c) == |a|
  {
    hide RFind;
    var s := a + [c] + b;
    assert s[|a|] == c && s[|a| + 1..] == b;
    forall i | |a| < i < |s| ensures s[i] != c {
      assert s[i] == s[|a| + 1..][i - |a| - 1] && b[i - |a| - 1] in b;
    }
    RFindIs(s, c, |a|);
  }

  lemma RFindNone(s: string, c: char)
    requires c !in s
    ensures RFind(s, c) == -1
  {}

  /** Python's split: always at least one part. */
  function SplitOn(s: string, c: char): (parts: seq<string>)
    ensures parts != []
    decreases |s|
  {
    var k := Find(s, c);
    if k == |s| then [s] else [s[..k]] + SplitOn(s[k + 1..], c)
  }

  /** A last part without separators is the last part of the split. */
  lemma {:induction false} SplitAppend(a: string, b: string, c: char)
    requires c !in b
    ensures SplitOn(a + [c] + b, c) == SplitOn(a, c) + [b]
    decreases |a|
  {
    hide SplitOn, Find;
    var s := a + [c] + b;
    var k := Find(a, c);
    if k == |a| {
      FindFirst(a, b, c);
      assert s[..k] == a && s[k + 1..] == b;
      FindNone(b, c);
      SplitFirst(s, c);
    } else {
      assert s == a[..k] + [c] + (a[k + 1..] + [c] + b);
      FindFirst(a[..k], a[k + 1..] + [c] + b, c);
      assert s[k + 1..] == a[k + 1..] + [c] + b && s[..k] == a[..k];
      SplitAppend(a[k + 1..], b, c);
      SplitFirst(s, c);
    }
    SplitFirst(a, c);
    SplitFirst(b, c);
  }

  lemma SplitFirst(s: string, c: char)
    ensures Find(s, c) == |s| ==> SplitOn(s, c) == [s]
    ensures Find(s, c) < |s| ==> SplitOn(s, c) == [s[..Find(s, c)]] + SplitOn(s[Find(s, c) + 1..], c)
  {
    hide Find;
  }

  // --------------------------------------------------- type and number of a part

  /** How far the text stays digits, or stays without digits. */
  function SameRun(s: string): (k: nat)
    requires s != []
    ensures 0 < k <= |s| && (AllDigits(s[..k]) || NoDigits(s[..k])) && (k < |s| ==> IsDigit(s[k]) != IsDigit(s[0]))
    ensures forall i :: 0 <= i < k ==> IsDigit(s[i]) == IsDigit(s[0])
  {
    if |s| == 1 || IsDigit(s[1]) != IsDigit(s[0]) then 1 else
      var k := SameRun(s[1..]);
      assert forall i :: 0 <= i < k ==> s[1..][i] == s[i + 1];
      1 + k
  }

  /** re.findall( r'[^0123456789]+|[0123456789]+', s ). */
  function Runs(s: string): seq<string>
    decreases |s|
  {
    if s == [] then [] else var k := SameRun(s); [s[..k]] + Runs(s[k..])
  }

  function TypeOf(part: string): string { if part == [] then [] else Runs(part)[0] }

  /** The number of a part; 0 for a part without one, and for one with more than two runs. */
  function NumOf(part: string): nat { if |Runs(part)| == 2 then Number(Runs(part)[1]) else 0 }

  lemma WholeRun(s: string)
    requires s != [] && (AllDigits(s) || NoDigits(s))
    ensures Runs(s) == [s]
  {
    var k := SameRun(s);
    assert k == |s|;
    assert s[..k] == s && s[k..] == [];
  }

  lemma PartReads(kind: string, n: nat)
    requires kind != [] && NoDigits(kind)
    ensures TypeOf(kind + Decimal(n)) == kind && NumOf(kind + Decimal(n)) == n
  {
    var s := kind + Decimal(n);
    var k := SameRun(s);
    assert s[0] == kind[0] && s[|kind|] == Decimal(n)[0];
    assert forall i :: 0 <= i < |kind| ==> s[i] == kind[i];
    assert k == |kind|;
    assert s[..k] == kind && s[k..] == Decimal(n);
    WholeRun(Decimal(n));
    NumberOfDecimal(n);
  }

  lemma BareReads(kind: string)
    requires kind != [] && NoDigits(kind)
    ensures TypeOf(kind) == kind && NumOf(kind) == 0
  {
    WholeRun(kind);
  }

  // ------------------------------------------------------------------- names

  /** The keys of objMap. */
  datatype Kind = Plat | Cab | Board | Node

  function Text(k: Kind): string {
    match k case Plat => "plat" case Cab => "cab" case Board => "board" case Node => "node"
  }

  function KindOf(t: string): Option<Kind> {
    if t == "plat" then Some(Plat) else if t == "cab" then Some(Cab)
    else if t == "board" then Some(Board) else if t == "node" then Some(Node) else None
  }

  lemma KindOfText(k: Kind)
    ensures KindOf(Text(k)) == Some(k) && Text(k) != [] && NoDigits(Text(k)) && '.' !in Text(k) && ':' !in Text(k) && '\n' !in Text(k)
  {}

  /** One dotted part as the scripts read it. */
  datatype Part = Part(kind: Option<Kind>, num: nat)

  function ReadPart(val: string): Part { Part(KindOf(TypeOf(val)), NumOf(val)) }

  function ReadParts(vals: seq<string>): (parts: seq<Part>)
    ensures |parts| == |vals| && forall i :: 0 <= i < |vals| ==> parts[i] == ReadPart(vals[i])
  {
    seq(|vals|, i requires 0 <= i < |vals| => ReadPart(vals[i]))
  }

  /** name.split( '.' ), each part read. */
  function ReadName(name: string): seq<Part> { ReadParts(SplitOn(name, '.')) }

  function WritePart(k: Kind, n: nat): string { Text(k) + if k == Plat then [] else Decimal(n) }

  lemma PartRoundTrip(k: Kind, n: nat)
    requires k == Plat ==> n == 0
    ensures ReadPart(WritePart(k, n)) == Part(Some(k), n) && '.' !in WritePart(k, n)
  {
    KindOfText(k);
    if k == Plat {
      assert WritePart(k, n) == Text(k);
      BareReads(Text(k));
    } else {
      PartReads(Text(k), n);
      assert forall i :: 0 <= i < |Decimal(n)| ==> IsDigit(Decimal(n)[i]);
    }
  }

  function PlatName(): string { WritePart(Plat, 0) }

  function CabName(c: nat): string { PlatName() + ['.'] + WritePart(Cab, c) }

  function BoardName(c: nat, b: nat): string { CabName(c) + ['.'] + WritePart(Board, b) }

  function NodeName(p: Place): string { BoardName(p.cab, p.board) + ['.'] + WritePart(Node, p.node) }

  /** The names as they are written. */
  lemma NamesSpelled(p: Place)
    ensures PlatName() == "plat" && CabName(p.cab) == "plat.cab" + Decimal(p.cab)
    ensures BoardName(p.cab, p.board) == "plat.cab" + Decimal(p.cab) + ".board" + Decimal(p.board)
    ensures NodeName(p) == "plat.cab" + Decimal(p.cab) + ".board" + Decimal(p.board) + ".node" + Decimal(p.node)
  {
    hide Decimal;
    var c, b, n := Decimal(p.cab), Decimal(p.board), Decimal(p.node);
    assert PlatName() == "plat";
    assert CabName(p.cab) == "plat" + "." + ("cab" + c) == "plat.cab" + c;
    assert BoardName(p.cab, p.board) == CabName(p.cab) + "." + ("board" + b) == CabName(p.cab) + ".board" + b;
    assert NodeName(p) == BoardName(p.cab, p.board) + "." + ("node" + n) == BoardName(p.cab, p.board) + ".node" + n;
  }

  /** One more part at the end of a name. */
  lemma ReadLast(name: string, last: string)
    requires '.' !in last
    ensures ReadName(name + ['.'] + last) == ReadName(name) + [ReadPart(last)]
    ensures SplitUp(name + ['.'] + last) == Split(name, ReadPart(last))
  {
    var whole := name + ['.'] + last;
    SplitAppend(name, last, '.');
    RFindLast(name, last, '.');
    assert whole[..|name|] == name && whole[|name| + 1..] == last;
  }

  lemma ReadMore(name: string, k: Kind, n: nat)
    requires k != Plat
    ensures ReadName(name + ['.'] + WritePart(k, n)) == ReadName(name) + [Part(Some(k), n)]
    ensures SplitUp(name + ['.'] + WritePart(k, n)) == Split(name, Part(Some(k), n))
  {
    PartRoundTrip(k, n);
    ReadLast(name, WritePart(k, n));
  }

  /** splitUp: what comes before the last dot, and the last part. */
  datatype Split = Split(pre: string, last: Part)

  function SplitUp(name: string): Split {
    var pos := RFind(name, '.');
    Split(if pos > -1 then name[..pos] else [], ReadPart(name[pos + 1..]))
  }

  function CabPath(c: nat): seq<Part> { [Part(Some(Plat), 0), Part(Some(Cab), c)] }

  function BoardPath(c: nat, b: nat): seq<Part> { [Part(Some(Plat), 0), Part(Some(Cab), c), Part(Some(Board), b)] }

  function NodePath(p: Place): seq<Part> {
    [Part(Some(Plat), 0), Part(Some(Cab), p.cab), Part(Some(Board), p.board), Part(Some(Node), p.node)]
  }

  lemma PlatReads()
    ensures ReadName(PlatName()) == [Part(Some(Plat), 0)] && SplitUp(PlatName()) == Split([], Part(Some(Plat), 0))
  {
    PartRoundTrip(Plat, 0);
    FindNone(PlatName(), '.');
    RFindNone(PlatName(), '.');
    assert PlatName()[0..] == PlatName();
  }

  lemma CabReads(c: nat)
    ensures ReadName(CabName(c)) == CabPath(c) && SplitUp(CabName(c)) == Split(PlatName(), Part(Some(Cab), c))
  {
    hide SplitOn, PlatName, ReadName, SplitUp, WritePart;
    assert CabName(c) == PlatName() + ['.'] + WritePart(Cab, c);
    PlatReads();
    ReadMore(PlatName(), Cab, c);
  }

  lemma BoardReads(c: nat, b: nat)
    ensures ReadName(BoardName(c, b)) == BoardPath(c, b) && SplitUp(BoardName(c, b)) == Split(CabName(c), Part(Some(Board), b))
  {
    hide SplitOn, CabName, ReadName, SplitUp, WritePart;
    assert BoardName(c, b) == CabName(c) + ['.'] + WritePart(Board, b);
    CabReads(c);
    ReadMore(CabName(c), Board, b);
  }

  /** Reading a node's name gives back its indices. */
  lemma NodeReads(p: Place)
    ensures ReadName(NodeName(p)) == NodePath(p)
    ensures SplitUp(NodeName(p)) == Split(BoardName(p.cab, p.board), Part(Some(Node), p.node))
  {
    hide SplitOn, BoardName, ReadName, SplitUp, WritePart;
    BoardReads(p.cab, p.board);
    ReadMore(BoardName(p.cab, p.board), Node, p.node);
  }

  lemma PathsDiffer(p: Place, q: Place)
    ensures NodePath(p) == NodePath(q) ==> p == q
    ensures BoardPath(p.cab, p.board) == BoardPath(q.cab, q.board) ==> p.cab == q.cab && p.board == q.board
    ensures NodePath(p) != BoardPath(q.cab, q.board)
  {
    assert NodePath(p)[1].num == p.cab && NodePath(p)[2].num == p.board && NodePath(p)[3].num == p.node;
    assert BoardPath(p.cab, p.board)[1].num == p.cab && BoardPath(p.cab, p.board)[2].num == p.board;
    assert |NodePath(p)| == 4 && |BoardPath(q.cab, q.board)| == 3;
  }

  /** Different nodes have different names. */
  lemma NodeNamesDiffer(p: Place, q: Place)
    requires NodeName(p) == NodeName(q)
    ensures p == q
  {
    NodeReads(p);
    NodeReads(q);
    PathsDiffer(p, q);
  }

  lemma BoardNamesDiffer(p: Place, q: Place)
    requires BoardName(p.cab, p.board) == BoardName(q.cab, q.board)
    ensures p.cab == q.cab && p.board == q.board
  {
    BoardReads(p.cab, p.board);
    BoardReads(q.cab, q.board);
    PathsDiffer(p, q);
  }

  /** No node has a board's name. */
  lemma NodeIsNoBoard(p: Place, q: Place)
    ensures NodeName(p) != BoardName(q.cab, q.board)
  {
    NodeReads(p);
    BoardReads(q.cab, q.board);
    PathsDiffer(p, q);
  }

  // ---------------------------------------------------------- the level chain

  /** class Foo; a leaf has no child. */
  datatype Foo = Leaf(name: Kind, total: nat) | Over(name: Kind, total: nat, per: nat, child: Foo)

  /** Foo.getLeafCount. */
  function LeafCount(f: Foo, stop: Kind): int {
    if f.Leaf? || f.name == stop then -1
    else if f.child.name == stop then f.per
    else LeafCount(f.child, stop) * f.per
  }

  function TotalChildren(f: Foo): nat { if f.Over? then f.child.total else 0 }

  function ChildrenPer(f: Foo): nat { if f.Over? then f.per else 0 }

  predicate Sizable(m: Machine) { m.nodesPerBoard > 0 && m.boardsPerCab > 0 }

  /** objMap. */
  function ObjMap(m: Machine, k: Kind): Foo
    requires Sizable(m)
    decreases match k case Node => 0 case Board => 1 case Cab => 2 case Plat => 3
  {
    match k
    case Node => Leaf(Node, m.numNodes)
    case Board => Over(Board, NumBoards(m), m.nodesPerBoard, ObjMap(m, Node))
    case Cab => Over(Cab, NumCabs(m), m.boardsPerCab, ObjMap(m, Board))
    case Plat => Over(Plat, 1, NumCabs(m), ObjMap(m, Cab))
  }

  predicate Known(parts: seq<Part>) { forall i :: 0 <= i < |parts| ==> parts[i].kind.Some? }

  /** What calcTypePos adds up, part by part, until the wanted type. */
  function TypePos(m: Machine, parts: seq<Part>, want: Kind): int
    requires Sizable(m) && Known(parts)
  {
    if parts == [] || parts[0].kind.value == want then 0
    else LeafCount(ObjMap(m, parts[0].kind.value), want) * parts[0].num + TypePos(m, parts[1..], want)
  }

  /** calcTypePos. */
  method CalcTypePos(m: Machine, name: string, wantType: Kind) returns (ret: int)
    requires Sizable(m) && Known(ReadName(name))
    ensures ret == TypePos(m, ReadName(name), wantType)
  {
    var vals := SplitOn(name, '.');
    ret := 0;
    var i := 0;
    while i < |vals|
      invariant 0 <= i <= |vals| && ret + TypePos(m, ReadName(name)[i..], wantType) == TypePos(m, ReadName(name), wantType)
    {
      var part := ReadPart(vals[i]);
      assert part == ReadName(name)[i];
      if wantType == part.kind.value { break; }
      ret := ret + LeafCount(ObjMap(m, part.kind.value), wantType) * part.num;
      assert ReadName(name)[i..][1..] == ReadName(name)[i + 1..];
      i := i + 1;
    }
  }

  /** The names calcNumChildren can handle: those of known types. */
  predicate Countable(m: Machine, name: string) { CountableAt(m, ReadName(name), SplitUp(name).last) }

  predicate CountableAt(m: Machine, parts: seq<Part>, last: Part) {
    Sizable(m) && Known(parts) && last.kind.Some?
  }

  function CountAt(m: Machine, parts: seq<Part>, last: Part): Option<nat>
    requires CountableAt(m, parts, last)
  {
    var f := ObjMap(m, last.kind.value);
    NumChildren(TypePos(m, parts, last.kind.value) + last.num, TotalChildren(f), ChildrenPer(f))
  }

  function ChildCount(m: Machine, name: string): Option<nat>
    requires Countable(m, name)
  {
    CountAt(m, ReadName(name), SplitUp(name).last)
  }

  /** calcNumChildren; None where the script ends with an error. */
  method CalcNumChildren(m: Machine, name: string) returns (ret: Option<nat>)
    requires Countable(m, name)
    ensures ret == ChildCount(m, name)
  {
    hide SplitUp, ReadName, TypePos, ObjMap, NumCabs;
    var s := SplitUp(name).last;
    var kind, num := s.kind.value, s.num;
    var pos := CalcTypePos(m, name, kind);
    var myNum := pos + num;
    var total, per := TotalChildren(ObjMap(m, kind)), ChildrenPer(ObjMap(m, kind));
    if (myNum + 1) * per <= total {
      ret := Some(per);
    } else if (myNum + 1) * per < total + per {
      ret := Some(total % per);
    } else {
      ret := None;
    }
  }

  lemma LeafCounts(m: Machine)
    requires Sizable(m)
    ensures LeafCount(ObjMap(m, Cab), Board) == m.boardsPerCab
    ensures LeafCount(ObjMap(m, Cab), Node) == m.nodesPerBoard * m.boardsPerCab
    ensures LeafCount(ObjMap(m, Board), Node) == m.nodesPerBoard
  {}

  lemma TypePosFirst(m: Machine, first: Part, rest: seq<Part>, want: Kind)
    requires Sizable(m) && first.kind.Some? && Known(rest) && first.kind.value != want
    ensures Known([first] + rest)
    ensures TypePos(m, [first] + rest, want) == LeafCount(ObjMap(m, first.kind.value), want) * first.num + TypePos(m, rest, want)
  {
    assert ([first] + rest)[1..] == rest;
  }

  lemma TypePosLast(m: Machine, k: Kind, n: nat)
    requires Sizable(m)
    ensures Known([Part(Some(k), n)]) && TypePos(m, [Part(Some(k), n)], k) == 0
  {}

  lemma NodePathPos(m: Machine, p: Place)
    requires Sizable(m)
    ensures Known(NodePath(p)) && TypePos(m, NodePath(p), Node) + p.node == Position(m, p)
  {
    LeafCounts(m);
    var path := NodePath(p);
    assert path == [path[0]] + ([path[1]] + ([path[2]] + [path[3]]));
    TypePosLast(m, Node, p.node);
    TypePosFirst(m, path[2], [path[3]], Node);
    TypePosFirst(m, path[1], [path[2]] + [path[3]], Node);
    TypePosFirst(m, path[0], [path[1]] + ([path[2]] + [path[3]]), Node);
  }

  lemma BoardPathPos(m: Machine, c: nat, b: nat)
    requires Sizable(m)
    ensures Known(BoardPath(c, b)) && TypePos(m, BoardPath(c, b), Board) == c * m.boardsPerCab
  {
    LeafCounts(m);
    var path := BoardPath(c, b);
    assert path == [path[0]] + ([path[1]] + [path[2]]);
    TypePosLast(m, Board, b);
    TypePosFirst(m, path[1], [path[2]], Board);
    TypePosFirst(m, path[0], [path[1]] + [path[2]], Board);
    assert m.boardsPerCab * c == c * m.boardsPerCab;
  }

  lemma CabPathPos(m: Machine, c: nat)
    requires Sizable(m)
    ensures Known(CabPath(c)) && TypePos(m, CabPath(c), Cab) == 0
  {
    var path := CabPath(c);
    assert path == [path[0]] + [path[1]];
    TypePosLast(m, Cab, c);
    TypePosFirst(m, path[0], [path[1]], Cab);
  }

  /** calcTypePos of a node's name, plus its number, is the node's position. */
  lemma NodeTypePos(m: Machine, p: Place)
    requires Sizable(m)
    ensures Known(ReadName(NodeName(p))) && TypePos(m, ReadName(NodeName(p)), Node) + p.node == Position(m, p)
  {
    NodeReads(p);
    NodePathPos(m, p);
  }

  /** calcNumChildren of a node: none. */
  lemma NodeChildren(m: Machine, p: Place)
    requires Sizable(m)
    ensures Countable(m, NodeName(p)) && ChildCount(m, NodeName(p)) == Some(0)
  {
    hide ReadName, SplitUp, TypePos, NodeName;
    NodeTypePos(m, p);
    NodeReads(p);
  }

  /** calcNumChildren of a board, from its name. */
  lemma BoardChildren(m: Machine, c: nat, b: nat)
    requires Sizable(m)
    ensures Countable(m, BoardName(c, b))
    ensures ChildCount(m, BoardName(c, b)) == NumChildren(BoardPosition(m, c, b), m.numNodes, m.nodesPerBoard)
  {
    BoardReads(c, b);
    ChildrenOfBoard(m, BoardName(c, b), CabName(c), c, b);
  }

  lemma ChildrenOfBoard(m: Machine, name: string, pre: string, c: nat, b: nat)
    requires Sizable(m)
    requires ReadName(name) == BoardPath(c, b) && SplitUp(name) == Split(pre, Part(Some(Board), b))
    ensures Countable(m, name) && ChildCount(m, name) == NumChildren(BoardPosition(m, c, b), m.numNodes, m.nodesPerBoard)
  {
    hide SplitUp, ReadName, TypePos, NumChildren, NumCabs;
    BoardPathPos(m, c, b);
  }

  lemma CabChildren(m: Machine, c: nat)
    requires Sizable(m)
    ensures Countable(m, CabName(c))
    ensures ChildCount(m, CabName(c)) == NumChildren(c, NumBoards(m), m.boardsPerCab)
  {
    CabReads(c);
    ChildrenOfCab(m, CabName(c), PlatName(), c);
  }

  lemma ChildrenOfCab(m: Machine, name: string, pre: string, c: nat)
    requires Sizable(m)
    requires ReadName(name) == CabPath(c) && SplitUp(name) == Split(pre, Part(Some(Cab), c))
    ensures Countable(m, name) && ChildCount(m, name) == NumChildren(c, NumBoards(m), m.boardsPerCab)
  {
    hide SplitUp, ReadName, TypePos, NumChildren, NumCabs;
    CabPathPos(m, c);
  }

  lemma PlatChildren(m: Machine)
    requires Sizable(m)
    ensures Countable(m, PlatName())
    ensures ChildCount(m, PlatName()) == NumChildren(0, NumCabs(m), NumCabs(m))
  {
    PlatReads();
  }

  /** _checkName: what it answers for a name it can read to the end; an error is false. */
  predicate CheckName(m: Machine, name: string)
    decreases |name|
  {
    var s := SplitUp(name);
    var pos := RFind(name, '.');
    s.last.kind.Some? &&
    (s.pre == [] ||
      (s.last.kind.value != Plat && Countable(m, s.pre)
       && ChildCount(m, s.pre).Some? && s.last.num < ChildCount(m, s.pre).value
       && CheckName(m, s.pre)))
  }

  lemma CheckStep(m: Machine, name: string, pre: string, k: Kind, n: nat)
    requires SplitUp(name) == Split(pre, Part(Some(k), n)) && pre != [] && k != Plat && Countable(m, pre)
    ensures CheckName(m, name) <==> ChildCount(m, pre).Some? && n < ChildCount(m, pre).value && CheckName(m, pre)
  {}

  /** _checkName accepts a node's name exactly when the node is one of the machine's. */
  lemma CheckNodeName(m: Machine, p: Place)
    requires Sized(m)
    ensures CheckName(m, NodeName(p)) <==> Position(m, p) < m.numNodes && PlaceOf(m, Position(m, p)) == p
  {
    EveryLevelAddsUp(m);
    AcceptedIff(m, p);
    NodeReads(p);
    BoardChildren(m, p.cab, p.board);
    CheckStep(m, NodeName(p), BoardName(p.cab, p.board), Node, p.node);
    CheckBoardName(m, p.cab, p.board);
  }

  lemma CheckBoardName(m: Machine, c: nat, b: nat)
    requires Sized(m) && NumCabs(m) > 0
    ensures CheckName(m, BoardName(c, b)) <==>
            && (var k := NumChildren(c, NumBoards(m), m.boardsPerCab); k.Some? && b < k.value)
            && (var k := NumChildren(0, NumCabs(m), NumCabs(m)); k.Some? && c < k.value)
  {
    BoardReads(c, b);
    CabChildren(m, c);
    CheckStep(m, BoardName(c, b), CabName(c), Board, b);
    CabReads(c);
    PlatChildren(m);
    PlatReads();
    CheckStep(m, CabName(c), PlatName(), Cab, c);
    CheckPlat(m);
  }

  lemma CheckPlat(m: Machine)
    requires Sized(m)
    ensures CheckName(m, PlatName())
  {
    PlatReads();
  }
}
