/** The route file that the machine script writes and the table that a router reads from it. */
module RouteTable {
  import opened Topology
  import opened Names
  import opened RouterNode

  /** A line of the route file. */
  datatype Entry = Entry(name: string, rtr: nat, srv: nat)

  function Line(e: Entry): string { e.name + [':'] + (Decimal(e.rtr) + ([':'] + Decimal(e.srv))) }

  function FileOf(entries: seq<Entry>): string {
    if entries == [] then [] else FileOf(entries[..|entries| - 1]) + (Line(entries[|entries| - 1]) + ['\n'])
  }

  lemma FileStep(entries: seq<Entry>, e: Entry)
    ensures FileOf(entries + [e]) == FileOf(entries) + (Line(e) + ['\n'])
  {
    assert (entries + [e])[..|entries|] == entries;
  }

  /** The file as it is written, line by line. */
  lemma FileSpelled(entries: seq<Entry>, e: Entry)
    ensures FileOf([]) == "" && FileOf(entries + [e]) == FileOf(entries) + (e.name + ":" + Decimal(e.rtr) + ":" + Decimal(e.srv) + "\n")
  {
    hide Decimal;
    FileStep(entries, e);
    assert Line(e) + ['\n'] == e.name + ":" + Decimal(e.rtr) + ":" + Decimal(e.srv) + "\n";
  }

  // ------------------------------------------------------------- writing it

  /** Which line it is: the one of a board, or of a node, by number. */
  datatype Row = BoardRow(board: nat) | NodeRow(node: nat)

  function RowName(m: Machine, r: Row): string
    requires m.nodesPerBoard > 0 && m.boardsPerCab > 0
  {
    match r
    case BoardRow(i) => BoardName(i / m.boardsPerCab, i % m.boardsPerCab)
    case NodeRow(n) => NodeName(PlaceOf(m, n))
  }

  function RowEntry(m: Machine, r: Row): Entry
    requires m.nodesPerBoard > 0 && m.boardsPerCab > 0
  {
    match r
    case BoardRow(i) => Entry(RowName(m, r), i, 0)
    case NodeRow(n) => Entry(RowName(m, r), n / m.nodesPerBoard, n % m.nodesPerBoard + 1)
  }

  function RowEntries(m: Machine, rows: seq<Row>): (s: seq<Entry>)
    requires m.nodesPerBoard > 0 && m.boardsPerCab > 0
    ensures |s| == |rows| && forall k :: 0 <= k < |rows| ==> s[k] == RowEntry(m, rows[k])
  {
    seq(|rows|, k requires 0 <= k < |rows| => RowEntry(m, rows[k]))
  }

  /** The number of node j of board i. */
  function NodeAt(m: Machine, i: nat, j: nat): nat { i * m.nodesPerBoard + j }

  /** The rows of the first j nodes of board i. */
  function NodeRows(m: Machine, i: nat, j: nat): seq<Row> {
    if j == 0 then [] else
      NodeRows(m, i, j - 1) + if NodeAt(m, i, j - 1) < m.numNodes then [NodeRow(NodeAt(m, i, j - 1))] else []
  }

  function Rows(m: Machine, boards: nat): seq<Row> {
    if boards == 0 then [] else
      Rows(m, boards - 1) + ([BoardRow(boards - 1)] + NodeRows(m, boards - 1, m.nodesPerBoard))
  }

  /** The line of board i, and of node n, counted from 0. */
  function BoardLine(m: Machine, i: nat): nat { i * m.nodesPerBoard + i }

  function NodeLine(m: Machine, n: nat): nat
    requires m.nodesPerBoard > 0
  {
    n + n / m.nodesPerBoard + 1
  }

  /** Which line is where: each board's line stands before those of its nodes. */
  lemma {:induction false} RowPlaces(m: Machine, boards: nat)
    requires Sized(m) && boards <= NumBoards(m)
    ensures |Rows(m, boards)| == boards + if boards * m.nodesPerBoard < m.numNodes then boards * m.nodesPerBoard else m.numNodes
    ensures forall i: nat :: i < boards ==> BoardLine(m, i) < |Rows(m, boards)| && Rows(m, boards)[BoardLine(m, i)] == BoardRow(i)
    ensures forall n: nat :: n < m.numNodes && n / m.nodesPerBoard < boards ==>
              NodeLine(m, n) < |Rows(m, boards)| && Rows(m, boards)[NodeLine(m, n)] == NodeRow(n)
  {
    hide Rows, NodeRows, BoardLine, NodeLine;
    RowsMore(m, boards);
    if boards > 0 {
      var b := boards - 1;
      RowPlaces(m, b);
      LastBoard(m, b);
      BoardRowsAre(m, b, m.nodesPerBoard);
      LengthMore(m, b);
      forall n: nat | n < m.numNodes && n / m.nodesPerBoard < boards
        ensures NodeLine(m, n) < |Rows(m, boards)| && Rows(m, boards)[NodeLine(m, n)] == NodeRow(n)
      {
        if n / m.nodesPerBoard == b { NodeOnBoard(m, n, b); }
      }
    }
  }

  lemma LengthMore(m: Machine, b: nat)
    ensures (b + 1) * m.nodesPerBoard == b * m.nodesPerBoard + m.nodesPerBoard && BoardLine(m, b) == b * m.nodesPerBoard + b
  {}

  lemma RowsMore(m: Machine, boards: nat)
    ensures Rows(m, boards) == if boards == 0 then [] else Rows(m, boards - 1) + ([BoardRow(boards - 1)] + NodeRows(m, boards - 1, m.nodesPerBoard))
  {}

  lemma LastBoard(m: Machine, b: nat)
    requires Sized(m) && b < NumBoards(m)
    ensures b * m.nodesPerBoard < m.numNodes
  {
    CeilIsLeast(m.numNodes, m.nodesPerBoard, b);
  }

  lemma NodeOnBoard(m: Machine, n: nat, b: nat)
    requires Sized(m) && n / m.nodesPerBoard == b
    ensures b * m.nodesPerBoard <= n < b * m.nodesPerBoard + m.nodesPerBoard && NodeLine(m, n) == n + b + 1
  {}

  lemma {:induction false} BoardRowsAre(m: Machine, b: nat, j: nat)
    ensures var first := b * m.nodesPerBoard;
            && |NodeRows(m, b, j)| == (if first + j < m.numNodes then j else if first < m.numNodes then m.numNodes - first else 0)
            && forall k :: 0 <= k < |NodeRows(m, b, j)| ==> NodeRows(m, b, j)[k] == NodeRow(first + k)
  {
    if j > 0 { BoardRowsAre(m, b, j - 1); }
  }

  /** Lines are numbered as they are written: a node's number on its board comes after as
      many lines. */
  lemma {:induction false} NodeRowsCount(m: Machine, i: nat, j: nat)
    ensures NodeAt(m, i, j) <= m.numNodes ==> |NodeRows(m, i, j)| == j
  {
    if j > 0 { NodeRowsCount(m, i, j - 1); }
  }

  lemma NodeAtParts(m: Machine, i: nat, j: nat)
    requires j < m.nodesPerBoard
    ensures NodeAt(m, i, j) / m.nodesPerBoard == i && NodeAt(m, i, j) % m.nodesPerBoard == j
  {
    DivModOf(i, j, m.nodesPerBoard);
  }

  lemma PlaceOfIndices(m: Machine, n: nat, i: nat, j: nat)
    requires Sized(m) && n / m.nodesPerBoard == i && n % m.nodesPerBoard == j
    ensures PlaceOf(m, n) == Place(i / m.boardsPerCab, i % m.boardsPerCab, j)
  {
    DivDiv(n, m.nodesPerBoard, m.boardsPerCab);
  }

  lemma RowsStep(m: Machine, rows: seq<Row>, r: Row)
    requires m.nodesPerBoard > 0 && m.boardsPerCab > 0
    ensures FileOf(RowEntries(m, rows + [r])) == FileOf(RowEntries(m, rows)) + (Line(RowEntry(m, r)) + ['\n'])
  {
    assert RowEntries(m, rows + [r]) == RowEntries(m, rows) + [RowEntry(m, r)];
    FileStep(RowEntries(m, rows), RowEntry(m, r));
  }

  /** genRouteFile. */
  method GenRouteFile(m: Machine) returns (text: string)
    requires Sized(m)
    ensures text == FileOf(RowEntries(m, Rows(m, NumBoards(m))))
  {
    text := "";
    var i := 0;
    while i < NumBoards(m)
      invariant 0 <= i <= NumBoards(m) && text == FileOf(RowEntries(m, Rows(m, i)))
    {
      BoardBegins(m, i);
      if NodeAt(m, i, 0) >= m.numNodes { break; }
      text := GenBoard(m, i, text, Rows(m, i));
      NextBoard(m, i);
      i := i + 1;
    }
  }

  lemma NextBoard(m: Machine, i: nat)
    requires Sized(m)
    ensures FileOf(RowEntries(m, Rows(m, i + 1))) == TextUpTo(m, Rows(m, i), i, m.nodesPerBoard)
  {}

  lemma BoardBegins(m: Machine, i: nat)
    requires Sized(m)
    ensures i < NumBoards(m) <==> NodeAt(m, i, 0) < m.numNodes
  {
    CeilIsLeast(m.numNodes, m.nodesPerBoard, i);
  }

  /** The text of these rows, the board's line, and the lines of its first j nodes. */
  ghost function TextUpTo(m: Machine, rows: seq<Row>, i: nat, j: nat): string
    requires Sized(m)
  {
    FileOf(RowEntries(m, rows + ([BoardRow(i)] + NodeRows(m, i, j))))
  }

  /** The body of its outer loop: the lines of one board. */
  method GenBoard(m: Machine, i: nat, before: string, ghost rows: seq<Row>) returns (text: string)
    requires Sized(m) && before == FileOf(RowEntries(m, rows))
    ensures text == TextUpTo(m, rows, i, m.nodesPerBoard)
  {
    hide BoardName, NodeName, Line, FileOf, RowEntries, TextUpTo, NodeRows;
    var pos := 0;
    var cab, brd := i / m.boardsPerCab, i % m.boardsPerCab;
    text := before + (Line(Entry(BoardName(cab, brd), i, pos)) + ['\n']);
    FirstLine(m, rows, i);
    pos := pos + 1;
    var j := 0;
    while j < m.nodesPerBoard
      invariant 0 <= j <= m.nodesPerBoard && pos == 1 + |NodeRows(m, i, j)| && text == TextUpTo(m, rows, i, j)
    {
      NextLine(m, rows, i, j);
      if NodeAt(m, i, j) < m.numNodes {
        text := text + (Line(Entry(NodeName(Place(cab, brd, j)), i, pos)) + ['\n']);
        pos := pos + 1;
      }
      j := j + 1;
    }
  }

  lemma FirstLine(m: Machine, rows: seq<Row>, i: nat)
    requires Sized(m)
    ensures NodeRows(m, i, 0) == []
    ensures TextUpTo(m, rows, i, 0) == FileOf(RowEntries(m, rows)) + (Line(Entry(BoardName(i / m.boardsPerCab, i % m.boardsPerCab), i, 0)) + ['\n'])
  {
    RowsStep(m, rows, BoardRow(i));
    assert [BoardRow(i)] + NodeRows(m, i, 0) == [BoardRow(i)];
  }

  lemma NextLine(m: Machine, rows: seq<Row>, i: nat, j: nat)
    requires Sized(m) && j < m.nodesPerBoard
    ensures if NodeAt(m, i, j) < m.numNodes then
              && |NodeRows(m, i, j)| == j && |NodeRows(m, i, j + 1)| == j + 1
              && TextUpTo(m, rows, i, j + 1)
              == TextUpTo(m, rows, i, j) + (Line(Entry(NodeName(Place(i / m.boardsPerCab, i % m.boardsPerCab, j)), i, 1 + j)) + ['\n'])
            else NodeRows(m, i, j + 1) == NodeRows(m, i, j) && TextUpTo(m, rows, i, j + 1) == TextUpTo(m, rows, i, j)
  {
    hide NodeAt, NodeRows, TextUpTo, FileOf, RowEntries, Line, NodeName, PlaceOf;
    NodeRowsStep(m, i, j);
    if NodeAt(m, i, j) < m.numNodes {
      NodeRowsCount(m, i, j);
      NodeAtParts(m, i, j);
      PlaceOfIndices(m, NodeAt(m, i, j), i, j);
      OneRowMore(m, rows, i, j, NodeRow(NodeAt(m, i, j)));
    } else {
      SameRows(m, rows, i, j);
    }
  }

  lemma NodeRowsStep(m: Machine, i: nat, j: nat)
    ensures NodeRows(m, i, j + 1) == NodeRows(m, i, j) + if NodeAt(m, i, j) < m.numNodes then [NodeRow(NodeAt(m, i, j))] else []
  {}

  lemma SameRows(m: Machine, rows: seq<Row>, i: nat, j: nat)
    requires Sized(m) && NodeRows(m, i, j + 1) == NodeRows(m, i, j) + []
    ensures NodeRows(m, i, j + 1) == NodeRows(m, i, j) && TextUpTo(m, rows, i, j + 1) == TextUpTo(m, rows, i, j)
  {
    hide NodeRows, FileOf;
  }

  lemma OneRowMore(m: Machine, rows: seq<Row>, i: nat, j: nat, r: Row)
    requires Sized(m) && NodeRows(m, i, j + 1) == NodeRows(m, i, j) + [r]
    ensures TextUpTo(m, rows, i, j + 1) == TextUpTo(m, rows, i, j) + (Line(RowEntry(m, r)) + ['\n'])
  {
    var have := rows + ([BoardRow(i)] + NodeRows(m, i, j));
    assert rows + ([BoardRow(i)] + NodeRows(m, i, j + 1)) == have + [r];
    RowsStep(m, have, r);
  }

  // ------------------------------------------------------------- reading it

  /** std::string::substr( pos, len ). */
  function Substr(s: string, pos: nat, len: nat): string
    requires pos <= |s|
  {
    if pos + len <= |s| then s[pos..pos + len] else s[pos..]
  }

  /** One line of initRouteTable; a line without a colon reads as its whole text three times. */
  function ReadLine(line: string): Entry {
    var pos1 := Find(line, ':');
    var pos2 := RFind(line, ':');
    if pos2 == -1 then Entry(line, Atoi(line), Atoi(line)) else
      Entry(line[..pos1], Atoi(Substr(line, pos1 + 1, if pos2 == 0 then |line| else pos2 - 1)), Atoi(line[pos2 + 1..]))
  }

  ghost predicate Writable(e: Entry) { ':' !in e.name && '\n' !in e.name }

  lemma DigitsFree(n: nat)
    ensures ':' !in Decimal(n) && '\n' !in Decimal(n)
  {
    assert forall i :: 0 <= i < |Decimal(n)| ==> IsDigit(Decimal(n)[i]);
  }

  /** A line cut at its first and last colon. */
  lemma ThreeFields(a: string, b: string, c: string)
    requires ':' !in a && ':' !in b && ':' !in c
    ensures var s := a + [':'] + (b + ([':'] + c));
            Find(s, ':') == |a| && RFind(s, ':') == |a| + 1 + |b| && s[..|a|] == a && s[|a| + 1 + |b| + 1..] == c
            && s[|a| + 1..] == b + ([':'] + c)
  {
    var s := a + [':'] + (b + ([':'] + c));
    FindFirst(a, b + ([':'] + c), ':');
    var front := a + [':'] + b;
    assert s == front + [':'] + c;
    RFindLast(front, c, ':');
  }

  /** Reading a line that was written gives the line back.  The router's field is cut too
      long, into the server's: atoi stops at the colon. */
  lemma LineRoundTrip(e: Entry)
    requires Writable(e)
    ensures ReadLine(Line(e)) == e
  {
    hide Decimal, Atoi, Find, RFind;
    var b, c := Decimal(e.rtr), Decimal(e.srv);
    DigitsFree(e.rtr);
    DigitsFree(e.srv);
    ThreeFields(e.name, b, c);
    AtoiOfDecimal(e.srv, []);
    assert c + [] == c;
    MiddleField(Line(e), e.name, e.rtr, c, |e.name| + |b|);
  }

  lemma LineHasNoBreak(e: Entry)
    requires Writable(e)
    ensures '\n' !in Line(e)
  {
    DigitsFree(e.rtr);
    DigitsFree(e.srv);
  }

  lemma MiddleField(s: string, name: string, rtr: nat, c: string, len: nat)
    requires len >= |Decimal(rtr)| && |s| > |name| && s[|name| + 1..] == Decimal(rtr) + ([':'] + c)
    ensures Atoi(Substr(s, |name| + 1, len)) == rtr
  {
    var rest := Decimal(rtr) + ([':'] + c);
    var k := if len <= |rest| then len else |rest|;
    var tail := ([':'] + c)[..k - |Decimal(rtr)|];
    assert Substr(s, |name| + 1, len) == rest[..k];
    assert rest[..k] == Decimal(rtr) + tail;
    AtoiOfDecimal(rtr, tail);
  }

  /** What initRouteTable makes of a text: its complete lines, in order. */
  function ReadFile(text: string, table: map<string, nat>): map<string, nat>
    decreases |text|
  {
    var k := Find(text, '\n');
    if k == |text| then table else
      var e := ReadLine(text[..k]);
      ReadFile(text[k + 1..], table[e.name := AppId(e.rtr, e.srv)])
  }

  /** initRouteTable. */
  method InitRouteTable(text: string) returns (table: map<string, nat>)
    ensures table == ReadFile(text, map[])
  {
    hide ReadLine, Find, AppId;
    table := map[];
    var at := 0;
    while true
      invariant 0 <= at <= |text| && ReadFile(text[at..], table) == ReadFile(text, map[])
      decreases |text| - at
    {
      var k := Find(text[at..], '\n');
      if k == |text[at..]| { break; }
      var e := ReadLine(text[at..][..k]);
      table := table[e.name := AppId(e.rtr, e.srv)];
      assert text[at..][k + 1..] == text[at + k + 1..];
      at := at + k + 1;
    }
  }

  lemma {:induction false} ReadLines(entries: seq<Entry>, text: string, table: map<string, nat>)
    requires forall e :: e in entries ==> Writable(e)
    ensures ReadFile(FileOf(entries) + text, table) == ReadFile(text, TableFrom(table, entries))
  {
    if entries == [] {
      assert FileOf(entries) + text == text;
    } else {
      var before, e := entries[..|entries| - 1], entries[|entries| - 1];
      var tail := Line(e) + ['\n'] + text;
      assert FileOf(entries) + text == FileOf(before) + tail;
      ReadLines(before, tail, table);
      LineRoundTrip(e);
      LineHasNoBreak(e);
      ReadFirst(Line(e), text, TableFrom(table, before));
    }
  }

  lemma ReadFirst(line: string, text: string, table: map<string, nat>)
    requires '\n' !in line
    ensures ReadFile(line + ['\n'] + text, table) == ReadFile(text, table[ReadLine(line).name := AppId(ReadLine(line).rtr, ReadLine(line).srv)])
  {
    FindFirst(line, text, '\n');
    var s := line + ['\n'] + text;
    assert s[..|line|] == line && s[|line| + 1..] == text;
  }

  function TableFrom(table: map<string, nat>, entries: seq<Entry>): map<string, nat> {
    if entries == [] then table else
      var e := entries[|entries| - 1];
      TableFrom(table, entries[..|entries| - 1])[e.name := AppId(e.rtr, e.srv)]
  }

  /** The table read from a written file is the table of its lines. */
  lemma FileRoundTrip(entries: seq<Entry>)
    requires forall e :: e in entries ==> Writable(e)
    ensures ReadFile(FileOf(entries), map[]) == TableFrom(map[], entries)
  {
    ReadLines(entries, [], map[]);
    assert FileOf(entries) + [] == FileOf(entries);
  }

  // ------------------------------------------------------------ what it says

  /** The rows of a machine: every board and every node. */
  ghost predicate IsRow(m: Machine, r: Row)
    requires m.nodesPerBoard > 0
  {
    if r.BoardRow? then r.board < NumBoards(m) else r.node < m.numNodes
  }

  lemma {:induction false} NodeRowsAre(m: Machine, i: nat, j: nat, r: Row)
    requires Sized(m) && j <= m.nodesPerBoard
    ensures r in NodeRows(m, i, j) <==> r.NodeRow? && r.node < m.numNodes && r.node / m.nodesPerBoard == i && r.node % m.nodesPerBoard < j
  {
    if j > 0 {
      NodeRowsAre(m, i, j - 1, r);
      DivModOf(i, j - 1, m.nodesPerBoard);
      if r.NodeRow? { SplitNumber(m, r.node, i, j - 1); }
    }
  }

  lemma SplitNumber(m: Machine, n: nat, i: nat, j: nat)
    requires m.nodesPerBoard > 0
    ensures n / m.nodesPerBoard == i && n % m.nodesPerBoard == j ==> n == NodeAt(m, i, j)
  {
    DivBound(n, m.nodesPerBoard, 0);
  }

  lemma InRows(m: Machine, boards: nat, r: Row)
    ensures r in Rows(m, boards) <==>
            boards > 0 && (r in Rows(m, boards - 1) || r == BoardRow(boards - 1) || r in NodeRows(m, boards - 1, m.nodesPerBoard))
  {
    hide NodeRows;
  }

  lemma {:induction false} RowsAre(m: Machine, boards: nat, r: Row)
    requires Sized(m)
    ensures r in Rows(m, boards) <==>
            if r.BoardRow? then r.board < boards else r.node < m.numNodes && r.node / m.nodesPerBoard < boards
  {
    hide NodeRows, Rows;
    InRows(m, boards, r);
    if boards > 0 {
      RowsAre(m, boards - 1, r);
      NodeRowsAre(m, boards - 1, m.nodesPerBoard, r);
      if r.NodeRow? { assert 0 <= r.node % m.nodesPerBoard < m.nodesPerBoard; }
    }
  }

  lemma AllRows(m: Machine, r: Row)
    requires Sized(m)
    ensures r in Rows(m, NumBoards(m)) <==> IsRow(m, r)
  {
    RowsAre(m, NumBoards(m), r);
    if r.NodeRow? { BoardOfNode(m, r.node); }
  }

  lemma BoardOfNode(m: Machine, n: nat)
    requires Sized(m)
    ensures n < m.numNodes ==> n / m.nodesPerBoard < NumBoards(m)
  {
    BoardBegins(m, n / m.nodesPerBoard);
    DivBound(n, m.nodesPerBoard, 0);
  }

  /** Different rows have different names. */
  lemma RowNamesDiffer(m: Machine, r: Row, u: Row)
    requires Sized(m) && RowName(m, r) == RowName(m, u)
    ensures r == u
  {
    match r
    case BoardRow(i) =>
      DivBound(i, m.boardsPerCab, 0);
      if u.BoardRow? {
        BoardNamesDiffer(Place(i / m.boardsPerCab, i % m.boardsPerCab, 0), Place(u.board / m.boardsPerCab, u.board % m.boardsPerCab, 0));
        DivBound(u.board, m.boardsPerCab, 0);
      } else {
        NodeIsNoBoard(PlaceOf(m, u.node), Place(i / m.boardsPerCab, i % m.boardsPerCab, 0));
      }
    case NodeRow(n) =>
      if u.NodeRow? {
        NodeNamesDiffer(PlaceOf(m, n), PlaceOf(m, u.node));
        PositionOfPlace(m, n);
        PositionOfPlace(m, u.node);
      } else {
        NodeIsNoBoard(PlaceOf(m, n), Place(u.board / m.boardsPerCab, u.board % m.boardsPerCab, 0));
      }
  }

  lemma RowWritable(m: Machine, r: Row)
    requires Sized(m)
    ensures Writable(RowEntry(m, r))
  {
    match r
    case BoardRow(i) => NameWritable(Place(i / m.boardsPerCab, i % m.boardsPerCab, 0));
    case NodeRow(n) => NameWritable(PlaceOf(m, n));
  }

  lemma NameWritable(p: Place)
    ensures ':' !in NodeName(p) && '\n' !in NodeName(p)
    ensures ':' !in BoardName(p.cab, p.board) && '\n' !in BoardName(p.cab, p.board)
  {
    PartWritable(Plat, 0);
    PartWritable(Cab, p.cab);
    PartWritable(Board, p.board);
    PartWritable(Node, p.node);
  }

  lemma PartWritable(k: Kind, n: nat)
    ensures ':' !in WritePart(k, n) && '\n' !in WritePart(k, n)
  {
    KindOfText(k);
    DigitsFree(n);
  }

  /** Lookup in a table whose lines have different names. */
  lemma {:induction false} TableHas(entries: seq<Entry>, k: nat)
    requires k < |entries| && forall i, j :: 0 <= i < |entries| && 0 <= j < |entries| && entries[i].name == entries[j].name ==> entries[i] == entries[j]
    ensures entries[k].name in TableFrom(map[], entries) && TableFrom(map[], entries)[entries[k].name] == AppId(entries[k].rtr, entries[k].srv)
  {
    var last := |entries| - 1;
    if entries[k].name != entries[last].name { TableHas(entries[..last], k); }
  }

  lemma {:induction false} TableOnly(entries: seq<Entry>, s: string) returns (k: nat)
    requires s in TableFrom(map[], entries)
    ensures k < |entries| && entries[k].name == s
  {
    var last := |entries| - 1;
    if entries[last].name == s { k := last; } else { k := TableOnly(entries[..last], s); }
  }

  /** The table a router reads from the generated file. */
  ghost function RoutesOf(m: Machine): map<string, nat>
    requires Sized(m)
  {
    ReadFile(FileOf(RowEntries(m, Rows(m, NumBoards(m)))), map[])
  }

  lemma RoutesAreTable(m: Machine)
    requires Sized(m)
    ensures RoutesOf(m) == TableFrom(map[], RowEntries(m, Rows(m, NumBoards(m))))
  {
    var rows := Rows(m, NumBoards(m));
    forall e | e in RowEntries(m, rows) ensures Writable(e) {
      var k :| 0 <= k < |rows| && e == RowEntries(m, rows)[k];
      RowWritable(m, rows[k]);
    }
    FileRoundTrip(RowEntries(m, rows));
  }

  /** Every node is server n % nodesPerBoard + 1 of router n / nodesPerBoard, and every board
      is server 0 of the router with its number. */
  lemma RouteOfRow(m: Machine, r: Row)
    requires Sized(m) && IsRow(m, r)
    ensures RowName(m, r) in RoutesOf(m) && RoutesOf(m)[RowName(m, r)] == AppId(RowEntry(m, r).rtr, RowEntry(m, r).srv)
  {
    RoutesAreTable(m);
    AllRows(m, r);
    var rows := Rows(m, NumBoards(m));
    var k :| 0 <= k < |rows| && rows[k] == r;
    RowsTable(m, rows, k);
  }

  lemma RowsTable(m: Machine, rows: seq<Row>, k: nat)
    requires Sized(m) && k < |rows|
    ensures var e := RowEntry(m, rows[k]);
            e.name in TableFrom(map[], RowEntries(m, rows)) && TableFrom(map[], RowEntries(m, rows))[e.name] == AppId(e.rtr, e.srv)
  {
    var entries := RowEntries(m, rows);
    forall i, j | 0 <= i < |entries| && 0 <= j < |entries| && entries[i].name == entries[j].name ensures entries[i] == entries[j] {
      RowNamesDiffer(m, rows[i], rows[j]);
    }
    TableHas(entries, k);
  }

  /** No other name is routed. */
  lemma RoutedIsRow(m: Machine, s: string) returns (r: Row)
    requires Sized(m) && s in RoutesOf(m)
    ensures IsRow(m, r) && RowName(m, r) == s
  {
    RoutesAreTable(m);
    var rows := Rows(m, NumBoards(m));
    var k := TableOnly(RowEntries(m, rows), s);
    r := rows[k];
    AllRows(m, r);
  }

  /** No two names share an AppID, as long as a board's servers fit in 32 bits. */
  lemma RoutesDistinct(m: Machine, s: string, t: string)
    requires Sized(m) && m.nodesPerBoard < SELF && s in RoutesOf(m) && t in RoutesOf(m)
    requires RoutesOf(m)[s] == RoutesOf(m)[t]
    ensures s == t
  {
    var r := RoutedIsRow(m, s);
    var u := RoutedIsRow(m, t);
    RouteOfRow(m, r);
    RouteOfRow(m, u);
    SameIdSameRow(m, r, u);
  }

  lemma SameIdSameRow(m: Machine, r: Row, u: Row)
    requires Sized(m) && m.nodesPerBoard < SELF
    requires AppId(RowEntry(m, r).rtr, RowEntry(m, r).srv) == AppId(RowEntry(m, u).rtr, RowEntry(m, u).srv)
    ensures r == u
  {
    RowSrv(m, r);
    RowSrv(m, u);
    AppIdParts(RowEntry(m, r).rtr, RowEntry(m, r).srv);
    AppIdParts(RowEntry(m, u).rtr, RowEntry(m, u).srv);
  }

  lemma RowSrv(m: Machine, r: Row)
    requires Sized(m)
    ensures RowEntry(m, r).srv <= m.nodesPerBoard && (r.BoardRow? <==> RowEntry(m, r).srv == 0)
    ensures r == if r.BoardRow? then BoardRow(RowEntry(m, r).rtr) else NodeRow(NodeAt(m, RowEntry(m, r).rtr, RowEntry(m, r).srv - 1))
  {
    if r.NodeRow? { DivBound(r.node, m.nodesPerBoard, 0); }
  }
}
