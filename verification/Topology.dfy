/** The machine's sizes: nodes on boards, boards in cabinets, and the position of a name
    among all names of its type, for any sizes above zero, whether or not the last board and
    the last cabinet are full. */
module Topology {
  import opened Common

  /** POWERRT_NUMNODES, POWERRT_NODES_PER_BOARD and POWERRT_BOARDS_PER_CAB. */
  datatype Machine = Machine(numNodes: nat, nodesPerBoard: nat, boardsPerCab: nat)

  ghost predicate Sized(m: Machine) { m.numNodes > 0 && m.nodesPerBoard > 0 && m.boardsPerCab > 0 }

  /** The division with one more for a rest, as the script writes it. */
  function CeilDiv(a: nat, b: nat): nat
    requires b > 0
  {
    a / b + if a % b != 0 then 1 else 0
  }

  function NumBoards(m: Machine): nat
    requires m.nodesPerBoard > 0
  {
    CeilDiv(m.numNodes, m.nodesPerBoard)
  }

  function NumCabs(m: Machine): nat
    requires m.nodesPerBoard > 0 && m.boardsPerCab > 0
  {
    CeilDiv(NumBoards(m), m.boardsPerCab)
  }

  // ------------------------------------------------------------ arithmetic

  lemma DivBound(a: nat, b: nat, q: nat)
    requires b > 0
    ensures a < q * b <==> a / b < q
    ensures a == a / b * b + a % b
  {
    if a < q * b && q <= a / b { MulMono(q, a / b, b); }
    if a / b < q { MulMono(a / b + 1, q, b); }
  }

  lemma MulMono(x: nat, y: nat, b: nat)
    requires x <= y
    ensures x * b <= y * b
  {}

  /** CeilDiv is the least count of groups of b that hold a. */
  lemma CeilIsLeast(a: nat, b: nat, k: nat)
    requires b > 0
    ensures k < CeilDiv(a, b) <==> k * b < a
  {
    DivBound(a, b, k);
    DivBound(a, b, a / b);
    if k < a / b { MulMono(k + 1, a / b, b); }
  }

  /** One position from two: the only pair with this value. */
  lemma DivModOf(q: nat, r: nat, b: nat)
    requires r < b
    ensures (q * b + r) / b == q && (q * b + r) % b == r
  {
    var a := q * b + r;
    DivBound(a, b, q);
    DivBound(a, b, q + 1);
    assert (q + 1) * b == q * b + b;
  }

  lemma DivDiv(n: nat, a: nat, b: nat)
    requires a > 0 && b > 0
    ensures a * b > 0 && n / (a * b) == n / a / b
  {
    MulPos(a, b);
    var q := n / a / b;
    DivBound(n, a, n / a);
    DivBound(n / a, b, q);
    // n = (q b + s) a + r, with s a + r < a b
    var s, r := n / a % b, n % a;
    MulMono(s, b - 1, a);
    assert n == (q * b + s) * a + r;
    Regroup(q, b, s, a);
    assert (b - 1) * a == b * a - a;
    assert a * b == b * a;
    DivModOf(q, s * a + r, a * b);
  }

  lemma Regroup(q: nat, b: nat, s: nat, a: nat)
    ensures (q * b + s) * a == q * (a * b) + s * a
  {
    assert (q * b + s) * a == q * b * a + s * a;
    assert q * b * a == q * (a * b);
  }

  lemma MulPos(a: nat, b: nat)
    requires a > 0 && b > 0
    ensures a * b > 0
  {
    MulMono(1, a, b);
  }

  // ------------------------------------------------------- how many children

  /** calcNumChildren: the children of the object at position pos of its type, when there are
      total children of all of them and per for each but the last; None where the script
      ends with an error. */
  function NumChildren(pos: int, total: nat, per: nat): Option<nat> {
    if (pos + 1) * per <= total then Some(per)
    else if (pos + 1) * per < total + per then Some(total % per)
    else None
  }

  ghost function SumChildren(count: nat, total: nat, per: nat): nat
    requires per > 0
  {
    if count == 0 then 0 else
      SumChildren(count - 1, total, per) + match NumChildren(count - 1, total, per) case Some(c) => c case None => 0
  }

  /** The script rejects exactly the positions at or beyond the number of parents. */
  lemma InRangeIff(pos: nat, total: nat, per: nat)
    requires per > 0
    ensures NumChildren(pos, total, per).Some? <==> pos < CeilDiv(total, per)
    ensures NumChildren(pos, total, per).Some? ==> 0 < NumChildren(pos, total, per).value <= per
                                                   && pos * per + NumChildren(pos, total, per).value <= total
  {
    CeilIsLeast(total, per, pos);
    assert (pos + 1) * per == pos * per + per;
    if NumChildren(pos, total, per).Some? && (pos + 1) * per > total {
      DivModOf(pos, total - pos * per, per);
    }
  }

  /** A child index is below the count of its parent exactly when the child's own position
      is below the total. */
  lemma ChildExistsIff(pos: nat, k: nat, total: nat, per: nat)
    requires per > 0
    ensures NumChildren(pos, total, per).Some? && k < NumChildren(pos, total, per).value
            <==> k < per && pos * per + k < total
  {
    assert (pos + 1) * per == pos * per + per;
    if (pos + 1) * per > total && pos * per < total {
      DivModOf(pos, total - pos * per, per);
    }
  }

  /** The counts of all parents of a level add up to the total of the next level. */
  lemma {:induction false} ChildrenAddUp(total: nat, per: nat, count: nat)
    requires per > 0 && count <= CeilDiv(total, per)
    ensures SumChildren(count, total, per) == if count < CeilDiv(total, per) then count * per else total
  {
    if count > 0 {
      var pos := count - 1;
      ChildrenAddUp(total, per, pos);
      InRangeIff(pos, total, per);
      CeilIsLeast(total, per, count);
      assert (pos + 1) * per == pos * per + per;
      if (pos + 1) * per > total { DivModOf(pos, total - pos * per, per); }
    } else {
      CeilIsLeast(total, per, 0);
    }
  }

  lemma EveryLevelAddsUp(m: Machine)
    requires Sized(m)
    ensures SumChildren(NumBoards(m), m.numNodes, m.nodesPerBoard) == m.numNodes
    ensures SumChildren(NumCabs(m), NumBoards(m), m.boardsPerCab) == NumBoards(m)
    ensures NumCabs(m) > 0 && NumChildren(0, NumCabs(m), NumCabs(m)) == Some(NumCabs(m))
  {
    ChildrenAddUp(m.numNodes, m.nodesPerBoard, NumBoards(m));
    ChildrenAddUp(NumBoards(m), m.boardsPerCab, NumCabs(m));
    CeilIsLeast(m.numNodes, m.nodesPerBoard, 0);
    CeilIsLeast(NumBoards(m), m.boardsPerCab, 0);
  }

  // ---------------------------------------------------------- node positions

  /** The indices of a node in its name. */
  datatype Place = Place(cab: nat, board: nat, node: nat)

  /** calcNodeRoot and calcBoardRoot. */
  function PlaceOf(m: Machine, n: nat): Place
    requires m.nodesPerBoard > 0 && m.boardsPerCab > 0
  {
    MulPos(m.nodesPerBoard, m.boardsPerCab);
    Place(n / (m.nodesPerBoard * m.boardsPerCab), n / m.nodesPerBoard % m.boardsPerCab, n % m.nodesPerBoard)
  }

  /** calcTypePos( objMap, name, 'node' ) + num. */
  function Position(m: Machine, p: Place): nat {
    p.cab * (m.nodesPerBoard * m.boardsPerCab) + p.board * m.nodesPerBoard + p.node
  }

  /** The board's position, as calcTypePos( objMap, name, 'board' ) + num gives it. */
  function BoardPosition(m: Machine, cab: nat, board: nat): nat { cab * m.boardsPerCab + board }

  lemma PositionByBoard(m: Machine, p: Place)
    ensures Position(m, p) == BoardPosition(m, p.cab, p.board) * m.nodesPerBoard + p.node
  {
    Regroup(p.cab, m.boardsPerCab, p.board, m.nodesPerBoard);
  }

  /** From a node's number to its name and back. */
  lemma PositionOfPlace(m: Machine, n: nat)
    requires Sized(m)
    ensures Position(m, PlaceOf(m, n)) == n
    ensures PlaceOf(m, n).node < m.nodesPerBoard && PlaceOf(m, n).board < m.boardsPerCab
    ensures BoardPosition(m, PlaceOf(m, n).cab, PlaceOf(m, n).board) == n / m.nodesPerBoard
  {
    var p := PlaceOf(m, n);
    DivDiv(n, m.nodesPerBoard, m.boardsPerCab);
    DivBound(n, m.nodesPerBoard, 0);
    DivBound(n / m.nodesPerBoard, m.boardsPerCab, 0);
    PositionByBoard(m, p);
  }

  /** From a name to its position and back. */
  lemma PlaceOfPosition(m: Machine, p: Place)
    requires Sized(m) && p.node < m.nodesPerBoard && p.board < m.boardsPerCab
    ensures PlaceOf(m, Position(m, p)) == p
  {
    var n := Position(m, p);
    var b := BoardPosition(m, p.cab, p.board);
    PositionByBoard(m, p);
    DivModOf(b, p.node, m.nodesPerBoard);
    DivModOf(p.cab, p.board, m.boardsPerCab);
    DivDiv(n, m.nodesPerBoard, m.boardsPerCab);
  }

  // --------------------------------------------------------- accepted names

  /** _checkName of a node name: each index is below the number of children that its parent
      has, from the node up to the platform; finding that number can itself fail. */
  predicate Accepted(m: Machine, p: Place)
    requires m.nodesPerBoard > 0 && m.boardsPerCab > 0 && NumCabs(m) > 0
  {
    && (var c := NumChildren(BoardPosition(m, p.cab, p.board), m.numNodes, m.nodesPerBoard); c.Some? && p.node < c.value)
    && (var c := NumChildren(p.cab, NumBoards(m), m.boardsPerCab); c.Some? && p.board < c.value)
    && (var c := NumChildren(0, NumCabs(m), NumCabs(m)); c.Some? && p.cab < c.value)
  }

  /** Accepted are exactly the names of the nodes below numNodes. */
  lemma AcceptedIff(m: Machine, p: Place)
    requires Sized(m)
    ensures NumCabs(m) > 0
    ensures Accepted(m, p) <==> Position(m, p) < m.numNodes && PlaceOf(m, Position(m, p)) == p
  {
    EveryLevelAddsUp(m);
    var b := BoardPosition(m, p.cab, p.board);
    ChildExistsIff(b, p.node, m.numNodes, m.nodesPerBoard);
    ChildExistsIff(p.cab, p.board, NumBoards(m), m.boardsPerCab);
    CeilIsLeast(NumBoards(m), m.boardsPerCab, p.cab);
    CeilIsLeast(m.numNodes, m.nodesPerBoard, b);
    PositionByBoard(m, p);
    if p.node < m.nodesPerBoard && p.board < m.boardsPerCab { PlaceOfPosition(m, p); }
    PositionOfPlace(m, Position(m, p));
  }

  lemma EveryNodeAccepted(m: Machine, n: nat)
    requires Sized(m)
    ensures NumCabs(m) > 0 && (n < m.numNodes <==> Accepted(m, PlaceOf(m, n)))
  {
    EveryLevelAddsUp(m);
    PositionOfPlace(m, n);
    AcceptedIff(m, PlaceOf(m, n));
  }
}
