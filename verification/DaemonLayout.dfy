/** The routers that the daemon script starts, and their links. */
module DaemonLayout {
  import opened Topology
  import opened Names
  import opened Routing
  import opened Fabric
  import opened RouterNode
  import opened RouteTable

  const PORT: nat := 16000

  /** One --rtr.routerInfo: hosts are named by their node numbers. */
  datatype LinkInfo = LinkInfo(myListenPort: nat, otherHost: nat, otherHostPort: nat, nidStart: nat, nidStop: nat)

  /** The node of the root router. */
  function RootNode(m: Machine): nat
    requires Sized(m)
  {
    (if m.numNodes < m.nodesPerBoard then m.numNodes else m.nodesPerBoard) - 1
  }

  /** im_a_rtr. */
  predicate ImARtr(m: Machine, n: nat)
    requires Sized(m)
  {
    n == RootNode(m) || n % m.nodesPerBoard == 0
  }

  /** The router id that configRtr gives node n. */
  function RouterIdAt(m: Machine, n: nat): nat
    requires Sized(m)
  {
    if n == RootNode(m) then m.numNodes / m.nodesPerBoard + (if m.numNodes > 1 && m.numNodes % m.nodesPerBoard != 0 then 1 else 0)
    else n / m.nodesPerBoard
  }

  function RootLink(m: Machine, i: nat): LinkInfo { LinkInfo(PORT + i, i * m.nodesPerBoard, PORT, i, i) }

  /** calcRtrRoot. */
  method CalcRtrRoot(m: Machine) returns (links: seq<LinkInfo>)
    requires Sized(m)
    ensures links == RootLinks(m) && |links| == if m.numNodes == 1 then 0 else NumBoards(m)
    ensures forall i :: 0 <= i < |links| ==> links[i] == LinkInfo(16000 + i, i * m.nodesPerBoard, 16000, i, i)
  {
    links := [];
    if m.numNodes == 1 { return; }
    var numLinks := m.numNodes / m.nodesPerBoard;
    if m.numNodes % m.nodesPerBoard != 0 { numLinks := numLinks + 1; }
    var i := 0;
    while i < numLinks
      invariant 0 <= i <= numLinks && |links| == i && forall k :: 0 <= k < i ==> links[k] == RootLink(m, k)
    {
      links := links + [LinkInfo(PORT + i, i * m.nodesPerBoard, PORT, i, i)];
      i := i + 1;
    }
  }

  function RootLinks(m: Machine): seq<LinkInfo>
    requires Sized(m)
  {
    if m.numNodes == 1 then [] else seq(NumBoards(m), i requires 0 <= i => RootLink(m, i))
  }

  /** calcRtrLeaf: its one link has no range. */
  function LeafLinks(m: Machine, n: nat): seq<LinkInfo>
    requires Sized(m)
  {
    [LinkInfo(PORT, RootNode(m), PORT + n / m.nodesPerBoard, 0, 0)]
  }

  function LinksAt(m: Machine, n: nat): seq<LinkInfo>
    requires Sized(m)
  {
    if n == RootNode(m) then RootLinks(m) else LeafLinks(m, n)
  }

  /** Link k of node n connects to a router that listens for it: the id of that router. */
  ghost predicate Meets(m: Machine, n: nat, k: nat, peer: nat)
    requires Sized(m) && k < |LinksAt(m, n)|
  {
    var l := LinksAt(m, n)[k];
    && l.otherHost < m.numNodes && ImARtr(m, l.otherHost) && RouterIdAt(m, l.otherHost) == peer
    && exists j :: 0 <= j < |LinksAt(m, l.otherHost)| && Back(LinksAt(m, l.otherHost)[j], l, n)
  }

  /** The other end's link listens on the port and connects back. */
  ghost predicate Back(far: LinkInfo, near: LinkInfo, n: nat) {
    far.myListenPort == near.otherHostPort && far.otherHost == n && far.otherHostPort == near.myListenPort
  }

  // --------------------------------------------------------------- the mesh

  /** The routers by their ids: below NumBoards the board routers, then the root. */
  function MeshOf(m: Machine): Mesh
    requires Sized(m)
  {
    if m.numNodes == 1 then map[0 := []] else map r: nat | 0 <= r <= NumBoards(m) :: LinksOf(NumBoards(m), r)
  }

  /** The links of router r among `boards` board routers and the root. */
  function LinksOf(boards: nat, r: nat): (links: seq<Link>)
    ensures r < boards ==> links == [Link(boards, 0, 0)]
    ensures r >= boards ==> |links| == boards && forall i :: 0 <= i < boards ==> links[i] == Link(i, i, i)
  {
    if r < boards then [Link(boards, 0, 0)] else seq(boards, i requires 0 <= i => Link(i, i, i))
  }

  /** The node that router r runs on. */
  function NodeOf(m: Machine, r: nat): nat
    requires Sized(m)
  {
    if m.numNodes == 1 || r == NumBoards(m) then RootNode(m) else r * m.nodesPerBoard
  }

  lemma RootApart(m: Machine)
    requires Sized(m) && m.nodesPerBoard >= 2 && m.numNodes >= 2
    ensures RootNode(m) < m.numNodes && RootNode(m) / m.nodesPerBoard == 0 && RootNode(m) % m.nodesPerBoard != 0
    ensures RouterIdAt(m, RootNode(m)) == NumBoards(m)
  {
    DivModOf(0, RootNode(m), m.nodesPerBoard);
  }

  lemma BoardNode(m: Machine, i: nat)
    requires Sized(m) && m.nodesPerBoard >= 2 && m.numNodes >= 2 && i < NumBoards(m)
    ensures i * m.nodesPerBoard < m.numNodes && i * m.nodesPerBoard != RootNode(m)
    ensures ImARtr(m, i * m.nodesPerBoard) && RouterIdAt(m, i * m.nodesPerBoard) == i
    ensures LinksAt(m, i * m.nodesPerBoard) == [LinkInfo(PORT, RootNode(m), PORT + i, 0, 0)]
  {
    CeilIsLeast(m.numNodes, m.nodesPerBoard, i);
    DivModOf(i, 0, m.nodesPerBoard);
    RootApart(m);
  }

  /** Exactly these routers are started, each once, under these ids. */
  lemma RoutersStarted(m: Machine, n: nat)
    requires Sized(m) && m.nodesPerBoard >= 2 && n < m.numNodes && ImARtr(m, n)
    ensures RouterIdAt(m, n) in MeshOf(m) && NodeOf(m, RouterIdAt(m, n)) == n
  {
    if m.numNodes >= 2 {
      RootApart(m);
      if n != RootNode(m) {
        BoardOfNode(m, n);
        DivBound(n, m.nodesPerBoard, 0);
      }
    }
  }

  lemma RouterRuns(m: Machine, r: nat)
    requires Sized(m) && m.nodesPerBoard >= 2 && r in MeshOf(m)
    ensures NodeOf(m, r) < m.numNodes && ImARtr(m, NodeOf(m, r)) && RouterIdAt(m, NodeOf(m, r)) == r
    ensures |LinksAt(m, NodeOf(m, r))| == |MeshOf(m)[r]|
  {
    if m.numNodes >= 2 {
      RootApart(m);
      if r < NumBoards(m) { BoardNode(m, r); }
    } else {
      OneNode(m);
    }
  }

  lemma OneNode(m: Machine)
    requires Sized(m) && m.nodesPerBoard >= 2 && m.numNodes == 1
    ensures RootNode(m) == 0 && RouterIdAt(m, 0) == 0 && LinksAt(m, 0) == [] && NumBoards(m) == 1
  {
    DivModOf(0, 1, m.nodesPerBoard);
  }

  /** The links really join the routers the mesh says, with the ranges it says. */
  lemma LinksMeet(m: Machine, r: nat, k: nat)
    requires Sized(m) && m.nodesPerBoard >= 2 && r in MeshOf(m) && k < |MeshOf(m)[r]|
    ensures k < |LinksAt(m, NodeOf(m, r))| && Meets(m, NodeOf(m, r), k, MeshOf(m)[r][k].peer)
    ensures r == NumBoards(m) ==> LinksAt(m, NodeOf(m, r))[k].nidStart == MeshOf(m)[r][k].nidStart
                                  && LinksAt(m, NodeOf(m, r))[k].nidStop == MeshOf(m)[r][k].nidStop
  {
    RouterRuns(m, r);
    RootApart(m);
    if r < NumBoards(m) {
      BoardNode(m, r);
      assert Back(LinksAt(m, RootNode(m))[r], LinksAt(m, NodeOf(m, r))[k], NodeOf(m, r));
    } else {
      BoardNode(m, k);
      assert Back(LinksAt(m, k * m.nodesPerBoard)[0], RootLinks(m)[k], RootNode(m));
    }
  }

  // ----------------------------------------------------------- it is a tree

  ghost function Star(m: Machine): Tree
    requires Sized(m)
  {
    if m.numNodes == 1 then Tree(0, map[], map[0 := 0]) else
      Tree(NumBoards(m), map r: nat | 0 <= r < NumBoards(m) :: ParentOf(NumBoards(m), r),
           map r: nat | 0 <= r <= NumBoards(m) :: DepthOf(NumBoards(m), r))
  }

  function ParentOf(boards: nat, r: nat): nat { if r < boards then boards else 0 }

  function DepthOf(boards: nat, r: nat): nat { if r < boards then 1 else 0 }

  /** Below a leaf there is only itself. */
  lemma BelowLeaf(m: Machine, r: nat, d: nat)
    requires Sized(m) && m.numNodes >= 2 && IsTree(Star(m), MeshOf(m).Keys) && r < NumBoards(m) && d in MeshOf(m).Keys
    ensures Below(Star(m), MeshOf(m).Keys, r, d) <==> r == d
  {
    assert !Below(Star(m), MeshOf(m).Keys, r, NumBoards(m));
  }

  /** The daemon's links follow a tree, so repeated sends deliver. */
  lemma LayoutFollowsTree(m: Machine)
    requires Sized(m) && m.nodesPerBoard >= 2
    ensures FollowsTree(MeshOf(m), Star(m))
    ensures ValidPlant(Plant(MeshOf(m), TreeDistances(MeshOf(m), Star(m))))
  {
    var t, ids := Star(m), MeshOf(m).Keys;
    CeilIsLeast(m.numNodes, m.nodesPerBoard, 0);
    assert IsTree(t, ids);
    forall r | r in ids ensures LinksFollow(MeshOf(m)[r], t, ids, r) {
      if m.numNodes >= 2 {
        if r == NumBoards(m) { RootFollows(m); } else { LeafFollows(m, r); }
      }
    }
    TreeConverges(MeshOf(m), t);
  }

  lemma RootFollows(m: Machine)
    requires Sized(m) && m.numNodes >= 2 && IsTree(Star(m), MeshOf(m).Keys)
    ensures LinksFollow(MeshOf(m)[NumBoards(m)], Star(m), MeshOf(m).Keys, NumBoards(m))
  {
    var t, ids, links := Star(m), MeshOf(m).Keys, MeshOf(m)[NumBoards(m)];
    forall i, d | 0 < i < |links| && d in ids
      ensures links[i].nidStart <= d <= links[i].nidStop <==> Below(t, ids, links[i].peer, d)
    {
      BelowLeaf(m, i, d);
    }
    forall c: nat | IsChild(t, NumBoards(m), c) ensures HasLink(links, c, 0) { assert links[c].peer == c; }
  }

  lemma LeafFollows(m: Machine, r: nat)
    requires Sized(m) && m.numNodes >= 2 && IsTree(Star(m), MeshOf(m).Keys) && r < NumBoards(m)
    ensures LinksFollow(MeshOf(m)[r], Star(m), MeshOf(m).Keys, r)
  {}

  /** From any router to any other: directly, or through the root and no other. */
  lemma TwoHops(m: Machine, r: nat, d: nat)
    requires Sized(m) && m.nodesPerBoard >= 2 && r in MeshOf(m) && d in MeshOf(m) && r != d
    ensures MeshOf(m)[r] != []
    ensures Next(MeshOf(m), r, d) == d || (Next(MeshOf(m), r, d) == NumBoards(m) && r < NumBoards(m) && d < NumBoards(m)
                                          && MeshOf(m)[NumBoards(m)] != [] && Next(MeshOf(m), NumBoards(m), d) == d)
  {
    CeilIsLeast(m.numNodes, m.nodesPerBoard, 0);
    if m.numNodes >= 2 {
      var b := NumBoards(m);
      var k := Choose(MeshOf(m)[b], d, 1);
      if d < b { assert d > 0 ==> MeshOf(m)[b][d].nidStart <= d <= MeshOf(m)[b][d].nidStop; }
    }
  }

  // ------------------------------------------- servers, routes and routers agree

  /** The host that configNode and configBoard name for the router of node n. */
  function RouterHost(m: Machine, n: nat): nat
    requires Sized(m)
  {
    n / m.nodesPerBoard * m.nodesPerBoard
  }

  /** A node's server connects to the very router that the route file gives for the name it
      announces. */
  lemma ServerMeetsRoute(m: Machine, n: nat)
    requires Sized(m) && m.nodesPerBoard >= 2 && m.nodesPerBoard < SELF && n < m.numNodes
    ensures RouterHost(m, n) < m.numNodes && ImARtr(m, RouterHost(m, n))
    ensures NodeName(PlaceOf(m, n)) in RoutesOf(m)
    ensures RouterIdAt(m, RouterHost(m, n)) == RtrId(RoutesOf(m)[NodeName(PlaceOf(m, n))]) == n / m.nodesPerBoard
    ensures RouterIdAt(m, RouterHost(m, n)) in MeshOf(m)
  {
    hide NodeName, PlaceOf, RtrId, RoutesOf;
    NodeRoute(m, n);
    BoardOfNode(m, n);
    if m.numNodes >= 2 {
      BoardNode(m, n / m.nodesPerBoard);
    } else {
      OneNode(m);
      DivModOf(0, 0, m.nodesPerBoard);
    }
  }

  lemma NodeRoute(m: Machine, n: nat)
    requires Sized(m) && m.nodesPerBoard < SELF && n < m.numNodes
    ensures NodeName(PlaceOf(m, n)) in RoutesOf(m)
    ensures RtrId(RoutesOf(m)[NodeName(PlaceOf(m, n))]) == n / m.nodesPerBoard
    ensures ServerId(RoutesOf(m)[NodeName(PlaceOf(m, n))]) == n % m.nodesPerBoard + 1
  {
    RouteOfRow(m, NodeRow(n));
    RowSrv(m, NodeRow(n));
    AppIdParts(n / m.nodesPerBoard, n % m.nodesPerBoard + 1);
  }

  /** Every router that the route file names is started exactly when a board has more than
      one node: with one node to a board the root router takes the place of router 0. */
  lemma RoutersExistIff(m: Machine)
    requires Sized(m)
    ensures (forall i: nat :: i < NumBoards(m) ==> Started(m, i)) <==> m.nodesPerBoard >= 2
  {
    CeilIsLeast(m.numNodes, m.nodesPerBoard, 0);
    if m.nodesPerBoard >= 2 {
      forall i: nat | i < NumBoards(m) ensures Started(m, i) {
        assert i in MeshOf(m) by { if m.numNodes == 1 { OneNode(m); } }
        RouterRuns(m, i);
      }
    } else {
      forall n: nat | n < m.numNodes ensures RouterIdAt(m, n) != 0 {}
      assert !Started(m, 0);
    }
  }

  /** Some node runs router i. */
  ghost predicate Started(m: Machine, i: nat)
    requires Sized(m)
  {
    exists n: nat :: n < m.numNodes && ImARtr(m, n) && RouterIdAt(m, n) == i
  }
}
