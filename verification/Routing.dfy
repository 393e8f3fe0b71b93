/** Choosing the next router: TreeCore's scan over its links, and what makes
    repeated scans bring an event to the router it is addressed to. */
module Routing {

  /** One entry of TreeCore::m_rtrLinks: the router at the far end and the range
      of router ids that is reached through it.  Link 0 carries no range of its
      own (only links above 0 have one read from their arguments). */
  datatype Link = Link(peer: nat, nidStart: nat, nidStop: nat)

  /** The scan of TreeCore::getChannel from link i on: index of the link taken. */
  function Choose(links: seq<Link>, id: nat, i: nat): (k: nat)
    requires 1 <= i <= |links|
    ensures k < |links|
    ensures k == 0 ==> forall j :: i <= j < |links| ==> !(links[j].nidStart <= id <= links[j].nidStop)
    ensures k > 0 ==> i <= k && links[k].nidStart <= id <= links[k].nidStop
                      && forall j :: i <= j < k ==> !(links[j].nidStart <= id <= links[j].nidStop)
    decreases |links| - i
  {
    if i == |links| then 0
    else if links[i].nidStart <= id <= links[i].nidStop then i
    else Choose(links, id, i + 1)
  }

  /** TreeCore::getChannel: the first link above 0 whose range holds the id,
      link 0 when there is none, and -1 for the NULL of a router without links. */
  method GetChannel(links: seq<Link>, id: nat) returns (k: int)
    ensures links == [] ==> k == -1
    ensures links != [] ==> k == Choose(links, id, 1)
  {
    if |links| == 0 { return -1; }
    var i := 1;
    while i < |links|
      invariant 1 <= i <= |links|
      invariant Choose(links, id, 1) == Choose(links, id, i)
    {
      if links[i].nidStart <= id <= links[i].nidStop {
        return i;
      }
      i := i + 1;
    }
    return 0;
  }

  /** All routers with their links, by router id. */
  type Mesh = map<nat, seq<Link>>

  /** The router that gets an event for router d which router r passes on. */
  function Next(m: Mesh, r: nat, d: nat): nat
    requires r in m && m[r] != []
  {
    m[r][Choose(m[r], d, 1)].peer
  }

  /** The hop from r towards d stays inside the mesh and comes nearer. */
  ghost predicate Nearer(m: Mesh, dist: map<(nat, nat), nat>, r: nat, d: nat)
    requires r in m.Keys
  {
    (r, d) in dist &&
    (r != d ==> m[r] != [] && Next(m, r, d) in m.Keys && (Next(m, r, d), d) in dist
                && dist[(Next(m, r, d), d)] < dist[(r, d)])
  }

  /** A distance table under which every hop between routers of the mesh comes nearer. */
  ghost predicate Converges(m: Mesh, dist: map<(nat, nat), nat>) {
    forall r, d {:trigger Nearer(m, dist, r, d)} :: r in m.Keys && d in m.Keys ==> Nearer(m, dist, r, d)
  }

  // -------------------------------------------------- any tree of routers

  /** parent of each router but the root; depth makes it a tree. */
  datatype Tree = Tree(root: nat, parent: map<nat, nat>, depth: map<nat, nat>)

  ghost predicate IsTree(t: Tree, ids: set<nat>) {
    && t.root in ids
    && t.depth.Keys == ids
    && t.parent.Keys == ids - {t.root}
    && t.depth[t.root] == 0
    && forall r :: r in t.parent ==> t.parent[r] in ids && t.depth[r] == t.depth[t.parent[r]] + 1
  }

  /** d lies at or below r. */
  ghost predicate Below(t: Tree, ids: set<nat>, r: nat, d: nat)
    requires IsTree(t, ids) && d in ids
    decreases t.depth[d]
  {
    r == d || (d != t.root && Below(t, ids, r, t.parent[d]))
  }

  /** The links of router r follow the tree: link 0 leads to the parent (at the root
      it leads to some child), and a link above 0 leads to a child and carries exactly
      the ids at or below that child.  Every child has its link. */
  ghost predicate LinksFollow(links: seq<Link>, t: Tree, ids: set<nat>, r: nat)
    requires IsTree(t, ids) && r in ids
  {
    && (r != t.root ==> links != [] && links[0].peer == t.parent[r])
    && (forall i :: 0 <= i < |links| && (i > 0 || r == t.root) ==> IsChild(t, r, links[i].peer))
    && (forall i, d :: 0 < i < |links| && d in ids ==>
          (links[i].nidStart <= d <= links[i].nidStop <==> Below(t, ids, links[i].peer, d)))
    && (forall c :: IsChild(t, r, c) ==> HasLink(links, c, if r == t.root then 0 else 1))
  }

  ghost predicate IsChild(t: Tree, r: nat, c: nat) { c in t.parent && t.parent[c] == r }

  ghost predicate HasLink(links: seq<Link>, c: nat, from: nat) {
    exists i :: from <= i < |links| && links[i].peer == c
  }

  ghost predicate FollowsTree(m: Mesh, t: Tree) {
    IsTree(t, m.Keys) && forall r :: r in m.Keys ==> LinksFollow(m[r], t, m.Keys, r)
  }

  ghost function TreeDist(t: Tree, ids: set<nat>, r: nat, d: nat): nat
    requires IsTree(t, ids) && r in ids && d in ids
  {
    if Below(t, ids, r, d) && t.depth[r] <= t.depth[d] then t.depth[d] - t.depth[r] else t.depth[r] + t.depth[d] + 1
  }

  lemma {:induction false} BelowIsDeeper(t: Tree, ids: set<nat>, r: nat, d: nat)
    requires IsTree(t, ids) && d in ids && Below(t, ids, r, d)
    ensures r in ids && t.depth[r] <= t.depth[d] && (t.depth[r] == t.depth[d] ==> r == d)
    decreases t.depth[d]
  {
    if r != d { BelowIsDeeper(t, ids, r, t.parent[d]); }
  }

  /** Some child of r leads down to any d strictly below r. */
  lemma {:induction false} ChildTowards(t: Tree, ids: set<nat>, r: nat, d: nat) returns (c: nat)
    requires IsTree(t, ids) && d in ids && Below(t, ids, r, d) && r != d
    ensures c in t.parent && t.parent[c] == r && Below(t, ids, c, d)
    decreases t.depth[d]
  {
    if t.parent[d] == r { c := d; } else { c := ChildTowards(t, ids, r, t.parent[d]); }
  }

  /** Everything lies below the root. */
  lemma {:induction false} RootAbove(t: Tree, ids: set<nat>, d: nat)
    requires IsTree(t, ids) && d in ids
    ensures Below(t, ids, t.root, d)
    decreases t.depth[d]
  {
    if d != t.root { RootAbove(t, ids, t.parent[d]); }
  }

  /** The link taken towards a router below leads to the child above it. */
  lemma DownHop(links: seq<Link>, t: Tree, ids: set<nat>, r: nat, d: nat)
    requires IsTree(t, ids) && r in ids && d in ids && r != d
    requires LinksFollow(links, t, ids, r) && Below(t, ids, r, d)
    ensures links != []
    ensures IsChild(t, r, links[Choose(links, d, 1)].peer) && Below(t, ids, links[Choose(links, d, 1)].peer, d)
  {
    var c := ChildTowards(t, ids, r, d);
    assert IsChild(t, r, c);
    var i :| (if r == t.root then 0 else 1) <= i < |links| && links[i].peer == c;
    var k := Choose(links, d, 1);
    if k == 0 { assert i == 0; }
  }

  /** The link taken towards a router that is not below leads to the parent. */
  lemma UpHop(links: seq<Link>, t: Tree, ids: set<nat>, r: nat, d: nat)
    requires IsTree(t, ids) && r in ids && d in ids
    requires LinksFollow(links, t, ids, r) && !Below(t, ids, r, d)
    ensures r != t.root && links != [] && links[Choose(links, d, 1)].peer == t.parent[r]
  {
    RootAbove(t, ids, d);
    var k := Choose(links, d, 1);
    if k > 0 {
      assert IsChild(t, r, links[k].peer);
      BelowTransitive(t, ids, r, links[k].peer, d);
    }
  }

  /** One hop in a mesh that follows a tree: down to the child that leads to d when
      d is below, otherwise up; either way nearer. */
  lemma TreeHop(m: Mesh, t: Tree, r: nat, d: nat)
    requires IsTree(t, m.Keys) && r in m.Keys && d in m.Keys && r != d && LinksFollow(m[r], t, m.Keys, r)
    ensures m[r] != [] && Next(m, r, d) in m.Keys
    ensures Below(t, m.Keys, r, d) ==> IsChild(t, r, Next(m, r, d)) && Below(t, m.Keys, Next(m, r, d), d)
    ensures !Below(t, m.Keys, r, d) ==> r != t.root && Next(m, r, d) == t.parent[r]
    ensures TreeDist(t, m.Keys, Next(m, r, d), d) < TreeDist(t, m.Keys, r, d)
  {
    if Below(t, m.Keys, r, d) {
      DownHop(m[r], t, m.Keys, r, d);
      BelowIsDeeper(t, m.Keys, r, d);
      BelowIsDeeper(t, m.Keys, Next(m, r, d), d);
    } else {
      UpHop(m[r], t, m.Keys, r, d);
    }
  }

  lemma {:induction false} BelowTransitive(t: Tree, ids: set<nat>, r: nat, c: nat, d: nat)
    requires IsTree(t, ids) && d in ids && c in t.parent && t.parent[c] == r && Below(t, ids, c, d)
    ensures Below(t, ids, r, d)
    decreases t.depth[d]
  {
    if c != d { BelowTransitive(t, ids, r, c, t.parent[d]); }
  }

  ghost function TreeDistances(m: Mesh, t: Tree): (dist: map<(nat, nat), nat>)
    requires IsTree(t, m.Keys)
    ensures forall r, d :: r in m.Keys && d in m.Keys ==> (r, d) in dist && dist[(r, d)] == TreeDist(t, m.Keys, r, d)
  {
    map r, d | r in m.Keys && d in m.Keys :: (r, d) := TreeDist(t, m.Keys, r, d)
  }

  /** Any mesh whose links follow a tree delivers. */
  lemma TreeConverges(m: Mesh, t: Tree)
    requires FollowsTree(m, t)
    ensures Converges(m, TreeDistances(m, t))
  {
    forall r, d | r in m.Keys && d in m.Keys
      ensures Nearer(m, TreeDistances(m, t), r, d)
    {
      if r != d { TreeHop(m, t, r, d); }
    }
  }
}
