/** Rewriting the hardware tree in place: hoisting and pruning. */
module Hwloc {
  import Common

  datatype Kind = Mem | Other(code: nat)

  class TreeNode {
    const kind: Kind
    var parent: TreeNode?
    var children: seq<TreeNode>

    constructor (kind: Kind, parent: TreeNode?)
      ensures this.kind == kind && this.parent == parent && children == []
    {
      this.kind, this.parent, this.children := kind, parent, [];
    }
  }

  /** A tree of nodes, as a value. */
  datatype Tree = Tree(node: TreeNode, kids: seq<Tree>)

  ghost function Roots(ts: seq<Tree>): (s: seq<TreeNode>)
    ensures |s| == |ts| && forall i :: 0 <= i < |ts| ==> s[i] == ts[i].node
  {
    seq(|ts|, i requires 0 <= i < |ts| => ts[i].node)
  }

  ghost function NodeSet(t: Tree): set<TreeNode>
    decreases t
  {
    {t.node} + SetAll(t.kids)
  }

  ghost function SetAll(ts: seq<Tree>): set<TreeNode>
    decreases ts
  {
    if ts == [] then {} else SetAll(ts[..|ts| - 1]) + NodeSet(ts[|ts| - 1])
  }

  ghost function Inners(ts: seq<Tree>): set<TreeNode>
    decreases ts
  {
    if ts == [] then {} else Inners(ts[..|ts| - 1]) + SetAll(ts[|ts| - 1].kids)
  }

  /** The nodes' children are the trees below them, in order. */
  ghost predicate Down(t: Tree)
    reads NodeSet(t)`children
    decreases t
  {
    t.node.children == Roots(t.kids) && DownAll(t.kids)
  }

  ghost predicate DownAll(ts: seq<Tree>)
    reads SetAll(ts)`children
    decreases ts
  {
    ts == [] || (DownAll(ts[..|ts| - 1]) && Down(ts[|ts| - 1]))
  }

  /** Each node below the root has the node above it as its parent. */
  ghost predicate Up(t: Tree)
    reads SetAll(t.kids)`parent
    decreases t
  {
    SetAllRoots(t.kids);
    ChildrenOf(t.node, t.kids) && UpAll(t.kids)
  }

  ghost predicate UpAll(ts: seq<Tree>)
    reads Inners(ts)`parent
    decreases ts
  {
    ts == [] || (UpAll(ts[..|ts| - 1]) && Up(ts[|ts| - 1]))
  }

  ghost predicate ChildrenOf(n: TreeNode, ts: seq<Tree>)
    reads Roots(ts)`parent
  {
    forall i :: 0 <= i < |ts| ==> Roots(ts)[i].parent == n
  }

  lemma {:induction false} SetAllRoots(ts: seq<Tree>)
    ensures forall n :: n in Roots(ts) ==> n in SetAll(ts)
    ensures Inners(ts) <= SetAll(ts)
    ensures forall n :: n in SetAll(ts) ==> n in Roots(ts) || n in Inners(ts)
    decreases ts
  {
    if ts != [] {
      SetAllRoots(ts[..|ts| - 1]);
      assert Roots(ts) == Roots(ts[..|ts| - 1]) + [ts[|ts| - 1].node];
    }
  }

  ghost predicate Shaped(t: Tree)
    reads NodeSet(t)`children, SetAll(t.kids)`parent
  {
    Down(t) && Up(t)
  }

  /** No node occurs twice. */
  ghost predicate Separate(t: Tree)
    decreases t
  {
    t.node !in SetAll(t.kids) && AllSeparate(t.kids)
  }

  ghost predicate AllSeparate(ts: seq<Tree>)
    decreases ts
  {
    ts == [] || (AllSeparate(ts[..|ts| - 1]) && Separate(ts[|ts| - 1]) && SetAll(ts[..|ts| - 1]) !! NodeSet(ts[|ts| - 1]))
  }

  // ------------------------------------------------------------- hoisting

  /** The tree that reorderObjects leaves at the node. */
  ghost function Kept(t: Tree): Tree
    decreases t
  {
    if t.node.kind == Mem then Tree(t.node, []) else Tree(t.node, KeptAll(t.kids) + HoistedAll(t.kids))
  }

  /** The trees it hands to its caller. */
  ghost function Hoisted(t: Tree): seq<Tree> { if t.node.kind == Mem then t.kids else [] }

  ghost function KeptAll(ts: seq<Tree>): (s: seq<Tree>)
    ensures |s| == |ts|
    decreases ts
  {
    if ts == [] then [] else KeptAll(ts[..|ts| - 1]) + [Kept(ts[|ts| - 1])]
  }

  ghost function HoistedAll(ts: seq<Tree>): seq<Tree>
    decreases ts
  {
    if ts == [] then [] else HoistedAll(ts[..|ts| - 1]) + Hoisted(ts[|ts| - 1])
  }

  /** What stands below the memory objects among these. */
  ghost function BelowMems(ts: seq<Tree>): seq<Tree> {
    if ts == [] then [] else
      var last := ts[|ts| - 1];
      BelowMems(ts[..|ts| - 1]) + if last.node.kind == Mem then last.kids else []
  }

  lemma {:induction false} HoistedIs(ts: seq<Tree>)
    ensures HoistedAll(ts) == BelowMems(ts)
  {
    if ts != [] { HoistedIs(ts[..|ts| - 1]); }
  }

  /** An object that is no memory object keeps its children
      in place, and what stood below its memory objects follows them, in order and unchanged;
      a memory object keeps nothing. */
  lemma {:induction false} HoistedChildren(t: Tree)
    ensures Kept(t).node == t.node && (t.node.kind == Mem ==> Kept(t).kids == [])
    ensures t.node.kind != Mem ==>
              && |Kept(t).kids| == |t.kids| + |BelowMems(t.kids)| && Kept(t).kids[|t.kids|..] == BelowMems(t.kids)
              && forall i :: 0 <= i < |t.kids| ==> Kept(t).kids[i].node == t.kids[i].node && Kept(t).kids[i] == Kept(t.kids[i])
  {
    if t.node.kind != Mem {
      HoistedIs(t.kids);
      KeptEach(t.kids);
    }
  }

  lemma {:induction false} KeptEach(ts: seq<Tree>)
    ensures forall i :: 0 <= i < |ts| ==> KeptAll(ts)[i] == Kept(ts[i]) && Kept(ts[i]).node == ts[i].node
  {
    if ts != [] { KeptEach(ts[..|ts| - 1]); }
  }

  lemma {:induction false} SetAllConcat(a: seq<Tree>, b: seq<Tree>)
    ensures SetAll(a + b) == SetAll(a) + SetAll(b)
  {
    if b == [] {
      assert a + b == a;
    } else {
      SetAllConcat(a, b[..|b| - 1]);
      assert (a + b)[..|a + b| - 1] == a + b[..|b| - 1];
    }
  }

  /** The nodes of a tree, each as often as it occurs. */
  ghost function Bag(t: Tree): multiset<TreeNode>
    decreases t
  {
    multiset{t.node} + BagAll(t.kids)
  }

  ghost function BagAll(ts: seq<Tree>): multiset<TreeNode>
    decreases ts
  {
    if ts == [] then multiset{} else BagAll(ts[..|ts| - 1]) + Bag(ts[|ts| - 1])
  }

  lemma {:induction false} BagConcat(a: seq<Tree>, b: seq<Tree>)
    ensures BagAll(a + b) == BagAll(a) + BagAll(b)
  {
    hide Bag;
    if b == [] {
      assert a + b == a;
    } else {
      BagConcat(a, b[..|b| - 1]);
      assert (a + b)[..|a + b| - 1] == a + b[..|b| - 1];
    }
  }

  /** No node is lost, none is made and none is doubled. */
  lemma {:induction false} HoistKeepsBag(t: Tree)
    ensures Bag(Kept(t)) + BagAll(Hoisted(t)) == Bag(t)
    decreases t
  {
    if t.node.kind != Mem {
      HoistAllKeepsBag(t.kids);
      BagConcat(KeptAll(t.kids), HoistedAll(t.kids));
    } else {
      assert BagAll([]) == multiset{};
    }
  }

  lemma {:induction false} HoistAllKeepsBag(ts: seq<Tree>)
    ensures BagAll(KeptAll(ts)) + BagAll(HoistedAll(ts)) == BagAll(ts)
    decreases ts
  {
    if ts != [] {
      var front, last := ts[..|ts| - 1], ts[|ts| - 1];
      HoistAllKeepsBag(front);
      HoistKeepsBag(last);
      BagConcat(KeptAll(front), [Kept(last)]);
      BagConcat(HoistedAll(front), Hoisted(last));
      assert [Kept(last)][..0] == [];
    }
  }

  lemma {:induction false} HoistKeepsNodes(t: Tree)
    ensures NodeSet(Kept(t)) + SetAll(Hoisted(t)) == NodeSet(t)
    decreases t
  {
    if t.node.kind != Mem {
      HoistAllKeepsNodes(t.kids);
      SetAllConcat(KeptAll(t.kids), HoistedAll(t.kids));
    }
  }

  lemma {:induction false} HoistAllKeepsNodes(ts: seq<Tree>)
    ensures SetAll(KeptAll(ts)) + SetAll(HoistedAll(ts)) == SetAll(ts)
    decreases ts
  {
    if ts != [] {
      var front, last := ts[..|ts| - 1], ts[|ts| - 1];
      HoistAllKeepsNodes(front);
      HoistKeepsNodes(last);
      SetAllConcat(KeptAll(front), [Kept(last)]);
      SetAllConcat(HoistedAll(front), Hoisted(last));
      assert [Kept(last)][..0] == [];
    }
  }

  /** Every memory object of the tree is a leaf. */
  ghost predicate MemLeaves(t: Tree)
    decreases t
  {
    (t.node.kind == Mem ==> t.kids == []) && AllMemLeaves(t.kids)
  }

  ghost predicate AllMemLeaves(ts: seq<Tree>)
    decreases ts
  {
    ts == [] || (AllMemLeaves(ts[..|ts| - 1]) && MemLeaves(ts[|ts| - 1]))
  }

  /** Below each topmost memory object every memory object is a leaf already: no memory
      object with children lies below another. */
  ghost predicate NoNestedMem(t: Tree)
    decreases t
  {
    if t.node.kind == Mem then AllMemLeaves(t.kids) else AllNoNested(t.kids)
  }

  ghost predicate AllNoNested(ts: seq<Tree>)
    decreases ts
  {
    ts == [] || (AllNoNested(ts[..|ts| - 1]) && NoNestedMem(ts[|ts| - 1]))
  }

  lemma {:induction false} MemLeavesConcat(a: seq<Tree>, b: seq<Tree>)
    ensures AllMemLeaves(a + b) <==> AllMemLeaves(a) && AllMemLeaves(b)
  {
    if b == [] {
      assert a + b == a;
    } else {
      MemLeavesConcat(a, b[..|b| - 1]);
      assert (a + b)[..|a + b| - 1] == a + b[..|b| - 1];
    }
  }

  /** Hoisting goes one level deep into a memory object: afterwards all memory objects are
      leaves exactly when none with children lay below another. */
  lemma {:induction false} MemLeavesIff(t: Tree)
    ensures MemLeaves(Kept(t)) && AllMemLeaves(Hoisted(t)) <==> NoNestedMem(t)
    decreases t
  {
    if t.node.kind != Mem {
      AllMemLeavesIff(t.kids);
      MemLeavesConcat(KeptAll(t.kids), HoistedAll(t.kids));
    }
  }

  lemma {:induction false} AllMemLeavesIff(ts: seq<Tree>)
    ensures AllMemLeaves(KeptAll(ts)) && AllMemLeaves(HoistedAll(ts)) <==> AllNoNested(ts)
    decreases ts
  {
    if ts != [] {
      var front, last := ts[..|ts| - 1], ts[|ts| - 1];
      AllMemLeavesIff(front);
      MemLeavesIff(last);
      MemLeavesConcat(KeptAll(front), [Kept(last)]);
      MemLeavesConcat(HoistedAll(front), Hoisted(last));
      assert [Kept(last)][..0] == [];
    }
  }

  // ------------------------------------------------------- hoisting, in place

  lemma {:induction false} DownConcat(a: seq<Tree>, b: seq<Tree>)
    ensures DownAll(a + b) <==> DownAll(a) && DownAll(b)
  {
    if b == [] {
      assert a + b == a;
    } else {
      DownConcat(a, b[..|b| - 1]);
      assert (a + b)[..|a + b| - 1] == a + b[..|b| - 1];
    }
  }

  lemma {:induction false} UpConcat(a: seq<Tree>, b: seq<Tree>)
    ensures UpAll(a + b) <==> UpAll(a) && UpAll(b)
  {
    if b == [] {
      assert a + b == a;
    } else {
      UpConcat(a, b[..|b| - 1]);
      assert (a + b)[..|a + b| - 1] == a + b[..|b| - 1];
    }
  }

  lemma {:induction false} SeparateConcat(a: seq<Tree>, b: seq<Tree>)
    ensures AllSeparate(a + b) <==> AllSeparate(a) && AllSeparate(b) && SetAll(a) !! SetAll(b)
  {
    if b == [] {
      assert a + b == a;
    } else {
      SeparateConcat(a, b[..|b| - 1]);
      SetAllConcat(a, b[..|b| - 1]);
      assert (a + b)[..|a + b| - 1] == a + b[..|b| - 1];
    }
  }

  /** What is left and what is handed over stay apart, and in each no node occurs twice. */
  lemma {:induction false} HoistSeparate(t: Tree)
    requires Separate(t)
    ensures Separate(Kept(t)) && AllSeparate(Hoisted(t)) && NodeSet(Kept(t)) !! SetAll(Hoisted(t))
    decreases t
  {
    if t.node.kind != Mem {
      HoistAllSeparate(t.kids);
      HoistAllKeepsNodes(t.kids);
      SeparateConcat(KeptAll(t.kids), HoistedAll(t.kids));
      SetAllConcat(KeptAll(t.kids), HoistedAll(t.kids));
    }
  }

  lemma {:induction false} HoistAllSeparate(ts: seq<Tree>)
    requires AllSeparate(ts)
    ensures AllSeparate(KeptAll(ts)) && AllSeparate(HoistedAll(ts)) && SetAll(KeptAll(ts)) !! SetAll(HoistedAll(ts))
    decreases ts
  {
    if ts != [] {
      hide Separate, Kept, Hoisted;
      var front, last := ts[..|ts| - 1], ts[|ts| - 1];
      HoistAllSeparate(front);
      HoistSeparate(last);
      HoistAllKeepsNodes(front);
      HoistKeepsNodes(last);
      OneTree(Kept(last));
      hide AllSeparate, SetAll, NodeSet;
      SeparateConcat(KeptAll(front), [Kept(last)]);
      SeparateConcat(HoistedAll(front), Hoisted(last));
      SetAllConcat(KeptAll(front), [Kept(last)]);
      SetAllConcat(HoistedAll(front), Hoisted(last));
    }
  }

  /** A list of trees cut around one of them. */
  lemma Around(ts: seq<Tree>, i: nat)
    requires i < |ts| && AllSeparate(ts)
    ensures Separate(ts[i])
    ensures SetAll(ts[..i]) !! NodeSet(ts[i]) && SetAll(ts[i + 1..]) !! NodeSet(ts[i]) && SetAll(ts[..i]) !! SetAll(ts[i + 1..])
    ensures SetAll(ts) == SetAll(ts[..i]) + NodeSet(ts[i]) + SetAll(ts[i + 1..])
  {
    hide Separate, AllSeparate, SetAll, NodeSet;
    assert ts == ts[..i] + ts[i..] && ts[i..] == [ts[i]] + ts[i + 1..];
    SeparateConcat(ts[..i], ts[i..]);
    SeparateConcat([ts[i]], ts[i + 1..]);
    SetAllConcat(ts[..i], ts[i..]);
    SetAllConcat([ts[i]], ts[i + 1..]);
    OneTree(ts[i]);
  }

  lemma OneTree(t: Tree)
    ensures SetAll([t]) == NodeSet(t) && (AllSeparate([t]) <==> Separate(t))
  {
    assert [t][..0] == [];
  }

  lemma {:induction false} SameRoots(ts: seq<Tree>)
    ensures Roots(KeptAll(ts)) == Roots(ts)
  {
    if ts != [] {
      SameRoots(ts[..|ts| - 1]);
      assert Roots(ts) == Roots(ts[..|ts| - 1]) + [ts[|ts| - 1].node];
      assert Roots(KeptAll(ts)) == Roots(KeptAll(ts[..|ts| - 1])) + [ts[|ts| - 1].node];
    }
  }

  /** These trees hang together below n. */
  ghost predicate Under(n: TreeNode, ts: seq<Tree>)
    reads SetAll(ts)
  {
    SetAllRoots(ts);
    DownAll(ts) && UpAll(ts) && ChildrenOf(n, ts)
  }

  lemma ChildrenConcat(n: TreeNode, a: seq<Tree>, b: seq<Tree>)
    ensures ChildrenOf(n, a + b) <==> ChildrenOf(n, a) && ChildrenOf(n, b)
  {
    assert Roots(a + b) == Roots(a) + Roots(b);
    if ChildrenOf(n, a + b) {
      forall i | 0 <= i < |a| ensures Roots(a)[i].parent == n { assert Roots(a + b)[i].parent == n; }
      forall i | 0 <= i < |b| ensures Roots(b)[i].parent == n { assert Roots(a + b)[|a| + i].parent == n; }
    }
  }

  lemma UnderConcat(n: TreeNode, a: seq<Tree>, b: seq<Tree>)
    ensures Under(n, a + b) <==> Under(n, a) && Under(n, b)
  {
    hide DownAll, UpAll, ChildrenOf;
    DownConcat(a, b);
    UpConcat(a, b);
    ChildrenConcat(n, a, b);
  }

  lemma UnderOne(n: TreeNode, t: Tree)
    ensures Under(n, [t]) <==> Shaped(t) && t.node.parent == n
  {
    hide Down, Up;
    assert [t][..|[t]| - 1] == [];
    assert Roots([t])[0] == t.node;
    assert DownAll([]) && UpAll([]);
    assert DownAll([t]) <==> Down(t);
    assert UpAll([t]) <==> Up(t);
  }

  lemma ShapedIsUnder(t: Tree)
    ensures Shaped(t) <==> t.node.children == Roots(t.kids) && Under(t.node, t.kids)
  {
    hide DownAll, UpAll, ChildrenOf;
  }

  /** HwlocConfig::reorderObjects on the tree t at the node; all holds the nodes of t. */
  method ReorderObjects(node: TreeNode, ghost t: Tree, ghost all: set<TreeNode>) returns (ret: seq<TreeNode>)
    requires t.node == node && Shaped(t) && Separate(t) && NodeSet(t) <= all
    modifies NodeSet(t)
    ensures ret == Roots(Hoisted(t)) && Shaped(Kept(t)) && Under(node, Hoisted(t)) && node.parent == old(node.parent)
    decreases t, 1
  {
    hide Under, Shaped, Separate, AllSeparate, KeptAll, HoistedAll;
    ShapedIsUnder(t);
    SeparateRoot(t);
    if node.kind == Mem {
      ret := node.children;
      node.children := [];
      EmptyUnder(node);
      ShapedIsUnder(Tree(node, []));
      return;
    }
    ret := ReorderChildren(node, t, all);
    HoistAllKeepsNodes(t.kids);
    SameRoots(t.kids);
    UnderConcat(node, KeptAll(t.kids), HoistedAll(t.kids));
    assert Roots(KeptAll(t.kids) + HoistedAll(t.kids)) == Roots(KeptAll(t.kids)) + Roots(HoistedAll(t.kids));
    SetAllConcat(KeptAll(t.kids), HoistedAll(t.kids));
    node.children := node.children + ret;
    EmptyUnder(node);
    ShapedIsUnder(Tree(node, KeptAll(t.kids) + HoistedAll(t.kids)));
    return [];
  }

  lemma SeparateRoot(t: Tree)
    requires Separate(t)
    ensures t.node !in SetAll(t.kids)
  {}

  /** Its loop over the children. */
  method ReorderChildren(node: TreeNode, ghost t: Tree, ghost all: set<TreeNode>) returns (ret: seq<TreeNode>)
    requires t.node == node && Shaped(t) && Separate(t) && NodeSet(t) <= all
    modifies SetAll(t.kids)
    ensures ret == Roots(HoistedAll(t.kids)) && Under(node, KeptAll(t.kids)) && Under(node, HoistedAll(t.kids))
    decreases t, 0
  {
    ret := [];
    var i := 0;
    ghost var kids := t.kids;
    assert kids[..0] == [] && kids[0..] == kids;
    EmptyUnder(node);
    while i < |node.children|
      invariant 0 <= i <= |kids| && node.children == Roots(kids) && AllSeparate(kids) && node !in SetAll(kids)
      invariant ret == Roots(HoistedAll(kids[..i]))
      invariant Under(node, KeptAll(kids[..i])) && Under(node, HoistedAll(kids[..i])) && Under(node, kids[i..])
    {
      hide Under, Separate, AllSeparate, Down, Up, Roots;
      NextChild(kids, i);
      var tmp := ReorderChild(node, kids, i, all);
      ret := ret + tmp;
      i := i + 1;
    }
    assert kids[..i] == kids;
  }

  lemma EmptyUnder(n: TreeNode)
    ensures Under(n, [])
  {}

  /** The body of the loop: one child is reordered, and what it hands back gets this node as
      its parent. */
  method ReorderChild(node: TreeNode, ghost kids: seq<Tree>, i: nat, ghost all: set<TreeNode>) returns (tmp: seq<TreeNode>)
    requires i < |kids| == |node.children| && node.children == Roots(kids) && AllSeparate(kids) && node !in SetAll(kids) && SetAll(kids) <= all
    requires Under(node, KeptAll(kids[..i])) && Under(node, HoistedAll(kids[..i])) && Under(node, kids[i..])
    modifies SetAll(kids)
    ensures tmp == Roots(Hoisted(kids[i]))
    ensures Under(node, KeptAll(kids[..i + 1])) && Under(node, HoistedAll(kids[..i + 1])) && Under(node, kids[i + 1..])
    decreases kids, 0
  {
    hide Under, AllSeparate, Separate, Down, Up, KeptAll, HoistedAll, Hoisted, Kept;
    ghost var k := kids[i];
    Around(kids, i);
    HoistAllKeepsNodes(kids[..i]);
    SameRoot(k);
    assert kids[i..] == [k] + kids[i + 1..];
    UnderConcat(node, [k], kids[i + 1..]);
    UnderOne(node, k);
    tmp := ReorderObjects(node.children[i], k, all);
    assert Under(node, KeptAll(kids[..i])) && Under(node, HoistedAll(kids[..i])) && Under(node, kids[i + 1..]);
    HoistedRoots(k);
    Adopt(node, k, tmp);
    assert Under(node, KeptAll(kids[..i])) && Under(node, HoistedAll(kids[..i])) && Under(node, kids[i + 1..]);
    NextChild(kids, i);
    UnderOne(node, Kept(k));
    UnderConcat(node, KeptAll(kids[..i]), [Kept(k)]);
    UnderConcat(node, HoistedAll(kids[..i]), Hoisted(k));
  }

  lemma SameRoot(k: Tree)
    ensures Kept(k).node == k.node && k.node in NodeSet(k)
  {}

  lemma NextChild(kids: seq<Tree>, i: nat)
    requires i < |kids|
    ensures KeptAll(kids[..i + 1]) == KeptAll(kids[..i]) + [Kept(kids[i])]
    ensures HoistedAll(kids[..i + 1]) == HoistedAll(kids[..i]) + Hoisted(kids[i])
    ensures Roots(HoistedAll(kids[..i + 1])) == Roots(HoistedAll(kids[..i])) + Roots(Hoisted(kids[i]))
  {
    assert kids[..i + 1][..i] == kids[..i];
  }

  /** The hoisted roots are below the node, and none is below another. */
  lemma HoistedRoots(k: Tree)
    requires Separate(k)
    ensures forall n :: n in Roots(Hoisted(k)) ==> n in NodeSet(k) && n != k.node && n !in Inners(Hoisted(k))
  {
    SetAllRoots(k.kids);
    RootsNotInner(k.kids);
  }

  lemma {:induction false} RootsNotInner(ts: seq<Tree>)
    requires AllSeparate(ts)
    ensures forall n :: n in Roots(ts) ==> n !in Inners(ts)
  {
    if ts != [] {
      var front, last := ts[..|ts| - 1], ts[|ts| - 1];
      RootsNotInner(front);
      SetAllRoots(front);
      assert Roots(ts) == Roots(front) + [last.node];
    }
  }

  /** tmp[i]->parent = node, for all of them. */
  method Adopt(node: TreeNode, ghost k: Tree, tmp: seq<TreeNode>)
    requires Separate(k) && tmp == Roots(Hoisted(k)) && Shaped(Kept(k)) && Under(k.node, Hoisted(k))
    requires forall n :: n in tmp ==> n != k.node && n !in Inners(Hoisted(k))
    modifies tmp`parent
    ensures Shaped(Kept(k)) && Under(node, Hoisted(k)) && k.node.parent == old(k.node.parent)
  {
    var j := 0;
    while j < |tmp|
      invariant 0 <= j <= |tmp| && forall l :: 0 <= l < j ==> tmp[l].parent == node
      invariant Shaped(Kept(k)) && DownAll(Hoisted(k)) && UpAll(Hoisted(k)) && k.node.parent == old(k.node.parent)
    {
      assert tmp[j] in tmp;
      tmp[j].parent := node;
      j := j + 1;
    }
  }

  // -------------------------------------------------------------- pruning

  /** A plugin's isObjectSupported, for each attribute by number. */
  type PluginMeta = (Kind, nat) -> bool

  /** Some plugin supports objects of this kind, in some attribute. */
  ghost predicate Own(meta: seq<PluginMeta>, attrs: nat, k: Kind) {
    exists a, p :: 0 <= a < attrs && 0 <= p < |meta| && meta[p](k, a)
  }

  /** No two plugins support the same attribute of this kind. */
  ghost predicate AtMostOne(meta: seq<PluginMeta>, attrs: nat, k: Kind) {
    forall a, p, q :: 0 <= a < attrs && 0 <= p < q < |meta| ==> !(meta[p](k, a) && meta[q](k, a))
  }

  ghost predicate NoClash(meta: seq<PluginMeta>, attrs: nat, nodes: set<TreeNode>) {
    forall n :: n in nodes ==> AtMostOne(meta, attrs, n.kind)
  }

  lemma NoClashLess(meta: seq<PluginMeta>, attrs: nat, all: set<TreeNode>, some: set<TreeNode>)
    requires NoClash(meta, attrs, all) && some <= all
    ensures NoClash(meta, attrs, some)
  {}

  /** HwlocConfig::isSupported, whose assertion is about the kind of this node. */
  method IsSupported(node: TreeNode, meta: seq<PluginMeta>, attrs: nat) returns (ret: bool)
    requires AtMostOne(meta, attrs, node.kind)
    ensures ret <==> Own(meta, attrs, node.kind) || node.children != []
    ensures ret <==> node.children != [] || exists a, p :: 0 <= a < attrs && 0 <= p < |meta| && meta[p](node.kind, a)
  {
    ret := false;
    var a := 0;
    while a < attrs
      invariant 0 <= a <= attrs && (ret <==> exists b, p :: 0 <= b < a && 0 <= p < |meta| && meta[p](node.kind, b))
    {
      var num, p := 0, 0;
      ghost var before := ret;
      ghost var hit := 0;
      while p < |meta|
        invariant 0 <= p <= |meta| && num <= 1
        invariant num == 0 ==> forall q :: 0 <= q < p ==> !meta[q](node.kind, a)
        invariant num == 1 ==> hit < p && meta[hit](node.kind, a)
        invariant ret <==> before || num == 1
      {
        if meta[p](node.kind, a) {
          num := num + 1;
          ret := true;
          hit := p;
        }
        p := p + 1;
      }
      assert num < 2;
      a := a + 1;
    }
    ret := ret || node.children != [];
  }

  /** A supported object is at t or below it. */
  ghost predicate Alive(meta: seq<PluginMeta>, attrs: nat, t: Tree)
    decreases t
  {
    Own(meta, attrs, t.node.kind) || AnyAlive(meta, attrs, t.kids)
  }

  ghost predicate AnyAlive(meta: seq<PluginMeta>, attrs: nat, ts: seq<Tree>)
    decreases ts
  {
    ts != [] && (AnyAlive(meta, attrs, ts[..|ts| - 1]) || Alive(meta, attrs, ts[|ts| - 1]))
  }

  /** Some node at t or below it is of a kind that a plugin supports. */
  lemma {:induction false} AliveIff(meta: seq<PluginMeta>, attrs: nat, t: Tree)
    ensures Alive(meta, attrs, t) <==> exists n, a, p :: n in NodeSet(t) && 0 <= a < attrs && 0 <= p < |meta| && meta[p](n.kind, a)
    decreases t, 0
  {
    AnyAliveIff(meta, attrs, t.kids);
  }

  lemma {:induction false} AnyAliveIff(meta: seq<PluginMeta>, attrs: nat, ts: seq<Tree>)
    ensures AnyAlive(meta, attrs, ts) <==> exists n, a, p :: n in SetAll(ts) && 0 <= a < attrs && 0 <= p < |meta| && meta[p](n.kind, a)
    decreases ts
  {
    if ts != [] {
      AnyAliveIff(meta, attrs, ts[..|ts| - 1]);
      AliveIff(meta, attrs, ts[|ts| - 1]);
    }
  }

  /** The tree that is left. */
  ghost function Pruned(meta: seq<PluginMeta>, attrs: nat, t: Tree): Tree
    decreases t, 0
  {
    Tree(t.node, PrunedAll(meta, attrs, t.kids))
  }

  ghost function PrunedAll(meta: seq<PluginMeta>, attrs: nat, ts: seq<Tree>): seq<Tree>
    decreases ts
  {
    if ts == [] then [] else
      PrunedAll(meta, attrs, ts[..|ts| - 1]) + PrunedOne(meta, attrs, ts[|ts| - 1])
  }

  ghost function PrunedOne(meta: seq<PluginMeta>, attrs: nat, t: Tree): seq<Tree>
    decreases t, 1
  {
    if Alive(meta, attrs, t) then [Pruned(meta, attrs, t)] else []
  }

  lemma {:induction false} NothingLeftIff(meta: seq<PluginMeta>, attrs: nat, ts: seq<Tree>)
    ensures PrunedAll(meta, attrs, ts) == [] <==> !AnyAlive(meta, attrs, ts)
  {
    if ts != [] { NothingLeftIff(meta, attrs, ts[..|ts| - 1]); }
  }

  lemma {:induction false} PrunedNodes(meta: seq<PluginMeta>, attrs: nat, t: Tree)
    ensures NodeSet(Pruned(meta, attrs, t)) <= NodeSet(t)
    decreases t
  {
    PrunedAllNodes(meta, attrs, t.kids);
  }

  lemma {:induction false} PrunedAllNodes(meta: seq<PluginMeta>, attrs: nat, ts: seq<Tree>)
    ensures SetAll(PrunedAll(meta, attrs, ts)) <= SetAll(ts)
    decreases ts
  {
    if ts != [] {
      var front, last := ts[..|ts| - 1], ts[|ts| - 1];
      PrunedAllNodes(meta, attrs, front);
      PrunedNodes(meta, attrs, last);
      SetAllConcat(PrunedAll(meta, attrs, front), PrunedOne(meta, attrs, last));
      assert [Pruned(meta, attrs, last)][..0] == [];
    }
  }

  /** HwlocConfig::pruneObjects on the tree t at the node. */
  method PruneObjects(node: TreeNode, meta: seq<PluginMeta>, attrs: nat, ghost t: Tree, ghost all: set<TreeNode>) returns (keep: bool)
    requires t.node == node && Shaped(t) && Separate(t) && NodeSet(t) <= all && NoClash(meta, attrs, NodeSet(t))
    modifies NodeSet(t)
    ensures Shaped(Pruned(meta, attrs, t)) && node.parent == old(node.parent)
    ensures keep <==> Alive(meta, attrs, t)
    decreases t, 1
  {
    SetAllRoots(t.kids);
    PruneChildren(node, meta, attrs, t, all);
    NothingLeftIff(meta, attrs, t.kids);
    PrunedAllNodes(meta, attrs, t.kids);
    keep := IsSupported(node, meta, attrs);
    hide Shaped;
    ghost var left := Pruned(meta, attrs, t);
    assert left.node == node && left.kids == PrunedAll(meta, attrs, t.kids);
    ShapedIsUnder(left);
  }

  lemma PrunedNothing(meta: seq<PluginMeta>, attrs: nat)
    ensures PrunedAll(meta, attrs, []) == []
  {}

  /** Its loop: a child that is not kept is erased where the iterator stands. */
  method PruneChildren(node: TreeNode, meta: seq<PluginMeta>, attrs: nat, ghost t: Tree, ghost all: set<TreeNode>)
    requires t.node == node && Shaped(t) && Separate(t) && NodeSet(t) <= all && NoClash(meta, attrs, NodeSet(t))
    modifies NodeSet(t)
    ensures node.children == Roots(PrunedAll(meta, attrs, t.kids)) && Under(node, PrunedAll(meta, attrs, t.kids)) && node.parent == old(node.parent)
    decreases t, 0
  {
    hide Under, Shaped, AllSeparate, PrunedAll, Alive, Pruned, Own, AtMostOne;
    ghost var kids := t.kids;
    ghost var j := 0;
    var i := 0;
    assert kids[..0] == [] && kids[0..] == kids;
    EmptyUnder(node);
    ShapedIsUnder(t);
    PrunedNothing(meta, attrs);
    while i < |node.children|
      invariant 0 <= j <= |kids| && i == |PrunedAll(meta, attrs, kids[..j])| && node.parent == old(node.parent)
      invariant node.children == Roots(PrunedAll(meta, attrs, kids[..j])) + Roots(kids[j..])
      invariant Under(node, PrunedAll(meta, attrs, kids[..j])) && Under(node, kids[j..])
      decreases |kids| - j
    {
      j, i := PruneRound(node, i, meta, attrs, kids, j, all);
    }
    assert kids[..j] == kids;
  }

  /** One round of the loop. */
  method PruneRound(node: TreeNode, i: nat, meta: seq<PluginMeta>, attrs: nat, ghost kids: seq<Tree>, ghost j: nat, ghost all: set<TreeNode>)
    returns (ghost j': nat, i': nat)
    requires j <= |kids| && i == |PrunedAll(meta, attrs, kids[..j])| < |node.children| && NoClash(meta, attrs, SetAll(kids))
    requires node.children == Roots(PrunedAll(meta, attrs, kids[..j])) + Roots(kids[j..])
    requires AllSeparate(kids) && node !in SetAll(kids) && SetAll(kids) <= all
    requires Under(node, PrunedAll(meta, attrs, kids[..j])) && Under(node, kids[j..])
    modifies node, SetAll(kids)
    ensures j' == j + 1 <= |kids| && i' == |PrunedAll(meta, attrs, kids[..j'])| && node.parent == old(node.parent)
    ensures node.children == Roots(PrunedAll(meta, attrs, kids[..j'])) + Roots(kids[j'..])
    ensures Under(node, PrunedAll(meta, attrs, kids[..j'])) && Under(node, kids[j'..])
    decreases kids, 1
  {
    hide Under, AllSeparate, PrunedAll, Alive, Pruned, Own, AtMostOne;
    assert |Roots(kids[j..])| == |kids| - j;
    assert node.children[i] == Roots(kids[j..])[0] == kids[j].node;
    PrunedAllNodes(meta, attrs, kids[..j + 1]);
    SetAllPrefix(kids, j + 1);
    var ret := PruneChild(node, node.children[i], meta, attrs, kids, j, all);
    NextPruned(meta, attrs, kids, j, ret, node.children);
    j', i' := j + 1, i;
    if !ret {
      node.children := node.children[..i] + node.children[i + 1..];
    } else {
      i' := i + 1;
    }
  }

  lemma SetAllPrefix(ts: seq<Tree>, j: nat)
    requires j <= |ts|
    ensures SetAll(ts[..j]) <= SetAll(ts) && SetAll(ts[j..]) <= SetAll(ts)
  {
    SetAllConcat(ts[..j], ts[j..]);
    assert ts == ts[..j] + ts[j..];
  }

  lemma NextPruned(meta: seq<PluginMeta>, attrs: nat, kids: seq<Tree>, j: nat, ret: bool, children: seq<TreeNode>)
    requires j < |kids| && (ret <==> Alive(meta, attrs, kids[j]))
    requires children == Roots(PrunedAll(meta, attrs, kids[..j])) + Roots(kids[j..])
    ensures var i := |PrunedAll(meta, attrs, kids[..j])|; var more := PrunedAll(meta, attrs, kids[..j + 1]);
            if ret then |more| == i + 1 && children == Roots(more) + Roots(kids[j + 1..])
            else |more| == i && i < |children| && children[..i] + children[i + 1..] == Roots(more) + Roots(kids[j + 1..])
  {
    hide Alive, Pruned, Roots;
    assert kids[..j + 1][..j] == kids[..j];
    var done, rest := PrunedAll(meta, attrs, kids[..j]), Roots(kids[j + 1..]);
    RootsAt(kids, j);
    PrunedRoot(meta, attrs, kids[j]);
    RootsMore(done, Pruned(meta, attrs, kids[j]));
    Middle(Roots(done), kids[j].node, rest);
  }

  lemma RootsAt(ts: seq<Tree>, j: nat)
    requires j < |ts|
    ensures Roots(ts[j..]) == [ts[j].node] + Roots(ts[j + 1..])
  {}

  lemma RootsMore(ts: seq<Tree>, t: Tree)
    ensures Roots(ts + [t]) == Roots(ts) + [t.node]
  {}

  lemma Middle<T>(a: seq<T>, x: T, b: seq<T>)
    ensures var s := a + ([x] + b); s == (a + [x]) + b && s[..|a|] + s[|a| + 1..] == a + b
  {}

  lemma PrunedRoot(meta: seq<PluginMeta>, attrs: nat, t: Tree)
    ensures Pruned(meta, attrs, t).node == t.node
  {}

  /** One child is pruned; what was done with the others stays. */
  method PruneChild(node: TreeNode, child: TreeNode, meta: seq<PluginMeta>, attrs: nat, ghost kids: seq<Tree>, ghost j: nat, ghost all: set<TreeNode>)
    returns (ret: bool)
    requires j < |kids| && child == kids[j].node && NoClash(meta, attrs, SetAll(kids))
    requires AllSeparate(kids) && node !in SetAll(kids) && SetAll(kids) <= all
    requires Under(node, PrunedAll(meta, attrs, kids[..j])) && Under(node, kids[j..])
    modifies SetAll(kids)
    ensures ret <==> Alive(meta, attrs, kids[j])
    ensures Under(node, PrunedAll(meta, attrs, kids[..j + 1])) && Under(node, kids[j + 1..])
    decreases kids, 0
  {
    hide Under, AllSeparate, Separate, Down, Up, Alive, Pruned, Own, NoClash;
    ghost var k := kids[j];
    Around(kids, j);
    NoClashLess(meta, attrs, SetAll(kids), NodeSet(k));
    PrunedAllNodes(meta, attrs, kids[..j]);
    assert kids[j..] == [k] + kids[j + 1..];
    UnderConcat(node, [k], kids[j + 1..]);
    UnderOne(node, k);
    ret := PruneObjects(child, meta, attrs, k, all);
    assert Under(node, PrunedAll(meta, attrs, kids[..j])) && Under(node, kids[j + 1..]);
    assert kids[..j + 1][..j] == kids[..j];
    PrunedRoot(meta, attrs, k);
    UnderOne(node, Pruned(meta, attrs, k));
    UnderConcat(node, PrunedAll(meta, attrs, kids[..j]), PrunedOne(meta, attrs, k));
    EmptyUnder(node);
  }

  // ---------------------------------------------------- what pruning leaves

  /** A tree's nodes, each before those below it. */
  ghost function Order(t: Tree): seq<TreeNode>
    decreases t
  {
    [t.node] + OrderAll(t.kids)
  }

  ghost function OrderAll(ts: seq<Tree>): seq<TreeNode>
    decreases ts
  {
    if ts == [] then [] else OrderAll(ts[..|ts| - 1]) + Order(ts[|ts| - 1])
  }

  /** All trees at and below these, in the same order. */
  ghost function AllTrees(t: Tree): seq<Tree>
    decreases t
  {
    [t] + AllTreesOf(t.kids)
  }

  ghost function AllTreesOf(ts: seq<Tree>): seq<Tree>
    decreases ts
  {
    if ts == [] then [] else AllTreesOf(ts[..|ts| - 1]) + AllTrees(ts[|ts| - 1])
  }

  /** The nodes of those trees that hold a supported object. */
  ghost function Select(meta: seq<PluginMeta>, attrs: nat, ts: seq<Tree>): seq<TreeNode> {
    if ts == [] then [] else
      Select(meta, attrs, ts[..|ts| - 1]) + if Alive(meta, attrs, ts[|ts| - 1]) then [ts[|ts| - 1].node] else []
  }

  lemma {:induction false} SelectConcat(meta: seq<PluginMeta>, attrs: nat, a: seq<Tree>, b: seq<Tree>)
    ensures Select(meta, attrs, a + b) == Select(meta, attrs, a) + Select(meta, attrs, b)
  {
    hide Alive;
    if b == [] {
      assert a + b == a;
    } else {
      SelectConcat(meta, attrs, a, b[..|b| - 1]);
      assert (a + b)[..|a + b| - 1] == a + b[..|b| - 1];
    }
  }

  lemma {:induction false} OrderConcat(a: seq<Tree>, b: seq<Tree>)
    ensures OrderAll(a + b) == OrderAll(a) + OrderAll(b)
  {
    hide Order;
    if b == [] {
      assert a + b == a;
    } else {
      OrderConcat(a, b[..|b| - 1]);
      Common.JoinLast(a, b);
      Common.Assoc(OrderAll(a), OrderAll(b[..|b| - 1]), Order(b[|b| - 1]));
    }
  }

  /** Nothing below a tree without a supported object holds one. */
  lemma {:induction false} DeadBelow(meta: seq<PluginMeta>, attrs: nat, ts: seq<Tree>)
    requires !AnyAlive(meta, attrs, ts)
    ensures Select(meta, attrs, AllTreesOf(ts)) == []
    decreases ts
  {
    if ts != [] {
      var front, last := ts[..|ts| - 1], ts[|ts| - 1];
      DeadBelow(meta, attrs, front);
      DeadBelow(meta, attrs, last.kids);
      SelectTree(meta, attrs, last);
      SelectConcat(meta, attrs, AllTreesOf(front), AllTrees(last));
    }
  }

  lemma SelectTree(meta: seq<PluginMeta>, attrs: nat, t: Tree)
    ensures Select(meta, attrs, AllTrees(t)) == (if Alive(meta, attrs, t) then [t.node] else []) + Select(meta, attrs, AllTreesOf(t.kids))
  {
    hide Alive;
    SelectConcat(meta, attrs, [t], AllTreesOf(t.kids));
    assert [t][..0] == [];
  }

  /** Pruning leaves, in order, the root and exactly the nodes below it that have a supported
      object at or below them. */
  lemma {:induction false} PruneLeaves(meta: seq<PluginMeta>, attrs: nat, t: Tree)
    ensures Order(Pruned(meta, attrs, t)) == [t.node] + Select(meta, attrs, AllTreesOf(t.kids))
    decreases t
  {
    PruneAllLeaves(meta, attrs, t.kids);
  }

  lemma {:induction false} PruneAllLeaves(meta: seq<PluginMeta>, attrs: nat, ts: seq<Tree>)
    ensures OrderAll(PrunedAll(meta, attrs, ts)) == Select(meta, attrs, AllTreesOf(ts))
    decreases ts
  {
    hide Own;
    if ts != [] {
      var front, last := ts[..|ts| - 1], ts[|ts| - 1];
      PruneAllLeaves(meta, attrs, front);
      PruneLeaves(meta, attrs, last);
      SelectTree(meta, attrs, last);
      SelectConcat(meta, attrs, AllTreesOf(front), AllTrees(last));
      OrderConcat(PrunedAll(meta, attrs, front), PrunedOne(meta, attrs, last));
      if !Alive(meta, attrs, last) { DeadBelow(meta, attrs, last.kids); }
      assert [Pruned(meta, attrs, last)][..0] == [];
    }
  }

  /** The constructor's two passes, one after the other: hoisting leaves a tree that pruning
      can take. */
  method ReorderAndPrune(root: TreeNode, meta: seq<PluginMeta>, attrs: nat, ghost t: Tree, ghost all: set<TreeNode>)
    requires t.node == root && Shaped(t) && Separate(t) && NodeSet(t) <= all && NoClash(meta, attrs, NodeSet(Kept(t)))
    modifies NodeSet(t)
    ensures Shaped(Pruned(meta, attrs, Kept(t))) && root.parent == old(root.parent)
    ensures Order(Pruned(meta, attrs, Kept(t))) == [root] + Select(meta, attrs, AllTreesOf(Kept(t).kids))
  {
    hide Shaped, Pruned, Under, AtMostOne;
    HoistKeepsNodes(t);
    HoistSeparate(t);
    PruneLeaves(meta, attrs, Kept(t));
    var _ := ReorderObjects(root, t, all);
    var _ := PruneObjects(root, meta, attrs, Kept(t), all);
  }

  /** A memory object in a memory object: it keeps its children. */
  lemma NestedMemExample(a: TreeNode, b: TreeNode, c: TreeNode, r: TreeNode)
    requires a.kind == Mem && b.kind == Mem && c.kind != Mem && r.kind != Mem
    ensures var t := Tree(r, [Tree(a, [Tree(b, [Tree(c, [])])])]);
            !MemLeaves(Kept(t)) && Kept(t) == Tree(r, [Tree(a, []), Tree(b, [Tree(c, [])])])
  {
    var inner := [Tree(b, [Tree(c, [])])];
    var outer := [Tree(a, inner)];
    assert outer[..0] == [] && KeptAll(outer) == [Tree(a, [])] && HoistedAll(outer) == inner;
    assert KeptAll(outer) + HoistedAll(outer) == [Tree(a, []), inner[0]];
    assert [Tree(a, []), inner[0]][..1] == [Tree(a, [])];
    assert !MemLeaves(inner[0]);
  }
}
