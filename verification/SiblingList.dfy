/** The intrusive sibling lists of XMLNode. */
module SiblingList {
  import opened Common

  class XMLNode {
    var parent: XMLNode?
    var firstChild: XMLNode?
    var lastChild: XMLNode?
    var prev: XMLNode?
    var next: XMLNode?

    constructor ()
      ensures parent == null && firstChild == null && lastChild == null && prev == null && next == null
    {
      parent, firstChild, lastChild, prev, next := null, null, null, null, null;
    }
  }

  function ItemAt(s: seq<XMLNode>, i: int): XMLNode? { if 0 <= i < |s| then s[i] else null }

  /** s[i] stands between its neighbours, as its own pointers say. */
  ghost predicate Linked(n: XMLNode, s: seq<XMLNode>, i: nat)
    requires i < |s|
    reads {s[i]}`parent, {s[i]}`prev, {s[i]}`next
  {
    s[i].parent == n && s[i].prev == ItemAt(s, i - 1) && s[i].next == ItemAt(s, i + 1)
  }

  ghost predicate Ends(n: XMLNode, s: seq<XMLNode>)
    reads n`firstChild, n`lastChild
  {
    n.firstChild == ItemAt(s, 0) && n.lastChild == ItemAt(s, |s| - 1)
  }

  /** The chain of n: forwards from its first child, backwards from its last. */
  ghost predicate Chain(n: XMLNode, s: seq<XMLNode>)
    reads n`firstChild, n`lastChild, s`parent, s`prev, s`next
  {
    Ends(n, s) && Distinct(s) && forall i :: 0 <= i < |s| ==> Linked(n, s, i)
  }

  function Without(s: seq<XMLNode>, i: nat): seq<XMLNode>
    requires i < |s|
  {
    s[..i] + s[i + 1..]
  }

  /** s without c. */
  ghost function Removed(s: seq<XMLNode>, c: XMLNode): seq<XMLNode> {
    if c in s then var i :| 0 <= i < |s| && s[i] == c; Without(s, i) else s
  }

  lemma RemovedAt(s: seq<XMLNode>, c: XMLNode, i: nat)
    requires Distinct(s) && i < |s| && s[i] == c
    ensures Removed(s, c) == Without(s, i) && c !in Removed(s, c)
  {}

  /** All children lists with c taken out. */
  ghost function TakenOut(kids: map<XMLNode, seq<XMLNode>>, c: XMLNode): (m: map<XMLNode, seq<XMLNode>>)
    ensures m.Keys == kids.Keys && forall n :: n in kids ==> m[n] == Removed(kids[n], c)
  {
    map n | n in kids :: Removed(kids[n], c)
  }

  function Some(c: XMLNode?): set<XMLNode> { if c == null then {} else {c} }

  /** XMLNode::Unlink: the pointers around the i-th child are closed; the child's own prev
      and next keep what they were. */
  method Unlink(self: XMLNode, child: XMLNode, ghost s: seq<XMLNode>, ghost i: nat)
    requires i < |s| && s[i] == child && Chain(self, s)
    modifies self`firstChild, self`lastChild, child`parent, Some(ItemAt(s, i - 1))`next, Some(ItemAt(s, i + 1))`prev
    ensures Chain(self, Without(s, i)) && child.parent == null
  {
    assert Linked(self, s, i);
    assert i > 0 ==> Linked(self, s, i - 1);
    assert i + 1 < |s| ==> Linked(self, s, i + 1);
    ghost var t := Without(s, i);
    if child == self.firstChild { self.firstChild := self.firstChild.next; }
    if child == self.lastChild { self.lastChild := self.lastChild.prev; }
    if child.prev != null { child.prev.next := child.next; }
    if child.next != null { child.next.prev := child.prev; }
    child.parent := null;
    forall k | 0 <= k < |t| ensures Linked(self, t, k) {
      assert old(Linked(self, s, if k < i then k else k + 1));
    }
  }

  /** The end of InsertEndChild. */
  method LinkLast(self: XMLNode, addThis: XMLNode, ghost s: seq<XMLNode>)
    requires Chain(self, s) && addThis !in s
    modifies self`firstChild, self`lastChild, addThis`parent, addThis`prev, addThis`next, Some(ItemAt(s, |s| - 1))`next
    ensures Chain(self, s + [addThis])
  {
    ghost var t := s + [addThis];
    if self.lastChild != null {
      assert Linked(self, s, |s| - 1);
      self.lastChild.next := addThis;
      addThis.prev := self.lastChild;
      self.lastChild := addThis;
      addThis.next := null;
    } else {
      self.firstChild, self.lastChild := addThis, addThis;
      addThis.prev, addThis.next := null, null;
    }
    addThis.parent := self;
    forall k | 0 <= k < |t| ensures Linked(self, t, k) {
      if k < |s| { assert old(Linked(self, s, k)); }
    }
  }

  /** The end of InsertFirstChild. */
  method LinkFirst(self: XMLNode, addThis: XMLNode, ghost s: seq<XMLNode>)
    requires Chain(self, s) && addThis !in s
    modifies self`firstChild, self`lastChild, addThis`parent, addThis`prev, addThis`next, Some(ItemAt(s, 0))`prev
    ensures Chain(self, [addThis] + s)
  {
    ghost var t := [addThis] + s;
    if self.firstChild != null {
      assert Linked(self, s, 0);
      self.firstChild.prev := addThis;
      addThis.next := self.firstChild;
      self.firstChild := addThis;
      addThis.prev := null;
    } else {
      self.firstChild, self.lastChild := addThis, addThis;
      addThis.prev, addThis.next := null, null;
    }
    addThis.parent := self;
    forall k | 0 <= k < |t| ensures Linked(self, t, k) {
      if k > 0 { assert old(Linked(self, s, k - 1)); }
    }
  }

  // ------------------------------------------------------- a whole document

  /** The nodes of a document and, for each, its children in order. */
  class XMLDocument {
    ghost var nodes: set<XMLNode>
    ghost var kids: map<XMLNode, seq<XMLNode>>

    /** Every node's chain is its children, and a node with a parent is one of its children:
        so each node is in at most one chain, and in that one once. */
    ghost predicate Valid()
      reads this, nodes
    {
      && kids.Keys == nodes
      && (forall n, c :: n in nodes && c in kids[n] ==> c in nodes)
      && (forall n :: n in nodes ==> Chain(n, kids[n]))
      && (forall c :: c in nodes && c.parent != null ==> c.parent in nodes && c in kids[c.parent])
    }

    constructor ()
      ensures Valid() && nodes == {}
    {
      nodes, kids := {}, map[];
    }

    /** A new node of this document, in no chain. */
    method NewNode() returns (n: XMLNode)
      requires Valid()
      modifies this
      ensures Valid() && fresh(n) && nodes == old(nodes) + {n} && kids == old(kids)[n := []] && n.parent == null
    {
      n := new XMLNode();
      nodes := nodes + {n};
      kids := kids[n := []];
    }

    /** A node's children know it as their parent, so no node is in two chains. */
    lemma ParentsAgree()
      requires Valid()
      ensures forall n, c :: n in nodes && c in kids[n] ==> c.parent == n
    {
      forall n, c | n in nodes && c in kids[n] ensures c.parent == n {
        var k :| 0 <= k < |kids[n]| && kids[n][k] == c;
        assert Linked(n, kids[n], k);
      }
    }

    /** k steps along next, and along prev. */
    ghost function Forwards(x: XMLNode?, k: nat): XMLNode?
      reads this, nodes
    {
      if x == null || x !in nodes || k == 0 then x else Forwards(x.next, k - 1)
    }

    ghost function Backwards(x: XMLNode?, k: nat): XMLNode?
      reads this, nodes
    {
      if x == null || x !in nodes || k == 0 then x else Backwards(x.prev, k - 1)
    }

    lemma {:induction false} WalksFrom(n: XMLNode, i: int, k: nat)
      requires Valid() && n in nodes && -1 <= i <= |kids[n]|
      ensures i >= 0 ==> Forwards(ItemAt(kids[n], i), k) == ItemAt(kids[n], if i + k <= |kids[n]| then i + k else |kids[n]|)
      ensures i < |kids[n]| ==> Backwards(ItemAt(kids[n], i), k) == ItemAt(kids[n], if i - k >= -1 then i - k else -1)
      decreases k
    {
      assert Chain(n, kids[n]);
      if 0 <= i < |kids[n]| && k > 0 {
        assert Linked(n, kids[n], i) && kids[n][i] in kids[n];
        WalksFrom(n, i + 1, k - 1);
        WalksFrom(n, i - 1, k - 1);
      }
    }

    /** Going forwards from the first child and backwards from the last meets the same
        children, in opposite order, and ends after as many. */
    lemma ReadsBothWays(n: XMLNode, k: nat)
      requires Valid() && n in nodes && k <= |kids[n]|
      ensures Forwards(n.firstChild, k) == ItemAt(kids[n], k)
      ensures Backwards(n.lastChild, k) == ItemAt(kids[n], |kids[n]| - 1 - k)
    {
      assert Chain(n, kids[n]);
      WalksFrom(n, 0, k);
      WalksFrom(n, |kids[n]| - 1, k);
    }

    /** Two nodes share no child. */
    lemma Apart(self: XMLNode)
      requires Valid() && self in nodes
      ensures forall n, c :: n in nodes && n != self && c in kids[n] ==> c !in kids[self]
    {
      ParentsAgree();
      forall n, c | n in nodes && n != self && c in kids[n] ensures c !in kids[self] {
        assert c.parent == n;
      }
    }

    /** Unlink of a child from its parent. */
    method Detach(child: XMLNode)
      requires Valid() && child in nodes && child.parent != null
      modifies nodes, this`kids
      ensures Valid() && child.parent == null && kids == TakenOut(old(kids), child)
      ensures forall c :: c in nodes && c != child ==> c.parent == old(c.parent)
    {
      hide Chain, TakenOut, Removed, Without;
      var self := child.parent;
      ghost var s := kids[self];
      ghost var i :| 0 <= i < |s| && s[i] == child;
      Apart(self);
      TakenHere(self, child, i);
      ghost var rest := Without(s, i);
      DetachFrom(self, child, s, i);
      kids := kids[self := rest];
      assert forall n :: n in nodes && n != self ==> kids[n] == old(kids)[n];
      assert kids[self] == rest;
    }

    /** Taking a child out changes its parent's list and no other. */
    lemma TakenHere(self: XMLNode, child: XMLNode, i: nat)
      requires Valid() && self in nodes && child in nodes && child.parent == self && i < |kids[self]| && kids[self][i] == child
      ensures TakenOut(kids, child) == kids[self := Without(kids[self], i)]
      ensures child !in Without(kids[self], i) && forall c :: c in Without(kids[self], i) ==> c in kids[self]
      ensures forall c :: c in kids[self] && c != child ==> c in Without(kids[self], i)
      ensures forall n :: n in nodes && n != self ==> child !in kids[n]
    {
      RemovedAt(kids[self], child, i);
      OnlyThere(child);
      forall c | c in kids[self] && c != child ensures c in Without(kids[self], i) {
        var k :| 0 <= k < |kids[self]| && kids[self][k] == c;
        assert c == Without(kids[self], i)[if k < i then k else k - 1];
      }
    }

    lemma OnlyThere(child: XMLNode)
      requires Valid() && child in nodes
      ensures forall n :: n in nodes && n != child.parent ==> child !in kids[n]
    {
      ParentsAgree();
    }

    /** The same, with the chains as they will be. */
    method DetachFrom(self: XMLNode, child: XMLNode, ghost s: seq<XMLNode>, ghost i: nat)
      requires Valid() && self in nodes && s == kids[self] && i < |s| && s[i] == child
      requires forall n, c :: n in nodes && n != self && c in kids[n] ==> c !in s
      modifies nodes
      ensures Chain(self, Without(s, i)) && child.parent == null
      ensures forall n :: n in nodes && n != self ==> Chain(n, kids[n])
      ensures forall c :: c in nodes && c != child ==> c.parent == old(c.parent)
    {
      Unlink(self, child, s, i);
      forall n | n in nodes && n != self ensures Chain(n, kids[n]) {
        assert old(Chain(n, kids[n]));
        forall k: nat | k < |kids[n]| ensures Linked(n, kids[n], k) {
          var c := kids[n][k];
          assert c in kids[n] && c !in s;
          assert old(Linked(n, kids[n], k));
        }
      }
    }

    /** The start of both insertions: a node that has a parent is unlinked from it. */
    method Release(addThis: XMLNode)
      requires Valid() && addThis in nodes
      modifies nodes, this`kids
      ensures Valid() && addThis.parent == null && kids == TakenOut(old(kids), addThis)
      ensures forall n :: n in nodes ==> addThis !in kids[n]
    {
      if addThis.parent != null { Detach(addThis); } else { Free(addThis); assert kids == TakenOut(kids, addThis); }
      Free(addThis);
    }

    /** XMLNode::InsertEndChild. */
    method InsertEndChild(self: XMLNode, addThis: XMLNode)
      requires Valid() && self in nodes && addThis in nodes
      modifies nodes, this`kids
      ensures Valid()
      ensures kids == TakenOut(old(kids), addThis)[self := TakenOut(old(kids), addThis)[self] + [addThis]]
    {
      hide Chain, TakenOut, Removed;
      Release(addThis);
      Apart(self);
      AppendTo(self, addThis, kids[self]);
      Hold(self, kids[self] + [addThis]);
    }

    /** XMLNode::InsertFirstChild. */
    method InsertFirstChild(self: XMLNode, addThis: XMLNode)
      requires Valid() && self in nodes && addThis in nodes
      modifies nodes, this`kids
      ensures Valid()
      ensures kids == TakenOut(old(kids), addThis)[self := [addThis] + TakenOut(old(kids), addThis)[self]]
    {
      hide Chain, TakenOut, Removed;
      Release(addThis);
      Apart(self);
      PrependTo(self, addThis, kids[self]);
      Hold(self, [addThis] + kids[self]);
    }

    lemma Free(c: XMLNode)
      requires Valid() && c.parent == null
      ensures forall n :: n in nodes ==> c !in kids[n]
    {
      ParentsAgree();
    }

    /** The children of self are these. */
    ghost method Hold(self: XMLNode, s: seq<XMLNode>)
      requires self in nodes && kids.Keys == nodes && Chain(self, s) && forall c :: c in s ==> c in nodes
      requires forall n, c :: n in nodes && c in kids[n] ==> c in nodes
      requires forall n :: n in nodes && n != self ==> Chain(n, kids[n])
      requires forall c :: c in nodes && c.parent != null ==> c.parent in nodes && c in if c.parent == self then s else kids[c.parent]
      modifies this`kids
      ensures Valid() && kids == old(kids)[self := s]
    {
      hide Chain;
      kids := kids[self := s];
    }

    method AppendTo(self: XMLNode, addThis: XMLNode, ghost s: seq<XMLNode>)
      requires Valid() && self in nodes && addThis in nodes && s == kids[self]
      requires forall n :: n in nodes ==> addThis !in kids[n]
      requires forall n, c :: n in nodes && n != self && c in kids[n] ==> c !in s
      modifies nodes
      ensures Chain(self, s + [addThis])
      ensures forall n :: n in nodes && n != self ==> Chain(n, kids[n])
      ensures addThis.parent == self && forall c :: c in nodes && c != addThis ==> c.parent == old(c.parent)
    {
      LinkLast(self, addThis, s);
      assert Linked(self, s + [addThis], |s|);
      forall n | n in nodes && n != self ensures Chain(n, kids[n]) {
        assert old(Chain(n, kids[n]));
        forall k: nat | k < |kids[n]| ensures Linked(n, kids[n], k) {
          var c := kids[n][k];
          assert c in kids[n] && c !in s;
          assert old(Linked(n, kids[n], k));
        }
      }
    }

    method PrependTo(self: XMLNode, addThis: XMLNode, ghost s: seq<XMLNode>)
      requires Valid() && self in nodes && addThis in nodes && s == kids[self]
      requires forall n :: n in nodes ==> addThis !in kids[n]
      requires forall n, c :: n in nodes && n != self && c in kids[n] ==> c !in s
      modifies nodes
      ensures Chain(self, [addThis] + s)
      ensures forall n :: n in nodes && n != self ==> Chain(n, kids[n])
      ensures addThis.parent == self && forall c :: c in nodes && c != addThis ==> c.parent == old(c.parent)
    {
      LinkFirst(self, addThis, s);
      assert Linked(self, [addThis] + s, 0);
      forall n | n in nodes && n != self ensures Chain(n, kids[n]) {
        assert old(Chain(n, kids[n]));
        forall k: nat | k < |kids[n]| ensures Linked(n, kids[n], k) {
          var c := kids[n][k];
          assert c in kids[n] && c !in s;
          assert old(Linked(n, kids[n], k));
        }
      }
    }

    /** No node is below itself: each is ranked above its children. */
    ghost predicate Ranked(rank: map<XMLNode, nat>)
      requires Valid()
      reads this, nodes
    {
      nodes <= rank.Keys && forall n, c :: n in nodes && c in kids[n] ==> rank[c] < rank[n]
    }

    /** XMLNode::DeleteChildren: exactly what is below self goes, each node once; every other
        node keeps its children. */
    method DeleteChildren(self: XMLNode, ghost rank: map<XMLNode, nat>)
      requires Valid() && self in nodes && Ranked(rank)
      modifies nodes, this
      ensures Valid() && nodes <= old(nodes) && self in nodes && kids[self] == [] && Ranked(rank)
      ensures forall n :: n in nodes && n != self ==> kids[n] == old(kids)[n]
      ensures forall c :: c in nodes ==> c.parent == old(c.parent)
      ensures forall c :: c in old(nodes) && c !in nodes ==> rank[c] < rank[self] && old(c.parent) != null && (old(c.parent) == self || old(c.parent) !in nodes)
      ensures forall c :: c in nodes && c.parent != null ==> c.parent in nodes && c.parent != self
      decreases rank[self], 1
    {
      hide Chain;
      while self.firstChild != null
        invariant Valid() && nodes <= old(nodes) && self in nodes && Ranked(rank)
        invariant forall n :: n in nodes && n != self ==> kids[n] == old(kids)[n]
        invariant forall c :: c in nodes ==> c.parent == old(c.parent)
        invariant forall c :: c in old(nodes) && c !in nodes ==> rank[c] < rank[self] && old(c.parent) != null && (old(c.parent) == self || old(c.parent) !in nodes)
        decreases nodes
      {
        RemoveFirst(self, rank);
      }
      FirstIsChild(self);
    }

    lemma FirstIsChild(n: XMLNode)
      requires Valid() && n in nodes
      ensures n.firstChild == ItemAt(kids[n], 0) && (n.firstChild != null ==> n.firstChild in kids[n] && n.firstChild.parent == n)
    {
      ParentsAgree();
      assert Chain(n, kids[n]);
    }

    /** One round of its loop. */
    method RemoveFirst(self: XMLNode, ghost rank: map<XMLNode, nat>)
      requires Valid() && self in nodes && Ranked(rank) && self.firstChild != null
      modifies nodes, this
      ensures Valid() && nodes < old(nodes) && self in nodes && Ranked(rank)
      ensures forall n :: n in nodes && n != self ==> kids[n] == old(kids)[n]
      ensures forall c :: c in nodes ==> c.parent == old(c.parent)
      ensures forall c :: c in old(nodes) && c !in nodes ==> rank[c] < rank[self] && old(c.parent) != null && (old(c.parent) == self || old(c.parent) !in nodes)
      decreases rank[self], 0
    {
      hide Chain, Without, Removed;
      FirstIsChild(self);
      var node := self.firstChild;
      OnlyThere(node);
      RemovedSub(kids[self], node);
      Detach(node);
      assert forall n :: n in nodes && n != self ==> kids[n] == old(kids)[n];
      assert Ranked(rank);
      DeleteNode(node, rank);
    }

    lemma RemovedSub(s: seq<XMLNode>, c: XMLNode)
      ensures forall x :: x in Removed(s, c) ==> x in s
      ensures forall t: seq<XMLNode> :: c !in t ==> Removed(t, c) == t
    {}

    /** The destructor of a node that is in no chain, and the freeing of its memory. */
    method DeleteNode(node: XMLNode, ghost rank: map<XMLNode, nat>)
      requires Valid() && node in nodes && node.parent == null && Ranked(rank)
      modifies nodes, this
      ensures Valid() && nodes < old(nodes) && node !in nodes && Ranked(rank)
      ensures forall n :: n in nodes ==> kids[n] == old(kids)[n] && n.parent == old(n.parent)
      ensures forall c :: c in old(nodes) && c !in nodes && c != node ==> rank[c] < rank[node] && old(c.parent) != null && old(c.parent) !in nodes
      decreases rank[node], 2
    {
      hide Chain;
      DeleteChildren(node, rank);
      Free(node);
      Forget(node);
    }

    /** pool->Free of a node without children that is in no chain. */
    method Forget(node: XMLNode)
      requires Valid() && node in nodes && kids[node] == [] && forall n :: n in nodes ==> node !in kids[n]
      modifies this
      ensures Valid() && nodes == old(nodes) - {node} && kids == old(kids) - {node}
    {
      hide Chain;
      nodes := nodes - {node};
      kids := kids - {node};
    }
  }
}
