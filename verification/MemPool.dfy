/** The pool allocator: blocks of chunks, the free ones linked through their own memory. */
module MemPool {
  import opened Common

  /** A chunk: while it is free, its first word is the pointer to the next free one; while
      it is allocated, its owner may write anything there. */
  class Chunk {
    var next: Chunk?

    constructor ()
    {
      next := null;
    }
  }

  function ItemAt(s: seq<Chunk>, i: nat): Chunk? { if i < |s| then s[i] else null }

  ghost predicate NextOk(s: seq<Chunk>, i: nat)
    requires i < |s|
    reads s[i]
  {
    s[i].next == ItemAt(s, i + 1)
  }

  /** s is linked, each chunk to the one after it, and the last to none. */
  ghost predicate Linked(s: seq<Chunk>)
    reads s
  {
    forall i :: 0 <= i < |s| ==> NextOk(s, i)
  }

  ghost function SetOf(s: seq<Chunk>): set<Chunk> { set c | c in s }

  lemma {:induction false} SetOfSize(s: seq<Chunk>)
    requires Distinct(s)
    ensures |SetOf(s)| == |s|
  {
    if s != [] {
      var front, last := s[..|s| - 1], s[|s| - 1];
      SetOfSize(front);
      assert SetOf(s) == SetOf(front) + {last} && last !in SetOf(front);
    }
  }

  ghost function Chunks(blocks: seq<seq<Chunk>>): set<Chunk> {
    if blocks == [] then {} else Chunks(blocks[..|blocks| - 1]) + SetOf(blocks[|blocks| - 1])
  }

  /** Free and allocated chunks are apart, are all chunks of the blocks, and are counted. */
  ghost predicate Counted(free: seq<Chunk>, live: set<Chunk>, blocks: seq<seq<Chunk>>, allocs: int, most: int, count: nat) {
    && count > 0 && Distinct(free) && (forall c :: c in free ==> c !in live)
    && |live| == allocs <= most
    && |free| + allocs == count * |blocks|
    && SetOf(free) + live == Chunks(blocks)
  }

  lemma FirstOf(c: Chunk, rest: seq<Chunk>)
    ensures SetOf([c] + rest) == {c} + SetOf(rest)
  {
    assert ([c] + rest)[0] == c && ([c] + rest)[1..] == rest;
  }

  lemma RestDistinct(free: seq<Chunk>)
    requires Distinct(free) && free != []
    ensures Distinct(free[1..]) && forall c :: c in free[1..] ==> c in free && c != free[0]
  {
    forall c | c in free[1..] ensures c in free && c != free[0] {
      var i :| 0 <= i < |free| - 1 && free[1..][i] == c;
      assert c == free[i + 1];
    }
  }

  lemma CountedTake(free: seq<Chunk>, live: set<Chunk>, blocks: seq<seq<Chunk>>, allocs: int, most: int, count: nat)
    requires Counted(free, live, blocks, allocs, most, count) && free != []
    ensures free[0] !in live
    ensures Counted(free[1..], live + {free[0]}, blocks, allocs + 1, if allocs + 1 > most then allocs + 1 else most, count)
  {
    hide SetOf, Chunks;
    var first, rest := free[0], free[1..];
    assert free == [first] + rest && first in free;
    RestDistinct(free);
    FirstOf(first, rest);
  }

  lemma CountedFree(free: seq<Chunk>, live: set<Chunk>, blocks: seq<seq<Chunk>>, allocs: int, most: int, count: nat, c: Chunk)
    requires Counted(free, live, blocks, allocs, most, count) && c in live
    ensures Counted([c] + free, live - {c}, blocks, allocs - 1, most, count)
  {
    forall i, j | 0 <= i < j < |[c] + free| ensures ([c] + free)[i] != ([c] + free)[j] {
      assert free[j - 1] in free;
    }
    FirstOf(c, free);
  }

  lemma MoreBlocks(count: nat, n: nat)
    ensures count * (n + 1) == count * n + count
  {}

  lemma ChunksMore(blocks: seq<seq<Chunk>>, block: seq<Chunk>)
    ensures Chunks(blocks + [block]) == Chunks(blocks) + SetOf(block) && SetOf([]) == {}
  {
    assert (blocks + [block])[..|blocks|] == blocks;
  }

  lemma CountedMore(live: set<Chunk>, blocks: seq<seq<Chunk>>, allocs: int, most: int, count: nat, block: seq<Chunk>)
    requires Counted([], live, blocks, allocs, most, count)
    requires |block| == count && Distinct(block) && forall c :: c in block ==> c !in live
    ensures Counted(block, live, blocks + [block], allocs, most, count)
  {
    hide Chunks, SetOf, Distinct;
    ChunksMore(blocks, block);
    MoreBlocks(count, |blocks|);
  }

  lemma NotFree(free: seq<Chunk>, live: set<Chunk>, blocks: seq<seq<Chunk>>, allocs: int, most: int, count: nat, c: Chunk)
    requires Counted(free, live, blocks, allocs, most, count) && c in live
    ensures c !in free
  {}

  class MemPoolT {
    /** COUNT: 4096 / SIZE. */
    const count: nat
    var blockPtrs: seq<seq<Chunk>>
    var root: Chunk?
    var currentAllocs: int
    var nAllocs: int
    var maxAllocs: int
    var nUntracked: int
    /** The free chunks in list order, and the allocated ones. */
    ghost var free: seq<Chunk>
    ghost var live: set<Chunk>

    ghost predicate Valid()
      reads this, free
    {
      && root == ItemAt(free, 0) && Linked(free)
      && Counted(free, live, blockPtrs, currentAllocs, maxAllocs, count)
    }

    constructor (size: nat)
      requires 0 < size <= 4096
      ensures Valid() && live == {} && blockPtrs == [] && count == 4096 / size
    {
      count := 4096 / size;
      blockPtrs, root, currentAllocs, nAllocs, maxAllocs, nUntracked := [], null, 0, 0, 0, 0;
      free, live := [], {};
    }

    /** A new block, its chunks linked in order. */
    method NewBlock() returns (chunk: seq<Chunk>)
      requires count > 0
      ensures |chunk| == count && Distinct(chunk) && Linked(chunk) && forall c :: c in chunk ==> fresh(c)
    {
      chunk := [];
      var n := 0;
      while n < count
        invariant 0 <= n <= count && |chunk| == n && Distinct(chunk) && forall c :: c in chunk ==> fresh(c)
      {
        var c := new Chunk();
        chunk := chunk + [c];
        n := n + 1;
      }
      var i := 0;
      while i < count - 1
        invariant 0 <= i <= count - 1 && forall k :: 0 <= k < i ==> NextOk(chunk, k)
      {
        assert chunk[i] in chunk;
        chunk[i].next := chunk[i + 1];
        i := i + 1;
      }
      assert chunk[count - 1] in chunk;
      chunk[count - 1].next := null;
    }

    /** MemPoolT::Alloc: a chunk that is not in use, and the rest as it was. */
    method Alloc() returns (result: Chunk)
      requires Valid()
      modifies this
      ensures Valid() && result !in old(live) && live == old(live) + {result}
      ensures old(free) != [] ==> result == old(free)[0] && free == old(free)[1..] && blockPtrs == old(blockPtrs)
      ensures old(free) == [] ==> fresh(result) && |free| == count - 1 && |blockPtrs| == |old(blockPtrs)| + 1
      ensures currentAllocs == old(currentAllocs) + 1 && nUntracked == old(nUntracked) + 1 && nAllocs == old(nAllocs) + 1
    {
      hide Counted, Linked;
      assert root == null <==> free == [];
      if root == null {
        AddBlock();
        assert free[0] in free;
      }
      result := TakeRoot();
      nAllocs := nAllocs + 1;
      nUntracked := nUntracked + 1;
    }

    /** Need a new block. */
    method AddBlock()
      requires Valid() && root == null
      modifies this`blockPtrs, this`root, this`free
      ensures Valid() && |free| == count && root != null && |blockPtrs| == |old(blockPtrs)| + 1 && forall c :: c in free ==> fresh(c)
    {
      assert free == [];
      var block := NewBlock();
      CountedMore(live, blockPtrs, currentAllocs, maxAllocs, count, block);
      blockPtrs := blockPtrs + [block];
      root := block[0];
      free := block;
    }

    /** The first free chunk leaves the list. */
    method TakeRoot() returns (result: Chunk)
      requires Valid() && root != null
      modifies this`root, this`free, this`live, this`currentAllocs, this`maxAllocs
      ensures Valid() && result == old(free)[0] && free == old(free)[1..] && live == old(live) + {result} && result !in old(live)
      ensures currentAllocs == old(currentAllocs) + 1
    {
      hide Counted;
      CountedTake(free, live, blockPtrs, currentAllocs, maxAllocs, count);
      result := root;
      assert result in free && NextOk(free, 0);
      ghost var rest := free[1..];
      forall i | 0 <= i < |rest| ensures NextOk(rest, i) { assert NextOk(free, i + 1); }
      root := root.next;
      free, live := rest, live + {result};
      currentAllocs := currentAllocs + 1;
      if currentAllocs > maxAllocs { maxAllocs := currentAllocs; }
    }

    /** MemPoolT::Free of an allocated chunk, whatever its owner left in it. */
    method Free(mem: Chunk?)
      requires Valid() && (mem != null ==> mem in live)
      modifies this, if mem != null then {mem} else {}
      ensures Valid() && blockPtrs == old(blockPtrs)
      ensures mem == null ==> free == old(free) && live == old(live)
      ensures mem != null ==> free == [mem] + old(free) && live == old(live) - {mem} && currentAllocs == old(currentAllocs) - 1
    {
      hide Counted;
      if mem == null { return; }
      CountedFree(free, live, blockPtrs, currentAllocs, maxAllocs, count, mem);
      NotFree(free, live, blockPtrs, currentAllocs, maxAllocs, count, mem);
      currentAllocs := currentAllocs - 1;
      var chunk := mem;
      ghost var was := free;
      chunk.next := root;
      root := chunk;
      free := [chunk] + was;
      live := live - {chunk};
      forall i: nat | i < |free| ensures NextOk(free, i) {
        if i > 0 {
          assert was[i - 1] in was && old(NextOk(was, i - 1));
        }
      }
    }

    method SetTracked()
      modifies this`nUntracked
      ensures nUntracked == old(nUntracked) - 1
    {
      nUntracked := nUntracked - 1;
    }

    /** k steps along the free list. */
    ghost function Walk(c: Chunk?, k: nat): Chunk?
      reads this, free
    {
      if c == null || c !in free || k == 0 then c else Walk(c.next, k - 1)
    }

    lemma {:induction false} WalkFrom(i: nat, k: nat)
      requires Valid() && i <= |free|
      ensures Walk(ItemAt(free, i), k) == ItemAt(free, if i + k <= |free| then i + k else |free|)
      decreases k
    {
      if i < |free| && k > 0 {
        assert NextOk(free, i);
        WalkFrom(i + 1, k - 1);
      }
    }

    /** The free list has no cycle: from the root it meets every free chunk once and ends
        after as many steps as the blocks hold chunks that are not allocated; no chunk on it
        is allocated, and it and the allocated chunks are all chunks of the blocks. */
    lemma FreeListEnds(k: nat)
      requires Valid()
      ensures k < |free| ==> Walk(root, k) == free[k] && free[k] !in live
      ensures k >= |free| ==> Walk(root, k) == null
      ensures SetOf(free) + live == Chunks(blockPtrs) && |SetOf(free)| + |live| == |Chunks(blockPtrs)| == count * |blockPtrs|
    {
      WalkFrom(0, k);
      SetOfSize(free);
      if k < |free| { assert free[k] in free; }
    }
  }
}
