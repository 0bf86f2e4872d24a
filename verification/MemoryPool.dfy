/**
 * `MemoryPool` (core/memory_pool.cpp): a linked list of `Block` nodes changed in place, each
 * method tied to the list of values in FreeLists.
 */
module MemoryPool {
  import opened FreeLists
  import opened Options
  import opened Powers
  import opened Words

  class Block {
    var size: Word
    var used: bool
    const data: nat
    var next: Block?

    constructor (size: Word, data: nat)
      ensures this.size == size && !used && this.data == data && next == null
    {
      this.size, this.used, this.data, this.next := size, false, data, null;
    }

    function Value(): Chunk
      reads this
    {
      Chunk(size, used, data)
    }
  }

  /** The node at `i`, or null past the end. */
  ghost function NodeAt(blocks: seq<Block>, i: nat): Block? {
    if i < |blocks| then blocks[i] else null
  }

  /** Following `next` from `head` visits `blocks`, in order, and ends in null. */
  ghost predicate Chained(head: Block?, blocks: seq<Block>)
    reads blocks
  {
    && head == NodeAt(blocks, 0)
    && (forall i {:trigger blocks[i].next} :: 0 <= i < |blocks| ==>
          blocks[i].next == NodeAt(blocks, i + 1))
  }

  /** The nodes hold the values `chunks`. */
  ghost predicate Holds(blocks: seq<Block>, chunks: seq<Chunk>)
    reads blocks
  {
    && |blocks| == |chunks|
    && (forall i {:trigger chunks[i]} {:trigger blocks[i].Value()} :: 0 <= i < |blocks| ==>
          blocks[i].Value() == chunks[i])
  }

  ghost predicate Distinct(blocks: seq<Block>) {
    forall i, j :: 0 <= i < j < |blocks| ==> blocks[i] != blocks[j]
  }

  /** Every node is found by stepping back one header from its data. */
  ghost predicate Addressed(headers: map<nat, Block>, blocks: seq<Block>) {
    forall b :: b in blocks ==>
      HEADER <= b.data && b.data - HEADER in headers && headers[b.data - HEADER] == b
  }

  function Without(s: seq<Block>, k: nat): (t: seq<Block>)
    requires k < |s|
    ensures |t| == |s| - 1
  {
    seq(|s| - 1, i requires 0 <= i < |s| - 1 => if i < k then s[i] else s[i + 1])
  }

  lemma {:induction false} DistinctAt(blocks: seq<Block>, k: nat)
    requires Distinct(blocks) && k < |blocks|
    ensures forall i :: 0 <= i < |blocks| && i != k ==> blocks[i] != blocks[k]
  {
  }

  lemma {:induction false} RemoveBlock(headers: map<nat, Block>, blocks: seq<Block>, k: nat)
    requires Distinct(blocks) && Addressed(headers, blocks) && k < |blocks|
    ensures Distinct(Without(blocks, k)) && Addressed(headers, Without(blocks, k))
    ensures forall b :: b in Without(blocks, k) ==> b in blocks
  {
  }

  /** The bytes of the one block and header of a fresh pool; below one header the block's size wraps. */
  function Extent(poolSize: Word): (n: nat)
    ensures HEADER <= n < WORD + HEADER
    ensures ToWord(poolSize - HEADER) == n - HEADER
  {
    assert ToWord(poolSize - HEADER) == (if HEADER <= poolSize then poolSize else poolSize + WORD) - HEADER by {
      hide ToWord;
      WordDifference(poolSize, HEADER);
    }
    if HEADER <= poolSize then poolSize else poolSize + WORD
  }

  class Pool {
    var poolSize: Word
    var usedBytes: Word
    var freeList: Block?
    var initialized: bool
    /** The header found at an address, as `deallocate` reads it. */
    var headers: map<nat, Block>
    /** The nodes of the list, and the values they hold. */
    ghost var blocks: seq<Block>
    ghost var chunks: seq<Chunk>

    ghost predicate WellFormed()
      reads this, blocks
    {
      && Chained(freeList, blocks) && Holds(blocks, chunks)
      && Distinct(blocks) && Addressed(headers, blocks)
      && TotalBytes(chunks) == Extent(poolSize)
    }

    /** The counter is the number of bytes in blocks in use. */
    ghost predicate Accounted()
      reads this
    {
      usedBytes == UsedBytes(chunks)
    }

    constructor ()
      ensures !initialized
    {
      poolSize, usedBytes, freeList, initialized, headers := 0, 0, null, false, map[];
      blocks, chunks := [], [];
    }

    /** `initialize` and `init_free_list`, where `base` is the address the mapping returned. */
    method Initialize(size: Word, base: nat)
      modifies this
      ensures old(initialized) ==> unchanged(this)
      ensures !old(initialized) ==>
                && initialized && WellFormed() && Accounted() && poolSize == size && usedBytes == 0
                && chunks == [Chunk(ToWord(size - HEADER), false, base + HEADER)]
                && (HEADER <= size ==> chunks[0].size == size - HEADER)
    {
      hide Pow2, ToWord, Extent;
      if initialized {
        return;
      }
      poolSize, usedBytes, initialized := size, 0, true;
      var first := new Block(ToWord(size - HEADER), base + HEADER);
      freeList := first;
      headers := map[base := first];
      blocks, chunks := [first], [first.Value()];
      SingleBlock(first.Value());
      WordDifference(size, HEADER);
    }

    method FindFreeBlock(size: nat) returns (best: Block?, ghost at: nat)
      requires WellFormed()
      ensures best == null ==> forall c :: c in chunks ==> !Fits(c, size)
      ensures best != null ==> IsBestFit(chunks, size, at) && best == blocks[at]
    {
      hide Pow2, Distinct, Addressed, TotalBytes;
      ghost var k: nat := 0;
      var current := freeList;
      best, at := null, 0;
      var bestSize := WORD - 1;
      while current != null
        invariant k <= |blocks| && current == NodeAt(blocks, k)
        invariant best == null ==> bestSize == WORD - 1 && forall j :: 0 <= j < k ==> !Fits(chunks[j], size)
        invariant best != null ==> at < k && best == blocks[at] && bestSize == chunks[at].size
        invariant best != null ==> IsBestFit(chunks[..k], size, at)
        decreases |blocks| - k
      {
        assert blocks[k].Value() == chunks[k] && blocks[k].next == NodeAt(blocks, k + 1);
        assert chunks[..k + 1] == chunks[..k] + [chunks[k]];
        if !current.used && current.size >= size && current.size < bestSize {
          best, at := current, k;
          bestSize := current.size;
        }
        current := current.next;
        k := k + 1;
      }
      assert chunks[..k] == chunks;
    }

    method Allocate(size: nat) returns (ptr: Option<nat>, ghost at: nat)
      requires initialized ==> WellFormed() && Accounted()
      modifies this`usedBytes, this`chunks, blocks
      ensures initialized ==> WellFormed() && Accounted()
      ensures !initialized ==> ptr == None && chunks == old(chunks)
      ensures initialized && ptr == None ==>
                chunks == old(chunks) && forall c :: c in chunks ==> !Fits(c, RoundUp(size))
      ensures initialized && ptr.Some? ==>
                && IsBestFit(old(chunks), RoundUp(size), at) && ptr.value == old(chunks)[at].data
                && chunks == SetUsed(old(chunks), at, true)
    {
      hide Pow2, Distinct, Addressed, TotalBytes, UsedBytes, ToWord, RoundUp, Extent;
      at := 0;
      if !initialized {
        return None, 0;
      }
      var block, i := FindFreeBlock(RoundUp(size));
      if block == null {
        return None, 0;
      }
      assert block.Value() == chunks[i];
      SetUsedBytes(chunks, i, true);
      UsedBelowTotal(SetUsed(chunks, i, true));
      WordOf(usedBytes + block.size);
      DistinctAt(blocks, i);
      block.used := true;
      usedBytes := ToWord(usedBytes + block.size);
      chunks := SetUsed(chunks, i, true);
      return Some(block.data), i;
    }

    /** The joining branch of the pass: the block after `current` leaves the list. */
    method AbsorbNext(current: Block, ghost k: nat)
      requires WellFormed() && k + 1 < |blocks| && current == blocks[k]
      requires Touching(chunks[k], chunks[k + 1])
      modifies this`blocks, this`chunks, current
      ensures WellFormed()
      ensures blocks == Without(old(blocks), k + 1) && blocks[k] == current
      ensures forall b :: b in blocks ==> b in old(blocks)
      ensures chunks == JoinedAt(old(chunks), k)
    {
      hide Pow2, TotalBytes, Distinct, Addressed, ToWord, Extent;
      var next := current.next;
      assert blocks[k].Value() == chunks[k] && blocks[k].next == NodeAt(blocks, k + 1);
      assert next.Value() == chunks[k + 1] && next.next == NodeAt(blocks, k + 2);
      DistinctAt(blocks, k);
      RemoveBlock(headers, blocks, k + 1);
      JoinedTotal(chunks, k);
      JoinFits(chunks, k);
      current.size := ToWord(current.size + HEADER + next.size);
      current.next := next.next;
      blocks, chunks := Without(blocks, k + 1), JoinedAt(chunks, k);
      assert Chained(freeList, blocks);
      forall i | 0 <= i < |blocks|
        ensures blocks[i].Value() == chunks[i]
      {
        assert blocks[i] == old(blocks)[if i <= k then i else i + 1];
        assert i != k ==> blocks[i].Value() == old(blocks[if i <= k then i else i + 1].Value());
      }
    }

    /** One pass over the list; `k` is the position of `current` in what is left of it. */
    method MergeFreeBlocks()
      requires WellFormed()
      modifies this`blocks, this`chunks, blocks
      ensures WellFormed() && chunks == Merge(old(chunks))
      ensures forall b :: b in blocks ==> b in old(blocks)
    {
      hide Pow2, TotalBytes, Merge, Distinct, Addressed, Without, JoinedAt, Extent;
      ghost var s := chunks;
      ghost var k: nat := 0;
      var current := freeList;
      assert s[..0] + Merge(s[0..]) == Merge(s) by {
        assert s[0..] == s;
      }
      while current != null && current.next != null
        invariant WellFormed() && k <= |blocks| && (forall b :: b in blocks ==> b in old(blocks))
        invariant current == NodeAt(blocks, k)
        invariant Merge(s) == chunks[..k] + Merge(chunks[k..])
        decreases |blocks| - k
      {
        var next := current.next;
        assert blocks[k].Value() == chunks[k] && blocks[k].next == NodeAt(blocks, k + 1);
        assert next.Value() == chunks[k + 1];
        assert current in old(blocks);
        if !current.used && !next.used && current.data + current.size == next.data {
          JoinAt(chunks, k);
          AbsorbNext(current, k);
        } else {
          StepAt(chunks, k);
          current := next;
          k := k + 1;
        }
      }
      MergeOfShort(chunks[k..]);
    }

    /**
     * `deallocate`: the header is read back from just before the pointer.  It need not be in the
     * list any more: an earlier merge may have joined its block to the one before it.
     */
    method Deallocate(ptr: nat) returns (ghost at: nat)
      requires initialized && ptr != 0 ==>
                 WellFormed() && HEADER <= ptr && ptr - HEADER in headers
      modifies this`usedBytes, this`blocks, this`chunks, blocks, headers.Values
      ensures ptr == 0 || !initialized ==> chunks == old(chunks) && usedBytes == old(usedBytes)
      ensures ptr != 0 && initialized ==> WellFormed()
      ensures ptr != 0 && initialized && headers[ptr - HEADER] in old(blocks) ==>
                && at < |old(chunks)| && old(chunks)[at].data == headers[ptr - HEADER].data
                && chunks == Merge(SetUsed(old(chunks), at, false))
                && usedBytes == ToWord(old(usedBytes) - old(chunks)[at].size)
                && (old(Accounted()) ==>
                      (Accounted() <==> old(chunks)[at].used || old(chunks)[at].size == 0))
      ensures ptr != 0 && initialized && headers[ptr - HEADER] !in old(blocks) ==>
                var size := old(headers[ptr - HEADER].size);
                && chunks == Merge(old(chunks)) && usedBytes == ToWord(old(usedBytes) - size)
                && (old(Accounted()) ==> (Accounted() <==> size == 0))
    {
      hide Pow2, Distinct, Addressed, TotalBytes, UsedBytes, ToWord, Merge, Extent;
      at := 0;
      if ptr == 0 || !initialized {
        return 0;
      }
      var block := headers[ptr - HEADER];
      if block in blocks {
        at :| at < |blocks| && blocks[at] == block;
        assert block.Value() == chunks[at];
        ReleaseAccounts(chunks, at);
      } else {
        MergeConserves(chunks);
        WordDifference(usedBytes, block.size);
      }
      MarkFree(block, at);
      MergeFreeBlocks();
    }

    /** The two assignments of `deallocate`; `at` is the place of the block, if it is in the list. */
    method MarkFree(block: Block, ghost at: nat)
      requires WellFormed() && (block in blocks ==> at < |blocks| && block == blocks[at])
      modifies this`usedBytes, this`chunks, block
      ensures WellFormed() && block.size == old(block.size)
      ensures chunks == if block in blocks then SetUsed(old(chunks), at, false) else old(chunks)
      ensures usedBytes == ToWord(old(usedBytes) - block.size)
    {
      hide Pow2, Distinct, Addressed, TotalBytes, ToWord, Extent;
      block.used := false;
      usedBytes := ToWord(usedBytes - block.size);
      if block in blocks {
        assert old(block.Value()) == chunks[at];
        SetUsedBytes(chunks, at, false);
        DistinctAt(blocks, at);
        chunks := SetUsed(chunks, at, false);
      }
    }

    /** Free plus used bytes are the pool size, modulo 2^64 if the pool is smaller than a header. */
    method GetFreeBytes() returns (n: nat)
      requires WellFormed() && Accounted()
      ensures n + UsedBytes(chunks) == if UsedBytes(chunks) <= poolSize then poolSize else poolSize + WORD
      ensures HEADER <= poolSize ==> n + UsedBytes(chunks) == poolSize
    {
      hide Pow2, ToWord;
      UsedBelowTotal(chunks);
      WordDifference(poolSize, usedBytes);
      n := ToWord(poolSize - usedBytes);
    }
  }

  /** A list of one block, as `initialize` leaves it, serves one allocation at a time. */
  lemma {:induction false} OneBlockOneAllocation(c: Chunk, size: nat)
    ensures var taken := SetUsed([c], 0, true);
            && (forall i :: !IsBestFit(taken, size, i))
            && Merge(SetUsed(taken, 0, false)) == [c.(used := false)]
    ensures forall i :: IsBestFit([c], size, i) <==> i == 0 && Fits(c, size)
  {
  }

  lemma {:induction false} MergeOfShort(s: seq<Chunk>)
    requires |s| <= 1
    ensures Merge(s) == s
  {
  }

  /** The list with the blocks at `k` and `k + 1` joined. */
  function JoinedAt(s: seq<Chunk>, k: nat): (t: seq<Chunk>)
    requires k + 1 < |s|
    ensures |t| == |s| - 1
  {
    seq(|s| - 1, i requires 0 <= i < |s| - 1 =>
      if i < k then s[i] else if i == k then Join(s[k], s[k + 1]) else s[i + 1])
  }

  lemma {:induction false} JoinAt(s: seq<Chunk>, k: nat)
    requires k + 1 < |s| && Touching(s[k], s[k + 1])
    ensures s[..k] + Merge(s[k..]) == JoinedAt(s, k)[..k] + Merge(JoinedAt(s, k)[k..])
    ensures TotalBytes(JoinedAt(s, k)) == TotalBytes(s)
  {
    assert JoinedAt(s, k)[k..] == [Join(s[k], s[k + 1])] + s[k..][2..];
    assert JoinedAt(s, k)[..k] == s[..k];
    JoinedTotal(s, k);
  }

  /** The size of a join does not wrap. */
  lemma {:induction false} JoinFits(s: seq<Chunk>, k: nat)
    requires k + 1 < |s| && TotalBytes(s) < WORD + HEADER
    ensures Join(s[k], s[k + 1]).size < WORD
    ensures ToWord(Join(s[k], s[k + 1]).size) == Join(s[k], s[k + 1]).size
  {
    hide TotalBytes, Pow2, ToWord;
    SizeBelowTotal(s, k);
    WordOf(Join(s[k], s[k + 1]).size);
  }

  lemma {:induction false} JoinedTotal(s: seq<Chunk>, k: nat)
    requires k + 1 < |s|
    ensures TotalBytes(JoinedAt(s, k)) == TotalBytes(s)
    decreases k
  {
    if k == 0 {
      assert JoinedAt(s, 0)[1..] == s[1..][1..];
    } else {
      JoinedTotal(s[1..], k - 1);
      assert JoinedAt(s, k)[1..] == JoinedAt(s[1..], k - 1);
    }
  }

  lemma {:induction false} StepAt(s: seq<Chunk>, k: nat)
    requires k + 1 < |s| && !Touching(s[k], s[k + 1])
    ensures s[..k] + Merge(s[k..]) == s[..k + 1] + Merge(s[k + 1..])
  {
    assert s[k..][1..] == s[k + 1..];
  }
}
