/**
 * The block list of core/memory_pool.cpp as a sequence of values: best-fit search, the merging
 * pass, and the byte counts.
 */
module FreeLists {
  import opened Powers
  import opened Words

  /** What a `Block` header records; `data` is the address just behind the header. */
  datatype Chunk = Chunk(size: nat, used: bool, data: nat)

  /** sizeof(Block): two words, a padded flag and a pointer. */
  const HEADER: nat := 32

  // ---------------------------------------------------------------- merging

  /** The merge test as written: both free, and the data of one ends where that of the next begins. */
  predicate Touching(a: Chunk, b: Chunk) {
    !a.used && !b.used && a.data + a.size == b.data
  }

  function Join(a: Chunk, b: Chunk): Chunk {
    a.(size := a.size + HEADER + b.size)
  }

  /** One pass over the list: join and stay, or step on. */
  function Merge(s: seq<Chunk>): seq<Chunk>
    decreases |s|
  {
    if |s| < 2 then s
    else if Touching(s[0], s[1]) then Merge([Join(s[0], s[1])] + s[2..])
    else [s[0]] + Merge(s[1..])
  }

  function TotalBytes(s: seq<Chunk>): nat {
    if s == [] then 0 else s[0].size + HEADER + TotalBytes(s[1..])
  }

  function UsedBytes(s: seq<Chunk>): nat {
    if s == [] then 0 else (if s[0].used then s[0].size else 0) + UsedBytes(s[1..])
  }

  /** The blocks in use, in list order. */
  function UsedChunks(s: seq<Chunk>): seq<Chunk> {
    if s == [] then [] else (if s[0].used then [s[0]] else []) + UsedChunks(s[1..])
  }

  ghost predicate NothingToMerge(s: seq<Chunk>) {
    forall i :: 0 < i < |s| ==> !Touching(s[i - 1], s[i])
  }

  /** Merging conserves bytes, headers included, and leaves the blocks in use as they are. */
  lemma {:induction false} MergeConserves(s: seq<Chunk>)
    ensures TotalBytes(Merge(s)) == TotalBytes(s)
    ensures UsedChunks(Merge(s)) == UsedChunks(s)
    ensures UsedBytes(Merge(s)) == UsedBytes(s)
    decreases |s|
  {
    if |s| >= 2 {
      if Touching(s[0], s[1]) {
        var joined := [Join(s[0], s[1])] + s[2..];
        MergeConserves(joined);
        assert joined[1..] == s[1..][1..];
      } else {
        MergeConserves(s[1..]);
        assert ([s[0]] + Merge(s[1..]))[1..] == Merge(s[1..]);
      }
    }
  }

  /** The first block keeps its place and its flag, so an earlier refusal to merge stays valid. */
  lemma {:induction false} MergeHead(s: seq<Chunk>)
    requires s != []
    ensures Merge(s) != [] && Merge(s)[0].data == s[0].data && Merge(s)[0].used == s[0].used
    decreases |s|
  {
    if |s| >= 2 && Touching(s[0], s[1]) {
      MergeHead([Join(s[0], s[1])] + s[2..]);
    }
  }

  /** After one pass no neighbours meet the merge test. */
  lemma {:induction false} MergeIsComplete(s: seq<Chunk>)
    ensures NothingToMerge(Merge(s))
    decreases |s|
  {
    if |s| >= 2 {
      if Touching(s[0], s[1]) {
        MergeIsComplete([Join(s[0], s[1])] + s[2..]);
      } else {
        MergeIsComplete(s[1..]);
        MergeHead(s[1..]);
        var t := Merge(s);
        assert t == [s[0]] + Merge(s[1..]);
        forall i | 0 < i < |t|
          ensures !Touching(t[i - 1], t[i])
        {
          if i > 1 {
            assert t[i - 1] == Merge(s[1..])[i - 2] && t[i] == Merge(s[1..])[i - 1];
          }
        }
      }
    }
  }

  lemma {:induction false} NoPairNoChange(s: seq<Chunk>)
    requires NothingToMerge(s)
    ensures Merge(s) == s
    decreases |s|
  {
    hide Touching;
    if |s| >= 2 {
      forall i | 0 < i < |s[1..]|
        ensures !Touching(s[1..][i - 1], s[1..][i])
      {
        assert !Touching(s[i], s[i + 1]);
      }
      NoPairNoChange(s[1..]);
    }
  }

  /** A pass changes nothing exactly when no neighbours meet the test. */
  lemma {:induction false} MergeChangesWhen(s: seq<Chunk>)
    ensures Merge(s) == s <==> NothingToMerge(s)
  {
    MergeIsComplete(s);
    if NothingToMerge(s) {
      NoPairNoChange(s);
    }
  }

  lemma {:induction false} MergeIsIdempotent(s: seq<Chunk>)
    ensures Merge(Merge(s)) == Merge(s)
  {
    MergeIsComplete(s);
    MergeChangesWhen(Merge(s));
  }

  /** Header and data of each block end where the header of the next begins. */
  ghost predicate Tiled(s: seq<Chunk>) {
    forall i :: 0 < i < |s| ==> s[i].data == s[i - 1].data + s[i - 1].size + HEADER
  }

  /** The test leaves the header out, so on a list that tiles the pool no blocks ever merge. */
  lemma {:induction false} TiledNeverMerges(s: seq<Chunk>)
    requires Tiled(s)
    ensures Merge(s) == s
  {
    MergeChangesWhen(s);
  }

  // ---------------------------------------------------------------- what a join does to extents

  /** Where the data of a block ends. */
  function DataEnd(c: Chunk): nat {
    c.data + c.size
  }

  /** No block's data reaches into that of the next one. */
  ghost predicate Apart(s: seq<Chunk>) {
    forall i :: 0 < i < |s| ==> DataEnd(s[i - 1]) <= s[i].data
  }

  /** A join counts a header between the two blocks where the test found none. */
  lemma {:induction false} JoinOverstates(a: Chunk, b: Chunk)
    requires Touching(a, b)
    ensures DataEnd(Join(a, b)) == DataEnd(b) + HEADER
  {
  }

  /** Where the block at `j` ends once the pass has joined it, if it does, to what is before it. */
  function MergedEnd(s: seq<Chunk>, j: nat): nat
    requires j < |s|
  {
    DataEnd(s[j])
    + (if j > 0 && !s[j - 1].used && !s[j].used && MergedEnd(s, j - 1) == s[j].data then HEADER else 0)
  }

  /** The block at `j - 1`, so extended, ends before the next one begins. */
  predicate EndsBefore(s: seq<Chunk>, j: nat)
    requires 0 < j < |s|
  {
    MergedEnd(s, j - 1) <= s[j].data
  }

  /** What is left of the list for the pass to go through after one step. */
  function Remainder(s: seq<Chunk>): (t: seq<Chunk>)
    requires |s| >= 2
    ensures |t| == |s| - 1
  {
    if Touching(s[0], s[1]) then [Join(s[0], s[1])] + s[2..] else s[1..]
  }

  lemma {:induction false} RemainderEnds(s: seq<Chunk>, j: nat)
    requires |s| >= 2 && j < |s| - 1
    ensures Remainder(s)[j].used == s[j + 1].used && (j > 0 ==> Remainder(s)[j] == s[j + 1])
    ensures MergedEnd(Remainder(s), j) == MergedEnd(s, j + 1)
    decreases j
  {
    if j > 0 {
      RemainderEnds(s, j - 1);
    }
  }

  lemma {:induction false} RemainderApart(s: seq<Chunk>)
    requires |s| >= 2
    ensures var t := Remainder(s);
            (forall j :: 0 < j < |s| ==> EndsBefore(s, j))
            <==> DataEnd(s[0]) <= s[1].data && forall j :: 0 < j < |t| ==> EndsBefore(t, j)
  {
    hide MergedEnd, Join;
    var t := Remainder(s);
    assert MergedEnd(s, 0) == DataEnd(s[0]) by {
      FirstEnd(s);
    }
    forall j | 0 < j < |t|
      ensures EndsBefore(t, j) <==> EndsBefore(s, j + 1)
    {
      RemainderEnds(s, j - 1);
      RemainderEnds(s, j);
    }
    if DataEnd(s[0]) <= s[1].data && forall j :: 0 < j < |t| ==> EndsBefore(t, j) {
      forall j | 0 < j < |s|
        ensures EndsBefore(s, j)
      {
        assert j > 1 ==> EndsBefore(t, j - 1);
      }
    }
    if forall j :: 0 < j < |s| ==> EndsBefore(s, j) {
      assert EndsBefore(s, 1);
    }
  }

  lemma {:induction false} FirstEnd(s: seq<Chunk>)
    requires s != []
    ensures MergedEnd(s, 0) == DataEnd(s[0])
  {
  }

  lemma {:induction false} ApartCons(c: Chunk, s: seq<Chunk>)
    requires s != []
    ensures Apart([c] + s) <==> DataEnd(c) <= s[0].data && Apart(s)
  {
    var t := [c] + s;
    assert forall i :: 0 < i < |t| ==> t[i] == s[i - 1];
    if Apart(t) {
      assert DataEnd(t[0]) <= t[1].data;
      forall i | 0 < i < |s|
        ensures DataEnd(s[i - 1]) <= s[i].data
      {
        assert DataEnd(t[i]) <= t[i + 1].data;
      }
    }
  }

  /** After a pass the blocks are apart exactly if each, so extended, ended before the next began. */
  lemma {:induction false} MergeKeepsApartWhen(s: seq<Chunk>)
    ensures Apart(Merge(s)) <==> forall j :: 0 < j < |s| ==> EndsBefore(s, j)
    decreases |s|
  {
    hide EndsBefore, Apart;
    if |s| < 2 {
      ShortApart(s);
    } else {
      MergeKeepsApartWhen(Remainder(s));
      RemainderApart(s);
      if !Touching(s[0], s[1]) {
        MergeHead(s[1..]);
        ApartCons(s[0], Merge(s[1..]));
      }
    }
  }

  lemma {:induction false} ShortApart(s: seq<Chunk>)
    requires |s| < 2
    ensures Apart(s)
  {
  }

  /** Three blocks that abut: the first two join and then overlap the third. */
  lemma {:induction false} JoinedBlocksOverlap()
    ensures var s := [Chunk(8, false, 100), Chunk(8, false, 108), Chunk(8, false, 116)];
            && Apart(s) && !Apart(Merge(s))
            && Merge(s) == [Chunk(48, false, 100), Chunk(8, false, 116)]
  {
    var s := [Chunk(8, false, 100), Chunk(8, false, 108), Chunk(8, false, 116)];
    var t := [Join(s[0], s[1])] + s[2..];
    assert t == [Chunk(48, false, 100), Chunk(8, false, 116)];
    assert !Touching(t[0], t[1]) && Merge(t[1..]) == t[1..];
    assert Merge(t) == t && DataEnd(t[0]) > t[1].data;
  }

  // ---------------------------------------------------------------- allocation

  /** `(size + 7) & ~7` on a machine word. */
  function RoundUp(size: nat): nat {
    ToWord(size + 7) / 8 * 8
  }

  /** The rounded size is the least multiple of 8 that suffices, except where the addition wraps. */
  lemma {:induction false} RoundUpSufficesWhen(size: nat)
    requires size < WORD
    ensures RoundUp(size) % 8 == 0
    ensures RoundUp(size) >= size <==> size + 7 < WORD
    ensures size + 7 < WORD ==> RoundUp(size) < size + 8
  {
    hide ToWord, Pow2;
    WordOf(size + 7);
  }

  /** A free block of at least `size`; SIZE_MAX itself is never chosen. */
  predicate Fits(c: Chunk, size: nat) {
    !c.used && size <= c.size < WORD - 1
  }

  /** The first of the smallest sufficient free blocks. */
  ghost predicate IsBestFit(s: seq<Chunk>, size: nat, i: nat) {
    && i < |s| && Fits(s[i], size)
    && (forall j :: 0 <= j < |s| && Fits(s[j], size) ==> s[i].size <= s[j].size)
    && (forall j :: 0 <= j < i && Fits(s[j], size) ==> s[i].size < s[j].size)
  }

  /** An allocation fails exactly if every block is used, too small or of the size SIZE_MAX. */
  lemma {:induction false} AllocationFailsWhen(s: seq<Chunk>, size: nat)
    ensures (forall i: nat :: !IsBestFit(s, size, i))
            <==> forall c :: c in s ==> c.used || c.size < size || c.size >= 0xFFFF_FFFF_FFFF_FFFF
  {
    hide IsBestFit;
    if c :| c in s && !c.used && size <= c.size < 0xFFFF_FFFF_FFFF_FFFF {
      var i := BestFit(s, size);
    }
    forall i: nat | IsBestFit(s, size, i)
      ensures i < |s| && !s[i].used && size <= s[i].size < 0xFFFF_FFFF_FFFF_FFFF
    {
      BestFitFits(s, size, i);
    }
  }

  lemma {:induction false} BestFitFits(s: seq<Chunk>, size: nat, i: nat)
    requires IsBestFit(s, size, i)
    ensures i < |s| && !s[i].used && size <= s[i].size < 0xFFFF_FFFF_FFFF_FFFF
  {
  }

  /** There is a best fit as soon as one block fits. */
  lemma {:induction false} BestFit(s: seq<Chunk>, size: nat) returns (i: nat)
    requires exists c :: c in s && Fits(c, size)
    ensures IsBestFit(s, size, i)
  {
    var n := |s| - 1;
    if exists c :: c in s[..n] && Fits(c, size) {
      i := BestFit(s[..n], size);
      if Fits(s[n], size) && s[n].size < s[i].size {
        i := n;
      }
    } else {
      i := n;
      forall j | 0 <= j < n
        ensures !Fits(s[j], size)
      {
        assert s[j] in s[..n];
      }
    }
  }

  function SetUsed(s: seq<Chunk>, i: nat, used: bool): seq<Chunk>
    requires i < |s|
  {
    s[i := s[i].(used := used)]
  }

  lemma {:induction false} SetUsedBytes(s: seq<Chunk>, i: nat, used: bool)
    requires i < |s|
    ensures TotalBytes(SetUsed(s, i, used)) == TotalBytes(s)
    ensures UsedBytes(SetUsed(s, i, used)) + (if s[i].used then s[i].size else 0)
            == UsedBytes(s) + (if used then s[i].size else 0)
    decreases i
  {
    if i > 0 {
      SetUsedBytes(s[1..], i - 1, used);
      assert SetUsed(s, i, used)[1..] == SetUsed(s[1..], i - 1, used);
    }
  }

  lemma {:induction false} UsedBelowTotal(s: seq<Chunk>)
    ensures UsedBytes(s) + (if s == [] then 0 else HEADER) <= TotalBytes(s)
  {
    if s != [] {
      UsedBelowTotal(s[1..]);
    }
  }

  lemma {:induction false} SizeBelowTotal(s: seq<Chunk>, i: nat)
    requires i < |s|
    ensures s[i].size + HEADER <= TotalBytes(s)
    ensures i + 1 < |s| ==> s[i].size + HEADER + s[i + 1].size + HEADER <= TotalBytes(s)
  {
    if i > 0 {
      SizeBelowTotal(s[1..], i - 1);
    }
  }

  lemma {:induction false} SingleBlock(c: Chunk)
    ensures TotalBytes([c]) == c.size + HEADER
    ensures UsedBytes([c]) == if c.used then c.size else 0
  {
    assert [c][1..] == [];
  }

  /** Releasing a block keeps the counter right exactly when the block was in use (or empty). */
  lemma {:induction false} ReleaseAccounts(s: seq<Chunk>, i: nat)
    requires i < |s| && TotalBytes(s) < WORD + HEADER
    ensures ToWord(UsedBytes(s) - s[i].size) == UsedBytes(Merge(SetUsed(s, i, false)))
            <==> s[i].used || s[i].size == 0
    ensures TotalBytes(SetUsed(s, i, false)) == TotalBytes(s)
  {
    hide Pow2, ToWord;
    SetUsedBytes(s, i, false);
    UsedBelowTotal(s);
    SizeBelowTotal(s, i);
    WordDifference(UsedBytes(s), s[i].size);
    MergeConserves(SetUsed(s, i, false));
  }
}
