/** The heap as the sequence of blocks that tiles it: first fit with splitting, and
    freeing with (heap_4) and without (heap_2) coalescing. */
module HeapBlocks {
  import opened KernelState

  /** Whether size_t and pointers have 64 bits or 32. Everything holds for both. */
  const WIDE: bool

  const ALIGNMENT: nat := 8
  const HEADER: nat := if WIDE then 32 else 16
  const SMALLEST: nat := HEADER + ALIGNMENT
  const SIZE_MAX: nat := if WIDE then 0xFFFF_FFFF_FFFF_FFFF else 0xFFFF_FFFF

  type Size = n: nat | n <= SIZE_MAX

  predicate Aligned(n: nat) {
    n % ALIGNMENT == 0
  }

  /** Header at `address`, payload behind it; `size` counts both. */
  datatype Block = Block(address: nat, size: nat, free: bool)

  /** miniHeapAlignUp: the next multiple of the alignment, 0 on overflow. */
  function AlignUp(size: Size): (r: Size)
    ensures r == 0 <==> size == 0 || size > SIZE_MAX - 7
    ensures r != 0 ==> size <= r < size + ALIGNMENT && Aligned(r)
  {
    if size > SIZE_MAX - (ALIGNMENT - 1) then 0 else (size + 7) / 8 * 8
  }

  /** Header and aligned payload; 0 if the request is empty or overflows. */
  function TotalSize(size: Size): (r: Size)
    ensures r == 0 <==> size == 0 || size > SIZE_MAX - 7 || AlignUp(size) > SIZE_MAX - HEADER
    ensures r != 0 ==> Aligned(r) && size + HEADER <= r < size + HEADER + ALIGNMENT
  {
    var aligned := AlignUp(size);
    if size == 0 || aligned == 0 || aligned > SIZE_MAX - HEADER then 0 else AlignUp(aligned + HEADER)
  }

  function AddressAt(blocks: seq<Block>, i: nat, end: nat): nat {
    if i < |blocks| then blocks[i].address else end
  }

  /** The blocks lie end to end from `start` to `end`, each aligned and big enough. */
  ghost predicate Tiled(blocks: seq<Block>, start: nat, end: nat) {
    && AddressAt(blocks, 0, end) == start
    && (forall i {:trigger blocks[i]} :: 0 <= i < |blocks| ==>
          && blocks[i].size >= SMALLEST && Aligned(blocks[i].size)
          && blocks[i].address + blocks[i].size == AddressAt(blocks, i + 1, end))
  }

  lemma TiledAt(blocks: seq<Block>, start: nat, end: nat, i: nat)
    requires Tiled(blocks, start, end) && i < |blocks|
    ensures blocks[i].size >= SMALLEST && Aligned(blocks[i].size)
    ensures blocks[i].address + blocks[i].size == AddressAt(blocks, i + 1, end)
  {
  }

  ghost predicate Coalesced(blocks: seq<Block>) {
    forall i {:trigger blocks[i]} :: 0 <= i && i + 1 < |blocks| && blocks[i].free ==> !blocks[i + 1].free
  }

  lemma {:induction false} TiledOrder(blocks: seq<Block>, start: nat, end: nat, i: nat, j: nat)
    requires Tiled(blocks, start, end) && i < j <= |blocks|
    ensures blocks[i].address + blocks[i].size <= AddressAt(blocks, j, end)
    decreases j
  {
    hide Tiled, Aligned;
    if i + 1 < j {
      TiledOrder(blocks, start, end, i, j - 1);
      TiledAt(blocks, start, end, j - 1);
    } else {
      TiledAt(blocks, start, end, i);
    }
  }

  lemma SumAligned(a: nat, b: nat)
    requires Aligned(a) && Aligned(b)
    ensures Aligned(a + b)
  {
  }

  lemma {:induction false} TiledAligned(blocks: seq<Block>, start: nat, end: nat, i: nat)
    requires Tiled(blocks, start, end) && Aligned(start) && i <= |blocks|
    ensures Aligned(AddressAt(blocks, i, end)) && start <= AddressAt(blocks, i, end) <= end
    decreases i
  {
    if i > 0 {
      TiledAligned(blocks, start, end, i - 1);
      assert blocks[i - 1].address + blocks[i - 1].size == AddressAt(blocks, i, end);
      SumAligned(blocks[i - 1].address, blocks[i - 1].size);
    }
    if i < |blocks| { TiledOrder(blocks, start, end, i, |blocks|); }
  }

  function FreeSum(blocks: seq<Block>): nat {
    if blocks == [] then 0
    else (if blocks[0].free then blocks[0].size else 0) + FreeSum(blocks[1..])
  }

  lemma {:induction false} FreeSumConcat(a: seq<Block>, b: seq<Block>)
    ensures FreeSum(a + b) == FreeSum(a) + FreeSum(b)
  {
    if a == [] {
      assert a + b == b;
    } else {
      assert (a + b)[1..] == a[1..] + b;
      FreeSumConcat(a[1..], b);
    }
  }

  lemma FreeSumReplace(blocks: seq<Block>, k: nat, n: nat, middle: seq<Block>)
    requires k + n <= |blocks|
    ensures FreeSum(blocks[..k] + middle + blocks[k + n..]) + FreeSum(blocks[k..k + n]) == FreeSum(blocks) + FreeSum(middle)
  {
    assert blocks == blocks[..k] + blocks[k..k + n] + blocks[k + n..];
    FreeSumConcat(blocks[..k] + blocks[k..k + n], blocks[k + n..]);
    FreeSumConcat(blocks[..k], blocks[k..k + n]);
    FreeSumConcat(blocks[..k] + middle, blocks[k + n..]);
    FreeSumConcat(blocks[..k], middle);
  }

  lemma {:induction false} FreeSumFits(blocks: seq<Block>, start: nat, end: nat)
    requires Tiled(blocks, start, end)
    ensures start <= end && FreeSum(blocks) <= end - start
    decreases |blocks|
  {
    if blocks != [] {
      TiledAt(blocks, start, end, 0);
      TiledTail(blocks, start, end);
      FreeSumFits(blocks[1..], start + blocks[0].size, end);
    }
  }

  lemma TiledTail(blocks: seq<Block>, start: nat, end: nat)
    requires Tiled(blocks, start, end) && blocks != []
    ensures Tiled(blocks[1..], start + blocks[0].size, end)
  {
    var tail := blocks[1..];
    forall i | 0 <= i < |tail|
      ensures tail[i].size >= SMALLEST && Aligned(tail[i].size)
      ensures tail[i].address + tail[i].size == AddressAt(tail, i + 1, end)
    {
      TiledAt(blocks, start, end, i + 1);
    }
    TiledAt(blocks, start, end, 0);
  }

  // ---------- allocation ----------

  /** The lowest-addressed free block that is big enough. */
  function FirstFit(blocks: seq<Block>, total: nat, from: nat): (r: Option<nat>)
    requires from <= |blocks|
    ensures r.Some? ==> from <= r.value < |blocks| && blocks[r.value].free && total <= blocks[r.value].size
    ensures r.Some? ==> forall i :: from <= i < r.value && blocks[i].free ==> blocks[i].size < total
    ensures r.None? ==> forall i :: from <= i < |blocks| && blocks[i].free ==> blocks[i].size < total
    decreases |blocks| - from
  {
    if from == |blocks| then None
    else if blocks[from].free && blocks[from].size >= total then Some(from)
    else FirstFit(blocks, total, from + 1)
  }

  function AllocateAt(blocks: seq<Block>, k: nat, total: nat): (r: seq<Block>)
    requires k < |blocks| && total <= blocks[k].size
    ensures |r| == if blocks[k].size - total >= SMALLEST then |blocks| + 1 else |blocks|
  {
    var b := blocks[k];
    if b.size - total >= SMALLEST then
      blocks[..k] + [Block(b.address, total, false), Block(b.address + total, b.size - total, true)] + blocks[k + 1..]
    else
      blocks[..k] + [Block(b.address, b.size, false)] + blocks[k + 1..]
  }

  function Allocate(blocks: seq<Block>, total: nat): (r: seq<Block>) {
    var fit := FirstFit(blocks, total, 0);
    if total == 0 || fit.None? then blocks else AllocateAt(blocks, fit.value, total)
  }

  // ---------- freeing ----------

  /** heap_2: the block is free and stays as it is. */
  function Freed(blocks: seq<Block>, i: nat): (r: seq<Block>)
    requires i < |blocks|
  {
    blocks[i := blocks[i].(free := true)]
  }

  /** Block `i` swallows its successor if that is free. */
  function JoinNext(blocks: seq<Block>, i: nat): (r: seq<Block>)
    requires i < |blocks|
  {
    if i + 1 < |blocks| && blocks[i + 1].free then
      blocks[..i] + [Block(blocks[i].address, blocks[i].size + blocks[i + 1].size, true)] + blocks[i + 2..]
    else blocks
  }

  /** heap_4: two local merges, with the successor and then into the predecessor. */
  function Coalesce(blocks: seq<Block>, i: nat): (r: seq<Block>)
    requires i < |blocks|
  {
    var joined := JoinNext(blocks, i);
    if i > 0 && joined[i - 1].free && joined[i].free then JoinNext(joined, i - 1) else joined
  }

  /** The reference: every maximal run of free blocks becomes one block. */
  function Normalize(blocks: seq<Block>): (r: seq<Block>)
    ensures blocks != [] ==> r != [] && r[0].address == blocks[0].address && r[0].free == blocks[0].free
    ensures blocks == [] ==> r == []
  {
    if blocks == [] then []
    else
      var rest := Normalize(blocks[1..]);
      if blocks[0].free && rest != [] && rest[0].free then
        [Block(blocks[0].address, blocks[0].size + rest[0].size, true)] + rest[1..]
      else [blocks[0]] + rest
  }

  lemma {:induction false} NormalizeCoalesced(blocks: seq<Block>)
    ensures Coalesced(Normalize(blocks))
  {
    if blocks != [] {
      NormalizeCoalesced(blocks[1..]);
      var rest := Normalize(blocks[1..]);
      var r := Normalize(blocks);
      if blocks[0].free && rest != [] && rest[0].free {
        assert forall i :: 1 <= i < |r| ==> r[i] == rest[i];
      } else {
        assert forall i :: 1 <= i < |r| ==> r[i] == rest[i - 1];
      }
    }
  }

  lemma {:induction false} NormalizeSame(blocks: seq<Block>)
    requires Coalesced(blocks)
    ensures Normalize(blocks) == blocks
  {
    if blocks != [] {
      CoalescedTail(blocks);
      NormalizeSame(blocks[1..]);
    }
  }

  lemma CoalescedTail(blocks: seq<Block>)
    requires Coalesced(blocks) && blocks != []
    ensures Coalesced(blocks[1..])
  {
    var tail := blocks[1..];
    forall i | 0 <= i && i + 1 < |tail| && tail[i].free ensures !tail[i + 1].free {
      assert blocks[i + 1].free;
    }
  }

  lemma JoinShift(b: Block, blocks: seq<Block>, i: nat)
    requires i < |blocks|
    ensures JoinNext([b] + blocks, i + 1) == [b] + JoinNext(blocks, i)
  {
    var all := [b] + blocks;
    assert all[i + 1] == blocks[i];
    if i + 1 < |blocks| && blocks[i + 1].free {
      assert all[i + 2] == blocks[i + 1];
      assert all[..i + 1] == [b] + blocks[..i] && all[i + 3..] == blocks[i + 2..];
    }
  }

  lemma JoinFirst(b: Block, rest: seq<Block>)
    requires rest != [] && rest[0].free
    ensures JoinNext([b] + rest, 0) == [Block(b.address, b.size + rest[0].size, true)] + rest[1..]
  {
    assert ([b] + rest)[2..] == rest[1..];
    assert ([b] + rest)[..0] == [];
  }

  /** A join keeps its block free and what lies before it. */
  lemma JoinPrefix(blocks: seq<Block>, i: nat)
    requires i < |blocks| && blocks[i].free
    ensures var r := JoinNext(blocks, i);
      && i < |r| && r[i].free && r[i].address == blocks[i].address
      && forall j {:trigger r[j]} :: 0 <= j < i ==> r[j] == blocks[j]
  {
  }

  lemma CoalesceShift(b: Block, blocks: seq<Block>, i: nat)
    requires 0 < i < |blocks| && blocks[i].free
    ensures Coalesce([b] + blocks, i + 1) == [b] + Coalesce(blocks, i)
  {
    hide JoinNext;
    var joined := JoinNext(blocks, i);
    JoinPrefix(blocks, i);
    JoinShift(b, blocks, i);
    JoinShift(b, joined, i - 1);
  }

  lemma CoalesceSecond(b: Block, blocks: seq<Block>)
    requires blocks != [] && blocks[0].free
    ensures Coalesce([b] + blocks, 1) ==
      var joined := JoinNext(blocks, 0);
      if b.free && joined != [] then [Block(b.address, b.size + joined[0].size, true)] + joined[1..] else [b] + joined
    ensures JoinNext(blocks, 0) != [] && JoinNext(blocks, 0)[0].free
  {
    hide JoinNext;
    JoinPrefix(blocks, 0);
    JoinShift(b, blocks, 0);
    JoinFirst(b, JoinNext(blocks, 0));
  }

  lemma NormalizeFreeHead(b: Block, rest: seq<Block>)
    requires Coalesced(rest) && b.free
    ensures Normalize([b] + rest) == JoinNext([b] + rest, 0)
  {
    assert ([b] + rest)[1..] == rest;
    NormalizeSame(rest);
  }

  /** The two local merges are the global normalisation of what heap_2 leaves. */
  lemma {:induction false} CoalesceIsNormalize(blocks: seq<Block>, i: nat)
    requires Coalesced(blocks) && i < |blocks|
    ensures Coalesce(Freed(blocks, i), i) == Normalize(Freed(blocks, i))
    decreases i
  {
    hide JoinNext;
    var freed := Freed(blocks, i);
    CoalescedTail(blocks);
    if i == 0 {
      assert freed == [freed[0]] + blocks[1..];
      NormalizeFreeHead(freed[0], blocks[1..]);
    } else {
      var tail := Freed(blocks[1..], i - 1);
      assert freed == [blocks[0]] + tail;
      assert freed[1..] == tail;
      CoalesceIsNormalize(blocks[1..], i - 1);
      if i > 1 {
        CoalesceShift(blocks[0], tail, i - 1);
      } else {
        CoalesceSecond(blocks[0], tail);
      }
    }
  }
}
