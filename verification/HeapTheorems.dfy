/** What every sequence of allocations and frees keeps. */
module HeapTheorems {
  import opened KernelState
  import opened HeapBlocks

  lemma AllocateAtTiledAt(blocks: seq<Block>, k: nat, total: nat, start: nat, end: nat, i: nat)
    requires Tiled(blocks, start, end) && k < |blocks| && SMALLEST <= total <= blocks[k].size && Aligned(total)
    requires i < |AllocateAt(blocks, k, total)|
    ensures var r := AllocateAt(blocks, k, total);
      && r[i].size >= SMALLEST && Aligned(r[i].size)
      && r[i].address + r[i].size == AddressAt(r, i + 1, end)
  {
    hide Tiled, Aligned;
    var r := AllocateAt(blocks, k, total);
    var shift := |r| - |blocks|;
    TiledAt(blocks, start, end, k);
    RemainderAligned(blocks[k].size, total);
    if i < k {
      TiledAt(blocks, start, end, i);
      assert r[i] == blocks[i] && r[i + 1].address == blocks[i + 1].address;
    } else if i > k + shift {
      TiledAt(blocks, start, end, i - shift);
      assert r[i] == blocks[i - shift];
    }
  }

  lemma AllocateAtTiled(blocks: seq<Block>, k: nat, total: nat, start: nat, end: nat)
    requires Tiled(blocks, start, end) && k < |blocks| && SMALLEST <= total <= blocks[k].size && Aligned(total)
    ensures Tiled(AllocateAt(blocks, k, total), start, end)
  {
    var r := AllocateAt(blocks, k, total);
    assert AddressAt(r, 0, end) == AddressAt(blocks, 0, end);
    forall i | 0 <= i < |r|
      ensures r[i].size >= SMALLEST && Aligned(r[i].size) && r[i].address + r[i].size == AddressAt(r, i + 1, end)
    {
      AllocateAtTiledAt(blocks, k, total, start, end, i);
    }
  }

  lemma RemainderAligned(a: nat, b: nat)
    requires b <= a && Aligned(a) && Aligned(b)
    ensures Aligned(a - b)
  {
  }

  lemma AllocateAtCoalesced(blocks: seq<Block>, k: nat, total: nat)
    requires Coalesced(blocks) && k < |blocks| && blocks[k].free && total <= blocks[k].size
    ensures Coalesced(AllocateAt(blocks, k, total))
  {
    var r := AllocateAt(blocks, k, total);
    var shift := |r| - |blocks|;
    forall i | 0 <= i && i + 1 < |r| && r[i].free ensures !r[i + 1].free {
      if i + 1 < k {
        assert r[i] == blocks[i] && r[i + 1] == blocks[i + 1];
      } else if i > k {
        assert r[i + 1] == blocks[i + 1 - shift];
      }
    }
  }

  /** Block `k` is replaced by `middle`, whose first block takes what leaves the free sum. */
  lemma FreeSumTaken(blocks: seq<Block>, k: nat, middle: seq<Block>)
    requires k < |blocks| && blocks[k].free && middle != [] && !middle[0].free
    requires middle[0].size + FreeSum(middle[1..]) == blocks[k].size
    ensures FreeSum(blocks[..k] + middle + blocks[k + 1..]) == FreeSum(blocks) - middle[0].size
    ensures middle[0].size <= FreeSum(blocks)
  {
    hide FreeSum;
    assert blocks[k..k + 1] == [blocks[k]] && middle == [middle[0]] + middle[1..];
    FreeSumReplace(blocks, k, 1, middle);
    FreeSumConcat([middle[0]], middle[1..]);
    FreeSumOne(blocks[k]);
    FreeSumOne(middle[0]);
    FreeSumBound(blocks, k);
  }

  lemma AllocateSplitFreeSum(blocks: seq<Block>, k: nat, total: nat)
    requires k < |blocks| && blocks[k].free && total + SMALLEST <= blocks[k].size
    ensures var r := AllocateAt(blocks, k, total);
      r[k].size == total <= FreeSum(blocks) && FreeSum(r) == FreeSum(blocks) - total
  {
    hide FreeSum;
    var b := blocks[k];
    var rest := Block(b.address + total, b.size - total, true);
    var middle := [Block(b.address, total, false), rest];
    assert middle[1..] == [rest];
    FreeSumOne(rest);
    FreeSumTaken(blocks, k, middle);
    assert AllocateAt(blocks, k, total) == blocks[..k] + middle + blocks[k + 1..];
  }

  lemma AllocateWholeFreeSum(blocks: seq<Block>, k: nat, total: nat)
    requires k < |blocks| && blocks[k].free && total <= blocks[k].size < total + SMALLEST
    ensures var r := AllocateAt(blocks, k, total);
      r[k].size == blocks[k].size <= FreeSum(blocks) && FreeSum(r) == FreeSum(blocks) - blocks[k].size
  {
    var middle := [Block(blocks[k].address, blocks[k].size, false)];
    assert FreeSum(middle[1..]) == 0;
    hide FreeSum;
    FreeSumTaken(blocks, k, middle);
    assert AllocateAt(blocks, k, total) == blocks[..k] + middle + blocks[k + 1..];
  }

  lemma AllocateAtFreeSum(blocks: seq<Block>, k: nat, total: nat)
    requires k < |blocks| && blocks[k].free && total <= blocks[k].size
    ensures FreeSum(AllocateAt(blocks, k, total)) == FreeSum(blocks) - AllocateAt(blocks, k, total)[k].size
    ensures AllocateAt(blocks, k, total)[k].size <= FreeSum(blocks)
  {
    hide FreeSum, AllocateAt;
    if total + SMALLEST <= blocks[k].size {
      AllocateSplitFreeSum(blocks, k, total);
    } else {
      AllocateWholeFreeSum(blocks, k, total);
    }
  }

  lemma FreeSumBound(blocks: seq<Block>, k: nat)
    requires k < |blocks| && blocks[k].free
    ensures blocks[k].size <= FreeSum(blocks)
  {
    assert blocks[k..k + 1] == [blocks[k]];
    FreeSumReplace(blocks, k, 1, []);
  }

  lemma FreeSumOne(b: Block)
    ensures FreeSum([b]) == if b.free then b.size else 0
  {
  }

  lemma AllocateTiled(blocks: seq<Block>, total: nat, start: nat, end: nat)
    requires Tiled(blocks, start, end) && (total == 0 || SMALLEST <= total) && Aligned(total)
    ensures Tiled(Allocate(blocks, total), start, end)
    ensures Coalesced(blocks) ==> Coalesced(Allocate(blocks, total))
  {
    var fit := FirstFit(blocks, total, 0);
    if total != 0 && fit.Some? {
      AllocateAtTiled(blocks, fit.value, total, start, end);
      if Coalesced(blocks) { AllocateAtCoalesced(blocks, fit.value, total); }
    }
  }

  lemma FreedTiled(blocks: seq<Block>, i: nat, start: nat, end: nat)
    requires Tiled(blocks, start, end) && i < |blocks|
    ensures Tiled(Freed(blocks, i), start, end)
  {
  }

  lemma FreedFreeSum(blocks: seq<Block>, i: nat)
    requires i < |blocks| && !blocks[i].free
    ensures FreeSum(Freed(blocks, i)) == FreeSum(blocks) + blocks[i].size
  {
    assert blocks[i..i + 1] == [blocks[i]];
    assert Freed(blocks, i) == blocks[..i] + [blocks[i].(free := true)] + blocks[i + 1..];
    FreeSumReplace(blocks, i, 1, [blocks[i].(free := true)]);
  }

  lemma JoinNextTiled(blocks: seq<Block>, i: nat, start: nat, end: nat)
    requires Tiled(blocks, start, end) && i < |blocks|
    ensures Tiled(JoinNext(blocks, i), start, end)
  {
    var r := JoinNext(blocks, i);
    if i + 1 < |blocks| && blocks[i + 1].free {
      assert blocks[i].address + blocks[i].size == AddressAt(blocks, i + 1, end);
      assert blocks[i + 1].address + blocks[i + 1].size == AddressAt(blocks, i + 2, end);
      SumAligned(blocks[i].size, blocks[i + 1].size);
      forall j | 0 <= j < |r|
        ensures r[j].size >= SMALLEST && Aligned(r[j].size)
        ensures r[j].address + r[j].size == AddressAt(r, j + 1, end)
      {
        if j < i { assert r[j] == blocks[j]; }
        if j > i { assert r[j] == blocks[j + 1]; }
      }
    }
  }

  lemma PairFreeSum(blocks: seq<Block>, i: nat)
    requires i + 1 < |blocks| && blocks[i].free && blocks[i + 1].free
    ensures FreeSum(blocks[i..i + 2]) == blocks[i].size + blocks[i + 1].size
  {
    hide FreeSum;
    assert blocks[i..i + 2] == [blocks[i]] + [blocks[i + 1]];
    FreeSumConcat([blocks[i]], [blocks[i + 1]]);
    FreeSumOne(blocks[i]);
    FreeSumOne(blocks[i + 1]);
  }

  lemma JoinNextFreeSum(blocks: seq<Block>, i: nat)
    requires i < |blocks| && blocks[i].free
    ensures FreeSum(JoinNext(blocks, i)) == FreeSum(blocks)
  {
    hide FreeSum;
    if i + 1 < |blocks| && blocks[i + 1].free {
      var joined := Block(blocks[i].address, blocks[i].size + blocks[i + 1].size, true);
      PairFreeSum(blocks, i);
      FreeSumReplace(blocks, i, 2, [joined]);
      FreeSumOne(joined);
    }
  }

  lemma CoalesceTiled(blocks: seq<Block>, i: nat, start: nat, end: nat)
    requires Tiled(blocks, start, end) && i < |blocks| && blocks[i].free
    ensures Tiled(Coalesce(blocks, i), start, end)
    ensures FreeSum(Coalesce(blocks, i)) == FreeSum(blocks)
  {
    hide JoinNext;
    var joined := JoinNext(blocks, i);
    JoinNextTiled(blocks, i, start, end);
    JoinNextFreeSum(blocks, i);
    JoinNextPrefix(blocks, i);
    if i > 0 && joined[i - 1].free {
      JoinNextTiled(joined, i - 1, start, end);
      JoinNextFreeSum(joined, i - 1);
    }
  }

  lemma JoinNextPrefix(blocks: seq<Block>, i: nat)
    requires i < |blocks| && blocks[i].free
    ensures |JoinNext(blocks, i)| > i && JoinNext(blocks, i)[i].free
  {
  }

  /** Allocation and freeing leave every other live block where it is. */
  lemma OthersStay(blocks: seq<Block>, total: nat, i: nat, b: Block)
    requires b in blocks && !b.free && i < |blocks|
    ensures b in Allocate(blocks, total)
    ensures b != blocks[i] ==> b in Freed(blocks, i) && b in Coalesce(Freed(blocks, i), i)
  {
    var k :| 0 <= k < |blocks| && blocks[k] == b;
    var fit := FirstFit(blocks, total, 0);
    if total != 0 && fit.Some? {
      var r := AllocateAt(blocks, fit.value, total);
      assert r[if k < fit.value then k else k + |r| - |blocks|] == b;
    }
    if b != blocks[i] {
      assert Freed(blocks, i)[k] == b;
      JoinNextKeeps(Freed(blocks, i), i, b);
      var joined := JoinNext(Freed(blocks, i), i);
      JoinNextPrefix(Freed(blocks, i), i);
      if i > 0 && joined[i - 1].free { JoinNextKeeps(joined, i - 1, b); }
    }
  }

  lemma JoinNextKeeps(blocks: seq<Block>, i: nat, b: Block)
    requires b in blocks && !b.free && i < |blocks| && blocks[i].free
    ensures b in JoinNext(blocks, i)
  {
    var k :| 0 <= k < |blocks| && blocks[k] == b;
    var r := JoinNext(blocks, i);
    if i + 1 < |blocks| && blocks[i + 1].free {
      assert r[if k < i then k else k - 1] == b;
    }
  }

  // ---------- what malloc can and cannot serve ----------

  ghost predicate FreeRun(blocks: seq<Block>, i: nat, j: nat) {
    i < j <= |blocks| && forall k :: i <= k < j ==> blocks[k].free
  }

  lemma OneBlockRuns(blocks: seq<Block>, i: nat, j: nat)
    requires Coalesced(blocks) && FreeRun(blocks, i, j)
    ensures j == i + 1
  {
    assert blocks[i].free;
  }

  /** heap_4 refuses a request exactly if it exceeds every contiguous stretch of free
      memory, header included. */
  lemma RefusedIffNoRun(blocks: seq<Block>, start: nat, end: nat, total: nat)
    requires Tiled(blocks, start, end) && Coalesced(blocks)
    ensures FirstFit(blocks, total, 0).None? <==>
      forall i: nat, j: nat {:trigger FreeRun(blocks, i, j)} ::
        FreeRun(blocks, i, j) ==> AddressAt(blocks, j, end) - blocks[i].address < total
  {
    forall i: nat, j: nat | FreeRun(blocks, i, j) ensures j == i + 1 && AddressAt(blocks, j, end) == blocks[i].address + blocks[i].size {
      OneBlockRuns(blocks, i, j);
    }
    if FirstFit(blocks, total, 0).Some? {
      var k := FirstFit(blocks, total, 0).value;
      assert FreeRun(blocks, k, k + 1);
    }
  }

  // ---------- what coalescing is worth ----------

  function Larger(a: nat, b: nat): nat {
    if a < b then b else a
  }

  /** The size of the largest free block. */
  function LargestFree(blocks: seq<Block>): nat {
    if blocks == [] then 0
    else Larger(if blocks[0].free then blocks[0].size else 0, LargestFree(blocks[1..]))
  }

  /** The length of the free run at the head. */
  function HeadRun(blocks: seq<Block>): nat {
    if blocks == [] || !blocks[0].free then 0 else blocks[0].size + HeadRun(blocks[1..])
  }

  /** The length of the longest free run. */
  function LargestRun(blocks: seq<Block>): nat {
    if blocks == [] then 0 else Larger(HeadRun(blocks), LargestRun(blocks[1..]))
  }

  /** First fit serves exactly what the largest free block holds. */
  lemma {:induction false} ServedIffLargest(blocks: seq<Block>, total: nat, from: nat)
    requires total > 0 && from <= |blocks|
    ensures FirstFit(blocks, total, from).Some? <==> total <= LargestFree(blocks[from..])
    decreases |blocks| - from
  {
    if from < |blocks| {
      assert blocks[from..][1..] == blocks[from + 1..];
      ServedIffLargest(blocks, total, from + 1);
    }
  }

  lemma TiledHead(blocks: seq<Block>, start: nat, end: nat)
    requires Tiled(blocks, start, end)
    ensures AddressAt(blocks, 0, end) == start
  {
  }

  /** From the head of the list to index `j`, all free. */
  lemma {:induction false} HeadRunIs(blocks: seq<Block>, start: nat, end: nat) returns (j: nat)
    requires Tiled(blocks, start, end) && HeadRun(blocks) > 0
    ensures FreeRun(blocks, 0, j) && AddressAt(blocks, j, end) - start == HeadRun(blocks)
    decreases |blocks|
  {
    hide Tiled, Aligned;
    TiledTail(blocks, start, end);
    TiledHead(blocks, start, end);
    TiledAt(blocks, start, end, 0);
    if HeadRun(blocks[1..]) > 0 {
      var k := HeadRunIs(blocks[1..], start + blocks[0].size, end);
      j := k + 1;
    } else {
      j := 1;
    }
  }

  lemma {:induction false} HeadRunBound(blocks: seq<Block>, start: nat, end: nat, j: nat)
    requires Tiled(blocks, start, end) && FreeRun(blocks, 0, j)
    ensures AddressAt(blocks, j, end) - start <= HeadRun(blocks)
    decreases |blocks|
  {
    hide Tiled, Aligned;
    TiledTail(blocks, start, end);
    TiledHead(blocks, start, end);
    TiledAt(blocks, start, end, 0);
    if j > 1 {
      assert FreeRun(blocks[1..], 0, j - 1);
      HeadRunBound(blocks[1..], start + blocks[0].size, end, j - 1);
    }
  }

  lemma {:induction false} RunBound(blocks: seq<Block>, start: nat, end: nat, i: nat, j: nat)
    requires Tiled(blocks, start, end) && FreeRun(blocks, i, j)
    ensures AddressAt(blocks, j, end) - blocks[i].address <= LargestRun(blocks)
    decreases i
  {
    hide Tiled, Aligned;
    TiledHead(blocks, start, end);
    if i == 0 {
      HeadRunBound(blocks, start, end, j);
    } else {
      TiledTail(blocks, start, end);
      assert FreeRun(blocks[1..], i - 1, j - 1);
      RunBound(blocks[1..], start + blocks[0].size, end, i - 1, j - 1);
    }
  }

  lemma {:induction false} RunFound(blocks: seq<Block>, start: nat, end: nat) returns (i: nat, j: nat)
    requires Tiled(blocks, start, end) && LargestRun(blocks) > 0
    ensures FreeRun(blocks, i, j) && AddressAt(blocks, j, end) - blocks[i].address == LargestRun(blocks)
    decreases |blocks|
  {
    hide Tiled, Aligned;
    TiledHead(blocks, start, end);
    TiledTail(blocks, start, end);
    if LargestRun(blocks) == HeadRun(blocks) {
      i := 0;
      j := HeadRunIs(blocks, start, end);
    } else {
      i, j := RunFound(blocks[1..], start + blocks[0].size, end);
      i, j := i + 1, j + 1;
    }
  }

  /** `LargestRun` is the length of the longest contiguous stretch of free memory. */
  lemma LargestRunIs(blocks: seq<Block>, start: nat, end: nat, total: nat)
    requires Tiled(blocks, start, end) && total > 0
    ensures total <= LargestRun(blocks) <==>
      exists i: nat, j: nat {:trigger FreeRun(blocks, i, j)} ::
        FreeRun(blocks, i, j) && total <= AddressAt(blocks, j, end) - blocks[i].address
  {
    hide Tiled;
    if total <= LargestRun(blocks) {
      var i, j := RunFound(blocks, start, end);
    }
    forall i: nat, j: nat | FreeRun(blocks, i, j) ensures AddressAt(blocks, j, end) - blocks[i].address <= LargestRun(blocks) {
      RunBound(blocks, start, end, i, j);
    }
  }

  /** Coalescing makes every free run a block. */
  lemma {:induction false} NormalizeLargest(blocks: seq<Block>)
    ensures LargestFree(Normalize(blocks)) == LargestRun(blocks)
    ensures blocks != [] && blocks[0].free ==> Normalize(blocks)[0].size == HeadRun(blocks)
  {
    if blocks != [] {
      NormalizeLargest(blocks[1..]);
      var rest, r := Normalize(blocks[1..]), Normalize(blocks);
      if blocks[0].free && rest != [] && rest[0].free {
        assert r[1..] == rest[1..];
      } else {
        assert r[1..] == rest && r[0] == blocks[0];
        assert blocks[0].free ==> HeadRun(blocks[1..]) == 0;
      }
    }
  }

  /** On every heap, a request that heap_2 refuses and that would be served if the free
      runs were coalesced is one between the largest free block and the longest free run. */
  lemma FragmentedIff(blocks: seq<Block>, total: nat)
    requires total > 0
    ensures FirstFit(blocks, total, 0).None? && FirstFit(Normalize(blocks), total, 0).Some?
      <==> LargestFree(blocks) < total <= LargestRun(blocks)
    ensures FirstFit(blocks, total, 0).Some? ==> FirstFit(Normalize(blocks), total, 0).Some?
  {
    ServedIffLargest(blocks, total, 0);
    ServedIffLargest(Normalize(blocks), total, 0);
    NormalizeLargest(blocks);
    BlocksWithinRuns(blocks);
    assert blocks[0..] == blocks && Normalize(blocks)[0..] == Normalize(blocks);
  }

  lemma {:induction false} BlocksWithinRuns(blocks: seq<Block>)
    ensures LargestFree(blocks) <= LargestRun(blocks)
  {
    if blocks != [] { BlocksWithinRuns(blocks[1..]); }
  }

  // ---------- runs ----------

  datatype Request = Malloc(size: Size) | Free(payload: nat)

  /** The live block with this payload address. */
  function LiveIndex(blocks: seq<Block>, payload: nat): (r: Option<nat>)
    ensures r.Some? ==> r.value < |blocks| && !blocks[r.value].free && blocks[r.value].address + HEADER == payload
    ensures r.None? ==> forall i :: 0 <= i < |blocks| && !blocks[i].free ==> blocks[i].address + HEADER != payload
  {
    if blocks == [] then None
    else if !blocks[0].free && blocks[0].address + HEADER == payload then Some(0)
    else
      match LiveIndex(blocks[1..], payload)
      case Some(i) => Some(i + 1)
      case None => None
  }

  /** One call; freeing what is not live is an error of the caller and not served. */
  function Serve(blocks: seq<Block>, request: Request): (r: seq<Block>) {
    match request
    case Malloc(size) => Allocate(blocks, TotalSize(size))
    case Free(payload) =>
      match LiveIndex(blocks, payload)
      case Some(i) => Coalesce(Freed(blocks, i), i)
      case None => blocks
  }

  function ServeAll(blocks: seq<Block>, requests: seq<Request>): (r: seq<Block>)
    decreases |requests|
  {
    if requests == [] then blocks else ServeAll(Serve(blocks, requests[0]), requests[1..])
  }

  lemma ServeKeeps(blocks: seq<Block>, request: Request, start: nat, end: nat)
    requires Tiled(blocks, start, end) && Coalesced(blocks)
    ensures Tiled(Serve(blocks, request), start, end) && Coalesced(Serve(blocks, request))
  {
    match request
    case Malloc(size) => AllocateTiled(blocks, TotalSize(size), start, end);
    case Free(payload) =>
      var live := LiveIndex(blocks, payload);
      if live.Some? {
        FreedTiled(blocks, live.value, start, end);
        CoalesceTiled(Freed(blocks, live.value), live.value, start, end);
        CoalesceIsNormalize(blocks, live.value);
        NormalizeCoalesced(Freed(blocks, live.value));
      }
  }

  /** Every sequence of calls keeps the heap tiled, with no two free neighbours. */
  lemma {:induction false} ServeAllKeeps(blocks: seq<Block>, requests: seq<Request>, start: nat, end: nat)
    requires Tiled(blocks, start, end) && Coalesced(blocks)
    ensures Tiled(ServeAll(blocks, requests), start, end) && Coalesced(ServeAll(blocks, requests))
    decreases |requests|
  {
    if requests != [] {
      ServeKeeps(blocks, requests[0], start, end);
      ServeAllKeeps(Serve(blocks, requests[0]), requests[1..], start, end);
    }
  }

  /** A live block survives every call but the freeing of its own payload. */
  lemma ServeKeepsLive(blocks: seq<Block>, request: Request, start: nat, end: nat, b: Block)
    requires Tiled(blocks, start, end) && b in blocks && !b.free && request != Free(b.address + HEADER)
    ensures b in Serve(blocks, request)
  {
    match request
    case Malloc(size) =>
      var k :| 0 <= k < |blocks| && blocks[k] == b;
      OthersStay(blocks, TotalSize(size), k, b);
    case Free(payload) =>
      var live := LiveIndex(blocks, payload);
      if live.Some? { OthersStay(blocks, 0, live.value, b); }
  }

  /** What malloc returned stays allocated, in its place and size, until it is freed. */
  lemma {:induction false} LiveUntilFreed(blocks: seq<Block>, requests: seq<Request>, start: nat, end: nat, b: Block)
    requires Tiled(blocks, start, end) && Coalesced(blocks) && b in blocks && !b.free
    requires forall i :: 0 <= i < |requests| ==> requests[i] != Free(b.address + HEADER)
    ensures b in ServeAll(blocks, requests)
    decreases |requests|
  {
    if requests != [] {
      ServeKeepsLive(blocks, requests[0], start, end, b);
      ServeKeeps(blocks, requests[0], start, end);
      LiveUntilFreed(Serve(blocks, requests[0]), requests[1..], start, end, b);
    }
  }

  ghost predicate AllFree(blocks: seq<Block>) {
    forall i {:trigger blocks[i]} :: 0 <= i < |blocks| ==> blocks[i].free
  }

  /** However the live blocks were freed, an empty heap is one free block of full size. */
  lemma AllFreedRestores(start: nat, end: nat, requests: seq<Request>)
    requires end - start >= SMALLEST && Aligned(end - start)
    requires AllFree(ServeAll([Block(start, end - start, true)], requests))
    ensures ServeAll([Block(start, end - start, true)], requests) == [Block(start, end - start, true)]
  {
    var initial := [Block(start, end - start, true)];
    ServeAllKeeps(initial, requests, start, end);
    var r := ServeAll(initial, requests);
    assert |r| == 1;
    assert r[0].address + r[0].size == AddressAt(r, 1, end);
  }

  /** Live payloads are aligned, inside the heap, and clear of each other and of every
      header. */
  lemma LiveAreSafe(blocks: seq<Block>, start: nat, end: nat, i: nat, j: nat)
    requires Tiled(blocks, start, end) && Aligned(start)
    requires i < |blocks| && !blocks[i].free && j < |blocks| && i != j
    ensures var payload, limit := blocks[i].address + HEADER, blocks[i].address + blocks[i].size;
      && Aligned(payload) && start + HEADER <= payload < limit <= end
      && (limit <= blocks[j].address || blocks[j].address + blocks[j].size <= blocks[i].address)
  {
    hide Tiled, Aligned;
    PayloadInside(blocks, start, end, i);
    TiledAt(blocks, start, end, i);
    if i < j { TiledOrder(blocks, start, end, i, j); } else { TiledOrder(blocks, start, end, j, i); }
  }

  /** What malloc returned holds what was asked for, and does so until it is freed. */
  lemma AllocationHolds(blocks: seq<Block>, size: Size, later: seq<Request>, start: nat, end: nat)
    requires Tiled(blocks, start, end) && Coalesced(blocks) && Aligned(start)
    requires TotalSize(size) != 0 && FirstFit(blocks, TotalSize(size), 0).Some?
    ensures var k := FirstFit(blocks, TotalSize(size), 0).value; var served := Serve(blocks, Malloc(size));
      && k < |served| && !served[k].free
      && var payload := served[k].address + HEADER;
      && Aligned(payload) && start + HEADER <= payload && payload + size <= served[k].address + served[k].size <= end
      && ((forall i :: 0 <= i < |later| ==> later[i] != Free(payload)) ==> served[k] in ServeAll(served, later))
  {
    hide Tiled, Coalesced, Aligned, FirstFit, TotalSize, Serve, ServeAll;
    var k := FirstFit(blocks, TotalSize(size), 0).value;
    var served := Serve(blocks, Malloc(size));
    ServedIs(blocks, size);
    ServeKeeps(blocks, Malloc(size), start, end);
    PayloadInside(served, start, end, k);
    if forall i :: 0 <= i < |later| ==> later[i] != Free(served[k].address + HEADER) {
      LiveUntilFreed(served, later, start, end, served[k]);
    }
  }

  lemma ServedIs(blocks: seq<Block>, size: Size)
    requires TotalSize(size) != 0 && FirstFit(blocks, TotalSize(size), 0).Some?
    ensures var k := FirstFit(blocks, TotalSize(size), 0).value; var served := Serve(blocks, Malloc(size));
      k < |served| && !served[k].free && served[k].size >= size + HEADER
  {
    hide FirstFit;
    var k := FirstFit(blocks, TotalSize(size), 0).value;
    assert !AllocateAt(blocks, k, TotalSize(size))[k].free;
  }

  lemma PayloadInside(blocks: seq<Block>, start: nat, end: nat, i: nat)
    requires Tiled(blocks, start, end) && Aligned(start) && i < |blocks|
    ensures var payload := blocks[i].address + HEADER;
      Aligned(payload) && start + HEADER <= payload && blocks[i].address + blocks[i].size <= end
  {
    hide Tiled, Aligned;
    TiledAligned(blocks, start, end, i);
    TiledAt(blocks, start, end, i);
    TiledAligned(blocks, start, end, i + 1);
    HeaderAligned();
    SumAligned(blocks[i].address, HEADER);
  }

  lemma HeaderAligned()
    ensures Aligned(HEADER)
  {
  }

  // ---------- heap_2 ----------

  /** One call to heap_2, which never coalesces. */
  function Serve2(blocks: seq<Block>, request: Request): (r: seq<Block>) {
    match request
    case Malloc(size) => Allocate(blocks, TotalSize(size))
    case Free(payload) =>
      match LiveIndex(blocks, payload)
      case Some(i) => Freed(blocks, i)
      case None => blocks
  }

  function ServeAll2(blocks: seq<Block>, requests: seq<Request>): (r: seq<Block>)
    decreases |requests|
  {
    if requests == [] then blocks else ServeAll2(Serve2(blocks, requests[0]), requests[1..])
  }

  lemma Serve2Keeps(blocks: seq<Block>, request: Request, start: nat, end: nat)
    requires Tiled(blocks, start, end)
    ensures Tiled(Serve2(blocks, request), start, end)
  {
    match request
    case Malloc(size) => AllocateTiled(blocks, TotalSize(size), start, end);
    case Free(payload) =>
      var live := LiveIndex(blocks, payload);
      if live.Some? { FreedTiled(blocks, live.value, start, end); }
  }

  /** Every sequence of calls to heap_2 keeps the heap tiled. */
  lemma {:induction false} ServeAll2Keeps(blocks: seq<Block>, requests: seq<Request>, start: nat, end: nat)
    requires Tiled(blocks, start, end)
    ensures Tiled(ServeAll2(blocks, requests), start, end)
    decreases |requests|
  {
    if requests != [] {
      Serve2Keeps(blocks, requests[0], start, end);
      ServeAll2Keeps(Serve2(blocks, requests[0]), requests[1..], start, end);
    }
  }

  /** After any calls to heap_2, the next request is refused although a contiguous stretch
      of free memory would hold it if and only if no single free block does and such a
      stretch exists. */
  lemma Heap2RefusesIff(requests: seq<Request>, start: nat, end: nat, size: Size)
    requires end - start >= SMALLEST && Aligned(end - start) && TotalSize(size) != 0
    ensures var r := ServeAll2([Block(start, end - start, true)], requests); var total := TotalSize(size);
      && (FirstFit(r, total, 0).None? && FirstFit(Normalize(r), total, 0).Some? <==> LargestFree(r) < total <= LargestRun(r))
      && (total <= LargestRun(r) <==> exists i: nat, j: nat {:trigger FreeRun(r, i, j)} ::
            FreeRun(r, i, j) && total <= AddressAt(r, j, end) - r[i].address)
  {
    hide Tiled;
    var initial := [Block(start, end - start, true)];
    assert Tiled(initial, start, end) by { OneTile(start, end); }
    ServeAll2Keeps(initial, requests, start, end);
    FragmentedIff(ServeAll2(initial, requests), TotalSize(size));
    LargestRunIs(ServeAll2(initial, requests), start, end, TotalSize(size));
  }

  lemma OneTile(start: nat, end: nat)
    requires end - start >= SMALLEST && Aligned(end - start)
    ensures Tiled([Block(start, end - start, true)], start, end)
  {
  }

  /** Calls that lead there: two blocks of the smallest size fill the heap and are freed;
      then heap_2 refuses a request for all of it, which heap_4 serves. */
  lemma Heap2Fragments(start: nat, requests: seq<Request>)
    requires requests == [Malloc(8), Malloc(8), Free(start + HEADER), Free(start + SMALLEST + HEADER)]
    ensures var r := ServeAll2([Block(start, 2 * SMALLEST, true)], requests); var total := TotalSize(SMALLEST + 8);
      && r == [Block(start, SMALLEST, true), Block(start + SMALLEST, SMALLEST, true)]
      && total == 2 * SMALLEST && FirstFit(r, total, 0).None? && FirstFit(Normalize(r), total, 0) == Some(0)
  {
    hide Serve2;
    var initial := [Block(start, 2 * SMALLEST, true)];
    FourCalls(initial, requests);
    FillsHeap(start);
    EmptiesHeap(start);
    HalvesRefuse(start);
  }

  lemma HalvesRefuse(start: nat)
    ensures var halves := [Block(start, SMALLEST, true), Block(start + SMALLEST, SMALLEST, true)];
      var total := TotalSize(SMALLEST + 8);
      && total == 2 * SMALLEST && FirstFit(halves, total, 0).None? && FirstFit(Normalize(halves), total, 0) == Some(0)
  {
    var left, right := Block(start, SMALLEST, true), Block(start + SMALLEST, SMALLEST, true);
    assert [left, right][1..] == [right];
    assert Normalize([left, right]) == [Block(start, 2 * SMALLEST, true)];
  }

  lemma FourCalls(blocks: seq<Block>, requests: seq<Request>)
    requires |requests| == 4
    ensures ServeAll2(blocks, requests)
      == Serve2(Serve2(Serve2(Serve2(blocks, requests[0]), requests[1]), requests[2]), requests[3])
  {
    hide Serve2;
    var first := Serve2(blocks, requests[0]);
    var second := Serve2(first, requests[1]);
    var third := Serve2(second, requests[2]);
    assert requests[1..][1..] == requests[2..] && requests[2..][1..] == requests[3..] && requests[3..][1..] == [];
    assert ServeAll2(first, requests[1..]) == ServeAll2(second, requests[2..]);
    assert ServeAll2(third, requests[3..]) == ServeAll2(Serve2(third, requests[3]), []);
  }

  lemma FillsHeap(start: nat)
    ensures Serve2(Serve2([Block(start, 2 * SMALLEST, true)], Malloc(8)), Malloc(8))
      == [Block(start, SMALLEST, false), Block(start + SMALLEST, SMALLEST, false)]
  {
    assert TotalSize(8) == SMALLEST;
    var half := [Block(start, SMALLEST, false), Block(start + SMALLEST, SMALLEST, true)];
    assert Serve2([Block(start, 2 * SMALLEST, true)], Malloc(8)) == half;
    assert FirstFit(half, SMALLEST, 0) == Some(1);
  }

  lemma EmptiesHeap(start: nat)
    ensures var full := [Block(start, SMALLEST, false), Block(start + SMALLEST, SMALLEST, false)];
      Serve2(Serve2(full, Free(start + HEADER)), Free(start + SMALLEST + HEADER))
        == [Block(start, SMALLEST, true), Block(start + SMALLEST, SMALLEST, true)]
  {
    var full := [Block(start, SMALLEST, false), Block(start + SMALLEST, SMALLEST, false)];
    var half := [Block(start, SMALLEST, true), Block(start + SMALLEST, SMALLEST, false)];
    assert Serve2(full, Free(start + HEADER)) == half;
    assert half[1..] == [half[1]];
  }
}
