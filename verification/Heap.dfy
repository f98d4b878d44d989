/** kernel/heap_4.c and kernel/heap_2.c over a memory in which headers and payloads
    share one address space. A header field occupies the cell at its first byte; a
    payload byte occupies its own cell. The two files differ only in the coalescing at
    the end of vPortFree. */
module Heap {
  import opened KernelState
  import opened HeapBlocks
  import opened HeapTheorems

  datatype Scheme = Heap2 | Heap4

  const NULL: nat := 0
  const NEXT: nat := if WIDE then 8 else 4
  const MAGIC: nat := if WIDE then 16 else 8
  const FREE_MAGIC: nat := 0x46524545
  const ALLOCATED_MAGIC: nat := 0x414C4C4F

  /** The first free block from index `k` on. */
  function NextIndex(blocks: seq<Block>, k: nat): (r: nat)
    requires k <= |blocks|
    ensures k <= r <= |blocks| && (r < |blocks| ==> blocks[r].free)
    ensures forall i :: k <= i < r ==> !blocks[i].free
    decreases |blocks| - k
  {
    if k == |blocks| || blocks[k].free then k else NextIndex(blocks, k + 1)
  }

  /** Its address, NULL if there is none. */
  function NextFree(blocks: seq<Block>, k: nat): nat
    requires k <= |blocks|
  {
    AddressAt(blocks, NextIndex(blocks, k), NULL)
  }

  lemma NextFreeIs(blocks: seq<Block>, k: nat, r: nat)
    requires k <= r <= |blocks| && (r < |blocks| ==> blocks[r].free)
    requires forall i :: k <= i < r ==> !blocks[i].free
    ensures NextIndex(blocks, k) == r && NextFree(blocks, k) == AddressAt(blocks, r, NULL)
  {
  }

  ghost predicate Apart(blocks: seq<Block>) {
    forall i, j {:trigger blocks[i], blocks[j]} :: 0 <= i < j < |blocks| ==> blocks[i].address + blocks[i].size <= blocks[j].address
  }

  lemma TiledApart(blocks: seq<Block>, start: nat, end: nat)
    requires Tiled(blocks, start, end)
    ensures Fits(blocks, start, end)
  {
    forall i, j | 0 <= i < j < |blocks| ensures blocks[i].address + blocks[i].size <= blocks[j].address {
      TiledOrder(blocks, start, end, i, j);
    }
    forall i | 0 <= i < |blocks| ensures start <= blocks[i].address && blocks[i].address + blocks[i].size <= end {
      TiledOrder(blocks, start, end, i, |blocks|);
      if i > 0 { TiledOrder(blocks, start, end, 0, i); }
    }
  }

  lemma FirstFitIs(blocks: seq<Block>, total: nat, from: nat, k: nat)
    requires from <= k <= |blocks|
    requires forall i :: from <= i < k && blocks[i].free ==> blocks[i].size < total
    requires k < |blocks| ==> blocks[k].free && blocks[k].size >= total
    ensures FirstFit(blocks, total, from) == if k < |blocks| then Some(k) else None
  {
  }

  /** The header of block `i` as it stands in memory. */
  ghost predicate HeaderStored(cells: seq<nat>, bs: seq<Block>, i: nat)
    requires i < |bs| && bs[i].address + HEADER <= |cells|
  {
    var a := bs[i].address;
    && cells[a] == bs[i].size
    && cells[a + NEXT] == (if bs[i].free then NextFree(bs, i + 1) else NULL)
    && cells[a + MAGIC] == (if bs[i].free then FREE_MAGIC else ALLOCATED_MAGIC)
  }

  ghost predicate SameBut(before: seq<nat>, after: seq<nat>, changed: set<nat>) {
    |after| == |before| && forall x {:trigger after[x]} :: 0 <= x < |before| && x !in changed ==> after[x] == before[x]
  }

  function HeaderCells(a: nat): set<nat> {
    {a, a + NEXT, a + MAGIC}
  }

  /** The cells that allocation writes. */
  function WrittenCells(previous: nat, block: nat, size: nat, wanted: nat): set<nat> {
    HeaderCells(block)
    + (if size - wanted >= SMALLEST then HeaderCells(block + wanted) else {})
    + (if previous == NULL then {} else {previous + NEXT})
  }

  /** What allocation at `block` writes: the remainder's header if it splits, the link
      that bypasses the block, and the block's own header. */
  ghost predicate TakenWrites(
    before: seq<nat>, after: seq<nat>, previous: nat, block: nat, wanted: nat, link: nat, total: nat)
  {
    && block + HEADER <= |before| && wanted <= before[block] && block + before[block] <= |before|
    && (previous != NULL ==> previous + SMALLEST <= block)
    && SameBut(before, after, WrittenCells(previous, block, before[block], wanted))
    && after[block] == total && after[block + NEXT] == NULL && after[block + MAGIC] == ALLOCATED_MAGIC
    && (previous != NULL ==> after[previous + NEXT] == link)
    && if before[block] - wanted >= SMALLEST then
         && total == wanted && link == block + wanted
         && after[link] == before[block] - wanted && after[link + NEXT] == before[block + NEXT] && after[link + MAGIC] == FREE_MAGIC
       else total == before[block] && link == before[block + NEXT]
  }

  lemma TakenBlock(bs: seq<Block>, total: nat, k: nat)
    requires k < |bs| && total <= bs[k].size
    ensures var b := AllocateAt(bs, k, total)[k]; b.address == bs[k].address && !b.free && b.size >= total
  {
  }

  /** `x` is no heap address, or lies in the payload of a live block. */
  ghost predicate Outside(bs: seq<Block>, start: nat, end: nat, x: nat) {
    x < start || end <= x
    || exists i {:trigger bs[i]} :: 0 <= i < |bs| && !bs[i].free && bs[i].address + HEADER <= x < bs[i].address + bs[i].size
  }

  /** The payloads of live blocks, and all memory outside the heap, are as before. */
  ghost predicate PayloadsKept(before: seq<nat>, after: seq<nat>, bs: seq<Block>, start: nat, end: nat) {
    |after| == |before| && forall x {:trigger after[x]} :: 0 <= x < |before| && Outside(bs, start, end, x) ==> after[x] == before[x]
  }

  lemma PayloadAligned(a: nat)
    requires Aligned(a)
    ensures Aligned(a + HEADER)
  {
  }

  lemma LiveFound(bs: seq<Block>, pointer: nat)
    requires LiveIndex(bs, pointer).Some?
    ensures var i := LiveIndex(bs, pointer).value; i < |bs| && !bs[i].free && bs[i].address == pointer - HEADER
  {
  }

  lemma KeptSame(cells: seq<nat>, bs: seq<Block>, start: nat, end: nat)
    ensures PayloadsKept(cells, cells, bs, start, end)
  {
  }

  lemma KeptTransitive(before: seq<nat>, middle: seq<nat>, after: seq<nat>, bs: seq<Block>, start: nat, end: nat)
    requires PayloadsKept(before, middle, bs, start, end) && PayloadsKept(middle, after, bs, start, end)
    ensures PayloadsKept(before, after, bs, start, end)
  {
  }

  ghost predicate AllStored(cells: seq<nat>, bs: seq<Block>) {
    forall i {:trigger bs[i]} :: 0 <= i < |bs| ==> bs[i].address + HEADER <= |cells| && HeaderStored(cells, bs, i)
  }

  class Heap {
    const scheme: Scheme
    const memory: array<nat>
    const start: nat
    const usable: nat
    var freeList: nat
    var freeBytes: nat
    var initialized: bool
    ghost var blocks: seq<Block>

    ghost predicate Sited()
      reads this
    {
      && start > 0 && Aligned(start) && Aligned(usable) && usable >= SMALLEST
      && start + usable <= memory.Length && start + usable <= SIZE_MAX
      && Tiled(blocks, start, start + usable)
    }

    /** Every header is in place and the free list threads the free blocks in order. */
    ghost predicate Threaded()
      reads this, memory
    {
      && freeBytes == FreeSum(blocks)
      && freeList == NextFree(blocks, 0)
      && AllStored(memory[..], blocks)
    }

    ghost predicate Valid()
      reads this, memory
    {
      && Sited()
      && (scheme.Heap4? ==> Coalesced(blocks))
      && (if initialized then Threaded() else blocks == [Block(start, usable, true)])
    }

    constructor (scheme: Scheme, memory: array<nat>, start: nat, totalHeapSize: nat)
      requires start > 0 && Aligned(start) && totalHeapSize >= SMALLEST
      requires start + totalHeapSize <= memory.Length && start + totalHeapSize <= SIZE_MAX
      ensures Valid() && !initialized
      ensures this.scheme == scheme && this.memory == memory && this.start == start
      ensures usable == totalHeapSize - totalHeapSize % ALIGNMENT
      ensures blocks == [Block(start, usable, true)]
    {
      this.scheme, this.memory, this.start := scheme, memory, start;
      usable := totalHeapSize - totalHeapSize % ALIGNMENT;
      freeList, freeBytes, initialized := NULL, 0, false;
      blocks := [Block(start, totalHeapSize - totalHeapSize % ALIGNMENT, true)];
    }

    method Init()
      requires Valid()
      modifies this`freeList, this`freeBytes, this`initialized, memory
      ensures Valid() && initialized && blocks == old(blocks)
      ensures PayloadsKept(old(memory[..]), memory[..], blocks, start, start + usable)
    {
      if initialized { return; }
      freeList := start;
      memory[freeList] := usable;
      memory[freeList + NEXT] := NULL;
      memory[freeList + MAGIC] := FREE_MAGIC;
      freeBytes := usable;
      initialized := true;
      assert FreeSum(blocks) == usable by { FreeSumOne(blocks[0]); }
    }

    /** The header of block `k`, read from memory. */
    lemma HeaderAt(k: nat)
      requires Valid() && initialized && k < |blocks|
      ensures var a := blocks[k].address;
        && start <= a && a + blocks[k].size <= start + usable <= memory.Length && SMALLEST <= blocks[k].size
        && memory[a] == blocks[k].size
        && memory[a + NEXT] == (if blocks[k].free then NextFree(blocks, k + 1) else NULL)
        && memory[a + MAGIC] == (if blocks[k].free then FREE_MAGIC else ALLOCATED_MAGIC)
    {
      hide Tiled, Coalesced, FreeSum;
      TiledApart(blocks, start, start + usable);
      assert HeaderStored(memory[..], blocks, k);
    }

    /** The first-fit search: the fitting block and the free block before it. */
    method FindFit(total: nat) returns (previous: nat, block: nat, ghost p: nat, ghost k: nat)
      requires Valid() && initialized
      ensures k <= |blocks| && block == AddressAt(blocks, k, NULL) && (k < |blocks| ==> blocks[k].free && blocks[k].size >= total)
      ensures FirstFit(blocks, total, 0) == if k < |blocks| then Some(k) else None
      ensures IsPrevious(previous, p, k)
    {
      hide FirstFit, Sited, Threaded, NextIndex;
      previous := NULL;
      block := freeList;
      p := 0;
      k := NextIndex(blocks, 0);
      ListHead();
      if k < |blocks| { HeaderAt(k); }
      while block != NULL && memory[block] < total
        invariant k <= |blocks| && block == AddressAt(blocks, k, NULL)
        invariant k < |blocks| ==> blocks[k].free && 0 < block < memory.Length && memory[block] == blocks[k].size
        invariant forall i :: 0 <= i < k && blocks[i].free ==> blocks[i].size < total
        invariant IsPrevious(previous, p, k)
        decreases |blocks| - k
      {
        HeaderAt(k);
        previous := block;
        p := k;
        block := memory[block + NEXT];
        k := NextIndex(blocks, k + 1);
        if k < |blocks| { HeaderAt(k); }
      }
      FirstFitIs(blocks, total, 0, k);
    }

    lemma ListHead()
      requires Valid() && initialized
      ensures freeList == NextFree(blocks, 0) && start > 0
    {
    }

    /** `previous` is the last free block before index `k`, if there is one. */
    ghost predicate IsPrevious(previous: nat, p: nat, k: nat)
      reads this
    {
      LastBefore(blocks, previous == NULL, p, k) && (previous != NULL ==> blocks[p].address == previous)
    }

    method Malloc(size: Size) returns (payload: nat)
      requires Valid()
      modifies this, memory
      ensures Valid() && (initialized || blocks == old(blocks))
      ensures blocks == Allocate(old(blocks), TotalSize(size))
      ensures payload == NULL <==> TotalSize(size) == 0 || FirstFit(old(blocks), TotalSize(size), 0).None?
      ensures payload != NULL ==>
        var k := FirstFit(old(blocks), TotalSize(size), 0).value;
        blocks[k].address + HEADER == payload && !blocks[k].free && blocks[k].size >= size + HEADER
      ensures PayloadsKept(old(memory[..]), memory[..], old(blocks), start, start + usable)
    {
      hide Sited, Threaded, FirstFit, AllocateAt, PayloadsKept, LastBefore, Aligned;
      KeptSame(memory[..], blocks, start, start + usable);
      if size == 0 { return NULL; }
      var aligned := AlignUp(size);
      if aligned == 0 || aligned > SIZE_MAX - HEADER { return NULL; }
      var total := AlignUp(aligned + HEADER);
      if total == 0 { return NULL; }
      assert total == TotalSize(size);
      hide TotalSize, AlignUp;
      Init();
      ghost var p, k, initial := 0, 0, memory[..];
      var previous, block;
      previous, block, p, k := FindFit(total);
      if block == NULL {
        if k < |blocks| { NoBlockIsNull(k); }
        return NULL;
      }
      Take(previous, block, total, previous == NULL, p, k);
      KeptTransitive(old(memory[..]), initial, memory[..], old(blocks), start, start + usable);
      TakenBlock(old(blocks), total, k);
      payload := block + HEADER;
    }

    lemma NoBlockIsNull(k: nat)
      requires Valid() && k < |blocks|
      ensures blocks[k].address != NULL
    {
      TiledApart(blocks, start, start + usable);
    }

    /** Splits or takes block `k` and unlinks it from the free list. */
    method Take(previous: nat, block: nat, wanted: nat, ghost first: bool, ghost p: nat, ghost k: nat)
      requires Valid() && initialized
      requires k < |blocks| && blocks[k].free && block == blocks[k].address && SMALLEST <= wanted <= blocks[k].size
      requires Aligned(wanted)
      requires LastBefore(blocks, first, p, k) && previous == (if first then NULL else blocks[p].address)
      modifies this`freeList, this`freeBytes, this`blocks, memory
      ensures Valid() && initialized && blocks == AllocateAt(old(blocks), k, wanted)
      ensures PayloadsKept(old(memory[..]), memory[..], old(blocks), start, start + usable)
    {
      hide Tiled, Coalesced, FreeSum, NextFree, NextIndex, AllStored, Taking, TakenWrites, PayloadsKept, LastBefore;
      MayTake(previous, wanted, first, p, k);
      AllocateAtFreeSum(blocks, k, wanted);
      var link, total := WriteTaken(previous, block, wanted);
      TakenStored(old(memory[..]), memory[..], blocks, start, start + usable, previous, wanted, first, p, k, link, total);
      if previous == NULL { freeList := link; }
      assert freeBytes >= total && old(memory[block + MAGIC]) == FREE_MAGIC;
      freeBytes := freeBytes - total;
      hide AllocateAt;
      blocks := AllocateAt(blocks, k, wanted);
      TakenSited(old(blocks), wanted, k);
    }

    method WriteHeader(block: nat, size: nat, next: nat, magic: nat)
      requires block + HEADER <= memory.Length
      modifies memory
      ensures memory[block] == size && memory[block + NEXT] == next && memory[block + MAGIC] == magic
      ensures forall x :: 0 <= x < memory.Length && x !in HeaderCells(block) ==> memory[x] == old(memory[x])
    {
      memory[block] := size;
      memory[block + NEXT] := next;
      memory[block + MAGIC] := magic;
    }

    lemma MayTake(previous: nat, wanted: nat, first: bool, p: nat, k: nat)
      requires Valid() && initialized
      requires k < |blocks| && blocks[k].free && SMALLEST <= wanted <= blocks[k].size
      requires LastBefore(blocks, first, p, k) && previous == (if first then NULL else blocks[p].address)
      ensures Taking(blocks, start, start + usable, previous, wanted, first, p, k) && start + usable <= memory.Length
      ensures AllStored(memory[..], blocks) && (previous != NULL ==> previous + SMALLEST <= blocks[k].address)
      ensures first <==> previous == NULL
      ensures var a := blocks[k].address;
        && a + blocks[k].size <= memory.Length && memory[a] == blocks[k].size && memory[a + MAGIC] == FREE_MAGIC
    {
      hide Tiled, Coalesced, FreeSum, NextFree, NextIndex;
      TiledApart(blocks, start, start + usable);
      HeaderAt(k);
      if !first { HeaderAt(p); }
    }

    lemma TakenSited(bs: seq<Block>, wanted: nat, k: nat)
      requires k < |bs| && SMALLEST <= wanted <= bs[k].size && Aligned(wanted) && bs[k].free
      requires Tiled(bs, start, start + usable) && (scheme.Heap4? ==> Coalesced(bs))
      requires blocks == AllocateAt(bs, k, wanted)
      ensures Tiled(blocks, start, start + usable) && (scheme.Heap4? ==> Coalesced(blocks))
    {
      AllocateAtTiled(bs, k, wanted, start, start + usable);
      if scheme.Heap4? { AllocateAtCoalesced(bs, k, wanted); }
    }

    /** The header writes of an allocation; `link` replaces `block` in the free list. */
    method WriteTaken(previous: nat, block: nat, wanted: nat) returns (link: nat, total: nat)
      requires block + HEADER <= memory.Length && SMALLEST <= wanted <= memory[block]
      requires block + memory[block] <= memory.Length
      requires previous != NULL ==> previous + SMALLEST <= block
      modifies memory
      ensures TakenWrites(old(memory[..]), memory[..], previous, block, wanted, link, total)
    {
      var size, next := memory[block], memory[block + NEXT];
      if size - wanted >= SMALLEST {
        total, link := wanted, block + wanted;
        WriteHeader(link, size - total, next, FREE_MAGIC);
      } else {
        total, link := size, next;
      }
      if previous != NULL { memory[previous + NEXT] := link; }
      WriteHeader(block, total, NULL, ALLOCATED_MAGIC);
    }

    /** The tests of prvBlockPointerIsValid. */
    ghost predicate LooksLive(pointer: nat)
      requires start + usable <= memory.Length
      reads memory
    {
      && pointer != NULL && start + HEADER <= pointer < start + usable && Aligned(pointer)
      && var block := pointer - HEADER;
      && memory[block + MAGIC] == ALLOCATED_MAGIC
      && SMALLEST <= memory[block] <= usable - (block - start) && Aligned(memory[block])
    }

    /** At the payload address of a block the tests tell live from free. Elsewhere they see
        what the cells before the pointer happen to hold. */
    method PointerIsValid(pointer: nat) returns (ok: bool, block: nat)
      requires Valid()
      ensures ok <==> LooksLive(pointer)
      ensures forall i {:trigger blocks[i]} ::
        initialized && 0 <= i < |blocks| && pointer == blocks[i].address + HEADER ==> (ok <==> !blocks[i].free)
      ensures ok ==> block + HEADER == pointer
    {
      hide Tiled, Coalesced, Threaded;
      forall i | initialized && 0 <= i < |blocks| ensures LooksLive(blocks[i].address + HEADER) <==> !blocks[i].free {
        TestsTellLive(i);
      }
      block := NULL;
      if pointer == NULL || pointer < start || pointer - start >= usable { return false, block; }
      if pointer % ALIGNMENT != 0 { return false, block; }
      var payloadOffset := pointer - start;
      if payloadOffset < HEADER { return false, block; }
      var blockOffset := payloadOffset - HEADER;
      block := start + blockOffset;
      if memory[block + MAGIC] != ALLOCATED_MAGIC
        || memory[block] < SMALLEST
        || memory[block] > usable
        || memory[block] % ALIGNMENT != 0
        || memory[block] > usable - blockOffset
      {
        return false, block;
      }
      return true, block;
    }

    /** The payload address of a block passes the tests exactly while the block is live. */
    lemma TestsTellLive(i: nat)
      requires Valid() && initialized && i < |blocks|
      ensures LooksLive(blocks[i].address + HEADER) <==> !blocks[i].free
    {
      hide Tiled, Coalesced, Threaded, Aligned;
      HeaderAt(i);
      TiledAligned(blocks, start, start + usable, i);
      TiledAt(blocks, start, start + usable, i);
      PayloadAligned(blocks[i].address);
    }

    /** Where the block goes in the address-ordered free list. */
    method FindPlace(block: nat, ghost i: nat) returns (previous: nat, cursor: nat, ghost first: bool, ghost p: nat)
      requires Valid() && initialized && i < |blocks| && !blocks[i].free && blocks[i].address == block
      ensures LastBefore(blocks, first, p, i) && previous == (if first then NULL else blocks[p].address)
      ensures cursor == NextFree(blocks, i + 1)
    {
      hide Sited, Threaded, NextIndex;
      previous, first, p := NULL, true, 0;
      cursor := freeList;
      ghost var k := NextIndex(blocks, 0);
      ListHead();
      InOrder();
      if k < |blocks| { HeaderAt(k); }
      while cursor != NULL && cursor < block
        invariant k <= |blocks| && cursor == AddressAt(blocks, k, NULL)
        invariant k < |blocks| ==> blocks[k].free && 0 < cursor && cursor + HEADER <= memory.Length && k != i
        invariant LastBefore(blocks, first, p, k) && previous == (if first then NULL else blocks[p].address)
        invariant first || p < i
        decreases |blocks| - k
      {
        HeaderAt(k);
        assert k < i;
        previous, first, p := cursor, false, k;
        cursor := memory[cursor + NEXT];
        k := NextIndex(blocks, k + 1);
        if k < |blocks| { HeaderAt(k); }
      }
      assert i < k;
      NextFreeIs(blocks, i + 1, k);
    }

    lemma InOrder()
      requires Valid()
      ensures Fits(blocks, start, start + usable) && start > 0
    {
      TiledApart(blocks, start, start + usable);
    }

    method Free(pointer: nat)
      requires Valid() && (pointer == NULL || LiveIndex(blocks, pointer).Some?)
      modifies this, memory
      ensures Valid() && (pointer == NULL ==> blocks == old(blocks) && memory[..] == old(memory[..]))
      ensures pointer != NULL ==>
        var i := LiveIndex(old(blocks), pointer).value;
        && blocks == (if scheme.Heap4? then Coalesce(Freed(old(blocks), i), i) else Freed(old(blocks), i))
        && PayloadsKept(old(memory[..]), memory[..], Freed(old(blocks), i), start, start + usable)
      ensures pointer != NULL ==> !LooksLive(pointer)
    {
      hide Sited, Threaded, Tiled, PayloadsKept, NextIndex, LooksLive, Coalesced, Coalesce, Freed, LiveIndex;
      if pointer == NULL { return; }
      ghost var i, bs, m0 := LiveIndex(blocks, pointer).value, blocks, memory[..];
      LiveFound(blocks, pointer);
      Init();
      ghost var m1 := memory[..];
      FreeLive(pointer, i);
      MarkedFree(pointer);
      KeptWeaken(m0, m1, bs, i, start, start + usable);
      KeptTransitive(m0, m1, memory[..], Freed(bs, i), start, start + usable);
    }

    lemma MarkedFree(pointer: nat)
      requires HEADER <= pointer && pointer <= memory.Length && memory[pointer - HEADER + MAGIC] == FREE_MAGIC
      requires start + usable <= memory.Length
      ensures !LooksLive(pointer)
    {
    }

    /** vPortFree of a live pointer: the tests pass. */
    method FreeLive(pointer: nat, ghost i: nat)
      requires Valid() && initialized && i < |blocks| && !blocks[i].free && blocks[i].address == pointer - HEADER
      modifies this`freeList, this`freeBytes, this`blocks, memory
      ensures Valid() && initialized
      ensures var freed := Freed(old(blocks), i);
        && blocks == (if scheme.Heap4? then Coalesce(freed, i) else freed)
        && PayloadsKept(old(memory[..]), memory[..], freed, start, start + usable)
      ensures HEADER <= pointer <= memory.Length && memory[pointer - HEADER + MAGIC] == FREE_MAGIC
      ensures start + usable <= memory.Length
    {
      hide Sited, Threaded, Tiled, PayloadsKept, LooksLive, Coalesced, Coalesce, Freed;
      HeaderAt(i);
      var ok, block := PointerIsValid(pointer);
      assert ok;
      Release(block, i);
    }

    method FreeHeapSize() returns (bytes: nat)
      requires Valid()
      modifies this`freeList, this`freeBytes, this`initialized, memory
      ensures Valid() && blocks == old(blocks) && bytes == FreeSum(blocks) <= usable
    {
      Init();
      FreeSumFits(blocks, start, start + usable);
      bytes := freeBytes;
    }

    /** vPortFree once the pointer has passed the tests. */
    method Release(block: nat, ghost i: nat)
      requires Valid() && initialized && i < |blocks| && !blocks[i].free && blocks[i].address == block
      modifies this`freeList, this`freeBytes, this`blocks, memory
      ensures Valid() && initialized
      ensures var freed := Freed(old(blocks), i);
        && blocks == (if scheme.Heap4? then Coalesce(freed, i) else freed)
        && PayloadsKept(old(memory[..]), memory[..], freed, start, start + usable)
      ensures block + HEADER <= memory.Length && memory[block + MAGIC] == FREE_MAGIC
    {
      hide Tiled, FreeSum, Aligned, AllStored, PayloadsKept, NextIndex, NextFree, LastBefore, Coalesced, Coalesce,
        Freed;
      ghost var bs, first, p := blocks, true, 0;
      var previous, cursor;
      previous, cursor, first, p := FindPlace(block, i);
      Link(previous, block, cursor, first, p, i);
      if scheme.Heap4? {
        ghost var m1 := memory[..];
        Merge(previous, block, cursor, bs, first, p, i);
        KeptTransitive(old(memory[..]), m1, memory[..], Freed(bs, i), start, start + usable);
      }
    }

    /** All of `Valid` but the absence of free neighbours. */
    ghost predicate Consistent()
      reads this, memory
    {
      Sited() && initialized && Threaded()
    }

    /** Block `i` becomes free, between `previous` and `cursor`. */
    method Link(previous: nat, block: nat, cursor: nat, ghost first: bool, ghost p: nat, ghost i: nat)
      requires Valid() && initialized && i < |blocks| && !blocks[i].free && blocks[i].address == block
      requires LastBefore(blocks, first, p, i) && previous == (if first then NULL else blocks[p].address)
      requires cursor == NextFree(blocks, i + 1)
      modifies this`freeList, this`freeBytes, this`blocks, memory
      ensures Consistent() && blocks == Freed(old(blocks), i)
      ensures PayloadsKept(old(memory[..]), memory[..], blocks, start, start + usable)
      ensures block + HEADER <= memory.Length && memory[block + MAGIC] == FREE_MAGIC
    {
      hide Tiled, Coalesced, FreeSum, NextFree, NextIndex, AllStored, LinkWrites, PayloadsKept, LastBefore, Freed;
      InOrder();
      HeaderAt(i);
      if !first { PreviousBelow(first, p, i); }
      FreedTiled(blocks, i, start, start + usable);
      FreedFreeSum(blocks, i);
      WriteLink(previous, block, cursor);
      if previous == NULL { freeList := block; }
      freeBytes := freeBytes + memory[block];
      LinkStored(old(memory[..]), memory[..], blocks, start, start + usable, previous, cursor, first, p, i);
      blocks := Freed(blocks, i);
    }

    lemma PreviousBelow(first: bool, p: nat, i: nat)
      requires Valid() && i < |blocks| && LastBefore(blocks, first, p, i) && !first
      ensures p < i && blocks[p].free && 0 < blocks[p].address && blocks[p].address + SMALLEST <= blocks[i].address
    {
      InOrder();
    }

    method WriteLink(previous: nat, block: nat, cursor: nat)
      requires block + HEADER <= memory.Length && (previous != NULL ==> previous + HEADER <= block)
      modifies memory
      ensures LinkWrites(old(memory[..]), memory[..], previous, block, cursor)
      ensures memory[block] == old(memory[block]) && memory[block + MAGIC] == FREE_MAGIC
    {
      memory[block + MAGIC] := FREE_MAGIC;
      memory[block + NEXT] := cursor;
      if previous != NULL { memory[previous + NEXT] := block; }
    }

    /** The two local merges that heap_4 adds. */
    method Merge(previous: nat, block: nat, cursor: nat, ghost bs: seq<Block>, ghost first: bool, ghost p: nat, ghost i: nat)
      requires Consistent() && i < |bs| && !bs[i].free && blocks == Freed(bs, i) && bs[i].address == block
      requires Tiled(bs, start, start + usable) && Coalesced(bs)
      requires LastBefore(bs, first, p, i) && previous == (if first then NULL else bs[p].address)
      requires cursor == NextFree(bs, i + 1) && block + HEADER <= memory.Length
      modifies this`blocks, memory
      ensures Consistent() && blocks == Coalesce(Freed(bs, i), i) && Coalesced(blocks)
      ensures PayloadsKept(old(memory[..]), memory[..], Freed(bs, i), start, start + usable)
      ensures block + HEADER <= memory.Length && memory[block + MAGIC] == old(memory[block + MAGIC])
    {
      hide Sited, Threaded, Tiled, Coalesced, NextFree, NextIndex, PayloadsKept, LastBefore, JoinNext;
      ghost var freed, m0 := Freed(bs, i), memory[..];
      KeptSame(m0, freed, start, start + usable);
      Positive();
      SizeAt(i);
      AdjacentNext(bs, start, start + usable, i);
      if i + 1 < |bs| && bs[i + 1].free { SizeAt(i + 1); }
      JoinPrefix(freed, i);
      if !(i + 1 < |bs| && bs[i + 1].free) { JoinedSame(freed, i); }
      if cursor != NULL && block + memory[block] == cursor {
        Join(block, cursor, i);
      }
      ghost var joined, m1 := blocks, memory[..];
      AdjacentPrevious(bs, start, start + usable, first, p, i);
      if !first {
        assert blocks[p] == bs[p];
        SizeAt(p);
      }
      if previous != NULL && previous + memory[previous] == block {
        Join(previous, block, i - 1);
        JoinKept(m1, memory[..], freed, i, start, start + usable);
        KeptTransitive(m0, m1, memory[..], freed, start, start + usable);
      }
      CoalesceIsNormalize(bs, i);
      NormalizeCoalesced(freed);
    }

    lemma Positive()
      requires Sited()
      ensures start > 0
    {
    }

    lemma SizeAt(k: nat)
      requires Consistent() && k < |blocks|
      ensures blocks[k].address + HEADER <= memory.Length && memory[blocks[k].address] == blocks[k].size
      ensures blocks[k].address > 0
    {
      hide FreeSum, Aligned;
      TiledApart(blocks, start, start + usable);
      StoredAt(memory[..], blocks, k);
    }

    /** `left` swallows its free neighbour `right`. */
    method Join(left: nat, right: nat, ghost i: nat)
      requires Consistent() && i + 1 < |blocks| && blocks[i].free && blocks[i + 1].free
      requires blocks[i].address == left && blocks[i + 1].address == right
      requires left + HEADER <= memory.Length && right + HEADER <= memory.Length
      modifies this`blocks, memory
      ensures Consistent() && blocks == JoinNext(old(blocks), i)
      ensures PayloadsKept(old(memory[..]), memory[..], old(blocks), start, start + usable)
      ensures left + HEADER <= right && right + HEADER <= memory.Length
      ensures memory[left + MAGIC] == old(memory[left + MAGIC]) && memory[right + MAGIC] == old(memory[right + MAGIC])
    {
      hide Tiled, Coalesced, FreeSum, NextFree, NextIndex, AllStored, JoinWrites, PayloadsKept, JoinNext;
      TiledApart(blocks, start, start + usable);
      StoredAt(memory[..], blocks, i);
      StoredAt(memory[..], blocks, i + 1);
      JoinNextTiled(blocks, i, start, start + usable);
      JoinNextFreeSum(blocks, i);
      WriteJoin(left, right);
      JoinStored(old(memory[..]), memory[..], blocks, start, start + usable, i);
      blocks := JoinNext(blocks, i);
    }

    method WriteJoin(left: nat, right: nat)
      requires left + HEADER <= right && right + HEADER <= memory.Length
      modifies memory
      ensures JoinWrites(old(memory[..]), memory[..], left, right)
      ensures memory[left + MAGIC] == old(memory[left + MAGIC]) && memory[right + MAGIC] == old(memory[right + MAGIC])
    {
      memory[left] := memory[left] + memory[right];
      memory[left + NEXT] := memory[right + NEXT];
    }
  }

  // ---------- freeing ----------

  ghost predicate LinkWrites(before: seq<nat>, after: seq<nat>, previous: nat, block: nat, cursor: nat) {
    && block + HEADER <= |before| && (previous != NULL ==> previous + HEADER <= block)
    && SameBut(before, after, {block + NEXT, block + MAGIC, if previous == NULL then block + NEXT else previous + NEXT})
    && after[block + NEXT] == cursor && after[block + MAGIC] == FREE_MAGIC
    && (previous != NULL ==> after[previous + NEXT] == block)
  }

  ghost predicate JoinWrites(before: seq<nat>, after: seq<nat>, left: nat, right: nat) {
    && left + HEADER <= right && right + HEADER <= |before|
    && SameBut(before, after, {left, left + NEXT})
    && after[left] == before[left] + before[right] && after[left + NEXT] == before[right + NEXT]
  }

  /** Live block `i` is to be freed; `previous` is the free block before it. */
  ghost predicate Linking(
    bs: seq<Block>, start: nat, end: nat, previous: nat, cursor: nat, first: bool, p: nat, i: nat)
  {
    && Fits(bs, start, end) && start > 0 && i < |bs| && !bs[i].free
    && LastBefore(bs, first, p, i) && previous == (if first then NULL else bs[p].address)
    && cursor == NextFree(bs, i + 1)
  }

  lemma LinkStoredBefore(
    before: seq<nat>, after: seq<nat>, bs: seq<Block>, start: nat, end: nat,
    previous: nat, cursor: nat, first: bool, p: nat, i: nat, j: nat)
    requires AllStored(before, bs) && end <= |before| && Linking(bs, start, end, previous, cursor, first, p, i)
    requires LinkWrites(before, after, previous, bs[i].address, cursor) && j < i
    ensures var r := Freed(bs, i); r[j].address + HEADER <= |after| && HeaderStored(after, r, j)
  {
    hide NextIndex, AllStored;
    var r := Freed(bs, i);
    StoredAt(before, bs, j);
    assert bs[j].address + bs[j].size <= bs[i].address;
    assert bs[..i] == r[..i];
    ThreadsBefore(bs, r, first, p, i, j + 1);
    NextFreeIs(r, i, i);
    if !first && j != p {
      assert if j < p then bs[j].address + bs[j].size <= bs[p].address else bs[p].address + bs[p].size <= bs[j].address;
    }
  }

  lemma LinkStoredFrom(
    before: seq<nat>, after: seq<nat>, bs: seq<Block>, start: nat, end: nat,
    previous: nat, cursor: nat, first: bool, p: nat, i: nat, j: nat)
    requires AllStored(before, bs) && end <= |before| && Linking(bs, start, end, previous, cursor, first, p, i)
    requires LinkWrites(before, after, previous, bs[i].address, cursor) && i <= j < |bs|
    ensures var r := Freed(bs, i); r[j].address + HEADER <= |after| && HeaderStored(after, r, j)
  {
    hide NextFree, NextIndex, AllStored;
    var r := Freed(bs, i);
    StoredAt(before, bs, j);
    assert bs[j + 1..] == r[j + 1..];
    NextFreeShift(bs, r, j + 1, j + 1);
    if i < j { assert bs[i].address + bs[i].size <= bs[j].address; }
  }

  lemma LinkStored(
    before: seq<nat>, after: seq<nat>, bs: seq<Block>, start: nat, end: nat,
    previous: nat, cursor: nat, first: bool, p: nat, i: nat)
    requires AllStored(before, bs) && end <= |before| && Linking(bs, start, end, previous, cursor, first, p, i)
    requires LinkWrites(before, after, previous, bs[i].address, cursor)
    ensures AllStored(after, Freed(bs, i)) && PayloadsKept(before, after, Freed(bs, i), start, end)
    ensures NextFree(Freed(bs, i), 0) == if first then bs[i].address else NextFree(bs, 0)
  {
    hide HeaderStored, NextIndex;
    var r := Freed(bs, i);
    forall j | 0 <= j < |r| ensures r[j].address + HEADER <= |after| && HeaderStored(after, r, j) {
      if j < i {
        LinkStoredBefore(before, after, bs, start, end, previous, cursor, first, p, i, j);
      } else {
        LinkStoredFrom(before, after, bs, start, end, previous, cursor, first, p, i, j);
      }
    }
    assert bs[..i] == r[..i];
    ThreadsBefore(bs, r, first, p, i, 0);
    NextFreeIs(r, i, i);
    forall x | 0 <= x < |before| && Outside(r, start, end, x) ensures after[x] == before[x] {
      LinkOutside(bs, start, end, previous, cursor, first, p, i, x);
    }
  }

  lemma LinkOutside(
    bs: seq<Block>, start: nat, end: nat, previous: nat, cursor: nat, first: bool, p: nat, i: nat, x: nat)
    requires Linking(bs, start, end, previous, cursor, first, p, i) && Outside(Freed(bs, i), start, end, x)
    ensures x != bs[i].address + NEXT && x != bs[i].address + MAGIC && (!first ==> x != bs[p].address + NEXT)
  {
    hide NextFree;
    var r := Freed(bs, i);
    if start <= x < end {
      var j :| 0 <= j < |r| && !r[j].free && r[j].address + HEADER <= x < r[j].address + r[j].size;
      assert bs[j] == r[j];
    }
  }

  lemma JoinAt(bs: seq<Block>, i: nat, j: nat)
    requires i + 1 < |bs| && bs[i].free && bs[i + 1].free && j + 1 < |bs|
    ensures |JoinNext(bs, i)| == |bs| - 1
    ensures JoinNext(bs, i)[j] ==
      if j < i then bs[j] else if j == i then Block(bs[i].address, bs[i].size + bs[i + 1].size, true) else bs[j + 1]
  {
  }

  lemma JoinStoredAt(before: seq<nat>, after: seq<nat>, bs: seq<Block>, start: nat, end: nat, i: nat, j: nat)
    requires AllStored(before, bs) && Fits(bs, start, end) && end <= |before|
    requires i + 1 < |bs| && bs[i].free && bs[i + 1].free
    requires JoinWrites(before, after, bs[i].address, bs[i + 1].address) && j + 1 < |bs|
    ensures var r := JoinNext(bs, i); |r| == |bs| - 1 && r[j].address + HEADER <= |after| && HeaderStored(after, r, j)
  {
    hide NextIndex, NextFree, AllStored, JoinNext, Fits;
    JoinAt(bs, i, j);
    JoinThreads(bs, i, j + 1);
    StoredAt(before, bs, i);
    StoredAt(before, bs, i + 1);
    if j != i {
      var k := if j < i then j else j + 1;
      StoredAt(before, bs, k);
      HeadersApart(bs, start, end, i, k);
    }
  }

  lemma HeadersApart(bs: seq<Block>, start: nat, end: nat, i: nat, k: nat)
    requires Fits(bs, start, end) && i < |bs| && k < |bs| && i != k
    ensures bs[i].address + SMALLEST <= bs[k].address || bs[k].address + SMALLEST <= bs[i].address
  {
    assert if i < k then bs[i].address + bs[i].size <= bs[k].address else bs[k].address + bs[k].size <= bs[i].address;
  }

  lemma JoinThreads(bs: seq<Block>, i: nat, j: nat)
    requires i + 1 < |bs| && bs[i].free && bs[i + 1].free && j < |bs|
    ensures |JoinNext(bs, i)| == |bs| - 1
    ensures NextFree(JoinNext(bs, i), j) == NextFree(bs, if j <= i then j else j + 1)
  {
    hide NextIndex;
    var r := JoinNext(bs, i);
    if j <= i {
      JoinThreadsBefore(bs, i, j);
    } else {
      assert bs[j + 1..] == r[j..];
      NextFreeShift(bs, r, j + 1, j);
    }
  }

  lemma JoinThreadsBefore(bs: seq<Block>, i: nat, j: nat)
    requires i + 1 < |bs| && bs[i].free && bs[i + 1].free && j <= i
    ensures |JoinNext(bs, i)| == |bs| - 1 && NextFree(JoinNext(bs, i), j) == NextFree(bs, j)
  {
    hide JoinNext;
    var r := JoinNext(bs, i);
    JoinAt(bs, i, i);
    JoinPrefix(bs, i);
    assert bs[..i] == r[..i];
    NextFreeSame(bs, r, i, j);
    NextFreeIs(r, i, i);
    if NextIndex(bs, j) >= i { NextFreeIs(bs, j, i); }
  }

  lemma JoinStored(before: seq<nat>, after: seq<nat>, bs: seq<Block>, start: nat, end: nat, i: nat)
    requires AllStored(before, bs) && Fits(bs, start, end) && end <= |before|
    requires i + 1 < |bs| && bs[i].free && bs[i + 1].free
    requires JoinWrites(before, after, bs[i].address, bs[i + 1].address)
    ensures AllStored(after, JoinNext(bs, i)) && PayloadsKept(before, after, bs, start, end)
    ensures NextFree(JoinNext(bs, i), 0) == NextFree(bs, 0)
  {
    hide HeaderStored, NextIndex, NextFree;
    var r := JoinNext(bs, i);
    JoinThreads(bs, i, 0);
    forall j | 0 <= j < |r| ensures r[j].address + HEADER <= |after| && HeaderStored(after, r, j) {
      JoinStoredAt(before, after, bs, start, end, i, j);
    }
    forall x | 0 <= x < |before| && Outside(bs, start, end, x) ensures after[x] == before[x] {
      if start <= x < end {
        var j :| 0 <= j < |bs| && !bs[j].free && bs[j].address + HEADER <= x < bs[j].address + bs[j].size;
        assert if j < i then bs[j].address + bs[j].size <= bs[i].address else bs[i].address + bs[i].size <= bs[j].address;
      }
    }
  }

  /** The block meets the next one in the free list exactly if its neighbour is free. */
  lemma AdjacentNext(bs: seq<Block>, start: nat, end: nat, i: nat)
    requires Tiled(bs, start, end) && start > 0 && i < |bs|
    ensures var cursor := NextFree(bs, i + 1);
      && (cursor != NULL && bs[i].address + bs[i].size == cursor <==> i + 1 < |bs| && bs[i + 1].free)
      && (i + 1 < |bs| && bs[i + 1].free ==> cursor == bs[i + 1].address)
  {
    hide Aligned;
    TiledApart(bs, start, end);
    var n := NextIndex(bs, i + 1);
    assert bs[i].address + bs[i].size == AddressAt(bs, i + 1, end);
    if i + 1 < n && n < |bs| { assert bs[i + 1].address + bs[i + 1].size <= bs[n].address; }
  }

  /** And likewise for the one before. */
  lemma AdjacentPrevious(bs: seq<Block>, start: nat, end: nat, first: bool, p: nat, i: nat)
    requires Tiled(bs, start, end) && i < |bs| && LastBefore(bs, first, p, i)
    ensures !first && bs[p].address + bs[p].size == bs[i].address <==> i > 0 && bs[i - 1].free
    ensures i > 0 && bs[i - 1].free ==> p == i - 1 && !first
    ensures !first ==> p < i && bs[p].free
  {
    hide Aligned;
    TiledApart(bs, start, end);
    if i > 0 { assert bs[i - 1].address + bs[i - 1].size == AddressAt(bs, i, end); }
    if !first && p < i - 1 { assert bs[p].address + bs[p].size <= bs[i - 1].address; }
  }

  lemma JoinedSame(bs: seq<Block>, i: nat)
    requires i < |bs| && !(i + 1 < |bs| && bs[i + 1].free)
    ensures JoinNext(bs, i) == bs
  {
  }

  lemma JoinKept(before: seq<nat>, after: seq<nat>, bs: seq<Block>, i: nat, start: nat, end: nat)
    requires i < |bs| && bs[i].free && PayloadsKept(before, after, JoinNext(bs, i), start, end)
    ensures PayloadsKept(before, after, bs, start, end)
  {
    var r := JoinNext(bs, i);
    forall x | 0 <= x < |before| && Outside(bs, start, end, x) ensures after[x] == before[x] {
      if start <= x < end {
        var j :| 0 <= j < |bs| && !bs[j].free && bs[j].address + HEADER <= x < bs[j].address + bs[j].size;
        JoinNextKeeps(bs, i, bs[j]);
      }
    }
  }

  lemma KeptWeaken(before: seq<nat>, after: seq<nat>, bs: seq<Block>, i: nat, start: nat, end: nat)
    requires PayloadsKept(before, after, bs, start, end) && i < |bs|
    ensures PayloadsKept(before, after, Freed(bs, i), start, end)
  {
    var r := Freed(bs, i);
    forall x | 0 <= x < |before| && Outside(r, start, end, x) ensures after[x] == before[x] {
      if start <= x < end {
        var j :| 0 <= j < |r| && !r[j].free && r[j].address + HEADER <= x < r[j].address + r[j].size;
        assert bs[j] == r[j];
      }
    }
  }

  /** Changes from index `k` on are seen from before it only past the last free block. */
  lemma NextFreeSame(bs: seq<Block>, r: seq<Block>, k: nat, i: nat)
    requires i <= k <= |bs| && k <= |r| && bs[..k] == r[..k]
    ensures NextIndex(bs, i) < k ==> NextFree(r, i) == NextFree(bs, i)
    ensures NextIndex(bs, i) >= k ==> NextFree(r, i) == NextFree(r, k)
  {
    assert forall j :: 0 <= j < k ==> bs[..k][j] == r[..k][j];
    if NextIndex(bs, i) < k {
      NextFreeIs(r, i, NextIndex(bs, i));
    } else {
      NextFreeIs(r, i, NextIndex(r, k));
    }
  }

  /** The last free block before `k` is `p`; `first` if there is none. */
  ghost predicate LastBefore(bs: seq<Block>, first: bool, p: nat, k: nat) {
    && k <= |bs|
    && (first ==> forall i :: 0 <= i < k ==> !bs[i].free)
    && (!first ==> p < k && bs[p].free && forall i :: p < i < k ==> !bs[i].free)
  }

  /** Only the link into `k`, from `p` or from the head, sees what happens there. */
  lemma ThreadsBefore(bs: seq<Block>, r: seq<Block>, first: bool, p: nat, k: nat, j: nat)
    requires LastBefore(bs, first, p, k) && k <= |r| && bs[..k] == r[..k] && j <= k
    ensures NextFree(r, j) == if !first && j <= p then NextFree(bs, j) else NextFree(r, k)
  {
    NextFreeSame(bs, r, k, j);
  }

  /** The block that allocation makes, and its effect on the head of the free list. */
  lemma TakenLinks(bs: seq<Block>, total: nat, first: bool, p: nat, k: nat)
    requires k < |bs| && bs[k].free && total <= bs[k].size && LastBefore(bs, first, p, k)
    ensures var r := AllocateAt(bs, k, total); var splits := bs[k].size - total >= SMALLEST;
      && |r| == |bs| + (if splits then 1 else 0)
      && r[k] == Block(bs[k].address, if splits then total else bs[k].size, false)
      && NextFree(r, k) == (if splits then bs[k].address + total else NextFree(bs, k + 1))
      && NextFree(r, 0) == (if first then NextFree(r, k) else NextFree(bs, 0))
  {
    hide NextFree, NextIndex;
    var r := AllocateAt(bs, k, total);
    assert bs[..k] == r[..k];
    ThreadsBefore(bs, r, first, p, k, 0);
    TakenLink(bs, total, k);
  }

  ghost predicate Fits(bs: seq<Block>, start: nat, end: nat) {
    Apart(bs) && forall i {:trigger bs[i]} :: 0 <= i < |bs| ==>
      bs[i].size >= SMALLEST && start <= bs[i].address && bs[i].address + bs[i].size <= end
  }

  /** Free block `k` is to be cut to `wanted`; `previous` is the free block before it. */
  ghost predicate Taking(
    bs: seq<Block>, start: nat, end: nat, previous: nat, wanted: nat, first: bool, p: nat, k: nat)
  {
    && Fits(bs, start, end) && start > 0
    && k < |bs| && bs[k].free && SMALLEST <= wanted <= bs[k].size
    && LastBefore(bs, first, p, k) && previous == (if first then NULL else bs[p].address)
  }

  lemma TakenApart(bs: seq<Block>, start: nat, end: nat, previous: nat, wanted: nat, first: bool, p: nat, k: nat, i: nat)
    requires Taking(bs, start, end, previous, wanted, first, p, k) && i < |bs| && i != k
    ensures var cells := WrittenCells(previous, bs[k].address, bs[k].size, wanted);
      && bs[i].address !in cells && bs[i].address + MAGIC !in cells
      && (first || i != p ==> bs[i].address + NEXT !in cells)
  {
    if i < k {
      assert bs[i].address + bs[i].size <= bs[k].address;
    } else {
      assert bs[k].address + bs[k].size <= bs[i].address;
    }
    if !first && i != p {
      assert bs[p].address + bs[p].size <= bs[k].address;
      if i < p {
        assert bs[i].address + bs[i].size <= bs[p].address;
      } else {
        assert bs[p].address + bs[p].size <= bs[i].address;
      }
    }
  }

  lemma TakenTail(bs: seq<Block>, wanted: nat, k: nat, j: nat)
    requires k < |bs| && wanted <= bs[k].size
    requires k + |AllocateAt(bs, k, wanted)| - |bs| < j <= |AllocateAt(bs, k, wanted)|
    ensures var r := AllocateAt(bs, k, wanted); var shift := |r| - |bs|;
      NextFree(r, j) == NextFree(bs, j - shift) && (j - 1 > k + shift ==> r[j - 1] == bs[j - 1 - shift])
  {
    var r := AllocateAt(bs, k, wanted);
    var shift := |r| - |bs|;
    assert bs[j - shift..] == r[j..];
    NextFreeShift(bs, r, j - shift, j);
  }

  lemma StoredAt(cells: seq<nat>, bs: seq<Block>, i: nat)
    requires AllStored(cells, bs) && i < |bs|
    ensures bs[i].address + HEADER <= |cells| && HeaderStored(cells, bs, i)
  {
  }

  /** Headers before the taken block: only the one of `p` gets a new link. */
  lemma TakenStoredBefore(
    before: seq<nat>, after: seq<nat>, bs: seq<Block>, start: nat, end: nat,
    previous: nat, wanted: nat, first: bool, p: nat, k: nat, link: nat, total: nat, i: nat)
    requires AllStored(before, bs) && end <= |before| && Taking(bs, start, end, previous, wanted, first, p, k)
    requires TakenWrites(before, after, previous, bs[k].address, wanted, link, total) && i < k
    ensures var r := AllocateAt(bs, k, wanted); r[i].address + HEADER <= |after| && HeaderStored(after, r, i)
  {
    hide NextFree, NextIndex, AllStored, WrittenCells;
    var r := AllocateAt(bs, k, wanted);
    StoredAt(before, bs, k);
    StoredAt(before, bs, i);
    TakenLinks(bs, wanted, first, p, k);
    TakenApart(bs, start, end, previous, wanted, first, p, k, i);
    assert r[i] == bs[i] && bs[..k] == r[..k];
    ThreadsBefore(bs, r, first, p, k, i + 1);
  }

  /** Headers behind it stay as they are. */
  lemma TakenStoredBehind(
    before: seq<nat>, after: seq<nat>, bs: seq<Block>, start: nat, end: nat,
    previous: nat, wanted: nat, first: bool, p: nat, k: nat, link: nat, total: nat, i: nat)
    requires AllStored(before, bs) && end <= |before| && Taking(bs, start, end, previous, wanted, first, p, k)
    requires TakenWrites(before, after, previous, bs[k].address, wanted, link, total)
    requires k + |AllocateAt(bs, k, wanted)| - |bs| < i < |AllocateAt(bs, k, wanted)|
    ensures var r := AllocateAt(bs, k, wanted); r[i].address + HEADER <= |after| && HeaderStored(after, r, i)
  {
    hide NextFree, NextIndex, AllStored, WrittenCells, LastBefore, AllocateAt;
    var r := AllocateAt(bs, k, wanted);
    var j := i - (|r| - |bs|);
    TakenTail(bs, wanted, k, i + 1);
    StoredAt(before, bs, j);
    StoredAt(before, bs, k);
    TakenApart(bs, start, end, previous, wanted, first, p, k, j);
  }

  /** The new headers are as written. */
  lemma TakenStoredNew(
    before: seq<nat>, after: seq<nat>, bs: seq<Block>, start: nat, end: nat,
    previous: nat, wanted: nat, first: bool, p: nat, k: nat, link: nat, total: nat, i: nat)
    requires AllStored(before, bs) && end <= |before| && Taking(bs, start, end, previous, wanted, first, p, k)
    requires TakenWrites(before, after, previous, bs[k].address, wanted, link, total)
    requires k <= i <= k + |AllocateAt(bs, k, wanted)| - |bs|
    ensures var r := AllocateAt(bs, k, wanted); i < |r| && r[i].address + HEADER <= |after| && HeaderStored(after, r, i)
  {
    hide NextFree, NextIndex, AllStored, WrittenCells, LastBefore, Fits;
    StoredAt(before, bs, k);
    if i > k { TakenTail(bs, wanted, k, i + 1); }
  }

  lemma TakenOutside(bs: seq<Block>, start: nat, end: nat, previous: nat, wanted: nat, first: bool, p: nat, k: nat, x: nat)
    requires Taking(bs, start, end, previous, wanted, first, p, k) && Outside(bs, start, end, x)
    ensures x !in WrittenCells(previous, bs[k].address, bs[k].size, wanted)
  {
  }

  /** Allocation writes headers only: into no other block and no live payload. */
  lemma TakenStored(
    before: seq<nat>, after: seq<nat>, bs: seq<Block>, start: nat, end: nat,
    previous: nat, wanted: nat, first: bool, p: nat, k: nat, link: nat, total: nat)
    requires AllStored(before, bs) && end <= |before| && Taking(bs, start, end, previous, wanted, first, p, k)
    requires TakenWrites(before, after, previous, bs[k].address, wanted, link, total)
    ensures AllStored(after, AllocateAt(bs, k, wanted)) && PayloadsKept(before, after, bs, start, end)
    ensures total == AllocateAt(bs, k, wanted)[k].size
    ensures NextFree(AllocateAt(bs, k, wanted), 0) == if first then link else NextFree(bs, 0)
  {
    hide AllocateAt, HeaderStored, LastBefore, NextFree, NextIndex, WrittenCells;
    TakenLinks(bs, wanted, first, p, k);
    StoredAt(before, bs, k);
    TakenSize(before, bs, k);
    forall i | 0 <= i < |AllocateAt(bs, k, wanted)|
      ensures AllocateAt(bs, k, wanted)[i].address + HEADER <= |after|
      ensures HeaderStored(after, AllocateAt(bs, k, wanted), i)
    {
      if i < k {
        TakenStoredBefore(before, after, bs, start, end, previous, wanted, first, p, k, link, total, i);
      } else if i <= k + |AllocateAt(bs, k, wanted)| - |bs| {
        TakenStoredNew(before, after, bs, start, end, previous, wanted, first, p, k, link, total, i);
      } else {
        TakenStoredBehind(before, after, bs, start, end, previous, wanted, first, p, k, link, total, i);
      }
    }
    forall x | 0 <= x < |before| && Outside(bs, start, end, x) ensures after[x] == before[x] {
      TakenOutside(bs, start, end, previous, wanted, first, p, k, x);
    }
  }

  lemma TakenSize(cells: seq<nat>, bs: seq<Block>, k: nat)
    requires AllStored(cells, bs) && k < |bs| && bs[k].free
    ensures bs[k].address + HEADER <= |cells| && cells[bs[k].address] == bs[k].size
    ensures cells[bs[k].address + NEXT] == NextFree(bs, k + 1)
  {
    StoredAt(cells, bs, k);
  }

  lemma TakenLink(bs: seq<Block>, total: nat, k: nat)
    requires k < |bs| && bs[k].free && total <= bs[k].size
    ensures var r := AllocateAt(bs, k, total);
      NextFree(r, k) == (if |r| == |bs| then NextFree(bs, k + 1) else bs[k].address + total)
  {
    hide NextIndex;
    var r := AllocateAt(bs, k, total);
    if |r| == |bs| {
      NextFreeShift(bs, r, k + 1, k + 1);
      NextFreeIs(r, k, NextIndex(r, k + 1));
    } else {
      NextFreeIs(r, k, k + 1);
    }
  }

  /** The threading from an index on depends on the blocks from there on only. */
  lemma NextFreeShift(bs: seq<Block>, r: seq<Block>, k: nat, m: nat)
    requires k <= |bs| && m <= |r| && bs[k..] == r[m..]
    ensures NextFree(r, m) == NextFree(bs, k)
  {
    var n := NextIndex(bs, k);
    assert |r| - m == |bs| - k;
    forall j | m <= j < n - k + m ensures !r[j].free {
      assert r[j] == r[m..][j - m] == bs[k..][j - m];
    }
    if n < |bs| { assert bs[n] == bs[k..][n - k] == r[m..][n - k]; }
    NextFreeIs(r, m, n - k + m);
  }
}
