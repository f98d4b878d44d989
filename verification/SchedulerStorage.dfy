/** The storage bytes of the data queues: an array cut into item-sized slots. */
module SchedulerStorage {
  import opened Lists
  import opened KernelState
  import opened Objects
  import opened SchedulerObject

  lemma SlotInStorage(slot: nat, length: nat, size: nat)
    requires slot < length
    ensures 0 <= slot * size <= slot * size + size <= length * size
  {
    var rest := length - (slot + 1);
    Distribute(slot, 1, size);
    Distribute(slot + 1, rest, size);
    Nonnegative(rest, size);
    Nonnegative(slot, size);
  }

  lemma Distribute(a: nat, b: nat, size: nat)
    ensures (a + b) * size == a * size + b * size
  {
  }

  lemma Nonnegative(a: nat, b: nat)
    ensures a * b >= 0
  {
  }

  lemma SlotsDisjoint(i: nat, j: nat, size: nat)
    requires i < j
    ensures i * size + size <= j * size
  {
    Distribute(i + 1, j - (i + 1), size);
    Distribute(i, 1, size);
    Nonnegative(j - (i + 1), size);
  }

  /** The bytes of one slot. */
  function SlotBytes(storage: seq<Byte>, slot: nat, length: nat, size: nat): (item: seq<Byte>)
    requires slot < length && |storage| == length * size
    ensures |item| == size
  {
    SlotInStorage(slot, length, size);
    storage[slot * size..slot * size + size]
  }

  /** The storage of a queue shows the slots of its value. */
  ghost predicate SlotsShown(o: SyncObject, value: Object)
    reads o.storage
  {
    o.kind == QueueData ==>
      && |value.slots| == o.length && o.storage.Length == o.length * o.itemSize
      && forall i {:trigger value.slots[i]} :: 0 <= i < o.length ==>
           value.slots[i] == SlotBytes(o.storage[..], i, o.length, o.itemSize)
  }

  ghost function Storages(s: Scheduler): set<array<Byte>> {
    set o | o in s.objects :: o.storage
  }

  /** Every queue's storage shows its slots, and no two objects share storage. */
  ghost predicate StorageShown(s: Scheduler, values: seq<Object>)
    reads Storages(s)
  {
    && |values| == |s.objects|
    && (forall a, b {:trigger s.objects[a], s.objects[b]} :: 0 <= a < b < |s.objects| ==> s.objects[a].storage != s.objects[b].storage)
    && (forall o {:trigger s.objects[o]} :: 0 <= o < |s.objects| ==> SlotsShown(s.objects[o], values[o]))
  }

  lemma WrittenSlots(before: seq<Byte>, after: seq<Byte>, slot: nat, length: nat, item: seq<Byte>, i: nat)
    requires slot < length && i < length && |before| == |after| == length * |item|
    requires slot * |item| + |item| <= |after|
    requires forall j :: 0 <= j < |item| ==> after[slot * |item| + j] == item[j]
    requires forall x :: 0 <= x < |before| && !(slot * |item| <= x < slot * |item| + |item|) ==> after[x] == before[x]
    ensures SlotBytes(after, i, length, |item|) == if i == slot then item else SlotBytes(before, i, length, |item|)
  {
    SlotInStorage(i, length, |item|);
    if i < slot { SlotsDisjoint(i, slot, |item|); }
    if slot < i { SlotsDisjoint(slot, i, |item|); }
    var base := i * |item|;
    forall j | 0 <= j < |item| ensures SlotBytes(after, i, length, |item|)[j] == (if i == slot then item else SlotBytes(before, i, length, |item|))[j] {
      assert SlotBytes(after, i, length, |item|)[j] == after[base + j];
      assert SlotBytes(before, i, length, |item|)[j] == before[base + j];
    }
  }

  /** memcpy into a slot. */
  method WriteSlot(o: SyncObject, slot: nat, item: seq<Byte>, ghost value: Object)
    requires o.kind == QueueData && slot < o.length && |item| == o.itemSize && SlotsShown(o, value)
    modifies o.storage
    ensures SlotsShown(o, value.(slots := value.slots[slot := item]))
  {
    SlotInStorage(slot, o.length, |item|);
    ghost var before := o.storage[..];
    var base := slot * |item|;
    forall j | 0 <= j < |item| { o.storage[base + j] := item[j]; }
    ghost var slots := value.slots[slot := item];
    forall i | 0 <= i < o.length ensures slots[i] == SlotBytes(o.storage[..], i, o.length, o.itemSize) {
      WrittenSlots(before, o.storage[..], slot, o.length, item, i);
      assert value.slots[i] == SlotBytes(before, i, o.length, o.itemSize);
    }
  }

  /** memcpy out of a slot. */
  method ReadSlot(o: SyncObject, slot: nat, ghost value: Object) returns (item: seq<Byte>)
    requires o.kind == QueueData && slot < o.length && SlotsShown(o, value)
    ensures slot < |value.slots| && item == value.slots[slot]
  {
    SlotInStorage(slot, o.length, o.itemSize);
    item := o.storage[slot * o.itemSize..slot * o.itemSize + o.itemSize];
    assert value.slots[slot] == SlotBytes(o.storage[..], slot, o.length, o.itemSize);
  }
}
