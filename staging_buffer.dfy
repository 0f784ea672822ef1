/**
 * The staging-buffer pool of the gpu API (src/gpu/buffer/staging_buffer.rs):
 * a list of buffers, each with its capacity, the usage it was created with,
 * the number of frames since it was last handed out and whether it is handed
 * out in the current frame. `allocate` reuses the first free buffer that is
 * large enough, whatever its usage, or appends a new one created with the
 * requested usage; `cycle`, once per frame, frees every buffer and drops
 * those not used for 60 frames.
 */
module StagingBuffers {
  import opened Wrappers
  import opened ShaderTypes
  import opened Handles
  import Wgpu

  /** `wgpu::COPY_BUFFER_ALIGNMENT`. */
  const COPY_BUFFER_ALIGNMENT: nat := 4
  const MAX_CYCLES: nat := 60

  datatype StagingItem = StagingItem(buffer: Handle, capacity: nat, usage: Wgpu.BufferUsages, cycle: nat, used: bool)

  /** The allocation size: the data length rounded up to a multiple of the copy alignment. */
  function AlignedSize(len: nat): (r: nat)
    ensures r % COPY_BUFFER_ALIGNMENT == 0
    ensures len <= r < len + COPY_BUFFER_ALIGNMENT
  {
    (len + COPY_BUFFER_ALIGNMENT - 1) / COPY_BUFFER_ALIGNMENT * COPY_BUFFER_ALIGNMENT
  }

  /** Whether `item` can serve an allocation of `size` bytes; its usage is not consulted. */
  predicate Fits(item: StagingItem, size: nat)
  {
    !item.used && item.capacity >= size
  }

  /** The index of the first item that fits, if any. */
  function FirstFit(items: seq<StagingItem>, size: nat): (r: Option<nat>)
    ensures r.Some? ==> r.value < |items| && Fits(items[r.value], size)
    ensures r.Some? ==> forall j :: 0 <= j < r.value ==> !Fits(items[j], size)
    ensures r.None? ==> forall j :: 0 <= j < |items| ==> !Fits(items[j], size)
  {
    if |items| == 0 then None
    else if Fits(items[0], size) then Some(0)
    else
      match FirstFit(items[1..], size)
      case None => None
      case Some(i) => Some(i + 1)
  }

  /**
   * The pool after an allocation of `size` bytes and the index of the item
   * handed out: the first item that fits, marked used with its cycle reset,
   * or else a new item for the buffer the device created with `usage`,
   * appended.
   */
  function Allocated(items: seq<StagingItem>, size: nat, usage: Wgpu.BufferUsages, created: Handle): (seq<StagingItem>, nat)
  {
    match FirstFit(items, size)
    case Some(i) => (items[i := items[i].(used := true, cycle := 0)], i)
    case None => (items + [StagingItem(created, size, usage, 0, true)], |items|)
  }

  /** An allocation reuses a free buffer when one fits and grows the pool by one otherwise; nothing else changes. */
  lemma AllocatedShape(items: seq<StagingItem>, size: nat, usage: Wgpu.BufferUsages, created: Handle)
    ensures var (r, i) := Allocated(items, size, usage, created);
      i < |r| && r[i].used && r[i].cycle == 0 && r[i].capacity >= size &&
      (forall j :: 0 <= j < |items| && j != i ==> r[j] == items[j]) &&
      (FirstFit(items, size).Some? ==>
        (|r| == |items| && i < |items| && r[i].buffer == items[i].buffer && r[i].usage == items[i].usage)) &&
      (FirstFit(items, size).None? ==>
        (|r| == |items| + 1 && i == |items| && r[i].buffer == created && r[i].usage == usage))
  {
  }

  /** Between two cycles no item is handed out twice: a second allocation gets another item. */
  lemma NoDoubleHandout(items: seq<StagingItem>, s1: nat, u1: Wgpu.BufferUsages, c1: Handle,
                         s2: nat, u2: Wgpu.BufferUsages, c2: Handle)
    ensures var (items1, i1) := Allocated(items, s1, u1, c1);
      var (items2, i2) := Allocated(items1, s2, u2, c2);
      i1 != i2 && items2[i1] == items1[i1]
  {
    var (items1, i1) := Allocated(items, s1, u1, c1);
    AllocatedShape(items, s1, u1, c1);
    AllocatedShape(items1, s2, u2, c2);
  }

  /** Every item of the pool was created with `usage`. */
  predicate AllOfUsage(items: seq<StagingItem>, usage: Wgpu.BufferUsages)
  {
    forall j :: 0 <= j < |items| ==> items[j].usage == usage
  }

  /**
   * A pool that only ever serves one usage hands out buffers of that usage:
   * allocation and `cycle` keep every item of it.
   */
  lemma SingleUsagePool(items: seq<StagingItem>, size: nat, usage: Wgpu.BufferUsages, created: Handle)
    requires AllOfUsage(items, usage)
    ensures var (r, i) := Allocated(items, size, usage, created);
      AllOfUsage(r, usage) && r[i].usage == usage
    ensures AllOfUsage(Cycled(items), usage)
  {
    AllocatedShape(items, size, usage, created);
    var freed := seq(|items|, i requires 0 <= i < |items| => Freed(items[i]));
    forall j | 0 <= j < |Cycled(items)|
      ensures Cycled(items)[j].usage == usage
    {
      assert Cycled(items)[j] in freed;
    }
  }

  /**
   * Reuse does not look at the usage: a free vertex buffer is handed out
   * for an index upload of the same size.
   */
  lemma ReuseIgnoresUsage(b: Handle, created: Handle)
    ensures var vertex: Wgpu.BufferUsages := 0x028;
      var index: Wgpu.BufferUsages := 0x018;
      var pool := [StagingItem(b, 16, vertex, 1, false)];
      var (r, i) := Allocated(pool, 16, index, created);
      i == 0 && r[i].buffer == b && r[i].usage == vertex && r[i].usage != index
  {
    var pool := [StagingItem(b, 16, 0x028, 1, false)];
    assert Fits(pool[0], 16);
    FirstFitIs(pool, 16, 0);
  }

  /** An item one cycle older, no longer handed out. */
  function Freed(item: StagingItem): StagingItem
  {
    item.(cycle := item.cycle + 1, used := false)
  }

  /** `retain`: the items used within the last 60 cycles, in order. */
  function Kept(items: seq<StagingItem>): (r: seq<StagingItem>)
    ensures |r| <= |items|
    ensures forall j :: 0 <= j < |r| ==> r[j] in items && r[j].cycle < MAX_CYCLES
    ensures forall x :: x in items && x.cycle < MAX_CYCLES ==> x in r
  {
    if |items| == 0 then []
    else if items[0].cycle < MAX_CYCLES then [items[0]] + Kept(items[1..])
    else Kept(items[1..])
  }

  /** The pool after `cycle`. */
  function Cycled(items: seq<StagingItem>): seq<StagingItem>
  {
    Kept(seq(|items|, i requires 0 <= i < |items| => Freed(items[i])))
  }

  /** After a cycle every item is free and was used within the last 59 cycles. */
  lemma CycledFree(items: seq<StagingItem>)
    ensures forall j :: 0 <= j < |Cycled(items)| ==>
      !Cycled(items)[j].used && 1 <= Cycled(items)[j].cycle < MAX_CYCLES
  {
    var freed := seq(|items|, i requires 0 <= i < |items| => Freed(items[i]));
    forall j | 0 <= j < |Cycled(items)|
      ensures !Cycled(items)[j].used && 1 <= Cycled(items)[j].cycle < MAX_CYCLES
    {
      assert Cycled(items)[j] in freed;
    }
  }

  class StagingBuffer {
    var buffers: seq<StagingItem>

    constructor()
      ensures buffers == []
    {
      buffers := [];
    }

    /** Once per frame: every item ages by one and is freed, then the items 60 cycles old are dropped. */
    method Cycle()
      modifies this
      ensures buffers == Cycled(old(buffers))
    {
      var i := 0;
      while i < |buffers|
        invariant 0 <= i <= |buffers| == |old(buffers)|
        invariant forall j :: 0 <= j < i ==> buffers[j] == Freed(old(buffers)[j])
        invariant forall j :: i <= j < |buffers| ==> buffers[j] == old(buffers)[j]
      {
        buffers := buffers[i := Freed(buffers[i])];
        i := i + 1;
      }
      assert buffers == seq(|old(buffers)|, j requires 0 <= j < |old(buffers)| => Freed(old(buffers)[j]));
      buffers := Kept(buffers);
    }

    /**
     * `allocate`: hands out a buffer of at least the aligned size and
     * returns it with the bytes written to it, the data followed by zeros
     * up to the aligned size. `created` is the buffer the device creates
     * with `usage` when no free buffer fits; a reused buffer keeps the
     * usage it was created with.
     */
    method Allocate(data: seq<Byte>, usage: Wgpu.BufferUsages, created: Handle) returns (buffer: Handle, written: seq<Byte>)
      modifies this
      ensures var (items, i) := Allocated(old(buffers), AlignedSize(|data|), usage, created);
        buffers == items && buffer == items[i].buffer
      ensures |written| == AlignedSize(|data|) && written[..|data|] == data
      ensures forall j :: |data| <= j < |written| ==> written[j] == 0
    {
      var size := AlignedSize(|data|);
      var found := FindFree(buffers, size);
      AllocatedShape(buffers, size, usage, created);
      match found {
        case Some(i) =>
          buffers := buffers[i := buffers[i].(used := true, cycle := 0)];
          buffer := buffers[i].buffer;
        case None =>
          buffers := buffers + [StagingItem(created, size, usage, 0, true)];
          buffer := created;
      }
      written := data + seq(size - |data|, _ => 0);
    }
  }

  /** The `find` of `allocate`: scans the pool for the first item that fits. */
  method FindFree(items: seq<StagingItem>, size: nat) returns (r: Option<nat>)
    ensures r == FirstFit(items, size)
  {
    var i := 0;
    while i < |items|
      invariant 0 <= i <= |items|
      invariant forall j :: 0 <= j < i ==> !Fits(items[j], size)
    {
      if Fits(items[i], size) {
        FirstFitIs(items, size, i);
        return Some(i);
      }
      i := i + 1;
    }
    NoneFits(items, size);
    r := None;
  }

  /** The first index that fits is what `FirstFit` returns. */
  lemma {:induction false} FirstFitIs(items: seq<StagingItem>, size: nat, i: nat)
    requires i < |items| && Fits(items[i], size)
    requires forall j :: 0 <= j < i ==> !Fits(items[j], size)
    ensures FirstFit(items, size) == Some(i)
    decreases i
  {
    if i > 0 {
      FirstFitIs(items[1..], size, i - 1);
    }
  }

  lemma NoneFits(items: seq<StagingItem>, size: nat)
    requires forall j :: 0 <= j < |items| ==> !Fits(items[j], size)
    ensures FirstFit(items, size) == None
  {
  }
}
