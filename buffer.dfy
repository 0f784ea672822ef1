/**
 * GPU buffers (src/gpu/buffer/mod.rs): the usage flags, the builder, and
 * the buffer itself with its creation, resizing, reads, writes and the
 * map/unmap protocol.
 *
 * A buffer's GPU memory is modelled by its bytes (`contents`), which are
 * `AllocSize(size)` long because `internal_make_buffer` rounds every
 * allocation up. Copies between buffers follow wgpu's validation of
 * `copy_buffer_to_buffer`. The checks the crate runs only in validation
 * builds are modelled as on; their panics, and those of the context, are
 * `Panicked` errors.
 */
module Buffers {
  import opened Wrappers
  import opened ShaderTypes
  import StagingBuffers
  import GpuContext
  import Wgpu

  /** The largest size `internal_make_buffer` can round up without overflowing u64. */
  const MAX_SIZE: nat := GpuContext.TWO_64 - 4

  /** The ten flags of `BufferUsage`; they are wgpu's `BufferUsages` bits. */
  type BufferUsage = Wgpu.BufferUsages

  const MAP_READ: BufferUsage := 0x001
  const MAP_WRITE: BufferUsage := 0x002
  const COPY_SRC: BufferUsage := 0x004
  const COPY_DST: BufferUsage := 0x008
  const INDEX: BufferUsage := 0x010
  const VERTEX: BufferUsage := 0x020
  const UNIFORM: BufferUsage := 0x040
  const STORAGE: BufferUsage := 0x080
  const INDIRECT: BufferUsage := 0x100
  const QUERY_RESOLVE: BufferUsage := 0x200

  predicate Contains(u: BufferUsage, flag: BufferUsage)
  {
    u & flag == flag
  }

  /** What `read` accepts: COPY_SRC or MAP_READ. */
  predicate Readable(u: BufferUsage)
  {
    Contains(u, COPY_SRC) || Contains(u, MAP_READ)
  }

  datatype BufferPanic =
    | ContextPanic(e: GpuContext.GpuError)
    | SizeOverflow
    | NotWritable
    | SourceNotReadable
    | DestinationTooSmall
    | CopyRejected
    | NotMapped

  datatype BufferError =
    | InvalidUsage
    | InvalidSize
    | BufferNotReadable
    | BufferNotWritable
    | FailedToMapBuffer
    | Panicked(reason: BufferPanic)

  datatype BufferMapMode = MapRead | MapWrite

  /** `bytemuck::cast_slice`: the elements' bytes one after another. */
  function Flatten(elems: seq<seq<Byte>>): (r: seq<Byte>)
    ensures r == [] <==> forall i :: 0 <= i < |elems| ==> elems[i] == []
  {
    if |elems| == 0 then [] else elems[0] + Flatten(elems[1..])
  }

  /** With every element `elemSize` bytes long, the bytes number count × size. */
  lemma {:induction false} FlattenLength(elems: seq<seq<Byte>>, elemSize: nat)
    requires forall i :: 0 <= i < |elems| ==> |elems[i]| == elemSize
    ensures |Flatten(elems)| == |elems| * elemSize
  {
    if |elems| > 0 {
      FlattenLength(elems[1..], elemSize);
      MulStep(|elems| - 1, elemSize);
    }
  }

  lemma MulStep(k: nat, s: nat)
    ensures (k + 1) * s == k * s + s
  {
  }

  /** For sizes that fit, the allocation is the copy-aligned size. */
  lemma AllocIsAligned(n: nat)
    requires 0 < n <= MAX_SIZE
    ensures GpuContext.AllocSize(n) == StagingBuffers.AlignedSize(n)
  {
    GpuContext.AllocSizeIsLeastMultiple(n);
    var a := StagingBuffers.AlignedSize(n);
    var b := GpuContext.AllocSize(n);
    assert b <= a;
    assert a - b < 4 && (a - b) % 4 == 0;
  }

  lemma AlignedMono(m: nat, n: nat)
    requires m <= n
    ensures StagingBuffers.AlignedSize(m) <= StagingBuffers.AlignedSize(n)
  {
  }

  // ---------------------------------------------------------------------
  // Builder

  datatype BufferData = NoData | Data(elems: seq<seq<Byte>>)

  /** `BufferBuilder<T>`, with `elemSize` = `size_of::<T>()`. */
  datatype BufferBuilder = BufferBuilder(elemSize: nat, data: BufferData, len: nat, usage: BufferUsage, mapped: bool)

  /** `BufferBuilder::new`: no data, length 0, no usage, unmapped. */
  function NewBuilder(elemSize: nat): (r: BufferBuilder)
    ensures r.data == NoData && r.len == 0 && r.usage == 0 && !r.mapped && r.elemSize == elemSize
  {
    BufferBuilder(elemSize, NoData, 0, 0, false)
  }

  /** `set_data_empty`: a length without data. */
  function SetDataEmpty(b: BufferBuilder, len: nat): (r: BufferBuilder)
    ensures r.len == len && r.data == b.data && r.usage == b.usage && r.mapped == b.mapped
  {
    b.(len := len)
  }

  /**
   * `set_data_vec` and `set_data_slice`: the data, and as length the
   * number of bytes the elements occupy.
   */
  function SetData(b: BufferBuilder, elems: seq<seq<Byte>>): (r: BufferBuilder)
    requires forall i :: 0 <= i < |elems| ==> |elems[i]| == b.elemSize
    ensures r.data == Data(elems) && r.len == |Flatten(elems)|
    ensures r.usage == b.usage && r.mapped == b.mapped && r.elemSize == b.elemSize
  {
    FlattenLength(elems, b.elemSize);
    b.(data := Data(elems), len := |elems| * b.elemSize)
  }

  function SetUsage(b: BufferBuilder, usage: BufferUsage): (r: BufferBuilder)
    ensures r.usage == usage && r.data == b.data && r.len == b.len && r.mapped == b.mapped
  {
    b.(usage := usage)
  }

  function SetMapped(b: BufferBuilder, mapped: bool): (r: BufferBuilder)
    ensures r.mapped == mapped && r.data == b.data && r.len == b.len && r.usage == b.usage
  {
    b.(mapped := mapped)
  }

  /**
   * `build`: InvalidSize with neither length nor data; otherwise
   * `Buffer::new` for a length, `Buffer::from_slice` for data.
   */
  method Build(b: BufferBuilder, graphics: GpuContext.GpuInner) returns (r: Result<Buffer, BufferError>)
    ensures b.len == 0 && b.data.NoData? ==> r == Err(InvalidSize)
    ensures b.data.Data? && |b.data.elems| == 0 ==> r == Err(InvalidSize)
    ensures r.Ok? ==> fresh(r.value) && r.value.Valid() && r.value.graphics == graphics
    ensures r.Ok? ==> r.value.usage == b.usage && r.value.mapped == b.mapped && r.value.mappedType == MapWrite
    ensures r.Ok? && b.data.NoData? ==> r.value.size == b.len && r.value.contents == Zeros(GpuContext.AllocSize(b.len))
    ensures r.Ok? && b.data.Data? ==>
      r.value.size == |Flatten(b.data.elems)| && r.value.contents[..r.value.size] == Flatten(b.data.elems)
    ensures (b.len > 0 || b.data.Data?) && !graphics.isInvalid ==>
      (r.Ok? <==> 0 < |(if b.data.Data? then Flatten(b.data.elems) else Zeros(b.len))| <= MAX_SIZE)
  {
    if b.len == 0 && b.data.NoData? {
      return Err(InvalidSize);
    }
    match b.data
    case NoData =>
      r := Buffer.New(graphics, b.len, b.usage, b.mapped);
    case Data(elems) =>
      r := Buffer.FromSlice(graphics, elems, b.usage, b.mapped);
  }

  // ---------------------------------------------------------------------
  // Copies and writes on values

  /** wgpu's validation of a copy of `size` bytes between the starts of two distinct buffers. */
  predicate CopyAllowed(srcUsage: BufferUsage, srcLen: nat, dstUsage: BufferUsage, dstLen: nat, size: nat)
  {
    Contains(srcUsage, COPY_SRC) && Contains(dstUsage, COPY_DST) &&
    size % StagingBuffers.COPY_BUFFER_ALIGNMENT == 0 && size <= srcLen && size <= dstLen
  }

  /** `copy_buffer_to_buffer(src, 0, dst, 0, size)`: the first `size` bytes of `dst` are replaced. */
  function CopyOutcome(srcUsage: BufferUsage, src: seq<Byte>, dstUsage: BufferUsage, dst: seq<Byte>,
                       size: nat, sameBuffer: bool): (r: Result<seq<Byte>, BufferError>)
    ensures r.Ok? <==> !sameBuffer && CopyAllowed(srcUsage, |src|, dstUsage, |dst|, size)
    ensures r.Err? ==> r == Err(Panicked(CopyRejected))
    ensures r.Ok? ==> |r.value| == |dst| && r.value[..size] == src[..size] && r.value[size..] == dst[size..]
  {
    if !sameBuffer && CopyAllowed(srcUsage, |src|, dstUsage, |dst|, size) then
      Ok(src[..size] + dst[size..])
    else Err(Panicked(CopyRejected))
  }

  /** The data padded with zeros to the next multiple of the copy alignment, as raw writes send it. */
  function Padded(data: seq<Byte>): (r: seq<Byte>)
    ensures |r| == StagingBuffers.AlignedSize(|data|) && r[..|data|] == data
    ensures forall i :: |data| <= i < |r| ==> r[i] == 0
  {
    if |data| % StagingBuffers.COPY_BUFFER_ALIGNMENT != 0 then
      data + Zeros(StagingBuffers.AlignedSize(|data|) - |data|)
    else data
  }

  /**
   * `write_raw`: the validation checks, then the padded data goes into a
   * COPY_SRC staging buffer made by `create_buffer_with`, whose whole
   * size is copied to the start of the buffer.
   */
  function RawWrite(usage: BufferUsage, size: nat, contents: seq<Byte>, contextValid: bool, data: seq<Byte>): (r: Result<seq<Byte>, BufferError>)
    requires 0 < size <= MAX_SIZE && |contents| == GpuContext.AllocSize(size)
    ensures !Contains(usage, COPY_DST) ==> r == Err(Panicked(NotWritable))
    ensures Contains(usage, COPY_DST) && size < |data| ==> r == Err(Panicked(DestinationTooSmall))
    ensures r.Ok? <==> Contains(usage, COPY_DST) && 0 < |data| <= size && contextValid
  {
    if !Contains(usage, COPY_DST) then Err(Panicked(NotWritable))
    else if size < |data| then Err(Panicked(DestinationTooSmall))
    else if !contextValid then Err(Panicked(ContextPanic(GpuContext.InvalidContext)))
    else if |data| == 0 then Err(Panicked(ContextPanic(GpuContext.EmptyData)))
    else
      var padded := Padded(data);
      AllocIsAligned(size);
      AlignedMono(|data|, size);
      AllocIsAligned(|padded|);
      CopyOutcome(COPY_SRC, padded, usage, contents, |padded|, false)
  }

  /**
   * A raw write stores the data at the start, zeros up to the next
   * multiple of 4, and leaves every later byte as it was.
   */
  lemma RawWriteStores(usage: BufferUsage, size: nat, contents: seq<Byte>, contextValid: bool, data: seq<Byte>)
    requires 0 < size <= MAX_SIZE && |contents| == GpuContext.AllocSize(size)
    requires RawWrite(usage, size, contents, contextValid, data).Ok?
    ensures var w := RawWrite(usage, size, contents, contextValid, data).value;
      var end := StagingBuffers.AlignedSize(|data|);
      |w| == |contents| && end <= |w| && w[..|data|] == data &&
      (forall i :: |data| <= i < end ==> w[i] == 0) && w[end..] == contents[end..]
  {
    var w := RawWrite(usage, size, contents, contextValid, data).value;
    var padded := Padded(data);
    assert w[..|padded|] == padded;
    assert w[..|data|] == padded[..|data|];
  }

  /** The bytes `read` returns of a buffer of `size` bytes holding `contents`. */
  function ReadOutcome(usage: BufferUsage, size: nat, mapped: bool, contents: seq<Byte>, contextValid: bool): (r: Result<seq<Byte>, BufferError>)
    requires 0 < size <= MAX_SIZE && |contents| == GpuContext.AllocSize(size)
    ensures !Readable(usage) ==> r == Err(BufferNotReadable)
    ensures Readable(usage) && mapped ==> r.Ok?
    ensures Readable(usage) && !mapped ==>
      (r.Ok? <==> contextValid && Contains(usage, COPY_SRC) && size % StagingBuffers.COPY_BUFFER_ALIGNMENT == 0)
    ensures r.Ok? ==> r.value == contents[..size]
    ensures r.Err? ==> r == Err(BufferNotReadable) || r.error.Panicked?
  {
    AllocIsAligned(size);
    if !Readable(usage) then Err(BufferNotReadable)
    else if mapped then Ok(contents[..size])
    else if !contextValid then Err(Panicked(ContextPanic(GpuContext.InvalidContext)))
    else
      // The staging buffer: `create_buffer(size, COPY_DST | MAP_READ)`.
      var copied :- CopyOutcome(usage, contents, COPY_DST | MAP_READ, Zeros(|contents|), size, false);
      Ok(copied[..size])
  }

  /** A buffer written raw with exactly `size` bytes reads them back. */
  lemma RawWriteThenRead(usage: BufferUsage, size: nat, mapped: bool, contents: seq<Byte>, contextValid: bool, data: seq<Byte>)
    requires 0 < size <= MAX_SIZE && |contents| == GpuContext.AllocSize(size)
    requires |data| == size && RawWrite(usage, size, contents, contextValid, data).Ok?
    ensures var w := RawWrite(usage, size, contents, contextValid, data).value;
      ReadOutcome(usage, size, mapped, w, contextValid).Ok? ==> ReadOutcome(usage, size, mapped, w, contextValid).value == data
  {
    RawWriteStores(usage, size, contents, contextValid, data);
  }

  /** `resize`'s new data: the old bytes truncated, or padded with zeros, to exactly `n`. */
  function Fit(data: seq<Byte>, n: nat): (r: seq<Byte>)
    ensures |r| == n
    ensures forall i :: 0 <= i < n && i < |data| ==> r[i] == data[i]
    ensures forall i :: |data| <= i < n ==> r[i] == 0
  {
    if |data| < n then data + Zeros(n - |data|)
    else data[..n]
  }

  /**
   * `write`: the validation checks, then `copy_buffer_to_buffer` with the
   * size of the DESTINATION, which can exceed what the source holds.
   */
  function WriteAsWritten(srcUsage: BufferUsage, srcSize: nat, src: seq<Byte>,
                          dstUsage: BufferUsage, dstSize: nat, dst: seq<Byte>, sameBuffer: bool): (r: Result<seq<Byte>, BufferError>)
    ensures !Contains(dstUsage, COPY_DST) ==> r == Err(Panicked(NotWritable))
    ensures r.Ok? ==> Contains(dstUsage, COPY_DST) && Contains(srcUsage, COPY_SRC) && srcSize <= dstSize
    ensures r.Ok? ==> dstSize <= |src| && dstSize <= |r.value| && r.value[..dstSize] == src[..dstSize]
  {
    if !Contains(dstUsage, COPY_DST) then Err(Panicked(NotWritable))
    else if !Contains(srcUsage, COPY_SRC) then Err(Panicked(SourceNotReadable))
    else if dstSize < srcSize then Err(Panicked(DestinationTooSmall))
    else CopyOutcome(srcUsage, src, dstUsage, dst, dstSize, sameBuffer)
  }

  /** A 4-byte source written into an 8-byte destination: the copy reads past the source and wgpu rejects it. */
  lemma WriteAsWrittenOverreads()
    ensures var src := Zeros(GpuContext.AllocSize(4));
      var dst := Zeros(GpuContext.AllocSize(8));
      WriteAsWritten(COPY_SRC | COPY_DST, 4, src, COPY_SRC | COPY_DST, 8, dst, false) == Err(Panicked(CopyRejected))
  {
    assert GpuContext.AllocSize(4) == 4 by { AllocIsAligned(4); }
    assert (COPY_SRC | COPY_DST) & COPY_SRC == COPY_SRC;
    assert (COPY_SRC | COPY_DST) & COPY_DST == COPY_DST;
  }

  /** `write` with the copy sized by the source, rounded up to the copy alignment. */
  function WriteCopy(srcUsage: BufferUsage, srcSize: nat, src: seq<Byte>,
                     dstUsage: BufferUsage, dstSize: nat, dst: seq<Byte>, sameBuffer: bool): (r: Result<seq<Byte>, BufferError>)
    requires 0 < srcSize <= MAX_SIZE && |src| == GpuContext.AllocSize(srcSize)
    requires 0 < dstSize <= MAX_SIZE && |dst| == GpuContext.AllocSize(dstSize)
    ensures !Contains(dstUsage, COPY_DST) ==> r == Err(Panicked(NotWritable))
    ensures Contains(dstUsage, COPY_DST) && !Contains(srcUsage, COPY_SRC) ==> r == Err(Panicked(SourceNotReadable))
    ensures Contains(dstUsage, COPY_DST) && Contains(srcUsage, COPY_SRC) && dstSize < srcSize ==>
      r == Err(Panicked(DestinationTooSmall))
    ensures r.Ok? <==> Contains(dstUsage, COPY_DST) && Contains(srcUsage, COPY_SRC) && srcSize <= dstSize && !sameBuffer
    ensures r.Ok? ==> |r.value| == |dst| && r.value[..srcSize] == src[..srcSize]
    ensures r.Ok? ==> var end := StagingBuffers.AlignedSize(srcSize); end <= |dst| && r.value[end..] == dst[end..]
  {
    if !Contains(dstUsage, COPY_DST) then Err(Panicked(NotWritable))
    else if !Contains(srcUsage, COPY_SRC) then Err(Panicked(SourceNotReadable))
    else if dstSize < srcSize then Err(Panicked(DestinationTooSmall))
    else
      AllocIsAligned(srcSize);
      AllocIsAligned(dstSize);
      AlignedMono(srcSize, dstSize);
      var r := CopyOutcome(srcUsage, src, dstUsage, dst, StagingBuffers.AlignedSize(srcSize), sameBuffer);
      assert r.Ok? ==> r.value[..srcSize] == r.value[..StagingBuffers.AlignedSize(srcSize)][..srcSize];
      r
  }

  // ---------------------------------------------------------------------
  // Mapping

  /** The mapping state of a buffer: `mapped`, `mapped_buffer`, `mapped_type`. */
  datatype Mapping = Mapping(mapped: bool, buffer: seq<Byte>, mode: BufferMapMode)

  /**
   * `map` as written: Write maps and hands out `size` zeros; Read maps,
   * then `read`s, and on success hands out the bytes read. `mapped_type`
   * is never assigned.
   */
  function MapAsWritten(m: Mapping, mode: BufferMapMode, size: nat, read: Result<seq<Byte>, BufferError>): (r: (Mapping, Result<seq<Byte>, BufferError>))
    ensures r.0.mapped && r.0.mode == m.mode
  {
    match mode
    case MapWrite => (m.(mapped := true, buffer := Zeros(size)), Ok(Zeros(size)))
    case MapRead =>
      if read.Err? then (m.(mapped := true), Err(read.error))
      else (m.(mapped := true, buffer := read.value), Ok(read.value))
  }

  /** `map` recording the mode, which `unmap` dispatches on. */
  function Mapped(m: Mapping, mode: BufferMapMode, size: nat, read: Result<seq<Byte>, BufferError>): (r: (Mapping, Result<seq<Byte>, BufferError>))
    ensures r.0.mapped && r.0.mode == mode
    ensures mode == MapWrite ==> r.0.buffer == Zeros(size) && r.1 == Ok(r.0.buffer)
    ensures mode == MapRead ==> r.1 == read && r.0.buffer == (if read.Ok? then read.value else m.buffer)
  {
    var (n, out) := MapAsWritten(m, mode, size, read);
    (n.(mode := mode), out)
  }

  datatype UnmapAction = UnmapPanic | WriteBack(data: seq<Byte>) | DropRead

  /**
   * `unmap`: a panic when the mapped buffer is empty or the buffer is not
   * mapped; otherwise a write mapping is written back with `write_raw`
   * and a read mapping is dropped.
   */
  function UnmapStep(m: Mapping): (r: UnmapAction)
    ensures r == UnmapPanic <==> m.buffer == [] || !m.mapped
    ensures r.WriteBack? <==> m.buffer != [] && m.mapped && m.mode == MapWrite
    ensures r.WriteBack? ==> r.data == m.buffer
  {
    if m.buffer == [] || !m.mapped then UnmapPanic
    else if m.mode == MapWrite then WriteBack(m.buffer)
    else DropRead
  }

  /**
   * A buffer that was never mapped has mode Write. Mapping it for reading
   * as written keeps that mode, so `unmap` writes the bytes back; with
   * the mode recorded it drops them.
   */
  lemma MapReadAsWrittenWritesBack(size: nat, data: seq<Byte>)
    requires data != []
    ensures var m := Mapping(false, [], MapWrite);
      UnmapStep(MapAsWritten(m, MapRead, size, Ok(data)).0) == WriteBack(data) &&
      UnmapStep(Mapped(m, MapRead, size, Ok(data)).0) == DropRead
  {
  }

  /** A COPY_SRC-only buffer of 4 bytes: writing back the bytes `map(Read)` returned panics. */
  lemma WriteBackPanicsWithoutCopyDst(contents: seq<Byte>, data: seq<Byte>)
    requires |contents| == 4 && |data| == 4
    ensures GpuContext.AllocSize(4) == 4
    ensures RawWrite(COPY_SRC, 4, contents, true, data) == Err(Panicked(NotWritable))
  {
    AllocIsAligned(4);
  }

  /** The staging buffer of a raw write holds exactly the padded data. */
  lemma StagingOutcome(graphics: GpuContext.GpuInner, data: seq<Byte>)
    requires |data| <= MAX_SIZE
    ensures graphics.CreateBufferWith(Padded(data)) ==
      if graphics.isInvalid then Err(GpuContext.InvalidContext)
      else if data == [] then Err(GpuContext.EmptyData)
      else Ok(Padded(data))
  {
    var padded := Padded(data);
    if !graphics.isInvalid && data != [] {
      AllocIsAligned(|padded|);
      assert padded + Zeros(0) == padded;
    }
  }

  // ---------------------------------------------------------------------
  // The buffer

  class Buffer {
    const graphics: GpuContext.GpuInner
    var size: nat
    var usage: BufferUsage
    var mapped: bool
    /** The GPU memory: `AllocSize(size)` bytes. */
    var contents: seq<Byte>
    var mappedBuffer: seq<Byte>
    var mappedType: BufferMapMode

    ghost predicate Valid()
      reads this
    {
      0 < size <= MAX_SIZE && |contents| == GpuContext.AllocSize(size)
    }

    function MapState(): (r: Mapping)
      reads this
      ensures r.mapped == mapped && r.buffer == mappedBuffer && r.mode == mappedType
    {
      Mapping(mapped, mappedBuffer, mappedType)
    }

    constructor Init(graphics: GpuContext.GpuInner, size: nat, usage: BufferUsage, mapped: bool,
                     contents: seq<Byte>, mappedBuffer: seq<Byte>)
      ensures this.graphics == graphics && this.size == size && this.usage == usage && this.mapped == mapped
      ensures this.contents == contents && this.mappedBuffer == mappedBuffer && mappedType == MapWrite
    {
      this.graphics := graphics;
      this.size := size;
      this.usage := usage;
      this.mapped := mapped;
      this.contents := contents;
      this.mappedBuffer := mappedBuffer;
      mappedType := MapWrite;
    }

    /**
     * `Buffer::new`: InvalidSize for 0 bytes; otherwise a zeroed buffer,
     * handing out `size` zeros when mapped at creation.
     */
    static method New(graphics: GpuContext.GpuInner, size: nat, usage: BufferUsage, mapped: bool) returns (r: Result<Buffer, BufferError>)
      ensures size == 0 ==> r == Err(InvalidSize)
      ensures size > 0 && graphics.isInvalid ==> r == Err(Panicked(ContextPanic(GpuContext.InvalidContext)))
      ensures r.Ok? <==> 0 < size <= MAX_SIZE && !graphics.isInvalid
      ensures r.Ok? ==> fresh(r.value) && r.value.Valid() && r.value.graphics == graphics
      ensures r.Ok? ==> r.value.size == size && r.value.usage == usage && r.value.mapped == mapped
      ensures r.Ok? ==> r.value.contents == Zeros(GpuContext.AllocSize(size)) && r.value.mappedType == MapWrite
      ensures r.Ok? ==> r.value.mappedBuffer == if mapped then Zeros(size) else []
    {
      if size == 0 {
        return Err(InvalidSize);
      }
      var created := graphics.CreateBuffer(size);
      if created.Err? {
        return Err(Panicked(ContextPanic(created.error)));
      }
      if size > MAX_SIZE {
        return Err(Panicked(SizeOverflow));
      }
      var b := new Buffer.Init(graphics, size, usage, mapped, created.value, if mapped then Zeros(size) else []);
      return Ok(b);
    }

    /**
     * `Buffer::from_slice`: InvalidSize for no elements; otherwise a buffer
     * of the elements' bytes, handing them out when mapped at creation.
     */
    static method FromSlice(graphics: GpuContext.GpuInner, elems: seq<seq<Byte>>, usage: BufferUsage, mapped: bool)
      returns (r: Result<Buffer, BufferError>)
      ensures |elems| == 0 ==> r == Err(InvalidSize)
      ensures |elems| > 0 && graphics.isInvalid ==> r == Err(Panicked(ContextPanic(GpuContext.InvalidContext)))
      ensures r.Ok? <==> |elems| > 0 && !graphics.isInvalid && 0 < |Flatten(elems)| <= MAX_SIZE
      ensures r.Ok? ==> fresh(r.value) && r.value.Valid() && r.value.graphics == graphics
      ensures r.Ok? ==> r.value.size == |Flatten(elems)| && r.value.usage == usage && r.value.mapped == mapped
      ensures r.Ok? ==> r.value.contents[..r.value.size] == Flatten(elems) && r.value.mappedType == MapWrite
      ensures r.Ok? ==> forall i :: r.value.size <= i < |r.value.contents| ==> r.value.contents[i] == 0
      ensures r.Ok? ==> r.value.mappedBuffer == if mapped then Flatten(elems) else []
    {
      if |elems| == 0 {
        return Err(InvalidSize);
      }
      var data := Flatten(elems);
      if |data| > MAX_SIZE && !graphics.isInvalid {
        return Err(Panicked(SizeOverflow));
      }
      var created := graphics.CreateBufferWith(data);
      if created.Err? {
        return Err(Panicked(ContextPanic(created.error)));
      }
      var b := new Buffer.Init(graphics, |data|, usage, mapped, created.value, if mapped then data else []);
      return Ok(b);
    }

    /** `read`. */
    function Read(): (r: Result<seq<Byte>, BufferError>)
      reads this, graphics
      requires Valid()
      ensures r == ReadOutcome(usage, size, mapped, contents, !graphics.isInvalid)
      ensures r.Ok? ==> r.value == contents[..size]
    {
      ReadOutcome(usage, size, mapped, contents, !graphics.isInvalid)
    }

    /**
     * `resize`: InvalidSize for 0. Otherwise a new allocation of the new
     * size holding the old bytes truncated or zero-padded to it when they
     * could be read, and zeros when they could not; a panic while reading
     * propagates.
     */
    method Resize(newSize: nat) returns (r: Result<(), BufferError>)
      requires Valid()
      modifies this
      ensures Valid()
      ensures usage == old(usage) && mapped == old(mapped) && mappedBuffer == old(mappedBuffer) && mappedType == old(mappedType)
      ensures newSize == 0 ==> r == Err(InvalidSize)
      ensures r.Err? ==> size == old(size) && contents == old(contents)
      ensures newSize > 0 && old(Read()).Err? && old(Read()).error.Panicked? ==> r == Err(old(Read()).error)
      ensures r.Ok? <==>
        (0 < newSize <= MAX_SIZE && !graphics.isInvalid && (old(Read()).Ok? || old(Read()) == Err(BufferNotReadable)))
      ensures r.Ok? ==> size == newSize
      ensures r.Ok? && old(Read()).Ok? ==>
        contents == Fit(old(Read()).value, newSize) + Zeros(GpuContext.AllocSize(newSize) - newSize)
      ensures r.Ok? && old(Read()).Err? ==> contents == Zeros(GpuContext.AllocSize(newSize))
    {
      if newSize == 0 {
        return Err(InvalidSize);
      }
      var previous := Read();
      if previous.Err? && previous.error.Panicked? {
        return Err(previous.error);
      }
      if newSize > MAX_SIZE {
        return Err(Panicked(SizeOverflow));
      }
      AllocIsAligned(newSize);
      var created;
      if previous.Ok? {
        created := graphics.CreateBufferWith(Fit(previous.value, newSize));
      } else {
        created := graphics.CreateBuffer(newSize);
      }
      if created.Err? {
        return Err(Panicked(ContextPanic(created.error)));
      }
      contents := created.value;
      size := newSize;
      return Ok(());
    }

    /** `write_raw`: the bytes `RawWrite` gives, or the buffer unchanged and its panic. */
    method WriteRaw(data: seq<Byte>) returns (r: Result<(), BufferError>)
      requires Valid()
      modifies this
      ensures Valid() && size == old(size) && usage == old(usage)
      ensures MapState() == old(MapState())
      ensures var w := RawWrite(usage, size, old(contents), !graphics.isInvalid, data);
        (w.Ok? ==> r == Ok(()) && contents == w.value) && (w.Err? ==> r == Err(w.error) && contents == old(contents))
    {
      if !Contains(usage, COPY_DST) {
        return Err(Panicked(NotWritable));
      }
      if size < |data| {
        return Err(Panicked(DestinationTooSmall));
      }
      var padded := Padded(data);
      StagingOutcome(graphics, data);
      var staging := graphics.CreateBufferWith(padded);
      if staging.Err? {
        return Err(Panicked(ContextPanic(staging.error)));
      }
      var copied := CopyOutcome(COPY_SRC, staging.value, usage, contents, |staging.value|, false);
      if copied.Err? {
        return Err(copied.error);
      }
      contents := copied.value;
      return Ok(());
    }

    /** `write`, with the copy sized by the source (`WriteCopy`). */
    method Write(src: Buffer) returns (r: Result<(), BufferError>)
      requires Valid() && src.Valid()
      modifies this
      ensures Valid() && size == old(size) && usage == old(usage) && MapState() == old(MapState())
      ensures var w := WriteCopy(old(src.usage), old(src.size), old(src.contents), old(usage), size, old(contents), src == this);
        (w.Ok? ==> r == Ok(()) && contents == w.value) && (w.Err? ==> r == Err(w.error) && contents == old(contents))
    {
      if !Contains(usage, COPY_DST) {
        return Err(Panicked(NotWritable));
      }
      if !Contains(src.usage, COPY_SRC) {
        return Err(Panicked(SourceNotReadable));
      }
      if size < src.size {
        return Err(Panicked(DestinationTooSmall));
      }
      var copied := CopyOutcome(src.usage, src.contents, usage, contents, StagingBuffers.AlignedSize(src.size), src == this);
      if copied.Err? {
        return Err(copied.error);
      }
      contents := copied.value;
      return Ok(());
    }

    /**
     * `map`, recording the mode (`Mapped`): the buffer is mapped, and the
     * mapped bytes are `size` zeros for Write or what `read` returns for
     * Read.
     */
    method Map(mode: BufferMapMode) returns (r: Result<seq<Byte>, BufferError>)
      requires Valid()
      modifies this
      ensures Valid() && size == old(size) && usage == old(usage) && contents == old(contents)
      ensures (MapState(), r) == Mapped(old(MapState()), mode, size, ReadOutcome(usage, size, true, contents, !graphics.isInvalid))
    {
      mapped := true;
      mappedType := mode;
      match mode
      case MapWrite =>
        mappedBuffer := Zeros(size);
        r := Ok(mappedBuffer);
      case MapRead =>
        r := Read();
        if r.Ok? {
          mappedBuffer := r.value;
        }
    }

    /** `unmap`, dispatching on `UnmapStep`. A write-back leaves the buffer mapped, as `unmap` does. */
    method Unmap() returns (r: Result<(), BufferError>)
      requires Valid()
      modifies this
      ensures Valid() && size == old(size) && usage == old(usage) && mapped == old(mapped) && mappedType == old(mappedType)
      ensures UnmapStep(old(MapState())) == UnmapPanic ==>
        r == Err(Panicked(NotMapped)) && contents == old(contents) && mappedBuffer == old(mappedBuffer)
      ensures UnmapStep(old(MapState())) == DropRead ==> r == Ok(()) && mappedBuffer == [] && contents == old(contents)
      ensures UnmapStep(old(MapState())).WriteBack? ==> mappedBuffer == old(mappedBuffer)
      ensures UnmapStep(old(MapState())).WriteBack? ==>
        var w := RawWrite(usage, size, old(contents), !graphics.isInvalid, old(mappedBuffer));
        (w.Ok? ==> r == Ok(()) && contents == w.value) && (w.Err? ==> r == Err(w.error) && contents == old(contents))
    {
      if mappedBuffer == [] || !mapped {
        return Err(Panicked(NotMapped));
      }
      match mappedType
      case MapWrite =>
        r := WriteRaw(mappedBuffer);
      case MapRead =>
        mappedBuffer := [];
        r := Ok(());
    }
  }
}
