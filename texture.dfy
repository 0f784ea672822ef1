/**
 * Textures of the gpu API (src/gpu/texture/mod.rs): the builder and its
 * guards, texture creation, the row-padded upload of `write`, the
 * unpadding download of `read`, and the map/unmap state machine.
 *
 * The GPU side is modelled by what wgpu documents for a copy between a
 * buffer and a texture: rows of `bytes_per_row` stride, of which the first
 * width·bytes-per-pixel bytes are texels, and a copy wgpu's validation
 * refuses when the stride is not a multiple of 256, is shorter than a row,
 * or the buffer is too short. A texture's contents are its texel bytes,
 * row after row with no padding. Panics become error values the Rust enum
 * does not have: `SliceOutOfRange` for a slice past the end of the data,
 * `DeviceRejected` for a wgpu validation failure.
 */
module Textures {
  import opened Wrappers
  import opened ShaderTypes
  import opened Layout
  import opened Geometry
  import opened TextureTypes

  /** `wgpu::COPY_BYTES_PER_ROW_ALIGNMENT`. */
  const COPY_BYTES_PER_ROW_ALIGNMENT: nat := 256

  datatype TextureError =
    | InvalidGPUContext
    | InvalidTextureData
    | InvalidTextureSize
    | InvalidTextureFormat
    | FailedToWrite
    | FailedToRead
    | AlreadyMapped
    | NotMapped
    | SliceOutOfRange
    | DeviceRejected

  datatype TextureMappedType = MappedRead | MappedWrite

  /**
   * The bytes `k` rows of `stride` bytes span: stride·k, written as a sum
   * so that the row arithmetic stays linear for the solver.
   */
  function Span(stride: nat, k: nat): (r: nat)
  {
    if k == 0 then 0 else Span(stride, k - 1) + stride
  }

  lemma {:induction false} SpanIsProduct(stride: nat, k: nat)
    ensures Span(stride, k) == stride * k
  {
    if k > 0 {
      SpanIsProduct(stride, k - 1);
    }
  }

  lemma {:induction false} SpanMono(stride: nat, j: nat, k: nat)
    requires j <= k
    ensures Span(stride, j) <= Span(stride, k)
    decreases k
  {
    if j < k {
      SpanMono(stride, j, k - 1);
    }
  }

  lemma {:induction false} SpanSum(a: nat, b: nat, k: nat)
    ensures Span(a + b, k) == Span(a, k) + Span(b, k)
  {
    if k > 0 {
      SpanSum(a, b, k - 1);
    }
  }

  lemma Wrap32Id(x: int)
    requires 0 <= x <= U32_MAX
    ensures Wrap32(x) == x
  {
  }

  /** Whether `h` rows of `u` bytes, `p` bytes apart, lie within `n` bytes. */
  predicate RowsFit(n: nat, u: nat, p: nat, h: nat)
  {
    h == 0 || Span(p, h - 1) + u <= n
  }

  /**
   * The buffer `write` uploads: row r of `u` bytes is `data[u·r .. u·r+u]`,
   * followed by `z` zero bytes, for each of the `h` rows.
   */
  function PaddedRows(data: seq<Byte>, u: nat, z: nat, h: nat): (r: seq<Byte>)
    requires Span(u, h) <= |data|
    ensures |r| == Span(u + z, h)
    decreases h
  {
    if h == 0 then []
    else PaddedRows(data, u, z, h - 1) + (data[Span(u, h - 1) .. Span(u, h)] + Zeros(z))
  }

  /** The first `u` bytes of each of `h` rows laid out `p` bytes apart in `raw`. */
  function UnpaddedRows(raw: seq<Byte>, u: nat, p: nat, h: nat): (r: seq<Byte>)
    requires RowsFit(|raw|, u, p, h)
    ensures |r| == Span(u, h)
    decreases h
  {
    if h == 0 then []
    else
      UnpaddedRows(raw, u, p, h - 1) + raw[Span(p, h - 1) .. Span(p, h - 1) + u]
  }

  /** Unpadding reads only the rows it keeps: bytes past them do not matter. */
  lemma {:induction false} UnpaddedRowsPrefix(raw: seq<Byte>, extra: seq<Byte>, u: nat, p: nat, h: nat)
    requires RowsFit(|raw|, u, p, h)
    ensures UnpaddedRows(raw + extra, u, p, h) == UnpaddedRows(raw, u, p, h)
    decreases h
  {
    if h > 0 {
      UnpaddedRowsPrefix(raw, extra, u, p, h - 1);
      assert (raw + extra)[Span(p, h - 1) .. Span(p, h - 1) + u] == raw[Span(p, h - 1) .. Span(p, h - 1) + u];
    }
  }

  /** Appending one more row, `p` bytes long, adds its first `u` bytes to the unpadded rows. */
  lemma UnpaddedRowsSnoc(prev: seq<Byte>, next: seq<Byte>, u: nat, p: nat, k: nat)
    requires |prev| == Span(p, k) && u <= |next| == p
    ensures RowsFit(|prev + next|, u, p, k + 1) && RowsFit(|prev|, u, p, k)
    ensures UnpaddedRows(prev + next, u, p, k + 1) == UnpaddedRows(prev, u, p, k) + next[..u]
  {
    UnpaddedRowsPrefix(prev, next, u, p, k);
    assert (prev + next)[Span(p, k) .. Span(p, k) + u] == next[..u];
  }

  /**
   * Stripping the padding `write` adds gives back the rows it took: with
   * the stride `u + z` the padding adds, unpadding is the inverse of padding.
   */
  lemma {:induction false} UnpadPad(data: seq<Byte>, u: nat, z: nat, h: nat)
    requires Span(u, h) <= |data|
    ensures RowsFit(Span(u + z, h), u, u + z, h)
    ensures UnpaddedRows(PaddedRows(data, u, z, h), u, u + z, h) == data[..Span(u, h)]
    decreases h
  {
    if h > 0 {
      var prev := PaddedRows(data, u, z, h - 1);
      var row := data[Span(u, h - 1) .. Span(u, h)];
      UnpadPad(data, u, z, h - 1);
      UnpaddedRowsSnoc(prev, row + Zeros(z), u, u + z, h - 1);
      assert (row + Zeros(z))[..u] == row;
      assert data[..Span(u, h)] == data[..Span(u, h - 1)] + row;
    }
  }

  /** Row r of the padded buffer is data row r, and its padding is zero. */
  lemma {:induction false} PaddedRowsRow(data: seq<Byte>, u: nat, z: nat, h: nat, r: nat)
    requires Span(u, h) <= |data| && r < h
    ensures Span(u + z, r + 1) <= Span(u + z, h) && Span(u, r + 1) <= |data|
    ensures PaddedRows(data, u, z, h)[Span(u + z, r) .. Span(u + z, r) + u] == data[Span(u, r) .. Span(u, r + 1)]
    ensures forall k :: Span(u + z, r) + u <= k < Span(u + z, r + 1) ==> PaddedRows(data, u, z, h)[k] == 0
    decreases h
  {
    SpanMono(u + z, r + 1, h);
    SpanMono(u, r + 1, h);
    var prev := PaddedRows(data, u, z, h - 1);
    var row := data[Span(u, h - 1) .. Span(u, h)];
    var all := PaddedRows(data, u, z, h);
    assert all == prev + (row + Zeros(z));
    if r < h - 1 {
      PaddedRowsRow(data, u, z, h - 1, r);
      SpanMono(u + z, r + 1, h - 1);
      assert all[..|prev|] == prev;
    } else {
      assert |prev| == Span(u + z, r);
    }
  }

  /** `((u + 255) / 256) * 256` on u32, wrapping as a release build does. */
  function PaddedRowBytes(u: U32): (r: U32)
    ensures r % COPY_BYTES_PER_ROW_ALIGNMENT == 0
    ensures u + COPY_BYTES_PER_ROW_ALIGNMENT - 1 <= U32_MAX ==>
      u <= r < u + COPY_BYTES_PER_ROW_ALIGNMENT
  {
    Wrap32(Wrap32(u + COPY_BYTES_PER_ROW_ALIGNMENT - 1) / COPY_BYTES_PER_ROW_ALIGNMENT * COPY_BYTES_PER_ROW_ALIGNMENT)
  }

  /** A positive i32 dimension. */
  predicate Positive(size: Rect)
  {
    size.w > 0 && size.h > 0
  }

  /** The texel bytes of a row, bpp·w: what the GPU holds, without padding. */
  function RowBytes(size: Rect, format: TextureFormat): nat
    requires Positive(size)
  {
    Span(FormatSize(format), size.w)
  }

  /** The texel bytes of a whole texture: h rows of `RowBytes`. */
  function TexelBytes(size: Rect, format: TextureFormat): nat
    requires Positive(size)
  {
    Span(RowBytes(size, format), size.h)
  }

  /**
   * `copy_buffer_to_texture`: wgpu refuses a stride that is not a multiple
   * of 256 or is shorter than a row, and a buffer too short for the rows;
   * otherwise the texture receives the first `rowBytes` of each row.
   */
  function CopyIn(buffer: seq<Byte>, rowBytes: nat, stride: nat, rows: nat): (r: Result<seq<Byte>, TextureError>)
    ensures r.Ok? ==> |r.value| == Span(rowBytes, rows)
  {
    if stride % COPY_BYTES_PER_ROW_ALIGNMENT != 0 || stride < rowBytes || !RowsFit(|buffer|, rowBytes, stride, rows) then
      Err(DeviceRejected)
    else
      Ok(UnpaddedRows(buffer, rowBytes, stride, rows))
  }

  /**
   * `copy_texture_to_buffer` into a zeroed buffer of `len` bytes: row r of
   * the texels lands at `stride·r` and everything else stays zero; the same
   * validation as `CopyIn`.
   */
  function CopyOut(texels: seq<Byte>, rowBytes: nat, stride: nat, rows: nat, len: nat): (r: Result<seq<Byte>, TextureError>)
    requires Span(rowBytes, rows) <= |texels|
    ensures r.Ok? ==> |r.value| == len
  {
    if stride % COPY_BYTES_PER_ROW_ALIGNMENT != 0 || stride < rowBytes || !RowsFit(len, rowBytes, stride, rows) then
      Err(DeviceRejected)
    else
      Ok((PaddedRows(texels, rowBytes, stride - rowBytes, rows) + Zeros(len))[..len])
  }

  /**
   * The texels `write(data)` leaves in a texture of `size` and `format`, or
   * its error: empty data is InvalidTextureData; rows are padded to a
   * multiple of 256 bytes with the u32 arithmetic of the source; data
   * shorter than the rows (u·h bytes) panics; an empty upload buffer fails
   * to build; then the copy.
   */
  function Uploaded(size: Rect, format: TextureFormat, data: seq<Byte>): (r: Result<seq<Byte>, TextureError>)
    requires Positive(size)
    ensures |data| == 0 ==> r == Err(InvalidTextureData)
    ensures r.Ok? ==> |r.value| == TexelBytes(size, format)
  {
    if |data| == 0 then Err(InvalidTextureData)
    else
      var u := Wrap32(RowBytes(size, format));
      UploadedRows(data, u, PaddedRowBytes(u), RowBytes(size, format), size.h)
  }

  /**
   * The rest of `write` for rows of `u` bytes as the source computes them
   * (u32), padded to `p`, and `rowBytes` as the texture holds them.
   */
  function UploadedRows(data: seq<Byte>, u: U32, p: U32, rowBytes: nat, h: nat): (r: Result<seq<Byte>, TextureError>)
    ensures r.Ok? ==> |r.value| == Span(rowBytes, h)
  {
    if Span(u, h) > |data| then Err(SliceOutOfRange)
    else
      var padded := PaddedRows(data, u, Wrap32(p - u), h);
      if |padded| == 0 then Err(FailedToWrite)
      else CopyIn(padded, rowBytes, p, h)
  }

  /** A row of `bpp` bytes per pixel fits the u32 arithmetic with its padding. */
  predicate RowFits(size: Rect, bpp: nat)
    requires Positive(size)
  {
    Span(bpp, size.w) + COPY_BYTES_PER_ROW_ALIGNMENT - 1 <= U32_MAX
  }

  /** Moreover the padded image, h padded rows, fits in u32. */
  predicate ImageFits(size: Rect, bpp: nat)
    requires Positive(size)
  {
    RowFits(size, bpp) && Span(PaddedRowBytes(Span(bpp, size.w)), size.h) <= U32_MAX
  }

  /** A texture's texel bytes are bpp·w·h, the product the source computes. */
  lemma TexelBytesIsProduct(size: Rect, format: TextureFormat)
    requires Positive(size)
    ensures TexelBytes(size, format) == FormatSize(format) * size.w * size.h
  {
    SpanIsProduct(FormatSize(format), size.w);
    SpanIsProduct(RowBytes(size, format), size.h);
  }

  /** The copy wgpu makes from rows padded to a multiple of 256 returns those rows. */
  lemma CopyInPadded(data: seq<Byte>, u: nat, p: nat, h: nat)
    requires Span(u, h) <= |data| && u <= p && p % COPY_BYTES_PER_ROW_ALIGNMENT == 0
    ensures CopyIn(PaddedRows(data, u, p - u, h), u, p, h) == Ok(data[..Span(u, h)])
  {
    UnpadPad(data, u, p - u, h);
  }

  /** Without wrap-around, `write` pads every row and the copy strips the padding again. */
  lemma UploadedRowsStores(data: seq<Byte>, u: U32, p: U32, h: nat)
    requires 0 < u <= p && p % COPY_BYTES_PER_ROW_ALIGNMENT == 0 && 0 < h
    requires Span(u, h) <= |data|
    ensures UploadedRows(data, u, p, u, h) == Ok(data[..Span(u, h)])
  {
    Wrap32Id(p - u);
    var padded := PaddedRows(data, u, p - u, h);
    SpanMono(p, 1, h);
    assert |padded| > 0;
    CopyInPadded(data, u, p, h);
    assert UploadedRows(data, u, p, u, h) == CopyIn(padded, u, p, h);
  }

  /**
   * `write` stores the data's rows: when a padded row fits in u32 and the
   * data holds every row, the texture holds exactly the first w·h·bpp
   * bytes of the data.
   */
  lemma UploadStoresRows(size: Rect, format: TextureFormat, data: seq<Byte>)
    requires Positive(size) && RowFits(size, FormatSize(format))
    requires TexelBytes(size, format) <= |data|
    ensures Uploaded(size, format, data) == Ok(data[..TexelBytes(size, format)])
  {
    var u := RowBytes(size, format);
    Wrap32Id(u);
    SpanMono(FormatSize(format), 1, size.w);
    var p := PaddedRowBytes(u);
    assert Uploaded(size, format, data) == UploadedRows(data, u, p, u, size.h);
    UploadedRowsStores(data, u, p, size.h);
  }

  /**
   * What `read` returns for a texture of `size` holding `texels`, when it
   * assumes `bpp` bytes per pixel: a zeroed read-back buffer of
   * `padded·h` bytes (u32 arithmetic), the copy out of the texture, then
   * the first w·bpp bytes of each padded row.
   */
  function Downloaded(size: Rect, format: TextureFormat, texels: seq<Byte>, bpp: nat): (r: Result<seq<Byte>, TextureError>)
    requires Positive(size) && |texels| == TexelBytes(size, format)
  {
    var u := Wrap32(Span(bpp, size.w));
    var p := PaddedRowBytes(u);
    var len := Wrap32(Span(p, size.h));
    if len == 0 then Err(FailedToRead)
    else
      var raw :- CopyOut(texels, RowBytes(size, format), p, size.h, len);
      if !RowsFit(|raw|, u, p, size.h) then Err(SliceOutOfRange)
      else Ok(UnpaddedRows(raw, u, p, size.h))
  }

  /** `read` hard-codes four bytes per pixel (RGBA8 and BGRA8 formats). */
  const READ_BYTES_PER_PIXEL: nat := 4

  /**
   * For a four-byte format whose padded image fits in u32, reading back
   * returns the texels: `read` inverts `write`.
   */
  lemma {:induction false} DownloadFourByte(size: Rect, format: TextureFormat, texels: seq<Byte>)
    requires Positive(size) && FormatSize(format) == READ_BYTES_PER_PIXEL
    requires ImageFits(size, READ_BYTES_PER_PIXEL)
    requires |texels| == TexelBytes(size, format)
    ensures Downloaded(size, format, texels, READ_BYTES_PER_PIXEL) == Ok(texels)
  {
    var u := RowBytes(size, format);
    var h: nat := size.h;
    Wrap32Id(u);
    var p := PaddedRowBytes(u);
    var len := Span(p, h);
    Wrap32Id(len);
    SpanMono(p, 1, h);
    var padded := PaddedRows(texels, u, p - u, h);
    assert |padded| == len;
    assert (padded + Zeros(len))[..len] == padded;
    UnpadPad(texels, u, p - u, h);
    assert CopyOut(texels, u, p, h, len) == Ok(padded);
    assert texels[..Span(u, h)] == texels;
  }

  /** Writing then reading an RGBA8-sized texture gives the data's rows back. */
  lemma WriteThenRead(size: Rect, format: TextureFormat, data: seq<Byte>)
    requires Positive(size) && FormatSize(format) == READ_BYTES_PER_PIXEL
    requires ImageFits(size, READ_BYTES_PER_PIXEL)
    requires TexelBytes(size, format) <= |data|
    ensures Uploaded(size, format, data).Ok?
    ensures Downloaded(size, format, Uploaded(size, format, data).value, READ_BYTES_PER_PIXEL)
      == Ok(data[..TexelBytes(size, format)])
  {
    UploadStoresRows(size, format, data);
    DownloadFourByte(size, format, data[..TexelBytes(size, format)]);
  }

  /**
   * For any other format the round trip breaks: a 1×1 R8Unorm texture
   * holding one byte reads back as four, the texel and three bytes of
   * row padding.
   */
  lemma ReadAssumesFourBytes()
    ensures Downloaded(Rect(0, 0, 1, 1), R8Unorm, [7], READ_BYTES_PER_PIXEL) == Ok([7, 0, 0, 0])
  {
    assert Span(1, 1) == 1 && Span(4, 1) == 4 && Span(256, 1) == 256;
    assert Wrap32(4) == 4 && Wrap32(256) == 256;
    assert PaddedRowBytes(4) == 256;
    var raw := (PaddedRows([7], 1, 255, 1) + Zeros(256))[..256];
    assert PaddedRows([7], 1, 255, 1) == [7] + Zeros(255);
    assert CopyOut([7], 1, 256, 1, 256) == Ok(raw);
    assert raw[0..4] == [7, 0, 0, 0];
    assert UnpaddedRows(raw, 4, 256, 1) == raw[0..4];
  }

  /** The bytes `map(Write)` hands out: `(w * h * 4) as usize`, i32 arithmetic. */
  function MapWriteLength(size: Rect): (r: nat)
    ensures 0 <= size.w * size.h * 4 < 0x8000_0000 ==> r == size.w * size.h * 4
  {
    ToUsize(WrapI32(size.w * size.h * 4))
  }

  /** A decoded image: the `to_rgba8` pixels of a file or of in-memory data. */
  datatype Image = Image(width: U32, height: U32, rgba: seq<Byte>)

  /** The data a builder creates its texture from. The depth format is always filled in by the builder. */
  datatype BuilderData =
    | NoData
    | File(path: Text)
    | Data(bytes: seq<Byte>)
    | Raw(size: Rect, bytes: seq<Byte>, format: TextureFormat)
    | DepthStencil(size: Rect, format: TextureFormat)
    | RenderTarget(size: Rect, targetFormat: Option<TextureFormat>)

  datatype TextureBuilder = TextureBuilder(
    sampleCount: SampleCount,
    mipLevelCount: U32,
    usage: TextureUsage,
    data: BuilderData)

  /** The panics of the builder methods. */
  datatype BuilderPanic =
    | ContextInvalid
    | DepthStencilRawData
    | RenderAttachmentUsage
    | EmptyRenderTarget
    | EmptyDepthStencil

  /** `TextureBuilder::new`: one sample, one mip level, no usage, no data; panics on an invalid context. */
  function NewBuilder(contextValid: bool): (r: Result<TextureBuilder, BuilderPanic>)
    ensures r.Err? <==> !contextValid
    ensures r.Ok? ==> (r.value.sampleCount == SampleCount1 && r.value.mipLevelCount == 1
                       && r.value.usage == USAGE_NONE && r.value.data == NoData)
  {
    if !contextValid then Err(ContextInvalid)
    else Ok(TextureBuilder(SampleCount1, 1, USAGE_NONE, NoData))
  }

  /** `with_raw`: depth and stencil formats panic; otherwise only the data changes. */
  function WithRaw(b: TextureBuilder, data: seq<Byte>, size: Rect, format: TextureFormat): (r: Result<TextureBuilder, BuilderPanic>)
    ensures r.Err? <==> IsDepthStencil(format)
    ensures r.Ok? ==> r.value == b.(data := Raw(size, data, format))
  {
    if IsDepthStencil(format) then Err(DepthStencilRawData)
    else Ok(b.(data := Raw(size, data, format)))
  }

  /** `with_render_target`: a zero width or height panics. */
  function WithRenderTarget(b: TextureBuilder, size: Rect, format: Option<TextureFormat>): (r: Result<TextureBuilder, BuilderPanic>)
    ensures r.Err? <==> size.w == 0 || size.h == 0
    ensures r.Ok? ==> r.value == b.(data := RenderTarget(size, format))
  {
    if size.w == 0 || size.h == 0 then Err(EmptyRenderTarget)
    else Ok(b.(data := RenderTarget(size, format)))
  }

  /** `with_depth_stencil`: a zero width or height panics; the format defaults to Depth32Float. */
  function WithDepthStencil(b: TextureBuilder, size: Rect, format: Option<TextureFormat>): (r: Result<TextureBuilder, BuilderPanic>)
    ensures r.Err? <==> size.w == 0 || size.h == 0
    ensures r.Ok? ==> r.value.data.DepthStencil? && r.value.data.size == size
    ensures r.Ok? && format.None? ==> r.value.data.format == Depth32Float
    ensures r.Ok? && format.Some? ==> r.value.data.format == format.value
    ensures r.Ok? ==> r.value.(data := b.data) == b
  {
    if size.w == 0 || size.h == 0 then Err(EmptyDepthStencil)
    else Ok(b.(data := DepthStencil(size, if format.Some? then format.value else Depth32Float)))
  }

  /** `with_usage`: a usage containing RenderAttachment panics. */
  function WithUsage(b: TextureBuilder, usage: TextureUsage): (r: Result<TextureBuilder, BuilderPanic>)
    ensures r.Err? <==> usage.renderAttachment
    ensures r.Ok? ==> r.value == b.(usage := usage)
  {
    if usage.renderAttachment then Err(RenderAttachmentUsage)
    else Ok(b.(usage := usage))
  }

  /** A builder's usage never includes RenderAttachment: no builder method can set it. */
  lemma BuilderNeverAttachment(b: TextureBuilder, u: TextureUsage)
    requires !b.usage.renderAttachment
    ensures WithUsage(b, u).Ok? ==> !WithUsage(b, u).value.usage.renderAttachment
  {
  }

  /** `usage | RenderAttachment`. */
  function WithAttachment(u: TextureUsage): (r: TextureUsage)
    ensures r.renderAttachment && r.sampler == u.sampler && r.storage == u.storage
  {
    u.(renderAttachment := true)
  }

  class Texture {
    var size: Rect
    var format: TextureFormat
    var usages: TextureUsage
    var sampleCount: SampleCount
    var mipLevelCount: U32
    var blend: TextureBlend
    /** The GPU contents: w·bytes-per-pixel texel bytes per row, h rows. */
    var texels: seq<Byte>
    var mapped: bool
    var mappedBuffer: seq<Byte>
    var mappedType: TextureMappedType

    ghost predicate Valid()
      reads this
    {
      Positive(size) && |texels| == TexelBytes(size, format)
    }

    /** The texture `create_texture` makes: unmapped, blending as NONE, holding zeros. */
    constructor Create(size: Rect, sampleCount: SampleCount, mipLevelCount: U32, format: TextureFormat, usages: TextureUsage)
      requires Positive(size)
      ensures Valid() && !mapped && mappedBuffer == [] && mappedType == MappedWrite
      ensures this.size == size && this.format == format && this.usages == usages
      ensures this.sampleCount == sampleCount && this.mipLevelCount == mipLevelCount
      ensures blend == BLEND_NONE && texels == Zeros(TexelBytes(size, format))
    {
      this.size := size;
      this.format := format;
      this.usages := usages;
      this.sampleCount := sampleCount;
      this.mipLevelCount := mipLevelCount;
      blend := BLEND_NONE;
      texels := Zeros(TexelBytes(size, format));
      mapped := false;
      mappedBuffer := [];
      mappedType := MappedWrite;
    }

    /**
     * `write`: the texels become `Uploaded(size, format, data)`, or the
     * texture is left as it was and the error returned.
     */
    method Write(data: seq<Byte>) returns (r: Result<(), TextureError>)
      requires Valid()
      modifies this
      ensures Valid()
      ensures Uploaded(size, format, data).Ok? ==> r == Ok(()) && texels == Uploaded(size, format, data).value
      ensures Uploaded(size, format, data).Err? ==> r == Err(Uploaded(size, format, data).error) && texels == old(texels)
      ensures size == old(size) && format == old(format) && usages == old(usages) && blend == old(blend)
      ensures mapped == old(mapped) && mappedBuffer == old(mappedBuffer) && mappedType == old(mappedType)
      ensures sampleCount == old(sampleCount) && mipLevelCount == old(mipLevelCount)
    {
      if |data| == 0 {
        return Err(InvalidTextureData);
      }
      var u := Wrap32(RowBytes(size, format));
      var copied :- UploadRows(data, u, PaddedRowBytes(u), RowBytes(size, format), size.h);
      texels := copied;
      return Ok(());
    }

    /** `read`: the texels as `Downloaded` returns them, four bytes per pixel. */
    method Read() returns (r: Result<seq<Byte>, TextureError>)
      requires Valid()
      ensures r == Downloaded(size, format, texels, READ_BYTES_PER_PIXEL)
    {
      var u := Wrap32(Span(READ_BYTES_PER_PIXEL, size.w));
      var p := PaddedRowBytes(u);
      var len := Wrap32(Span(p, size.h));
      if len == 0 {
        return Err(FailedToRead);
      }
      var raw :- CopyOut(texels, RowBytes(size, format), p, size.h, len);
      r := UnpadRows(raw, u, p, size.h);
    }

    /**
     * `map`: AlreadyMapped when mapped. Otherwise the texture is mapped;
     * Read fills the buffer with `read`'s result (a failed read leaves the
     * texture mapped and the error returned), Write with w·h·4 zeros.
     */
    method Map(mode: TextureMappedType) returns (r: Result<seq<Byte>, TextureError>)
      requires Valid()
      modifies this
      ensures Valid()
      ensures old(mapped) ==> r == Err(AlreadyMapped) && mappedBuffer == old(mappedBuffer) && mappedType == old(mappedType)
      ensures !old(mapped) ==> mapped && mappedType == mode
      ensures !old(mapped) && mode == MappedWrite ==>
        mappedBuffer == Zeros(MapWriteLength(size)) && r == Ok(mappedBuffer)
      ensures !old(mapped) && mode == MappedRead ==>
        var d := Downloaded(size, format, texels, READ_BYTES_PER_PIXEL);
        r == d && mappedBuffer == (if d.Ok? then d.value else old(mappedBuffer))
      ensures old(mapped) ==> mapped
      ensures size == old(size) && format == old(format) && usages == old(usages) && blend == old(blend)
      ensures texels == old(texels) && sampleCount == old(sampleCount) && mipLevelCount == old(mipLevelCount)
    {
      if mapped {
        return Err(AlreadyMapped);
      }
      mapped := true;
      mappedType := mode;
      match mode
      case MappedRead =>
        var data := Read();
        if data.Ok? {
          mappedBuffer := data.value;
        }
        r := data;
      case MappedWrite =>
        mappedBuffer := Zeros(MapWriteLength(size));
        r := Ok(mappedBuffer);
    }

    /**
     * `unmap`: NotMapped when unmapped. A read mapping is dropped; a write
     * mapping is written to the texture and emptied, unless the write
     * fails, which keeps the buffer and returns the error. Either way the
     * texture is no longer mapped.
     */
    method Unmap() returns (r: Result<(), TextureError>)
      requires Valid()
      modifies this
      ensures Valid()
      ensures !old(mapped) ==> r == Err(NotMapped) && !mapped && texels == old(texels) && mappedBuffer == old(mappedBuffer)
      ensures old(mapped) ==> !mapped
      ensures old(mapped) && mappedType == MappedRead ==>
        r == Ok(()) && mappedBuffer == [] && texels == old(texels)
      ensures old(mapped) && mappedType == MappedWrite && Uploaded(size, format, old(mappedBuffer)).Ok? ==>
        r == Ok(()) && texels == Uploaded(size, format, old(mappedBuffer)).value && mappedBuffer == []
      ensures old(mapped) && mappedType == MappedWrite && Uploaded(size, format, old(mappedBuffer)).Err? ==>
        r == Err(Uploaded(size, format, old(mappedBuffer)).error) && texels == old(texels) && mappedBuffer == old(mappedBuffer)
      ensures mappedType == old(mappedType)
      ensures size == old(size) && format == old(format) && usages == old(usages) && blend == old(blend)
      ensures sampleCount == old(sampleCount) && mipLevelCount == old(mipLevelCount)
    {
      if !mapped {
        return Err(NotMapped);
      }
      mapped := false;
      match mappedType
      case MappedRead =>
        mappedBuffer := [];
        r := Ok(());
      case MappedWrite =>
        var buffer := mappedBuffer;
        ghost var w := Uploaded(size, format, buffer);
        r := Write(buffer);
        if r.Ok? {
          assert w.Ok? && texels == w.value;
          mappedBuffer := [];
        } else {
          assert w.Err? && r == Err(w.error) && texels == old(texels);
        }
    }
  }

  /** The body of `write` past its empty check: pad the rows, then copy them in. */
  method UploadRows(data: seq<Byte>, u: U32, p: U32, rowBytes: nat, h: nat) returns (r: Result<seq<Byte>, TextureError>)
    ensures r == UploadedRows(data, u, p, rowBytes, h)
  {
    var padded :- PadRows(data, u, Wrap32(p as int - u), h);
    if |padded| == 0 {
      return Err(FailedToWrite);
    }
    r := CopyIn(padded, rowBytes, p, h);
  }

  /** The row loop of `write`: each data row followed by `z` zeros; a short slice panics. */
  method PadRows(data: seq<Byte>, u: nat, z: nat, h: nat) returns (r: Result<seq<Byte>, TextureError>)
    ensures Span(u, h) <= |data| ==> r == Ok(PaddedRows(data, u, z, h))
    ensures Span(u, h) > |data| ==> r == Err(SliceOutOfRange)
  {
    var padded: seq<Byte> := [];
    var row := 0;
    while row < h
      invariant row <= h && Span(u, row) <= |data|
      invariant padded == PaddedRows(data, u, z, row)
    {
      var start := row * u;
      SpanIsProduct(u, row);
      if start + u > |data| {
        SpanMono(u, row + 1, h);
        return Err(SliceOutOfRange);
      }
      padded := padded + data[start .. start + u] + Zeros(z);
      row := row + 1;
    }
    return Ok(padded);
  }

  /** The row loop of `read`: the first `u` bytes of each row `p` apart; a short slice panics. */
  method UnpadRows(raw: seq<Byte>, u: nat, p: nat, h: nat) returns (r: Result<seq<Byte>, TextureError>)
    ensures RowsFit(|raw|, u, p, h) ==> r == Ok(UnpaddedRows(raw, u, p, h))
    ensures !RowsFit(|raw|, u, p, h) ==> r == Err(SliceOutOfRange)
  {
    var result: seq<Byte> := [];
    var row := 0;
    while row < h
      invariant row <= h && RowsFit(|raw|, u, p, row)
      invariant result == UnpaddedRows(raw, u, p, row)
    {
      var start := row * p;
      SpanIsProduct(p, row);
      if start + u > |raw| {
        SpanMono(p, row, h - 1);
        return Err(SliceOutOfRange);
      }
      result := result + raw[start .. start + u];
      row := row + 1;
    }
    return Ok(result);
  }

  /** The size, format, usage and texels of the texture `build` makes, or its error. */
  datatype Built = Built(size: Rect, format: TextureFormat, usages: TextureUsage, texels: seq<Byte>)

  /** `create_texture` followed by an optional write, as every branch of `from_builder` does. */
  function CreateAndWrite(size: Rect, format: TextureFormat, usages: TextureUsage, data: Option<seq<Byte>>): (r: Result<Built, TextureError>)
  {
    if !Positive(size) then Err(InvalidTextureData)
    else
      match data
      case None => Ok(Built(size, format, usages, Zeros(TexelBytes(size, format))))
      case Some(d) =>
        var t :- Uploaded(size, format, d);
        Ok(Built(size, format, usages, t))
  }

  /**
   * `from_builder`: an invalid context is InvalidGPUContext; file and
   * in-memory data are decoded (by `decoded`, the image decoder's result)
   * into an Rgba8Unorm texture; raw data keeps its format; depth-stencil
   * and render-target textures add RenderAttachment, and a render target
   * without a format takes the swapchain's, or Rgba8UnormSrgb without a
   * swapchain. A failed creation is InvalidTextureData; a failed write
   * returns the write's error; no data is InvalidTextureData.
   */
  function BuildOutcome(b: TextureBuilder, contextValid: bool, decoded: Option<Image>, swapchainFormat: Option<TextureFormat>): (r: Result<Built, TextureError>)
    ensures !contextValid ==> r == Err(InvalidGPUContext)
    ensures r.Ok? && (b.data.DepthStencil? || b.data.RenderTarget?) ==> r.value.usages.renderAttachment
    ensures r.Ok? ==> Positive(r.value.size)
  {
    if !contextValid then Err(InvalidGPUContext)
    else
      match b.data
      case NoData => Err(InvalidTextureData)
      case File(_) => BuildFromImage(b, decoded)
      case Data(_) => BuildFromImage(b, decoded)
      case Raw(size, bytes, format) => CreateAndWrite(size, format, b.usage, Some(bytes))
      case DepthStencil(size, format) => CreateAndWrite(size, format, WithAttachment(b.usage), None)
      case RenderTarget(size, format) =>
        var f := if format.Some? then format.value
                 else if swapchainFormat.Some? then swapchainFormat.value
                 else Rgba8UnormSrgb;
        CreateAndWrite(size, f, WithAttachment(b.usage), None)
  }

  function BuildFromImage(b: TextureBuilder, decoded: Option<Image>): Result<Built, TextureError>
  {
    match decoded
    case None => Err(InvalidTextureData)
    case Some(img) =>
      CreateAndWrite(Rect(0, 0, ToI32(img.width), ToI32(img.height)), Rgba8Unorm, b.usage, Some(img.rgba))
  }

  /** A raw texture built from data holding all its rows holds those rows. */
  lemma BuildRawStoresData(b: TextureBuilder, swapchainFormat: Option<TextureFormat>)
    requires b.data.Raw? && Positive(b.data.size) && RowFits(b.data.size, FormatSize(b.data.format))
    requires TexelBytes(b.data.size, b.data.format) <= |b.data.bytes|
    ensures BuildOutcome(b, true, None, swapchainFormat)
      == Ok(Built(b.data.size, b.data.format, b.usage, b.data.bytes[..TexelBytes(b.data.size, b.data.format)]))
  {
    UploadStoresRows(b.data.size, b.data.format, b.data.bytes);
  }

  /** A render target without a format takes the swapchain's format, or Rgba8UnormSrgb. */
  lemma RenderTargetDefaultFormat(b: TextureBuilder, swapchainFormat: Option<TextureFormat>)
    requires b.data.RenderTarget? && b.data.targetFormat.None? && Positive(b.data.size)
    ensures BuildOutcome(b, true, None, swapchainFormat).Ok?
    ensures BuildOutcome(b, true, None, swapchainFormat).value.format
      == if swapchainFormat.Some? then swapchainFormat.value else Rgba8UnormSrgb
  {
  }

  /**
   * `Texture::from_builder`: the texture `BuildOutcome` describes, created
   * and written.
   */
  method FromBuilder(b: TextureBuilder, contextValid: bool, decoded: Option<Image>, swapchainFormat: Option<TextureFormat>)
    returns (r: Result<Texture, TextureError>)
    ensures BuildOutcome(b, contextValid, decoded, swapchainFormat).Err? ==>
      r.Err? && r.error == BuildOutcome(b, contextValid, decoded, swapchainFormat).error
    ensures BuildOutcome(b, contextValid, decoded, swapchainFormat).Ok? ==>
      r.Ok? && fresh(r.value) && r.value.Valid() && !r.value.mapped
      && Built(r.value.size, r.value.format, r.value.usages, r.value.texels)
         == BuildOutcome(b, contextValid, decoded, swapchainFormat).value
  {
    if !contextValid {
      return Err(InvalidGPUContext);
    }
    match b.data
    case NoData =>
      r := Err(InvalidTextureData);
    case File(_) =>
      r := CreateFromImage(b, decoded);
    case Data(_) =>
      r := CreateFromImage(b, decoded);
    case Raw(size, bytes, format) =>
      r := CreateTexture(size, b.sampleCount, b.mipLevelCount, format, b.usage, Some(bytes));
    case DepthStencil(size, format) =>
      r := CreateTexture(size, b.sampleCount, b.mipLevelCount, format, WithAttachment(b.usage), None);
    case RenderTarget(size, format) =>
      var f := if format.Some? then format.value
               else if swapchainFormat.Some? then swapchainFormat.value
               else Rgba8UnormSrgb;
      r := CreateTexture(size, b.sampleCount, b.mipLevelCount, f, WithAttachment(b.usage), None);
  }

  method CreateFromImage(b: TextureBuilder, decoded: Option<Image>) returns (r: Result<Texture, TextureError>)
    ensures BuildFromImage(b, decoded).Err? ==> r.Err? && r.error == BuildFromImage(b, decoded).error
    ensures BuildFromImage(b, decoded).Ok? ==>
      r.Ok? && fresh(r.value) && r.value.Valid() && !r.value.mapped
      && Built(r.value.size, r.value.format, r.value.usages, r.value.texels) == BuildFromImage(b, decoded).value
  {
    if decoded.None? {
      return Err(InvalidTextureData);
    }
    var img := decoded.value;
    r := CreateTexture(Rect(0, 0, ToI32(img.width), ToI32(img.height)), b.sampleCount, b.mipLevelCount,
                       Rgba8Unorm, b.usage, Some(img.rgba));
  }

  /**
   * `create_texture`: a zero width or height is InvalidTextureSize; a
   * negative one reaches wgpu as an extent of at least 2^31, which it
   * refuses; otherwise a new unmapped texture holding zeros.
   */
  method NewTexture(size: Rect, sampleCount: SampleCount, mipLevelCount: U32, format: TextureFormat, usages: TextureUsage)
    returns (r: Result<Texture, TextureError>)
    ensures size.w == 0 || size.h == 0 ==> r == Err(InvalidTextureSize)
    ensures size.w != 0 && size.h != 0 && !Positive(size) ==> r == Err(DeviceRejected)
    ensures Positive(size) ==>
      (r.Ok? && fresh(r.value) && r.value.Valid() && !r.value.mapped
       && r.value.size == size && r.value.format == format && r.value.usages == usages
       && r.value.texels == Zeros(TexelBytes(size, format)))
  {
    if size.w == 0 || size.h == 0 {
      return Err(InvalidTextureSize);
    }
    if size.w < 0 || size.h < 0 {
      return Err(DeviceRejected);
    }
    var t := new Texture.Create(size, sampleCount, mipLevelCount, format, usages);
    return Ok(t);
  }

  /**
   * One branch of `from_builder`: create the texture (any failure is
   * InvalidTextureData) and write the data, if any.
   */
  method CreateTexture(size: Rect, sampleCount: SampleCount, mipLevelCount: U32, format: TextureFormat,
                       usages: TextureUsage, data: Option<seq<Byte>>)
    returns (r: Result<Texture, TextureError>)
    ensures CreateAndWrite(size, format, usages, data).Err? ==>
      r.Err? && r.error == CreateAndWrite(size, format, usages, data).error
    ensures CreateAndWrite(size, format, usages, data).Ok? ==>
      r.Ok? && fresh(r.value) && r.value.Valid() && !r.value.mapped
      && Built(r.value.size, r.value.format, r.value.usages, r.value.texels) == CreateAndWrite(size, format, usages, data).value
  {
    var created := NewTexture(size, sampleCount, mipLevelCount, format, usages);
    if created.Err? {
      return Err(InvalidTextureData);
    }
    var t := created.value;
    if data.Some? {
      var w := t.Write(data.value);
      if w.Err? {
        return Err(w.error);
      }
    }
    return Ok(t);
  }
}
