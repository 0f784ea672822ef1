/**
 * The software renderer (src/software.rs): a pixel buffer attached to a
 * window that has no GPU context. Frames of 32-bit pixels are copied into
 * the surface buffer the windowing layer hands out and then presented; the
 * surface size is set by the window's resize handler.
 *
 * The platform pieces (creating the drawing context and surface, fetching
 * the surface buffer, resizing the surface, presenting) are outcomes passed
 * in as parameters.
 */
module Software {
  import opened Wrappers
  import opened ShaderTypes
  import opened Geometry
  import Layout

  /** The surface size before the first resize: `Point2::new(0.0, 0.0)`. */
  const ZERO_SIZE: Point2 := Point2(0, 0)

  datatype PixelBufferError =
    | WindowPointerIsNull
    | ContextCreationFailed
    | SurfaceCreationFailed
    | InvalidSize(width: U32, height: U32)
    | InvalidSurfaceSize
    | BufferFetchFailed
    | BufferTooSmall
    | PresentFailed

  datatype PixelBufferBuilderError =
    | WindowIsNull
    | CannotUseWithGPUWindow
    | PixelBufferError(cause: PixelBufferError)

  /** Why `resize` failed: a zero dimension, or the surface refused the new size. */
  datatype ResizeError = ZeroDimension | SurfaceResizeFailed

  /**
   * The pixel count a frame of `size` must have: `(size.x * size.y) as usize`,
   * an i32 product that wraps, sign-extended to a 64-bit `usize`. Only when
   * the true product is a non-negative i32 is it the area of the frame.
   */
  function FrameLen(size: Point2): (r: nat)
    ensures 0 <= size.x * size.y < 0x8000_0000 ==> r == size.x * size.y
    ensures r < 0x8000_0000 || 0x1_0000_0000_0000_0000 - 0x8000_0000 <= r
  {
    ToUsize(WrapI32(size.x * size.y))
  }

  /**
   * The checks `write_buffers` makes before it copies, in the order it makes
   * them: the frame holds `FrameLen(size)` pixels, the surface has been
   * sized, the surface buffer could be fetched, and it is long enough. The
   * size error reports both coordinates cast to u32.
   */
  function WriteCheck(count: nat, size: Point2, surface: Point2, fetched: bool, bufferLen: nat): (r: Option<PixelBufferError>)
    ensures r == Some(InvalidSize(Layout.ToU32(size.x), Layout.ToU32(size.y))) <==> count != FrameLen(size)
    ensures r == Some(InvalidSurfaceSize) <==> count == FrameLen(size) && surface == ZERO_SIZE
    ensures r == Some(BufferFetchFailed) <==>
      count == FrameLen(size) && surface != ZERO_SIZE && !fetched
    ensures r == Some(BufferTooSmall) <==>
      count == FrameLen(size) && surface != ZERO_SIZE && fetched && bufferLen < count
    ensures r.None? ==> count <= bufferLen
  {
    if count != FrameLen(size) then Some(InvalidSize(Layout.ToU32(size.x), Layout.ToU32(size.y)))
    else if surface == ZERO_SIZE then Some(InvalidSurfaceSize)
    else if !fetched then Some(BufferFetchFailed)
    else if bufferLen < count then Some(BufferTooSmall)
    else None
  }

  /** The result of `write_buffers`: the first failed check, else the outcome of presenting. */
  function WriteResult(count: nat, size: Point2, surface: Point2, fetched: bool, bufferLen: nat, presented: bool): (r: Result<(), PixelBufferError>)
    ensures r.Ok? <==> WriteCheck(count, size, surface, fetched, bufferLen).None? && presented
    ensures r == Err(PresentFailed) <==> WriteCheck(count, size, surface, fetched, bufferLen).None? && !presented
  {
    match WriteCheck(count, size, surface, fetched, bufferLen)
    case Some(e) => Err(e)
    case None => if presented then Ok(()) else Err(PresentFailed)
  }

  /** The surface buffer after a frame is copied to its front. */
  function Overwritten(buffer: seq<U32>, pixels: seq<U32>): (r: seq<U32>)
    requires |pixels| <= |buffer|
    ensures |r| == |buffer|
    ensures forall i :: 0 <= i < |pixels| ==> r[i] == pixels[i]
    ensures forall i :: |pixels| <= i < |buffer| ==> r[i] == buffer[i]
  {
    pixels + buffer[|pixels|..]
  }

  /**
   * `resize` keeps the old size on a zero dimension and otherwise records the
   * new one, whatever the surface does. The size is stored as
   * `Point2::new(width as f32, height as f32)`, so a dimension past `i32::MAX`
   * is stored as 0.
   */
  function Resized(surface: Point2, width: U32, height: U32, surfaceOk: bool): (r: (Point2, Result<(), ResizeError>))
    ensures width == 0 || height == 0 ==> r == (surface, Err(ZeroDimension))
    ensures width != 0 && height != 0 ==> r.0 == Point2(PointCoord(width), PointCoord(height))
    ensures width != 0 && height != 0 ==> (r.1.Ok? <==> surfaceOk)
    ensures (width < 0x8000_0000 || height < 0x8000_0000) && r.0 == ZERO_SIZE ==> surface == ZERO_SIZE
  {
    if width == 0 || height == 0 then (surface, Err(ZeroDimension))
    else (Point2(PointCoord(width), PointCoord(height)), if surfaceOk then Ok(()) else Err(SurfaceResizeFailed))
  }

  /** A positive product below 2^31 has both factors below 2^31. */
  lemma FactorsBelow(a: nat, b: nat)
    requires 0 < a && 0 < b && a * b < 0x8000_0000
    ensures a <= a * b && b <= a * b
  {
    assert a * b == a * (b - 1) + a;
    assert a * b == (a - 1) * b + b;
  }

  /**
   * Once a resize has accepted a size whose area is an i32, a frame of
   * exactly that size passes the size checks: it can only fail on fetching
   * the buffer, on a buffer shorter than the frame, or on presenting.
   */
  lemma ResizedSurfaceAcceptsFrame(surface: Point2, width: U32, height: U32, surfaceOk: bool,
                                   pixels: seq<U32>, fetched: bool, bufferLen: nat, presented: bool)
    requires width != 0 && height != 0
    requires width * height < 0x8000_0000
    requires |pixels| == width * height
    ensures width < 0x8000_0000 && height < 0x8000_0000
    ensures var r := WriteResult(|pixels|, Point2(width, height), Resized(surface, width, height, surfaceOk).0,
                                 fetched, bufferLen, presented);
      r.Err? ==> r.error in {BufferFetchFailed, BufferTooSmall, PresentFailed}
  {
    FactorsBelow(width, height);
    var size := Point2(width, height);
    assert Resized(surface, width, height, surfaceOk).0 == size;
    assert FrameLen(size) == |pixels|;
  }

  /**
   * A frame whose pixel count is not the area of its size is refused with
   * the size, whatever the surface, provided that area is an i32; past that
   * the product wraps (see `WrappedFrameSizes`).
   */
  lemma MisSizedFrameRefused(pixels: seq<U32>, size: Point2, surface: Point2, fetched: bool, bufferLen: nat, presented: bool)
    requires 0 <= size.x * size.y < 0x8000_0000
    requires |pixels| != size.x * size.y
    ensures WriteResult(|pixels|, size, surface, fetched, bufferLen, presented)
         == Err(InvalidSize(Layout.ToU32(size.x), Layout.ToU32(size.y)))
  {
    assert FrameLen(size) == size.x * size.y;
  }

  /**
   * The wrapping size check at work: a 65536×65536 frame must have 0 pixels
   * (2^32 wraps to 0) and its true 2^32 pixels are refused, and a −1×−1 frame
   * must have 1 pixel, while any other count reports the size as
   * 4294967295×4294967295.
   */
  lemma WrappedFrameSizes(surface: Point2, fetched: bool, bufferLen: nat)
    ensures WriteCheck(0, Point2(65536, 65536), surface, fetched, bufferLen) != Some(InvalidSize(65536, 65536))
    ensures WriteCheck(0x1_0000_0000, Point2(65536, 65536), surface, fetched, bufferLen) == Some(InvalidSize(65536, 65536))
    ensures WriteCheck(1, Point2(-1, -1), surface, fetched, bufferLen) != Some(InvalidSize(0xFFFF_FFFF, 0xFFFF_FFFF))
    ensures WriteCheck(2, Point2(-1, -1), surface, fetched, bufferLen) == Some(InvalidSize(0xFFFF_FFFF, 0xFFFF_FFFF))
  {
    assert FrameLen(Point2(65536, 65536)) == 0;
    assert FrameLen(Point2(-1, -1)) == 1;
  }

  /** The window fields the pixel buffer looks at and sets. */
  class Window {
    /** Whether the window already has a GPU context (`graphics.is_some()`). */
    var hasGraphics: bool
    /** Whether the window's native handle is present (`window_pointer.is_some()`). */
    var hasPointer: bool
    var pixelBuffer: Option<PixelBuffer>

    constructor(hasGraphics: bool, hasPointer: bool)
      ensures this.hasGraphics == hasGraphics && this.hasPointer == hasPointer && pixelBuffer.None?
    {
      this.hasGraphics := hasGraphics;
      this.hasPointer := hasPointer;
      pixelBuffer := None;
    }
  }

  /** `PixelBuffer` and its `PixelBufferInner`: the surface size, zero until the first resize. */
  class PixelBuffer {
    var surfaceSize: Point2

    /** `PixelBuffer::new` once the context and surface exist. */
    constructor()
      ensures surfaceSize == ZERO_SIZE
    {
      surfaceSize := ZERO_SIZE;
    }

    /** `size`. */
    method GetSize() returns (r: Point2)
      ensures r == surfaceSize
    {
      r := surfaceSize;
    }

    /**
     * `write_buffers`: after the checks, copies the frame to the front of the
     * surface buffer `target` and presents it. `fetched` and `presented` are
     * the outcomes of fetching and presenting the buffer.
     */
    method WriteBuffers(pixels: seq<U32>, size: Point2, target: array<U32>, fetched: bool, presented: bool)
      returns (r: Result<(), PixelBufferError>)
      modifies target
      ensures r == WriteResult(|pixels|, size, surfaceSize, fetched, target.Length, presented)
      ensures WriteCheck(|pixels|, size, surfaceSize, fetched, target.Length).None? ==>
        target[..] == Overwritten(old(target[..]), pixels)
      ensures WriteCheck(|pixels|, size, surfaceSize, fetched, target.Length).Some? ==>
        target[..] == old(target[..])
    {
      if |pixels| != FrameLen(size) {
        return Err(InvalidSize(Layout.ToU32(size.x), Layout.ToU32(size.y)));
      }
      if surfaceSize == ZERO_SIZE {
        return Err(InvalidSurfaceSize);
      }
      if !fetched {
        return Err(BufferFetchFailed);
      }
      if target.Length < |pixels| {
        return Err(BufferTooSmall);
      }
      for i := 0 to |pixels|
        invariant forall j :: 0 <= j < i ==> target[j] == pixels[j]
        invariant forall j :: i <= j < target.Length ==> target[j] == old(target[j])
      {
        target[i] := pixels[i];
      }
      assert target[..] == Overwritten(old(target[..]), pixels);
      if !presented {
        return Err(PresentFailed);
      }
      return Ok(());
    }

    /** `PixelBufferInner::resize`; `surfaceOk` is whether the surface accepted the new size. */
    method Resize(width: U32, height: U32, surfaceOk: bool) returns (r: Result<(), ResizeError>)
      modifies this
      ensures (surfaceSize, r) == Resized(old(surfaceSize), width, height, surfaceOk)
    {
      if width == 0 || height == 0 {
        return Err(ZeroDimension);
      }
      surfaceSize := Point2(PointCoord(width), PointCoord(height));
      if !surfaceOk {
        return Err(SurfaceResizeFailed);
      }
      return Ok(());
    }
  }

  /**
   * The error `build` reports, checked in order: no window, a window that
   * already renders through the GPU, then the failures of `PixelBuffer::new`
   * (no native handle, no context, no surface).
   */
  function BuildCheck(hasWindow: bool, hasGraphics: bool, hasPointer: bool, contextOk: bool, surfaceOk: bool): (r: Option<PixelBufferBuilderError>)
    ensures r == Some(WindowIsNull) <==> !hasWindow
    ensures r == Some(CannotUseWithGPUWindow) <==> hasWindow && hasGraphics
    ensures r.None? <==> hasWindow && !hasGraphics && hasPointer && contextOk && surfaceOk
    ensures r == Some(PixelBufferError(WindowPointerIsNull)) <==> hasWindow && !hasGraphics && !hasPointer
  {
    if !hasWindow then Some(WindowIsNull)
    else if hasGraphics then Some(CannotUseWithGPUWindow)
    else if !hasPointer then Some(PixelBufferError(WindowPointerIsNull))
    else if !contextOk then Some(PixelBufferError(ContextCreationFailed))
    else if !surfaceOk then Some(PixelBufferError(SurfaceCreationFailed))
    else None
  }

  /**
   * `PixelBufferBuilder::build`: on success the new, unsized pixel buffer is
   * attached to the window; on any error the window is left as it was.
   */
  method Build(window: Option<Window>, contextOk: bool, surfaceOk: bool) returns (r: Result<PixelBuffer, PixelBufferBuilderError>)
    modifies if window.Some? then {window.value} else {}
    ensures var check := BuildCheck(window.Some?, window.Some? && old(window.value.hasGraphics),
                                    window.Some? && old(window.value.hasPointer), contextOk, surfaceOk);
      (check.Some? ==> r == Err(check.value)) && (check.None? ==> r.Ok?)
    ensures r.Ok? ==> window.Some? && fresh(r.value) && r.value.surfaceSize == ZERO_SIZE
    ensures r.Ok? ==> window.value.pixelBuffer == Some(r.value)
    ensures window.Some? ==> window.value.hasGraphics == old(window.value.hasGraphics)
    ensures window.Some? ==> window.value.hasPointer == old(window.value.hasPointer)
    ensures r.Err? && window.Some? ==> window.value.pixelBuffer == old(window.value.pixelBuffer)
  {
    if window.None? {
      return Err(WindowIsNull);
    }
    var w := window.value;
    if w.hasGraphics {
      return Err(CannotUseWithGPUWindow);
    }
    if !w.hasPointer {
      return Err(PixelBufferError(WindowPointerIsNull));
    }
    if !contextOk {
      return Err(PixelBufferError(ContextCreationFailed));
    }
    if !surfaceOk {
      return Err(PixelBufferError(SurfaceCreationFailed));
    }
    var pb := new PixelBuffer();
    w.pixelBuffer := Some(pb);
    return Ok(pb);
  }
}
