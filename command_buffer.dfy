/**
 * The command buffer of src/gpu/command/mod.rs. A `CommandBuffer` owns a
 * wgpu command encoder until `end` submits it, two "a pass is open" flags
 * shared with the passes it begins, and the surface texture the frame is
 * drawn into. Every `begin_*` refuses to run while a pass is open (the
 * validation-build check), sets the render-pass flag and hands a builder
 * the encoder; `copy_texture` and `blit_texture` record straight into the
 * encoder; `end` submits what was recorded and presents the surface.
 *
 * The encoder is modelled by the commands this file records into it
 * (`EncoderCommand`); passes keep their own recordings (their `End` returns
 * them). Whether a pass still holds a clone of the encoder when `end` runs,
 * the frame the surface would hand out, and whether the thread is already
 * panicking are parameters.
 */
module CommandBuffers {
  import opened Wrappers
  import opened ShaderTypes
  import opened Handles
  import opened Bindings
  import Wgpu
  import TextureTypes
  import Geometry
  import Layout
  import GpuContext
  import Surfaces
  import RenderPasses
  import RenderPassBuilders
  import ComputePasses

  // ---------------------------------------------------------------------
  // Values
  // ---------------------------------------------------------------------

  /** What `copy_texture` and `blit_texture` read of a texture: its wgpu texture and view, format, size and mip level count. */
  datatype TextureRef = TextureRef(
    texture: Handle,
    view: Handle,
    format: TextureTypes.TextureFormat,
    size: Geometry.Rect,
    mipLevelCount: U32)

  /** A command recorded directly into the encoder. */
  datatype EncoderCommand =
    | CopyTextureToTexture(src: Handle, dst: Handle, width: U32, height: U32)
    | BlitCopy(srcView: Handle, dstView: Handle, format: Wgpu.TextureFormat)

  /** `SurfaceTextureError`. */
  datatype SurfaceTextureError = NotAvailable | ConfigNeeded | DeviceLost

  /** The ways a pass is begun. */
  datatype Begin = BuilderBegin | SurfaceBegin | DepthBegin | TextureBegin | ComputeBegin

  // ---------------------------------------------------------------------
  // The pass flags
  // ---------------------------------------------------------------------

  /** The check at the head of every `begin_*`: neither flag may be set. */
  function OpenCheck(renderOpen: bool, computeOpen: bool): (r: Result<(), PassPanic>)
    ensures r.Ok? <==> !renderOpen && !computeOpen
    ensures r.Err? ==> r.error == PassAlreadyOpen
    ensures r.Ok? ==> r == Ok(())
  {
    if renderOpen || computeOpen then Err(PassAlreadyOpen) else Ok(())
  }

  /**
   * The render-pass flag after a begin, as written: `renderpass_builder`,
   * `begin_renderpass` and `begin_depth_texture` store true, while
   * `begin_texture` and `begin_computepass` store false.
   */
  function RenderFlagAfterAsWritten(b: Begin): (r: bool)
    ensures r <==> b in {BuilderBegin, SurfaceBegin, DepthBegin}
  {
    match b
    case BuilderBegin => true
    case SurfaceBegin => true
    case DepthBegin => true
    case TextureBegin => false
    case ComputeBegin => false
  }

  /** The render-pass flag after a begin, with `begin_texture` marking its render pass open like the other render begins. */
  function RenderFlagAfter(b: Begin): (r: bool)
    ensures r <==> b != ComputeBegin
  {
    b != ComputeBegin
  }

  /**
   * After any render begin, the corrected flag makes every later begin
   * panic until the pass ends; as written, a render pass on a texture
   * leaves the flag clear, so a second pass can be begun over it and the
   * buffer can be dropped with that pass open.
   */
  lemma TextureBeginLeavesUnguarded(computeOpen: bool)
    ensures forall b :: b != ComputeBegin ==> OpenCheck(RenderFlagAfter(b), computeOpen).Err?
    ensures !computeOpen ==> OpenCheck(RenderFlagAfterAsWritten(TextureBegin), computeOpen) == Ok(())
    ensures forall b :: RenderFlagAfterAsWritten(b) ==> RenderFlagAfter(b)
  {
  }

  // ---------------------------------------------------------------------
  // The surface texture
  // ---------------------------------------------------------------------

  /**
   * The frame the pass draws into: the one the surface texture already
   * holds, else the one the context acquires, suboptimal or not; any other
   * swapchain error is the result.
   */
  function Acquire(held: Option<GpuContext.SurfaceFrame>, got: Result<GpuContext.SurfaceFrame, GpuContext.SwapchainError>)
    : (r: Result<GpuContext.SurfaceFrame, GpuContext.SwapchainError>)
    ensures held.Some? ==> r == Ok(held.value)
    ensures held.None? && got.Ok? ==> r == got
    ensures held.None? && got.Err? && got.error.Suboptimal? ==> r == Ok(got.error.frame)
    ensures r.Err? <==> held.None? && got.Err? && !got.error.Suboptimal?
    ensures r.Err? ==> r == got
  {
    if held.Some? then Ok(held.value)
    else if got.Ok? then got
    else if got.error.Suboptimal? then Ok(got.error.frame)
    else got
  }

  /** `get_surface_texture`'s error: each swapchain error to its namesake; the unreachable Suboptimal arm gives NotAvailable. */
  function SurfaceErrorOf(e: GpuContext.SwapchainError): (r: SurfaceTextureError)
    ensures e.NotAvailable? || e.Suboptimal? <==> r == NotAvailable
    ensures e.ConfigNeeded? <==> r == ConfigNeeded
    ensures e.DeviceLost? <==> r == DeviceLost
  {
    match e
    case NotAvailable => NotAvailable
    case ConfigNeeded => ConfigNeeded
    case DeviceLost => DeviceLost
    case Suboptimal(_) => NotAvailable
  }

  /** The error map loses nothing on the errors `Acquire` can return. */
  lemma SurfaceErrorInjective(e1: GpuContext.SwapchainError, e2: GpuContext.SwapchainError)
    requires !e1.Suboptimal? && !e2.Suboptimal?
    ensures SurfaceErrorOf(e1) == SurfaceErrorOf(e2) <==> e1 == e2
  {
  }

  // ---------------------------------------------------------------------
  // What the builder makes of each begin
  // ---------------------------------------------------------------------

  /** The pass `begin_renderpass` builds over a surface frame: one blend-less target on the frame's view, sized as the frame. */
  function SurfaceBuilt(f: GpuContext.SurfaceFrame): RenderPassBuilders.Built
  {
    RenderPassBuilders.Built([RenderPasses.RenderTarget(f.view, f.format, None, None)], [], None, None, None,
                             Geometry.Point2(Geometry.PointCoord(f.width), Geometry.PointCoord(f.height)))
  }

  /** The pass `begin_depth_texture` builds: no colour target, the depth texture's view and format, its size. */
  function DepthBuilt(t: RenderPasses.TextureInfo): RenderPassBuilders.Built
  {
    RenderPassBuilders.Built([], [], None, Some(t.view), Some(TextureTypes.FormatToWgpu(t.format)), t.size)
  }

  /** The pass `begin_texture` builds: one blend-less target on the texture's view, sized as the texture. */
  function TextureBuilt(t: RenderPasses.TextureInfo): RenderPassBuilders.Built
  {
    RenderPassBuilders.Built([RenderPasses.RenderTarget(t.view, TextureTypes.FormatToWgpu(t.format), None, None)], [], None,
                             None, None, t.size)
  }

  /** A surface frame always builds: the builder's only check on a surface attachment is that it holds a frame. */
  lemma SurfaceBuilds(f: GpuContext.SurfaceFrame)
    ensures RenderPassBuilders.BuildSpec([RenderPassBuilders.ColorEntry(RenderPassBuilders.SurfaceColor(Some(f)), None)], [], None)
      == Ok(SurfaceBuilt(f))
  {
    var e := RenderPassBuilders.ColorEntry(RenderPassBuilders.SurfaceColor(Some(f)), None);
    var v := RenderPassBuilders.ColorViewOf(e.source).value;
    assert RenderPassBuilders.ColorPass([e], 0) == Ok(([], None));
    assert RenderPassBuilders.SizeCheck(None, v.size) == Ok(());
    assert [] + [RenderPassBuilders.TargetOf(v, None)] == [RenderPassBuilders.TargetOf(v, None)];
    assert RenderPassBuilders.ColorPass([e], 1) == Ok(([RenderPassBuilders.TargetOf(v, None)], Some(v.size)));
  }

  /** A depth-only pass builds exactly when the builder's depth checks pass. */
  lemma DepthBuilds(t: RenderPasses.TextureInfo)
    ensures RenderPassBuilders.DepthTextureCheck(t).Err? ==>
      RenderPassBuilders.BuildSpec([], [], Some(t)) == Err(RenderPassBuilders.DepthTextureCheck(t).error)
    ensures RenderPassBuilders.DepthTextureCheck(t).Ok? ==> RenderPassBuilders.BuildSpec([], [], Some(t)) == Ok(DepthBuilt(t))
  {
  }

  /** A pass on one texture builds exactly when the builder's colour checks pass. */
  lemma TextureBuilds(t: RenderPasses.TextureInfo)
    ensures var e := RenderPassBuilders.ColorEntry(RenderPassBuilders.TextureColor(t), None);
      RenderPassBuilders.ColorViewOf(e.source).Err? ==>
        RenderPassBuilders.BuildSpec([e], [], None) == Err(RenderPassBuilders.ColorViewOf(e.source).error)
    ensures var e := RenderPassBuilders.ColorEntry(RenderPassBuilders.TextureColor(t), None);
      RenderPassBuilders.ColorViewOf(e.source).Ok? ==> RenderPassBuilders.BuildSpec([e], [], None) == Ok(TextureBuilt(t))
  {
    var e := RenderPassBuilders.ColorEntry(RenderPassBuilders.TextureColor(t), None);
    var c := RenderPassBuilders.ColorViewOf(e.source);
    assert RenderPassBuilders.ColorPass([e], 0) == Ok(([], None));
    if c.Ok? {
      assert RenderPassBuilders.SizeCheck(None, c.value.size) == Ok(());
      assert [] + [RenderPassBuilders.TargetOf(c.value, None)] == [RenderPassBuilders.TargetOf(c.value, None)];
      assert RenderPassBuilders.ColorPass([e], 1) == Ok(([RenderPassBuilders.TargetOf(c.value, None)], Some(c.value.size)));
    } else {
      assert RenderPassBuilders.ColorPass([e], 1) == Err(c.error);
    }
  }

  // ---------------------------------------------------------------------
  // copy_texture
  // ---------------------------------------------------------------------

  /** The checks of `copy_texture`, in order: the same format, the same size, one mip level in the source, one in the destination. */
  function CopyCheck(src: TextureRef, dst: TextureRef): (r: Result<(), PassPanic>)
    ensures r.Ok? <==> src.format == dst.format && src.size == dst.size && src.mipLevelCount == 1 && dst.mipLevelCount == 1
    ensures src.format != dst.format ==> r == Err(TextureFormatMismatch)
    ensures src.format == dst.format && src.size != dst.size ==> r == Err(TextureSizeMismatch)
    ensures src.format == dst.format && src.size == dst.size && src.mipLevelCount != 1 ==> r == Err(SourceMipLevels)
    ensures src.format == dst.format && src.size == dst.size && src.mipLevelCount == 1 && dst.mipLevelCount != 1 ==>
      r == Err(DestinationMipLevels)
    ensures r.Ok? ==> r == Ok(())
  {
    if src.format != dst.format then Err(TextureFormatMismatch)
    else if src.size != dst.size then Err(TextureSizeMismatch)
    else if src.mipLevelCount != 1 then Err(SourceMipLevels)
    else if dst.mipLevelCount != 1 then Err(DestinationMipLevels)
    else Ok(())
  }

  /** The copy extent as written: the source rectangle's position, cast to u32. */
  function CopyExtentAsWritten(size: Geometry.Rect): (r: (U32, U32))
    ensures r.0 % Layout.TWO_32 == size.x % Layout.TWO_32 && r.1 % Layout.TWO_32 == size.y % Layout.TWO_32
  {
    (Layout.ToU32(size.x), Layout.ToU32(size.y))
  }

  /** The copy extent: the source rectangle's width and height, cast to u32 as texture creation does. */
  function CopyExtent(size: Geometry.Rect): (r: (U32, U32))
    ensures 0 <= size.w && 0 <= size.h ==> r == (size.w, size.h)
  {
    (Layout.ToU32(size.w), Layout.ToU32(size.h))
  }

  /**
   * A texture built by `from_builder` sits at (0, 0), so for it the extent
   * as written is empty and the copy moves nothing, while the intended
   * extent covers the whole texture; for any rectangle the two agree only
   * where the position equals the size.
   */
  lemma CopyExtentAsWrittenEmpty(w: Layout.I32, h: Layout.I32)
    requires 0 < w && 0 < h
    ensures CopyExtentAsWritten(Geometry.Rect(0, 0, w, h)) == (0, 0)
    ensures CopyExtent(Geometry.Rect(0, 0, w, h)) == (w, h)
    ensures forall r: Geometry.Rect :: 0 <= r.x && 0 <= r.y && 0 <= r.w && 0 <= r.h ==>
      (CopyExtentAsWritten(r) == CopyExtent(r) <==> r.x == r.w && r.y == r.h)
  {
  }

  // ---------------------------------------------------------------------
  // end
  // ---------------------------------------------------------------------

  /** What `end` does with the encoder. */
  datatype EndOutcome = AlreadyEnded | Submitted(commands: seq<EncoderCommand>) | Failed(panic: PassPanic)

  /**
   * `end`: nothing once the encoder is gone; a panic when a pass still
   * holds a clone of it, or when the context is invalid (the queue is
   * asked for only after the encoder is unwrapped); otherwise the
   * recorded commands are submitted.
   */
  function EndOutcomeOf(encoder: Option<seq<EncoderCommand>>, shared: bool, invalid: bool): (r: EndOutcome)
    ensures encoder.None? <==> r.AlreadyEnded?
    ensures encoder.Some? && shared ==> r == Failed(EncoderInUse)
    ensures encoder.Some? && !shared && invalid ==> r == Failed(InvalidContext)
    ensures r.Submitted? <==> encoder.Some? && !shared && !invalid
    ensures r.Submitted? ==> r.commands == encoder.value
  {
    if encoder.None? then AlreadyEnded
    else if shared then Failed(EncoderInUse)
    else if invalid then Failed(InvalidContext)
    else Submitted(encoder.value)
  }

  /** `end` on an ended buffer is a no-op, whatever else holds. */
  lemma EndIdempotent(shared: bool, invalid: bool)
    ensures EndOutcomeOf(None, shared, invalid) == AlreadyEnded
  {
  }

  // ---------------------------------------------------------------------
  // The command buffer
  // ---------------------------------------------------------------------

  class CommandBuffer {
    const gpu: GpuContext.GpuInner
    /** The encoder's recorded commands; None once `end` has taken it. */
    var encoder: Option<seq<EncoderCommand>>
    /** The encoders submitted to the queue, in order. */
    var submitted: seq<seq<EncoderCommand>>
    const onRenderpass: Surfaces.PassFlag
    const onCompute: Surfaces.PassFlag
    const swapchain: Surfaces.SurfaceTexture

    /** A well-formed context and two distinct flags. */
    ghost predicate Valid()
      reads this, gpu
    {
      gpu.Valid() && onRenderpass != onCompute
    }

    /** `new` and `new_with_surface` past the encoder: both flags clear, an empty encoder, nothing submitted. */
    constructor (gpu: GpuContext.GpuInner, surface: Surfaces.SurfaceTexture)
      requires gpu.Valid()
      ensures Valid() && this.gpu == gpu && swapchain == surface
      ensures fresh(onRenderpass) && fresh(onCompute) && !onRenderpass.value && !onCompute.value
      ensures encoder == Some([]) && submitted == []
    {
      this.gpu := gpu;
      encoder := Some([]);
      submitted := [];
      onRenderpass := new Surfaces.PassFlag(false);
      onCompute := new Surfaces.PassFlag(false);
      swapchain := surface;
    }

    /** `new`: the device creates the encoder (a panic once the context is invalid); the surface texture is a new, empty one. */
    static method New(gpu: GpuContext.GpuInner) returns (r: Result<CommandBuffer, PassPanic>)
      requires gpu.Valid()
      ensures gpu.isInvalid ==> r == Err(InvalidContext)
      ensures !gpu.isInvalid ==> r.Ok? && fresh(r.value) && fresh(r.value.swapchain)
      ensures r.Ok? ==> r.value.Valid() && r.value.gpu == gpu && r.value.encoder == Some([]) && r.value.submitted == []
      ensures r.Ok? ==> !r.value.onRenderpass.value && !r.value.onCompute.value
      ensures r.Ok? ==> r.value.swapchain.texture.None? && !r.value.swapchain.suboptimal && !r.value.swapchain.presented
    {
      if gpu.Device().Err? {
        return Err(InvalidContext);
      }
      var surface := new Surfaces.SurfaceTexture();
      var b := new CommandBuffer(gpu, surface);
      return Ok(b);
    }

    /** `new_with_surface`: as `new`, sharing the given surface texture. */
    static method NewWithSurface(gpu: GpuContext.GpuInner, surface: Surfaces.SurfaceTexture) returns (r: Result<CommandBuffer, PassPanic>)
      requires gpu.Valid()
      ensures gpu.isInvalid ==> r == Err(InvalidContext)
      ensures !gpu.isInvalid ==> r.Ok? && fresh(r.value)
      ensures r.Ok? ==> r.value.Valid() && r.value.gpu == gpu && r.value.swapchain == surface
      ensures r.Ok? ==> r.value.encoder == Some([]) && r.value.submitted == []
      ensures r.Ok? ==> !r.value.onRenderpass.value && !r.value.onCompute.value
    {
      if gpu.Device().Err? {
        return Err(InvalidContext);
      }
      var b := new CommandBuffer(gpu, surface);
      return Ok(b);
    }

    /** `renderpass_builder`: the encoder must still be there; the render-pass flag is set; the builder starts empty. */
    method RenderpassBuilder() returns (r: Result<RenderPassBuilders.RenderpassBuilder, PassPanic>)
      modifies onRenderpass
      ensures encoder.None? ==> r == Err(EncoderEnded) && onRenderpass.value == old(onRenderpass.value)
      ensures encoder.Some? ==> r.Ok? && fresh(r.value) && onRenderpass.value == RenderFlagAfter(BuilderBegin)
      ensures r.Ok? ==> r.value.gpu == gpu && r.value.flag == onRenderpass
      ensures r.Ok? ==> r.value.colors == [] && r.value.msaa == [] && r.value.depth.None?
    {
      if encoder.None? {
        return Err(EncoderEnded);
      }
      onRenderpass.Store(RenderFlagAfter(BuilderBegin));
      var b := new RenderPassBuilders.RenderpassBuilder(gpu, onRenderpass);
      return Ok(b);
    }

    /**
     * `begin_renderpass`: the open check, then a frame for the surface
     * texture if it holds none (`acquired` is what the surface would hand
     * out), then the flag, the encoder and a build over the surface alone.
     * The flag stays set when the encoder is gone.
     */
    method BeginRenderpass(acquired: Option<GpuContext.SurfaceFrame>) returns (r: Result<RenderPasses.RenderPass, RenderPassBuilders.BuildError>)
      requires Valid()
      modifies onRenderpass, swapchain
      ensures OpenCheck(old(onRenderpass.value), old(onCompute.value)).Err? ==>
        r == Err(RenderPassBuilders.Panicked(PassAlreadyOpen)) && unchanged(onRenderpass, swapchain)
      ensures OpenCheck(old(onRenderpass.value), old(onCompute.value)).Ok? ==>
        var step := Acquire(old(swapchain.texture), gpu.GetSwapchain(acquired));
        (step.Err? ==> r == Err(RenderPassBuilders.SwapchainFailed(step.error)) && unchanged(onRenderpass, swapchain)) &&
        (step.Ok? ==> onRenderpass.value == RenderFlagAfter(SurfaceBegin) && swapchain.texture == Some(step.value)) &&
        (step.Ok? && old(swapchain.texture).Some? ==> unchanged(swapchain)) &&
        (step.Ok? && old(swapchain.texture).None? ==> swapchain.suboptimal == step.value.suboptimal && !swapchain.presented) &&
        (step.Ok? && encoder.None? ==> r == Err(RenderPassBuilders.Panicked(EncoderEnded))) &&
        (step.Ok? && encoder.Some? ==>
          r.Ok? && fresh(r.value) && r.value.Valid() && r.value.gpu == gpu && r.value.flag == onRenderpass &&
          r.value.queues == [] && r.value.Settings() == RenderPassBuilders.PassOf(SurfaceBuilt(step.value)))
    {
      if onRenderpass.value || onCompute.value {
        return Err(RenderPassBuilders.Panicked(PassAlreadyOpen));
      }
      if !swapchain.IsValid() {
        var got := gpu.GetSwapchain(acquired);
        match got {
          case Ok(f) => swapchain.SetTexture(f);
          case Err(e) =>
            if e.Suboptimal? {
              swapchain.SetTexture(e.frame);
            } else {
              return Err(RenderPassBuilders.SwapchainFailed(e));
            }
        }
      }
      onRenderpass.Store(RenderFlagAfter(SurfaceBegin));
      if encoder.None? {
        return Err(RenderPassBuilders.Panicked(EncoderEnded));
      }
      var builder := new RenderPassBuilders.RenderpassBuilder(gpu, onRenderpass);
      builder.AddSurfaceColorAttachment(swapchain, None);
      assert builder.colors == [RenderPassBuilders.ColorEntry(RenderPassBuilders.SurfaceColor(Some(swapchain.texture.value)), None)];
      SurfaceBuilds(swapchain.texture.value);
      r := builder.Build();
    }

    /**
     * `begin_depth_texture`: the open check, the flag, the encoder, then a
     * build over the depth texture alone. A failed build leaves the flag set.
     */
    method BeginDepthTexture(t: RenderPasses.TextureInfo) returns (r: Result<RenderPasses.RenderPass, RenderPassBuilders.BuildError>)
      modifies onRenderpass
      ensures OpenCheck(old(onRenderpass.value), old(onCompute.value)).Err? ==>
        r == Err(RenderPassBuilders.Panicked(PassAlreadyOpen)) && onRenderpass.value == old(onRenderpass.value)
      ensures OpenCheck(old(onRenderpass.value), old(onCompute.value)).Ok? ==>
        onRenderpass.value == RenderFlagAfter(DepthBegin) &&
        (encoder.None? ==> r == Err(RenderPassBuilders.Panicked(EncoderEnded))) &&
        (encoder.Some? && RenderPassBuilders.DepthTextureCheck(t).Err? ==> r == Err(RenderPassBuilders.DepthTextureCheck(t).error)) &&
        (encoder.Some? && RenderPassBuilders.DepthTextureCheck(t).Ok? ==>
          r.Ok? && fresh(r.value) && r.value.Valid() && r.value.gpu == gpu && r.value.flag == onRenderpass &&
          r.value.queues == [] && r.value.Settings() == RenderPassBuilders.PassOf(DepthBuilt(t)))
    {
      if onRenderpass.value || onCompute.value {
        return Err(RenderPassBuilders.Panicked(PassAlreadyOpen));
      }
      onRenderpass.Store(RenderFlagAfter(DepthBegin));
      if encoder.None? {
        return Err(RenderPassBuilders.Panicked(EncoderEnded));
      }
      var builder := new RenderPassBuilders.RenderpassBuilder(gpu, onRenderpass);
      builder.SetDepthAttachment(t);
      DepthBuilds(t);
      r := builder.Build();
    }

    /**
     * `begin_texture` with the render-pass flag set like the other render
     * begins: the open check, the flag, the encoder, then a build over the
     * texture alone. A failed build leaves the flag set.
     */
    method BeginTexture(t: RenderPasses.TextureInfo) returns (r: Result<RenderPasses.RenderPass, RenderPassBuilders.BuildError>)
      modifies onRenderpass
      ensures OpenCheck(old(onRenderpass.value), old(onCompute.value)).Err? ==>
        r == Err(RenderPassBuilders.Panicked(PassAlreadyOpen)) && onRenderpass.value == old(onRenderpass.value)
      ensures OpenCheck(old(onRenderpass.value), old(onCompute.value)).Ok? ==>
        var c := RenderPassBuilders.ColorViewOf(RenderPassBuilders.TextureColor(t));
        onRenderpass.value == RenderFlagAfter(TextureBegin) &&
        (encoder.None? ==> r == Err(RenderPassBuilders.Panicked(EncoderEnded))) &&
        (encoder.Some? && c.Err? ==> r == Err(c.error)) &&
        (encoder.Some? && c.Ok? ==>
          r.Ok? && fresh(r.value) && r.value.Valid() && r.value.gpu == gpu && r.value.flag == onRenderpass &&
          r.value.queues == [] && r.value.Settings() == RenderPassBuilders.PassOf(TextureBuilt(t)))
    {
      if onRenderpass.value || onCompute.value {
        return Err(RenderPassBuilders.Panicked(PassAlreadyOpen));
      }
      onRenderpass.Store(RenderFlagAfter(TextureBegin));
      if encoder.None? {
        return Err(RenderPassBuilders.Panicked(EncoderEnded));
      }
      var builder := new RenderPassBuilders.RenderpassBuilder(gpu, onRenderpass);
      builder.AddColorAttachment(t, None);
      assert builder.colors == [RenderPassBuilders.ColorEntry(RenderPassBuilders.TextureColor(t), None)];
      TextureBuilds(t);
      r := builder.Build();
    }

    /**
     * `begin_computepass`: the open check, the render-pass flag cleared,
     * the encoder, then a new compute pass. The compute flag is never set.
     */
    method BeginComputepass() returns (r: Result<ComputePasses.ComputePass, PassPanic>)
      modifies onRenderpass
      ensures OpenCheck(old(onRenderpass.value), old(onCompute.value)).Err? ==>
        r == Err(PassAlreadyOpen) && onRenderpass.value == old(onRenderpass.value)
      ensures OpenCheck(old(onRenderpass.value), old(onCompute.value)).Ok? ==>
        onRenderpass.value == RenderFlagAfter(ComputeBegin) &&
        (encoder.None? ==> r == Err(EncoderEnded)) &&
        (encoder.Some? ==> r.Ok? && fresh(r.value) && r.value.Valid() && r.value.gpu == gpu && r.value.queues == [] &&
                           r.value.Settings() == ComputePasses.ComputeSettings(None, [], None, None))
    {
      if onRenderpass.value || onCompute.value {
        return Err(PassAlreadyOpen);
      }
      onRenderpass.Store(RenderFlagAfter(ComputeBegin));
      if encoder.None? {
        return Err(EncoderEnded);
      }
      var pass := new ComputePasses.ComputePass(gpu);
      return Ok(pass);
    }

    /** `copy_texture`: the encoder, then `CopyCheck`; the copy spans the source's width and height from the origin. */
    method CopyTexture(src: TextureRef, dst: TextureRef) returns (r: Result<(), PassPanic>)
      modifies this
      ensures submitted == old(submitted)
      ensures old(encoder).None? ==> r == Err(EncoderEnded) && encoder == old(encoder)
      ensures old(encoder).Some? && CopyCheck(src, dst).Err? ==> r == CopyCheck(src, dst) && encoder == old(encoder)
      ensures r.Ok? <==> old(encoder).Some? && CopyCheck(src, dst).Ok?
      ensures r.Ok? ==>
        var (w, h) := CopyExtent(src.size);
        encoder == Some(old(encoder).value + [CopyTextureToTexture(src.texture, dst.texture, w, h)])
    {
      if encoder.None? {
        return Err(EncoderEnded);
      }
      r := CopyCheck(src, dst);
      if r.Err? {
        return;
      }
      var (w, h) := CopyExtent(src.size);
      encoder := Some(encoder.value + [CopyTextureToTexture(src.texture, dst.texture, w, h)]);
    }

    /** `blit_texture`: the encoder, then the device for the blitter; a blit from the source view into the destination view in its format. */
    method BlitTexture(src: TextureRef, dst: TextureRef) returns (r: Result<(), PassPanic>)
      modifies this
      ensures submitted == old(submitted)
      ensures old(encoder).None? ==> r == Err(EncoderEnded) && encoder == old(encoder)
      ensures old(encoder).Some? && gpu.isInvalid ==> r == Err(InvalidContext) && encoder == old(encoder)
      ensures r.Ok? <==> old(encoder).Some? && !gpu.isInvalid
      ensures r.Ok? ==>
        encoder == Some(old(encoder).value + [BlitCopy(src.view, dst.view, TextureTypes.FormatToWgpu(dst.format))])
    {
      if encoder.None? {
        return Err(EncoderEnded);
      }
      if gpu.Device().Err? {
        return Err(InvalidContext);
      }
      encoder := Some(encoder.value + [BlitCopy(src.view, dst.view, TextureTypes.FormatToWgpu(dst.format))]);
      return Ok(());
    }

    /**
     * `end`: the encoder is taken, then submitted (as `EndOutcomeOf` says),
     * then the surface is presented when asked. Afterwards the encoder is
     * gone, so a second `end` changes nothing.
     */
    method End(present: bool, shared: bool) returns (r: Result<(), PassPanic>)
      modifies this, swapchain
      ensures var o := EndOutcomeOf(old(encoder), shared, gpu.isInvalid);
        r == (if o.Failed? then Err(o.panic) else Ok(())) &&
        encoder.None? &&
        submitted == old(submitted) + (if o.Submitted? then [o.commands] else []) &&
        (o.Submitted? && present ==>
          swapchain.texture.None? && swapchain.suboptimal == old(swapchain.suboptimal) &&
          swapchain.presented == (old(swapchain.presented) || old(swapchain.texture).Some?)) &&
        (!(o.Submitted? && present) ==> unchanged(swapchain))
      ensures old(encoder).None? ==> unchanged(this) && unchanged(swapchain)
    {
      if encoder.None? {
        return Ok(());
      }
      var commands := encoder.value;
      encoder := None;
      if shared {
        return Err(EncoderInUse);
      }
      if gpu.Queue().Err? {
        return Err(InvalidContext);
      }
      submitted := submitted + [commands];
      if present {
        var _ := swapchain.Present();
      }
      return Ok(());
    }

    /** `get_surface_texture`: a frame for the surface texture if it holds none, then the surface texture itself. */
    method GetSurfaceTexture(acquired: Option<GpuContext.SurfaceFrame>) returns (r: Result<Surfaces.SurfaceTexture, SurfaceTextureError>)
      requires Valid()
      modifies swapchain
      ensures var step := Acquire(old(swapchain.texture), gpu.GetSwapchain(acquired));
        (step.Err? ==> r == Err(SurfaceErrorOf(step.error)) && unchanged(swapchain)) &&
        (step.Ok? ==> r == Ok(swapchain) && swapchain.texture == Some(step.value)) &&
        (old(swapchain.texture).Some? ==> unchanged(swapchain)) &&
        (step.Ok? && old(swapchain.texture).None? ==> swapchain.suboptimal == step.value.suboptimal && !swapchain.presented)
    {
      if !swapchain.IsValid() {
        var got := gpu.GetSwapchain(acquired);
        match got {
          case Ok(f) => swapchain.SetTexture(f);
          case Err(e) =>
            if e.Suboptimal? {
              swapchain.SetTexture(e.frame);
            } else {
              return Err(SurfaceErrorOf(e));
            }
        }
      }
      return Ok(swapchain);
    }

    /**
     * `drop`: nothing while the thread is already panicking; a panic while
     * either pass flag is set; otherwise `end(true)`.
     */
    method Drop(panicking: bool, shared: bool) returns (r: Result<(), PassPanic>)
      modifies this, swapchain
      ensures panicking ==> r == Ok(()) && unchanged(this) && unchanged(swapchain)
      ensures !panicking && (onRenderpass.value || onCompute.value) ==>
        r == Err(PassOpenOnDrop) && unchanged(this) && unchanged(swapchain)
      ensures !panicking && !onRenderpass.value && !onCompute.value ==>
        var o := EndOutcomeOf(old(encoder), shared, gpu.isInvalid);
        r == (if o.Failed? then Err(o.panic) else Ok(())) &&
        encoder.None? &&
        submitted == old(submitted) + (if o.Submitted? then [o.commands] else []) &&
        (o.Submitted? ==>
          swapchain.texture.None? && swapchain.presented == (old(swapchain.presented) || old(swapchain.texture).Some?)) &&
        (!o.Submitted? ==> unchanged(swapchain))
    {
      if panicking {
        return Ok(());
      }
      if onRenderpass.value || onCompute.value {
        return Err(PassOpenOnDrop);
      }
      r := End(true, shared);
    }
  }
}
