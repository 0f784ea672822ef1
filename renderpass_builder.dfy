/**
 * The render-pass builder of src/gpu/command/renderpass/renderpass_builder.rs.
 * The builder collects colour attachments (a surface texture or a texture,
 * each with an optional blend), MSAA textures and an optional depth texture;
 * `build` checks them in that order, takes the first colour (or else the
 * depth) attachment's size as the pass's surface size, requires every later
 * attachment to have that size, and hands the targets to a fresh
 * `RenderPass`.
 *
 * A surface texture is read when it is added: the builder borrows it for its
 * whole life, so it cannot change before `build`.
 */
module RenderPassBuilders {
  import opened Wrappers
  import opened ShaderTypes
  import opened Handles
  import opened Bindings
  import Wgpu
  import TextureTypes
  import Geometry
  import GpuContext
  import Surfaces
  import RenderPasses

  /** `RenderPassBuildError`, plus the panics `build` can reach (a surface texture without a frame). */
  datatype BuildError =
    | NoColorOrDepthAttachment
    | ColorAttachmentNotRenderTarget
    | ColorAttachmentMultiSampled
    | MismatchedAttachmentCount(expected: nat, actual: nat)
    | MismatchedAttachmentSize(expectedSize: Geometry.Point2, actualSize: Geometry.Point2)
    | MismatchedAttachmentSampleCount(expectedCount: U32, actualCount: U32)
    | MismatchedAttachmentFormat(expectedFormat: TextureTypes.TextureFormat, actualFormat: TextureTypes.TextureFormat)
    | MsaaTextureNotMultiSampled
    | MsaaTextureNotRenderAttachment
    | MsaaTextureInvalidSize(size: Geometry.Point2)
    | DepthTextureNotRenderAttachment
    | DepthTextureInvalidSize(size: Geometry.Point2)
    | DepthTextureFormatNotSupported(format: TextureTypes.TextureFormat)
    | SwapchainFailed(cause: GpuContext.SwapchainError)
    | Panicked(panic: PassPanic)

  const ZERO_SIZE := Geometry.Point2(0, 0)

  /** `RenderpassAttachment`: the surface texture's frame (if it holds one) or a texture. */
  datatype ColorSource = SurfaceColor(frame: Option<GpuContext.SurfaceFrame>) | TextureColor(texture: RenderPasses.TextureInfo)

  /** A colour attachment and its optional blend. */
  datatype ColorEntry = ColorEntry(source: ColorSource, blend: Option<TextureTypes.TextureBlend>)

  /** What a colour attachment contributes: its view, its wgpu format and its size. */
  datatype ColorView = ColorView(view: Handle, format: Wgpu.TextureFormat, size: Geometry.Point2)

  // ---------------------------------------------------------------------
  // The checks of `build`, one attachment at a time
  // ---------------------------------------------------------------------

  /**
   * The colour attachment's view, format and size: a surface texture
   * without a frame panics; a texture must be a render attachment, have a
   * non-zero size and a single sample, checked in that order.
   */
  function ColorViewOf(s: ColorSource): (r: Result<ColorView, BuildError>)
    ensures s.SurfaceColor? ==>
      (s.frame.None? ==> r == Err(Panicked(SurfaceTextureMissing))) &&
      (s.frame.Some? ==> r == Ok(ColorView(s.frame.value.view, s.frame.value.format,
                                           Geometry.Point2(Geometry.PointCoord(s.frame.value.width), Geometry.PointCoord(s.frame.value.height)))))
    ensures s.TextureColor? ==>
      var t := s.texture;
      (!t.usages.renderAttachment ==> r == Err(ColorAttachmentNotRenderTarget)) &&
      (t.usages.renderAttachment && (t.size.x == 0 || t.size.y == 0) ==> r == Err(MismatchedAttachmentSize(ZERO_SIZE, t.size))) &&
      (t.usages.renderAttachment && t.size.x != 0 && t.size.y != 0 && t.sampleCount != TextureTypes.SampleCount1 ==>
         r == Err(ColorAttachmentMultiSampled)) &&
      (r.Ok? <==> t.usages.renderAttachment && t.size.x != 0 && t.size.y != 0 && t.sampleCount == TextureTypes.SampleCount1) &&
      (r.Ok? ==> r.value == ColorView(t.view, TextureTypes.FormatToWgpu(t.format), t.size))
  {
    match s
    case SurfaceColor(frame) =>
      if frame.None? then Err(Panicked(SurfaceTextureMissing))
      else
        var f := frame.value;
        Ok(ColorView(f.view, f.format, Geometry.Point2(Geometry.PointCoord(f.width), Geometry.PointCoord(f.height))))
    case TextureColor(t) =>
      if !t.usages.renderAttachment then Err(ColorAttachmentNotRenderTarget)
      else if t.size.x == 0 || t.size.y == 0 then Err(MismatchedAttachmentSize(ZERO_SIZE, t.size))
      else if t.sampleCount != TextureTypes.SampleCount1 then Err(ColorAttachmentMultiSampled)
      else Ok(ColorView(t.view, TextureTypes.FormatToWgpu(t.format), t.size))
  }

  /** The render target a colour attachment becomes: its view and format, and the blend state and write mask of its blend. */
  function TargetOf(v: ColorView, blend: Option<TextureTypes.TextureBlend>): (r: RenderPasses.RenderTarget)
    ensures r.view == v.view && r.format == v.format
    ensures r.blend.Some? <==> blend.Some?
    ensures r.writeMask.Some? <==> blend.Some?
    ensures blend.Some? ==> r.blend.value == TextureTypes.BlendStateOf(blend.value) && r.writeMask.value == TextureTypes.ColorWriteMask(blend.value)
  {
    RenderPasses.RenderTarget(v.view, v.format,
      if blend.Some? then Some(TextureTypes.BlendStateOf(blend.value)) else None,
      if blend.Some? then Some(TextureTypes.ColorWriteMask(blend.value)) else None)
  }

  /** An MSAA texture must be a render attachment, multi-sampled and of non-zero size, checked in that order. */
  function MsaaTextureCheck(t: RenderPasses.TextureInfo): (r: Result<(), BuildError>)
    ensures r.Ok? <==> t.usages.renderAttachment && t.sampleCount != TextureTypes.SampleCount1 && t.size.x != 0 && t.size.y != 0
    ensures !t.usages.renderAttachment ==> r == Err(MsaaTextureNotRenderAttachment)
    ensures t.usages.renderAttachment && t.sampleCount == TextureTypes.SampleCount1 ==> r == Err(MsaaTextureNotMultiSampled)
    ensures t.usages.renderAttachment && t.sampleCount != TextureTypes.SampleCount1 && (t.size.x == 0 || t.size.y == 0) ==>
      r == Err(MsaaTextureInvalidSize(ZERO_SIZE))
  {
    if !t.usages.renderAttachment then Err(MsaaTextureNotRenderAttachment)
    else if t.sampleCount == TextureTypes.SampleCount1 then Err(MsaaTextureNotMultiSampled)
    else if t.size.x == 0 || t.size.y == 0 then Err(MsaaTextureInvalidSize(ZERO_SIZE))
    else Ok(())
  }

  /** The depth formats `build` accepts. */
  predicate BuilderDepthFormat(f: TextureTypes.TextureFormat)
  {
    f == TextureTypes.Depth32Float || f == TextureTypes.Depth24PlusStencil8
  }

  /** A depth texture must be a render attachment, of non-zero size and in a supported depth format, checked in that order. */
  function DepthTextureCheck(t: RenderPasses.TextureInfo): (r: Result<(), BuildError>)
    ensures r.Ok? <==> t.usages.renderAttachment && t.size.x != 0 && t.size.y != 0 && BuilderDepthFormat(t.format)
    ensures !t.usages.renderAttachment ==> r == Err(DepthTextureNotRenderAttachment)
    ensures t.usages.renderAttachment && (t.size.x == 0 || t.size.y == 0) ==> r == Err(DepthTextureInvalidSize(ZERO_SIZE))
    ensures t.usages.renderAttachment && t.size.x != 0 && t.size.y != 0 && !BuilderDepthFormat(t.format) ==>
      r == Err(DepthTextureFormatNotSupported(t.format))
  {
    if !t.usages.renderAttachment then Err(DepthTextureNotRenderAttachment)
    else if t.size.x == 0 || t.size.y == 0 then Err(DepthTextureInvalidSize(ZERO_SIZE))
    else if !BuilderDepthFormat(t.format) then Err(DepthTextureFormatNotSupported(t.format))
    else Ok(())
  }

  /** An attachment of size `s` against the size fixed so far: none yet, or equal, else the mismatch (expected, actual). */
  function SizeCheck(fixed: Option<Geometry.Point2>, s: Geometry.Point2): (r: Result<(), BuildError>)
    ensures r.Ok? <==> fixed.None? || fixed.value == s
    ensures r.Err? ==> r.error == MismatchedAttachmentSize(fixed.value, s)
  {
    if fixed.Some? && fixed.value != s then Err(MismatchedAttachmentSize(fixed.value, s)) else Ok(())
  }

  // ---------------------------------------------------------------------
  // The loops of `build` as functions of how many attachments they took
  // ---------------------------------------------------------------------

  /** The colour loop after `n` attachments: the render targets so far and the fixed size, or the first error. */
  function ColorPass(atts: seq<ColorEntry>, n: nat): (r: Result<(seq<RenderPasses.RenderTarget>, Option<Geometry.Point2>), BuildError>)
    requires n <= |atts|
    ensures r.Err? ==> !r.error.NoColorOrDepthAttachment?
    ensures r.Ok? ==> |r.value.0| == n && (r.value.1.None? <==> n == 0)
    ensures r.Ok? ==> forall i :: 0 <= i < n ==>
      ColorViewOf(atts[i].source).Ok? && ColorViewOf(atts[i].source).value.size == r.value.1.value &&
      r.value.0[i] == TargetOf(ColorViewOf(atts[i].source).value, atts[i].blend)
  {
    if n == 0 then Ok(([], None))
    else
      match ColorPass(atts, n - 1)
      case Err(e) => Err(e)
      case Ok(sofar) =>
        match ColorViewOf(atts[n - 1].source)
        case Err(e) => Err(e)
        case Ok(v) =>
          match SizeCheck(sofar.1, v.size)
          case Err(e) => Err(e)
          case Ok(_) => Ok((sofar.0 + [TargetOf(v, atts[n - 1].blend)], Some(v.size)))
  }

  /** The MSAA loop after `n` textures, given the size the colours fixed: the views, the shared sample count, or the first error. */
  function MsaaPass(msaa: seq<RenderPasses.TextureInfo>, n: nat, fixed: Option<Geometry.Point2>)
    : (r: Result<(seq<Handle>, Option<U32>), BuildError>)
    requires n <= |msaa|
    ensures r.Err? ==> !r.error.NoColorOrDepthAttachment?
    ensures r.Ok? ==> |r.value.0| == n && (r.value.1.None? <==> n == 0)
    ensures r.Ok? ==> forall i :: 0 <= i < n ==>
      MsaaTextureCheck(msaa[i]).Ok? && SizeCheck(fixed, msaa[i].size).Ok? &&
      TextureTypes.SampleCountValue(msaa[i].sampleCount) == r.value.1.value && r.value.0[i] == msaa[i].view
  {
    if n == 0 then Ok(([], None))
    else
      match MsaaPass(msaa, n - 1, fixed)
      case Err(e) => Err(e)
      case Ok(sofar) =>
        var t := msaa[n - 1];
        var count := TextureTypes.SampleCountValue(t.sampleCount);
        if MsaaTextureCheck(t).Err? then Err(MsaaTextureCheck(t).error)
        else if SizeCheck(fixed, t.size).Err? then Err(SizeCheck(fixed, t.size).error)
        else if sofar.1.Some? && sofar.1.value != count then Err(MismatchedAttachmentSampleCount(sofar.1.value, count))
        else Ok((sofar.0 + [t.view], Some(count)))
  }

  /** The depth step, given the size fixed so far: the depth view, its wgpu format and the size afterwards, or the error. */
  function DepthPass(depth: Option<RenderPasses.TextureInfo>, fixed: Option<Geometry.Point2>)
    : (r: Result<(Option<Handle>, Option<Wgpu.TextureFormat>, Option<Geometry.Point2>), BuildError>)
    ensures depth.None? ==> r == Ok((None, None, fixed))
    ensures r.Err? ==> !r.error.NoColorOrDepthAttachment?
    ensures depth.Some? && r.Ok? ==>
      DepthTextureCheck(depth.value).Ok? && SizeCheck(fixed, depth.value.size).Ok? &&
      r.value == (Some(depth.value.view), Some(TextureTypes.FormatToWgpu(depth.value.format)),
                  if fixed.Some? then fixed else Some(depth.value.size))
    ensures depth.Some? ==>
      (r.Ok? <==> DepthTextureCheck(depth.value).Ok? && SizeCheck(fixed, depth.value.size).Ok?) &&
      (DepthTextureCheck(depth.value).Err? ==> r == Err(DepthTextureCheck(depth.value).error))
  {
    if depth.None? then Ok((None, None, fixed))
    else
      var t := depth.value;
      if DepthTextureCheck(t).Err? then Err(DepthTextureCheck(t).error)
      else if SizeCheck(fixed, t.size).Err? then Err(SizeCheck(fixed, t.size).error)
      else Ok((Some(t.view), Some(TextureTypes.FormatToWgpu(t.format)), if fixed.Some? then fixed else Some(t.size)))
  }

  /** What a successful `build` sets on the new pass. */
  datatype Built = Built(
    targets: seq<RenderPasses.RenderTarget>,
    msaaTargets: seq<Handle>,
    msaaCount: Option<U32>,
    depthView: Option<Handle>,
    depthFormat: Option<Wgpu.TextureFormat>,
    surfaceSize: Geometry.Point2)

  /** `build`: the colour loop, the MSAA loop, the depth step, then a surface size or NoColorOrDepthAttachment. */
  function BuildSpec(colors: seq<ColorEntry>, msaa: seq<RenderPasses.TextureInfo>, depth: Option<RenderPasses.TextureInfo>)
    : (r: Result<Built, BuildError>)
    ensures r.Ok? ==> |r.value.targets| == |colors| && |r.value.msaaTargets| == |msaa|
    ensures r.Ok? ==> (r.value.msaaCount.None? <==> msaa == [])
    ensures r.Ok? ==> (r.value.depthView.Some? <==> depth.Some?) && (r.value.depthFormat.Some? <==> depth.Some?)
  {
    match ColorPass(colors, |colors|)
    case Err(e) => Err(e)
    case Ok(c) =>
      match MsaaPass(msaa, |msaa|, c.1)
      case Err(e) => Err(e)
      case Ok(m) =>
        match DepthPass(depth, c.1)
        case Err(e) => Err(e)
        case Ok(d) =>
          if d.2.None? then Err(NoColorOrDepthAttachment)
          else Ok(Built(c.0, m.0, m.1, d.0, d.1, d.2.value))
  }

  /** The state of the pass `build` returns: the built targets and size on top of a new pass. */
  function PassOf(b: Built): (r: RenderPasses.PassSettings)
    ensures r.renderTargets == b.targets && r.msaaTargets == b.msaaTargets && r.msaaCount == b.msaaCount
    ensures r.depthTarget == b.depthView && r.depthFormat == b.depthFormat && r.surfaceSize == b.surfaceSize
    ensures r.shader.None? && r.attachments == [] && r.pushConstant.None? && r.clearColor.None?
  {
    RenderPasses.PassSettings(b.targets, b.depthView, b.depthFormat, b.surfaceSize, b.msaaCount, b.msaaTargets,
                              None, None, None, None, None, None, None, [], None)
  }

  // ---------------------------------------------------------------------
  // Properties of `build`
  // ---------------------------------------------------------------------

  /** Once the colour loop has failed, later attachments do not change the error. */
  lemma {:induction false} ColorErrorSticks(atts: seq<ColorEntry>, i: nat, n: nat)
    requires i <= n <= |atts| && ColorPass(atts, i).Err?
    ensures ColorPass(atts, n) == ColorPass(atts, i)
    decreases n
  {
    if n > i {
      ColorErrorSticks(atts, i, n - 1);
    }
  }

  /** Once the MSAA loop has failed, later textures do not change the error. */
  lemma {:induction false} MsaaErrorSticks(msaa: seq<RenderPasses.TextureInfo>, fixed: Option<Geometry.Point2>, i: nat, n: nat)
    requires i <= n <= |msaa| && MsaaPass(msaa, i, fixed).Err?
    ensures MsaaPass(msaa, n, fixed) == MsaaPass(msaa, i, fixed)
    decreases n
  {
    if n > i {
      MsaaErrorSticks(msaa, fixed, i, n - 1);
    }
  }

  /** After at least one colour attachment the fixed size is the first attachment's size. */
  lemma {:induction false} ColorSizeIsFirst(atts: seq<ColorEntry>, n: nat)
    requires 0 < n <= |atts| && ColorPass(atts, n).Ok?
    ensures ColorViewOf(atts[0].source).Ok? && ColorPass(atts, n).value.1 == Some(ColorViewOf(atts[0].source).value.size)
  {
  }

  /**
   * A later colour attachment whose size differs from the first one's
   * fails with MismatchedAttachmentSize(first, this).
   */
  lemma ColorSizeMismatch(atts: seq<ColorEntry>, n: nat)
    requires 1 < n <= |atts| && ColorPass(atts, n - 1).Ok?
    requires ColorViewOf(atts[n - 1].source).Ok?
    requires ColorViewOf(atts[n - 1].source).value.size != ColorViewOf(atts[0].source).value.size
    ensures ColorPass(atts, n) ==
      Err(MismatchedAttachmentSize(ColorViewOf(atts[0].source).value.size, ColorViewOf(atts[n - 1].source).value.size))
  {
    ColorSizeIsFirst(atts, n - 1);
  }

  /**
   * NoColorOrDepthAttachment is exactly the case of no colour attachment,
   * no depth attachment and MSAA textures that pass their own checks: MSAA
   * textures alone do not fix a size.
   */
  lemma NoAttachmentRefused(colors: seq<ColorEntry>, msaa: seq<RenderPasses.TextureInfo>, depth: Option<RenderPasses.TextureInfo>)
    ensures colors == [] && depth.None? ==> BuildSpec(colors, msaa, depth).Err?
    ensures BuildSpec(colors, msaa, depth) == Err(NoColorOrDepthAttachment) <==>
      colors == [] && depth.None? && MsaaPass(msaa, |msaa|, None).Ok?
  {
    var c := ColorPass(colors, |colors|);
    if c.Ok? {
      var m := MsaaPass(msaa, |msaa|, c.value.1);
      var d := DepthPass(depth, c.value.1);
      if m.Ok? && d.Ok? && d.value.2.None? {
        assert c.value.1.None?;
        assert |colors| == 0;
      }
    }
  }

  /**
   * A successful build: every colour and depth attachment has the surface
   * size, and so does every MSAA texture when there is a colour attachment
   * (the MSAA loop runs before the depth texture can fix the size); the
   * surface size is the first colour attachment's, or else the depth
   * texture's; the render targets keep insertion order; all MSAA textures
   * share the sample count; the depth texture is Depth32Float or
   * Depth24PlusStencil8.
   */
  lemma {:induction false} BuildSucceeded(colors: seq<ColorEntry>, msaa: seq<RenderPasses.TextureInfo>, depth: Option<RenderPasses.TextureInfo>)
    requires BuildSpec(colors, msaa, depth).Ok?
    ensures var b := BuildSpec(colors, msaa, depth).value;
      forall i :: 0 <= i < |colors| ==>
        ColorViewOf(colors[i].source).Ok? && ColorViewOf(colors[i].source).value.size == b.surfaceSize &&
        b.targets[i] == TargetOf(ColorViewOf(colors[i].source).value, colors[i].blend)
    ensures var b := BuildSpec(colors, msaa, depth).value;
      |colors| > 0 ==> b.surfaceSize == ColorViewOf(colors[0].source).value.size
    ensures var b := BuildSpec(colors, msaa, depth).value;
      |colors| == 0 ==> depth.Some? && b.surfaceSize == depth.value.size
    ensures var b := BuildSpec(colors, msaa, depth).value;
      forall i :: 0 <= i < |msaa| ==>
        MsaaTextureCheck(msaa[i]).Ok? && (|colors| > 0 ==> msaa[i].size == b.surfaceSize) && b.msaaTargets[i] == msaa[i].view &&
        Some(TextureTypes.SampleCountValue(msaa[i].sampleCount)) == b.msaaCount
    ensures var b := BuildSpec(colors, msaa, depth).value;
      depth.Some? ==>
        depth.value.usages.renderAttachment && BuilderDepthFormat(depth.value.format) && depth.value.size == b.surfaceSize &&
        b.depthView == Some(depth.value.view) && b.depthFormat == Some(TextureTypes.FormatToWgpu(depth.value.format))
  {
    var c := ColorPass(colors, |colors|).value;
    var m := MsaaPass(msaa, |msaa|, c.1).value;
    var d := DepthPass(depth, c.1).value;
    var b := BuildSpec(colors, msaa, depth).value;
    assert b.surfaceSize == d.2.value;
    if |colors| > 0 {
      ColorSizeIsFirst(colors, |colors|);
      assert c.1 == Some(b.surfaceSize);
    } else {
      assert c.1.None?;
    }
  }

  /**
   * The builder and `set_depth_texture` disagree on depth formats: every
   * format the builder accepts is one `set_depth_texture` accepts, but a
   * Depth24Plus texture that `set_depth_texture` takes is refused by `build`.
   */
  lemma BuilderDepthFormatsNarrower(t: RenderPasses.TextureInfo)
    ensures BuilderDepthFormat(t.format) ==> RenderPasses.PassDepthFormat(TextureTypes.FormatToWgpu(t.format))
    ensures t.format == TextureTypes.Depth24Plus && t.usages.renderAttachment && t.size.x != 0 && t.size.y != 0 ==>
      RenderPasses.PassDepthFormat(TextureTypes.FormatToWgpu(t.format)) &&
      DepthTextureCheck(t) == Err(DepthTextureFormatNotSupported(TextureTypes.Depth24Plus))
  {
  }

  /** The colour loop of `build`. */
  method ColorTargets(colors: seq<ColorEntry>) returns (r: Result<(seq<RenderPasses.RenderTarget>, Option<Geometry.Point2>), BuildError>)
    ensures r == ColorPass(colors, |colors|)
  {
    var fixed: Option<Geometry.Point2> := None;
    var targets: seq<RenderPasses.RenderTarget> := [];
    for i := 0 to |colors|
      invariant ColorPass(colors, i) == Ok((targets, fixed))
    {
      var v := ColorViewOf(colors[i].source);
      if v.Err? {
        ColorErrorSticks(colors, i + 1, |colors|);
        return Err(v.error);
      }
      if fixed.Some? && fixed.value != v.value.size {
        ColorErrorSticks(colors, i + 1, |colors|);
        return Err(MismatchedAttachmentSize(fixed.value, v.value.size));
      }
      if fixed.None? {
        fixed := Some(v.value.size);
      }
      targets := targets + [TargetOf(v.value, colors[i].blend)];
    }
    return Ok((targets, fixed));
  }

  /** The MSAA loop of `build`, against the size the colour loop fixed. */
  method MsaaTargets(msaa: seq<RenderPasses.TextureInfo>, fixed: Option<Geometry.Point2>) returns (r: Result<(seq<Handle>, Option<U32>), BuildError>)
    ensures r == MsaaPass(msaa, |msaa|, fixed)
  {
    var views: seq<Handle> := [];
    var count: Option<U32> := None;
    for i := 0 to |msaa|
      invariant MsaaPass(msaa, i, fixed) == Ok((views, count))
    {
      var t := msaa[i];
      var check := MsaaTextureCheck(t);
      if check.Err? {
        MsaaErrorSticks(msaa, fixed, i + 1, |msaa|);
        return Err(check.error);
      }
      if fixed.Some? && fixed.value != t.size {
        MsaaErrorSticks(msaa, fixed, i + 1, |msaa|);
        return Err(MismatchedAttachmentSize(fixed.value, t.size));
      }
      var sampleCount := TextureTypes.SampleCountValue(t.sampleCount);
      if count.Some? && count.value != sampleCount {
        MsaaErrorSticks(msaa, fixed, i + 1, |msaa|);
        return Err(MismatchedAttachmentSampleCount(count.value, sampleCount));
      }
      if count.None? {
        count := Some(sampleCount);
      }
      views := views + [t.view];
    }
    return Ok((views, count));
  }

  /** The depth step of `build`, against the size the colour loop fixed. */
  method DepthTarget(depth: Option<RenderPasses.TextureInfo>, fixed: Option<Geometry.Point2>)
    returns (r: Result<(Option<Handle>, Option<Wgpu.TextureFormat>, Option<Geometry.Point2>), BuildError>)
    ensures r == DepthPass(depth, fixed)
  {
    var surfaceSize := fixed;
    if depth.None? {
      return Ok((None, None, surfaceSize));
    }
    var t := depth.value;
    var check := DepthTextureCheck(t);
    if check.Err? {
      return Err(check.error);
    }
    if fixed.Some? && fixed.value != t.size {
      return Err(MismatchedAttachmentSize(fixed.value, t.size));
    }
    if surfaceSize.None? {
      surfaceSize := Some(t.size);
    }
    return Ok((Some(t.view), Some(TextureTypes.FormatToWgpu(t.format)), surfaceSize));
  }

  /** `RenderPass::new` followed by setting the built targets and size on it. */
  method NewPass(gpu: GpuContext.GpuInner, flag: Surfaces.PassFlag, b: Built) returns (pass: RenderPasses.RenderPass)
    requires b.msaaCount.None? <==> b.msaaTargets == []
    ensures fresh(pass) && pass.Valid() && pass.gpu == gpu && pass.flag == flag && pass.queues == []
    ensures pass.Settings() == PassOf(b)
  {
    pass := new RenderPasses.RenderPass(gpu, flag);
    pass.renderTargets := b.targets;
    pass.msaaTargets := b.msaaTargets;
    pass.msaaCount := b.msaaCount;
    pass.depthTarget := b.depthView;
    pass.depthFormat := b.depthFormat;
    pass.surfaceSize := b.surfaceSize;
  }

  // ---------------------------------------------------------------------
  // The builder
  // ---------------------------------------------------------------------

  /** `RenderpassBuilder`: the context, the command buffer's pass flag and the attachments added so far. */
  class RenderpassBuilder {
    const gpu: GpuContext.GpuInner
    const flag: Surfaces.PassFlag
    var colors: seq<ColorEntry>
    var msaa: seq<RenderPasses.TextureInfo>
    var depth: Option<RenderPasses.TextureInfo>

    /** `new`: no attachments. */
    constructor (gpu: GpuContext.GpuInner, flag: Surfaces.PassFlag)
      ensures this.gpu == gpu && this.flag == flag
      ensures colors == [] && msaa == [] && depth.None?
    {
      this.gpu := gpu;
      this.flag := flag;
      colors := [];
      msaa := [];
      depth := None;
    }

    /** `add_surface_color_attachment`: appends the surface texture, as it is now, with the blend. */
    method AddSurfaceColorAttachment(surface: Surfaces.SurfaceTexture, blend: Option<TextureTypes.TextureBlend>)
      modifies this
      ensures colors == old(colors) + [ColorEntry(SurfaceColor(surface.texture), blend)]
      ensures msaa == old(msaa) && depth == old(depth)
    {
      colors := colors + [ColorEntry(SurfaceColor(surface.texture), blend)];
    }

    /** `add_color_attachment`: appends the texture with the blend. */
    method AddColorAttachment(texture: RenderPasses.TextureInfo, blend: Option<TextureTypes.TextureBlend>)
      modifies this
      ensures colors == old(colors) + [ColorEntry(TextureColor(texture), blend)]
      ensures msaa == old(msaa) && depth == old(depth)
    {
      colors := colors + [ColorEntry(TextureColor(texture), blend)];
    }

    /** `add_msaa_attachment`: appends the texture. */
    method AddMsaaAttachment(texture: RenderPasses.TextureInfo)
      modifies this
      ensures msaa == old(msaa) + [texture]
      ensures colors == old(colors) && depth == old(depth)
    {
      msaa := msaa + [texture];
    }

    /** `set_depth_attachment`: replaces the depth texture. */
    method SetDepthAttachment(texture: RenderPasses.TextureInfo)
      modifies this
      ensures depth == Some(texture)
      ensures colors == old(colors) && msaa == old(msaa)
    {
      depth := Some(texture);
    }

    /**
     * `build`: the error `BuildSpec` names, or a new pass on the builder's
     * context and flag whose targets, MSAA targets and count, depth target
     * and surface size are the built ones, with nothing else set.
     */
    method Build() returns (r: Result<RenderPasses.RenderPass, BuildError>)
      ensures BuildSpec(colors, msaa, depth).Err? ==> r == Err(BuildSpec(colors, msaa, depth).error)
      ensures BuildSpec(colors, msaa, depth).Ok? ==>
        r.Ok? && fresh(r.value) && r.value.Valid() && r.value.gpu == gpu && r.value.flag == flag && r.value.queues == [] &&
        r.value.Settings() == PassOf(BuildSpec(colors, msaa, depth).value)
    {
      ghost var spec := BuildSpec(colors, msaa, depth);
      var c := ColorTargets(colors);
      if c.Err? {
        return Err(c.error);
      }
      var (targets, fixed) := c.value;
      var m := MsaaTargets(msaa, fixed);
      if m.Err? {
        return Err(m.error);
      }
      var (views, count) := m.value;

      var d := DepthTarget(depth, fixed);
      if d.Err? {
        return Err(d.error);
      }
      var (depthView, depthFormat, surfaceSize) := d.value;
      if surfaceSize.None? {
        return Err(NoColorOrDepthAttachment);
      }
      var built := Built(targets, views, count, depthView, depthFormat, surfaceSize.value);
      assert spec == Ok(built);
      var pass := NewPass(gpu, flag, built);
      return Ok(pass);
    }
  }
}
