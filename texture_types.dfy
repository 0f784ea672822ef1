/**
 * The texture enumerations of src/gpu/texture/types.rs and their
 * conversions to and from wgpu: format sizes, sample counts, usages, blend
 * operations and factors, and the colour write mask a `TextureBlend`
 * carries in its blend constant.
 */
module TextureTypes {
  import opened Wrappers
  import opened ShaderTypes
  import Wgpu

  datatype TextureFormat =
    | R8Unorm | R8Snorm | R8Uint | R8Sint | R16Uint | R16Sint
    | R16Float | Rg8Unorm | Rg8Snorm | Rg8Uint | Rg8Sint | R32Uint
    | R32Sint | R32Float | Rg16Uint | Rg16Sint | Rg16Float | Rgba8Unorm
    | Rgba8UnormSrgb | Rgba8Snorm | Rgba8Uint | Rgba8Sint | Bgra8Unorm | Bgra8UnormSrgb
    | Rgb9e5Ufloat | Rgb10a2Uint | Rgb10a2Unorm | Rg11b10Ufloat | Rg32Uint | Rg32Sint
    | Rg32Float | Rgba16Uint | Rgba16Sint | Rgba16Float | Rgba32Uint | Rgba32Sint
    | Rgba32Float | Stencil8 | Depth16Unorm | Depth24Plus | Depth24PlusStencil8 | Depth32Float
    | Depth32FloatStencil8

  /** `TextureFormat::get_size`: the bytes of one texel. */
  function FormatSize(f: TextureFormat): (r: U32)
    ensures r in {1, 2, 3, 4, 5, 8, 16}
  {
    match f
    case R8Unorm => 1
    case R8Snorm => 1
    case R8Uint => 1
    case R8Sint => 1
    case R16Uint => 2
    case R16Sint => 2
    case R16Float => 2
    case Rg8Unorm => 2
    case Rg8Snorm => 2
    case Rg8Uint => 2
    case Rg8Sint => 2
    case R32Uint => 4
    case R32Sint => 4
    case R32Float => 4
    case Rg16Uint => 4
    case Rg16Sint => 4
    case Rg16Float => 4
    case Rgba8Unorm => 4
    case Rgba8UnormSrgb => 4
    case Rgba8Snorm => 4
    case Rgba8Uint => 4
    case Rgba8Sint => 4
    case Bgra8Unorm => 4
    case Bgra8UnormSrgb => 4
    case Rgb9e5Ufloat => 4
    case Rgb10a2Uint => 4
    case Rgb10a2Unorm => 4
    case Rg11b10Ufloat => 4
    case Rg32Uint => 8
    case Rg32Sint => 8
    case Rg32Float => 8
    case Rgba16Uint => 8
    case Rgba16Sint => 8
    case Rgba16Float => 8
    case Rgba32Uint => 16
    case Rgba32Sint => 16
    case Rgba32Float => 16
    case Stencil8 => 1
    case Depth16Unorm => 2
    case Depth24Plus => 3
    case Depth24PlusStencil8 => 4
    case Depth32Float => 4
    case Depth32FloatStencil8 => 5
  }

  /** `Into<wgpu::TextureFormat>`. */
  function FormatToWgpu(f: TextureFormat): (r: Wgpu.TextureFormat)
    ensures r != Wgpu.OtherFormat
  {
    match f
    case R8Unorm => Wgpu.R8Unorm
    case R8Snorm => Wgpu.R8Snorm
    case R8Uint => Wgpu.R8Uint
    case R8Sint => Wgpu.R8Sint
    case R16Uint => Wgpu.R16Uint
    case R16Sint => Wgpu.R16Sint
    case R16Float => Wgpu.R16Float
    case Rg8Unorm => Wgpu.Rg8Unorm
    case Rg8Snorm => Wgpu.Rg8Snorm
    case Rg8Uint => Wgpu.Rg8Uint
    case Rg8Sint => Wgpu.Rg8Sint
    case R32Uint => Wgpu.R32Uint
    case R32Sint => Wgpu.R32Sint
    case R32Float => Wgpu.R32Float
    case Rg16Uint => Wgpu.Rg16Uint
    case Rg16Sint => Wgpu.Rg16Sint
    case Rg16Float => Wgpu.Rg16Float
    case Rgba8Unorm => Wgpu.Rgba8Unorm
    case Rgba8UnormSrgb => Wgpu.Rgba8UnormSrgb
    case Rgba8Snorm => Wgpu.Rgba8Snorm
    case Rgba8Uint => Wgpu.Rgba8Uint
    case Rgba8Sint => Wgpu.Rgba8Sint
    case Bgra8Unorm => Wgpu.Bgra8Unorm
    case Bgra8UnormSrgb => Wgpu.Bgra8UnormSrgb
    case Rgb9e5Ufloat => Wgpu.Rgb9e5Ufloat
    case Rgb10a2Uint => Wgpu.Rgb10a2Uint
    case Rgb10a2Unorm => Wgpu.Rgb10a2Unorm
    case Rg11b10Ufloat => Wgpu.Rg11b10Ufloat
    case Rg32Uint => Wgpu.Rg32Uint
    case Rg32Sint => Wgpu.Rg32Sint
    case Rg32Float => Wgpu.Rg32Float
    case Rgba16Uint => Wgpu.Rgba16Uint
    case Rgba16Sint => Wgpu.Rgba16Sint
    case Rgba16Float => Wgpu.Rgba16Float
    case Rgba32Uint => Wgpu.Rgba32Uint
    case Rgba32Sint => Wgpu.Rgba32Sint
    case Rgba32Float => Wgpu.Rgba32Float
    case Stencil8 => Wgpu.Stencil8
    case Depth16Unorm => Wgpu.Depth16Unorm
    case Depth24Plus => Wgpu.Depth24Plus
    case Depth24PlusStencil8 => Wgpu.Depth24PlusStencil8
    case Depth32Float => Wgpu.Depth32Float
    case Depth32FloatStencil8 => Wgpu.Depth32FloatStencil8
  }

  /** `From<wgpu::TextureFormat>`, whose panic on a format the crate does not list is None. */
  function FormatFromWgpu(w: Wgpu.TextureFormat): (r: Option<TextureFormat>)
    ensures r.None? <==> w == Wgpu.OtherFormat
  {
    match w
    case R8Unorm => Some(R8Unorm)
    case R8Snorm => Some(R8Snorm)
    case R8Uint => Some(R8Uint)
    case R8Sint => Some(R8Sint)
    case R16Uint => Some(R16Uint)
    case R16Sint => Some(R16Sint)
    case R16Float => Some(R16Float)
    case Rg8Unorm => Some(Rg8Unorm)
    case Rg8Snorm => Some(Rg8Snorm)
    case Rg8Uint => Some(Rg8Uint)
    case Rg8Sint => Some(Rg8Sint)
    case R32Uint => Some(R32Uint)
    case R32Sint => Some(R32Sint)
    case R32Float => Some(R32Float)
    case Rg16Uint => Some(Rg16Uint)
    case Rg16Sint => Some(Rg16Sint)
    case Rg16Float => Some(Rg16Float)
    case Rgba8Unorm => Some(Rgba8Unorm)
    case Rgba8UnormSrgb => Some(Rgba8UnormSrgb)
    case Rgba8Snorm => Some(Rgba8Snorm)
    case Rgba8Uint => Some(Rgba8Uint)
    case Rgba8Sint => Some(Rgba8Sint)
    case Bgra8Unorm => Some(Bgra8Unorm)
    case Bgra8UnormSrgb => Some(Bgra8UnormSrgb)
    case Rgb9e5Ufloat => Some(Rgb9e5Ufloat)
    case Rgb10a2Uint => Some(Rgb10a2Uint)
    case Rgb10a2Unorm => Some(Rgb10a2Unorm)
    case Rg11b10Ufloat => Some(Rg11b10Ufloat)
    case Rg32Uint => Some(Rg32Uint)
    case Rg32Sint => Some(Rg32Sint)
    case Rg32Float => Some(Rg32Float)
    case Rgba16Uint => Some(Rgba16Uint)
    case Rgba16Sint => Some(Rgba16Sint)
    case Rgba16Float => Some(Rgba16Float)
    case Rgba32Uint => Some(Rgba32Uint)
    case Rgba32Sint => Some(Rgba32Sint)
    case Rgba32Float => Some(Rgba32Float)
    case Stencil8 => Some(Stencil8)
    case Depth16Unorm => Some(Depth16Unorm)
    case Depth24Plus => Some(Depth24Plus)
    case Depth24PlusStencil8 => Some(Depth24PlusStencil8)
    case Depth32Float => Some(Depth32Float)
    case Depth32FloatStencil8 => Some(Depth32FloatStencil8)
    case OtherFormat => None
  }

  /** Converting a format to wgpu and back gives the same format. */
  lemma FormatRoundTrip(f: TextureFormat)
    ensures FormatFromWgpu(FormatToWgpu(f)) == Some(f)
  {
  }

  /**
   * Every wgpu format the crate lists comes back unchanged from a round
   * trip through the crate's format. The proof goes family by family.
   */
  lemma WgpuFormatRoundTrip(w: Wgpu.TextureFormat)
    requires w != Wgpu.OtherFormat
    ensures FormatFromWgpu(w).Some? && FormatToWgpu(FormatFromWgpu(w).value) == w
  {
    if w.R8Unorm? || w.R8Snorm? || w.R8Uint? || w.R8Sint? {
      WgpuRoundTripNormal8(w);
    } else if w.R16Uint? || w.R16Sint? || w.R16Float? || w.Rg8Unorm? || w.Rg8Snorm? || w.Rg8Uint? || w.Rg8Sint? {
      WgpuRoundTripNormal16(w);
    } else if w.R32Uint? || w.R32Sint? || w.R32Float? || w.Rg16Uint? || w.Rg16Sint? || w.Rg16Float? {
      WgpuRoundTripNormal32(w);
    } else if w.Rgba8Unorm? || w.Rgba8UnormSrgb? || w.Rgba8Snorm? || w.Rgba8Uint? || w.Rgba8Sint? || w.Bgra8Unorm? || w.Bgra8UnormSrgb? {
      WgpuRoundTripRgba8(w);
    } else if w.Rgb9e5Ufloat? || w.Rgb10a2Uint? || w.Rgb10a2Unorm? || w.Rg11b10Ufloat? {
      WgpuRoundTripPacked32(w);
    } else if w.Rg32Uint? || w.Rg32Sint? || w.Rg32Float? || w.Rgba16Uint? || w.Rgba16Sint? || w.Rgba16Float? {
      WgpuRoundTripNormal64(w);
    } else if w.Rgba32Uint? || w.Rgba32Sint? || w.Rgba32Float? {
      WgpuRoundTripNormal128(w);
    } else if w.Stencil8? || w.Depth16Unorm? || w.Depth24Plus? {
      WgpuRoundTripDepth(w);
    } else if w.Depth24PlusStencil8? || w.Depth32Float? || w.Depth32FloatStencil8? {
      WgpuRoundTripDepthStencil(w);
    }
  }

  lemma WgpuRoundTripNormal8(w: Wgpu.TextureFormat)
    requires w.R8Unorm? || w.R8Snorm? || w.R8Uint? || w.R8Sint?
    ensures FormatFromWgpu(w).Some? && FormatToWgpu(FormatFromWgpu(w).value) == w
  {
  }

  lemma WgpuRoundTripNormal16(w: Wgpu.TextureFormat)
    requires w.R16Uint? || w.R16Sint? || w.R16Float? || w.Rg8Unorm? || w.Rg8Snorm? || w.Rg8Uint? || w.Rg8Sint?
    ensures FormatFromWgpu(w).Some? && FormatToWgpu(FormatFromWgpu(w).value) == w
  {
  }

  lemma WgpuRoundTripNormal32(w: Wgpu.TextureFormat)
    requires w.R32Uint? || w.R32Sint? || w.R32Float? || w.Rg16Uint? || w.Rg16Sint? || w.Rg16Float?
    ensures FormatFromWgpu(w).Some? && FormatToWgpu(FormatFromWgpu(w).value) == w
  {
  }

  lemma WgpuRoundTripRgba8(w: Wgpu.TextureFormat)
    requires w.Rgba8Unorm? || w.Rgba8UnormSrgb? || w.Rgba8Snorm? || w.Rgba8Uint? || w.Rgba8Sint? || w.Bgra8Unorm? || w.Bgra8UnormSrgb?
    ensures FormatFromWgpu(w).Some? && FormatToWgpu(FormatFromWgpu(w).value) == w
  {
  }

  lemma WgpuRoundTripPacked32(w: Wgpu.TextureFormat)
    requires w.Rgb9e5Ufloat? || w.Rgb10a2Uint? || w.Rgb10a2Unorm? || w.Rg11b10Ufloat?
    ensures FormatFromWgpu(w).Some? && FormatToWgpu(FormatFromWgpu(w).value) == w
  {
  }

  lemma WgpuRoundTripNormal64(w: Wgpu.TextureFormat)
    requires w.Rg32Uint? || w.Rg32Sint? || w.Rg32Float? || w.Rgba16Uint? || w.Rgba16Sint? || w.Rgba16Float?
    ensures FormatFromWgpu(w).Some? && FormatToWgpu(FormatFromWgpu(w).value) == w
  {
  }

  lemma WgpuRoundTripNormal128(w: Wgpu.TextureFormat)
    requires w.Rgba32Uint? || w.Rgba32Sint? || w.Rgba32Float?
    ensures FormatFromWgpu(w).Some? && FormatToWgpu(FormatFromWgpu(w).value) == w
  {
  }

  lemma WgpuRoundTripDepth(w: Wgpu.TextureFormat)
    requires w.Stencil8? || w.Depth16Unorm? || w.Depth24Plus?
    ensures FormatFromWgpu(w).Some? && FormatToWgpu(FormatFromWgpu(w).value) == w
  {
  }

  lemma WgpuRoundTripDepthStencil(w: Wgpu.TextureFormat)
    requires w.Depth24PlusStencil8? || w.Depth32Float? || w.Depth32FloatStencil8?
    ensures FormatFromWgpu(w).Some? && FormatToWgpu(FormatFromWgpu(w).value) == w
  {
  }

  /** The depth and stencil formats `with_raw` refuses: `Stencil8` through `Depth32FloatStencil8`. */
  predicate IsDepthStencil(f: TextureFormat)
  {
    f.Stencil8? || f.Depth16Unorm? || f.Depth24Plus? || f.Depth24PlusStencil8? || f.Depth32Float? || f.Depth32FloatStencil8?
  }

  datatype SampleCount = SampleCount1 | SampleCount2 | SampleCount4 | SampleCount8

  /** `Into<u32>` for `SampleCount`. */
  function SampleCountValue(s: SampleCount): (r: U32)
    ensures r in {1, 2, 4, 8}
    ensures s == SampleCount1 <==> r == 1
  {
    match s
    case SampleCount1 => 1
    case SampleCount2 => 2
    case SampleCount4 => 4
    case SampleCount8 => 8
  }

  /** Distinct sample counts give distinct values. */
  lemma SampleCountInjective(s: SampleCount, t: SampleCount)
    ensures SampleCountValue(s) == SampleCountValue(t) <==> s == t
  {
  }

  /** The crate's `TextureUsage` flags: Sampler (bit 0), Storage (bit 1), RenderAttachment (bit 2). */
  datatype TextureUsage = TextureUsage(sampler: bool, storage: bool, renderAttachment: bool)

  const USAGE_NONE := TextureUsage(false, false, false)

  /** `Into<wgpu::TextureUsages>`: each flag sets its own wgpu flag and nothing else. */
  function UsageToWgpu(u: TextureUsage): (r: Wgpu.TextureUsages)
    ensures r.textureBinding <==> u.sampler
    ensures r.storageBinding <==> u.storage
    ensures r.renderAttachment <==> u.renderAttachment
    ensures !r.copySrc && !r.copyDst
    ensures u == USAGE_NONE <==> r == Wgpu.TEXTURE_USAGES_EMPTY
  {
    var usage := Wgpu.TEXTURE_USAGES_EMPTY;
    var usage := if u.sampler then usage.(textureBinding := true) else usage;
    var usage := if u.storage then usage.(storageBinding := true) else usage;
    if u.renderAttachment then usage.(renderAttachment := true) else usage
  }

  datatype BlendOperation = Add | Subtract | ReverseSubtract | Min | Max

  datatype BlendFactor =
    | Zero | One | SrcColor | OneMinusSrcColor | DstColor | OneMinusDstColor
    | SrcAlpha | OneMinusSrcAlpha | DstAlpha | OneMinusDstAlpha
    | ConstantColor | OneMinusConstantColor | SrcAlphaSaturated
    | BlendColor | OneMinusBlendColor

  /** `blend_op_convert`. */
  function OpToWgpu(op: BlendOperation): Wgpu.BlendOperation
  {
    match op
    case Add => Wgpu.Add
    case Subtract => Wgpu.Subtract
    case ReverseSubtract => Wgpu.ReverseSubtract
    case Min => Wgpu.Min
    case Max => Wgpu.Max
  }

  /** `wgpu_op_to_blend_op`. */
  function OpFromWgpu(op: Wgpu.BlendOperation): BlendOperation
  {
    match op
    case Add => Add
    case Subtract => Subtract
    case ReverseSubtract => ReverseSubtract
    case Min => Min
    case Max => Max
  }

  /** The blend-operation conversions are inverse to each other. */
  lemma OpRoundTrip(op: BlendOperation, w: Wgpu.BlendOperation)
    ensures OpFromWgpu(OpToWgpu(op)) == op
    ensures OpToWgpu(OpFromWgpu(w)) == w
  {
  }

  /** `blend_factor_convert`: `BlendColor` is another name for `ConstantColor`. */
  function FactorToWgpu(f: BlendFactor): (r: Wgpu.BlendFactor)
    ensures !r.Src1? && !r.OneMinusSrc1? && !r.Src1Alpha? && !r.OneMinusSrc1Alpha?
  {
    match f
    case Zero => Wgpu.Zero
    case One => Wgpu.One
    case SrcColor => Wgpu.Src
    case OneMinusSrcColor => Wgpu.OneMinusSrc
    case DstColor => Wgpu.Dst
    case OneMinusDstColor => Wgpu.OneMinusDst
    case SrcAlpha => Wgpu.SrcAlpha
    case OneMinusSrcAlpha => Wgpu.OneMinusSrcAlpha
    case DstAlpha => Wgpu.DstAlpha
    case OneMinusDstAlpha => Wgpu.OneMinusDstAlpha
    case SrcAlphaSaturated => Wgpu.SrcAlphaSaturated
    case BlendColor => Wgpu.Constant
    case OneMinusBlendColor => Wgpu.OneMinusConstant
    case ConstantColor => Wgpu.Constant
    case OneMinusConstantColor => Wgpu.OneMinusConstant
  }

  /** `wgpu_factor_to_blend_factor`, whose panic on a dual-source factor is None. */
  function FactorFromWgpu(w: Wgpu.BlendFactor): (r: Option<BlendFactor>)
    ensures r.None? <==> w.Src1? || w.OneMinusSrc1? || w.Src1Alpha? || w.OneMinusSrc1Alpha?
  {
    match w
    case Zero => Some(Zero)
    case One => Some(One)
    case Src => Some(SrcColor)
    case OneMinusSrc => Some(OneMinusSrcColor)
    case Dst => Some(DstColor)
    case OneMinusDst => Some(OneMinusDstColor)
    case SrcAlpha => Some(SrcAlpha)
    case OneMinusSrcAlpha => Some(OneMinusSrcAlpha)
    case DstAlpha => Some(DstAlpha)
    case OneMinusDstAlpha => Some(OneMinusDstAlpha)
    case SrcAlphaSaturated => Some(SrcAlphaSaturated)
    case Constant => Some(ConstantColor)
    case OneMinusConstant => Some(OneMinusConstantColor)
    case _ => None
  }

  /**
   * A factor converted to wgpu and back is unchanged, except that the two
   * `BlendColor` aliases come back as the `ConstantColor` factors.
   */
  lemma FactorRoundTrip(f: BlendFactor)
    ensures FactorFromWgpu(FactorToWgpu(f)) ==
      Some(if f == BlendColor then ConstantColor
           else if f == OneMinusBlendColor then OneMinusConstantColor
           else f)
  {
  }

  /** Every wgpu factor the crate accepts converts back to itself. */
  lemma WgpuFactorRoundTrip(w: Wgpu.BlendFactor)
    requires FactorFromWgpu(w).Some?
    ensures FactorToWgpu(FactorFromWgpu(w).value) == w
  {
  }

  /**
   * `TextureBlend`: the colour and alpha operations and factors, and the
   * four u32 blend constants, which carry the colour write mask.
   */
  datatype TextureBlend = TextureBlend(
    colorBlend: BlendOperation,
    alphaBlend: BlendOperation,
    colorSrcFactor: BlendFactor,
    colorDstFactor: BlendFactor,
    alphaSrcFactor: BlendFactor,
    alphaDstFactor: BlendFactor,
    colorBlendConstant: (U32, U32, U32, U32))

  /** `TextureBlend::NONE`: replace, writing every channel. */
  const BLEND_NONE := TextureBlend(Add, Add, One, Zero, One, Zero, (0xFF, 0xFF, 0xFF, 0xFF))

  /** `create_wgpu_blend_state`. */
  function BlendStateOf(b: TextureBlend): Wgpu.BlendState
  {
    Wgpu.BlendState(
      Wgpu.BlendComponent(FactorToWgpu(b.colorSrcFactor), FactorToWgpu(b.colorDstFactor), OpToWgpu(b.colorBlend)),
      Wgpu.BlendComponent(FactorToWgpu(b.alphaSrcFactor), FactorToWgpu(b.alphaDstFactor), OpToWgpu(b.alphaBlend)))
  }

  /** The 32-bit word `c0 | c1 << 8 | c2 << 16 | c3 << 24`, with the bits shifted past bit 31 lost. */
  function MaskWord(c: (U32, U32, U32, U32)): bv32
  {
    (c.0 as bv32) | ((c.1 as bv32) << 8) | ((c.2 as bv32) << 16) | ((c.3 as bv32) << 24)
  }

  /**
   * `create_wgpu_color_write_mask`: bits 0, 8, 16 and 24 of the mask word
   * enable red, green, blue and alpha; no channel at all means every channel.
   */
  function ColorWriteMask(b: TextureBlend): Wgpu.ColorWrites
  {
    var w := MaskWord(b.colorBlendConstant);
    var mask := Wgpu.ColorWrites(w & 0x1 != 0, w & 0x100 != 0, w & 0x1_0000 != 0, w & 0x100_0000 != 0);
    if mask == Wgpu.COLOR_WRITES_EMPTY then Wgpu.COLOR_WRITES_ALL else mask
  }

  /** The constant `from_wgpu` stores for one channel. */
  function ChannelConstant(enabled: bool): (r: U32)
    ensures r == 0 || r == 0xFF
  {
    if enabled then 0xFF else 0
  }

  /**
   * `TextureBlend::from_wgpu`: the blend state's operations and factors (a
   * dual-source factor is None, the source's panic), or NONE's when there
   * is no state; constant k is 0xFF exactly when channel k is written.
   */
  function BlendFromWgpu(state: Option<Wgpu.BlendState>, mask: Option<Wgpu.ColorWrites>): (r: Option<TextureBlend>)
    ensures state.None? ==> r.Some?
  {
    var m := if mask.Some? then mask.value else Wgpu.COLOR_WRITES_EMPTY;
    var constant := (ChannelConstant(m.red), ChannelConstant(m.green), ChannelConstant(m.blue), ChannelConstant(m.alpha));
    match state
    case None => Some(BLEND_NONE.(colorBlendConstant := constant))
    case Some(s) =>
      match (FactorFromWgpu(s.color.srcFactor), FactorFromWgpu(s.color.dstFactor),
             FactorFromWgpu(s.alpha.srcFactor), FactorFromWgpu(s.alpha.dstFactor))
      case (Some(cs), Some(cd), Some(as_), Some(ad)) =>
        Some(TextureBlend(OpFromWgpu(s.color.operation), OpFromWgpu(s.alpha.operation), cs, cd, as_, ad, constant))
      case _ => None
  }

  /** With every constant 0 or 0xFF, channel k is written exactly when constant k is 0xFF (or when none is). */
  lemma MaskOfChannelConstants(r: bool, g: bool, b: bool, a: bool, blend: TextureBlend)
    requires blend.colorBlendConstant == (ChannelConstant(r), ChannelConstant(g), ChannelConstant(b), ChannelConstant(a))
    ensures ColorWriteMask(blend) ==
      if !r && !g && !b && !a then Wgpu.COLOR_WRITES_ALL else Wgpu.ColorWrites(r, g, b, a)
  {
    var w := MaskWord(blend.colorBlendConstant);
    assert w & 0x1 != 0 <==> r;
    assert w & 0x100 != 0 <==> g;
    assert w & 0x1_0000 != 0 <==> b;
    assert w & 0x100_0000 != 0 <==> a;
  }

  /**
   * The write mask survives `from_wgpu`: a non-empty mask comes back
   * unchanged, and an empty or missing one comes back as every channel.
   */
  lemma WriteMaskRoundTrip(state: Option<Wgpu.BlendState>, mask: Option<Wgpu.ColorWrites>)
    requires BlendFromWgpu(state, mask).Some?
    ensures mask.Some? && mask.value != Wgpu.COLOR_WRITES_EMPTY ==>
      ColorWriteMask(BlendFromWgpu(state, mask).value) == mask.value
    ensures mask.None? || mask.value == Wgpu.COLOR_WRITES_EMPTY ==>
      ColorWriteMask(BlendFromWgpu(state, mask).value) == Wgpu.COLOR_WRITES_ALL
  {
    var m := if mask.Some? then mask.value else Wgpu.COLOR_WRITES_EMPTY;
    MaskOfChannelConstants(m.red, m.green, m.blue, m.alpha, BlendFromWgpu(state, mask).value);
  }

  /** A blend state the crate can express survives `from_wgpu` followed by `create_wgpu_blend_state`. */
  lemma BlendStateRoundTrip(state: Wgpu.BlendState, mask: Option<Wgpu.ColorWrites>)
    requires BlendFromWgpu(Some(state), mask).Some?
    ensures BlendStateOf(BlendFromWgpu(Some(state), mask).value) == state
  {
    WgpuFactorRoundTrip(state.color.srcFactor);
    WgpuFactorRoundTrip(state.color.dstFactor);
    WgpuFactorRoundTrip(state.alpha.srcFactor);
    WgpuFactorRoundTrip(state.alpha.dstFactor);
    OpRoundTrip(Add, state.color.operation);
    OpRoundTrip(Add, state.alpha.operation);
  }
}
