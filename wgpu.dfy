/**
 * The wgpu enumerations and flag sets the crate converts to and from. Only
 * the variants the conversions mention are listed; `OtherFormat` and the
 * dual-source blend factors stand for the wgpu values the crate has no
 * counterpart for.
 */
module Wgpu {
  datatype TextureFormat =
    | R8Unorm | R8Snorm | R8Uint | R8Sint
    | R16Uint | R16Sint | R16Float
    | Rg8Unorm | Rg8Snorm | Rg8Uint | Rg8Sint
    | R32Uint | R32Sint | R32Float
    | Rg16Uint | Rg16Sint | Rg16Float
    | Rgba8Unorm | Rgba8UnormSrgb | Rgba8Snorm | Rgba8Uint | Rgba8Sint
    | Bgra8Unorm | Bgra8UnormSrgb
    | Rgb9e5Ufloat | Rgb10a2Uint | Rgb10a2Unorm | Rg11b10Ufloat
    | Rg32Uint | Rg32Sint | Rg32Float
    | Rgba16Uint | Rgba16Sint | Rgba16Float
    | Rgba32Uint | Rgba32Sint | Rgba32Float
    | Stencil8 | Depth16Unorm | Depth24Plus | Depth24PlusStencil8 | Depth32Float | Depth32FloatStencil8
    | OtherFormat

  /** `TextureFormat::is_srgb` on the formats listed here; `OtherFormat` counts as not sRGB. */
  predicate IsSrgb(f: TextureFormat)
  {
    f == Rgba8UnormSrgb || f == Bgra8UnormSrgb
  }

  datatype BlendOperation = Add | Subtract | ReverseSubtract | Min | Max

  datatype BlendFactor =
    | Zero | One | Src | OneMinusSrc | Dst | OneMinusDst
    | SrcAlpha | OneMinusSrcAlpha | DstAlpha | OneMinusDstAlpha
    | SrcAlphaSaturated | Constant | OneMinusConstant
    | Src1 | OneMinusSrc1 | Src1Alpha | OneMinusSrc1Alpha

  datatype BlendComponent = BlendComponent(srcFactor: BlendFactor, dstFactor: BlendFactor, operation: BlendOperation)

  datatype BlendState = BlendState(color: BlendComponent, alpha: BlendComponent)

  /** `wgpu::ColorWrites`: which of the four channels a render target writes. */
  datatype ColorWrites = ColorWrites(red: bool, green: bool, blue: bool, alpha: bool)

  const COLOR_WRITES_ALL := ColorWrites(true, true, true, true)
  const COLOR_WRITES_EMPTY := ColorWrites(false, false, false, false)
  /** `ColorWrites::COLOR`: red, green and blue, but not alpha. */
  const COLOR_WRITES_COLOR := ColorWrites(true, true, true, false)

  /** `wgpu::TextureUsages`. */
  datatype TextureUsages = TextureUsages(
    copySrc: bool, copyDst: bool, textureBinding: bool, storageBinding: bool, renderAttachment: bool)

  const TEXTURE_USAGES_EMPTY := TextureUsages(false, false, false, false, false)

  /** `wgpu::BufferUsages`: ten flag bits. */
  type BufferUsages = u: bv32 | u & !0x3FF == 0

  /** `wgpu::PresentMode`. */
  datatype PresentMode = AutoVsync | AutoNoVsync | Fifo | FifoRelaxed | Immediate | Mailbox

  /** `wgpu::CompositeAlphaMode`. */
  datatype CompositeAlphaMode = AlphaAuto | AlphaOpaque | PreMultiplied | PostMultiplied | Inherit
}
