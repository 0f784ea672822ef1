/**
 * Value types shared by shader reflection, shader objects and pipelines
 * (src/gpu/shader/types.rs). Fixed-width integers of the source are subset
 * types of `int`; text read from shader binaries is kept as its UTF-8 bytes.
 */
module ShaderTypes {
  import opened Wrappers

  type Byte = x: int | 0 <= x < 0x100
  type U16 = x: int | 0 <= x < 0x1_0000
  type U32 = x: int | 0 <= x < 0x1_0000_0000
  type U64 = x: int | 0 <= x < 0x1_0000_0000_0000_0000

  /** UTF-8 encoded text. */
  type Text = seq<Byte>

  const U32_MAX: U32 := 0xFFFF_FFFF

  /** `n` zero bytes (`vec![0; n]`). */
  function Zeros(n: nat): (r: seq<Byte>)
    ensures |r| == n && forall i :: 0 <= i < n ==> r[i] == 0
  {
    seq(n, _ => 0)
  }

  /** The READ (bit 0), WRITE (bit 1) and ATOMIC (bit 2) storage-access flags. */
  datatype StorageAccess = StorageAccess(read: bool, write: bool, atomic: bool)

  function AccessBits(a: StorageAccess): (r: U32)
    ensures r < 8
  {
    (if a.read then 1 else 0) + (if a.write then 2 else 0) + (if a.atomic then 4 else 0)
  }

  /** `StorageAccess::from_bits`: refuses every word with a bit outside READ|WRITE|ATOMIC. */
  function AccessFromBits(bits: U32): (r: Option<StorageAccess>)
    ensures r.Some? <==> bits < 8
    ensures r.Some? ==> AccessBits(r.value) == bits
  {
    if bits < 8 then Some(StorageAccess(bits % 2 == 1, (bits / 2) % 2 == 1, (bits / 4) % 2 == 1))
    else None
  }

  lemma AccessBitsRoundTrip(a: StorageAccess)
    ensures AccessFromBits(AccessBits(a)) == Some(a)
  {
  }

  datatype ShaderBindingType =
    | UniformBuffer(size: U32)
    | StorageBuffer(size: U32, access: StorageAccess)
    | StorageTexture(access: StorageAccess)
    | Sampler(comparison: bool)
    | Texture(multisampled: bool)
    | PushConstant(size: U32)

  datatype ShaderBindingInfo = ShaderBindingInfo(binding: U32, group: U32, name: Text, ty: ShaderBindingType)

  datatype VertexInputType =
    | Uint8 | Uint8x2 | Uint8x4 | Sint8 | Sint8x2 | Sint8x4
    | Unorm8 | Unorm8x2 | Unorm8x4 | Snorm8 | Snorm8x2 | Snorm8x4
    | Uint16 | Uint16x2 | Uint16x4 | Sint16 | Sint16x2 | Sint16x4
    | Unorm16 | Unorm16x2 | Unorm16x4 | Snorm16 | Snorm16x2 | Snorm16x4
    | Float16 | Float16x2 | Float16x4
    | Uint32 | Uint32x2 | Uint32x3 | Uint32x4
    | Sint32 | Sint32x2 | Sint32x3 | Sint32x4
    | Float32 | Float32x2 | Float32x3 | Float32x4

  /** One reflected vertex attribute: (shader location, byte offset, format). */
  datatype VertexAttribute = VertexAttribute(location: U32, offset: U64, format: VertexInputType)

  datatype VertexInputReflection = VertexInputReflection(name: Text, stride: U64, attributes: seq<VertexAttribute>)

  datatype ShaderReflect =
    | Vertex(entryPoint: Text, input: Option<VertexInputReflection>, bindings: seq<ShaderBindingInfo>)
    | Fragment(entryPoint: Text, bindings: seq<ShaderBindingInfo>)
    | VertexFragment(vertexEntryPoint: Text, vertexInput: Option<VertexInputReflection>,
                     fragmentEntryPoint: Text, bindings: seq<ShaderBindingInfo>)
    | Compute(entryPoint: Text, bindings: seq<ShaderBindingInfo>)

  datatype ShaderTopology = PointList | LineList | LineStrip | TriangleList | TriangleStrip
  datatype ShaderCullMode = Front | Back
  datatype ShaderPolygonMode = Fill | Line | Point
  datatype ShaderFrontFace = Clockwise | CounterClockwise
  datatype IndexBufferSize = U16Index | U32Index

  /** Shader-stage visibility flags of a bind-group layout entry. */
  datatype ShaderStages = ShaderStages(vertex: bool, fragment: bool, compute: bool)

  const VERTEX := ShaderStages(true, false, false)
  const FRAGMENT := ShaderStages(false, true, false)
  const VERTEX_FRAGMENT := ShaderStages(true, true, false)
  const COMPUTE := ShaderStages(false, false, true)

  function StagesOr(a: ShaderStages, b: ShaderStages): ShaderStages
  {
    ShaderStages(a.vertex || b.vertex, a.fragment || b.fragment, a.compute || b.compute)
  }

  /** The binding list of a reflection, whatever its stage. */
  function BindingsOf(r: ShaderReflect): seq<ShaderBindingInfo>
  {
    r.bindings
  }
}
