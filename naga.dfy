/**
 * The parts of a naga shader module that shader reflection reads
 * (global variables, types and entry points). naga itself, which turns
 * WGSL text into such a module, is not part of this model: a module is
 * an input. Types are written inline instead of through naga's type
 * arena, and each type keeps the index of its arena handle, which the
 * reflection uses to name unnamed things.
 */
module Naga {
  import opened Wrappers
  import opened ShaderTypes

  datatype ScalarKind = Sint | Uint | Float | Bool | AbstractInt | AbstractFloat

  datatype VectorSize = Bi | Tri | Quad

  /** `ArraySize`: a constant element count, an override not yet resolved, or runtime-sized. */
  datatype ArraySize = Constant(count: U32) | Pending | Dynamic

  datatype ImageClass = Sampled(multi: bool) | Depth(multi: bool) | StorageImage

  /** A type of the module's arena: its handle index, its optional name and its shape. */
  datatype Type = Type(handle: nat, name: Option<Text>, inner: TypeInner)

  datatype TypeInner =
    | Scalar(kind: ScalarKind)
    | Vector(size: VectorSize, kind: ScalarKind)
    | Matrix(columns: VectorSize, rows: VectorSize, kind: ScalarKind)
    | Array(arraySize: ArraySize, stride: U32)
    | Struct(members: seq<StructMember>)
    | Image(imageClass: ImageClass)
    | Sampler(comparison: bool)
    | OtherType

  /**
   * A struct member: its optional name, its type and the location of its
   * `@location` binding (None for a built-in or for no binding at all).
   */
  datatype StructMember = StructMember(name: Option<Text>, ty: Type, location: Option<U32>)

  /** naga's `StorageAccess` of a storage-space variable: LOAD, STORE, ATOMIC. */
  datatype AddressSpace =
    | FunctionSpace
    | Private
    | WorkGroup
    | Uniform
    | Storage(load: bool, store: bool, atomic: bool)
    | Handle
    | PushConstantSpace

  datatype ResourceBinding = ResourceBinding(group: U32, binding: U32)

  datatype GlobalVariable = GlobalVariable(
    handle: nat,
    name: Option<Text>,
    space: AddressSpace,
    binding: Option<ResourceBinding>,
    ty: Type)

  datatype ShaderStage = VertexStage | FragmentStage | ComputeStage | TaskStage | MeshStage

  /** An entry point: its name, its stage and the types of its arguments. */
  datatype EntryPoint = EntryPoint(name: Text, stage: ShaderStage, arguments: seq<Type>)

  datatype Module = Module(globals: seq<GlobalVariable>, entryPoints: seq<EntryPoint>)
}
