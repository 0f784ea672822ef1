/**
 * The render pipeline builder of src/gpu/command/pipeline.rs: a shader
 * binding, a blend state and an attachment table, validated as they are
 * set, and `build`, which resolves the bind groups through the bind-group
 * cache and produces the pipeline descriptor a render pass later creates
 * its wgpu pipeline from. Also the descriptor itself, shared with the
 * render pass.
 */
module RenderPipelines {
  import opened Wrappers
  import opened ShaderTypes
  import opened Handles
  import opened Bindings
  import Wgpu
  import TextureTypes
  import ShaderLayouts
  import GraphicsShaders
  import BindGroups
  import Caches
  import GpuContext

  /** One colour target of a pipeline: its format, blend state and write mask. */
  datatype ColorTarget = ColorTarget(format: Wgpu.TextureFormat, blend: Option<Wgpu.BlendState>, writeMask: Option<Wgpu.ColorWrites>)

  /**
   * `GraphicsPipelineDesc`: what a wgpu render pipeline is created from.
   * The colour targets are a list, as src/gpu/command/renderpass.rs uses
   * the descriptor.
   */
  datatype PipelineDesc = PipelineDesc(
    shaders: (GraphicsShaders.ShaderModule, GraphicsShaders.ShaderModule),
    entryPoint: (Text, Text),
    targets: seq<ColorTarget>,
    depthStencil: Option<Wgpu.TextureFormat>,
    vertexAttribute: (U64, seq<VertexAttribute>),
    topology: ShaderTopology,
    frontFace: ShaderFrontFace,
    cullMode: Option<ShaderCullMode>,
    polygonMode: ShaderPolygonMode,
    layouts: seq<ShaderLayouts.GroupLayout>,
    msaaCount: U32)

  /** The descriptor of a shader binding drawn into `targets`, with a depth format and a sample count. */
  function DescOf(b: ShaderBinding, targets: seq<ColorTarget>, depth: Option<Wgpu.TextureFormat>, msaa: U32): PipelineDesc
  {
    PipelineDesc(b.shader, b.shaderEntry, targets, depth, b.vertexAttribute, b.topology, b.frontFace,
                 b.cullMode, b.polygonMode, b.layout, msaa)
  }

  /** A built pipeline: its bind groups, its descriptor and the index format draws use. */
  datatype RenderPipeline = RenderPipeline(bindGroup: seq<(U32, Handle)>, desc: PipelineDesc, indexFormat: Option<IndexBufferSize>)

  /** The one colour target `build` gives a pipeline, carrying the builder's blend state and write mask. */
  const BUILDER_TARGET_FORMAT := Wgpu.Rgba8UnormSrgb

  /** The descriptor `build` makes: one Rgba8UnormSrgb target, no depth, one sample. */
  function BuilderDesc(b: ShaderBinding, blend: Option<Wgpu.BlendState>, mask: Option<Wgpu.ColorWrites>): PipelineDesc
  {
    DescOf(b, [ColorTarget(BUILDER_TARGET_FORMAT, blend, mask)], None, 1)
  }

  /**
   * The attachment validation of the render side after its shader checks:
   * the reflection must be there (its `unwrap`), the first non-Compute
   * reflection binding at the attachment's (group, binding) must exist,
   * and its type must take the attachment's kind.
   */
  function GraphicsAttachmentCheck(reflection: Option<seq<ShaderReflect>>, a: BindGroupAttachment): (r: Result<(), PassPanic>)
    ensures reflection.None? ==> r == Err(ReflectionNotSet)
    ensures reflection.Some? && FindGraphicsBinding(reflection.value, a.group, a.binding).None? ==>
      r == Err(BindingNotFound(a.group, a.binding))
    ensures r.Ok? <==> reflection.Some? && FindGraphicsBinding(reflection.value, a.group, a.binding).Some? &&
                       KindMatches(FindGraphicsBinding(reflection.value, a.group, a.binding).value.ty, a.attachment)
    ensures r.Err? ==> r.error in {ReflectionNotSet, BindingNotFound(a.group, a.binding), AttachmentKindMismatch(a.group, a.binding)}
  {
    if reflection.None? then Err(ReflectionNotSet)
    else
      match FindGraphicsBinding(reflection.value, a.group, a.binding)
      case None => Err(BindingNotFound(a.group, a.binding))
      case Some(b) => if KindMatches(b.ty, a.attachment) then Ok(()) else Err(AttachmentKindMismatch(a.group, a.binding))
  }

  /** Binding `j` of reflection `i` is a vertex or fragment binding at the attachment's key whose type takes its kind. */
  predicate ReflectedAt(reflection: seq<ShaderReflect>, i: int, j: int, a: BindGroupAttachment)
  {
    0 <= i < |reflection| && IsGraphicsReflect(reflection[i]) && 0 <= j < |reflection[i].bindings| &&
    BindsKey(reflection[i].bindings[j], a.group, a.binding) && KindOf(a.attachment) == ExpectedKind(reflection[i].bindings[j].ty)
  }

  /** An accepted attachment sits at a binding of a vertex or fragment reflection whose type takes its kind. */
  lemma AcceptedAttachmentIsReflected(reflection: seq<ShaderReflect>, a: BindGroupAttachment)
    requires GraphicsAttachmentCheck(Some(reflection), a).Ok?
    ensures exists i, j :: ReflectedAt(reflection, i, j, a)
  {
    var b := FindGraphicsBinding(reflection, a.group, a.binding).value;
    var i :| 0 <= i < |reflection| && IsGraphicsReflect(reflection[i]) && b in reflection[i].bindings;
    var j :| 0 <= j < |reflection[i].bindings| && reflection[i].bindings[j] == b;
    assert ReflectedAt(reflection, i, j, a);
  }

  /** The insert validation of the pipeline builder: a shader first, then the reflected binding. */
  function BuilderInsertCheck(shader: Option<ShaderBinding>, reflection: Option<seq<ShaderReflect>>, a: BindGroupAttachment): (r: Result<(), PassPanic>)
    ensures shader.None? ==> r == Err(ShaderNotSet)
    ensures shader.Some? ==> r == GraphicsAttachmentCheck(reflection, a)
  {
    if shader.None? then Err(ShaderNotSet) else GraphicsAttachmentCheck(reflection, a)
  }

  /**
   * `RenderPipelineBuilder`. In the source each setter consumes and
   * returns the builder; the table is updated in place.
   */
  class RenderPipelineBuilder {
    const gpu: GpuContext.GpuInner
    var attachments: seq<BindGroupAttachment>
    var shader: Option<ShaderBinding>
    var blend: Option<Wgpu.BlendState>
    var colorWriteMask: Option<Wgpu.ColorWrites>
    var shaderReflection: Option<seq<ShaderReflect>>

    /** The table's keys are unique, and a shader and its reflection are set together. */
    ghost predicate Valid()
      reads this
    {
      UniqueKeys(attachments) && (shader.Some? <==> shaderReflection.Some?)
    }

    /** `new`: nothing set. */
    constructor (gpu: GpuContext.GpuInner)
      ensures Valid() && this.gpu == gpu
      ensures attachments == [] && shader.None? && shaderReflection.None?
      ensures blend.None? && colorWriteMask.None?
    {
      this.gpu := gpu;
      attachments := [];
      shader := None;
      blend := None;
      colorWriteMask := None;
      shaderReflection := None;
    }

    /** `set_blend`: Some sets the blend state and the write mask it converts to; None clears both. */
    method SetBlend(b: Option<TextureTypes.TextureBlend>)
      requires Valid()
      modifies this
      ensures Valid()
      ensures b.Some? ==> blend == Some(TextureTypes.BlendStateOf(b.value)) && colorWriteMask == Some(TextureTypes.ColorWriteMask(b.value))
      ensures b.None? ==> blend.None? && colorWriteMask.None?
      ensures attachments == old(attachments) && shader == old(shader) && shaderReflection == old(shaderReflection)
    {
      if b.Some? {
        blend := Some(TextureTypes.BlendStateOf(b.value));
        colorWriteMask := Some(TextureTypes.ColorWriteMask(b.value));
      } else {
        blend := None;
        colorWriteMask := None;
      }
    }

    /**
     * `set_shader_with_options` (and `set_shader`, with no options): the
     * binding `BindShader` makes, with the shader's reflection kept for
     * validation; None clears both.
     */
    method SetShader(s: Option<GraphicsShaders.GraphicsShader>, opts: ShaderOptions) returns (r: Result<(), PassPanic>)
      requires Valid()
      modifies this
      ensures Valid()
      ensures s.None? ==> r == Ok(()) && shader.None? && shaderReflection.None?
      ensures s.Some? ==>
        var bound := BindShader(s.value.ty, s.value.reflection, s.value.bindGroupLayouts, s.value.attrib, opts);
        (bound.Ok? ==> r == Ok(()) && shader == Some(bound.value) && shaderReflection == Some(s.value.reflection)) &&
        (bound.Err? ==> r == Err(bound.error) && shader == old(shader) && shaderReflection == old(shaderReflection))
      ensures attachments == old(attachments) && blend == old(blend) && colorWriteMask == old(colorWriteMask)
    {
      if s.None? {
        shader := None;
        shaderReflection := None;
        return Ok(());
      }
      var bound := BindShader(s.value.ty, s.value.reflection, s.value.bindGroupLayouts, s.value.attrib, opts);
      if bound.Err? {
        return Err(bound.error);
      }
      shader := Some(bound.value);
      shaderReflection := Some(s.value.reflection);
      return Ok(());
    }

    /**
     * The `set_attachment_*` setters: None removes the (group, binding);
     * Some validates the attachment and then inserts it or replaces the
     * entry with the same key in place.
     */
    method SetAttachment(group: U32, binding: U32, resource: Option<BindGroupType>) returns (r: Result<(), PassPanic>)
      requires Valid()
      modifies this
      ensures Valid()
      ensures resource.None? ==> r == Ok(()) && attachments == Removed(old(attachments), group, binding)
      ensures resource.Some? ==>
        var a := BindGroupAttachment(group, binding, resource.value);
        var check := BuilderInsertCheck(shader, shaderReflection, a);
        (check.Ok? ==> r == Ok(()) && attachments == InsertOrReplace(old(attachments), a)) &&
        (check.Err? ==> r == check && attachments == old(attachments))
      ensures shader == old(shader) && shaderReflection == old(shaderReflection)
      ensures blend == old(blend) && colorWriteMask == old(colorWriteMask)
    {
      if resource.None? {
        RemovedKeepsUnique(attachments, group, binding);
        attachments := Removed(attachments, group, binding);
        return Ok(());
      }
      var a := BindGroupAttachment(group, binding, resource.value);
      var check := BuilderInsertCheck(shader, shaderReflection, a);
      if check.Err? {
        return check;
      }
      InsertKeepsUnique(attachments, a);
      attachments := InsertOrReplace(attachments, a);
      return Ok(());
    }

    /**
     * `build`: the shader's `unwrap` panics without one (the error
     * variant ShaderNotSet of `RenderPipelineError` is never returned);
     * the bind groups come from the cache under `key`, or are created
     * for the table in the group order `order`; the descriptor is
     * `BuilderDesc` of the binding, blend and write mask.
     */
    method Build(key: Key, order: seq<U32>, created: seq<Handle>) returns (r: Result<RenderPipeline, PassPanic>)
      requires BindGroups.IsGroupOrder(attachments, order) && |created| == |order|
      modifies gpu.bindGroupManager
      ensures shader.None? ==> r == Err(ShaderNotSet) && unchanged(gpu.bindGroupManager)
      ensures shader.Some? && gpu.isInvalid ==> r == Err(InvalidContext)
      ensures r.Ok? ==> shader.Some? && r.value.indexFormat == shader.value.indexFormat &&
                        r.value.desc == BuilderDesc(shader.value, blend, colorWriteMask)
      ensures r.Ok? ==> key in gpu.bindGroupManager.bindGroups && gpu.bindGroupManager.bindGroups[key] == (r.value.bindGroup, 0)
      ensures shader.Some? && !gpu.isInvalid && key in old(gpu.bindGroupManager.bindGroups) ==>
        r.Ok? && r.value.bindGroup == old(gpu.bindGroupManager.bindGroups)[key].0
      ensures shader.Some? && !gpu.isInvalid && key !in old(gpu.bindGroupManager.bindGroups) ==>
        var made := BindGroups.CreatedBindGroups(attachments, shader.value.layout, order, created, false);
        (r.Ok? <==> made.Ok?) && (r.Ok? ==> r.value.bindGroup == made.value) && (made.Err? ==> r == Err(made.error))
    {
      if shader.None? {
        return Err(ShaderNotSet);
      }
      var s := shader.value;
      var groups := BindGroups.ResolveBindGroups(gpu, key, attachments, s.layout, order, created, false);
      if groups.Err? {
        return Err(groups.error);
      }
      return Ok(RenderPipeline(groups.value, BuilderDesc(s, blend, colorWriteMask), s.indexFormat));
    }
  }

  /** The descriptor `build` makes has one sRGB target carrying the builder's blend, no depth and one sample. */
  lemma BuilderDescDefaults(b: ShaderBinding, blend: Option<Wgpu.BlendState>, mask: Option<Wgpu.ColorWrites>)
    ensures var d := BuilderDesc(b, blend, mask);
      d.msaaCount == 1 && d.depthStencil.None? && |d.targets| == 1 &&
      d.targets[0].format == Wgpu.Rgba8UnormSrgb && Wgpu.IsSrgb(d.targets[0].format) &&
      d.targets[0].blend == blend && d.targets[0].writeMask == mask
    ensures BuilderDesc(b, blend, mask).layouts == b.layout && BuilderDesc(b, blend, mask).entryPoint == b.shaderEntry
  {
  }
}
