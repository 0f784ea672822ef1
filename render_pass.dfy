/**
 * The render pass of src/gpu/command/renderpass.rs. A pass holds its colour
 * targets, optional MSAA and depth targets, the state draws are recorded
 * with (viewport, scissor, buffers, shader or pipeline, attachment table,
 * push constants) and the queue of recorded draws. Each draw resolves its
 * bind groups and its wgpu pipeline through the context's caches
 * (`prepare_pipeline`) and is queued; `end` turns the targets into colour
 * attachments and replays the queue into wgpu render-pass commands.
 *
 * The hash keys of the caches, the group order of the bind-group fold and
 * the objects the device creates on a cache miss are parameters (`DrawKeys`).
 * Textures enter the pass as `TextureInfo`, the fields of a texture the
 * pass reads together with its view.
 */
module RenderPasses {
  import opened Wrappers
  import opened ShaderTypes
  import opened Handles
  import opened Layout
  import opened Bindings
  import Wgpu
  import TextureTypes
  import Geometry
  import GraphicsShaders
  import BindGroups
  import Buffers
  import Caches
  import GpuContext
  import Surfaces
  import RenderPipelines

  // ---------------------------------------------------------------------
  // Values a pass works with
  // ---------------------------------------------------------------------

  /** What the pass reads of a texture: its view, format, size (width, height), usages and sample count. */
  datatype TextureInfo = TextureInfo(
    view: Handle,
    format: TextureTypes.TextureFormat,
    size: Geometry.Point2,
    usages: TextureTypes.TextureUsage,
    sampleCount: TextureTypes.SampleCount)

  /** `RenderpassRenderTarget`: a colour target's view, format, blend state and write mask. */
  datatype RenderTarget = RenderTarget(view: Handle, format: Wgpu.TextureFormat, blend: Option<Wgpu.BlendState>, writeMask: Option<Wgpu.ColorWrites>)

  /** `RectF`; the f32 fields are reals. */
  datatype RectF = RectF(x: real, y: real, w: real, h: real)

  /** A viewport: its rectangle and depth range. */
  datatype Viewport = Viewport(rect: RectF, minDepth: real, maxDepth: real)

  /** `Color`, as the clear colour. */
  datatype Color = Color(r: real, g: real, b: real, a: real)

  const BLACK := Color(0.0, 0.0, 0.0, 1.0)

  /** A rectangle wgpu can draw into: both sides positive. */
  predicate Visible(r: RectF)
  {
    r.w > 0.0 && r.h > 0.0
  }

  /** A draw is recorded and replayed only when the viewport and the scissor that are set are visible. */
  predicate Drawable(viewport: Option<Viewport>, scissor: Option<RectF>)
  {
    (viewport.None? || Visible(viewport.value.rect)) && (scissor.None? || Visible(scissor.value))
  }

  /** `RenderShaderBinding`: a shader bound in intermediate mode, or a built pipeline. */
  datatype RenderShader = Intermediate(binding: ShaderBinding) | PipelineBound(pipeline: RenderPipelines.RenderPipeline)

  function IndexFormatOf(s: RenderShader): Option<IndexBufferSize>
  {
    match s
    case Intermediate(b) => b.indexFormat
    case PipelineBound(p) => p.indexFormat
  }

  /** `DrawCallType`: a direct draw of a vertex or index range, or an indirect draw from a buffer. */
  datatype DrawCall =
    | Direct(first: U32, end: U32, vertexOffset: I32, instances: U32)
    | Indirect(buffer: Handle, offset: U64)

  /** `RenderPassQueue`: one recorded draw and the state it was recorded with. */
  datatype QueueEntry = QueueEntry(
    pipeline: Handle,
    bindGroup: seq<(U32, Handle)>,
    vbo: Option<Handle>,
    ibo: Option<Handle>,
    itype: Option<IndexBufferSize>,
    viewport: Option<Viewport>,
    scissor: Option<RectF>,
    call: DrawCall,
    pushConstant: Option<seq<Byte>>)

  /** What every recorded draw satisfies: a vertex buffer, an index format exactly with an index buffer, and a direct draw only when drawable. */
  predicate WellFormed(e: QueueEntry)
  {
    e.vbo.Some? && (e.ibo.Some? <==> e.itype.Some?) && (e.call.Direct? ==> Drawable(e.viewport, e.scissor))
  }

  /**
   * The inputs of one draw the source computes or receives from outside:
   * the hash key of the attachment table, the iteration order of the
   * bind-group fold and the bind groups a miss creates, the hash key of the
   * pipeline and the pipeline a miss creates.
   */
  datatype DrawKeys = DrawKeys(bindGroupKey: Key, groupOrder: seq<U32>, createdGroups: seq<Handle>,
                               pipelineKey: Key, createdPipeline: Handle)

  /** The group order fits the table whenever the bind groups are built from it (intermediate mode). */
  predicate KeysFit(shader: Option<RenderShader>, atts: seq<BindGroupAttachment>, keys: DrawKeys)
  {
    shader.Some? && shader.value.Intermediate? ==>
      BindGroups.IsGroupOrder(atts, keys.groupOrder) && |keys.createdGroups| == |keys.groupOrder|
  }

  // ---------------------------------------------------------------------
  // Preparing the pipeline of a draw
  // ---------------------------------------------------------------------

  /** The bind-group cache and the graphics-pipeline cache of the context. */
  datatype CacheState = CacheState(bindGroups: Caches.Aging<seq<(U32, Handle)>>, pipelines: Caches.Aging<Handle>)

  /** What `prepare_pipeline` yields: the pipeline, the bind groups by group, and the index format. */
  datatype Prepared = Prepared(pipeline: Handle, bindGroup: seq<(U32, Handle)>, indexFormat: Option<IndexBufferSize>)

  /** The pipeline under the pipeline key: the cached one, its age reset, or the created one, stored. */
  function CachedPipeline(pipelines: Caches.Aging<Handle>, keys: DrawKeys): (r: (Handle, Caches.Aging<Handle>))
    ensures keys.pipelineKey in r.1 && r.1[keys.pipelineKey] == (r.0, 0)
    ensures keys.pipelineKey in pipelines ==> r.0 == pipelines[keys.pipelineKey].0
    ensures keys.pipelineKey !in pipelines ==> r.0 == keys.createdPipeline
    ensures r.1.Keys == pipelines.Keys + {keys.pipelineKey}
  {
    if keys.pipelineKey in pipelines then (pipelines[keys.pipelineKey].0, Caches.Touched(pipelines, keys.pipelineKey))
    else (keys.createdPipeline, Caches.Stored(pipelines, keys.pipelineKey, keys.createdPipeline))
  }

  /**
   * The bind groups of a draw: a pipeline's own; in intermediate mode the
   * cached list under the table's key, or the groups created for the table
   * (or the missing-layout panic).
   */
  function DrawBindGroups(s: RenderShader, atts: seq<BindGroupAttachment>, groups: Caches.Aging<seq<(U32, Handle)>>,
                          keys: DrawKeys): (r: (Result<seq<(U32, Handle)>, PassPanic>, Caches.Aging<seq<(U32, Handle)>>))
    requires KeysFit(Some(s), atts, keys)
    ensures r.0.Err? ==> r.1 == groups && s.Intermediate? && r.0.error.LayoutMissing?
    ensures r.0.Ok? && s.Intermediate? ==> keys.bindGroupKey in r.1 && r.1[keys.bindGroupKey] == (r.0.value, 0)
    ensures s.PipelineBound? ==> r == (Ok(s.pipeline.bindGroup), groups)
  {
    match s
    case PipelineBound(p) => (Ok(p.bindGroup), groups)
    case Intermediate(b) =>
      if keys.bindGroupKey in groups then (Ok(groups[keys.bindGroupKey].0), Caches.Touched(groups, keys.bindGroupKey))
      else
        var made := BindGroups.CreatedBindGroups(atts, b.layout, keys.groupOrder, keys.createdGroups, false);
        if made.Err? then
          assert !made.Ok?;
          (Err(made.error), groups)
        else (Ok(made.value), Caches.Stored(groups, keys.bindGroupKey, made.value))
  }

  /**
   * `prepare_pipeline` on the caches `c`: ShaderNotSet without a shader,
   * InvalidContext on an invalid context, the missing-layout panic of a
   * bind-group miss; otherwise the pipeline and bind groups are fetched or
   * created and cached, and the shader's index format comes with them. A
   * failure leaves the caches as they were.
   */
  function Prepare(shader: Option<RenderShader>, atts: seq<BindGroupAttachment>, invalid: bool, c: CacheState,
                   keys: DrawKeys): (r: (Result<Prepared, PassPanic>, CacheState))
    requires KeysFit(shader, atts, keys)
    ensures shader.None? ==> r.0 == Err(ShaderNotSet)
    ensures shader.Some? && invalid ==> r.0 == Err(InvalidContext)
    ensures shader.Some? && !invalid && shader.value.PipelineBound? ==> r.0.Ok?
    ensures r.0.Err? ==> r.1 == c
    ensures r.0.Ok? ==> shader.Some? && !invalid && r.0.value.indexFormat == IndexFormatOf(shader.value)
    ensures r.0.Ok? ==> keys.pipelineKey in r.1.pipelines && r.1.pipelines[keys.pipelineKey] == (r.0.value.pipeline, 0)
    ensures r.0.Ok? && shader.value.Intermediate? ==>
      keys.bindGroupKey in r.1.bindGroups && r.1.bindGroups[keys.bindGroupKey] == (r.0.value.bindGroup, 0)
    ensures r.0.Ok? && shader.value.PipelineBound? ==>
      r.0.value.bindGroup == shader.value.pipeline.bindGroup && r.1.bindGroups == c.bindGroups
  {
    match shader
    case None => (Err(ShaderNotSet), c)
    case Some(s) =>
      if invalid then (Err(InvalidContext), c)
      else
        var groups := DrawBindGroups(s, atts, c.bindGroups, keys);
        if groups.0.Err? then (Err(groups.0.error), c)
        else
          var pipeline := CachedPipeline(c.pipelines, keys);
          (Ok(Prepared(pipeline.0, groups.0.value, IndexFormatOf(s))), CacheState(groups.1, pipeline.1))
  }

  /**
   * Caching: once a draw has prepared its pipeline, a later draw with the
   * same keys and the same pass state gets the same pipeline and bind
   * groups back, whatever the device would create for it.
   */
  lemma PrepareReusesCache(shader: Option<RenderShader>, atts: seq<BindGroupAttachment>, invalid: bool, c: CacheState,
                           keys: DrawKeys, later: DrawKeys)
    requires KeysFit(shader, atts, keys) && KeysFit(shader, atts, later)
    requires later.bindGroupKey == keys.bindGroupKey && later.pipelineKey == keys.pipelineKey
    requires Prepare(shader, atts, invalid, c, keys).0.Ok?
    ensures Prepare(shader, atts, invalid, Prepare(shader, atts, invalid, c, keys).1, later).0 == Prepare(shader, atts, invalid, c, keys).0
  {
    var first := Prepare(shader, atts, invalid, c, keys);
    var c1 := first.1;
    var s := shader.value;
    assert DrawBindGroups(s, atts, c1.bindGroups, later).0 == Ok(first.0.value.bindGroup);
    assert CachedPipeline(c1.pipelines, later).0 == first.0.value.pipeline;
  }

  /**
   * The descriptor a cache miss creates the wgpu pipeline from: the
   * binding's descriptor over the pass's targets in intermediate mode; a
   * built pipeline's descriptor with the pass's targets appended to its own
   * in pipeline mode; in both, the pass's depth format and its sample count
   * (1 without MSAA).
   */
  function PassPipelineDesc(s: RenderShader, targets: seq<RenderTarget>, depth: Option<Wgpu.TextureFormat>,
                            msaa: Option<U32>): (r: RenderPipelines.PipelineDesc)
    ensures r.depthStencil == depth && r.msaaCount == (if msaa.Some? then msaa.value else 1)
    ensures s.Intermediate? ==> |r.targets| == |targets|
    ensures s.PipelineBound? ==> |r.targets| == |s.pipeline.desc.targets| + |targets|
    ensures forall i :: 0 <= i < |targets| ==>
      r.targets[|r.targets| - |targets| + i] == RenderPipelines.ColorTarget(targets[i].format, targets[i].blend, targets[i].writeMask)
  {
    var count := if msaa.Some? then msaa.value else 1;
    var own := seq(|targets|, i requires 0 <= i < |targets| =>
      RenderPipelines.ColorTarget(targets[i].format, targets[i].blend, targets[i].writeMask));
    match s
    case Intermediate(b) => RenderPipelines.DescOf(b, own, depth, count)
    case PipelineBound(p) => p.desc.(targets := p.desc.targets + own, depthStencil := depth, msaaCount := count)
  }

  /**
   * A pipeline from the pipeline builder keeps the builder's one sRGB
   * target in front of the pass's targets, so its descriptor has one more
   * colour target than the pass has colour attachments, where the same
   * binding in intermediate mode has exactly the pass's.
   */
  lemma {:induction false} BuiltPipelineHasExtraTarget(b: ShaderBinding, blend: Option<Wgpu.BlendState>, mask: Option<Wgpu.ColorWrites>,
                                                       groups: seq<(U32, Handle)>, targets: seq<RenderTarget>,
                                                       depth: Option<Wgpu.TextureFormat>, msaa: Option<U32>)
    ensures var built := PassPipelineDesc(PipelineBound(RenderPipelines.RenderPipeline(groups, RenderPipelines.BuilderDesc(b, blend, mask), b.indexFormat)),
                                          targets, depth, msaa);
            var direct := PassPipelineDesc(Intermediate(b), targets, depth, msaa);
            |built.targets| == |targets| + 1 == |direct.targets| + 1 &&
            built.targets[0] == RenderPipelines.ColorTarget(RenderPipelines.BUILDER_TARGET_FORMAT, blend, mask) &&
            built.targets[1..] == direct.targets && built == direct.(targets := built.targets)
  {
    var built := PassPipelineDesc(PipelineBound(RenderPipelines.RenderPipeline(groups, RenderPipelines.BuilderDesc(b, blend, mask), b.indexFormat)),
                                  targets, depth, msaa);
    var direct := PassPipelineDesc(Intermediate(b), targets, depth, msaa);
    assert built.targets[1..] == direct.targets by {
      forall i | 0 <= i < |targets|
        ensures built.targets[1..][i] == direct.targets[i]
      {
        assert built.targets[1..][i] == built.targets[|built.targets| - |targets| + i];
      }
    }
  }

  // ---------------------------------------------------------------------
  // Setter checks
  // ---------------------------------------------------------------------

  /** A colour target after `set_blend`: Some sets the blend state and the mask it converts to; None clears the blend and writes colour only. */
  function Blended(t: RenderTarget, b: Option<TextureTypes.TextureBlend>): (r: RenderTarget)
    ensures r.view == t.view && r.format == t.format
    ensures b.Some? ==> r.blend == Some(TextureTypes.BlendStateOf(b.value)) && r.writeMask == Some(TextureTypes.ColorWriteMask(b.value))
    ensures b.None? ==> r.blend.None? && r.writeMask == Some(Wgpu.COLOR_WRITES_COLOR)
  {
    if b.Some? then t.(blend := Some(TextureTypes.BlendStateOf(b.value)), writeMask := Some(TextureTypes.ColorWriteMask(b.value)))
    else t.(blend := None, writeMask := Some(Wgpu.COLOR_WRITES_COLOR))
  }

  /**
   * `get_blend` after `set_blend`: a blend set on a target reads back as
   * one with the same wgpu blend state and the same write mask; a cleared
   * one reads back writing colour only.
   */
  lemma SetThenGetBlend(t: RenderTarget, b: Option<TextureTypes.TextureBlend>)
    ensures var s := Blended(t, b); TextureTypes.BlendFromWgpu(s.blend, s.writeMask).Some?
    ensures var s := Blended(t, b); var g := TextureTypes.BlendFromWgpu(s.blend, s.writeMask).value;
      TextureTypes.ColorWriteMask(g) == (if b.Some? then TextureTypes.ColorWriteMask(b.value) else Wgpu.COLOR_WRITES_COLOR)
    ensures b.Some? ==> var s := Blended(t, b);
      TextureTypes.BlendStateOf(TextureTypes.BlendFromWgpu(s.blend, s.writeMask).value) == TextureTypes.BlendStateOf(b.value)
  {
    var s := Blended(t, b);
    if b.Some? {
      var v := b.value;
      TextureTypes.FactorRoundTrip(v.colorSrcFactor);
      TextureTypes.FactorRoundTrip(v.colorDstFactor);
      TextureTypes.FactorRoundTrip(v.alphaSrcFactor);
      TextureTypes.FactorRoundTrip(v.alphaDstFactor);
      TextureTypes.BlendStateRoundTrip(s.blend.value, s.writeMask);
    }
    TextureTypes.WriteMaskRoundTrip(s.blend, s.writeMask);
  }

  /** The depth formats `set_depth_texture` takes. */
  predicate PassDepthFormat(f: Wgpu.TextureFormat)
  {
    f == Wgpu.Depth32Float || f == Wgpu.Depth24Plus || f == Wgpu.Depth24PlusStencil8
  }

  /**
   * The checks of `set_depth_texture`, in order: render-attachment usage, a
   * depth format, one sample, a non-zero size, and the colour targets' size.
   */
  function DepthCheck(t: TextureInfo, surfaceSize: Geometry.Point2): (r: Result<(), PassPanic>)
    ensures r.Ok? <==> t.usages.renderAttachment && PassDepthFormat(TextureTypes.FormatToWgpu(t.format)) &&
                       t.sampleCount == TextureTypes.SampleCount1 && t.size.x != 0 && t.size.y != 0 && t.size == surfaceSize
    ensures !t.usages.renderAttachment ==> r == Err(DepthNotRenderAttachment)
    ensures t.usages.renderAttachment && !PassDepthFormat(TextureTypes.FormatToWgpu(t.format)) ==> r == Err(DepthFormatNotDepth)
    ensures r.Err? ==> r.error in {DepthNotRenderAttachment, DepthFormatNotDepth, DepthMultiSampled, DepthZeroSize, DepthSizeMismatch}
  {
    if !t.usages.renderAttachment then Err(DepthNotRenderAttachment)
    else if !PassDepthFormat(TextureTypes.FormatToWgpu(t.format)) then Err(DepthFormatNotDepth)
    else if t.sampleCount != TextureTypes.SampleCount1 then Err(DepthMultiSampled)
    else if t.size.x == 0 || t.size.y == 0 then Err(DepthZeroSize)
    else if t.size != surfaceSize then Err(DepthSizeMismatch)
    else Ok(())
  }

  /** Two depth formats of the crate are refused although they are depth formats. */
  lemma DepthFormatsRefused(t: TextureInfo, surfaceSize: Geometry.Point2)
    requires t.format == TextureTypes.Depth16Unorm || t.format == TextureTypes.Depth32FloatStencil8
    ensures TextureTypes.IsDepthStencil(t.format)
    ensures DepthCheck(t, surfaceSize).Err?
  {
  }

  /** `set_push_constants`: a shader, its reflection, and at most the reflected push-constant size. */
  function PushConstantCheck(shader: Option<RenderShader>, reflection: Option<seq<ShaderReflect>>, len: nat): (r: Result<(), PassPanic>)
    ensures shader.None? ==> r == Err(ShaderNotSet)
    ensures shader.Some? && reflection.None? ==> r == Err(ReflectionNotSet)
    ensures r.Ok? <==> shader.Some? && reflection.Some? && len <= GraphicsPushConstantSize(reflection.value)
    ensures r.Err? ==> r.error in {ShaderNotSet, ReflectionNotSet, PushConstantTooLarge}
  {
    if shader.None? then Err(ShaderNotSet)
    else if reflection.None? then Err(ReflectionNotSet)
    else if len > GraphicsPushConstantSize(reflection.value) then Err(PushConstantTooLarge)
    else Ok(())
  }

  /** The stored push constants: the data and then zeros up to the next multiple of 4. */
  lemma PushConstantPadding(data: seq<Byte>)
    ensures var p := Buffers.Padded(data);
      |p| % 4 == 0 && |data| <= |p| < |data| + 4 && p[..|data|] == data && forall i :: |data| <= i < |p| ==> p[i] == 0
  {
  }

  /** `insert_or_replace_attachment`'s checks: a shader, not a pipeline, then the reflected binding. */
  function PassAttachCheck(shader: Option<RenderShader>, reflection: Option<seq<ShaderReflect>>, a: BindGroupAttachment): (r: Result<(), PassPanic>)
    ensures shader.None? ==> r == Err(ShaderNotSet)
    ensures shader.Some? && shader.value.PipelineBound? ==> r == Err(PipelineShaderSet)
    ensures shader.Some? && shader.value.Intermediate? ==> r == RenderPipelines.GraphicsAttachmentCheck(reflection, a)
  {
    if shader.None? then Err(ShaderNotSet)
    else if shader.value.PipelineBound? then Err(PipelineShaderSet)
    else RenderPipelines.GraphicsAttachmentCheck(reflection, a)
  }

  /** The indirect-draw usage check as written: it refuses exactly the buffers that have INDIRECT usage. */
  function IndirectCheckAsWritten(usage: Buffers.BufferUsage): (r: Result<(), PassPanic>)
    ensures r.Err? <==> Buffers.Contains(usage, Buffers.INDIRECT)
    ensures r.Err? ==> r.error == IndirectUsage
  {
    if Buffers.Contains(usage, Buffers.INDIRECT) then Err(IndirectUsage) else Ok(())
  }

  /** The check the panic message states: the buffer must have INDIRECT usage. */
  function IndirectCheck(usage: Buffers.BufferUsage): (r: Result<(), PassPanic>)
    ensures r.Ok? <==> Buffers.Contains(usage, Buffers.INDIRECT)
    ensures r.Err? ==> r.error == NotIndirectBuffer
  {
    if Buffers.Contains(usage, Buffers.INDIRECT) then Ok(()) else Err(NotIndirectBuffer)
  }

  /**
   * The check as written is the exact opposite of the intended one: an
   * INDIRECT buffer is refused and a vertex-only buffer, which wgpu cannot
   * draw indirectly from, is let through.
   */
  lemma IndirectCheckInverted(usage: Buffers.BufferUsage)
    ensures IndirectCheckAsWritten(usage).Ok? <==> IndirectCheck(usage).Err?
    ensures IndirectCheckAsWritten(Buffers.INDIRECT).Err? && IndirectCheck(Buffers.INDIRECT).Ok?
    ensures IndirectCheckAsWritten(Buffers.VERTEX).Ok? && IndirectCheck(Buffers.VERTEX).Err?
  {
  }

  // ---------------------------------------------------------------------
  // What `end` records
  // ---------------------------------------------------------------------

  /** The load operation of every colour attachment. */
  datatype LoadOp = Load | Clear(color: Color)

  /** The clear colour (black by default) is cleared to, unless its alpha is not positive, when the target is loaded. */
  function LoadOpOf(clear: Option<Color>): (r: LoadOp)
    ensures r.Load? <==> clear.Some? && clear.value.a <= 0.0
    ensures clear.None? ==> r == Clear(BLACK)
    ensures r.Clear? ==> r.color.a > 0.0 && (clear.Some? ==> r.color == clear.value)
  {
    var c := if clear.Some? then clear.value else BLACK;
    if c.a <= 0.0 then Load else Clear(c)
  }

  /** A colour attachment: the view drawn into and the view it resolves to. */
  datatype ColorAttachment = ColorAttachment(view: Handle, resolveTarget: Option<Handle>)

  /** The wgpu render-pass commands the replay issues. */
  datatype PassCommand =
    | SetPipeline(pipeline: Handle)
    | SetBindGroup(group: U32, bindGroup: Handle)
    | SetVertexBuffer(buffer: Handle)
    | SetPushConstants(data: seq<Byte>)
    | SetScissorRect(rect: RectF)
    | SetViewport(viewport: Viewport)
    | SetIndexBuffer(buffer: Handle, format: IndexBufferSize)
    | DrawCommand(call: DrawCall, indexed: bool)

  /** What `end` hands to wgpu: the colour and depth attachments, the load operation and the commands. */
  datatype PassRecording = PassRecording(colors: seq<ColorAttachment>, depth: Option<Handle>, load: LoadOp, commands: seq<PassCommand>)

  function BindCommands(groups: seq<(U32, Handle)>): (r: seq<PassCommand>)
    ensures |r| == |groups| && forall i :: 0 <= i < |groups| ==> r[i] == SetBindGroup(groups[i].0, groups[i].1)
  {
    seq(|groups|, i requires 0 <= i < |groups| => SetBindGroup(groups[i].0, groups[i].1))
  }

  /** The commands every recorded entry issues: its pipeline, its bind groups, its vertex buffer and its push constants. */
  function Setup(e: QueueEntry): seq<PassCommand>
  {
    [SetPipeline(e.pipeline)] + BindCommands(e.bindGroup) +
    (if e.vbo.Some? then [SetVertexBuffer(e.vbo.value)] else []) +
    (if e.pushConstant.Some? then [SetPushConstants(e.pushConstant.value)] else [])
  }

  /** The scissor command of an entry whose scissor is set and visible. */
  function Clipped(e: QueueEntry): seq<PassCommand>
  {
    Setup(e) + (if e.scissor.Some? then [SetScissorRect(e.scissor.value)] else [])
  }

  /**
   * The replay of one entry: after its setup, an invisible scissor and then
   * an invisible viewport skip the rest; otherwise the scissor, the
   * viewport, the index buffer of an indexed entry and the draw.
   */
  function EntryCommands(e: QueueEntry): (r: seq<PassCommand>)
    requires e.ibo.Some? ==> e.itype.Some?
  {
    if e.scissor.Some? && !Visible(e.scissor.value) then Setup(e)
    else if e.viewport.Some? && !Visible(e.viewport.value.rect) then Clipped(e)
    else
      Clipped(e) + (if e.viewport.Some? then [SetViewport(e.viewport.value)] else []) +
      (if e.ibo.Some? then [SetIndexBuffer(e.ibo.value, e.itype.value)] else []) +
      [DrawCommand(e.call, e.ibo.Some?)]
  }

  predicate Indexable(qs: seq<QueueEntry>)
  {
    forall i :: 0 <= i < |qs| ==> (qs[i].ibo.Some? ==> qs[i].itype.Some?)
  }

  /** The replay of the first `n` entries of the queue, in order. */
  function Replay(qs: seq<QueueEntry>, n: nat): seq<PassCommand>
    requires n <= |qs| && Indexable(qs)
  {
    if n == 0 then [] else Replay(qs, n - 1) + EntryCommands(qs[n - 1])
  }

  /** The draws of a command list, in order, with whether each is indexed. */
  function Draws(cmds: seq<PassCommand>): seq<(DrawCall, bool)>
  {
    if |cmds| == 0 then []
    else
      var last := cmds[|cmds| - 1];
      Draws(cmds[..|cmds| - 1]) + (if last.DrawCommand? then [(last.call, last.indexed)] else [])
  }

  /** The draws of the entries among the first `n` whose viewport and scissor are visible. */
  function DrawnCalls(qs: seq<QueueEntry>, n: nat): seq<(DrawCall, bool)>
    requires n <= |qs|
  {
    if n == 0 then []
    else DrawnCalls(qs, n - 1) + (if Drawable(qs[n - 1].viewport, qs[n - 1].scissor) then [(qs[n - 1].call, qs[n - 1].ibo.Some?)] else [])
  }

  lemma {:induction false} DrawsAppend(a: seq<PassCommand>, b: seq<PassCommand>)
    ensures Draws(a + b) == Draws(a) + Draws(b)
    decreases |b|
  {
    if |b| == 0 {
      assert a + b == a;
    } else {
      var b' := b[..|b| - 1];
      assert (a + b)[..|a + b| - 1] == a + b';
      DrawsAppend(a, b');
    }
  }

  /** Commands with no draw among them. */
  predicate NoDraws(cmds: seq<PassCommand>)
  {
    forall i :: 0 <= i < |cmds| ==> !cmds[i].DrawCommand?
  }

  lemma {:induction false} NoDrawsHasNone(cmds: seq<PassCommand>)
    requires NoDraws(cmds)
    ensures Draws(cmds) == []
    decreases |cmds|
  {
    if |cmds| > 0 {
      NoDrawsHasNone(cmds[..|cmds| - 1]);
    }
  }

  lemma SetupHasNoDraws(e: QueueEntry)
    ensures NoDraws(Setup(e)) && NoDraws(Clipped(e))
  {
  }

  lemma SingleDraw(c: PassCommand)
    ensures Draws([c]) == if c.DrawCommand? then [(c.call, c.indexed)] else []
  {
    assert [c][..0] == [];
  }

  /** One entry issues its draw exactly when it is drawable. */
  lemma EntryDraws(e: QueueEntry)
    requires e.ibo.Some? ==> e.itype.Some?
    ensures Draws(EntryCommands(e)) == if Drawable(e.viewport, e.scissor) then [(e.call, e.ibo.Some?)] else []
  {
    SetupHasNoDraws(e);
    if e.scissor.Some? && !Visible(e.scissor.value) {
      NoDrawsHasNone(Setup(e));
    } else if e.viewport.Some? && !Visible(e.viewport.value.rect) {
      NoDrawsHasNone(Clipped(e));
    } else {
      var pre := Clipped(e) + (if e.viewport.Some? then [SetViewport(e.viewport.value)] else []) +
        (if e.ibo.Some? then [SetIndexBuffer(e.ibo.value, e.itype.value)] else []);
      var d := DrawCommand(e.call, e.ibo.Some?);
      assert EntryCommands(e) == pre + [d];
      assert NoDraws(pre);
      NoDrawsHasNone(pre);
      DrawsAppend(pre, [d]);
      SingleDraw(d);
    }
  }

  lemma DrawsConcat(a: seq<PassCommand>, b: seq<PassCommand>, x: seq<(DrawCall, bool)>, y: seq<(DrawCall, bool)>)
    requires Draws(a) == x && Draws(b) == y
    ensures Draws(a + b) == x + y
  {
    DrawsAppend(a, b);
  }

  /** The replay issues, in queue order, the draw of every drawable entry and no other draw. */
  lemma {:induction false} ReplayDraws(qs: seq<QueueEntry>, n: nat)
    requires n <= |qs| && Indexable(qs)
    ensures Draws(Replay(qs, n)) == DrawnCalls(qs, n)
  {
    if n > 0 {
      var e := qs[n - 1];
      var last := if Drawable(e.viewport, e.scissor) then [(e.call, e.ibo.Some?)] else [];
      ReplayDraws(qs, n - 1);
      EntryDraws(e);
      DrawsConcat(Replay(qs, n - 1), EntryCommands(e), DrawnCalls(qs, n - 1), last);
    }
  }

  /** Every direct draw the pass recorded is replayed: with only direct draws the replay draws the whole queue. */
  lemma {:induction false} DirectDrawsAllReplayed(qs: seq<QueueEntry>, n: nat)
    requires n <= |qs| && forall i :: 0 <= i < |qs| ==> WellFormed(qs[i]) && qs[i].call.Direct?
    ensures |DrawnCalls(qs, n)| == n
    ensures forall i :: 0 <= i < n ==> DrawnCalls(qs, n)[i] == (qs[i].call, qs[i].ibo.Some?)
  {
    if n > 0 {
      DirectDrawsAllReplayed(qs, n - 1);
    }
  }

  /**
   * One turn of the replay loop: the pipeline, each bind group, the vertex
   * buffer and the push constants; an invisible scissor, then an invisible
   * viewport, skips the rest (`continue`); then the scissor, the viewport,
   * the index buffer of an indexed entry and the draw.
   */
  method ReplayEntry(q: QueueEntry) returns (cmds: seq<PassCommand>)
    requires q.ibo.Some? ==> q.itype.Some?
    ensures cmds == EntryCommands(q)
  {
    cmds := [SetPipeline(q.pipeline)];
    for j := 0 to |q.bindGroup|
      invariant cmds == [SetPipeline(q.pipeline)] + BindCommands(q.bindGroup[..j])
    {
      assert BindCommands(q.bindGroup[..j + 1]) == BindCommands(q.bindGroup[..j]) + [SetBindGroup(q.bindGroup[j].0, q.bindGroup[j].1)];
      cmds := cmds + [SetBindGroup(q.bindGroup[j].0, q.bindGroup[j].1)];
    }
    assert q.bindGroup[..|q.bindGroup|] == q.bindGroup;
    if q.vbo.Some? {
      cmds := cmds + [SetVertexBuffer(q.vbo.value)];
    }
    if q.pushConstant.Some? {
      cmds := cmds + [SetPushConstants(q.pushConstant.value)];
    }
    assert cmds == Setup(q);
    if q.scissor.Some? {
      if !Visible(q.scissor.value) {
        return;
      }
      cmds := cmds + [SetScissorRect(q.scissor.value)];
    }
    assert cmds == Clipped(q);
    if q.viewport.Some? {
      if !Visible(q.viewport.value.rect) {
        return;
      }
      cmds := cmds + [SetViewport(q.viewport.value)];
    }
    if q.ibo.Some? {
      cmds := cmds + [SetIndexBuffer(q.ibo.value, q.itype.value)];
    }
    cmds := cmds + [DrawCommand(q.call, q.ibo.Some?)];
  }

  // ---------------------------------------------------------------------
  // The pass
  // ---------------------------------------------------------------------

  /** The pass's state apart from its queue. */
  datatype PassSettings = PassSettings(
    renderTargets: seq<RenderTarget>,
    depthTarget: Option<Handle>,
    depthFormat: Option<Wgpu.TextureFormat>,
    surfaceSize: Geometry.Point2,
    msaaCount: Option<U32>,
    msaaTargets: seq<Handle>,
    clearColor: Option<Color>,
    viewport: Option<Viewport>,
    scissor: Option<RectF>,
    vertex: Option<Handle>,
    index: Option<Handle>,
    shader: Option<RenderShader>,
    shaderReflection: Option<seq<ShaderReflect>>,
    attachments: seq<BindGroupAttachment>,
    pushConstant: Option<seq<Byte>>)

  /** `RenderPass` and its `RenderPassInner`. */
  class RenderPass {
    const gpu: GpuContext.GpuInner
    /** The command buffer's "a pass is open" flag, cleared by `end`. */
    const flag: Surfaces.PassFlag
    var renderTargets: seq<RenderTarget>
    var depthTarget: Option<Handle>
    var depthFormat: Option<Wgpu.TextureFormat>
    var surfaceSize: Geometry.Point2
    var msaaCount: Option<U32>
    var msaaTargets: seq<Handle>
    var clearColor: Option<Color>
    var viewport: Option<Viewport>
    var scissor: Option<RectF>
    var vertex: Option<Handle>
    var index: Option<Handle>
    var shader: Option<RenderShader>
    var shaderReflection: Option<seq<ShaderReflect>>
    var attachments: seq<BindGroupAttachment>
    var pushConstant: Option<seq<Byte>>
    var queues: seq<QueueEntry>

    /** Unique table keys, a sample count exactly with MSAA targets, and well-formed recorded draws. */
    ghost predicate Valid()
      reads this
    {
      UniqueKeys(attachments) && (msaaCount.None? <==> msaaTargets == []) &&
      forall i :: 0 <= i < |queues| ==> WellFormed(queues[i])
    }

    function Settings(): PassSettings
      reads this
    {
      PassSettings(renderTargets, depthTarget, depthFormat, surfaceSize, msaaCount, msaaTargets, clearColor,
                   viewport, scissor, vertex, index, shader, shaderReflection, attachments, pushConstant)
    }

    function CacheNow(): CacheState
      reads gpu.bindGroupManager, gpu.pipelineManager
    {
      CacheState(gpu.bindGroupManager.bindGroups, gpu.pipelineManager.graphicsPipelines)
    }

    /** `RenderPass::new`: nothing set, a zero surface size, an empty queue. */
    constructor (gpu: GpuContext.GpuInner, flag: Surfaces.PassFlag)
      ensures Valid() && this.gpu == gpu && this.flag == flag && queues == []
      ensures Settings() == PassSettings([], None, None, Geometry.Point2(0, 0), None, [], None, None, None, None, None,
                                         None, None, [], None)
    {
      this.gpu := gpu;
      this.flag := flag;
      renderTargets := [];
      depthTarget := None;
      depthFormat := None;
      surfaceSize := Geometry.Point2(0, 0);
      msaaCount := None;
      msaaTargets := [];
      clearColor := None;
      viewport := None;
      scissor := None;
      vertex := None;
      index := None;
      shader := None;
      shaderReflection := None;
      attachments := [];
      pushConstant := None;
      queues := [];
    }

    /** `set_clear_color`. */
    method SetClearColor(c: Color)
      modifies this
      ensures Settings() == old(Settings()).(clearColor := Some(c)) && queues == old(queues)
    {
      clearColor := Some(c);
    }

    /** `set_blend`: the target at `index` is `Blended`; a missing target is the panic. */
    method SetBlend(index: nat, b: Option<TextureTypes.TextureBlend>) returns (r: Result<(), PassPanic>)
      modifies this
      ensures index >= |old(renderTargets)| ==> r == Err(BlendTargetMissing(index)) && Settings() == old(Settings())
      ensures index < |old(renderTargets)| ==>
        r == Ok(()) &&
        Settings() == old(Settings()).(renderTargets := old(renderTargets)[index := Blended(old(renderTargets)[index], b)])
      ensures queues == old(queues)
    {
      if index >= |renderTargets| {
        return Err(BlendTargetMissing(index));
      }
      renderTargets := renderTargets[index := Blended(renderTargets[index], b)];
      return Ok(());
    }

    /** `set_gpu_buffer_wgpu`: a shader must be set, and an index buffer needs its index format. */
    method SetGpuBuffer(v: Option<Handle>, i: Option<Handle>) returns (r: Result<(), PassPanic>)
      modifies this
      ensures shader.None? ==> r == Err(ShaderNotSet)
      ensures shader.Some? && i.Some? && IndexFormatOf(shader.value).None? ==> r == Err(IndexBufferWithoutFormat)
      ensures r.Ok? <==> shader.Some? && (i.Some? ==> IndexFormatOf(shader.value).Some?)
      ensures r.Ok? ==> Settings() == old(Settings()).(vertex := v, index := i)
      ensures r.Err? ==> Settings() == old(Settings())
      ensures queues == old(queues)
    {
      if shader.None? {
        return Err(ShaderNotSet);
      }
      if IndexFormatOf(shader.value).None? && i.Some? {
        return Err(IndexBufferWithoutFormat);
      }
      vertex := v;
      index := i;
      return Ok(());
    }

    /** `set_shader_ex`: the binding `BindShader` makes, kept with the reflection; None clears both. */
    method SetShader(s: Option<GraphicsShaders.GraphicsShader>, opts: ShaderOptions) returns (r: Result<(), PassPanic>)
      modifies this
      ensures s.None? ==> r == Ok(()) && Settings() == old(Settings()).(shader := None, shaderReflection := None)
      ensures s.Some? ==>
        var bound := BindShader(s.value.ty, s.value.reflection, s.value.bindGroupLayouts, s.value.attrib, opts);
        (bound.Ok? ==>
          r == Ok(()) &&
          Settings() == old(Settings()).(shader := Some(Intermediate(bound.value)), shaderReflection := Some(s.value.reflection))) &&
        (bound.Err? ==> r == Err(bound.error) && Settings() == old(Settings()))
      ensures queues == old(queues)
    {
      if s.None? {
        shader := None;
        shaderReflection := None;
        return Ok(());
      }
      var bound := BindShader(s.value.ty, s.value.reflection, s.value.bindGroupLayouts, s.value.attrib, opts);
      if bound.Err? {
        return Err(bound.error);
      }
      shader := Some(Intermediate(bound.value));
      shaderReflection := Some(s.value.reflection);
      return Ok(());
    }

    /** `set_pipeline`: the pipeline replaces any shader; the reflection is left as it was. */
    method SetPipeline(p: Option<RenderPipelines.RenderPipeline>)
      modifies this
      ensures Settings() == old(Settings()).(shader := if p.Some? then Some(PipelineBound(p.value)) else None)
      ensures queues == old(queues)
    {
      if p.Some? {
        shader := Some(PipelineBound(p.value));
      } else {
        shader := None;
      }
    }

    /**
     * The `set_attachment_*` setters: None removes the key, which a bound
     * pipeline forbids; Some passes `PassAttachCheck` and then inserts the
     * attachment or replaces the one with the same key in place.
     */
    method SetAttachment(group: U32, binding: U32, resource: Option<BindGroupType>) returns (r: Result<(), PassPanic>)
      requires Valid()
      modifies this
      ensures Valid()
      ensures resource.None? && old(shader).Some? && old(shader).value.PipelineBound? ==>
        r == Err(PipelineShaderSet) && Settings() == old(Settings())
      ensures resource.None? && (old(shader).None? || old(shader).value.Intermediate?) ==>
        r == Ok(()) && Settings() == old(Settings()).(attachments := Removed(old(attachments), group, binding))
      ensures resource.Some? ==>
        var a := BindGroupAttachment(group, binding, resource.value);
        var check := PassAttachCheck(shader, shaderReflection, a);
        (check.Ok? ==> r == Ok(()) && Settings() == old(Settings()).(attachments := InsertOrReplace(old(attachments), a))) &&
        (check.Err? ==> r == check && Settings() == old(Settings()))
      ensures queues == old(queues)
    {
      if resource.None? {
        if shader.Some? && shader.value.PipelineBound? {
          return Err(PipelineShaderSet);
        }
        RemovedKeepsUnique(attachments, group, binding);
        attachments := Removed(attachments, group, binding);
        return Ok(());
      }
      var a := BindGroupAttachment(group, binding, resource.value);
      var check := PassAttachCheck(shader, shaderReflection, a);
      if check.Err? {
        return check;
      }
      InsertKeepsUnique(attachments, a);
      attachments := InsertOrReplace(attachments, a);
      return Ok(());
    }

    /** `set_viewport`: the rectangle with its depth range, or none. */
    method SetViewport(rect: Option<RectF>, minDepth: real, maxDepth: real)
      modifies this
      ensures Settings() == old(Settings()).(viewport := if rect.Some? then Some(Viewport(rect.value, minDepth, maxDepth)) else None)
      ensures queues == old(queues)
    {
      if rect.Some? {
        viewport := Some(Viewport(rect.value, minDepth, maxDepth));
      } else {
        viewport := None;
      }
    }

    /** `set_scissor`. */
    method SetScissor(rect: Option<RectF>)
      modifies this
      ensures Settings() == old(Settings()).(scissor := rect) && queues == old(queues)
    {
      scissor := rect;
    }

    /**
     * `push_msaa_texture`: the first MSAA texture fixes the sample count,
     * a later one with another count is the panic, and the view is
     * appended.
     */
    method PushMsaaTexture(t: TextureInfo) returns (r: Result<(), PassPanic>)
      requires Valid()
      modifies this
      ensures Valid()
      ensures r.Ok? <==> old(msaaCount).None? || old(msaaCount).value == TextureTypes.SampleCountValue(t.sampleCount)
      ensures r.Err? ==> r == Err(MsaaCountMismatch) && Settings() == old(Settings())
      ensures r.Ok? ==> Settings() == old(Settings()).(msaaCount := Some(TextureTypes.SampleCountValue(t.sampleCount)),
                                                      msaaTargets := old(msaaTargets) + [t.view])
      ensures queues == old(queues)
    {
      var count := TextureTypes.SampleCountValue(t.sampleCount);
      if msaaCount.Some? && msaaCount.value != count {
        return Err(MsaaCountMismatch);
      }
      msaaCount := Some(count);
      msaaTargets := msaaTargets + [t.view];
      return Ok(());
    }

    /** `set_depth_texture`: Some passes `DepthCheck` and sets the depth view and its wgpu format; None clears both. */
    method SetDepthTexture(t: Option<TextureInfo>) returns (r: Result<(), PassPanic>)
      modifies this
      ensures t.None? ==> r == Ok(()) && Settings() == old(Settings()).(depthTarget := None, depthFormat := None)
      ensures t.Some? ==>
        var check := DepthCheck(t.value, surfaceSize);
        (check.Err? ==> r == check && Settings() == old(Settings())) &&
        (check.Ok? ==>
          r == Ok(()) &&
          Settings() == old(Settings()).(depthTarget := Some(t.value.view), depthFormat := Some(TextureTypes.FormatToWgpu(t.value.format))))
      ensures queues == old(queues)
    {
      if t.None? {
        depthTarget := None;
        depthFormat := None;
        return Ok(());
      }
      var check := DepthCheck(t.value, surfaceSize);
      if check.Err? {
        return check;
      }
      depthTarget := Some(t.value.view);
      depthFormat := Some(TextureTypes.FormatToWgpu(t.value.format));
      return Ok(());
    }

    /** `set_push_constants`: Some passes `PushConstantCheck` and is stored padded; None clears them. */
    method SetPushConstants(data: Option<seq<Byte>>) returns (r: Result<(), PassPanic>)
      modifies this
      ensures data.None? ==> r == Ok(()) && Settings() == old(Settings()).(pushConstant := None)
      ensures data.Some? ==>
        var check := PushConstantCheck(shader, shaderReflection, |data.value|);
        (check.Err? ==> r == check && Settings() == old(Settings())) &&
        (check.Ok? ==> r == Ok(()) && Settings() == old(Settings()).(pushConstant := Some(Buffers.Padded(data.value))))
      ensures queues == old(queues)
    {
      if data.None? {
        pushConstant := None;
        return Ok(());
      }
      var check := PushConstantCheck(shader, shaderReflection, |data.value|);
      if check.Err? {
        return check;
      }
      pushConstant := Some(Buffers.Padded(data.value));
      return Ok(());
    }

    /** `prepare_pipeline`: exactly `Prepare` on the context's caches. */
    method PreparePipeline(keys: DrawKeys) returns (r: Result<Prepared, PassPanic>)
      requires KeysFit(shader, attachments, keys)
      modifies gpu.bindGroupManager, gpu.pipelineManager
      ensures (r, CacheNow()) == Prepare(shader, attachments, gpu.isInvalid, old(CacheNow()), keys)
      ensures gpu.pipelineManager.computePipelines == old(gpu.pipelineManager.computePipelines)
    {
      if shader.None? {
        return Err(ShaderNotSet);
      }
      var s := shader.value;
      var groups: seq<(U32, Handle)>;
      if s.Intermediate? {
        var made := BindGroups.ResolveBindGroups(gpu, keys.bindGroupKey, attachments, s.binding.layout,
                                                 keys.groupOrder, keys.createdGroups, false);
        if made.Err? {
          return Err(made.error);
        }
        groups := made.value;
      } else {
        groups := s.pipeline.bindGroup;
      }
      var cached := gpu.GetGraphicsPipeline(keys.pipelineKey);
      if cached.Err? {
        return Err(InvalidContext);
      }
      var pipeline: Handle;
      if cached.value.Some? {
        pipeline := cached.value.value;
      } else {
        var created := gpu.CreateGraphicsPipeline(keys.pipelineKey, keys.createdPipeline);
        pipeline := created.value;
        assert Caches.Touched(old(gpu.pipelineManager.graphicsPipelines), keys.pipelineKey) == old(gpu.pipelineManager.graphicsPipelines);
      }
      return Ok(Prepared(pipeline, groups, IndexFormatOf(s)));
    }

    /**
     * What recording one draw does, from the queue `q0` and caches `c0` it
     * started with: the vertex buffer, then (indexed) the index buffer must
     * be set; the pipeline is prepared; an indexed draw needs an index
     * format; then the entry is queued with the pass's current state.
     */
    ghost predicate Recorded(r: Result<(), PassPanic>, q0: seq<QueueEntry>, c0: CacheState, indexed: bool, call: DrawCall, keys: DrawKeys)
      reads this, gpu, gpu.bindGroupManager, gpu.pipelineManager
      requires KeysFit(shader, attachments, keys)
    {
      if vertex.None? then r == Err(VertexBufferNotSet) && queues == q0 && CacheNow() == c0
      else if indexed && index.None? then r == Err(IndexBufferNotSet) && queues == q0 && CacheNow() == c0
      else
        var prepared := Prepare(shader, attachments, gpu.isInvalid, c0, keys);
        CacheNow() == prepared.1 &&
        if prepared.0.Err? then r == Err(prepared.0.error) && queues == q0
        else if indexed && prepared.0.value.indexFormat.None? then r == Err(IndexFormatNotSet) && queues == q0
        else
          var p := prepared.0.value;
          r == Ok(()) &&
          queues == q0 + [QueueEntry(p.pipeline, p.bindGroup, vertex, if indexed then index else None,
                                     if indexed then p.indexFormat else None, viewport, scissor, call, pushConstant)]
    }

    /** The part `prepare_draw` and `prepare_draw_indirect` share. */
    method Record(indexed: bool, call: DrawCall, keys: DrawKeys) returns (r: Result<(), PassPanic>)
      requires Valid() && KeysFit(shader, attachments, keys)
      requires call.Direct? ==> Drawable(viewport, scissor)
      modifies this, gpu.bindGroupManager, gpu.pipelineManager
      ensures Valid() && Settings() == old(Settings())
      ensures Recorded(r, old(queues), old(CacheNow()), indexed, call, keys)
      ensures gpu.pipelineManager.computePipelines == old(gpu.pipelineManager.computePipelines)
    {
      if vertex.None? {
        return Err(VertexBufferNotSet);
      }
      if indexed && index.None? {
        return Err(IndexBufferNotSet);
      }
      var prepared := PreparePipeline(keys);
      if prepared.Err? {
        return Err(prepared.error);
      }
      var p := prepared.value;
      if indexed && p.indexFormat.None? {
        return Err(IndexFormatNotSet);
      }
      var e := QueueEntry(p.pipeline, p.bindGroup, vertex, if indexed then index else None,
                          if indexed then p.indexFormat else None, viewport, scissor, call, pushConstant);
      assert WellFormed(e);
      queues := queues + [e];
      return Ok(());
    }

    /**
     * `draw` (`indexed` false, vertex offset 0) and `draw_indexed`
     * (`prepare_draw`): nothing happens while the viewport or the scissor
     * is invisible; otherwise the direct draw is recorded.
     */
    method Draw(indexed: bool, first: U32, end: U32, vertexOffset: I32, instances: U32, keys: DrawKeys) returns (r: Result<(), PassPanic>)
      requires Valid() && KeysFit(shader, attachments, keys)
      modifies this, gpu.bindGroupManager, gpu.pipelineManager
      ensures Valid() && Settings() == old(Settings())
      ensures !Drawable(viewport, scissor) ==> r == Ok(()) && queues == old(queues) && CacheNow() == old(CacheNow())
      ensures Drawable(viewport, scissor) ==>
        Recorded(r, old(queues), old(CacheNow()), indexed, Direct(first, end, vertexOffset, instances), keys)
      ensures gpu.pipelineManager.computePipelines == old(gpu.pipelineManager.computePipelines)
    {
      if viewport.Some? && !Visible(viewport.value.rect) {
        return Ok(());
      }
      if scissor.Some? && !Visible(scissor.value) {
        return Ok(());
      }
      r := Record(indexed, Direct(first, end, vertexOffset, instances), keys);
    }

    /**
     * `draw_indirect` and `draw_indexed_indirect` with the usage check
     * corrected (`IndirectCheck`): a buffer without INDIRECT usage is
     * refused; otherwise the indirect draw is recorded, whatever the
     * viewport and scissor.
     */
    method DrawIndirect(indexed: bool, buffer: Handle, usage: Buffers.BufferUsage, offset: U64, keys: DrawKeys)
      returns (r: Result<(), PassPanic>)
      requires Valid() && KeysFit(shader, attachments, keys)
      modifies this, gpu.bindGroupManager, gpu.pipelineManager
      ensures Valid() && Settings() == old(Settings())
      ensures IndirectCheck(usage).Err? ==> r == Err(NotIndirectBuffer) && queues == old(queues) && CacheNow() == old(CacheNow())
      ensures IndirectCheck(usage).Ok? ==> Recorded(r, old(queues), old(CacheNow()), indexed, Indirect(buffer, offset), keys)
      ensures gpu.pipelineManager.computePipelines == old(gpu.pipelineManager.computePipelines)
    {
      var check := IndirectCheck(usage);
      if check.Err? {
        return check;
      }
      r := Record(indexed, Indirect(buffer, offset), keys);
    }

    /**
     * `end` (also run by `Drop`): with MSAA there must be one MSAA target
     * per colour target; each colour attachment draws into the MSAA target
     * and resolves to the colour target, or draws into the colour target;
     * the queue is replayed; the pass flag is cleared.
     */
    method End() returns (r: Result<PassRecording, PassPanic>)
      requires Valid()
      modifies flag
      ensures msaaCount.Some? && |msaaTargets| != |renderTargets| ==> r == Err(MsaaTargetCountMismatch) && flag.value == old(flag.value)
      ensures !(msaaCount.Some? && |msaaTargets| != |renderTargets|) ==> r.Ok? && !flag.value
      ensures r.Ok? ==> r.value.depth == depthTarget && r.value.load == LoadOpOf(clearColor)
      ensures r.Ok? ==> |r.value.colors| == |renderTargets| && forall i :: 0 <= i < |renderTargets| ==>
        r.value.colors[i] == if msaaCount.Some? then ColorAttachment(msaaTargets[i], Some(renderTargets[i].view))
                             else ColorAttachment(renderTargets[i].view, None)
      ensures r.Ok? ==> r.value.commands == Replay(queues, |queues|)
    {
      if msaaCount.Some? && |msaaTargets| != |renderTargets| {
        return Err(MsaaTargetCountMismatch);
      }
      var colors: seq<ColorAttachment> := [];
      for i := 0 to |renderTargets|
        invariant |colors| == i
        invariant forall k :: 0 <= k < i ==>
          colors[k] == if msaaCount.Some? then ColorAttachment(msaaTargets[k], Some(renderTargets[k].view))
                       else ColorAttachment(renderTargets[k].view, None)
      {
        if msaaCount.Some? {
          colors := colors + [ColorAttachment(msaaTargets[i], Some(renderTargets[i].view))];
        } else {
          colors := colors + [ColorAttachment(renderTargets[i].view, None)];
        }
      }
      var cmds := Replayed();
      flag.Store(false);
      return Ok(PassRecording(colors, depthTarget, LoadOpOf(clearColor), cmds));
    }

    /** The replay loop of `end`: every queued entry in order. */
    method Replayed() returns (cmds: seq<PassCommand>)
      requires Valid()
      ensures cmds == Replay(queues, |queues|)
    {
      cmds := [];
      for i := 0 to |queues|
        invariant cmds == Replay(queues, i)
      {
        assert WellFormed(queues[i]);
        var entry := ReplayEntry(queues[i]);
        cmds := cmds + entry;
      }
    }
  }
}
