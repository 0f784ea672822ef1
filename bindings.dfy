/**
 * What the render pass, the compute pass and the two pipeline builders
 * share: the bind-group attachment table (`BindGroupAttachment`,
 * src/gpu/command/mod.rs, and `BindGroupType`, src/gpu/command/utils.rs),
 * the lookups their validation makes into a shader's reflection, the
 * binding a graphics shader becomes when a pass or a pipeline takes it,
 * and the panics of that validation, as values of `PassPanic`.
 */
module Bindings {
  import opened Wrappers
  import opened ShaderTypes
  import opened Handles
  import ShaderLayouts
  import GraphicsShaders

  /** The resource bound at a (group, binding): a wgpu buffer, texture view or sampler. */
  datatype BindGroupType =
    | Uniform(buffer: Handle)
    | Texture(view: Handle)
    | TextureStorage(view: Handle)
    | Sampler(sampler: Handle)
    | Storage(buffer: Handle)

  datatype BindGroupAttachment = BindGroupAttachment(group: U32, binding: U32, attachment: BindGroupType)

  /**
   * The panics of the validation builds of the passes, the pipeline
   * builders and the command buffer, and the `unwrap`s on empty options
   * they reach.
   */
  datatype PassPanic =
    | ShaderNotSet
    | PipelineShaderSet                       // attachments changed while a pipeline is bound
    | BindingNotFound(group: U32, binding: U32)
    | AttachmentKindMismatch(group: U32, binding: U32)
    | NoVertexEntryPoint
    | NoFragmentEntryPoint
    | NotComputeShader
    | EmptyEntryPoint
    | ReflectionNotSet                        // `shader_reflection.unwrap()` on None
    | PushConstantTooLarge
    | NoPushConstant
    | IndexBufferWithoutFormat
    | RenderTargetMissing(index: nat)
    | MsaaCountMismatch
    | DepthNotRenderAttachment
    | DepthFormatNotDepth
    | DepthMultiSampled
    | DepthZeroSize
    | DepthSizeMismatch
    | VertexBufferNotSet
    | IndexBufferNotSet
    | IndexFormatNotSet
    | IndirectUsage                           // the inverted INDIRECT check of the indirect draws
    | MsaaTargetCountMismatch
    | LayoutMissing(group: U32)               // no layout for a group that has attachments
    | InvalidContext
    | PassAlreadyOpen
    | TextureFormatMismatch
    | TextureSizeMismatch
    | SourceMipLevels
    | DestinationMipLevels
    | EncoderInUse
    | PassOpenOnDrop
    | UnsupportedComputeAttachment
    | SurfaceTextureMissing                   // a view, size or format asked of a surface texture without one
    | BlendTargetMissing(target: nat)         // `set_blend` on a render target index that does not exist
    | NotGraphicsShader
    | PushConstantUnsupported                 // the reflected push-constant size is 0
    | EmptyPushConstant
    | NotIndirectBuffer                       // an indirect draw from a buffer without INDIRECT usage
    | EncoderEnded                            // the command encoder asked for after `end` took it
    | EmptyBufferData                         // `create_buffer_with` on no elements
    | BufferRangeTooShort                     // `create_buffer_with` whose rounded size wrapped below the data

  // ---------------------------------------------------------------------
  // The attachment table
  // ---------------------------------------------------------------------

  predicate HasKey(a: BindGroupAttachment, group: U32, binding: U32)
  {
    a.group == group && a.binding == binding
  }

  /** No two entries share a (group, binding). */
  predicate UniqueKeys(atts: seq<BindGroupAttachment>)
  {
    forall i, j :: 0 <= i < j < |atts| ==> !HasKey(atts[j], atts[i].group, atts[i].binding)
  }

  /** `iter().position(..)`: the index of the first entry with the key. */
  function Position(atts: seq<BindGroupAttachment>, group: U32, binding: U32): (r: Option<nat>)
    ensures r.Some? ==> r.value < |atts| && HasKey(atts[r.value], group, binding)
    ensures r.Some? ==> forall j :: 0 <= j < r.value ==> !HasKey(atts[j], group, binding)
    ensures r.None? <==> forall j :: 0 <= j < |atts| ==> !HasKey(atts[j], group, binding)
  {
    if |atts| == 0 then None
    else if HasKey(atts[0], group, binding) then Some(0)
    else
      match Position(atts[1..], group, binding)
      case None => None
      case Some(i) => Some(i + 1)
  }

  /** The entry stored under a key, if any. */
  function Lookup(atts: seq<BindGroupAttachment>, group: U32, binding: U32): (r: Option<BindGroupAttachment>)
    ensures r.Some? ==> r.value in atts && HasKey(r.value, group, binding)
    ensures r.None? <==> forall a :: a in atts ==> !HasKey(a, group, binding)
  {
    match Position(atts, group, binding)
    case None => None
    case Some(i) => Some(atts[i])
  }

  /**
   * `insert_or_replace_attachment` without its validation: the first
   * entry with the same key is overwritten in place, otherwise the entry
   * is appended.
   */
  function InsertOrReplace(atts: seq<BindGroupAttachment>, a: BindGroupAttachment): (r: seq<BindGroupAttachment>)
    ensures |r| == |atts| || |r| == |atts| + 1
    ensures |r| == |atts| + 1 <==> forall x :: x in atts ==> !HasKey(x, a.group, a.binding)
    ensures a in r
  {
    match Position(atts, a.group, a.binding)
    case Some(i) =>
      assert a == atts[i := a][i];
      atts[i := a]
    case None => atts + [a]
  }

  /** `remove_attachment`: `retain` of the entries without the key, in their order. */
  function Removed(atts: seq<BindGroupAttachment>, group: U32, binding: U32): (r: seq<BindGroupAttachment>)
    ensures |r| <= |atts|
  {
    if |atts| == 0 then []
    else (if HasKey(atts[0], group, binding) then [] else [atts[0]]) + Removed(atts[1..], group, binding)
  }

  /** `Removed` keeps exactly the attachments without the key. */
  lemma {:induction false} RemovedMembers(atts: seq<BindGroupAttachment>, group: U32, binding: U32)
    ensures forall x :: x in Removed(atts, group, binding) <==> x in atts && !HasKey(x, group, binding)
  {
    if |atts| > 0 {
      RemovedMembers(atts[1..], group, binding);
      assert forall x :: x in atts <==> x == atts[0] || x in atts[1..];
    }
  }

  /** Filtering distributes over concatenation: `Removed` keeps the relative order of what it keeps. */
  lemma {:induction false} RemovedAppend(s: seq<BindGroupAttachment>, t: seq<BindGroupAttachment>, group: U32, binding: U32)
    ensures Removed(s + t, group, binding) == Removed(s, group, binding) + Removed(t, group, binding)
  {
    if |s| == 0 {
      assert s + t == t;
    } else {
      var head := if HasKey(s[0], group, binding) then [] else [s[0]];
      assert (s + t)[0] == s[0];
      assert (s + t)[1..] == s[1..] + t;
      RemovedAppend(s[1..], t, group, binding);
      calc {
        Removed(s + t, group, binding);
        head + Removed(s[1..] + t, group, binding);
        head + (Removed(s[1..], group, binding) + Removed(t, group, binding));
        (head + Removed(s[1..], group, binding)) + Removed(t, group, binding);
        Removed(s, group, binding) + Removed(t, group, binding);
      }
    }
  }

  /** A table without the key is left as it is. */
  lemma {:induction false} RemovedAbsent(atts: seq<BindGroupAttachment>, group: U32, binding: U32)
    requires forall x :: x in atts ==> !HasKey(x, group, binding)
    ensures Removed(atts, group, binding) == atts
  {
    if |atts| > 0 {
      RemovedAbsent(atts[1..], group, binding);
      assert [atts[0]] + atts[1..] == atts;
    }
  }

  lemma {:induction false} RemovedKeepsUnique(atts: seq<BindGroupAttachment>, group: U32, binding: U32)
    requires UniqueKeys(atts)
    ensures UniqueKeys(Removed(atts, group, binding))
  {
    if |atts| > 0 {
      RemovedKeepsUnique(atts[1..], group, binding);
      RemovedMembers(atts[1..], group, binding);
      var rest := Removed(atts[1..], group, binding);
      forall x | x in rest
        ensures !HasKey(x, atts[0].group, atts[0].binding)
      {
        var j :| 0 <= j < |atts[1..]| && atts[1..][j] == x;
        assert atts[j + 1] == x;
      }
    }
  }

  /** After a removal the key is gone. */
  lemma RemoveThenLookup(atts: seq<BindGroupAttachment>, group: U32, binding: U32)
    ensures Lookup(Removed(atts, group, binding), group, binding).None?
  {
  }

  /** Overwriting one entry with a same-key entry changes nothing `Removed` keeps. */
  lemma RemovedOverwrite(atts: seq<BindGroupAttachment>, i: nat, a: BindGroupAttachment)
    requires i < |atts| && HasKey(atts[i], a.group, a.binding)
    ensures Removed(atts[i := a], a.group, a.binding) == Removed(atts, a.group, a.binding)
  {
    var pre, post := atts[..i], atts[i + 1..];
    assert atts == pre + [atts[i]] + post;
    assert atts[i := a] == pre + [a] + post;
    RemovedAppend(pre + [atts[i]], post, a.group, a.binding);
    RemovedAppend(pre, [atts[i]], a.group, a.binding);
    RemovedAppend(pre + [a], post, a.group, a.binding);
    RemovedAppend(pre, [a], a.group, a.binding);
  }

  /**
   * Insert-or-replace leaves every other entry where it was: removing the
   * key afterwards gives what removing it before gave.
   */
  lemma InsertKeepsOthers(atts: seq<BindGroupAttachment>, a: BindGroupAttachment)
    ensures Removed(InsertOrReplace(atts, a), a.group, a.binding) == Removed(atts, a.group, a.binding)
  {
    match Position(atts, a.group, a.binding)
    case Some(i) =>
      RemovedOverwrite(atts, i, a);
    case None =>
      RemovedAppend(atts, [a], a.group, a.binding);
  }

  /** After an insert the key holds exactly the inserted entry. */
  lemma InsertThenLookup(atts: seq<BindGroupAttachment>, a: BindGroupAttachment)
    ensures Lookup(InsertOrReplace(atts, a), a.group, a.binding) == Some(a)
  {
    var r := InsertOrReplace(atts, a);
    match Position(atts, a.group, a.binding)
    case Some(i) =>
      assert r == atts[i := a];
      assert forall j :: 0 <= j < i ==> r[j] == atts[j];
      assert r[i] == a;
    case None =>
      assert forall j :: 0 <= j < |atts| ==> r[j] == atts[j];
      assert Position(r, a.group, a.binding) == Some(|atts|);
  }

  /** Inserting under one key leaves the lookup of every other key unchanged. */
  lemma InsertKeepsOtherLookups(atts: seq<BindGroupAttachment>, a: BindGroupAttachment, group: U32, binding: U32)
    requires !(a.group == group && a.binding == binding)
    ensures Lookup(InsertOrReplace(atts, a), group, binding) == Lookup(atts, group, binding)
  {
    var r := InsertOrReplace(atts, a);
    assert forall j :: 0 <= j < |atts| ==> (r[j] == atts[j] || r[j] == a);
    match Position(atts, group, binding)
    case Some(i) =>
      assert Position(r, group, binding) == Some(i);
    case None =>
      assert forall j :: 0 <= j < |r| ==> !HasKey(r[j], group, binding);
  }

  /** Insert-or-replace keeps the keys unique. */
  lemma InsertKeepsUnique(atts: seq<BindGroupAttachment>, a: BindGroupAttachment)
    requires UniqueKeys(atts)
    ensures UniqueKeys(InsertOrReplace(atts, a))
  {
    var r := InsertOrReplace(atts, a);
    match Position(atts, a.group, a.binding)
    case Some(i) =>
      forall j, k | 0 <= j < k < |r|
        ensures !HasKey(r[k], r[j].group, r[j].binding)
      {
        if j == i {
          assert HasKey(atts[i], a.group, a.binding);
          assert !HasKey(atts[k], atts[i].group, atts[i].binding);
        } else if k == i {
          assert !HasKey(atts[i], atts[j].group, atts[j].binding);
        }
      }
    case None =>
  }

  // ---------------------------------------------------------------------
  // Attachment kinds
  // ---------------------------------------------------------------------

  datatype Kind = UniformKind | TextureKind | TextureStorageKind | SamplerKind | StorageKind

  function KindOf(t: BindGroupType): Kind
  {
    match t
    case Uniform(_) => UniformKind
    case Texture(_) => TextureKind
    case TextureStorage(_) => TextureStorageKind
    case Sampler(_) => SamplerKind
    case Storage(_) => StorageKind
  }

  /** The one attachment kind a reflected binding type takes. */
  function ExpectedKind(ty: ShaderBindingType): Kind
  {
    match ty
    case UniformBuffer(_) => UniformKind
    case StorageBuffer(_, _) => StorageKind
    case StorageTexture(_) => TextureStorageKind
    case Sampler(_) => SamplerKind
    case Texture(_) => TextureKind
    case PushConstant(_) => UniformKind
  }

  /**
   * The compatibility table of the attachment validation (the same in the
   * render pass, the compute pass and both pipeline builders): a uniform
   * buffer or a push constant takes a Uniform, a storage buffer a Storage,
   * a storage texture a TextureStorage, a sampler a Sampler and a texture a
   * Texture.
   */
  function KindMatches(ty: ShaderBindingType, t: BindGroupType): (r: bool)
    ensures r <==> KindOf(t) == ExpectedKind(ty)
  {
    match ty
    case UniformBuffer(_) => t.Uniform?
    case StorageBuffer(_, _) => t.Storage?
    case StorageTexture(_) => t.TextureStorage?
    case Sampler(_) => t.Sampler?
    case Texture(_) => t.Texture?
    case PushConstant(_) => t.Uniform?
  }

  // ---------------------------------------------------------------------
  // Reflection lookups
  // ---------------------------------------------------------------------

  predicate BindsKey(b: ShaderBindingInfo, group: U32, binding: U32)
  {
    b.group == group && b.binding == binding
  }

  /** `bindings.iter().find(..)` on a (group, binding). */
  function FindBinding(bindings: seq<ShaderBindingInfo>, group: U32, binding: U32): (r: Option<ShaderBindingInfo>)
    ensures r.Some? ==> r.value in bindings && BindsKey(r.value, group, binding)
    ensures r.None? <==> forall j :: 0 <= j < |bindings| ==> !BindsKey(bindings[j], group, binding)
  {
    if |bindings| == 0 then None
    else if BindsKey(bindings[0], group, binding) then Some(bindings[0])
    else FindBinding(bindings[1..], group, binding)
  }

  /** The reflections a render pass or a render pipeline searches: all but the Compute ones. */
  predicate IsGraphicsReflect(r: ShaderReflect)
  {
    !r.Compute?
  }

  /**
   * The `find_map` of the render-side validation: the first binding with
   * the key in the first non-Compute reflection that has one.
   */
  function FindGraphicsBinding(reflection: seq<ShaderReflect>, group: U32, binding: U32): (r: Option<ShaderBindingInfo>)
    ensures r.Some? ==> BindsKey(r.value, group, binding)
    ensures r.Some? ==> exists i :: 0 <= i < |reflection| && IsGraphicsReflect(reflection[i]) && r.value in reflection[i].bindings
    ensures r.None? <==> forall i, j :: 0 <= i < |reflection| && IsGraphicsReflect(reflection[i]) && 0 <= j < |reflection[i].bindings| ==>
                          !BindsKey(reflection[i].bindings[j], group, binding)
  {
    if |reflection| == 0 then None
    else
      var here := if IsGraphicsReflect(reflection[0]) then FindBinding(reflection[0].bindings, group, binding) else None;
      if here.Some? then here
      else
        var rest := FindGraphicsBinding(reflection[1..], group, binding);
        assert rest.Some? ==> exists i :: 1 <= i < |reflection| && IsGraphicsReflect(reflection[i]) && rest.value in reflection[i].bindings by {
          if rest.Some? {
            var i :| 0 <= i < |reflection[1..]| && IsGraphicsReflect(reflection[1..][i]) && rest.value in reflection[1..][i].bindings;
            assert reflection[i + 1] == reflection[1..][i];
          }
        }
        assert rest.None? ==> forall i, j :: 0 <= i < |reflection| && IsGraphicsReflect(reflection[i]) && 0 <= j < |reflection[i].bindings| ==>
                          !BindsKey(reflection[i].bindings[j], group, binding) by {
          if rest.None? {
            forall i, j | 0 <= i < |reflection| && IsGraphicsReflect(reflection[i]) && 0 <= j < |reflection[i].bindings|
              ensures !BindsKey(reflection[i].bindings[j], group, binding)
            {
              if i > 0 {
                assert reflection[1..][i - 1] == reflection[i];
              }
            }
          }
        }
        rest
  }

  /** The size of the first PushConstant binding of a binding list. */
  function FirstPushConstant(bindings: seq<ShaderBindingInfo>): (r: Option<U32>)
    ensures r.Some? ==> exists j :: 0 <= j < |bindings| && bindings[j].ty == PushConstant(r.value)
    ensures r.None? <==> forall j :: 0 <= j < |bindings| ==> !bindings[j].ty.PushConstant?
  {
    if |bindings| == 0 then None
    else if bindings[0].ty.PushConstant? then Some(bindings[0].ty.size)
    else
      var rest := FirstPushConstant(bindings[1..]);
      assert rest.Some? ==> bindings[1..][0..|bindings| - 1] == bindings[1..];
      assert forall j :: 1 <= j < |bindings| ==> bindings[j] == bindings[1..][j - 1];
      rest
  }

  /**
   * The push-constant size the render pass validates against: the first
   * PushConstant binding of the first non-Compute reflection that has one,
   * else 0.
   */
  function GraphicsPushConstantSize(reflection: seq<ShaderReflect>): (r: U32)
    ensures r != 0 ==> exists i :: 0 <= i < |reflection| && IsGraphicsReflect(reflection[i]) && FirstPushConstant(reflection[i].bindings) == Some(r)
    ensures (forall i :: 0 <= i < |reflection| && IsGraphicsReflect(reflection[i]) ==> FirstPushConstant(reflection[i].bindings).None?) ==> r == 0
  {
    if |reflection| == 0 then 0
    else if IsGraphicsReflect(reflection[0]) && FirstPushConstant(reflection[0].bindings).Some? then
      FirstPushConstant(reflection[0].bindings).value
    else
      var rest := GraphicsPushConstantSize(reflection[1..]);
      assert forall i :: 1 <= i < |reflection| ==> reflection[i] == reflection[1..][i - 1];
      rest
  }

  // ---------------------------------------------------------------------
  // The binding a graphics shader becomes
  // ---------------------------------------------------------------------

  /** The vertex entry point of the first Vertex or VertexFragment reflection. */
  function VertexEntry(reflection: seq<ShaderReflect>): (r: Option<Text>)
    ensures r.None? <==> forall i :: 0 <= i < |reflection| ==> !(reflection[i].Vertex? || reflection[i].VertexFragment?)
  {
    if |reflection| == 0 then None
    else if reflection[0].Vertex? then Some(reflection[0].entryPoint)
    else if reflection[0].VertexFragment? then Some(reflection[0].vertexEntryPoint)
    else
      var rest := VertexEntry(reflection[1..]);
      assert forall i :: 1 <= i < |reflection| ==> reflection[i] == reflection[1..][i - 1];
      rest
  }

  /** The fragment entry point of the first Fragment or VertexFragment reflection. */
  function FragmentEntry(reflection: seq<ShaderReflect>): (r: Option<Text>)
    ensures r.None? <==> forall i :: 0 <= i < |reflection| ==> !(reflection[i].Fragment? || reflection[i].VertexFragment?)
  {
    if |reflection| == 0 then None
    else if reflection[0].Fragment? then Some(reflection[0].entryPoint)
    else if reflection[0].VertexFragment? then Some(reflection[0].fragmentEntryPoint)
    else
      var rest := FragmentEntry(reflection[1..]);
      assert forall i :: 1 <= i < |reflection| ==> reflection[i] == reflection[1..][i - 1];
      rest
  }

  /** The optional overrides of `set_shader_ex` / `set_shader_with_options`. */
  datatype ShaderOptions = ShaderOptions(
    topology: Option<ShaderTopology>,
    cullMode: Option<ShaderCullMode>,
    frontFace: Option<ShaderFrontFace>,
    polygonMode: Option<ShaderPolygonMode>,
    indexFormat: Option<IndexBufferSize>)

  const NO_OPTIONS := ShaderOptions(None, None, None, None, None)

  /** `IntermediateRenderPipeline` / `GraphicsShaderBinding`: what a pass or a pipeline keeps of a graphics shader. */
  datatype ShaderBinding = ShaderBinding(
    shader: (GraphicsShaders.ShaderModule, GraphicsShaders.ShaderModule),
    vertexAttribute: (U64, seq<VertexAttribute>),
    shaderEntry: (Text, Text),
    layout: seq<ShaderLayouts.GroupLayout>,
    topology: ShaderTopology,
    cullMode: Option<ShaderCullMode>,
    frontFace: ShaderFrontFace,
    polygonMode: ShaderPolygonMode,
    indexFormat: Option<IndexBufferSize>)

  function Modules(ty: GraphicsShaders.GraphicsShaderType): (GraphicsShaders.ShaderModule, GraphicsShaders.ShaderModule)
  {
    match ty
    case GraphicsSplit(v, f) => (v, f)
    case GraphicsSingle(m) => (m, m)
  }

  /**
   * The shader binding of `set_shader_ex` (and of the pipeline builder's
   * `set_shader_with_options`): it panics when the reflection has no
   * vertex or no fragment entry point; each given override replaces the
   * shader's own value, except the cull mode, which is taken as given and
   * never from the shader.
   */
  function BindShader(ty: GraphicsShaders.GraphicsShaderType, reflection: seq<ShaderReflect>,
                      layouts: seq<ShaderLayouts.GroupLayout>, attrib: GraphicsShaders.VertexInputDescription,
                      opts: ShaderOptions): (r: Result<ShaderBinding, PassPanic>)
    ensures VertexEntry(reflection).None? ==> r == Err(NoVertexEntryPoint)
    ensures VertexEntry(reflection).Some? && FragmentEntry(reflection).None? ==> r == Err(NoFragmentEntryPoint)
    ensures r.Ok? <==> VertexEntry(reflection).Some? && FragmentEntry(reflection).Some?
    ensures r.Ok? ==> r.value.shaderEntry == (VertexEntry(reflection).value, FragmentEntry(reflection).value)
    ensures r.Ok? ==> r.value.topology == (if opts.topology.Some? then opts.topology.value else attrib.topology)
    ensures r.Ok? ==> r.value.frontFace == (if opts.frontFace.Some? then opts.frontFace.value else attrib.frontFace)
    ensures r.Ok? ==> r.value.polygonMode == (if opts.polygonMode.Some? then opts.polygonMode.value else attrib.polygonMode)
    ensures r.Ok? ==> r.value.indexFormat == (if opts.indexFormat.Some? then opts.indexFormat else attrib.index)
    ensures r.Ok? ==> r.value.cullMode == opts.cullMode
    ensures r.Ok? ==> r.value.layout == layouts && r.value.vertexAttribute == (attrib.stride, attrib.attributes)
  {
    match (VertexEntry(reflection), FragmentEntry(reflection))
    case (None, _) => Err(NoVertexEntryPoint)
    case (_, None) => Err(NoFragmentEntryPoint)
    case (Some(v), Some(f)) =>
      Ok(ShaderBinding(
        Modules(ty),
        (attrib.stride, attrib.attributes),
        (v, f),
        layouts,
        if opts.topology.Some? then opts.topology.value else attrib.topology,
        opts.cullMode,
        if opts.frontFace.Some? then opts.frontFace.value else attrib.frontFace,
        if opts.polygonMode.Some? then opts.polygonMode.value else attrib.polygonMode,
        if opts.indexFormat.Some? then opts.indexFormat else attrib.index))
  }

  /** With no overrides the binding carries exactly the shader's own vertex state, and no culling. */
  lemma DefaultOptionsUseShader(ty: GraphicsShaders.GraphicsShaderType, reflection: seq<ShaderReflect>,
                                layouts: seq<ShaderLayouts.GroupLayout>, attrib: GraphicsShaders.VertexInputDescription)
    requires VertexEntry(reflection).Some? && FragmentEntry(reflection).Some?
    ensures BindShader(ty, reflection, layouts, attrib, NO_OPTIONS).Ok?
    ensures var b := BindShader(ty, reflection, layouts, attrib, NO_OPTIONS).value;
      b.topology == attrib.topology && b.frontFace == attrib.frontFace &&
      b.polygonMode == attrib.polygonMode && b.indexFormat == attrib.index && b.cullMode.None?
  {
  }

  // ---------------------------------------------------------------------
  // Bind-group entries
  // ---------------------------------------------------------------------

  /** The attachments of one group, in table order (the fold into the group map). */
  function OfGroup(atts: seq<BindGroupAttachment>, group: U32): (r: seq<BindGroupAttachment>)
    ensures forall x :: x in r <==> x in atts && x.group == group
    ensures |r| <= |atts|
  {
    if |atts| == 0 then []
    else (if atts[0].group == group then [atts[0]] else []) + OfGroup(atts[1..], group)
  }

  predicate SortedByBinding(s: seq<BindGroupAttachment>)
  {
    forall i, j :: 0 <= i < j < |s| ==> s[i].binding <= s[j].binding
  }

  /** Places `a` before the first entry with a binding at least its own. */
  function InsertByBinding(a: BindGroupAttachment, s: seq<BindGroupAttachment>): (r: seq<BindGroupAttachment>)
    requires SortedByBinding(s)
    ensures SortedByBinding(r)
    ensures |r| == |s| + 1 && (r[0] == a || (|s| > 0 && r[0] == s[0]))
    ensures multiset(r) == multiset(s) + multiset{a}
  {
    if |s| == 0 then [a]
    else if a.binding <= s[0].binding then [a] + s
    else
      var rest := InsertByBinding(a, s[1..]);
      assert s == [s[0]] + s[1..];
      assert s[0].binding <= rest[0].binding;
      [s[0]] + rest
  }

  /** `sort_by_key(|e| e.binding)`: the same entries, by binding. */
  function SortByBinding(s: seq<BindGroupAttachment>): (r: seq<BindGroupAttachment>)
    ensures SortedByBinding(r)
    ensures multiset(r) == multiset(s)
  {
    if |s| == 0 then []
    else
      assert s == [s[0]] + s[1..];
      InsertByBinding(s[0], SortByBinding(s[1..]))
  }

  /** The entries a group's bind group is created from: the group's attachments sorted by binding. */
  function GroupEntries(atts: seq<BindGroupAttachment>, group: U32): (r: seq<BindGroupAttachment>)
    ensures SortedByBinding(r)
    ensures forall x :: x in r <==> x in atts && x.group == group
  {
    var r := SortByBinding(OfGroup(atts, group));
    assert forall x :: x in r <==> x in multiset(r);
    r
  }

  predicate StrictlyByBinding(s: seq<BindGroupAttachment>)
  {
    forall i, j :: 0 <= i < j < |s| ==> s[i].binding < s[j].binding
  }

  predicate DistinctBindings(s: seq<BindGroupAttachment>)
  {
    forall i, j :: 0 <= i < j < |s| ==> s[i].binding != s[j].binding
  }

  /** Inserting an entry whose binding is new into a strictly sorted list keeps it strictly sorted. */
  lemma {:induction false} InsertStrict(a: BindGroupAttachment, s: seq<BindGroupAttachment>)
    requires StrictlyByBinding(s)
    requires forall x :: x in s ==> x.binding != a.binding
    ensures StrictlyByBinding(InsertByBinding(a, s))
  {
    if |s| > 0 && a.binding > s[0].binding {
      InsertStrict(a, s[1..]);
    }
  }

  /** Sorting entries whose bindings are pairwise distinct gives strictly increasing bindings. */
  lemma {:induction false} SortStrict(s: seq<BindGroupAttachment>)
    requires DistinctBindings(s)
    ensures StrictlyByBinding(SortByBinding(s))
  {
    if |s| > 0 {
      SortStrict(s[1..]);
      var t := SortByBinding(s[1..]);
      forall x | x in t
        ensures x.binding != s[0].binding
      {
        assert x in multiset(s[1..]);
        var k :| 0 <= k < |s[1..]| && s[1..][k] == x;
        assert s[k + 1] == x;
      }
      InsertStrict(s[0], t);
    }
  }

  /** The attachments of one group of a table with unique keys have pairwise distinct bindings. */
  lemma {:induction false} OfGroupDistinct(atts: seq<BindGroupAttachment>, group: U32)
    requires UniqueKeys(atts)
    ensures DistinctBindings(OfGroup(atts, group))
  {
    if |atts| > 0 {
      OfGroupDistinct(atts[1..], group);
      var rest := OfGroup(atts[1..], group);
      if atts[0].group == group {
        forall k | 0 <= k < |rest|
          ensures rest[k].binding != atts[0].binding
        {
          assert rest[k] in atts[1..];
          var j :| 0 <= j < |atts[1..]| && atts[1..][j] == rest[k];
          assert atts[j + 1] == rest[k];
        }
        var f := OfGroup(atts, group);
        assert f == [atts[0]] + rest;
        forall i, j | 0 <= i < j < |f|
          ensures f[i].binding != f[j].binding
        {
          if i > 0 {
            assert f[i] == rest[i - 1] && f[j] == rest[j - 1];
          } else {
            assert f[j] == rest[j - 1];
          }
        }
      }
    }
  }

  /** With unique keys the entries of each group have strictly increasing bindings, so no binding is bound twice. */
  lemma GroupEntriesStrict(atts: seq<BindGroupAttachment>, group: U32)
    requires UniqueKeys(atts)
    ensures StrictlyByBinding(GroupEntries(atts, group))
  {
    OfGroupDistinct(atts, group);
    SortStrict(OfGroup(atts, group));
  }
}
