/**
 * The compute pass of src/gpu/command/compute.rs. A pass holds a compute
 * shader binding, an attachment table keyed by (group, binding), optional
 * push constants and the queue of recorded dispatches. Each dispatch
 * resolves its bind groups and its compute pipeline through the context's
 * caches (`prepare_pipeline`) and is queued; `end` (also run by `Drop`)
 * drains the queue into wgpu compute-pass commands.
 *
 * The source declares a `reflection` field that its validation reads but
 * that `set_shader` never writes; the model's `SetShader` records it (see
 * `ReflectionAsWritten` and `AsWrittenRefusesAll`).
 *
 * The hash keys of the caches, the group order of the bind-group fold and
 * the objects the device creates on a cache miss are parameters
 * (`DispatchKeys`).
 */
module ComputePasses {
  import opened Wrappers
  import opened ShaderTypes
  import opened Handles
  import opened Bindings
  import Buffers
  import BindGroups
  import Caches
  import GpuContext
  import ComputeShaders
  import ComputePipelines

  // ---------------------------------------------------------------------
  // Recorded dispatches
  // ---------------------------------------------------------------------

  /** `DispatchType`: a direct dispatch of a workgroup grid, or an indirect one from a buffer at an offset. */
  datatype DispatchType = Dispatch(x: U32, y: U32, z: U32) | DispatchIndirect(buffer: Handle, offset: U64)

  /** `ComputePassQueue`: the pipeline, the bind groups by group, the dispatch and the push constants it was recorded with. */
  datatype QueueEntry = QueueEntry(pipeline: Handle, bindGroup: seq<(U32, Handle)>, ty: DispatchType, pushConstant: Option<seq<Byte>>)

  /**
   * The inputs of one dispatch the source computes or receives from
   * outside: the hash key of the attachment table, the iteration order of
   * the bind-group fold and the bind groups a miss creates, the hash key of
   * the shader binding and the pipeline a miss creates.
   */
  datatype DispatchKeys = DispatchKeys(bindGroupKey: Key, groupOrder: seq<U32>, createdGroups: seq<Handle>,
                                       pipelineKey: Key, createdPipeline: Handle)

  predicate KeysFit(atts: seq<BindGroupAttachment>, keys: DispatchKeys)
  {
    BindGroups.IsGroupOrder(atts, keys.groupOrder) && |keys.createdGroups| == |keys.groupOrder|
  }

  /** The bind-group cache and the compute-pipeline cache of the context. */
  datatype CacheState = CacheState(bindGroups: Caches.Aging<seq<(U32, Handle)>>, pipelines: Caches.Aging<Handle>)

  /** What `prepare_pipeline` yields: the pipeline and the bind groups by group. */
  datatype Prepared = Prepared(pipeline: Handle, bindGroup: seq<(U32, Handle)>)

  /**
   * `prepare_pipeline` on the caches `c`: InvalidContext on an invalid
   * context; the bind groups under the table's key, or those created for
   * the table (only storage buffers and storage textures are supported,
   * and every group needs a layout); then the pipeline under the binding's
   * key, or the created one. A failure leaves the caches as they were.
   */
  function Prepare(b: ComputePipelines.ComputeBinding, atts: seq<BindGroupAttachment>, invalid: bool, c: CacheState,
                   keys: DispatchKeys): (r: (Result<Prepared, PassPanic>, CacheState))
    requires KeysFit(atts, keys)
    ensures invalid ==> r == (Err(InvalidContext), c)
    ensures r.0.Err? ==> r.1 == c
    ensures r.0.Ok? ==> !invalid && r.1.bindGroups == (if keys.bindGroupKey in c.bindGroups then Caches.Touched(c.bindGroups, keys.bindGroupKey)
                                                       else Caches.Stored(c.bindGroups, keys.bindGroupKey, r.0.value.bindGroup))
    ensures r.0.Ok? ==> r.1.pipelines == (if keys.pipelineKey in c.pipelines then Caches.Touched(c.pipelines, keys.pipelineKey)
                                          else Caches.Stored(c.pipelines, keys.pipelineKey, keys.createdPipeline))
    ensures r.0.Ok? ==> keys.bindGroupKey in r.1.bindGroups && r.1.bindGroups[keys.bindGroupKey] == (r.0.value.bindGroup, 0)
    ensures r.0.Ok? ==> keys.pipelineKey in r.1.pipelines && r.1.pipelines[keys.pipelineKey] == (r.0.value.pipeline, 0)
    ensures !invalid && keys.bindGroupKey in c.bindGroups ==> r.0.Ok? && r.0.value.bindGroup == c.bindGroups[keys.bindGroupKey].0
    ensures !invalid && keys.bindGroupKey !in c.bindGroups ==>
      var made := BindGroups.CreatedBindGroups(atts, b.layout, keys.groupOrder, keys.createdGroups, true);
      (r.0.Ok? <==> made.Ok?) && (made.Ok? ==> r.0.value.bindGroup == made.value) && (made.Err? ==> r.0 == Err(made.error))
    ensures r.0.Ok? ==> r.0.value.pipeline == (if keys.pipelineKey in c.pipelines then c.pipelines[keys.pipelineKey].0 else keys.createdPipeline)
  {
    if invalid then (Err(InvalidContext), c)
    else
      var groups: Result<seq<(U32, Handle)>, PassPanic> :=
        if keys.bindGroupKey in c.bindGroups then Ok(c.bindGroups[keys.bindGroupKey].0)
        else BindGroups.CreatedBindGroups(atts, b.layout, keys.groupOrder, keys.createdGroups, true);
      if groups.Err? then (Err(groups.error), c)
      else
        var bindGroups := if keys.bindGroupKey in c.bindGroups then Caches.Touched(c.bindGroups, keys.bindGroupKey)
                          else Caches.Stored(c.bindGroups, keys.bindGroupKey, groups.value);
        var pipeline := if keys.pipelineKey in c.pipelines then c.pipelines[keys.pipelineKey].0 else keys.createdPipeline;
        var pipelines := if keys.pipelineKey in c.pipelines then Caches.Touched(c.pipelines, keys.pipelineKey)
                         else Caches.Stored(c.pipelines, keys.pipelineKey, keys.createdPipeline);
        (Ok(Prepared(pipeline, groups.value)), CacheState(bindGroups, pipelines))
  }

  /**
   * Caching: once a dispatch has prepared its pipeline, a later dispatch
   * with the same keys gets the same pipeline and bind groups back,
   * whatever the device would create for it.
   */
  lemma PrepareReusesCache(b: ComputePipelines.ComputeBinding, atts: seq<BindGroupAttachment>, invalid: bool, c: CacheState,
                           keys: DispatchKeys, later: DispatchKeys)
    requires KeysFit(atts, keys) && KeysFit(atts, later)
    requires later.bindGroupKey == keys.bindGroupKey && later.pipelineKey == keys.pipelineKey
    requires Prepare(b, atts, invalid, c, keys).0.Ok?
    ensures Prepare(b, atts, invalid, Prepare(b, atts, invalid, c, keys).1, later).0 == Prepare(b, atts, invalid, c, keys).0
  {
  }

  /** A table holding anything but storage buffers and storage textures cannot be turned into bind groups on a cache miss. */
  lemma UnsupportedAttachmentRefused(b: ComputePipelines.ComputeBinding, atts: seq<BindGroupAttachment>, c: CacheState,
                                     keys: DispatchKeys, a: BindGroupAttachment)
    requires KeysFit(atts, keys) && keys.bindGroupKey !in c.bindGroups
    requires a in atts && !BindGroups.ComputeSupported(a)
    ensures Prepare(b, atts, false, c, keys) == (Err(UnsupportedComputeAttachment), c)
  {
  }

  // ---------------------------------------------------------------------
  // Setter checks
  // ---------------------------------------------------------------------

  /** The push-constant size a Compute reflection declares: the first push constant's, or 0. */
  function ComputePushConstantSize(bindings: seq<ShaderBindingInfo>): (r: U32)
    ensures r == 0 <==> FirstPushConstant(bindings).None? || FirstPushConstant(bindings).value == 0
    ensures r > 0 ==> exists j :: 0 <= j < |bindings| && bindings[j].ty == PushConstant(r)
  {
    match FirstPushConstant(bindings)
    case None => 0
    case Some(size) => size
  }

  /**
   * The checks of `set_push_constants` on the padded length, in order: a
   * shader, its reflection, a Compute reflection, a non-zero reflected
   * size, and a padded length within it.
   */
  function PushConstantCheck(shader: Option<ComputePipelines.ComputeBinding>, reflection: Option<ShaderReflect>, paddedLen: nat)
    : (r: Result<(), PassPanic>)
    ensures shader.None? ==> r == Err(ShaderNotSet)
    ensures shader.Some? && reflection.None? ==> r == Err(ReflectionNotSet)
    ensures r.Ok? <==> shader.Some? && reflection.Some? && reflection.value.Compute? &&
                       0 < ComputePushConstantSize(reflection.value.bindings) && paddedLen <= ComputePushConstantSize(reflection.value.bindings)
    ensures r.Err? ==> r.error in {ShaderNotSet, ReflectionNotSet, NotComputeShader, PushConstantUnsupported, PushConstantTooLarge}
  {
    if shader.None? then Err(ShaderNotSet)
    else if reflection.None? then Err(ReflectionNotSet)
    else if !reflection.value.Compute? then Err(NotComputeShader)
    else
      var size := ComputePushConstantSize(reflection.value.bindings);
      if size == 0 then Err(PushConstantUnsupported)
      else if paddedLen > size then Err(PushConstantTooLarge)
      else Ok(())
  }

  /**
   * The checks of `insert_or_replace_attachment`, in order: a shader, its
   * reflection, a Compute reflection, the binding at the key, and a type
   * that takes the attachment's kind.
   */
  function InsertCheck(shader: Option<ComputePipelines.ComputeBinding>, reflection: Option<ShaderReflect>, a: BindGroupAttachment)
    : (r: Result<(), PassPanic>)
    ensures shader.None? ==> r == Err(ShaderNotSet)
    ensures shader.Some? && reflection.None? ==> r == Err(ReflectionNotSet)
    ensures r.Ok? <==> shader.Some? && reflection.Some? && ComputePipelines.ReflectedBinding(reflection.value, a).Some? &&
                       KindMatches(ComputePipelines.ReflectedBinding(reflection.value, a).value.ty, a.attachment)
    ensures shader.Some? && reflection.Some? && reflection.value.Compute? && ComputePipelines.ReflectedBinding(reflection.value, a).None? ==>
      r == Err(BindingNotFound(a.group, a.binding))
  {
    if shader.None? then Err(ShaderNotSet)
    else if reflection.None? then Err(ReflectionNotSet)
    else if !reflection.value.Compute? then Err(NotComputeShader)
    else
      match FindBinding(reflection.value.bindings, a.group, a.binding)
      case None => Err(BindingNotFound(a.group, a.binding))
      case Some(b) => if KindMatches(b.ty, a.attachment) then Ok(()) else Err(AttachmentKindMismatch(a.group, a.binding))
  }

  /**
   * The pass's reflection as the source keeps it: it starts as None and
   * no code path writes it, so it is None after any `set_shader`.
   */
  function ReflectionAsWritten(s: Option<ComputeShaders.ComputeParts>): (r: Option<ShaderReflect>)
    ensures r.None?
  {
    None
  }

  /** The pass's reflection as `set_shader` evidently means to keep it: the shader's own. */
  function ReflectionAfterSetShader(prev: Option<ShaderReflect>, s: Option<ComputeShaders.ComputeParts>): (r: Option<ShaderReflect>)
    ensures s.Some? ==> r == Some(s.value.reflection)
    ensures s.None? ==> r == prev
  {
    if s.Some? then Some(s.value.reflection) else prev
  }

  /**
   * As written, once a shader is set every push-constant upload and every
   * attachment insert fails on the missing reflection, even for a shader
   * that declares exactly that binding and push constant; with the
   * reflection recorded both are accepted.
   */
  lemma AsWrittenRefusesAll(data: seq<Byte>, buffer: Handle)
    ensures var parts := ComputeShaders.ComputeParts([], Compute([109], [ShaderBindingInfo(0, 0, [98], StorageBuffer(16, StorageAccess(true, true, false))),
                                                                         ShaderBindingInfo(1, 0, [112], PushConstant(16))]), []);
            var shader := ComputePipelines.BindingOf(parts);
            var a := BindGroupAttachment(0, 0, Storage(buffer));
            shader.Some? &&
            InsertCheck(shader, ReflectionAsWritten(Some(parts)), a) == Err(ReflectionNotSet) &&
            PushConstantCheck(shader, ReflectionAsWritten(Some(parts)), 16) == Err(ReflectionNotSet) &&
            InsertCheck(shader, ReflectionAfterSetShader(None, Some(parts)), a) == Ok(()) &&
            PushConstantCheck(shader, ReflectionAfterSetShader(None, Some(parts)), 16) == Ok(())
  {
    var parts := ComputeShaders.ComputeParts([], Compute([109], [ShaderBindingInfo(0, 0, [98], StorageBuffer(16, StorageAccess(true, true, false))),
                                                                 ShaderBindingInfo(1, 0, [112], PushConstant(16))]), []);
    assert FindBinding(parts.reflection.bindings, 0, 0) == Some(parts.reflection.bindings[0]);
    assert FirstPushConstant(parts.reflection.bindings[1..]) == Some(16);
  }

  // ---------------------------------------------------------------------
  // What `end` records
  // ---------------------------------------------------------------------

  /** The wgpu compute-pass commands the drain issues. */
  datatype ComputeCommand =
    | SetPipeline(pipeline: Handle)
    | SetBindGroup(group: U32, bindGroup: Handle)
    | SetPushConstants(data: seq<Byte>)
    | DispatchWorkgroups(x: U32, y: U32, z: U32)
    | DispatchWorkgroupsIndirect(buffer: Handle, offset: U64)

  /** The dispatch command of a dispatch. */
  function DispatchCommand(ty: DispatchType): (r: ComputeCommand)
    ensures r.DispatchWorkgroups? <==> ty.Dispatch?
    ensures r.DispatchWorkgroups? || r.DispatchWorkgroupsIndirect?
    ensures CommandDispatch(r) == Some(ty)
  {
    match ty
    case Dispatch(x, y, z) => DispatchWorkgroups(x, y, z)
    case DispatchIndirect(buffer, offset) => DispatchWorkgroupsIndirect(buffer, offset)
  }

  /** The dispatch a dispatch command issues. */
  function CommandDispatch(c: ComputeCommand): (r: Option<DispatchType>)
    ensures r.Some? <==> c.DispatchWorkgroups? || c.DispatchWorkgroupsIndirect?
  {
    match c
    case DispatchWorkgroups(x, y, z) => Some(Dispatch(x, y, z))
    case DispatchWorkgroupsIndirect(buffer, offset) => Some(DispatchIndirect(buffer, offset))
    case _ => None
  }

  function BindCommands(groups: seq<(U32, Handle)>): (r: seq<ComputeCommand>)
    ensures |r| == |groups| && forall i :: 0 <= i < |groups| ==> r[i] == SetBindGroup(groups[i].0, groups[i].1)
  {
    seq(|groups|, i requires 0 <= i < |groups| => SetBindGroup(groups[i].0, groups[i].1))
  }

  /** The commands that set an entry up: its pipeline, its bind groups and its push constants. */
  function Setup(e: QueueEntry): seq<ComputeCommand>
  {
    [SetPipeline(e.pipeline)] + BindCommands(e.bindGroup) +
    (if e.pushConstant.Some? then [SetPushConstants(e.pushConstant.value)] else [])
  }

  /** One turn of the drain: the setup, then the dispatch. */
  function EntryCommands(e: QueueEntry): seq<ComputeCommand>
  {
    Setup(e) + [DispatchCommand(e.ty)]
  }

  /** The drain of the first `n` entries, in order. */
  function Replay(qs: seq<QueueEntry>, n: nat): seq<ComputeCommand>
    requires n <= |qs|
  {
    if n == 0 then [] else Replay(qs, n - 1) + EntryCommands(qs[n - 1])
  }

  /** The dispatches a command list issues, in order. */
  function Dispatches(cmds: seq<ComputeCommand>): seq<DispatchType>
  {
    if |cmds| == 0 then []
    else
      var last := CommandDispatch(cmds[|cmds| - 1]);
      Dispatches(cmds[..|cmds| - 1]) + (if last.Some? then [last.value] else [])
  }

  /** The dispatches of the first `n` entries. */
  function QueuedDispatches(qs: seq<QueueEntry>, n: nat): (r: seq<DispatchType>)
    requires n <= |qs|
    ensures |r| == n && forall i :: 0 <= i < n ==> r[i] == qs[i].ty
  {
    if n == 0 then [] else QueuedDispatches(qs, n - 1) + [qs[n - 1].ty]
  }

  lemma {:induction false} DispatchesAppend(a: seq<ComputeCommand>, b: seq<ComputeCommand>)
    ensures Dispatches(a + b) == Dispatches(a) + Dispatches(b)
    decreases |b|
  {
    if |b| == 0 {
      assert a + b == a;
    } else {
      var b' := b[..|b| - 1];
      assert (a + b)[..|a + b| - 1] == a + b';
      DispatchesAppend(a, b');
    }
  }

  lemma {:induction false} SetupDispatchesNothing(cmds: seq<ComputeCommand>)
    requires forall i :: 0 <= i < |cmds| ==> CommandDispatch(cmds[i]).None?
    ensures Dispatches(cmds) == []
    decreases |cmds|
  {
    if |cmds| > 0 {
      SetupDispatchesNothing(cmds[..|cmds| - 1]);
    }
  }

  /** One entry issues exactly its own dispatch. */
  lemma EntryDispatches(e: QueueEntry)
    ensures Dispatches(EntryCommands(e)) == [e.ty]
  {
    SetupDispatchesNothing(Setup(e));
    DispatchesAppend(Setup(e), [DispatchCommand(e.ty)]);
    assert [DispatchCommand(e.ty)][..0] == [];
  }

  /** The drain issues the queue's dispatches, each exactly once and in queue order. */
  lemma {:induction false} ReplayDispatches(qs: seq<QueueEntry>, n: nat)
    requires n <= |qs|
    ensures Dispatches(Replay(qs, n)) == QueuedDispatches(qs, n)
  {
    if n > 0 {
      ReplayDispatches(qs, n - 1);
      EntryDispatches(qs[n - 1]);
      DispatchesAppend(Replay(qs, n - 1), EntryCommands(qs[n - 1]));
    }
  }

  /** One turn of `end`'s drain loop. */
  method ReplayEntry(q: QueueEntry) returns (cmds: seq<ComputeCommand>)
    ensures cmds == EntryCommands(q)
  {
    cmds := [SetPipeline(q.pipeline)];
    for j := 0 to |q.bindGroup|
      invariant cmds == [SetPipeline(q.pipeline)] + BindCommands(q.bindGroup[..j])
    {
      assert BindCommands(q.bindGroup[..j + 1]) == BindCommands(q.bindGroup[..j]) + [SetBindGroup(q.bindGroup[j].0, q.bindGroup[j].1)];
      cmds := cmds + [SetBindGroup(q.bindGroup[j].0, q.bindGroup[j].1)];
    }
    assert q.bindGroup[..|q.bindGroup|] == q.bindGroup;
    if q.pushConstant.Some? {
      cmds := cmds + [SetPushConstants(q.pushConstant.value)];
    }
    cmds := cmds + [DispatchCommand(q.ty)];
  }

  // ---------------------------------------------------------------------
  // The pass
  // ---------------------------------------------------------------------

  /** The pass's state apart from its queue. */
  datatype ComputeSettings = ComputeSettings(
    shader: Option<ComputePipelines.ComputeBinding>,
    attachments: seq<BindGroupAttachment>,
    pushConstant: Option<seq<Byte>>,
    reflection: Option<ShaderReflect>)

  /** `ComputePass` and its `ComputePassInner`. */
  /** The pass panic for a failed `create_buffer_with`: an invalid context, no elements, or a rounded size that wrapped. */
  function CreationPanic(e: GpuContext.GpuError): (r: PassPanic)
    ensures e == GpuContext.InvalidContext <==> r == InvalidContext
    ensures e == GpuContext.EmptyData <==> r == EmptyBufferData
  {
    match e
    case InvalidContext => InvalidContext
    case EmptyData => EmptyBufferData
    case _ => BufferRangeTooShort
  }

  class ComputePass {
    const gpu: GpuContext.GpuInner
    var shader: Option<ComputePipelines.ComputeBinding>
    var queues: seq<QueueEntry>
    var attachments: seq<BindGroupAttachment>
    var pushConstant: Option<seq<Byte>>
    var reflection: Option<ShaderReflect>

    /** The table's keys are unique and stored push constants are a whole number of words. */
    ghost predicate Valid()
      reads this
    {
      UniqueKeys(attachments) && (pushConstant.Some? ==> |pushConstant.value| % 4 == 0)
    }

    function Settings(): ComputeSettings
      reads this
    {
      ComputeSettings(shader, attachments, pushConstant, reflection)
    }

    function CacheNow(): CacheState
      reads gpu.bindGroupManager, gpu.pipelineManager
    {
      CacheState(gpu.bindGroupManager.bindGroups, gpu.pipelineManager.computePipelines)
    }

    /** `ComputePass::new`: nothing set, an empty queue. */
    constructor (gpu: GpuContext.GpuInner)
      ensures Valid() && this.gpu == gpu && queues == []
      ensures Settings() == ComputeSettings(None, [], None, None)
    {
      this.gpu := gpu;
      shader := None;
      queues := [];
      attachments := [];
      pushConstant := None;
      reflection := None;
    }

    /**
     * `set_shader`: a non-Compute reflection and then an empty entry point
     * are panics; Some binds the shader's module, entry point and layouts
     * and records its reflection; None unbinds the shader.
     */
    method SetShader(s: Option<ComputeShaders.ComputeParts>) returns (r: Result<(), PassPanic>)
      requires Valid()
      modifies this
      ensures Valid() && queues == old(queues)
      ensures s.None? ==> r == Ok(()) && Settings() == old(Settings()).(shader := None)
      ensures s.Some? && !s.value.reflection.Compute? ==> r == Err(NotComputeShader) && Settings() == old(Settings())
      ensures s.Some? && s.value.reflection.Compute? && |s.value.reflection.entryPoint| == 0 ==>
        r == Err(EmptyEntryPoint) && Settings() == old(Settings())
      ensures s.Some? && s.value.reflection.Compute? && |s.value.reflection.entryPoint| > 0 ==>
        r == Ok(()) &&
        Settings() == old(Settings()).(shader := ComputePipelines.BindingOf(s.value),
                                       reflection := ReflectionAfterSetShader(old(reflection), s))
    {
      if s.None? {
        shader := None;
        return Ok(());
      }
      var binding := ComputePipelines.BindingOf(s.value);
      if binding.None? {
        return Err(NotComputeShader);
      }
      if |binding.value.entryPoint| == 0 {
        return Err(EmptyEntryPoint);
      }
      shader := binding;
      reflection := Some(s.value.reflection);
      return Ok(());
    }

    /**
     * `set_push_constants`: Some is padded with zeros to a multiple of 4
     * first, then checked (`PushConstantCheck`) on the padded length and
     * stored; None clears them.
     */
    method SetPushConstants(data: Option<seq<Byte>>) returns (r: Result<(), PassPanic>)
      requires Valid()
      modifies this
      ensures Valid() && queues == old(queues)
      ensures data.None? ==> r == Ok(()) && Settings() == old(Settings()).(pushConstant := None)
      ensures data.Some? ==>
        var padded := Buffers.Padded(data.value);
        var check := PushConstantCheck(shader, reflection, |padded|);
        (check.Err? ==> r == check && Settings() == old(Settings())) &&
        (check.Ok? ==> r == Ok(()) && Settings() == old(Settings()).(pushConstant := Some(padded)))
    {
      if data.None? {
        pushConstant := None;
        return Ok(());
      }
      var padded := Buffers.Padded(data.value);
      var check := PushConstantCheck(shader, reflection, |padded|);
      if check.Err? {
        return check;
      }
      pushConstant := Some(padded);
      return Ok(());
    }

    /**
     * `set_attachment_buffer`: None removes the key; Some binds the buffer
     * as a storage buffer, after `InsertCheck`, inserting it or replacing
     * the entry with the same key in place.
     */
    method SetAttachmentBuffer(group: U32, binding: U32, buffer: Option<Handle>) returns (r: Result<(), PassPanic>)
      requires Valid()
      modifies this
      ensures Valid() && queues == old(queues)
      ensures buffer.None? ==> r == Ok(()) && Settings() == old(Settings()).(attachments := Removed(old(attachments), group, binding))
      ensures buffer.Some? ==>
        var a := BindGroupAttachment(group, binding, Storage(buffer.value));
        var check := InsertCheck(shader, reflection, a);
        (check.Err? ==> r == check && Settings() == old(Settings())) &&
        (check.Ok? ==> r == Ok(()) && Settings() == old(Settings()).(attachments := InsertOrReplace(old(attachments), a)))
    {
      if buffer.None? {
        RemovedKeepsUnique(attachments, group, binding);
        attachments := Removed(attachments, group, binding);
        return Ok(());
      }
      var a := BindGroupAttachment(group, binding, Storage(buffer.value));
      var check := InsertCheck(shader, reflection, a);
      if check.Err? {
        return check;
      }
      InsertKeepsUnique(attachments, a);
      attachments := InsertOrReplace(attachments, a);
      return Ok(());
    }

    /**
     * `set_attachment_buffer_raw`: None removes the key; Some first creates a
     * buffer holding the elements' bytes with `create_buffer_with`, whose
     * panics end the call, and then binds that buffer, `created`, exactly as
     * `set_attachment_buffer` does. The usage flags only reach wgpu.
     */
    method SetAttachmentBufferRaw(group: U32, binding: U32, data: Option<seq<Byte>>, created: Handle) returns (r: Result<(), PassPanic>)
      requires Valid()
      modifies this
      ensures Valid() && queues == old(queues)
      ensures data.None? ==> r == Ok(()) && Settings() == old(Settings()).(attachments := Removed(old(attachments), group, binding))
      ensures data.Some? && gpu.CreateBufferWith(data.value).Err? ==>
        r == Err(CreationPanic(gpu.CreateBufferWith(data.value).error)) && Settings() == old(Settings())
      ensures data.Some? && gpu.CreateBufferWith(data.value).Ok? ==>
        var a := BindGroupAttachment(group, binding, Storage(created));
        var check := InsertCheck(old(shader), old(reflection), a);
        (check.Err? ==> r == check && Settings() == old(Settings())) &&
        (check.Ok? ==> r == Ok(()) && Settings() == old(Settings()).(attachments := InsertOrReplace(old(attachments), a)))
    {
      if data.None? {
        r := SetAttachmentBuffer(group, binding, None);
        return;
      }
      var buffer := gpu.CreateBufferWith(data.value);
      if buffer.Err? {
        return Err(CreationPanic(buffer.error));
      }
      r := SetAttachmentBuffer(group, binding, Some(created));
    }

    /** `prepare_pipeline`: exactly `Prepare` on the context's caches. */
    method PreparePipeline(b: ComputePipelines.ComputeBinding, keys: DispatchKeys) returns (r: Result<Prepared, PassPanic>)
      requires KeysFit(attachments, keys)
      modifies gpu.bindGroupManager, gpu.pipelineManager
      ensures (r, CacheNow()) == Prepare(b, attachments, gpu.isInvalid, old(CacheNow()), keys)
      ensures gpu.pipelineManager.graphicsPipelines == old(gpu.pipelineManager.graphicsPipelines)
    {
      var groups := BindGroups.ResolveBindGroups(gpu, keys.bindGroupKey, attachments, b.layout,
                                                 keys.groupOrder, keys.createdGroups, true);
      if groups.Err? {
        return Err(groups.error);
      }
      var cached := gpu.GetComputePipeline(keys.pipelineKey);
      var pipeline: Handle;
      if cached.value.Some? {
        pipeline := cached.value.value;
      } else {
        var created := gpu.CreateComputePipeline(keys.pipelineKey, keys.createdPipeline);
        pipeline := created.value;
        assert Caches.Touched(old(gpu.pipelineManager.computePipelines), keys.pipelineKey) == old(gpu.pipelineManager.computePipelines);
      }
      return Ok(Prepared(pipeline, groups.value));
    }

    /** What recording one dispatch does to the queue `q0` and caches `c0`. */
    ghost predicate Recorded(r: Result<(), PassPanic>, q0: seq<QueueEntry>, c0: CacheState, ty: DispatchType, keys: DispatchKeys)
      reads this, gpu, gpu.bindGroupManager, gpu.pipelineManager
      requires KeysFit(attachments, keys)
    {
      if shader.None? then r == Err(ShaderNotSet) && queues == q0 && CacheNow() == c0
      else
        var prepared := Prepare(shader.value, attachments, gpu.isInvalid, c0, keys);
        CacheNow() == prepared.1 &&
        if prepared.0.Err? then r == Err(prepared.0.error) && queues == q0
        else r == Ok(()) && queues == q0 + [QueueEntry(prepared.0.value.pipeline, prepared.0.value.bindGroup, ty, pushConstant)]
    }

    /** The part `dispatch` and `dispatch_indirect` share: a shader must be set; the pipeline is prepared and one entry queued. */
    method Record(ty: DispatchType, keys: DispatchKeys) returns (r: Result<(), PassPanic>)
      requires Valid() && KeysFit(attachments, keys)
      modifies this, gpu.bindGroupManager, gpu.pipelineManager
      ensures Valid() && Settings() == old(Settings())
      ensures Recorded(r, old(queues), old(CacheNow()), ty, keys)
      ensures gpu.pipelineManager.graphicsPipelines == old(gpu.pipelineManager.graphicsPipelines)
    {
      if shader.None? {
        return Err(ShaderNotSet);
      }
      var prepared := PreparePipeline(shader.value, keys);
      if prepared.Err? {
        return Err(prepared.error);
      }
      queues := queues + [QueueEntry(prepared.value.pipeline, prepared.value.bindGroup, ty, pushConstant)];
      return Ok(());
    }

    /** `dispatch`: one Dispatch entry carrying the current push constants. */
    method DispatchWorkgroupGrid(x: U32, y: U32, z: U32, keys: DispatchKeys) returns (r: Result<(), PassPanic>)
      requires Valid() && KeysFit(attachments, keys)
      modifies this, gpu.bindGroupManager, gpu.pipelineManager
      ensures Valid() && Settings() == old(Settings())
      ensures Recorded(r, old(queues), old(CacheNow()), Dispatch(x, y, z), keys)
      ensures r.Ok? ==> |queues| == |old(queues)| + 1 && queues[|queues| - 1].ty == Dispatch(x, y, z) &&
                        queues[|queues| - 1].pushConstant == pushConstant
      ensures gpu.pipelineManager.graphicsPipelines == old(gpu.pipelineManager.graphicsPipelines)
    {
      r := Record(Dispatch(x, y, z), keys);
    }

    /** `dispatch_indirect`: one DispatchIndirect entry with the buffer and offset. */
    method DispatchFromBuffer(buffer: Handle, offset: U64, keys: DispatchKeys) returns (r: Result<(), PassPanic>)
      requires Valid() && KeysFit(attachments, keys)
      modifies this, gpu.bindGroupManager, gpu.pipelineManager
      ensures Valid() && Settings() == old(Settings())
      ensures Recorded(r, old(queues), old(CacheNow()), DispatchIndirect(buffer, offset), keys)
      ensures r.Ok? ==> |queues| == |old(queues)| + 1 && queues[|queues| - 1].ty == DispatchIndirect(buffer, offset) &&
                        queues[|queues| - 1].pushConstant == pushConstant
      ensures gpu.pipelineManager.graphicsPipelines == old(gpu.pipelineManager.graphicsPipelines)
    {
      r := Record(DispatchIndirect(buffer, offset), keys);
    }

    /** `end` (also run by `Drop`): the queue is drained in order into compute-pass commands and left empty. */
    method End() returns (cmds: seq<ComputeCommand>)
      requires Valid()
      modifies this
      ensures Valid() && queues == [] && Settings() == old(Settings())
      ensures cmds == Replay(old(queues), |old(queues)|)
    {
      var drained := queues;
      queues := [];
      cmds := [];
      for i := 0 to |drained|
        invariant cmds == Replay(drained, i)
        invariant queues == [] && Settings() == old(Settings())
      {
        var entry := ReplayEntry(drained[i]);
        cmds := cmds + entry;
      }
    }
  }
}
