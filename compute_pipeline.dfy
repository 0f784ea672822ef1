/**
 * `ComputePipelineBuilder` and `ComputePipeline` of
 * src/gpu/pipeline/compute.rs. The builder keeps a compute shader (its
 * module, entry point and bind-group layouts) with its reflection, and an
 * attachment table keyed by (group, binding) that its setters change in
 * place without validation. `build` validates the table against the
 * reflection in table order, then fetches the bind groups from the
 * context's cache or creates them, and returns them with the pipeline
 * descriptor.
 *
 * A shader module is represented by the WGSL text it was created from;
 * the bind-group cache key and the group order of the bind-group fold are
 * parameters, as are the bind groups the device creates.
 */
module ComputePipelines {
  import opened Wrappers
  import opened ShaderTypes
  import opened Handles
  import opened Bindings
  import ShaderLayouts
  import BindGroups
  import ComputeShaders
  import GpuContext

  /** `IntermediateComputeBinding` (and the compute pass's `ComputeShaderBinding`): module, entry point and layouts. */
  datatype ComputeBinding = ComputeBinding(shaderModule: Text, entryPoint: Text, layout: seq<ShaderLayouts.GroupLayout>)

  /** `ComputePipelineDesc`: what the device creates a compute pipeline from. */
  datatype ComputePipelineDesc = ComputePipelineDesc(shaderModule: Text, entryPoint: Text, layouts: seq<ShaderLayouts.GroupLayout>)

  /** `ComputePipeline`: the bind groups by group and the descriptor. */
  datatype ComputePipeline = ComputePipeline(bindGroup: seq<(U32, Handle)>, desc: ComputePipelineDesc)

  /** `CompuitePipelineError`, with `Panicked` for the panics `build` can run into on the way. */
  datatype ComputePipelineError =
    | ShaderNotSet
    | InvalidShaderType
    | AttachmentNotSet(group: U32, binding: U32)
    | InvalidAttachmentType(group: U32, binding: U32, ty: ShaderBindingType)
    | Panicked(panic: PassPanic)

  /** The descriptor of a binding: its module, entry point and layouts. */
  function DescOf(b: ComputeBinding): (r: ComputePipelineDesc)
    ensures r.shaderModule == b.shaderModule && r.entryPoint == b.entryPoint && r.layouts == b.layout
  {
    ComputePipelineDesc(b.shaderModule, b.entryPoint, b.layout)
  }

  /** The binding of a compute shader; a shader whose reflection is not a Compute one has none. */
  function BindingOf(s: ComputeShaders.ComputeParts): (r: Option<ComputeBinding>)
    ensures r.Some? <==> s.reflection.Compute?
    ensures r.Some? ==> r.value.shaderModule == s.code && r.value.entryPoint == s.reflection.entryPoint &&
                        r.value.layout == s.bindGroupLayouts
  {
    match s.reflection
    case Compute(entry, _) => Some(ComputeBinding(s.code, entry, s.bindGroupLayouts))
    case _ => None
  }

  /** The reflected binding an attachment is checked against: the one at its key in a Compute reflection, none otherwise. */
  function ReflectedBinding(reflection: ShaderReflect, a: BindGroupAttachment): (r: Option<ShaderBindingInfo>)
    ensures r.Some? ==> reflection.Compute? && r.value in reflection.bindings && BindsKey(r.value, a.group, a.binding)
    ensures r.None? <==> !reflection.Compute? ||
                         forall j :: 0 <= j < |reflection.bindings| ==> !BindsKey(reflection.bindings[j], a.group, a.binding)
  {
    match reflection
    case Compute(_, bindings) => FindBinding(bindings, a.group, a.binding)
    case _ => None
  }

  /** One turn of `build`'s validation loop: the binding must be reflected, and its type must take the attachment's kind. */
  function AttachmentCheck(reflection: ShaderReflect, a: BindGroupAttachment): (r: Result<(), ComputePipelineError>)
    ensures r.Ok? <==> ReflectedBinding(reflection, a).Some? && KindMatches(ReflectedBinding(reflection, a).value.ty, a.attachment)
    ensures ReflectedBinding(reflection, a).None? ==> r == Err(AttachmentNotSet(a.group, a.binding))
    ensures ReflectedBinding(reflection, a).Some? && r.Err? ==>
      r == Err(InvalidAttachmentType(a.group, a.binding, ReflectedBinding(reflection, a).value.ty))
  {
    match ReflectedBinding(reflection, a)
    case None => Err(AttachmentNotSet(a.group, a.binding))
    case Some(b) => if KindMatches(b.ty, a.attachment) then Ok(()) else Err(InvalidAttachmentType(a.group, a.binding, b.ty))
  }

  /** The validation of the first `n` attachments, in table order: the first failing check, or success. */
  function Validated(reflection: ShaderReflect, atts: seq<BindGroupAttachment>, n: nat): (r: Result<(), ComputePipelineError>)
    requires n <= |atts|
    ensures r.Ok? <==> forall i :: 0 <= i < n ==> AttachmentCheck(reflection, atts[i]).Ok?
    ensures r.Err? ==> exists i :: 0 <= i < n && r == AttachmentCheck(reflection, atts[i]) &&
                                   forall j :: 0 <= j < i ==> AttachmentCheck(reflection, atts[j]).Ok?
  {
    if n == 0 then Ok(())
    else
      var before := Validated(reflection, atts, n - 1);
      if before.Err? then before else AttachmentCheck(reflection, atts[n - 1])
  }

  lemma {:induction false} ValidatedErrSticks(reflection: ShaderReflect, atts: seq<BindGroupAttachment>, m: nat, n: nat)
    requires m <= n <= |atts| && Validated(reflection, atts, m).Err?
    ensures Validated(reflection, atts, n) == Validated(reflection, atts, m)
    decreases n - m
  {
    if m < n {
      ValidatedErrSticks(reflection, atts, m, n - 1);
    }
  }

  /** Binding `j` of the reflection sits at the attachment's key and its type takes the attachment's kind. */
  predicate TakesAt(reflection: ShaderReflect, j: int, a: BindGroupAttachment)
  {
    0 <= j < |reflection.bindings| && BindsKey(reflection.bindings[j], a.group, a.binding) &&
    KindOf(a.attachment) == ExpectedKind(reflection.bindings[j].ty)
  }

  /** Every attachment is reflected with a kind its binding takes exactly when validation passes. */
  lemma ValidatedMeansReflected(reflection: ShaderReflect, atts: seq<BindGroupAttachment>)
    requires Validated(reflection, atts, |atts|).Ok?
    ensures reflection.Compute? || atts == []
    ensures forall a :: a in atts ==> exists j :: TakesAt(reflection, j, a)
  {
    forall a | a in atts
      ensures exists j :: TakesAt(reflection, j, a)
    {
      var i :| 0 <= i < |atts| && atts[i] == a;
      assert AttachmentCheck(reflection, atts[i]).Ok?;
      var b := ReflectedBinding(reflection, a).value;
      var j :| 0 <= j < |reflection.bindings| && reflection.bindings[j] == b;
      assert TakesAt(reflection, j, a);
    }
    if atts != [] {
      assert AttachmentCheck(reflection, atts[0]).Ok?;
    }
  }

  /** `build`'s validation loop, stopping at the first failure. */
  method ValidateAttachments(reflection: ShaderReflect, atts: seq<BindGroupAttachment>) returns (r: Result<(), ComputePipelineError>)
    ensures r == Validated(reflection, atts, |atts|)
  {
    for i := 0 to |atts|
      invariant Validated(reflection, atts, i).Ok?
    {
      var check := AttachmentCheck(reflection, atts[i]);
      if check.Err? {
        ValidatedErrSticks(reflection, atts, i + 1, |atts|);
        return check;
      }
    }
    return Ok(());
  }

  /** `ComputePipelineBuilder`. In the source each setter consumes and returns the builder; the table is updated in place. */
  class ComputePipelineBuilder {
    const gpu: GpuContext.GpuInner
    var attachments: seq<BindGroupAttachment>
    var shader: Option<ComputeBinding>
    var shaderReflection: Option<ShaderReflect>

    /** Unique table keys; a shader and its (Compute) reflection are set together. */
    ghost predicate Valid()
      reads this
    {
      UniqueKeys(attachments) && (shader.Some? <==> shaderReflection.Some?) &&
      (shaderReflection.Some? ==> shaderReflection.value.Compute?)
    }

    /** `new`: no shader, an empty table. */
    constructor (gpu: GpuContext.GpuInner)
      ensures Valid() && this.gpu == gpu
      ensures attachments == [] && shader.None? && shaderReflection.None?
    {
      this.gpu := gpu;
      attachments := [];
      shader := None;
      shaderReflection := None;
    }

    /** `set_shader`: a non-Compute reflection is the panic; Some keeps the binding and the reflection; None clears both. */
    method SetShader(s: Option<ComputeShaders.ComputeParts>) returns (r: Result<(), PassPanic>)
      requires Valid()
      modifies this
      ensures Valid() && attachments == old(attachments)
      ensures s.None? ==> r == Ok(()) && shader.None? && shaderReflection.None?
      ensures s.Some? && !s.value.reflection.Compute? ==>
        r == Err(NotComputeShader) && shader == old(shader) && shaderReflection == old(shaderReflection)
      ensures s.Some? && s.value.reflection.Compute? ==>
        r == Ok(()) && shader == BindingOf(s.value) && shaderReflection == Some(s.value.reflection)
    {
      if s.None? {
        shader := None;
        shaderReflection := None;
        return Ok(());
      }
      var binding := BindingOf(s.value);
      if binding.None? {
        return Err(NotComputeShader);
      }
      shader := binding;
      shaderReflection := Some(s.value.reflection);
      return Ok(());
    }

    /**
     * The `set_attachment_*` setters: None removes the (group, binding);
     * Some inserts the attachment or replaces the entry with the same key
     * in place. Nothing is validated here.
     */
    method SetAttachment(group: U32, binding: U32, resource: Option<BindGroupType>)
      requires Valid()
      modifies this
      ensures Valid() && shader == old(shader) && shaderReflection == old(shaderReflection)
      ensures resource.None? ==> attachments == Removed(old(attachments), group, binding)
      ensures resource.Some? ==> attachments == InsertOrReplace(old(attachments), BindGroupAttachment(group, binding, resource.value))
    {
      if resource.None? {
        RemovedKeepsUnique(attachments, group, binding);
        attachments := Removed(attachments, group, binding);
      } else {
        var a := BindGroupAttachment(group, binding, resource.value);
        InsertKeepsUnique(attachments, a);
        attachments := InsertOrReplace(attachments, a);
      }
    }

    /**
     * `build`: ShaderNotSet without a shader; the first attachment that is
     * not reflected or has the wrong kind; then the bind groups, from the
     * cache under `key` or created for the table in the group order
     * `order` (an invalid context or a group without a layout is a panic);
     * the descriptor is the binding's.
     */
    method Build(key: Key, order: seq<U32>, created: seq<Handle>) returns (r: Result<ComputePipeline, ComputePipelineError>)
      requires Valid() && BindGroups.IsGroupOrder(attachments, order) && |created| == |order|
      modifies gpu.bindGroupManager
      ensures shader.None? ==> r == Err(ComputePipelineError.ShaderNotSet) && unchanged(gpu.bindGroupManager)
      ensures shader.Some? && Validated(shaderReflection.value, attachments, |attachments|).Err? ==>
        r == Err(Validated(shaderReflection.value, attachments, |attachments|).error) && unchanged(gpu.bindGroupManager)
      ensures r.Ok? ==> shader.Some? && Validated(shaderReflection.value, attachments, |attachments|).Ok? && !gpu.isInvalid
      ensures r.Ok? ==> r.value.desc == DescOf(shader.value)
      ensures r.Ok? ==> key in gpu.bindGroupManager.bindGroups && gpu.bindGroupManager.bindGroups[key] == (r.value.bindGroup, 0)
      ensures shader.Some? && Validated(shaderReflection.value, attachments, |attachments|).Ok? ==>
        (gpu.isInvalid ==> r == Err(Panicked(InvalidContext))) &&
        (!gpu.isInvalid && key in old(gpu.bindGroupManager.bindGroups) ==>
          r.Ok? && r.value.bindGroup == old(gpu.bindGroupManager.bindGroups)[key].0) &&
        (!gpu.isInvalid && key !in old(gpu.bindGroupManager.bindGroups) ==>
          var made := BindGroups.CreatedBindGroups(attachments, shader.value.layout, order, created, false);
          (r.Ok? <==> made.Ok?) && (made.Ok? ==> r.value.bindGroup == made.value) &&
          (made.Err? ==> r == Err(Panicked(made.error))))
    {
      if shader.None? {
        return Err(ComputePipelineError.ShaderNotSet);
      }
      var s := shader.value;
      var valid := ValidateAttachments(shaderReflection.value, attachments);
      if valid.Err? {
        return Err(valid.error);
      }
      var groups := BindGroups.ResolveBindGroups(gpu, key, attachments, s.layout, order, created, false);
      if groups.Err? {
        return Err(Panicked(groups.error));
      }
      return Ok(ComputePipeline(groups.value, DescOf(s)));
    }
  }
}
