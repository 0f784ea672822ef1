/**
 * Bind-group layout construction and binding lookups shared by graphics
 * and compute shaders (src/gpu/shader/graphics.rs, src/gpu/shader/compute.rs).
 * Both files carry the same `create_layout_ty`; both build their layouts in
 * a map from group number to the vector of layout entries of that group.
 *
 * wgpu's binding types are written out as the fields the crate sets.
 * Every texture and storage texture is two-dimensional, and every texture
 * samples filterable floats. The debug label of a layout is not modelled,
 * and neither is the opaque wgpu layout object: a `GroupLayout` keeps the
 * entries it is created from.
 */
module ShaderLayouts {
  import opened Wrappers
  import opened ShaderTypes
  import Wgpu

  datatype BufferBindingType = UniformBinding | StorageBinding(readOnly: bool)

  datatype SamplerBindingType = Filtering | Comparison

  datatype StorageTextureAccess = WriteOnly | ReadOnly | ReadWrite | Atomic

  /** The part of `wgpu::BindingType` that `create_layout_ty` chooses. */
  datatype BindingType =
    | BufferBinding(bufferType: BufferBindingType, hasDynamicOffset: bool, minBindingSize: Option<U64>)
    | TextureBinding(filterable: bool, multisampled: bool)
    | SamplerBinding(samplerType: SamplerBindingType)
    | StorageTextureBinding(access: StorageTextureAccess, format: Wgpu.TextureFormat)

  /** The two panics of `create_layout_ty`. */
  datatype LayoutPanic =
    | InvalidStorageTextureAccess   // a storage texture with no access flag
    | PushConstantBinding           // `unreachable!()` for a push-constant binding

  predicate NoAccess(a: StorageAccess)
  {
    !a.read && !a.write && !a.atomic
  }

  /**
   * `min_binding_size`: u32::MAX stands for "unsized", and
   * `BufferSize::new` refuses zero.
   */
  function MinBindingSize(size: U32): Option<U64>
  {
    if size == U32_MAX then None
    else if size == 0 then None
    else Some(size)
  }

  /**
   * `create_layout_ty`. A storage buffer is read-only exactly when READ is
   * set and WRITE is not; a storage texture's access is chosen in the
   * priority ReadWrite, ReadOnly, WriteOnly, Atomic; a storage texture
   * without access and a push constant panic.
   */
  function CreateLayoutTy(ty: ShaderBindingType): (r: Result<BindingType, LayoutPanic>)
    ensures r.Err? <==> ty.PushConstant? || (ty.StorageTexture? && NoAccess(ty.access))
    ensures ty.PushConstant? ==> r == Err(PushConstantBinding)
    ensures (ty.UniformBuffer? || ty.StorageBuffer?) ==>
      r.Ok? && r.value.BufferBinding? && !r.value.hasDynamicOffset &&
      (r.value.minBindingSize.None? <==> ty.size == U32_MAX || ty.size == 0) &&
      (r.value.minBindingSize.Some? ==> r.value.minBindingSize.value == ty.size)
    ensures ty.UniformBuffer? ==> r.value.bufferType == UniformBinding
    ensures ty.StorageBuffer? ==>
      r.value.bufferType.StorageBinding? &&
      (r.value.bufferType.readOnly <==> ty.access.read && !ty.access.write)
    ensures ty.StorageTexture? && r.Ok? ==>
      r.value.StorageTextureBinding? && r.value.format == Wgpu.Rgba8Unorm &&
      (r.value.access == ReadWrite <==> ty.access.read && ty.access.write) &&
      (r.value.access == ReadOnly <==> ty.access.read && !ty.access.write) &&
      (r.value.access == WriteOnly <==> !ty.access.read && ty.access.write) &&
      (r.value.access == Atomic <==> !ty.access.read && !ty.access.write && ty.access.atomic)
    ensures ty.Texture? ==> r == Ok(TextureBinding(true, ty.multisampled))
    ensures ty.Sampler? ==> r.Ok? && (r.value == SamplerBinding(Comparison) <==> ty.comparison)
  {
    match ty
    case UniformBuffer(size) => Ok(BufferBinding(UniformBinding, false, MinBindingSize(size)))
    case Texture(multisampled) => Ok(TextureBinding(true, multisampled))
    case Sampler(comparison) => Ok(SamplerBinding(if comparison then Comparison else Filtering))
    case StorageBuffer(size, access) =>
      Ok(BufferBinding(StorageBinding(access.read && !access.write), false, MinBindingSize(size)))
    case StorageTexture(access) =>
      if access.read && access.write then Ok(StorageTextureBinding(ReadWrite, Wgpu.Rgba8Unorm))
      else if access.read then Ok(StorageTextureBinding(ReadOnly, Wgpu.Rgba8Unorm))
      else if access.write then Ok(StorageTextureBinding(WriteOnly, Wgpu.Rgba8Unorm))
      else if access.atomic then Ok(StorageTextureBinding(Atomic, Wgpu.Rgba8Unorm))
      else Err(InvalidStorageTextureAccess)
    case PushConstant(_) => Err(PushConstantBinding)
  }

  // ---------------------------------------------------------------------
  // The layout table
  // ---------------------------------------------------------------------

  /** `wgpu::BindGroupLayoutEntry` (the array count is always None). */
  datatype LayoutEntry = LayoutEntry(binding: U32, visibility: ShaderStages, ty: BindingType)

  /** The map from group number to that group's entries, in insertion order. */
  type Layouts = map<U32, seq<LayoutEntry>>

  /** The entries of `group`, or none yet. */
  function EntriesOf(layouts: Layouts, group: U32): seq<LayoutEntry>
  {
    if group in layouts then layouts[group] else []
  }

  /** The index of the first entry at or after `from` with binding number `binding`. */
  function FindFrom(entries: seq<LayoutEntry>, binding: U32, from: nat): (r: Option<nat>)
    requires from <= |entries|
    ensures r.Some? ==>
      from <= r.value < |entries| && entries[r.value].binding == binding &&
      forall i :: from <= i < r.value ==> entries[i].binding != binding
    ensures r.None? ==> forall i :: from <= i < |entries| ==> entries[i].binding != binding
    decreases |entries| - from
  {
    if from == |entries| then None
    else if entries[from].binding == binding then Some(from)
    else FindFrom(entries, binding, from + 1)
  }

  /**
   * `find_existing`: the first entry of the group with that binding
   * number. Its `_ty` pattern binds a fresh name and so matches every
   * type: the binding type is not compared.
   */
  function FindExisting(layouts: Layouts, group: U32, binding: U32): Option<nat>
  {
    FindFrom(EntriesOf(layouts, group), binding, 0)
  }

  /**
   * One iteration of the binding loop of `make_group_layout`: the layout
   * type is built first (and may panic); then, when `merge` is on and the
   * group already has an entry with that binding number, `stage` is ORed
   * into its visibility; otherwise a new entry is pushed to the group.
   */
  function AddBinding(layouts: Layouts, b: ShaderBindingInfo, stage: ShaderStages, merge: bool): Result<Layouts, LayoutPanic>
  {
    match CreateLayoutTy(b.ty)
    case Err(p) => Err(p)
    case Ok(ty) =>
      var entries := EntriesOf(layouts, b.group);
      var found := if merge then FindExisting(layouts, b.group, b.binding) else None;
      if found.Some? then
        var e := entries[found.value];
        Ok(layouts[b.group := entries[found.value := e.(visibility := StagesOr(e.visibility, stage))]])
      else
        Ok(layouts[b.group := entries + [LayoutEntry(b.binding, stage, ty)]])
  }

  /** The binding loop over the first `n` bindings, stopping at the first panic. */
  function AddBindings(layouts: Layouts, bs: seq<ShaderBindingInfo>, n: nat, stage: ShaderStages, merge: bool)
    : Result<Layouts, LayoutPanic>
    requires n <= |bs|
  {
    if n == 0 then Ok(layouts)
    else
      match AddBindings(layouts, bs, n - 1, stage, merge)
      case Err(p) => Err(p)
      case Ok(m) => AddBinding(m, bs[n - 1], stage, merge)
  }

  /**
   * A binding whose (group, binding) pair is already present, under
   * merging: no entry is added, the existing entry keeps its binding
   * number and its type, and only `stage` is ORed into its visibility;
   * every other group is unchanged.
   */
  lemma AddBindingMerges(layouts: Layouts, b: ShaderBindingInfo, stage: ShaderStages)
    requires CreateLayoutTy(b.ty).Ok?
    requires FindExisting(layouts, b.group, b.binding).Some?
    ensures var r := AddBinding(layouts, b, stage, true);
      var k := FindExisting(layouts, b.group, b.binding).value;
      r.Ok? && r.value.Keys == layouts.Keys &&
      |r.value[b.group]| == |layouts[b.group]| &&
      r.value[b.group][k] == layouts[b.group][k].(visibility := StagesOr(layouts[b.group][k].visibility, stage)) &&
      (forall i :: 0 <= i < |layouts[b.group]| && i != k ==> r.value[b.group][i] == layouts[b.group][i]) &&
      (forall g :: g in layouts && g != b.group ==> r.value[g] == layouts[g])
  {
  }

  /**
   * A binding that is not merged (merging off, or no entry with that
   * binding number in its group) appends exactly one entry carrying
   * `stage` and the binding's layout type; every other group is unchanged.
   */
  lemma AddBindingAppends(layouts: Layouts, b: ShaderBindingInfo, stage: ShaderStages, merge: bool)
    requires CreateLayoutTy(b.ty).Ok?
    requires !merge || FindExisting(layouts, b.group, b.binding).None?
    ensures var r := AddBinding(layouts, b, stage, merge);
      r.Ok? && r.value.Keys == layouts.Keys + {b.group} &&
      r.value[b.group] == EntriesOf(layouts, b.group) + [LayoutEntry(b.binding, stage, CreateLayoutTy(b.ty).value)] &&
      (forall g :: g in layouts && g != b.group ==> r.value[g] == layouts[g])
  {
  }

  /** A binding whose type panics stops the loop with that panic. */
  lemma AddBindingPanics(layouts: Layouts, b: ShaderBindingInfo, stage: ShaderStages, merge: bool)
    requires b.ty.PushConstant? || (b.ty.StorageTexture? && NoAccess(b.ty.access))
    ensures AddBinding(layouts, b, stage, merge).Err?
    ensures b.ty.PushConstant? ==> AddBinding(layouts, b, stage, merge) == Err(PushConstantBinding)
  {
  }

  /**
   * The binding loop as the source runs it: walks the bindings in order
   * and updates the group's entry vector in place.
   */
  method PushBindings(layouts: Layouts, bs: seq<ShaderBindingInfo>, stage: ShaderStages, merge: bool)
    returns (r: Result<Layouts, LayoutPanic>)
    ensures r == AddBindings(layouts, bs, |bs|, stage, merge)
  {
    var current := layouts;
    var i := 0;
    while i < |bs|
      invariant i <= |bs|
      invariant AddBindings(layouts, bs, i, stage, merge) == Ok(current)
    {
      var b := bs[i];
      var ty := CreateLayoutTy(b.ty);
      if ty.Err? {
        AddBindingsErrSticks(layouts, bs, i + 1, |bs|, stage, merge);
        return Err(ty.error);
      }
      var entries := EntriesOf(current, b.group);
      var found := if merge then FindExisting(current, b.group, b.binding) else None;
      if found.Some? {
        var e := entries[found.value];
        current := current[b.group := entries[found.value := e.(visibility := StagesOr(e.visibility, stage))]];
      } else {
        current := current[b.group := entries + [LayoutEntry(b.binding, stage, ty.value)]];
      }
      i := i + 1;
    }
    return Ok(current);
  }

  /**
   * Without merging, the bindings of each group become that group's
   * entries one for one, in binding order, each with visibility `stage`:
   * the group's binding list is the binding numbers of the bindings of
   * that group, and a group is present exactly when one binding names it.
   */
  lemma {:induction false} AppendedEntries(bs: seq<ShaderBindingInfo>, n: nat, stage: ShaderStages, g: U32)
    requires n <= |bs|
    requires AddBindings(map[], bs, n, stage, false).Ok?
    ensures var m := AddBindings(map[], bs, n, stage, false).value;
      BindingNumbers(EntriesOf(m, g)) == GroupBindings(bs, n, g) &&
      (g in m <==> exists i :: 0 <= i < n && bs[i].group == g) &&
      forall j :: 0 <= j < |EntriesOf(m, g)| ==> EntriesOf(m, g)[j].visibility == stage
  {
    if n > 0 {
      var prev := AddBindings(map[], bs, n - 1, stage, false);
      AddBindingsStep(map[], bs, n, stage, false);
      AppendedEntries(bs, n - 1, stage, g);
      var m := AddBindings(map[], bs, n, stage, false).value;
      AppendedStep(prev.value, m, bs[n - 1], stage, g);
      if g in m && bs[n - 1].group != g {
        var i :| 0 <= i < n - 1 && bs[i].group == g;
        assert 0 <= i < n && bs[i].group == g;
      }
    }
  }

  /** One appended binding, seen from group `g`. */
  lemma AppendedStep(prev: Layouts, m: Layouts, b: ShaderBindingInfo, stage: ShaderStages, g: U32)
    requires AddBinding(prev, b, stage, false) == Ok(m)
    ensures g in m <==> g in prev || b.group == g
    ensures b.group == g ==> BindingNumbers(EntriesOf(m, g)) == BindingNumbers(EntriesOf(prev, g)) + [b.binding]
    ensures b.group != g ==> EntriesOf(m, g) == EntriesOf(prev, g)
    ensures b.group == g ==> EntriesOf(m, g) == EntriesOf(prev, g) + [LayoutEntry(b.binding, stage, CreateLayoutTy(b.ty).value)]
  {
    AddBindingAppends(prev, b, stage, false);
    if b.group == g {
      BindingNumbersAppend(EntriesOf(prev, g), LayoutEntry(b.binding, stage, CreateLayoutTy(b.ty).value));
    }
  }

  /** A successful loop over `n` bindings is the loop over `n - 1` followed by one more binding. */
  lemma AddBindingsStep(layouts: Layouts, bs: seq<ShaderBindingInfo>, n: nat, stage: ShaderStages, merge: bool)
    requires 0 < n <= |bs|
    requires AddBindings(layouts, bs, n, stage, merge).Ok?
    ensures AddBindings(layouts, bs, n - 1, stage, merge).Ok?
    ensures AddBindings(layouts, bs, n, stage, merge) ==
      AddBinding(AddBindings(layouts, bs, n - 1, stage, merge).value, bs[n - 1], stage, merge)
  {
  }

  /** Once a binding panics, the loop's outcome is that panic, however many bindings follow. */
  lemma {:induction false} AddBindingsErrSticks(layouts: Layouts, bs: seq<ShaderBindingInfo>, m: nat, n: nat, stage: ShaderStages, merge: bool)
    requires m <= n <= |bs|
    requires AddBindings(layouts, bs, m, stage, merge).Err?
    ensures AddBindings(layouts, bs, n, stage, merge) == AddBindings(layouts, bs, m, stage, merge)
    decreases n - m
  {
    if m < n {
      AddBindingsErrSticks(layouts, bs, m, n - 1, stage, merge);
    }
  }

  // ---------------------------------------------------------------------
  // Group layouts
  // ---------------------------------------------------------------------

  /** `BindGroupLayout`: the group number, its binding list and the entries the layout is created from. */
  datatype GroupLayout = GroupLayout(group: U32, bindings: seq<U32>, entries: seq<LayoutEntry>)

  /** The binding numbers of a list of entries, in order. */
  function BindingNumbers(entries: seq<LayoutEntry>): (r: seq<U32>)
    ensures |r| == |entries|
    ensures forall i :: 0 <= i < |entries| ==> r[i] == entries[i].binding
  {
    seq(|entries|, i requires 0 <= i < |entries| => entries[i].binding)
  }

  lemma BindingNumbersAppend(entries: seq<LayoutEntry>, e: LayoutEntry)
    ensures BindingNumbers(entries + [e]) == BindingNumbers(entries) + [e.binding]
  {
  }

  /** The binding numbers of those of the first `n` bindings that belong to group `g`, in order. */
  function GroupBindings(bs: seq<ShaderBindingInfo>, n: nat, g: U32): seq<U32>
    requires n <= |bs|
  {
    if n == 0 then []
    else GroupBindings(bs, n - 1, g) + (if bs[n - 1].group == g then [bs[n - 1].binding] else [])
  }

  /** The layouts of the groups listed in `order`, in that order. */
  function LayoutsIn(layouts: Layouts, order: seq<U32>): (r: seq<GroupLayout>)
    requires forall i :: 0 <= i < |order| ==> order[i] in layouts
    ensures |r| == |order|
    ensures forall i :: 0 <= i < |order| ==>
      r[i].group == order[i] && r[i].entries == layouts[order[i]] && r[i].bindings == BindingNumbers(r[i].entries)
  {
    seq(|order|, i requires 0 <= i < |order| => GroupLayout(order[i], BindingNumbers(layouts[order[i]]), layouts[order[i]]))
  }

  /** `order` lists every group of `layouts` exactly once. */
  ghost predicate IsGroupOrder(layouts: Layouts, order: seq<U32>)
  {
    (forall i, j :: 0 <= i < j < |order| ==> order[i] != order[j]) &&
    (forall g :: g in layouts <==> g in order)
  }

  lemma {:induction false} MinOf(s: set<U32>) returns (m: U32)
    requires s != {}
    ensures m in s && forall k :: k in s ==> m <= k
    decreases |s|
  {
    var x :| x in s;
    if s == {x} {
      m := x;
    } else {
      var rest := MinOf(s - {x});
      m := if x < rest then x else rest;
      forall k | k in s
        ensures m <= k
      {
        if k != x {
          assert k in s - {x};
        }
      }
    }
  }

  lemma MinExists(s: set<U32>)
    requires s != {}
    ensures exists m :: m in s && forall k :: k in s ==> m <= k
  {
    var m := MinOf(s);
  }

  /** The least group of a non-empty set. */
  function MinGroup(s: set<U32>): (m: U32)
    requires s != {}
    ensures m in s && forall k :: k in s ==> m <= k
  {
    MinExists(s);
    var m :| m in s && forall k :: k in s ==> m <= k;
    m
  }

  /** The groups of a set, in increasing order (the `sort_by_key` on the group number). */
  function SortedGroups(s: set<U32>): (r: seq<U32>)
    ensures forall i, j :: 0 <= i < j < |r| ==> r[i] < r[j]
    ensures forall g :: g in s <==> g in r
    decreases |s|
  {
    if s == {} then []
    else
      var m := MinGroup(s);
      var rest := SortedGroups(s - {m});
      LeastPrepended(m, rest, s);
      [m] + rest
  }

  lemma LeastPrepended(m: U32, rest: seq<U32>, s: set<U32>)
    requires m in s && forall k :: k in s ==> m <= k
    requires forall i, j :: 0 <= i < j < |rest| ==> rest[i] < rest[j]
    requires forall g :: g in s - {m} <==> g in rest
    ensures forall i, j :: 0 <= i < j < |[m] + rest| ==> ([m] + rest)[i] < ([m] + rest)[j]
    ensures forall g :: g in s <==> g in [m] + rest
  {
    forall i | 0 <= i < |rest|
      ensures m < rest[i]
    {
      assert rest[i] in s - {m};
    }
  }

  // ---------------------------------------------------------------------
  // Binding lookups
  // ---------------------------------------------------------------------

  predicate IsUniformNamed(b: ShaderBindingInfo, name: Text)
  {
    b.name == name && b.ty.UniformBuffer?
  }

  /** The index of the first uniform buffer at or after `from` named `name`. */
  function FirstUniformFrom(bs: seq<ShaderBindingInfo>, name: Text, from: nat): (r: Option<nat>)
    requires from <= |bs|
    ensures r.Some? ==>
      from <= r.value < |bs| && IsUniformNamed(bs[r.value], name) &&
      forall i :: from <= i < r.value ==> !IsUniformNamed(bs[i], name)
    ensures r.None? ==> forall i :: from <= i < |bs| ==> !IsUniformNamed(bs[i], name)
    decreases |bs| - from
  {
    if from == |bs| then None
    else if IsUniformNamed(bs[from], name) then Some(from)
    else FirstUniformFrom(bs, name, from + 1)
  }

  /**
   * `bindings.iter().find(..)` on name and uniform type, as (group,
   * binding): the numbers of the first uniform buffer named `name`, and
   * None exactly when there is none.
   */
  function FindUniform(bs: seq<ShaderBindingInfo>, name: Text): (r: Option<(U32, U32)>)
    ensures r.None? <==> forall i :: 0 <= i < |bs| ==> !IsUniformNamed(bs[i], name)
    ensures r.Some? ==> exists i :: (0 <= i < |bs| && IsUniformNamed(bs[i], name) &&
      r.value == (bs[i].group, bs[i].binding) &&
      forall j :: 0 <= j < i ==> !IsUniformNamed(bs[j], name))
  {
    match FirstUniformFrom(bs, name, 0)
    case None => None
    case Some(i) => Some((bs[i].group, bs[i].binding))
  }

  /** The index of the first binding at or after `from` with numbers (group, binding). */
  function FirstKeyFrom(bs: seq<ShaderBindingInfo>, group: U32, binding: U32, from: nat): (r: Option<nat>)
    requires from <= |bs|
    ensures r.Some? ==>
      from <= r.value < |bs| && bs[r.value].group == group && bs[r.value].binding == binding &&
      forall i :: from <= i < r.value ==> !(bs[i].group == group && bs[i].binding == binding)
    ensures r.None? ==> forall i :: from <= i < |bs| ==> !(bs[i].group == group && bs[i].binding == binding)
    decreases |bs| - from
  {
    if from == |bs| then None
    else if bs[from].group == group && bs[from].binding == binding then Some(from)
    else FirstKeyFrom(bs, group, binding, from + 1)
  }
}
