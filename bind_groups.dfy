/**
 * How a render pass and a compute pass turn their attachment table into
 * bind groups at draw or dispatch time (the `prepare_pipeline` of
 * src/gpu/command/renderpass.rs and src/gpu/command/compute.rs): the
 * cache is asked for the table's key first; on a miss the attachments are
 * folded into one entry list per group, each list is sorted by binding,
 * each group is paired with the shader's layout for it (a missing layout
 * is the `unwrap` panic), and one bind group per group is created and
 * cached under the key.
 *
 * The key (a hash of the table) is a parameter, and so is the order in
 * which the fold's HashMap yields its groups.
 */
module BindGroups {
  import opened Wrappers
  import opened ShaderTypes
  import opened Handles
  import opened Bindings
  import ShaderLayouts
  import Caches
  import GpuContext

  /** The groups that have at least one attachment. */
  function GroupsOf(atts: seq<BindGroupAttachment>): (r: set<U32>)
    ensures forall a :: a in atts ==> a.group in r
    ensures forall g :: g in r ==> exists a :: a in atts && a.group == g
  {
    set a | a in atts :: a.group
  }

  /** `order` lists every group of the table exactly once: an iteration order of the fold's HashMap. */
  predicate IsGroupOrder(atts: seq<BindGroupAttachment>, order: seq<U32>)
  {
    (forall i, j :: 0 <= i < j < |order| ==> order[i] != order[j]) &&
    (forall i :: 0 <= i < |order| ==> order[i] in GroupsOf(atts)) &&
    (forall a :: a in atts ==> a.group in order)
  }

  /** `layout.iter().find(|l| l.group == group)`. */
  function FindLayout(layouts: seq<ShaderLayouts.GroupLayout>, group: U32): (r: Option<ShaderLayouts.GroupLayout>)
    ensures r.Some? ==> r.value in layouts && r.value.group == group
    ensures r.None? <==> forall l :: l in layouts ==> l.group != group
  {
    if |layouts| == 0 then None
    else if layouts[0].group == group then Some(layouts[0])
    else FindLayout(layouts[1..], group)
  }

  /** Group `order[i]` is the first of `order` without a layout. */
  predicate FirstMissing(layouts: seq<ShaderLayouts.GroupLayout>, order: seq<U32>, i: nat)
    requires i < |order|
  {
    FindLayout(layouts, order[i]).None? && forall j :: 0 <= j < i ==> FindLayout(layouts, order[j]).Some?
  }

  /**
   * `BindGroupCreateInfo`: per group of `order`, in that order, the
   * group's layout and its entries sorted by binding; the first group
   * without a layout is the panic.
   */
  function CreateInfo(atts: seq<BindGroupAttachment>, layouts: seq<ShaderLayouts.GroupLayout>, order: seq<U32>)
    : (r: Result<seq<(ShaderLayouts.GroupLayout, seq<BindGroupAttachment>)>, PassPanic>)
    ensures r.Ok? ==> |r.value| == |order|
    ensures r.Ok? ==> forall i :: 0 <= i < |order| ==>
      r.value[i].0.group == order[i] && r.value[i].0 in layouts && r.value[i].1 == GroupEntries(atts, order[i])
    ensures r.Err? ==> r.error.LayoutMissing?
  {
    if |order| == 0 then Ok([])
    else
      match FindLayout(layouts, order[0])
      case None => Err(LayoutMissing(order[0]))
      case Some(l) =>
        var rest := CreateInfo(atts, layouts, order[1..]);
        if rest.Err? then Err(rest.error)
        else
          assert forall i :: 1 <= i < |order| ==> order[i] == order[1..][i - 1];
          Ok([(l, GroupEntries(atts, order[0]))] + rest.value)
  }

  /** The build fails exactly when a group of `order` has no layout, and then names the first such group. */
  lemma {:induction false} CreateInfoFailure(atts: seq<BindGroupAttachment>, layouts: seq<ShaderLayouts.GroupLayout>, order: seq<U32>)
    ensures CreateInfo(atts, layouts, order).Ok? <==> forall i :: 0 <= i < |order| ==> FindLayout(layouts, order[i]).Some?
    ensures var r := CreateInfo(atts, layouts, order);
      r.Err? ==> exists i :: 0 <= i < |order| && r.error == LayoutMissing(order[i]) && FirstMissing(layouts, order, i)
  {
    if |order| > 0 && FindLayout(layouts, order[0]).Some? {
      var tail := order[1..];
      CreateInfoFailure(atts, layouts, tail);
      assert forall i :: 1 <= i < |order| ==> order[i] == tail[i - 1];
      var rest := CreateInfo(atts, layouts, tail);
      if rest.Err? {
        var k :| 0 <= k < |tail| && rest.error == LayoutMissing(tail[k]) && FirstMissing(layouts, tail, k);
        assert FirstMissing(layouts, order, k + 1) by {
          forall j | 0 <= j < k + 1
            ensures FindLayout(layouts, order[j]).Some?
          {
            if j > 0 {
              assert order[j] == tail[j - 1];
            }
          }
        }
      } else {
        forall i | 0 <= i < |order|
          ensures FindLayout(layouts, order[i]).Some?
        {
          if i > 0 {
            assert order[i] == tail[i - 1];
          }
        }
      }
    } else if |order| > 0 {
      assert FirstMissing(layouts, order, 0);
    }
  }

  /**
   * The entry lists handed to the device are sorted by binding within each
   * group; with unique table keys no binding appears twice in a group.
   */
  lemma CreateInfoSorted(atts: seq<BindGroupAttachment>, layouts: seq<ShaderLayouts.GroupLayout>, order: seq<U32>)
    requires UniqueKeys(atts) && CreateInfo(atts, layouts, order).Ok?
    ensures forall i :: 0 <= i < |order| ==> StrictlyByBinding(CreateInfo(atts, layouts, order).value[i].1)
  {
    forall i | 0 <= i < |order|
      ensures StrictlyByBinding(CreateInfo(atts, layouts, order).value[i].1)
    {
      GroupEntriesStrict(atts, order[i]);
    }
  }

  /** An attachment the compute pass's fold can turn into an entry: a storage buffer or a storage texture. */
  predicate ComputeSupported(a: BindGroupAttachment)
  {
    a.attachment.Storage? || a.attachment.TextureStorage?
  }

  /**
   * What a cache miss yields: on the compute side the "unsupported bind
   * group type" panic for any other attachment, then the missing-layout
   * panic, else the group numbers of `order` paired with the bind groups
   * the device created for them.
   */
  function CreatedBindGroups(atts: seq<BindGroupAttachment>, layouts: seq<ShaderLayouts.GroupLayout>, order: seq<U32>,
                             created: seq<Handle>, computeOnly: bool): (r: Result<seq<(U32, Handle)>, PassPanic>)
    requires |created| == |order|
    ensures computeOnly && (exists a :: a in atts && !ComputeSupported(a)) ==> r == Err(UnsupportedComputeAttachment)
    ensures r.Ok? <==> (!computeOnly || forall a :: a in atts ==> ComputeSupported(a)) && CreateInfo(atts, layouts, order).Ok?
    ensures r.Ok? ==> |r.value| == |order| && forall i :: 0 <= i < |order| ==> r.value[i] == (order[i], created[i])
  {
    if computeOnly && exists a :: a in atts && !ComputeSupported(a) then Err(UnsupportedComputeAttachment)
    else
      match CreateInfo(atts, layouts, order)
      case Err(e) => Err(e)
      case Ok(_) => Ok(Pairs(order, created))
  }

  function Pairs(groups: seq<U32>, created: seq<Handle>): (r: seq<(U32, Handle)>)
    requires |groups| == |created|
    ensures |r| == |groups| && forall i :: 0 <= i < |groups| ==> r[i] == (groups[i], created[i])
  {
    if |groups| == 0 then [] else [(groups[0], created[0])] + Pairs(groups[1..], created[1..])
  }

  /** With a group order, every group that has attachments gets exactly one bind group, at one position. */
  lemma EveryGroupBoundOnce(atts: seq<BindGroupAttachment>, layouts: seq<ShaderLayouts.GroupLayout>, order: seq<U32>,
                            created: seq<Handle>, computeOnly: bool, g: U32)
    requires IsGroupOrder(atts, order) && |created| == |order|
    requires CreatedBindGroups(atts, layouts, order, created, computeOnly).Ok?
    ensures var r := CreatedBindGroups(atts, layouts, order, created, computeOnly).value;
      (exists a :: a in atts && a.group == g) <==> (exists i :: 0 <= i < |r| && r[i].0 == g)
    ensures var r := CreatedBindGroups(atts, layouts, order, created, computeOnly).value;
      forall i, j :: 0 <= i < j < |r| ==> r[i].0 != r[j].0
  {
    var r := CreatedBindGroups(atts, layouts, order, created, computeOnly).value;
    if exists a :: a in atts && a.group == g {
      var a :| a in atts && a.group == g;
      assert g in GroupsOf(atts);
      var i :| 0 <= i < |order| && order[i] == g;
      assert r[i].0 == g;
    }
    if exists i :: 0 <= i < |r| && r[i].0 == g {
      var i :| 0 <= i < |r| && r[i].0 == g;
      assert order[i] in order;
    }
  }

  /**
   * The bind groups of a draw or dispatch: a panic on an invalid context;
   * a cache hit returns the cached list and resets its age; a miss builds
   * them as `CreatedBindGroups` says and caches the result under `key`.
   */
  method ResolveBindGroups(gpu: GpuContext.GpuInner, key: Key, atts: seq<BindGroupAttachment>,
                           layouts: seq<ShaderLayouts.GroupLayout>, order: seq<U32>, created: seq<Handle>,
                           computeOnly: bool) returns (r: Result<seq<(U32, Handle)>, PassPanic>)
    requires IsGroupOrder(atts, order) && |created| == |order|
    modifies gpu.bindGroupManager
    ensures gpu.isInvalid ==> r == Err(InvalidContext) && unchanged(gpu.bindGroupManager)
    ensures !gpu.isInvalid && key in old(gpu.bindGroupManager.bindGroups) ==>
      r == Ok(old(gpu.bindGroupManager.bindGroups)[key].0) &&
      gpu.bindGroupManager.bindGroups == Caches.Touched(old(gpu.bindGroupManager.bindGroups), key)
    ensures !gpu.isInvalid && key !in old(gpu.bindGroupManager.bindGroups) ==>
      r == CreatedBindGroups(atts, layouts, order, created, computeOnly)
    ensures !gpu.isInvalid && key !in old(gpu.bindGroupManager.bindGroups) && r.Ok? ==>
      gpu.bindGroupManager.bindGroups == Caches.Stored(old(gpu.bindGroupManager.bindGroups), key, r.value)
    ensures !gpu.isInvalid && key !in old(gpu.bindGroupManager.bindGroups) && r.Err? ==>
      gpu.bindGroupManager.bindGroups == old(gpu.bindGroupManager.bindGroups)
    ensures r.Ok? ==> key in gpu.bindGroupManager.bindGroups && gpu.bindGroupManager.bindGroups[key] == (r.value, 0)
  {
    var cached := gpu.GetBindGroup(key);
    if cached.Err? {
      return Err(InvalidContext);
    }
    if cached.value.Some? {
      return Ok(cached.value.value);
    }
    var info := CreatedBindGroups(atts, layouts, order, created, computeOnly);
    if info.Err? {
      return Err(info.error);
    }
    var made := gpu.CreateBindGroup(key, order, created);
    assert made.Ok?;
    assert made.value == info.value;
    return Ok(made.value);
  }
}
