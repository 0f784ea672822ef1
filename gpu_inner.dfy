/**
 * The shared GPU context (src/gpu/gpu_inner.rs): the surface
 * configuration and its resize and vsync updates, swapchain acquisition,
 * the buffer-creation helpers with their size rounding, the guards every
 * device access goes through once the context is invalid, and the pinning
 * of the window a context is created for.
 *
 * wgpu itself is outside the model: the instance, adapter and device
 * requests are summed up by whether they succeed, the surface by its
 * capabilities, and the swapchain texture by what `get_current_texture`
 * returns. A buffer the device creates is represented by its bytes. Panics
 * become error values of `GpuError`.
 */
module GpuContext {
  import opened Wrappers
  import opened ShaderTypes
  import opened Handles
  import Wgpu
  import Caches

  const TWO_64: int := 0x1_0000_0000_0000_0000

  /** u64 wrap-around of a release build. */
  function Wrap64(x: int): (r: U64)
    ensures 0 <= x < TWO_64 ==> r == x
  {
    x % TWO_64
  }

  /**
   * `internal_make_buffer`'s size: `(size + 3) & !3` in u64, at least 4.
   * Clearing the two low bits of a natural is subtracting its remainder
   * modulo 4.
   */
  function AllocSize(size: nat): (r: nat)
    ensures r >= 4 && r % 4 == 0
  {
    var bumped := Wrap64(size + 3);
    var aligned := bumped - bumped % 4;
    if aligned < 4 then 4 else aligned
  }

  /**
   * For every size that does not overflow, the allocation is the least
   * multiple of 4 that holds `size` bytes and is not empty.
   */
  lemma AllocSizeIsLeastMultiple(size: nat)
    requires size <= TWO_64 - 4
    ensures size <= AllocSize(size) < size + 4 || (size == 0 && AllocSize(size) == 4)
    ensures forall m :: size <= m && 0 < m && m % 4 == 0 ==> AllocSize(size) <= m
  {
    assert Wrap64(size + 3) == size + 3;
  }

  /** Near the top of the u64 range `size + 3` wraps and the allocation is 4 bytes. */
  lemma AllocSizeWraps(size: nat)
    requires TWO_64 - 3 <= size < TWO_64
    ensures AllocSize(size) == 4
  {
    assert Wrap64(size + 3) == size + 3 - TWO_64;
  }

  datatype GpuError =
    | InvalidContext
    | ZeroBufferSize
    | EmptyData
    | MappedRangeTooShort
    | NotInitializedWithWindow
    | ConfigNotInitialized
    | WindowClosed
    | WindowPinned
    | HeadlessFailed
    | SurfaceFailed
    | NoSurfaceCapabilities

  /**
   * A texture acquired from the surface (`wgpu::SurfaceTexture`): the
   * texture, the view `get_view` makes of it, its size and format, and
   * whether the surface reported it suboptimal.
   */
  datatype SurfaceFrame = SurfaceFrame(texture: Handle, view: Handle, width: U32, height: U32,
                                       format: Wgpu.TextureFormat, suboptimal: bool)

  datatype SwapchainError = NotAvailable | ConfigNeeded | DeviceLost | Suboptimal(frame: SurfaceFrame)

  /** The fields of `wgpu::SurfaceConfiguration` the crate reads or changes. */
  datatype SurfaceConfig = SurfaceConfig(width: U32, height: U32, presentMode: Wgpu.PresentMode, format: Wgpu.TextureFormat)

  /** What `surface.get_capabilities` reports; wgpu lists at least one format and one present mode. */
  datatype SurfaceCapabilities = SurfaceCapabilities(formats: seq<Wgpu.TextureFormat>, presentModes: seq<Wgpu.PresentMode>,
                                                     alphaModes: seq<Wgpu.CompositeAlphaMode>)

  /** Whether the configuration can take the first format, present mode and alpha mode the surface reports. */
  predicate HasCapabilities(caps: SurfaceCapabilities)
  {
    |caps.formats| > 0 && |caps.presentModes| > 0 && |caps.alphaModes| > 0
  }

  /** The first sRGB format, or else the first format. */
  function SurfaceFormat(formats: seq<Wgpu.TextureFormat>): (r: Wgpu.TextureFormat)
    requires |formats| > 0
    ensures r in formats
    ensures (exists i :: 0 <= i < |formats| && Wgpu.IsSrgb(formats[i])) <==> Wgpu.IsSrgb(r)
    ensures Wgpu.IsSrgb(r) ==> exists i :: (0 <= i < |formats| && formats[i] == r &&
      forall j :: 0 <= j < i ==> !Wgpu.IsSrgb(formats[j]))
    ensures !Wgpu.IsSrgb(r) ==> r == formats[0]
  {
    if Wgpu.IsSrgb(formats[0]) || |formats| == 1 then formats[0]
    else
      var rest := SurfaceFormat(formats[1..]);
      if Wgpu.IsSrgb(rest) then
        assert forall i :: 1 <= i < |formats| ==> formats[i] == formats[1..][i - 1];
        rest
      else formats[0]
  }

  /**
   * The new configuration of `resize`: a zero dimension zeroes both, an
   * unchanged size keeps the configuration, any other size is taken.
   */
  function Resized(c: SurfaceConfig, width: U32, height: U32): (r: SurfaceConfig)
    ensures r.presentMode == c.presentMode && r.format == c.format
    ensures width == 0 || height == 0 ==> r.width == 0 && r.height == 0
    ensures width != 0 && height != 0 ==> r.width == width && r.height == height
  {
    if width == 0 || height == 0 then c.(width := 0, height := 0)
    else if c.width == width && c.height == height then c
    else c.(width := width, height := height)
  }

  /** `set_vsync`'s present mode: Fifo with vsync, Immediate without. */
  function VsyncMode(vsync: bool): (r: Wgpu.PresentMode)
    ensures r == Wgpu.Fifo <==> vsync
  {
    if vsync then Wgpu.Fifo else Wgpu.Immediate
  }

  /** The window a context draws to; a window serves one softbuffer or GPU context at a time. */
  class WindowHandle {
    var closed: bool
    var pinned: bool

    constructor(closed: bool, pinned: bool)
      ensures this.closed == closed && this.pinned == pinned
    {
      this.closed := closed;
      this.pinned := pinned;
    }
  }

  class GpuInner {
    var isInvalid: bool
    var window: Option<WindowHandle>
    var hasSurface: bool
    var config: Option<SurfaceConfig>
    const device: Handle
    const queue: Handle
    const pipelineManager: Caches.PipelineManager
    const bindGroupManager: Caches.BindGroupManager

    /** `new` sets the window, the surface and the configuration together; `new_headless` none of them. */
    ghost predicate Valid()
      reads this
    {
      (window.Some? <==> hasSurface) && (hasSurface <==> config.Some?)
    }

    /** `new_headless` after its adapter and device requests succeeded: no window, fresh caches. */
    constructor Headless(device: Handle, queue: Handle)
      ensures Valid() && !isInvalid && window.None? && !hasSurface && config.None?
      ensures this.device == device && this.queue == queue
      ensures fresh(pipelineManager) && fresh(bindGroupManager)
      ensures pipelineManager.graphicsPipelines == map[] && pipelineManager.computePipelines == map[]
      ensures bindGroupManager.bindGroups == map[]
    {
      isInvalid := false;
      window := None;
      hasSurface := false;
      config := None;
      this.device := device;
      this.queue := queue;
      pipelineManager := new Caches.PipelineManager();
      bindGroupManager := new Caches.BindGroupManager();
    }

    /**
     * `new`: a closed window and a window already pinned are refused
     * before anything is requested; then the headless context and the
     * surface must be created. The first format, present mode and alpha
     * mode the surface reports are then indexed, which panics
     * (`NoSurfaceCapabilities`) when one of the lists is empty: the adapter
     * is requested without a compatible surface, so nothing rules that out.
     * On success the window is pinned and the configuration is 0×0 with the
     * surface's first present mode and its first sRGB format (or first
     * format).
     */
    static method New(window: WindowHandle, headlessOk: bool, surfaceOk: bool, caps: SurfaceCapabilities,
                      device: Handle, queue: Handle) returns (r: Result<GpuInner, GpuError>)
      modifies window
      ensures window.closed == old(window.closed)
      ensures old(window.closed) ==> r == Err(WindowClosed)
      ensures !old(window.closed) && old(window.pinned) ==> r == Err(WindowPinned)
      ensures !old(window.closed) && !old(window.pinned) && !headlessOk ==> r == Err(HeadlessFailed)
      ensures !old(window.closed) && !old(window.pinned) && headlessOk && !surfaceOk ==> r == Err(SurfaceFailed)
      ensures !old(window.closed) && !old(window.pinned) && headlessOk && surfaceOk && !HasCapabilities(caps) ==>
        r == Err(NoSurfaceCapabilities)
      ensures r.Ok? <==> !old(window.closed) && !old(window.pinned) && headlessOk && surfaceOk && HasCapabilities(caps)
      ensures r.Err? ==> window.pinned == old(window.pinned)
      ensures r.Ok? ==> window.pinned && fresh(r.value) && r.value.Valid() && !r.value.isInvalid
      ensures r.Ok? ==> r.value.window == Some(window) && r.value.hasSurface
      ensures r.Ok? ==> HasCapabilities(caps)
      ensures r.Ok? ==> r.value.config == Some(SurfaceConfig(0, 0, caps.presentModes[0], SurfaceFormat(caps.formats)))
    {
      if window.closed {
        return Err(WindowClosed);
      }
      if window.pinned {
        return Err(WindowPinned);
      }
      if !headlessOk {
        return Err(HeadlessFailed);
      }
      var inner := new GpuInner.Headless(device, queue);
      if !surfaceOk {
        return Err(SurfaceFailed);
      }
      if !HasCapabilities(caps) {
        return Err(NoSurfaceCapabilities);
      }
      var config := SurfaceConfig(0, 0, caps.presentModes[0], SurfaceFormat(caps.formats));
      window.pinned := true;
      inner.hasSurface := true;
      inner.window := Some(window);
      inner.config := Some(config);
      return Ok(inner);
    }

    /** `get_device` and `get_queue`: a panic once the context is invalid. */
    function Device(): (r: Result<Handle, GpuError>)
      reads this
      ensures r.Err? <==> isInvalid
      ensures r.Ok? ==> r.value == device
    {
      if isInvalid then Err(InvalidContext) else Ok(device)
    }

    function Queue(): (r: Result<Handle, GpuError>)
      reads this
      ensures r.Err? <==> isInvalid
      ensures r.Ok? ==> r.value == queue
    {
      if isInvalid then Err(InvalidContext) else Ok(queue)
    }

    /** `is_srgb`: whether the configured format is sRGB; a panic when invalid or without a configuration. */
    function IsSrgb(): (r: Result<bool, GpuError>)
      reads this
      ensures isInvalid ==> r == Err(InvalidContext)
      ensures !isInvalid && config.None? ==> r == Err(ConfigNotInitialized)
      ensures r.Ok? ==> config.Some? && (r.value <==> Wgpu.IsSrgb(config.value.format))
    {
      if isInvalid then Err(InvalidContext)
      else if config.None? then Err(ConfigNotInitialized)
      else Ok(Wgpu.IsSrgb(config.value.format))
    }

    /** `is_vsync`: whether the present mode is Fifo; a panic when invalid or without a configuration. */
    function IsVsync(): (r: Result<bool, GpuError>)
      reads this
      ensures isInvalid ==> r == Err(InvalidContext)
      ensures !isInvalid && config.None? ==> r == Err(ConfigNotInitialized)
      ensures r.Ok? ==> config.Some? && (r.value <==> config.value.presentMode == Wgpu.Fifo)
    {
      if isInvalid then Err(InvalidContext)
      else if config.None? then Err(ConfigNotInitialized)
      else Ok(config.value.presentMode == Wgpu.Fifo)
    }

    /**
     * `get_swapchain`: NotAvailable without a surface, ConfigNeeded while
     * a dimension is 0, DeviceLost when the surface gives no texture
     * (`acquired` is None), Suboptimal with the texture when it is
     * suboptimal. Note that there is no check of `is_invalid`.
     */
    function GetSwapchain(acquired: Option<SurfaceFrame>): (r: Result<SurfaceFrame, SwapchainError>)
      reads this
      requires Valid()
      ensures !hasSurface ==> r == Err(NotAvailable)
      ensures hasSurface && (config.value.width == 0 || config.value.height == 0) ==> r == Err(ConfigNeeded)
      ensures r.Ok? || r.error.Suboptimal? ==>
        hasSurface && config.value.width != 0 && config.value.height != 0 && acquired.Some?
      ensures r.Ok? ==> r.value == acquired.value && !acquired.value.suboptimal
      ensures r.Err? && r.error.Suboptimal? ==> r.error.frame == acquired.value && acquired.value.suboptimal
      ensures hasSurface && config.value.width != 0 && config.value.height != 0 && acquired.None? ==> r == Err(DeviceLost)
    {
      if !hasSurface then Err(NotAvailable)
      else if config.value.width == 0 || config.value.height == 0 then Err(ConfigNeeded)
      else
        match acquired
        case None => Err(DeviceLost)
        case Some(frame) => if frame.suboptimal then Err(Suboptimal(frame)) else Ok(frame)
    }

    /**
     * `resize`: nothing on an invalid context; a panic without a window
     * or surface; otherwise the configuration becomes `Resized`.
     */
    method Resize(width: U32, height: U32) returns (r: Result<(), GpuError>)
      requires Valid()
      modifies this
      ensures Valid()
      ensures isInvalid == old(isInvalid) && window == old(window) && hasSurface == old(hasSurface)
      ensures old(isInvalid) ==> r == Ok(()) && config == old(config)
      ensures !old(isInvalid) && !old(hasSurface) ==> r == Err(NotInitializedWithWindow) && config == old(config)
      ensures !old(isInvalid) && old(hasSurface) ==>
        r == Ok(()) && config == Some(Resized(old(config).value, width, height))
    {
      if isInvalid {
        return Ok(());
      }
      if window.None? || !hasSurface {
        return Err(NotInitializedWithWindow);
      }
      var c := config.value;
      if width == 0 || height == 0 {
        config := Some(c.(width := 0, height := 0));
        return Ok(());
      }
      if c.width == width && c.height == height {
        return Ok(());
      }
      config := Some(c.(width := width, height := height));
      return Ok(());
    }

    /** `set_vsync`: nothing on an invalid context; a panic without a window; otherwise the present mode becomes `VsyncMode(vsync)`. */
    method SetVsync(vsync: bool) returns (r: Result<(), GpuError>)
      requires Valid()
      modifies this
      ensures Valid()
      ensures isInvalid == old(isInvalid) && window == old(window) && hasSurface == old(hasSurface)
      ensures old(isInvalid) ==> r == Ok(()) && config == old(config)
      ensures !old(isInvalid) && !old(hasSurface) ==> r == Err(NotInitializedWithWindow) && config == old(config)
      ensures !old(isInvalid) && old(hasSurface) ==>
        r == Ok(()) && config == Some(old(config).value.(presentMode := VsyncMode(vsync)))
    {
      if isInvalid {
        return Ok(());
      }
      if window.None? || !hasSurface {
        return Err(NotInitializedWithWindow);
      }
      config := Some(config.value.(presentMode := VsyncMode(vsync)));
      return Ok(());
    }

    /** `cycle_manager`: once per frame both caches age, unless the context is invalid. */
    method CycleManager()
      modifies pipelineManager, bindGroupManager
      ensures isInvalid ==> unchanged(pipelineManager) && unchanged(bindGroupManager)
      ensures !isInvalid ==>
        pipelineManager.graphicsPipelines ==
          Caches.Aged(old(pipelineManager.graphicsPipelines), Caches.PIPELINE_LIFETIME_FRAMES) &&
        pipelineManager.computePipelines ==
          Caches.Aged(old(pipelineManager.computePipelines), Caches.PIPELINE_LIFETIME_FRAMES) &&
        bindGroupManager.bindGroups == Caches.Aged(old(bindGroupManager.bindGroups), Caches.BIND_GROUP_LIFETIME)
    {
      if isInvalid {
        return;
      }
      pipelineManager.Cycle();
      bindGroupManager.Cycle();
    }

    /**
     * `create_buffer`: panics on an invalid context and on size 0;
     * otherwise a zeroed buffer of `AllocSize(size)` bytes.
     */
    function CreateBuffer(size: nat): (r: Result<seq<Byte>, GpuError>)
      reads this
      ensures isInvalid ==> r == Err(InvalidContext)
      ensures !isInvalid && size == 0 ==> r == Err(ZeroBufferSize)
      ensures r.Ok? ==> r.value == Zeros(AllocSize(size))
      ensures r.Ok? <==> !isInvalid && size > 0
    {
      if isInvalid then Err(InvalidContext)
      else if size == 0 then Err(ZeroBufferSize)
      else Ok(Zeros(AllocSize(size)))
    }

    /**
     * `create_buffer_with`: panics on an invalid context and on empty
     * data; otherwise a buffer of `AllocSize(|data|)` bytes that starts
     * with the data and is zero after it. The copy into the mapped range
     * panics when the rounded size wrapped below the data length.
     */
    function CreateBufferWith(data: seq<Byte>): (r: Result<seq<Byte>, GpuError>)
      reads this
      ensures isInvalid ==> r == Err(InvalidContext)
      ensures !isInvalid && |data| == 0 ==> r == Err(EmptyData)
      ensures r.Ok? ==> |data| <= |r.value| == AllocSize(|data|)
      ensures r.Ok? ==> r.value[..|data|] == data && forall i :: |data| <= i < |r.value| ==> r.value[i] == 0
      ensures !isInvalid && 0 < |data| <= TWO_64 - 4 ==> r.Ok?
    {
      if isInvalid then Err(InvalidContext)
      else if |data| == 0 then Err(EmptyData)
      else if AllocSize(|data|) < |data| then Err(MappedRangeTooShort)
      else
        AllocSizeHolds(|data|);
        Ok(data + Zeros(AllocSize(|data|) - |data|))
    }

    /** `get_graphics_pipeline` and the other cache accessors: a panic once the context is invalid, else the cache lookup. */
    method GetGraphicsPipeline(key: Key) returns (r: Result<Option<Handle>, GpuError>)
      modifies pipelineManager
      ensures isInvalid ==> r == Err(InvalidContext) && unchanged(pipelineManager)
      ensures !isInvalid ==> r.Ok? && (key in old(pipelineManager.graphicsPipelines) <==> r.value.Some?)
      ensures !isInvalid && r.value.Some? ==> r.value.value == old(pipelineManager.graphicsPipelines)[key].0
      ensures !isInvalid ==> pipelineManager.graphicsPipelines == Caches.Touched(old(pipelineManager.graphicsPipelines), key)
      ensures pipelineManager.computePipelines == old(pipelineManager.computePipelines)
    {
      if isInvalid {
        return Err(InvalidContext);
      }
      var p := pipelineManager.GetGraphicsPipeline(key);
      return Ok(p);
    }

    method GetBindGroup(key: Key) returns (r: Result<Option<seq<(U32, Handle)>>, GpuError>)
      modifies bindGroupManager
      ensures isInvalid ==> r == Err(InvalidContext) && unchanged(bindGroupManager)
      ensures !isInvalid ==> r.Ok? && (key in old(bindGroupManager.bindGroups) <==> r.value.Some?)
      ensures !isInvalid && r.value.Some? ==> r.value.value == old(bindGroupManager.bindGroups)[key].0
      ensures !isInvalid ==> bindGroupManager.bindGroups == Caches.Touched(old(bindGroupManager.bindGroups), key)
    {
      if isInvalid {
        return Err(InvalidContext);
      }
      var g := bindGroupManager.Get(key);
      return Ok(g);
    }

    /** `create_graphics_pipeline`: a panic once the context is invalid, else the pipeline the device made is stored under `key`. */
    method CreateGraphicsPipeline(key: Key, created: Handle) returns (r: Result<Handle, GpuError>)
      modifies pipelineManager
      ensures isInvalid ==> r == Err(InvalidContext) && unchanged(pipelineManager)
      ensures !isInvalid ==> r == Ok(created)
      ensures !isInvalid ==> pipelineManager.graphicsPipelines == Caches.Stored(old(pipelineManager.graphicsPipelines), key, created)
      ensures pipelineManager.computePipelines == old(pipelineManager.computePipelines)
    {
      if isInvalid {
        return Err(InvalidContext);
      }
      var p := pipelineManager.CreateGraphicsPipeline(key, created);
      return Ok(p);
    }

    method GetComputePipeline(key: Key) returns (r: Result<Option<Handle>, GpuError>)
      modifies pipelineManager
      ensures isInvalid ==> r == Err(InvalidContext) && unchanged(pipelineManager)
      ensures !isInvalid ==> r.Ok? && (key in old(pipelineManager.computePipelines) <==> r.value.Some?)
      ensures !isInvalid && r.value.Some? ==> r.value.value == old(pipelineManager.computePipelines)[key].0
      ensures !isInvalid ==> pipelineManager.computePipelines == Caches.Touched(old(pipelineManager.computePipelines), key)
      ensures pipelineManager.graphicsPipelines == old(pipelineManager.graphicsPipelines)
    {
      if isInvalid {
        return Err(InvalidContext);
      }
      var p := pipelineManager.GetComputePipeline(key);
      return Ok(p);
    }

    method CreateComputePipeline(key: Key, created: Handle) returns (r: Result<Handle, GpuError>)
      modifies pipelineManager
      ensures isInvalid ==> r == Err(InvalidContext) && unchanged(pipelineManager)
      ensures !isInvalid ==> r == Ok(created)
      ensures !isInvalid ==> pipelineManager.computePipelines == Caches.Stored(old(pipelineManager.computePipelines), key, created)
      ensures pipelineManager.graphicsPipelines == old(pipelineManager.graphicsPipelines)
    {
      if isInvalid {
        return Err(InvalidContext);
      }
      var p := pipelineManager.CreateComputePipeline(key, created);
      return Ok(p);
    }

    /**
     * `create_bind_group`: a panic once the context is invalid, else one
     * bind group per (layout group, entries) pair, stored under `key`.
     */
    method CreateBindGroup(key: Key, groups: seq<U32>, created: seq<Handle>) returns (r: Result<seq<(U32, Handle)>, GpuError>)
      requires |groups| == |created|
      modifies bindGroupManager
      ensures isInvalid ==> r == Err(InvalidContext) && unchanged(bindGroupManager)
      ensures !isInvalid ==> r.Ok? && |r.value| == |groups|
      ensures !isInvalid ==> forall i :: 0 <= i < |groups| ==> r.value[i] == (groups[i], created[i])
      ensures !isInvalid ==> bindGroupManager.bindGroups == Caches.Stored(old(bindGroupManager.bindGroups), key, r.value)
    {
      if isInvalid {
        return Err(InvalidContext);
      }
      var g := bindGroupManager.Create(key, groups, created);
      return Ok(g);
    }
  }


  lemma AllocSizeHolds(n: nat)
    requires 0 < n <= TWO_64 - 4
    ensures n <= AllocSize(n)
  {
    AllocSizeIsLeastMultiple(n);
  }

  /** After a zero-size resize the swapchain reports ConfigNeeded until a non-zero resize. */
  lemma ZeroResizeNeedsConfig(c: SurfaceConfig, width: U32, height: U32)
    requires width == 0 || height == 0
    ensures Resized(c, width, height).width == 0 && Resized(c, width, height).height == 0
    ensures Resized(Resized(c, width, height), 0, 0) == Resized(c, width, height)
  {
  }

  /** `is_vsync` after `set_vsync(v)` is `v`. */
  lemma VsyncRoundTrip(c: SurfaceConfig, vsync: bool)
    ensures (c.(presentMode := VsyncMode(vsync)).presentMode == Wgpu.Fifo) == vsync
  {
  }
}
