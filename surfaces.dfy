/**
 * The swapchain texture handed to a command buffer (`SurfaceTexture`,
 * src/gpu/command/mod.rs) and the shared "a pass is open" flags of the
 * command buffer (`Arc<AtomicBool>`, modelled as a plain boolean cell).
 */
module Surfaces {
  import opened Wrappers
  import opened ShaderTypes
  import opened Handles
  import opened Bindings
  import Wgpu
  import GpuContext

  /** A flag shared between a command buffer and the pass it opened. */
  class PassFlag {
    var value: bool

    constructor (value: bool)
      ensures this.value == value
    {
      this.value := value;
    }

    /** `store`. */
    method Store(v: bool)
      modifies this
      ensures value == v
    {
      value := v;
    }
  }

  /**
   * The surface texture of one frame: the acquired texture, if any, whether
   * it was suboptimal, and whether it has been presented.
   */
  class SurfaceTexture {
    var texture: Option<GpuContext.SurfaceFrame>
    var suboptimal: bool
    var presented: bool

    /** `new`: no texture, not suboptimal, not presented. */
    constructor ()
      ensures texture.None? && !suboptimal && !presented
    {
      texture := None;
      suboptimal := false;
      presented := false;
    }

    /** `set_texture`: holds the frame, records its suboptimal flag, and is not presented yet. */
    method SetTexture(frame: GpuContext.SurfaceFrame)
      modifies this
      ensures texture == Some(frame) && suboptimal == frame.suboptimal && !presented
      ensures IsValid()
    {
      suboptimal := frame.suboptimal;
      texture := Some(frame);
      presented := false;
    }

    /** `is_valid`: a texture is held. */
    predicate IsValid()
      reads this
    {
      texture.Some?
    }

    /** `get_view`: a view of the held texture; a panic without one. */
    function View(): (r: Result<Handle, PassPanic>)
      reads this
      ensures r.Ok? <==> IsValid()
      ensures r.Ok? ==> r.value == texture.value.view
      ensures r.Err? ==> r.error == SurfaceTextureMissing
    {
      if texture.None? then Err(SurfaceTextureMissing) else Ok(texture.value.view)
    }

    /** `get_size`: the held texture's width and height; a panic without one. */
    function Size(): (r: Result<(U32, U32), PassPanic>)
      reads this
      ensures r.Ok? <==> IsValid()
      ensures r.Ok? ==> r.value == (texture.value.width, texture.value.height)
      ensures r.Err? ==> r.error == SurfaceTextureMissing
    {
      if texture.None? then Err(SurfaceTextureMissing) else Ok((texture.value.width, texture.value.height))
    }

    /** `get_format`: the held texture's format; a panic without one. */
    function Format(): (r: Result<Wgpu.TextureFormat, PassPanic>)
      reads this
      ensures r.Ok? <==> IsValid()
      ensures r.Ok? ==> r.value == texture.value.format
      ensures r.Err? ==> r.error == SurfaceTextureMissing
    {
      if texture.None? then Err(SurfaceTextureMissing) else Ok(texture.value.format)
    }

    /**
     * `present`: when a texture is held it is taken and presented (the
     * returned frame) and `presented` becomes true; otherwise nothing
     * happens. So a second `present` presents nothing.
     */
    method Present() returns (r: Option<GpuContext.SurfaceFrame>)
      modifies this
      ensures r == old(texture)
      ensures texture.None? && suboptimal == old(suboptimal)
      ensures presented == (old(presented) || old(texture).Some?)
    {
      r := texture;
      if texture.Some? {
        texture := None;
        presented := true;
      }
    }
  }
}
