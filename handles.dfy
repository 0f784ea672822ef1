/**
 * Opaque handles for the objects the crate receives from wgpu (devices,
 * buffers, textures, views, samplers, bind groups, layouts, pipelines,
 * shader modules). Nothing about such an object is modelled beyond its
 * identity, and cache keys computed with a hasher are plain naturals.
 */
module Handles {
  /** A wgpu object, known only by its identity. */
  datatype Handle = Handle(id: nat)

  /** A cache key; the hash that produces it is not modelled. */
  type Key = nat
}
