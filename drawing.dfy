/**
 * The immediate-mode 2D drawing context of src/gpu/command/drawing.rs.
 * Each draw builds a small mesh (vertices and u16 indices local to it) and
 * pushes it: the indices are rebased onto the vertices already recorded,
 * and the draw joins the current batch or opens a new one when the
 * texture, blend, scissor, viewport or shader differs. `end` flushes the
 * batches into one indexed draw each, over a contiguous range of the
 * index buffer.
 *
 * Positions and colours are reals. The corners `construct_line` computes
 * with a square root are kept symbolic (`LineCorner`); the cosines and
 * sines of the circle draws are a parameter (`trig`), everything computed
 * from them is modelled. Every draw builds z = 0, so z is not represented.
 */
module Drawing {
  import opened Wrappers
  import opened Handles
  import ShaderTypes
  import Wgpu
  import RenderPasses

  // ---------------------------------------------------------------------
  // Values
  // ---------------------------------------------------------------------

  type U16 = x: int | 0 <= x < 0x1_0000
  const TWO_16: int := 0x1_0000

  datatype Vec2 = Vec2(x: real, y: real)

  const ZERO := Vec2(0.0, 0.0)

  /** A vertex position: a point given outright, or corner `corner` of the quad `construct_line` builds around the segment a-b. */
  datatype Pos = At(p: Vec2) | LineCorner(a: Vec2, b: Vec2, thickness: real, corner: nat)

  datatype Vertex = Vertex(pos: Pos, color: RenderPasses.Color, uv: Vec2)

  /** The vertices and local indices one draw pushes. */
  datatype Mesh = Mesh(vertices: seq<Vertex>, indices: seq<U16>)

  /** A bound texture and its sampler. */
  datatype TexBinding = TexBinding(texture: Handle, sampler: Handle)

  /** `TextureSampler::DEFAULT`, a fixed sampler description. */
  const DEFAULT_SAMPLER := Handle(0)

  /** A render target's blend state and write mask. */
  type BlendPair = (Option<Wgpu.BlendState>, Option<Wgpu.ColorWrites>)

  /** `DrawingQueue`: the state a batch is drawn with and its range of the index buffer. */
  datatype Batch = Batch(
    texture: Option<TexBinding>,
    shader: Option<Handle>,
    scissor: Option<RenderPasses.RectF>,
    viewport: Option<RenderPasses.RectF>,
    startIndex: nat,
    startVertex: nat,
    count: nat,
    blends: seq<BlendPair>)

  /** What `push_queue` compares a batch against: the context's texture, shader, scissor and viewport. */
  datatype DrawSettings = DrawSettings(
    texture: Option<TexBinding>,
    shader: Option<Handle>,
    scissor: Option<RenderPasses.RectF>,
    viewport: Option<RenderPasses.RectF>)

  /** What the context has recorded: vertices, rebased indices, the open batch and the closed ones. */
  datatype Recording = Recording(vertices: seq<Vertex>, indices: seq<U16>, current: Option<Batch>, queue: seq<Batch>)

  /** `DrawingGlobalState`: the default texture and shader. */
  datatype GlobalState = GlobalState(texture: Handle, shader: Handle)

  /** The validation-build panics of the drawing context. */
  datatype DrawPanic =
    | TargetCountMismatch      // the pass's render targets and the batch's blend states differ in number
    | TexcoordOutOfRange       // a texture coordinate outside [0, 1]
    | TextureNotSampler        // a texture without the Sampler usage
    | AtlasIdMissing           // an atlas without the requested id
    | ShaderBindingsMissing    // no texture at (0, 0) and sampler at (0, 1)

  /** One `draw_indexed` of `end`, with the state set on the pass before it. */
  datatype DrawCall = DrawCall(
    binding: TexBinding,
    shader: Handle,
    scissor: Option<RenderPasses.RectF>,
    viewport: Option<RenderPasses.RectF>,
    blends: seq<BlendPair>,
    first: nat,
    last: nat,
    baseVertex: nat)

  // ---------------------------------------------------------------------
  // Index arithmetic
  // ---------------------------------------------------------------------

  /** Each index plus `base`, in u16 arithmetic that wraps. */
  function Rebased(indices: seq<U16>, base: nat): (r: seq<U16>)
    ensures |r| == |indices|
    ensures forall k :: 0 <= k < |indices| && indices[k] + base < TWO_16 ==> r[k] == indices[k] + base
  {
    seq(|indices|, k requires 0 <= k < |indices| => (indices[k] + base) % TWO_16)
  }

  /**
   * While the buffer stays under 65536 vertices, a pushed index names the
   * same vertex in the whole buffer that it named in its own mesh.
   */
  lemma PushedIndexNamesSameVertex(old_: seq<Vertex>, m: Mesh, k: nat)
    requires |old_| + |m.vertices| <= TWO_16
    requires k < |m.indices| && m.indices[k] < |m.vertices|
    ensures var r := Rebased(m.indices, |old_| % TWO_16);
      r[k] < |old_ + m.vertices| && (old_ + m.vertices)[r[k]] == m.vertices[m.indices[k]]
  {
  }

  /** The two triangles of a quad with corners 0, 1, 2, 3. */
  const QUAD_INDICES: seq<U16> := [0, 1, 2, 0, 2, 3]

  /** The first `n` triangles of the fan over `p`: triangle k is (p0, p[k+1], p[k+2]). */
  function Fan(p: seq<U16>, n: nat): (r: seq<U16>)
    requires n + 2 <= |p|
    ensures |r| == 3 * n
  {
    if n == 0 then [] else Fan(p, n - 1) + [p[0], p[n], p[n + 1]]
  }

  /** Triangle k of an index list. */
  function Tri(r: seq<U16>, k: nat): (U16, U16, U16)
    requires 3 * k + 2 < |r|
  {
    (r[3 * k], r[3 * k + 1], r[3 * k + 2])
  }

  lemma {:induction false} FanTriangles(p: seq<U16>, n: nat)
    requires n + 2 <= |p|
    ensures forall k :: 0 <= k < n ==> Tri(Fan(p, n), k) == (p[0], p[k + 1], p[k + 2])
  {
    if n > 0 {
      FanTriangles(p, n - 1);
      forall k | 0 <= k < n
        ensures Tri(Fan(p, n), k) == (p[0], p[k + 1], p[k + 2])
      {
        if k < n - 1 {
          assert Tri(Fan(p, n), k) == Tri(Fan(p, n - 1), k);
        }
      }
    }
  }

  /** `triangle_fan_to_list_indices_ref`: lists shorter than 3 unchanged, otherwise the n−2 fan triangles. */
  function FanToList(p: seq<U16>): (r: seq<U16>)
    ensures |p| < 3 ==> r == p
    ensures |p| >= 3 ==> |r| == (|p| - 2) * 3
    ensures |p| >= 3 ==> forall k :: 0 <= k < |p| - 2 ==> Tri(r, k) == (p[0], p[k + 1], p[k + 2])
  {
    if |p| < 3 then p
    else
      FanTriangles(p, |p| - 2);
      Fan(p, |p| - 2)
  }

  /** The loop of `triangle_fan_to_list_indices_ref`. */
  method TriangleFanToList(p: seq<U16>) returns (r: seq<U16>)
    ensures r == FanToList(p)
  {
    if |p| < 3 {
      return p;
    }
    r := [];
    for i := 1 to |p| - 1
      invariant r == Fan(p, i - 1)
    {
      r := r + [p[0], p[i], p[i + 1]];
    }
  }

  // ---------------------------------------------------------------------
  // Meshes of the draws
  // ---------------------------------------------------------------------

  /** `construct_line`: no quad for coincident endpoints, else the four corners around the segment and the quad indices. */
  function LineMesh(a: Vec2, b: Vec2, thickness: real, color: RenderPasses.Color): (r: Option<Mesh>)
    ensures r.None? <==> a == b
    ensures r.Some? ==> |r.value.vertices| == 4 && r.value.indices == QUAD_INDICES
    ensures r.Some? ==> forall k :: 0 <= k < 4 ==> r.value.vertices[k] == Vertex(LineCorner(a, b, thickness, k), color, ZERO)
  {
    if a == b then None
    else Some(Mesh(seq(4, k requires 0 <= k < 4 => Vertex(LineCorner(a, b, thickness, k), color, ZERO)), QUAD_INDICES))
  }

  /** `construct_quad`: the four corners of an axis-aligned rectangle and the quad indices. */
  function QuadCorners(pos: Vec2, size: Vec2): (r: seq<Vec2>)
    ensures |r| == 4 && r[0] == pos && r[2] == Vec2(pos.x + size.x, pos.y + size.y)
    ensures r[1].y == r[0].y && r[3].x == r[0].x && r[1].x == r[2].x && r[3].y == r[2].y
  {
    [pos, Vec2(pos.x + size.x, pos.y), Vec2(pos.x + size.x, pos.y + size.y), Vec2(pos.x, pos.y + size.y)]
  }

  /** A mesh of points given outright, with per-vertex colours and texture coordinates. */
  function PlainMesh(points: seq<Vec2>, colors: seq<RenderPasses.Color>, uvs: seq<Vec2>, indices: seq<U16>): (r: Mesh)
    requires |colors| == |points| && |uvs| == |points|
    ensures |r.vertices| == |points| && r.indices == indices
    ensures forall k :: 0 <= k < |points| ==> r.vertices[k] == Vertex(At(points[k]), colors[k], uvs[k])
  {
    Mesh(seq(|points|, k requires 0 <= k < |points| => Vertex(At(points[k]), colors[k], uvs[k])), indices)
  }

  /** The untextured quad of a filled rectangle: corners with their colours, zero texture coordinates, two triangles. */
  function FilledQuad(pos: Vec2, size: Vec2, colors: seq<RenderPasses.Color>): (r: Mesh)
    requires |colors| == 4
    ensures |r.vertices| == 4 && r.indices == QUAD_INDICES
    ensures forall k :: 0 <= k < 4 ==> r.vertices[k].color == colors[k] && r.vertices[k].uv == ZERO
  {
    PlainMesh(QuadCorners(pos, size), colors, [ZERO, ZERO, ZERO, ZERO], QUAD_INDICES)
  }

  /** Each colour of a list after a conversion. */
  function Converted(colors: seq<RenderPasses.Color>, f: RenderPasses.Color -> RenderPasses.Color): (r: seq<RenderPasses.Color>)
    ensures |r| == |colors|
    ensures forall k :: 0 <= k < |colors| ==> r[k] == f(colors[k])
  {
    seq(|colors|, k requires 0 <= k < |colors| => f(colors[k]))
  }

  /**
   * The per-corner draw converts its colours and the single-colour draw does
   * not: four equal corners draw the quad of the converted colour, which is
   * the quad of the colour itself only when the conversion leaves it alone.
   */
  lemma UniformCornersConverted(pos: Vec2, size: Vec2, c: RenderPasses.Color, intoSrgb: RenderPasses.Color -> RenderPasses.Color)
    ensures FilledQuad(pos, size, Converted([c, c, c, c], intoSrgb)) == FilledQuad(pos, size, [intoSrgb(c), intoSrgb(c), intoSrgb(c), intoSrgb(c)])
    ensures FilledQuad(pos, size, Converted([c, c, c, c], intoSrgb)) == FilledQuad(pos, size, [c, c, c, c]) <==> intoSrgb(c) == c
  {
    var conv := Converted([c, c, c, c], intoSrgb);
    assert conv == [intoSrgb(c), intoSrgb(c), intoSrgb(c), intoSrgb(c)];
    if FilledQuad(pos, size, conv) == FilledQuad(pos, size, [c, c, c, c]) {
      assert FilledQuad(pos, size, conv).vertices[0].color == intoSrgb(c);
    }
  }

  /**
   * The outline of `edges`' first `n` segments: each segment that is not
   * a point adds its line quad, whose indices are shifted by the vertices
   * the earlier quads added.
   */
  function Outline(edges: seq<(Vec2, Vec2)>, n: nat, thickness: real, color: RenderPasses.Color): (r: Mesh)
    requires n <= |edges|
    ensures 2 * |r.indices| == 3 * |r.vertices|
    ensures |r.vertices| <= 4 * n
  {
    if n == 0 then Mesh([], [])
    else
      var prev := Outline(edges, n - 1, thickness, color);
      match LineMesh(edges[n - 1].0, edges[n - 1].1, thickness, color)
      case None => prev
      case Some(line) => Mesh(prev.vertices + line.vertices, prev.indices + Rebased(line.indices, |prev.vertices| % TWO_16))
  }

  /** Every index of the mesh names one of its vertices. */
  predicate IndicesInRange(m: Mesh)
  {
    forall k :: 0 <= k < |m.indices| ==> m.indices[k] < |m.vertices|
  }

  /**
   * While an outline stays under 65536 vertices, every one of its indices
   * names one of its vertices.
   */
  lemma {:induction false} OutlineIndicesInRange(edges: seq<(Vec2, Vec2)>, n: nat, thickness: real, color: RenderPasses.Color)
    requires n <= |edges| && 4 * n <= TWO_16
    ensures IndicesInRange(Outline(edges, n, thickness, color))
  {
    if n > 0 {
      OutlineIndicesInRange(edges, n - 1, thickness, color);
      var line := LineMesh(edges[n - 1].0, edges[n - 1].1, thickness, color);
      if line.Some? {
        QuadAppendedInRange(Outline(edges, n - 1, thickness, color), line.value);
      }
    }
  }

  /** Appending a quad with its indices rebased keeps every index naming a vertex. */
  lemma QuadAppendedInRange(prev: Mesh, quad: Mesh)
    requires IndicesInRange(prev) && |prev.vertices| + 4 <= TWO_16
    requires quad.indices == QUAD_INDICES && |quad.vertices| == 4
    ensures IndicesInRange(Mesh(prev.vertices + quad.vertices, prev.indices + Rebased(quad.indices, |prev.vertices| % TWO_16)))
  {
    var shifted := Rebased(quad.indices, |prev.vertices| % TWO_16);
    var m := Mesh(prev.vertices + quad.vertices, prev.indices + shifted);
    forall k | 0 <= k < |m.indices|
      ensures m.indices[k] < |m.vertices|
    {
      if k >= |prev.indices| {
        var j := k - |prev.indices|;
        assert quad.indices[j] <= 3;
        assert m.indices[k] == shifted[j];
      } else {
        assert m.indices[k] == prev.indices[k];
      }
    }
  }

  /** The loop `draw_rect`, `draw_triangle` and `draw_circle` share: one line quad per segment that is not a point. */
  method OutlineMesh(edges: seq<(Vec2, Vec2)>, thickness: real, color: RenderPasses.Color) returns (m: Mesh)
    ensures m == Outline(edges, |edges|, thickness, color)
  {
    var vertices: seq<Vertex> := [];
    var indices: seq<U16> := [];
    for i := 0 to |edges|
      invariant Mesh(vertices, indices) == Outline(edges, i, thickness, color)
    {
      var line := LineMesh(edges[i].0, edges[i].1, thickness, color);
      if line.Some? {
        var offset := |vertices| % TWO_16;
        indices := indices + Rebased(line.value.indices, offset);
        vertices := vertices + line.value.vertices;
      }
    }
    m := Mesh(vertices, indices);
  }

  /** The sides of the rectangle at `pos` of `size`, from the top-left corner clockwise. */
  function RectEdges(pos: Vec2, size: Vec2): (r: seq<(Vec2, Vec2)>)
    ensures |r| == 4 && forall i :: 0 <= i < 4 ==> r[i] == (QuadCorners(pos, size)[i], QuadCorners(pos, size)[(i + 1) % 4])
  {
    var c := QuadCorners(pos, size);
    [(c[0], c[1]), (c[1], c[2]), (c[2], c[3]), (c[3], c[0])]
  }

  /** The sides of the triangle a, b, c. */
  function TriangleEdges(a: Vec2, b: Vec2, c: Vec2): (r: seq<(Vec2, Vec2)>)
    ensures |r| == 3 && r[0] == (a, b) && r[1] == (b, c) && r[2] == (c, a)
  {
    [(a, b), (b, c), (c, a)]
  }

  /** The point at angle i·2π/segments on the circle, `trig(i)` being that angle's cosine and sine. */
  function Ring(center: Vec2, radius: real, trig: int -> Vec2, i: int): Vec2
  {
    Vec2(center.x + radius * trig(i).x, center.y + radius * trig(i).y)
  }

  /** The chords of `draw_circle`: from the point at angle i to the point at angle i + 1. */
  function CircleEdges(center: Vec2, radius: real, segments: nat, trig: int -> Vec2): (r: seq<(Vec2, Vec2)>)
    ensures |r| == segments
    ensures forall i :: 0 <= i < segments ==> r[i] == (Ring(center, radius, trig, i), Ring(center, radius, trig, i + 1))
  {
    seq(segments, i => (Ring(center, radius, trig, i), Ring(center, radius, trig, i + 1)))
  }

  /** `draw_circle_filled`: the centre then the rim points; a fan over the rim indices 1..segments, which starts at the first rim point. */
  function CircleFilledMesh(center: Vec2, radius: real, segments: nat, trig: int -> Vec2, color: RenderPasses.Color): (r: Mesh)
    ensures |r.vertices| == segments + 1 && r.vertices[0] == Vertex(At(center), color, ZERO)
    ensures forall i :: 0 <= i < segments ==> r.vertices[i + 1] == Vertex(At(Ring(center, radius, trig, i)), color, ZERO)
    ensures r.indices == FanToList(seq(segments, i => (i + 1) % TWO_16))
  {
    Mesh([Vertex(At(center), color, ZERO)] + seq(segments, i => Vertex(At(Ring(center, radius, trig, i)), color, ZERO)),
         FanToList(seq(segments, i => (i + 1) % TWO_16)))
  }

  /**
   * The fan of `draw_circle_filled` never uses the centre vertex: every
   * triangle starts at the first rim point (which, the rim being convex,
   * still covers the disc).
   */
  lemma CircleCentreUnused(center: Vec2, radius: real, segments: nat, trig: int -> Vec2, color: RenderPasses.Color)
    requires 3 <= segments < TWO_16
    ensures var m := CircleFilledMesh(center, radius, segments, trig, color);
      |m.indices| == 3 * (segments - 2) && forall k :: 0 <= k < |m.indices| ==> 1 <= m.indices[k] <= segments
  {
    var p := seq(segments, i => (i + 1) % TWO_16);
    var m := CircleFilledMesh(center, radius, segments, trig, color);
    forall k | 0 <= k < |m.indices|
      ensures 1 <= m.indices[k] <= segments
    {
      var t := k / 3;
      assert Tri(m.indices, t) == (p[0], p[t + 1], p[t + 2]);
      assert k == 3 * t || k == 3 * t + 1 || k == 3 * t + 2;
    }
  }

  /** The texture coordinate of rim point i of `draw_circle_image`: the point's place on the unit circle mapped into the uv rectangle. */
  function CircleUv(uv: RenderPasses.RectF, trig: int -> Vec2, i: int): Vec2
  {
    Vec2(uv.x + (uv.w - uv.x) * (trig(i).x * 0.5 + 0.5), uv.y + (uv.h - uv.y) * (trig(i).y * 0.5 + 0.5))
  }

  /** `draw_circle_image`: the rim points with their texture coordinates; a fan over 0..segments−1. */
  function CircleImageMesh(center: Vec2, radius: real, segments: nat, trig: int -> Vec2, color: RenderPasses.Color,
                           uv: RenderPasses.RectF): (r: Mesh)
    ensures |r.vertices| == segments
    ensures forall i :: 0 <= i < segments ==> r.vertices[i] == Vertex(At(Ring(center, radius, trig, i)), color, CircleUv(uv, trig, i))
    ensures r.indices == FanToList(seq(segments, i => i % TWO_16))
  {
    Mesh(seq(segments, i => Vertex(At(Ring(center, radius, trig, i)), color, CircleUv(uv, trig, i))),
         FanToList(seq(segments, i => i % TWO_16)))
  }

  /** The four corner texture coordinates of an image quad: the uv rectangle's corners, clockwise from its origin. */
  function QuadUvs(uv: RenderPasses.RectF): (r: seq<Vec2>)
    ensures |r| == 4
  {
    [Vec2(uv.x, uv.y), Vec2(uv.w, uv.y), Vec2(uv.w, uv.h), Vec2(uv.x, uv.h)]
  }

  /** The texture coordinates of an image triangle as written: the apex at u = w·0.5. */
  function TriangleUvsAsWritten(uv: RenderPasses.RectF): (r: seq<Vec2>)
    ensures |r| == 3 && r[2] == Vec2(uv.w * 0.5, uv.h)
  {
    [Vec2(uv.x, uv.y), Vec2(uv.w, uv.y), Vec2(uv.w * 0.5, uv.h)]
  }

  /** The texture coordinates of an image triangle: the apex at the middle of the uv rectangle's bottom edge. */
  function TriangleUvs(uv: RenderPasses.RectF): (r: seq<Vec2>)
    ensures |r| == 3 && r[0] == Vec2(uv.x, uv.y) && r[1] == Vec2(uv.w, uv.y)
    ensures r[2].y == uv.h && r[2].x - uv.x == uv.w - r[2].x
  {
    [Vec2(uv.x, uv.y), Vec2(uv.w, uv.y), Vec2((uv.x + uv.w) * 0.5, uv.h)]
  }

  /**
   * The two agree on the whole texture (uv from 0), but on an atlas item
   * that does not start at u = 0 the apex as written lies outside the
   * item, so the triangle samples its neighbour; the midpoint always lies
   * within the item.
   */
  lemma TriangleApexOutsideAsWritten()
    ensures var uv := RenderPasses.RectF(0.6, 0.0, 0.8, 1.0);
      TriangleUvsAsWritten(uv)[2].x < uv.x && uv.x <= TriangleUvs(uv)[2].x <= uv.w
    ensures forall uv: RenderPasses.RectF :: uv.x == 0.0 ==> TriangleUvsAsWritten(uv) == TriangleUvs(uv)
    ensures forall uv: RenderPasses.RectF :: uv.x <= uv.w ==> uv.x <= TriangleUvs(uv)[2].x <= uv.w
  {
  }

  /** `get_absolute_uv`'s `remap_uv`: `inner` read relative to the rectangle `outer`. */
  function Remap(inner: RenderPasses.RectF, outer: RenderPasses.RectF): RenderPasses.RectF
  {
    RenderPasses.RectF(Lerp(outer.x, outer.w, inner.x), Lerp(outer.y, outer.h, inner.y),
                       Lerp(outer.x, outer.w, inner.w), Lerp(outer.y, outer.h, inner.h))
  }

  /** The point a fraction t of the way from lo to hi. */
  function Lerp(lo: real, hi: real, t: real): real
  {
    lo + (hi - lo) * t
  }

  const UNIT_UV := RenderPasses.RectF(0.0, 0.0, 1.0, 1.0)

  /** `get_absolute_uv`: the texture uv within the atlas uv, either one alone, or the whole texture. */
  function AbsoluteUv(textureUv: Option<RenderPasses.RectF>, atlasUv: Option<RenderPasses.RectF>): (r: RenderPasses.RectF)
    ensures textureUv.None? && atlasUv.None? ==> r == UNIT_UV
    ensures textureUv.Some? && atlasUv.None? ==> r == textureUv.value
    ensures textureUv.None? && atlasUv.Some? ==> r == atlasUv.value
  {
    match (textureUv, atlasUv)
    case (Some(r1), Some(r2)) => Remap(r1, r2)
    case (Some(r1), None) => r1
    case (None, Some(r2)) => r2
    case (None, None) => UNIT_UV
  }

  /**
   * Remapping is relative placement: the whole texture within an item is
   * the item, an item within the whole texture is itself, and a uv in
   * [0, 1] lands within the atlas item.
   */
  lemma RemapPlacement(inner: RenderPasses.RectF, outer: RenderPasses.RectF)
    ensures Remap(UNIT_UV, outer) == outer
    ensures Remap(inner, UNIT_UV) == inner
    ensures outer.x <= outer.w && 0.0 <= inner.x <= 1.0 ==> outer.x <= Remap(inner, outer).x <= outer.w
    ensures outer.y <= outer.h && 0.0 <= inner.y <= 1.0 ==> outer.y <= Remap(inner, outer).y <= outer.h
  {
    if outer.x <= outer.w && 0.0 <= inner.x <= 1.0 {
      Within(outer.x, outer.w, inner.x);
    }
    if outer.y <= outer.h && 0.0 <= inner.y <= 1.0 {
      Within(outer.y, outer.h, inner.y);
    }
  }

  /** A point a fraction t of the way from lo to hi lies between them. */
  lemma Within(lo: real, hi: real, t: real)
    requires lo <= hi && 0.0 <= t <= 1.0
    ensures lo <= Lerp(lo, hi, t) <= hi
  {
    var d := hi - lo;
    assert 0.0 <= d * t;
    assert d - d * t == d * (1.0 - t);
    assert 0.0 <= d * (1.0 - t);
  }

  // ---------------------------------------------------------------------
  // Batching
  // ---------------------------------------------------------------------

  /** The blend state and write mask of each render target, in order. */
  function BlendsOf(targets: seq<RenderPasses.RenderTarget>): (r: seq<BlendPair>)
    ensures |r| == |targets| && forall i :: 0 <= i < |targets| ==> r[i] == (targets[i].blend, targets[i].writeMask)
  {
    seq(|targets|, i requires 0 <= i < |targets| => (targets[i].blend, targets[i].writeMask))
  }

  /**
   * Whether a draw needs a new batch after `cur`: a panic when the pass
   * and the batch disagree on the number of targets; otherwise yes when
   * the texture (only an image draw's texture counts), any target's blend,
   * the scissor, the viewport or the shader differs.
   */
  function NeedsNewBatch(cur: Batch, s: DrawSettings, blends: seq<BlendPair>, hasImage: bool): (r: Result<bool, DrawPanic>)
    ensures |blends| != |cur.blends| <==> r == Err(TargetCountMismatch)
    ensures r.Ok? ==> (r.value <==>
      cur.texture != (if hasImage then s.texture else None) || cur.blends != blends ||
      cur.scissor != s.scissor || cur.viewport != s.viewport || cur.shader != s.shader)
  {
    var textureChanged := cur.texture != (if hasImage then s.texture else None);
    if |blends| != |cur.blends| then Err(TargetCountMismatch)
    else Ok(textureChanged || cur.blends != blends || cur.scissor != s.scissor || cur.viewport != s.viewport || cur.shader != s.shader)
  }

  /** The batches in draw order: the closed ones, then the open one. */
  function Batches(rec: Recording): (r: seq<Batch>)
    ensures |r| == |rec.queue| + (if rec.current.Some? then 1 else 0)
  {
    rec.queue + (if rec.current.Some? then [rec.current.value] else [])
  }

  /** The state after closing the open batch (if any) and opening `b`. */
  function Opened(rec: Recording, b: Batch): (r: Recording)
    ensures Batches(r) == Batches(rec) + [b] && r.vertices == rec.vertices && r.indices == rec.indices
  {
    Recording(rec.vertices, rec.indices, Some(b), Batches(rec))
  }

  /**
   * `push_queue` as written: a new batch stores the context's texture
   * (even for a draw without an image), scissor, viewport and blends, but
   * no shader, and starts at the current index count; otherwise the count
   * joins the open batch.
   */
  function BatchedAsWritten(rec: Recording, s: DrawSettings, blends: seq<BlendPair>, count: nat, hasImage: bool)
    : (r: Result<Recording, DrawPanic>)
  {
    var fresh_ := Batch(s.texture, None, s.scissor, s.viewport, |rec.indices|, 0, count, blends);
    if rec.current.None? then Ok(Opened(rec, fresh_))
    else
      match NeedsNewBatch(rec.current.value, s, blends, hasImage)
      case Err(e) => Err(e)
      case Ok(true) => Ok(Opened(rec, fresh_))
      case Ok(false) => Ok(rec.(current := Some(rec.current.value.(count := rec.current.value.count + count))))
  }

  /** `push_queue` with a new batch storing the context's shader, so that `end` draws with it. */
  function Batched(rec: Recording, s: DrawSettings, blends: seq<BlendPair>, count: nat, hasImage: bool)
    : (r: Result<Recording, DrawPanic>)
    ensures rec.current.Some? && |blends| != |rec.current.value.blends| <==> r == Err(TargetCountMismatch)
    ensures r.Ok? ==> r.value.vertices == rec.vertices && r.value.indices == rec.indices && r.value.current.Some?
    ensures r.Ok? && (rec.current.None? || NeedsNewBatch(rec.current.value, s, blends, hasImage) == Ok(true)) ==>
      Batches(r.value) == Batches(rec) + [Batch(s.texture, s.shader, s.scissor, s.viewport, |rec.indices|, 0, count, blends)]
    ensures rec.current.Some? && NeedsNewBatch(rec.current.value, s, blends, hasImage) == Ok(false) ==>
      r == Ok(rec.(current := Some(rec.current.value.(count := rec.current.value.count + count))))
  {
    var fresh_ := Batch(s.texture, s.shader, s.scissor, s.viewport, |rec.indices|, 0, count, blends);
    if rec.current.None? then Ok(Opened(rec, fresh_))
    else
      match NeedsNewBatch(rec.current.value, s, blends, hasImage)
      case Err(e) => Err(e)
      case Ok(true) => Ok(Opened(rec, fresh_))
      case Ok(false) => Ok(rec.(current := Some(rec.current.value.(count := rec.current.value.count + count))))
  }

  /** Every texture coordinate lies in [0, 1] on both axes. */
  predicate TexcoordsInRange(vs: seq<Vertex>)
  {
    forall k :: 0 <= k < |vs| ==> 0.0 <= vs[k].uv.x <= 1.0 && 0.0 <= vs[k].uv.y <= 1.0
  }

  /**
   * `push_geometry`: nothing for an empty mesh; otherwise the batch step
   * (which can panic), then the texture-coordinate check (a panic after
   * the batch was counted), then the vertices and the rebased indices are
   * appended.
   */
  function Push(rec: Recording, s: DrawSettings, blends: seq<BlendPair>, m: Mesh, hasImage: bool): (r: (Result<(), DrawPanic>, Recording))
    ensures m.vertices == [] || m.indices == [] ==> r == (Ok(()), rec)
    ensures r.0.Ok? && m.vertices != [] && m.indices != [] ==>
      r.1.vertices == rec.vertices + m.vertices && r.1.indices == rec.indices + Rebased(m.indices, |rec.vertices| % TWO_16)
    ensures r.0.Ok? <==> (m.vertices == [] || m.indices == [] ||
      (Batched(rec, s, blends, |m.indices|, hasImage).Ok? && TexcoordsInRange(m.vertices)))
  {
    if m.vertices == [] || m.indices == [] then (Ok(()), rec)
    else
      match Batched(rec, s, blends, |m.indices|, hasImage)
      case Err(e) => (Err(e), rec)
      case Ok(b) =>
        if !TexcoordsInRange(m.vertices) then (Err(TexcoordOutOfRange), b)
        else (Ok(()), b.(vertices := b.vertices + m.vertices, indices := b.indices + Rebased(m.indices, |rec.vertices| % TWO_16)))
  }

  /** Where batch i must start for the batches to follow one another from index 0. */
  function StartOf(bs: seq<Batch>, i: nat): nat
    requires i <= |bs|
  {
    if i == 0 then 0 else bs[i - 1].startIndex + bs[i - 1].count
  }

  /** The batches cover [0, total) of the index buffer, each a non-empty range right after the previous one. */
  predicate Tiled(bs: seq<Batch>, total: nat)
  {
    (forall i :: 0 <= i < |bs| ==> bs[i].startIndex == StartOf(bs, i) && bs[i].count > 0 && bs[i].startVertex == 0) &&
    StartOf(bs, |bs|) == total
  }

  /** The context's invariant: the batches tile the index buffer, vertices and indices are empty together, and batches close only when another opens. */
  predicate WellBatched(rec: Recording)
  {
    Tiled(Batches(rec), |rec.indices|) && (rec.vertices == [] <==> rec.indices == []) && (rec.current.None? ==> rec.queue == [])
  }

  /**
   * A push that succeeds keeps the batches tiling the index buffer: a
   * new batch starts where the indices ended, because the batch step runs
   * before the indices are appended.
   */
  lemma PushKeepsBatches(rec: Recording, s: DrawSettings, blends: seq<BlendPair>, m: Mesh, hasImage: bool)
    requires WellBatched(rec) && Push(rec, s, blends, m, hasImage).0.Ok?
    ensures WellBatched(Push(rec, s, blends, m, hasImage).1)
  {
    if m.vertices != [] && m.indices != [] {
      var b := Batched(rec, s, blends, |m.indices|, hasImage).value;
      var r := Push(rec, s, blends, m, hasImage).1;
      var bs := Batches(rec);
      var bs' := Batches(r);
      assert Batches(r) == Batches(b);
      if rec.current.Some? && NeedsNewBatch(rec.current.value, s, blends, hasImage) == Ok(false) {
        assert |bs'| == |bs|;
        forall i | 0 <= i < |bs'|
          ensures bs'[i].startIndex == StartOf(bs', i) && bs'[i].count > 0 && bs'[i].startVertex == 0
        {
          if i < |bs| - 1 {
            assert bs'[i] == bs[i];
          }
          if 0 < i {
            assert bs'[i - 1] == bs[i - 1] || i - 1 == |bs| - 1;
          }
        }
      } else {
        assert bs' == bs + [Batch(s.texture, s.shader, s.scissor, s.viewport, |rec.indices|, 0, |m.indices|, blends)];
        forall i | 0 <= i < |bs'|
          ensures bs'[i].startIndex == StartOf(bs', i) && bs'[i].count > 0 && bs'[i].startVertex == 0
        {
          if i < |bs| {
            assert bs'[i] == bs[i];
            if 0 < i {
              assert bs'[i - 1] == bs[i - 1];
            }
          }
        }
      }
    }
  }

  /**
   * A draw with the same settings as the open batch (and, for an image
   * draw, its texture) joins it: no new batch, the open one counts the
   * new indices.
   */
  lemma SameSettingsMerge(rec: Recording, s: DrawSettings, blends: seq<BlendPair>, count: nat, hasImage: bool)
    requires rec.current.Some? && (var c := rec.current.value;
      c.texture == (if hasImage then s.texture else None) && c.blends == blends && c.scissor == s.scissor &&
      c.viewport == s.viewport && c.shader == s.shader)
    ensures Batched(rec, s, blends, count, hasImage).Ok?
    ensures var r := Batched(rec, s, blends, count, hasImage).value;
      |Batches(r)| == |Batches(rec)| && r.current.value.count == rec.current.value.count + count
  {
  }

  /**
   * As written, the open batch never holds a shader, so once a shader is
   * set every draw opens a new batch, and the batch it opens holds none
   * either: every draw call of `end` uses the default shader.
   */
  lemma ShaderIgnoredAsWritten(rec: Recording, s: DrawSettings, blends: seq<BlendPair>, count: nat, hasImage: bool)
    requires rec.current.Some? && rec.current.value.shader.None? && |blends| == |rec.current.value.blends|
    requires s.shader.Some?
    ensures BatchedAsWritten(rec, s, blends, count, hasImage).Ok?
    ensures var r := BatchedAsWritten(rec, s, blends, count, hasImage).value;
      |Batches(r)| == |Batches(rec)| + 1 && r.current.value.shader.None?
    ensures Batched(rec, s, blends, count, hasImage).value.current.value.shader == s.shader
  {
  }

  /**
   * A draw without an image after a texture was set never joins a batch
   * the texture was recorded in: the new batch stores the texture, the
   * comparison uses none.
   */
  lemma PlainDrawAfterTextureSplits(rec: Recording, s: DrawSettings, blends: seq<BlendPair>, count: nat)
    requires rec.current.Some? && rec.current.value.texture.Some? && |blends| == |rec.current.value.blends|
    ensures var r := Batched(rec, s, blends, count, false);
      r.Ok? && |Batches(r.value)| == |Batches(rec)| + 1 && r.value.current.value.texture == s.texture
  {
  }

  // ---------------------------------------------------------------------
  // end
  // ---------------------------------------------------------------------

  /** The draw call of a batch: its state, the default texture (with the default sampler) and shader where it has none, its index range. */
  function CallOf(b: Batch, g: GlobalState): (r: DrawCall)
    ensures r.first == b.startIndex && r.last == b.startIndex + b.count && r.baseVertex == b.startVertex
    ensures r.binding == (if b.texture.Some? then b.texture.value else TexBinding(g.texture, DEFAULT_SAMPLER))
    ensures r.shader == (if b.shader.Some? then b.shader.value else g.shader)
    ensures r.scissor == b.scissor && r.viewport == b.viewport && r.blends == b.blends
  {
    DrawCall(if b.texture.Some? then b.texture.value else TexBinding(g.texture, DEFAULT_SAMPLER),
             if b.shader.Some? then b.shader.value else g.shader,
             b.scissor, b.viewport, b.blends, b.startIndex, b.startIndex + b.count, b.startVertex)
  }

  /**
   * The draw calls of well-formed batches cover the whole index buffer:
   * the first starts at 0, each starts where the previous one ended, each
   * is non-empty, and the last ends at the number of indices.
   */
  lemma CallsCoverIndices(rec: Recording, g: GlobalState)
    requires WellBatched(rec) && rec.vertices != []
    ensures var bs := Batches(rec);
      |bs| > 0 && CallOf(bs[0], g).first == 0 && CallOf(bs[|bs| - 1], g).last == |rec.indices| &&
      (forall i :: 0 <= i < |bs| ==> CallOf(bs[i], g).first < CallOf(bs[i], g).last) &&
      (forall i :: 0 < i < |bs| ==> CallOf(bs[i], g).first == CallOf(bs[i - 1], g).last)
  {
    assert |rec.indices| > 0;
  }

  // ---------------------------------------------------------------------
  // The drawing context
  // ---------------------------------------------------------------------

  /** `DrawingContext` with its `DrawingContextInner`. */
  class DrawingContext {
    const pass: RenderPasses.RenderPass
    const global: GlobalState
    var vertices: seq<Vertex>
    var indices: seq<U16>
    var current: Option<Batch>
    var queue: seq<Batch>
    var texture: Option<TexBinding>
    var textureUv: Option<RenderPasses.RectF>
    var atlasUv: Option<RenderPasses.RectF>
    var shader: Option<Handle>
    var scissor: Option<RenderPasses.RectF>
    var viewport: Option<RenderPasses.RectF>

    function Recorded(): Recording
      reads this
    {
      Recording(vertices, indices, current, queue)
    }

    function Settings(): DrawSettings
      reads this
    {
      DrawSettings(texture, shader, scissor, viewport)
    }

    /** What pushing `m` would do now. */
    function Pushing(m: Mesh, hasImage: bool): (Result<(), DrawPanic>, Recording)
      reads this, pass
    {
      Push(Recorded(), Settings(), BlendsOf(pass.renderTargets), m, hasImage)
    }

    ghost predicate Valid()
      reads this
    {
      WellBatched(Recorded())
    }

    constructor (pass: RenderPasses.RenderPass, global: GlobalState)
      ensures this.pass == pass && this.global == global && Valid()
      ensures Recorded() == Recording([], [], None, [])
      ensures Settings() == DrawSettings(None, None, None, None) && textureUv.None? && atlasUv.None?
    {
      this.pass := pass;
      this.global := global;
      vertices := [];
      indices := [];
      current := None;
      queue := [];
      texture := None;
      textureUv := None;
      atlasUv := None;
      shader := None;
      scissor := None;
      viewport := None;
    }

    /**
     * `DrawingContext::new`: the context's global drawing state, made on
     * first use (`state` is the existing one, or the outcome of making it:
     * None when the default texture or shader cannot be built).
     */
    static method New(pass: RenderPasses.RenderPass, state: Option<GlobalState>) returns (r: Option<DrawingContext>)
      ensures r.None? <==> state.None?
      ensures r.Some? ==> fresh(r.value) && r.value.pass == pass && r.value.global == state.value && r.value.Valid()
      ensures r.Some? ==> r.value.Recorded() == Recording([], [], None, []) && r.value.Settings() == DrawSettings(None, None, None, None)
    {
      if state.None? {
        return None;
      }
      var c := new DrawingContext(pass, state.value);
      return Some(c);
    }

    /** `push_queue`. */
    method PushQueue(count: nat, hasImage: bool) returns (r: Result<(), DrawPanic>)
      modifies this
      ensures var b := Batched(old(Recorded()), old(Settings()), BlendsOf(pass.renderTargets), count, hasImage);
        (b.Err? ==> r == Err(b.error) && Recorded() == old(Recorded())) && (b.Ok? ==> r == Ok(()) && Recorded() == b.value)
      ensures Settings() == old(Settings()) && textureUv == old(textureUv) && atlasUv == old(atlasUv)
    {
      var blends := BlendsOf(pass.renderTargets);
      var pushNew := false;
      if current.Some? {
        var cur := current.value;
        var currentTexture := if hasImage then texture else None;
        if cur.texture != currentTexture {
          pushNew := true;
        }
        if |pass.renderTargets| != |cur.blends| {
          return Err(TargetCountMismatch);
        }
        if blends != cur.blends {
          pushNew := true;
        }
        if cur.scissor != scissor {
          pushNew := true;
        }
        if cur.viewport != viewport {
          pushNew := true;
        }
        if cur.shader != shader {
          pushNew := true;
        }
      } else {
        pushNew := true;
      }
      if pushNew {
        if current.Some? {
          queue := queue + [current.value];
        }
        current := Some(Batch(texture, shader, scissor, viewport, |indices|, 0, count, blends));
      } else {
        current := Some(current.value.(count := current.value.count + count));
      }
      return Ok(());
    }

    /** `push_geometry`. */
    method PushGeometry(m: Mesh, hasImage: bool) returns (r: Result<(), DrawPanic>)
      modifies this
      ensures (r, Recorded()) == old(Pushing(m, hasImage))
      ensures Settings() == old(Settings()) && textureUv == old(textureUv) && atlasUv == old(atlasUv)
      ensures r.Ok? && old(Valid()) ==> Valid()
    {
      if |m.vertices| == 0 || |m.indices| == 0 {
        return Ok(());
      }
      ghost var before := Recorded();
      var base := |vertices| % TWO_16;
      var rebased := Rebased(m.indices, base);
      r := PushQueue(|rebased|, hasImage);
      if r.Err? {
        return;
      }
      if !TexcoordsInRange(m.vertices) {
        return Err(TexcoordOutOfRange);
      }
      vertices := vertices + m.vertices;
      indices := indices + rebased;
      if WellBatched(before) {
        PushKeepsBatches(before, Settings(), BlendsOf(pass.renderTargets), m, hasImage);
      }
    }

    /** `draw_line`: the line's quad, nothing for coincident endpoints. */
    method DrawLine(a: Vec2, b: Vec2, thickness: real, color: RenderPasses.Color) returns (r: Result<(), DrawPanic>)
      modifies this
      ensures a == b ==> r == Ok(()) && Recorded() == old(Recorded())
      ensures a != b ==> (r, Recorded()) == old(Pushing(LineMesh(a, b, thickness, color).value, false))
      ensures Settings() == old(Settings()) && textureUv == old(textureUv) && atlasUv == old(atlasUv)
      ensures r.Ok? && old(Valid()) ==> Valid()
    {
      var line := LineMesh(a, b, thickness, color);
      if line.None? {
        return Ok(());
      }
      r := PushGeometry(line.value, false);
    }

    /** `draw_rect`: a line quad per side that is not a point, each side's indices shifted by 4 per earlier side. */
    method DrawRect(pos: Vec2, size: Vec2, thickness: real, color: RenderPasses.Color) returns (r: Result<(), DrawPanic>)
      modifies this
      ensures (r, Recorded()) == old(Pushing(Outline(RectEdges(pos, size), 4, thickness, color), false))
      ensures Settings() == old(Settings()) && textureUv == old(textureUv) && atlasUv == old(atlasUv)
      ensures r.Ok? && old(Valid()) ==> Valid()
    {
      var m := OutlineMesh(RectEdges(pos, size), thickness, color);
      r := PushGeometry(m, false);
    }

    /** `draw_triangle`: as `draw_rect` over the three sides; nothing when every side is a point. */
    method DrawTriangle(a: Vec2, b: Vec2, c: Vec2, thickness: real, color: RenderPasses.Color) returns (r: Result<(), DrawPanic>)
      modifies this
      ensures (r, Recorded()) == old(Pushing(Outline(TriangleEdges(a, b, c), 3, thickness, color), false))
      ensures Settings() == old(Settings()) && textureUv == old(textureUv) && atlasUv == old(atlasUv)
      ensures r.Ok? && old(Valid()) ==> Valid()
    {
      var m := OutlineMesh(TriangleEdges(a, b, c), thickness, color);
      if |m.indices| == 0 {
        return Ok(());
      }
      r := PushGeometry(m, false);
    }

    /** `draw_rect_filled`: the quad in one colour, taken as given. */
    method DrawRectFilled(pos: Vec2, size: Vec2, color: RenderPasses.Color) returns (r: Result<(), DrawPanic>)
      modifies this
      ensures (r, Recorded()) == old(Pushing(FilledQuad(pos, size, [color, color, color, color]), false))
      ensures Settings() == old(Settings()) && textureUv == old(textureUv) && atlasUv == old(atlasUv)
      ensures r.Ok? && old(Valid()) ==> Valid()
    {
      r := PushGeometry(FilledQuad(pos, size, [color, color, color, color]), false);
    }

    /**
     * `draw_rect_filled_colors`: the quad with a colour per corner (top left,
     * top right, bottom right, bottom left), each converted by `intoSrgb`,
     * the colour type's `into_srgb`.
     */
    method DrawRectFilledColors(pos: Vec2, size: Vec2, colors: seq<RenderPasses.Color>,
                                intoSrgb: RenderPasses.Color -> RenderPasses.Color) returns (r: Result<(), DrawPanic>)
      requires |colors| == 4
      modifies this
      ensures (r, Recorded()) == old(Pushing(FilledQuad(pos, size, Converted(colors, intoSrgb)), false))
      ensures Settings() == old(Settings()) && textureUv == old(textureUv) && atlasUv == old(atlasUv)
      ensures r.Ok? && old(Valid()) ==> Valid()
    {
      r := PushGeometry(FilledQuad(pos, size, Converted(colors, intoSrgb)), false);
    }

    /** `draw_triangle_filled` and `draw_triangle_filled_colors`: one triangle with a colour per vertex. */
    method DrawTriangleFilled(a: Vec2, b: Vec2, c: Vec2, colors: seq<RenderPasses.Color>) returns (r: Result<(), DrawPanic>)
      requires |colors| == 3
      modifies this
      ensures (r, Recorded()) == old(Pushing(PlainMesh([a, b, c], colors, [ZERO, ZERO, ZERO], [0, 1, 2]), false))
      ensures Settings() == old(Settings()) && textureUv == old(textureUv) && atlasUv == old(atlasUv)
      ensures r.Ok? && old(Valid()) ==> Valid()
    {
      r := PushGeometry(PlainMesh([a, b, c], colors, [ZERO, ZERO, ZERO], [0, 1, 2]), false);
    }

    /** `draw_rect_image` and `draw_rect_image_colors`: the quad with the corners of the absolute uv rectangle. */
    method DrawRectImage(pos: Vec2, size: Vec2, colors: seq<RenderPasses.Color>) returns (r: Result<(), DrawPanic>)
      requires |colors| == 4
      modifies this
      ensures (r, Recorded()) ==
        old(Pushing(PlainMesh(QuadCorners(pos, size), colors, QuadUvs(AbsoluteUv(textureUv, atlasUv)), QUAD_INDICES), true))
      ensures Settings() == old(Settings()) && textureUv == old(textureUv) && atlasUv == old(atlasUv)
      ensures r.Ok? && old(Valid()) ==> Valid()
    {
      var uv := AbsoluteUv(textureUv, atlasUv);
      r := PushGeometry(PlainMesh(QuadCorners(pos, size), colors, QuadUvs(uv), QUAD_INDICES), true);
    }

    /** `draw_triangle_image` and `draw_triangle_image_colors`, with the apex at the middle of the uv rectangle. */
    method DrawTriangleImage(a: Vec2, b: Vec2, c: Vec2, colors: seq<RenderPasses.Color>) returns (r: Result<(), DrawPanic>)
      requires |colors| == 3
      modifies this
      ensures (r, Recorded()) ==
        old(Pushing(PlainMesh([a, b, c], colors, TriangleUvs(AbsoluteUv(textureUv, atlasUv)), [0, 1, 2]), true))
      ensures Settings() == old(Settings()) && textureUv == old(textureUv) && atlasUv == old(atlasUv)
      ensures r.Ok? && old(Valid()) ==> Valid()
    {
      var uv := AbsoluteUv(textureUv, atlasUv);
      r := PushGeometry(PlainMesh([a, b, c], colors, TriangleUvs(uv), [0, 1, 2]), true);
    }

    /** `draw_circle`: nothing under 3 segments; otherwise a line quad per chord that is not a point. */
    method DrawCircle(center: Vec2, radius: real, segments: nat, trig: int -> Vec2, thickness: real, color: RenderPasses.Color)
      returns (r: Result<(), DrawPanic>)
      modifies this
      ensures segments < 3 ==> r == Ok(()) && Recorded() == old(Recorded())
      ensures segments >= 3 ==>
        (r, Recorded()) == old(Pushing(Outline(CircleEdges(center, radius, segments, trig), segments, thickness, color), false))
      ensures Settings() == old(Settings()) && textureUv == old(textureUv) && atlasUv == old(atlasUv)
      ensures r.Ok? && old(Valid()) ==> Valid()
    {
      if segments < 3 {
        return Ok(());
      }
      var m := OutlineMesh(CircleEdges(center, radius, segments, trig), thickness, color);
      if |m.indices| == 0 {
        return Ok(());
      }
      r := PushGeometry(m, false);
    }

    /** `draw_circle_filled`: nothing under 3 segments; otherwise the centre, the rim and the fan over the rim. */
    method DrawCircleFilled(center: Vec2, radius: real, segments: nat, trig: int -> Vec2, color: RenderPasses.Color)
      returns (r: Result<(), DrawPanic>)
      modifies this
      ensures segments < 3 ==> r == Ok(()) && Recorded() == old(Recorded())
      ensures segments >= 3 ==> (r, Recorded()) == old(Pushing(CircleFilledMesh(center, radius, segments, trig, color), false))
      ensures Settings() == old(Settings()) && textureUv == old(textureUv) && atlasUv == old(atlasUv)
      ensures r.Ok? && old(Valid()) ==> Valid()
    {
      if segments < 3 {
        return Ok(());
      }
      var vs: seq<Vertex> := [Vertex(At(center), color, ZERO)];
      var fan: seq<U16> := [];
      for i := 0 to segments
        invariant vs == [Vertex(At(center), color, ZERO)] + seq(i, k => Vertex(At(Ring(center, radius, trig, k)), color, ZERO))
        invariant fan == seq(i, k => (k + 1) % TWO_16)
      {
        vs := vs + [Vertex(At(Ring(center, radius, trig, i)), color, ZERO)];
        fan := fan + [(i + 1) % TWO_16];
      }
      var tris := TriangleFanToList(fan);
      if |tris| == 0 {
        return Ok(());
      }
      r := PushGeometry(Mesh(vs, tris), false);
    }

    /** `draw_circle_image`: nothing under 3 segments; otherwise the rim with its texture coordinates and the fan over it. */
    method DrawCircleImage(center: Vec2, radius: real, segments: nat, trig: int -> Vec2, color: RenderPasses.Color)
      returns (r: Result<(), DrawPanic>)
      modifies this
      ensures segments < 3 ==> r == Ok(()) && Recorded() == old(Recorded())
      ensures segments >= 3 ==>
        (r, Recorded()) == old(Pushing(CircleImageMesh(center, radius, segments, trig, color, AbsoluteUv(textureUv, atlasUv)), true))
      ensures Settings() == old(Settings()) && textureUv == old(textureUv) && atlasUv == old(atlasUv)
      ensures r.Ok? && old(Valid()) ==> Valid()
    {
      if segments < 3 {
        return Ok(());
      }
      var uv := AbsoluteUv(textureUv, atlasUv);
      var vs: seq<Vertex> := [];
      var fan: seq<U16> := [];
      for i := 0 to segments
        invariant vs == seq(i, k => Vertex(At(Ring(center, radius, trig, k)), color, CircleUv(uv, trig, k)))
        invariant fan == seq(i, k => k % TWO_16)
      {
        vs := vs + [Vertex(At(Ring(center, radius, trig, i)), color, CircleUv(uv, trig, i))];
        fan := fan + [i % TWO_16];
      }
      var tris := TriangleFanToList(fan);
      if |tris| == 0 {
        return Ok(());
      }
      r := PushGeometry(Mesh(vs, tris), true);
    }

    /** `set_scissor`. */
    method SetScissor(s: RenderPasses.RectF)
      modifies this
      ensures Settings() == old(Settings()).(scissor := Some(s)) && Recorded() == old(Recorded())
      ensures textureUv == old(textureUv) && atlasUv == old(atlasUv)
    {
      scissor := Some(s);
    }

    /** `set_viewport`. */
    method SetViewport(v: RenderPasses.RectF)
      modifies this
      ensures Settings() == old(Settings()).(viewport := Some(v)) && Recorded() == old(Recorded())
      ensures textureUv == old(textureUv) && atlasUv == old(atlasUv)
    {
      viewport := Some(v);
    }

    /** `set_texture_ex`: a texture needs the Sampler usage; its sampler defaults to DEFAULT. None clears the texture. */
    method SetTexture(t: Option<(Handle, bool)>, sampler: Option<Handle>) returns (r: Result<(), DrawPanic>)
      modifies this
      ensures t.Some? && !t.value.1 ==> r == Err(TextureNotSampler) && Settings() == old(Settings())
      ensures r.Ok? <==> t.None? || t.value.1
      ensures t.None? ==> Settings() == old(Settings()).(texture := None)
      ensures t.Some? && t.value.1 ==>
        Settings() == old(Settings()).(texture := Some(TexBinding(t.value.0, if sampler.Some? then sampler.value else DEFAULT_SAMPLER)))
      ensures Recorded() == old(Recorded()) && textureUv == old(textureUv) && atlasUv == old(atlasUv)
    {
      if t.None? {
        texture := None;
        return Ok(());
      }
      if !t.value.1 {
        return Err(TextureNotSampler);
      }
      var s := if sampler.Some? then sampler.value else DEFAULT_SAMPLER;
      texture := Some(TexBinding(t.value.0, s));
      return Ok(());
    }

    /** `set_texture_uv`. */
    method SetTextureUv(uv: Option<RenderPasses.RectF>)
      modifies this
      ensures textureUv == uv && atlasUv == old(atlasUv)
      ensures Settings() == old(Settings()) && Recorded() == old(Recorded())
    {
      textureUv := uv;
    }

    /**
     * `set_texture_atlas_ex`: `atlas` is the atlas's uv for the id (None
     * when it has no such id) and its texture. The uv and the texture with
     * the default sampler are set; None clears only the atlas uv.
     */
    method SetTextureAtlas(atlas: Option<(Option<RenderPasses.RectF>, Handle)>) returns (r: Result<(), DrawPanic>)
      modifies this
      ensures atlas.None? ==> r == Ok(()) && atlasUv.None? && Settings() == old(Settings())
      ensures atlas.Some? && atlas.value.0.None? ==> r == Err(AtlasIdMissing) && atlasUv == old(atlasUv) && Settings() == old(Settings())
      ensures atlas.Some? && atlas.value.0.Some? ==>
        r == Ok(()) && atlasUv == atlas.value.0 &&
        Settings() == old(Settings()).(texture := Some(TexBinding(atlas.value.1, DEFAULT_SAMPLER)))
      ensures Recorded() == old(Recorded()) && textureUv == old(textureUv)
    {
      if atlas.None? {
        atlasUv := None;
        return Ok(());
      }
      if atlas.value.0.None? {
        return Err(AtlasIdMissing);
      }
      atlasUv := atlas.value.0;
      texture := Some(TexBinding(atlas.value.1, DEFAULT_SAMPLER));
      return Ok(());
    }

    /**
     * `set_shader`: a shader must have a fragment stage whose bindings
     * hold a texture at group 0 binding 0 and a sampler at group 0 binding
     * 1. None clears the shader.
     */
    method SetShader(s: Option<Handle>, reflection: seq<ShaderTypes.ShaderReflect>) returns (r: Result<(), DrawPanic>)
      modifies this
      ensures s.Some? && !DrawableShader(reflection) ==> r == Err(ShaderBindingsMissing) && Settings() == old(Settings())
      ensures r.Ok? <==> s.None? || DrawableShader(reflection)
      ensures r.Ok? ==> Settings() == old(Settings()).(shader := s)
      ensures Recorded() == old(Recorded()) && textureUv == old(textureUv) && atlasUv == old(atlasUv)
    {
      if s.None? {
        shader := None;
        return Ok(());
      }
      var fulfilled := false;
      var i := 0;
      while i < |reflection|
        invariant 0 <= i <= |reflection|
        invariant !fulfilled
        invariant forall k :: 0 <= k < i ==> !FragmentSamples(reflection[k])
      {
        if FragmentSamples(reflection[i]) {
          fulfilled := true;
          break;
        }
        i := i + 1;
      }
      if !fulfilled {
        return Err(ShaderBindingsMissing);
      }
      shader := s;
      return Ok(());
    }

    /**
     * `end`: nothing when no vertex was recorded (the validation-build
     * early return); otherwise the open batch is closed, everything
     * recorded is drained, and each batch becomes one draw call.
     */
    method End() returns (draws: seq<DrawCall>, vertexData: seq<Vertex>, indexData: seq<U16>)
      modifies this
      ensures old(vertices) == [] ==> draws == [] && vertexData == [] && indexData == [] && Recorded() == old(Recorded())
      ensures old(vertices) != [] ==>
        Recorded() == Recording([], [], None, []) && vertexData == old(vertices) && indexData == old(indices) &&
        |draws| == |Batches(old(Recorded()))| &&
        forall i :: 0 <= i < |draws| ==> draws[i] == CallOf(Batches(old(Recorded()))[i], global)
      ensures Settings() == old(Settings()) && textureUv == old(textureUv) && atlasUv == old(atlasUv)
      ensures old(Valid()) ==> Valid()
    {
      if |vertices| == 0 {
        return [], [], [];
      }
      if current.Some? {
        queue := queue + [current.value];
        current := None;
      }
      var bs := queue;
      vertexData := vertices;
      indexData := indices;
      queue := [];
      vertices := [];
      indices := [];
      draws := [];
      for i := 0 to |bs|
        invariant |draws| == i && forall j :: 0 <= j < i ==> draws[j] == CallOf(bs[j], global)
      {
        draws := draws + [CallOf(bs[i], global)];
      }
    }
  }

  /** A reflected stage `set_shader` accepts: a fragment stage with a texture at (0, 0) and a sampler at (0, 1). */
  predicate FragmentSamples(s: ShaderTypes.ShaderReflect)
  {
    (s.Fragment? || s.VertexFragment?) &&
    (exists j :: 0 <= j < |s.bindings| && s.bindings[j].group == 0 && s.bindings[j].binding == 0 && s.bindings[j].ty.Texture?) &&
    (exists j :: 0 <= j < |s.bindings| && s.bindings[j].group == 0 && s.bindings[j].binding == 1 && s.bindings[j].ty.Sampler?)
  }

  /** Some reflected stage of the shader is one `set_shader` accepts. */
  predicate DrawableShader(reflection: seq<ShaderTypes.ShaderReflect>)
  {
    exists k :: 0 <= k < |reflection| && FragmentSamples(reflection[k])
  }
}
