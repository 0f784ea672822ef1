/**
 * Graphics shaders (src/gpu/shader/graphics.rs): the builder's source
 * setters, `GraphicsShader::new` (building the vertex and fragment
 * stages, checking their reflections, laying out the bind groups and the
 * default vertex description), the uniform lookups, the vertex-description
 * setters and the vertex-format conversion table.
 *
 * Reading a shader file is not modelled: the `*_file` setters take the
 * file's contents. naga's WGSL front end is a parameter `parse` that
 * yields a module or None for a parse error; the reflection of that module
 * and the binary-shader loader are the ones of this model. A created wgpu
 * shader module is represented by the code it was created from. Panics of
 * `create_layout_ty` become the error `LayoutFailed`.
 */
module GraphicsShaders {
  import opened Wrappers
  import opened ShaderTypes
  import opened ShaderLayouts
  import Naga
  import Reflection
  import BinaryShader

  // ---------------------------------------------------------------------
  // Builder sources
  // ---------------------------------------------------------------------

  datatype GraphicsShaderSource =
    | NoSource
    | Source(code: Text)
    | SplitSource(vertex: Text, fragment: Text)
    | BinarySource(binary: seq<Byte>)
    | BinarySplitSource(vertexBinary: seq<Byte>, fragmentBinary: seq<Byte>)

  /** `set_source`, and `set_file` on the file's contents: one WGSL text for both stages. */
  function SetSource(s: GraphicsShaderSource, code: Text): (r: GraphicsShaderSource)
    ensures r == Source(code)
  {
    Source(code)
  }

  /**
   * `set_vertex_code`: replaces the vertex text of a split source and
   * keeps its fragment text; any other source becomes a split source with
   * an empty fragment text.
   */
  function SetVertexCode(s: GraphicsShaderSource, code: Text): (r: GraphicsShaderSource)
    ensures r.SplitSource? && r.vertex == code
    ensures r.fragment == (if s.SplitSource? then s.fragment else [])
  {
    match s
    case SplitSource(_, fragment) => SplitSource(code, fragment)
    case _ => SplitSource(code, [])
  }

  /**
   * `set_fragment_code`, and `set_fragment_file` on the file's contents:
   * replaces the fragment text of a split source and keeps its vertex text.
   */
  function SetFragmentCode(s: GraphicsShaderSource, code: Text): (r: GraphicsShaderSource)
    ensures r.SplitSource? && r.fragment == code
    ensures r.vertex == (if s.SplitSource? then s.vertex else [])
  {
    match s
    case SplitSource(vertex, _) => SplitSource(vertex, code)
    case _ => SplitSource([], code)
  }

  /**
   * `set_vertex_file` as written: on a split source it stores the
   * previous VERTEX text in the fragment slot.
   */
  function SetVertexFileAsWritten(s: GraphicsShaderSource, contents: Text): GraphicsShaderSource
  {
    match s
    case SplitSource(vertex, _) => SplitSource(contents, vertex)
    case _ => SplitSource(contents, [])
  }

  /**
   * `set_vertex_file` after `set_fragment_code` loses the fragment text:
   * the new source's fragment slot holds the earlier vertex text.
   */
  lemma VertexFileLosesFragment(v0: Text, f: Text, v: Text)
    requires v0 != f
    ensures SetVertexFileAsWritten(SplitSource(v0, f), v) == SplitSource(v, v0)
    ensures SetVertexFileAsWritten(SplitSource(v0, f), v).fragment != f
    ensures SetVertexCode(SplitSource(v0, f), v).fragment == f
  {
  }

  /** `set_binary_source`, and `set_binary_file` on the file's bytes. */
  function SetBinarySource(s: GraphicsShaderSource, binary: seq<Byte>): (r: GraphicsShaderSource)
    ensures r == BinarySource(binary)
  {
    BinarySource(binary)
  }

  /** `set_binary_vertex` as written: the previous vertex binary moves to the fragment slot. */
  function SetBinaryVertexAsWritten(s: GraphicsShaderSource, binary: seq<Byte>): GraphicsShaderSource
  {
    match s
    case BinarySplitSource(vertex, _) => BinarySplitSource(binary, vertex)
    case _ => BinarySplitSource(binary, [])
  }

  /** `set_binary_fragment` as written: the previous fragment binary moves to the vertex slot. */
  function SetBinaryFragmentAsWritten(s: GraphicsShaderSource, binary: seq<Byte>): GraphicsShaderSource
  {
    match s
    case BinarySplitSource(_, fragment) => BinarySplitSource(fragment, binary)
    case _ => BinarySplitSource([], binary)
  }

  /**
   * Setting the vertex binary and then the fragment binary, as the
   * builder's documentation asks, ends with the vertex binary lost: the
   * vertex slot holds the empty binary the first call put in the fragment
   * slot.
   */
  lemma BinarySettersLoseVertex(vb: seq<Byte>, fb: seq<Byte>)
    requires vb != []
    ensures SetBinaryFragmentAsWritten(SetBinaryVertexAsWritten(NoSource, vb), fb) == BinarySplitSource([], fb)
    ensures SetBinaryFragment(SetBinaryVertex(NoSource, vb), fb) == BinarySplitSource(vb, fb)
  {
  }

  /** `set_binary_vertex` on an existing split binary replaces the fragment binary with the old vertex one. */
  lemma BinaryVertexLosesFragment(v0: seq<Byte>, f: seq<Byte>, v: seq<Byte>)
    requires v0 != f
    ensures SetBinaryVertexAsWritten(BinarySplitSource(v0, f), v).fragmentBinary != f
    ensures SetBinaryVertex(BinarySplitSource(v0, f), v).fragmentBinary == f
  {
  }

  /** `set_binary_vertex` as intended: keeps the fragment binary of a split binary source. */
  function SetBinaryVertex(s: GraphicsShaderSource, binary: seq<Byte>): (r: GraphicsShaderSource)
    ensures r.BinarySplitSource? && r.vertexBinary == binary
    ensures r.fragmentBinary == (if s.BinarySplitSource? then s.fragmentBinary else [])
  {
    match s
    case BinarySplitSource(_, fragment) => BinarySplitSource(binary, fragment)
    case _ => BinarySplitSource(binary, [])
  }

  /** `set_binary_fragment` as intended: keeps the vertex binary of a split binary source. */
  function SetBinaryFragment(s: GraphicsShaderSource, binary: seq<Byte>): (r: GraphicsShaderSource)
    ensures r.BinarySplitSource? && r.fragmentBinary == binary
    ensures r.vertexBinary == (if s.BinarySplitSource? then s.vertexBinary else [])
  {
    match s
    case BinarySplitSource(vertex, _) => BinarySplitSource(vertex, binary)
    case _ => BinarySplitSource([], binary)
  }

  /**
   * The two halves of a split source can be given in either order, and
   * setting one half twice keeps only the last text.
   */
  lemma SplitSettersCommute(s: GraphicsShaderSource, v: Text, f: Text, v2: Text)
    ensures SetFragmentCode(SetVertexCode(s, v), f) == SplitSource(v, f)
    ensures SetVertexCode(SetFragmentCode(s, f), v) == SplitSource(v, f)
    ensures SetVertexCode(SetVertexCode(SetFragmentCode(s, f), v2), v) == SplitSource(v, f)
  {
  }

  /** The corrected binary setters commute in the same way. */
  lemma BinarySplitSettersCommute(s: GraphicsShaderSource, v: seq<Byte>, f: seq<Byte>)
    ensures SetBinaryFragment(SetBinaryVertex(s, v), f) == BinarySplitSource(v, f)
    ensures SetBinaryVertex(SetBinaryFragment(s, f), v) == BinarySplitSource(v, f)
  {
  }

  // ---------------------------------------------------------------------
  // Vertex format conversion
  // ---------------------------------------------------------------------

  /**
   * `is_format_conversion_supported`: whether an attribute reflected as
   * `origin` may be fed with data of format `target`.
   */
  function IsFormatConversionSupported(origin: VertexInputType, target: VertexInputType): bool
  {
    match origin
    case Float32 => target in {Float32, Snorm8, Unorm8, Snorm16}
    case Float32x2 => target in {Float32x2, Snorm8x2, Unorm8x2, Snorm16x2}
    case Float32x3 => target == Float32x3
    case Float32x4 => target in {Float32x4, Snorm8x4, Unorm8x4, Snorm16x4}
    case Uint32 => target in {Uint32, Uint16, Uint8}
    case Uint32x2 => target in {Uint32x2, Uint16x2, Uint8x2}
    case Uint32x3 => target in {Uint32x3, Uint16x4, Uint8x4}
    case Uint32x4 => target in {Uint32x4, Uint16x4, Uint8x4}
    case _ => origin == target
  }

  /** Every format converts to itself. */
  lemma ConversionReflexive(t: VertexInputType)
    ensures IsFormatConversionSupported(t, t)
  {
  }

  /** Float32x3 converts to nothing but itself. */
  lemma Float32x3OnlyItself(t: VertexInputType)
    ensures IsFormatConversionSupported(Float32x3, t) <==> t == Float32x3
  {
  }

  /** The table is not symmetric: Float32 accepts Snorm8 data, Snorm8 does not accept Float32 data. */
  /**
   * A conversion never widens an attribute: the data format is at most as
   * many bytes as the reflected one, and only the 32-bit formats accept a
   * different format at all.
   */
  lemma ConversionNeverWidens(origin: VertexInputType, target: VertexInputType)
    requires IsFormatConversionSupported(origin, target)
    ensures Reflection.FormatSize(target) <= Reflection.FormatSize(origin)
    ensures origin != target ==>
      origin in {Float32, Float32x2, Float32x4, Uint32, Uint32x2, Uint32x3, Uint32x4}
  {
    if origin in {Float32, Float32x2, Float32x4, Uint32, Uint32x2, Uint32x3, Uint32x4} {
      assert Reflection.FormatSize(target) <= Reflection.FormatSize(origin);
    } else if origin != Float32x3 {
      assert origin == target;
    }
  }

  // ---------------------------------------------------------------------
  // Vertex input description
  // ---------------------------------------------------------------------

  /** `VertexInputDescription`: the vertex state a pipeline is built with. */
  datatype VertexInputDescription = VertexInputDescription(
    index: Option<IndexBufferSize>,
    topology: ShaderTopology,
    cullMode: Option<ShaderCullMode>,
    polygonMode: ShaderPolygonMode,
    frontFace: ShaderFrontFace,
    stride: U64,
    attributes: seq<VertexAttribute>)

  datatype ShaderError =
    | MissingDevice
    | NoShaderSource
    | ParseError                                    // naga refused the WGSL text
    | ReflectFailed(reflectError: Reflection.ReflectError)
    | BinaryLoadFailed(loadError: BinaryShader.LoadError)
    | SourceNotVertexFragment
    | BinaryNotVertexFragment
    | InvalidSourcePair
    | InvalidBinaryPair
    | MissingVertexInput
    | InvalidVertexInputShader
    | LayoutFailed(panic: LayoutPanic)

  /** The vertex input of a vertex or vertex+fragment reflection. */
  function VertexInputOf(r: ShaderReflect): Option<VertexInputReflection>
  {
    match r
    case Vertex(_, input, _) => input
    case VertexFragment(_, input, _, _) => input
    case _ => None
  }

  /**
   * `create_input_desc`: the reflected stride and attributes with the
   * defaults U16 indices, TriangleList, no culling, Fill and Clockwise;
   * Err for a reflection without a vertex stage or without a vertex input.
   */
  function CreateInputDesc(r: ShaderReflect): (d: Result<VertexInputDescription, ShaderError>)
    ensures d.Ok? <==> VertexInputOf(r).Some?
    ensures !(r.Vertex? || r.VertexFragment?) ==> d == Err(InvalidVertexInputShader)
    ensures (r.Vertex? || r.VertexFragment?) && VertexInputOf(r).None? ==> d == Err(MissingVertexInput)
    ensures d.Ok? ==>
      d.value.index == Some(U16Index) && d.value.topology == TriangleList &&
      d.value.cullMode == None && d.value.polygonMode == Fill && d.value.frontFace == Clockwise &&
      d.value.stride == VertexInputOf(r).value.stride &&
      d.value.attributes == VertexInputOf(r).value.attributes
  {
    if !(r.Vertex? || r.VertexFragment?) then Err(InvalidVertexInputShader)
    else
      match VertexInputOf(r)
      case None => Err(MissingVertexInput)
      case Some(input) =>
        Ok(VertexInputDescription(Some(U16Index), TriangleList, None, Fill, Clockwise,
                                  input.stride, input.attributes))
  }

  // ---------------------------------------------------------------------
  // Bind-group layouts
  // ---------------------------------------------------------------------

  /**
   * The bindings of one reflection: Vertex and Fragment bindings merge
   * into an existing entry with the same (group, binding), VertexFragment
   * bindings are always pushed, Compute reflections are skipped.
   */
  function ReflectLayouts(layouts: Layouts, r: ShaderReflect): Result<Layouts, LayoutPanic>
  {
    match r
    case Vertex(_, _, bs) => AddBindings(layouts, bs, |bs|, VERTEX, true)
    case Fragment(_, bs) => AddBindings(layouts, bs, |bs|, FRAGMENT, true)
    case VertexFragment(_, _, _, bs) => AddBindings(layouts, bs, |bs|, VERTEX_FRAGMENT, false)
    case Compute(_, _) => Ok(layouts)
  }

  /** The reflection loop of `make_group_layout` over the first `n` reflections. */
  function CollectLayouts(reflects: seq<ShaderReflect>, n: nat): Result<Layouts, LayoutPanic>
    requires n <= |reflects|
  {
    if n == 0 then Ok(map[])
    else
      match CollectLayouts(reflects, n - 1)
      case Err(p) => Err(p)
      case Ok(m) => ReflectLayouts(m, reflects[n - 1])
  }

  /**
   * `make_group_layout`: one layout per group, in increasing group order,
   * each listing its entries' binding numbers.
   */
  function MakeGroupLayoutSpec(reflects: seq<ShaderReflect>): (r: Result<seq<GroupLayout>, LayoutPanic>)
    ensures r.Ok? ==> forall i, j :: 0 <= i < j < |r.value| ==> r.value[i].group < r.value[j].group
    ensures r.Ok? ==> forall i :: 0 <= i < |r.value| ==> r.value[i].bindings == BindingNumbers(r.value[i].entries)
    ensures r.Ok? ==> (CollectLayouts(reflects, |reflects|).Ok? &&
      forall g :: g in CollectLayouts(reflects, |reflects|).value <==>
        exists i :: 0 <= i < |r.value| && r.value[i].group == g)
  {
    match CollectLayouts(reflects, |reflects|)
    case Err(p) => Err(p)
    case Ok(m) =>
      var order := SortedGroups(m.Keys);
      var r := LayoutsIn(m, order);
      assert forall g :: g in m <==> exists i :: 0 <= i < |r| && r[i].group == g by {
        forall g | g in m
          ensures exists i :: 0 <= i < |r| && r[i].group == g
        {
          var i :| 0 <= i < |order| && order[i] == g;
          assert r[i].group == g;
        }
      }
      Ok(r)
  }

  lemma {:induction false} CollectLayoutsErrSticks(reflects: seq<ShaderReflect>, m: nat, n: nat)
    requires m <= n <= |reflects|
    requires CollectLayouts(reflects, m).Err?
    ensures CollectLayouts(reflects, n) == CollectLayouts(reflects, m)
    decreases n - m
  {
    if m < n {
      CollectLayoutsErrSticks(reflects, m, n - 1);
    }
  }

  /**
   * `make_group_layout` as the source runs it: a loop over the
   * reflections, each running the binding loop on the shared table, then
   * the groups in increasing order.
   */
  method MakeGroupLayout(reflects: seq<ShaderReflect>) returns (r: Result<seq<GroupLayout>, LayoutPanic>)
    ensures r == MakeGroupLayoutSpec(reflects)
  {
    var layouts: Layouts := map[];
    var i := 0;
    while i < |reflects|
      invariant i <= |reflects|
      invariant CollectLayouts(reflects, i) == Ok(layouts)
    {
      var next: Result<Layouts, LayoutPanic>;
      match reflects[i] {
        case Vertex(_, _, bs) => next := PushBindings(layouts, bs, VERTEX, true);
        case Fragment(_, bs) => next := PushBindings(layouts, bs, FRAGMENT, true);
        case VertexFragment(_, _, _, bs) => next := PushBindings(layouts, bs, VERTEX_FRAGMENT, false);
        case Compute(_, _) => next := Ok(layouts);
      }
      if next.Err? {
        CollectLayoutsErrSticks(reflects, i + 1, |reflects|);
        return Err(next.error);
      }
      layouts := next.value;
      i := i + 1;
    }
    r := Ok(LayoutsIn(layouts, SortedGroups(layouts.Keys)));
  }

  /** The only strictly increasing list of the groups of a one-group table is that group. */
  lemma SortedSingleGroup(g: U32)
    ensures SortedGroups({g}) == [g]
  {
    assert MinGroup({g}) == g;
    assert {g} - {g} == {};
  }

  /**
   * A vertex and a fragment stage that both declare (group, binding),
   * even with different types, share one entry visible to both stages;
   * the entry keeps the vertex stage's type.
   */
  lemma SharedBindingMerged(e: Text, g: U32, n: U32, name: Text, name2: Text)
    ensures MakeGroupLayoutSpec([
      Vertex(e, None, [ShaderBindingInfo(n, g, name, UniformBuffer(64))]),
      Fragment(e, [ShaderBindingInfo(n, g, name2, Sampler(false))])]) ==
      Ok([GroupLayout(g, [n], [LayoutEntry(n, VERTEX_FRAGMENT, BufferBinding(UniformBinding, false, Some(64)))])])
  {
    var v := ShaderBindingInfo(n, g, name, UniformBuffer(64));
    var f := ShaderBindingInfo(n, g, name2, Sampler(false));
    var reflects := [Vertex(e, None, [v]), Fragment(e, [f])];
    var entry := LayoutEntry(n, VERTEX, BufferBinding(UniformBinding, false, Some(64)));
    assert CreateLayoutTy(v.ty) == Ok(entry.ty);
    assert EntriesOf(map[], g) == [];
    assert FindExisting(map[], g, n) == None;
    assert [] + [entry] == [entry];
    assert AddBinding(map[], v, VERTEX, true) == Ok(map[g := [entry]]);
    assert AddBindings(map[], [v], 0, VERTEX, true) == Ok(map[]);
    assert AddBindings(map[], [v], 1, VERTEX, true) == Ok(map[g := [entry]]);
    assert CollectLayouts(reflects, 0) == Ok(map[]);
    assert CollectLayouts(reflects, 1) == Ok(map[g := [entry]]);
    assert FindExisting(map[g := [entry]], g, n) == Some(0);
    var merged := map[g := [entry.(visibility := VERTEX_FRAGMENT)]];
    assert CreateLayoutTy(f.ty).Ok?;
    assert EntriesOf(map[g := [entry]], g) == [entry];
    assert [entry][0 := entry.(visibility := StagesOr(VERTEX, FRAGMENT))] == [entry.(visibility := VERTEX_FRAGMENT)];
    var ms := map[g := [entry]];
    assert FindExisting(ms, g, n) == Some(0);
    assert EntriesOf(ms, g)[0] == entry;
    assert ms[g := [entry][0 := entry.(visibility := StagesOr(entry.visibility, FRAGMENT))]] == merged;
    assert AddBinding(ms, f, FRAGMENT, true) == Ok(merged);
    assert AddBindings(map[g := [entry]], [f], 0, FRAGMENT, true) == Ok(map[g := [entry]]);
    assert AddBindings(map[g := [entry]], [f], 1, FRAGMENT, true) == Ok(merged);
    assert CollectLayouts(reflects, 2) == Ok(merged);
    assert merged.Keys == {g};
    SortedSingleGroup(g);
    assert BindingNumbers(merged[g]) == [n];
    var want := GroupLayout(g, [n], [LayoutEntry(n, VERTEX_FRAGMENT, BufferBinding(UniformBinding, false, Some(64)))]);
    assert LayoutsIn(merged, [g]) == [want];
    assert MakeGroupLayoutSpec(reflects) == Ok([want]);
  }

  /**
   * A vertex+fragment reflection that lists one (group, binding) twice
   * gets two entries for it: its bindings are never merged.
   */
  lemma VertexFragmentNeverMerges(e: Text, g: U32, n: U32, name: Text)
    ensures var b := ShaderBindingInfo(n, g, name, Texture(false));
      var entry := LayoutEntry(n, VERTEX_FRAGMENT, TextureBinding(true, false));
      MakeGroupLayoutSpec([VertexFragment(e, None, e, [b, b])]) ==
      Ok([GroupLayout(g, [n, n], [entry, entry])])
  {
    var b := ShaderBindingInfo(n, g, name, Texture(false));
    var entry := LayoutEntry(n, VERTEX_FRAGMENT, TextureBinding(true, false));
    var reflects := [VertexFragment(e, None, e, [b, b])];
    assert CreateLayoutTy(b.ty) == Ok(entry.ty);
    assert EntriesOf(map[], g) == [];
    assert [] + [entry] == [entry];
    assert AddBinding(map[], b, VERTEX_FRAGMENT, false) == Ok(map[g := [entry]]);
    assert AddBindings(map[], [b, b], 0, VERTEX_FRAGMENT, false) == Ok(map[]);
    assert AddBindings(map[], [b, b], 1, VERTEX_FRAGMENT, false) == Ok(map[g := [entry]]);
    assert EntriesOf(map[g := [entry]], g) == [entry];
    assert [entry] + [entry] == [entry, entry];
    var ms := map[g := [entry]];
    assert ms[g := EntriesOf(ms, g) + [LayoutEntry(b.binding, VERTEX_FRAGMENT, CreateLayoutTy(b.ty).value)]] == map[g := [entry, entry]];
    assert AddBinding(ms, b, VERTEX_FRAGMENT, false) == Ok(map[g := [entry, entry]]);
    assert AddBindings(map[], [b, b], 2, VERTEX_FRAGMENT, false) == Ok(map[g := [entry, entry]]);
    assert CollectLayouts(reflects, 0) == Ok(map[]);
    assert CollectLayouts(reflects, 1) == Ok(map[g := [entry, entry]]);
    assert map[g := [entry, entry]].Keys == {g};
    SortedSingleGroup(g);
    assert BindingNumbers([entry, entry]) == [n, n];
    assert LayoutsIn(map[g := [entry, entry]], [g]) == [GroupLayout(g, [n, n], [entry, entry])];
    assert MakeGroupLayoutSpec(reflects) == Ok([GroupLayout(g, [n, n], [entry, entry])]);
  }

  /** A compute reflection contributes no layout to a graphics shader. */
  lemma ComputeReflectionSkipped(reflects: seq<ShaderReflect>, e: Text, bs: seq<ShaderBindingInfo>)
    ensures CollectLayouts(reflects + [Compute(e, bs)], |reflects| + 1) == CollectLayouts(reflects, |reflects|)
  {
    var all := reflects + [Compute(e, bs)];
    assert all[..|reflects|] == reflects;
    CollectLayoutsPrefix(reflects, all, |reflects|);
  }

  lemma {:induction false} CollectLayoutsPrefix(a: seq<ShaderReflect>, b: seq<ShaderReflect>, n: nat)
    requires n <= |a| <= |b| && a == b[..|a|]
    ensures CollectLayouts(a, n) == CollectLayouts(b, n)
  {
    if n > 0 {
      CollectLayoutsPrefix(a, b, n - 1);
      assert a[n - 1] == b[n - 1];
    }
  }

  // ---------------------------------------------------------------------
  // Building a graphics shader
  // ---------------------------------------------------------------------

  /** A created wgpu shader module, represented by what it was created from. */
  datatype ShaderModule = WgslModule(code: Text) | SpirvModule(spirv: seq<Byte>)

  datatype GraphicsShaderType =
    | GraphicsSingle(shaderModule: ShaderModule)
    | GraphicsSplit(vertexModule: ShaderModule, fragmentModule: ShaderModule)

  /** What `GraphicsShader::new` produces: the shader type, the reflections, the layouts and the vertex description. */
  datatype ShaderParts = ShaderParts(
    ty: GraphicsShaderType,
    reflection: seq<ShaderReflect>,
    bindGroupLayouts: seq<GroupLayout>,
    attrib: VertexInputDescription)

  /** `build_single_shader`: parse the WGSL text, then reflect the module. */
  function BuildSingleShader(code: Text, parse: Text -> Option<Naga.Module>): Result<(ShaderModule, ShaderReflect), ShaderError>
  {
    match parse(code)
    case None => Err(ParseError)
    case Some(m) =>
      match Reflection.ParseSpec(m)
      case Err(e) => Err(ReflectFailed(e))
      case Ok(refl) => Ok((WgslModule(code), refl))
  }

  /** `build_binary_shader`: load the binary container; its SPIR-V words become the module. */
  function BuildBinaryShader(binary: seq<Byte>): Result<(ShaderModule, ShaderReflect), ShaderError>
  {
    match BinaryShader.LoadSpec(binary)
    case Err(e) => Err(BinaryLoadFailed(e))
    case Ok(bin) => Ok((SpirvModule(bin.spirv), bin.reflect))
  }

  /** The common tail of every successful path: layouts first, then the vertex description of the first reflection. */
  function Assemble(ty: GraphicsShaderType, reflection: seq<ShaderReflect>): (r: Result<ShaderParts, ShaderError>)
    requires |reflection| > 0
    ensures r.Ok? ==>
      r.value.ty == ty && r.value.reflection == reflection &&
      MakeGroupLayoutSpec(reflection) == Ok(r.value.bindGroupLayouts) &&
      CreateInputDesc(reflection[0]) == Ok(r.value.attrib) &&
      AttribMatches(reflection, r.value.attrib)
  {
    match MakeGroupLayoutSpec(reflection)
    case Err(p) => Err(LayoutFailed(p))
    case Ok(layouts) =>
      match CreateInputDesc(reflection[0])
      case Err(e) => Err(e)
      case Ok(desc) => Ok(ShaderParts(ty, reflection, layouts, desc))
  }

  /** A single source: the reflection must be VertexFragment. */
  function SingleOutcome(built: Result<(ShaderModule, ShaderReflect), ShaderError>, notVertexFragment: ShaderError)
    : (r: Result<ShaderParts, ShaderError>)
    ensures r.Ok? ==>
      |r.value.reflection| == 1 && r.value.reflection[0].VertexFragment? && r.value.ty.GraphicsSingle?
  {
    match built
    case Err(e) => Err(e)
    case Ok((m, refl)) =>
      if refl.VertexFragment? then Assemble(GraphicsSingle(m), [refl])
      else Err(notVertexFragment)
  }

  /** A split source: the vertex stage is built first, and the pair must reflect as (Vertex, Fragment). */
  function SplitOutcome(vertex: Result<(ShaderModule, ShaderReflect), ShaderError>,
                        fragment: Result<(ShaderModule, ShaderReflect), ShaderError>,
                        invalidPair: ShaderError): (r: Result<ShaderParts, ShaderError>)
    ensures r.Ok? ==>
      |r.value.reflection| == 2 && r.value.reflection[0].Vertex? && r.value.reflection[1].Fragment? &&
      r.value.ty.GraphicsSplit?
  {
    match vertex
    case Err(e) => Err(e)
    case Ok((vm, vr)) =>
      match fragment
      case Err(e) => Err(e)
      case Ok((fm, fr)) =>
        if vr.Vertex? && fr.Fragment? then Assemble(GraphicsSplit(vm, fm), [vr, fr])
        else Err(invalidPair)
  }

  /**
   * The shader state the model of a successful `new` keeps: the vertex
   * description's attributes are those of the first reflection's vertex
   * input, up to their formats.
   */
  predicate AttribMatches(reflection: seq<ShaderReflect>, attrib: VertexInputDescription)
  {
    var input := FirstVertexInput(reflection);
    input.Some? && |attrib.attributes| == |input.value.attributes| &&
    forall i :: 0 <= i < |attrib.attributes| ==>
      attrib.attributes[i].location == input.value.attributes[i].location &&
      attrib.attributes[i].offset == input.value.attributes[i].offset
  }

  /** `reflection.first()`'s vertex input. */
  function FirstVertexInput(reflection: seq<ShaderReflect>): Option<VertexInputReflection>
  {
    if |reflection| == 0 then None else VertexInputOf(reflection[0])
  }

  /**
   * `GraphicsShader::new`. Without a device, or without a source, it
   * fails. A single source (text or binary) must reflect as
   * VertexFragment; a split source must reflect as a Vertex stage and a
   * Fragment stage. On success the layouts are those of the reflections
   * and the vertex description is that of the first reflection.
   */
  function NewShader(hasDevice: bool, source: GraphicsShaderSource, parse: Text -> Option<Naga.Module>)
    : (r: Result<ShaderParts, ShaderError>)
    ensures !hasDevice ==> r == Err(MissingDevice)
    ensures hasDevice && source.NoSource? ==> r == Err(NoShaderSource)
    ensures r.Ok? && (source.Source? || source.BinarySource?) ==>
      |r.value.reflection| == 1 && r.value.reflection[0].VertexFragment? && r.value.ty.GraphicsSingle?
    ensures r.Ok? && (source.SplitSource? || source.BinarySplitSource?) ==>
      |r.value.reflection| == 2 && r.value.reflection[0].Vertex? && r.value.reflection[1].Fragment? &&
      r.value.ty.GraphicsSplit?
    ensures r.Ok? ==>
      MakeGroupLayoutSpec(r.value.reflection) == Ok(r.value.bindGroupLayouts) &&
      CreateInputDesc(r.value.reflection[0]) == Ok(r.value.attrib) &&
      AttribMatches(r.value.reflection, r.value.attrib)
  {
    if !hasDevice then Err(MissingDevice)
    else
      match source
      case NoSource => Err(NoShaderSource)
      case Source(code) => SingleOutcome(BuildSingleShader(code, parse), SourceNotVertexFragment)
      case SplitSource(v, f) =>
        SplitOutcome(BuildSingleShader(v, parse), BuildSingleShader(f, parse), InvalidSourcePair)
      case BinarySource(bin) => SingleOutcome(BuildBinaryShader(bin), BinaryNotVertexFragment)
      case BinarySplitSource(v, f) =>
        SplitOutcome(BuildBinaryShader(v), BuildBinaryShader(f), InvalidBinaryPair)
  }

  /** A text that parses and reflects, but not as VertexFragment, is refused as a single source. */
  lemma SingleSourceMustBeVertexFragment(code: Text, parse: Text -> Option<Naga.Module>)
    requires BuildSingleShader(code, parse).Ok? && !BuildSingleShader(code, parse).value.1.VertexFragment?
    ensures NewShader(true, Source(code), parse) == Err(SourceNotVertexFragment)
  {
  }

  /** A split pair whose stages both reflect, but not as (Vertex, Fragment), is refused. */
  lemma SplitSourceMustBeVertexThenFragment(v: Text, f: Text, parse: Text -> Option<Naga.Module>)
    requires BuildSingleShader(v, parse).Ok? && BuildSingleShader(f, parse).Ok?
    requires !(BuildSingleShader(v, parse).value.1.Vertex? && BuildSingleShader(f, parse).value.1.Fragment?)
    ensures NewShader(true, SplitSource(v, f), parse) == Err(InvalidSourcePair)
  {
  }

  // ---------------------------------------------------------------------
  // Uniform lookups
  // ---------------------------------------------------------------------

  /** The uniform lookup over the reflections from index `from` on; compute reflections are skipped. */
  function UniformLocationFrom(reflection: seq<ShaderReflect>, name: Text, from: nat): (r: Option<(U32, U32)>)
    requires from <= |reflection|
    ensures r.None? <==> forall i :: from <= i < |reflection| && !reflection[i].Compute? ==>
      FindUniform(reflection[i].bindings, name).None?
    ensures r.Some? ==> exists i :: (from <= i < |reflection| && !reflection[i].Compute? &&
      FindUniform(reflection[i].bindings, name) == r)
    decreases |reflection| - from
  {
    if from == |reflection| then None
    else if reflection[from].Compute? then UniformLocationFrom(reflection, name, from + 1)
    else
      match FindUniform(reflection[from].bindings, name)
      case Some(loc) => Some(loc)
      case None => UniformLocationFrom(reflection, name, from + 1)
  }

  /**
   * `get_uniform_location`: the (group, binding) of the first uniform
   * buffer named `name`, searching the reflections in order; None when no
   * vertex or fragment reflection has one.
   */
  function GetUniformLocation(reflection: seq<ShaderReflect>, name: Text): (r: Option<(U32, U32)>)
    ensures r.None? <==> forall i, k :: (0 <= i < |reflection| && !reflection[i].Compute? &&
      0 <= k < |reflection[i].bindings|) ==> !IsUniformNamed(reflection[i].bindings[k], name)
    ensures r.Some? ==> exists i, k :: (0 <= i < |reflection| && !reflection[i].Compute? &&
      0 <= k < |reflection[i].bindings| && IsUniformNamed(reflection[i].bindings[k], name) &&
      r.value == (reflection[i].bindings[k].group, reflection[i].bindings[k].binding))
  {
    UniformLocationFrom(reflection, name, 0)
  }

  /** The size of the first uniform found for (group, binding), from reflection `from` on. */
  function UniformSizeFrom(reflection: seq<ShaderReflect>, group: U32, binding: U32, from: nat): (r: Option<U32>)
    requires from <= |reflection|
    ensures r.Some? ==> exists i :: (from <= i < |reflection| && !reflection[i].Compute? &&
      FirstBindingType(reflection[i].bindings, group, binding) == Some(UniformBuffer(r.value)))
    ensures r.None? ==> forall i :: from <= i < |reflection| && !reflection[i].Compute? ==>
      FirstBindingType(reflection[i].bindings, group, binding).None? ||
      !FirstBindingType(reflection[i].bindings, group, binding).value.UniformBuffer?
    decreases |reflection| - from
  {
    if from == |reflection| then None
    else if reflection[from].Compute? then UniformSizeFrom(reflection, group, binding, from + 1)
    else
      match FirstBindingType(reflection[from].bindings, group, binding)
      case Some(UniformBuffer(size)) => Some(size)
      case _ => UniformSizeFrom(reflection, group, binding, from + 1)
  }

  /** The type of the first binding numbered (group, binding), if any. */
  function FirstBindingType(bs: seq<ShaderBindingInfo>, group: U32, binding: U32): Option<ShaderBindingType>
  {
    match FirstKeyFrom(bs, group, binding, 0)
    case None => None
    case Some(k) => Some(bs[k].ty)
  }

  /**
   * `get_uniform_size`: in each reflection only the first binding numbered
   * (group, binding) is looked at; a uniform buffer there gives its size,
   * anything else moves on to the next reflection.
   */
  function GetUniformSize(reflection: seq<ShaderReflect>, group: U32, binding: U32): (r: Option<U32>)
    ensures r.Some? ==> exists i, k :: (0 <= i < |reflection| && !reflection[i].Compute? &&
      0 <= k < |reflection[i].bindings| &&
      reflection[i].bindings[k] == reflection[i].bindings[k].(group := group, binding := binding) &&
      reflection[i].bindings[k].ty == UniformBuffer(r.value))
    ensures r.None? ==> forall i :: 0 <= i < |reflection| && !reflection[i].Compute? ==>
      FirstBindingType(reflection[i].bindings, group, binding).None? ||
      !FirstBindingType(reflection[i].bindings, group, binding).value.UniformBuffer?
  {
    var r := UniformSizeFrom(reflection, group, binding, 0);
    UniformSizeWitness(reflection, group, binding, r);
    r
  }

  lemma UniformSizeWitness(reflection: seq<ShaderReflect>, group: U32, binding: U32, r: Option<U32>)
    requires r == UniformSizeFrom(reflection, group, binding, 0)
    ensures r.Some? ==> exists i, k :: (0 <= i < |reflection| && !reflection[i].Compute? &&
      0 <= k < |reflection[i].bindings| &&
      reflection[i].bindings[k] == reflection[i].bindings[k].(group := group, binding := binding) &&
      reflection[i].bindings[k].ty == UniformBuffer(r.value))
  {
    if r.Some? {
      var i :| 0 <= i < |reflection| && !reflection[i].Compute? &&
        FirstBindingType(reflection[i].bindings, group, binding) == Some(UniformBuffer(r.value));
      var k := FirstKeyFrom(reflection[i].bindings, group, binding, 0).value;
      assert reflection[i].bindings[k] == reflection[i].bindings[k].(group := group, binding := binding);
    }
  }

  // ---------------------------------------------------------------------
  // Setting a vertex input format
  // ---------------------------------------------------------------------

  datatype VertexInputError =
    | NoVertexInput
    | LocationNotFound(location: U32)
    | UnsupportedConversion(target: VertexInputType, location: U32)
    | AttributeNotFound(location: U32)

  /** The index of the first attribute at or after `from` with shader location `location`. */
  function LocationFrom(attrs: seq<VertexAttribute>, location: U32, from: nat): (r: Option<nat>)
    requires from <= |attrs|
    ensures r.Some? ==> (from <= r.value < |attrs| && attrs[r.value].location == location &&
      forall i :: from <= i < r.value ==> attrs[i].location != location)
    ensures r.None? ==> forall i :: from <= i < |attrs| ==> attrs[i].location != location
    decreases |attrs| - from
  {
    if from == |attrs| then None
    else if attrs[from].location == location then Some(from)
    else LocationFrom(attrs, location, from + 1)
  }

  /**
   * `set_vertex_input` on the shader's reflections and vertex
   * description: the attribute at `location` of the first reflection's
   * vertex input must accept `target`; then the description's attribute
   * at that location takes `target` as its format.
   */
  function SetVertexInputSpec(reflection: seq<ShaderReflect>, attrib: VertexInputDescription,
                              location: U32, target: VertexInputType): Result<VertexInputDescription, VertexInputError>
  {
    match FirstVertexInput(reflection)
    case None => Err(NoVertexInput)
    case Some(input) =>
      match LocationFrom(input.attributes, location, 0)
      case None => Err(LocationNotFound(location))
      case Some(k) =>
        if !IsFormatConversionSupported(input.attributes[k].format, target) then
          Err(UnsupportedConversion(target, location))
        else
          match LocationFrom(attrib.attributes, location, 0)
          case None => Err(AttributeNotFound(location))
          case Some(j) =>
            Ok(attrib.(attributes := attrib.attributes[j := attrib.attributes[j].(format := target)]))
  }

  /**
   * The errors of `set_vertex_input`, in the order the source checks
   * them; while the description matches the reflection, the last check
   * never fails.
   */
  lemma SetVertexInputErrors(reflection: seq<ShaderReflect>, attrib: VertexInputDescription,
                             location: U32, target: VertexInputType)
    ensures FirstVertexInput(reflection).None? ==>
      SetVertexInputSpec(reflection, attrib, location, target) == Err(NoVertexInput)
    ensures (FirstVertexInput(reflection).Some? &&
      forall i :: 0 <= i < |FirstVertexInput(reflection).value.attributes| ==>
        FirstVertexInput(reflection).value.attributes[i].location != location) ==>
      SetVertexInputSpec(reflection, attrib, location, target) == Err(LocationNotFound(location))
    ensures AttribMatches(reflection, attrib) ==>
      SetVertexInputSpec(reflection, attrib, location, target) != Err(AttributeNotFound(location))
  {
    if AttribMatches(reflection, attrib) {
      var input := FirstVertexInput(reflection).value;
      var k := LocationFrom(input.attributes, location, 0);
      if k.Some? {
        assert attrib.attributes[k.value].location == location;
      }
    }
  }

  /**
   * A supported conversion at a present location changes exactly the
   * format of the first attribute at that location; everything else in
   * the description is kept, and the description still matches the
   * reflection. The check uses the reflected format, so it does not
   * depend on formats set earlier.
   */
  lemma {:induction false} SetVertexInputChangesOnlyFormat(reflection: seq<ShaderReflect>, attrib: VertexInputDescription,
                                       location: U32, target: VertexInputType)
    requires AttribMatches(reflection, attrib)
    requires exists i :: (0 <= i < |FirstVertexInput(reflection).value.attributes| &&
      FirstVertexInput(reflection).value.attributes[i].location == location)
    requires forall i :: (0 <= i < |FirstVertexInput(reflection).value.attributes| &&
      FirstVertexInput(reflection).value.attributes[i].location == location) ==>
      IsFormatConversionSupported(FirstVertexInput(reflection).value.attributes[i].format, target)
    ensures var r := SetVertexInputSpec(reflection, attrib, location, target);
      r.Ok? && AttribMatches(reflection, r.value) &&
      r.value == attrib.(attributes := r.value.attributes) &&
      exists j :: (0 <= j < |attrib.attributes| && attrib.attributes[j].location == location &&
        (forall i :: 0 <= i < j ==> attrib.attributes[i].location != location) &&
        r.value.attributes == attrib.attributes[j := attrib.attributes[j].(format := target)])
  {
    var input := FirstVertexInput(reflection).value;
    var k := LocationFrom(input.attributes, location, 0).value;
    var j := LocationFrom(attrib.attributes, location, 0);
    assert attrib.attributes[k].location == location;
    assert j.Some?;
  }

  // ---------------------------------------------------------------------
  // The shader object
  // ---------------------------------------------------------------------

  /**
   * `GraphicsShader`: the parts built by `new`; the vertex description is
   * shared mutable state that the setters update in place.
   */
  class GraphicsShader {
    const ty: GraphicsShaderType
    const reflection: seq<ShaderReflect>
    const bindGroupLayouts: seq<GroupLayout>
    var attrib: VertexInputDescription

    ghost predicate Valid()
      reads this
    {
      AttribMatches(reflection, attrib)
    }

    /** The shader object around the outcome of a successful `new`. */
    constructor (parts: ShaderParts)
      requires AttribMatches(parts.reflection, parts.attrib)
      ensures Valid()
      ensures ty == parts.ty && reflection == parts.reflection
      ensures bindGroupLayouts == parts.bindGroupLayouts && attrib == parts.attrib
    {
      ty := parts.ty;
      reflection := parts.reflection;
      bindGroupLayouts := parts.bindGroupLayouts;
      attrib := parts.attrib;
    }

    method SetTopology(topology: ShaderTopology) returns (r: Result<(), VertexInputError>)
      requires Valid()
      modifies this
      ensures Valid() && r == Ok(())
      ensures attrib == old(attrib).(topology := topology)
    {
      attrib := attrib.(topology := topology);
      r := Ok(());
    }

    method SetCullMode(cullMode: Option<ShaderCullMode>) returns (r: Result<(), VertexInputError>)
      requires Valid()
      modifies this
      ensures Valid() && r == Ok(())
      ensures attrib == old(attrib).(cullMode := cullMode)
    {
      attrib := attrib.(cullMode := cullMode);
      r := Ok(());
    }

    method SetPolygonMode(polygonMode: ShaderPolygonMode) returns (r: Result<(), VertexInputError>)
      requires Valid()
      modifies this
      ensures Valid() && r == Ok(())
      ensures attrib == old(attrib).(polygonMode := polygonMode)
    {
      attrib := attrib.(polygonMode := polygonMode);
      r := Ok(());
    }

    method SetFrontFace(frontFace: ShaderFrontFace) returns (r: Result<(), VertexInputError>)
      requires Valid()
      modifies this
      ensures Valid() && r == Ok(())
      ensures attrib == old(attrib).(frontFace := frontFace)
    {
      attrib := attrib.(frontFace := frontFace);
      r := Ok(());
    }

    method SetVertexIndexTy(index: Option<IndexBufferSize>) returns (r: Result<(), VertexInputError>)
      requires Valid()
      modifies this
      ensures Valid() && r == Ok(())
      ensures attrib == old(attrib).(index := index)
    {
      attrib := attrib.(index := index);
      r := Ok(());
    }

    /**
     * `set_vertex_input`: on success the description becomes the one
     * `SetVertexInputSpec` gives; on an error it is unchanged.
     */
    method SetVertexInput(location: U32, target: VertexInputType) returns (r: Result<(), VertexInputError>)
      requires Valid()
      modifies this
      ensures Valid()
      ensures var spec := SetVertexInputSpec(reflection, old(attrib), location, target);
        (r.Ok? <==> spec.Ok?) &&
        (spec.Ok? ==> attrib == spec.value) &&
        (spec.Err? ==> r == Err(spec.error) && attrib == old(attrib))
    {
      var input := FirstVertexInput(reflection);
      if input.None? {
        return Err(NoVertexInput);
      }
      var k := LocationFrom(input.value.attributes, location, 0);
      if k.None? {
        return Err(LocationNotFound(location));
      }
      if !IsFormatConversionSupported(input.value.attributes[k.value].format, target) {
        return Err(UnsupportedConversion(target, location));
      }
      var j := LocationFrom(attrib.attributes, location, 0);
      if j.None? {
        return Err(AttributeNotFound(location));
      }
      attrib := attrib.(attributes := attrib.attributes[j.value := attrib.attributes[j.value].(format := target)]);
      r := Ok(());
    }
  }
}
