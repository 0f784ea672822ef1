/**
 * Compute shaders (src/gpu/shader/compute.rs): the builder,
 * `ComputeShader::new`, the bind-group layouts of a compute reflection and
 * the uniform lookup.
 *
 * Reading a shader file is not modelled: `set_file` takes the file's
 * contents, or None when the read fails (the source panics then). naga's
 * WGSL front end is a parameter `parse`. The layouts are collected in a
 * hash map and listed in the map's iteration order, which is not under
 * the program's control: it is a parameter `hashOrder` that lists every
 * group of a table exactly once, in some order.
 */
module ComputeShaders {
  import opened Wrappers
  import opened ShaderTypes
  import opened ShaderLayouts
  import Naga
  import Reflection

  // ---------------------------------------------------------------------
  // Builder
  // ---------------------------------------------------------------------

  /** `ComputeShaderBuilder`: the WGSL text the shader will be built from. */
  datatype ComputeShaderBuilder = ComputeShaderBuilder(wgslData: Text)

  datatype ComputeError =
    | FileReadFailed
    | InvalidContext
    | ParseError
    | ReflectFailed(e: Reflection.ReflectError)
    | LayoutFailed(panic: LayoutPanic)

  /** `ComputeShaderBuilder::new`: no text yet. */
  function NewBuilder(): (b: ComputeShaderBuilder)
    ensures b.wgslData == []
  {
    ComputeShaderBuilder([])
  }

  /** `set_source`: the text replaces whatever the builder held. */
  function SetSource(b: ComputeShaderBuilder, source: Text): (r: ComputeShaderBuilder)
    ensures r.wgslData == source
  {
    ComputeShaderBuilder(source)
  }

  /** `set_file`: the file's contents replace the text; a failed read is the panic `FileReadFailed`. */
  function SetFile(b: ComputeShaderBuilder, contents: Option<Text>): (r: Result<ComputeShaderBuilder, ComputeError>)
    ensures contents.None? <==> r == Err(FileReadFailed)
    ensures contents.Some? ==> r == Ok(SetSource(b, contents.value))
  {
    match contents
    case None => Err(FileReadFailed)
    case Some(text) => Ok(ComputeShaderBuilder(text))
  }

  // ---------------------------------------------------------------------
  // Bind-group layouts
  // ---------------------------------------------------------------------

  /** The bindings of one reflection: a Compute reflection pushes each binding with COMPUTE visibility, never merging; any other is skipped. */
  function ComputeReflectLayouts(layouts: Layouts, r: ShaderReflect): Result<Layouts, LayoutPanic>
  {
    match r
    case Compute(_, bs) => AddBindings(layouts, bs, |bs|, COMPUTE, false)
    case _ => Ok(layouts)
  }

  /** The reflection loop of `make_group_layout` over the first `n` reflections. */
  function CollectComputeLayouts(reflects: seq<ShaderReflect>, n: nat): Result<Layouts, LayoutPanic>
    requires n <= |reflects|
  {
    if n == 0 then Ok(map[])
    else
      match CollectComputeLayouts(reflects, n - 1)
      case Err(p) => Err(p)
      case Ok(m) => ComputeReflectLayouts(m, reflects[n - 1])
  }

  /** `order` is an iteration order of the table the reflection loop builds, when it builds one. */
  ghost predicate IsIterationOrder(reflects: seq<ShaderReflect>, order: seq<U32>)
  {
    CollectComputeLayouts(reflects, |reflects|).Ok? ==>
      IsGroupOrder(CollectComputeLayouts(reflects, |reflects|).value, order)
  }

  /**
   * `make_group_layout`: one layout per group of the table, in the
   * table's iteration order, each listing its entries' binding numbers;
   * every entry is visible to the compute stage only.
   */
  function MakeGroupLayoutSpec(reflects: seq<ShaderReflect>, order: seq<U32>): (r: Result<seq<GroupLayout>, LayoutPanic>)
    requires IsIterationOrder(reflects, order)
    ensures r.Ok? <==> CollectComputeLayouts(reflects, |reflects|).Ok?
    ensures r.Ok? ==> (|r.value| == |order| &&
      forall i :: 0 <= i < |order| ==> (
        r.value[i].group == order[i] &&
        r.value[i].entries == CollectComputeLayouts(reflects, |reflects|).value[order[i]] &&
        r.value[i].bindings == BindingNumbers(r.value[i].entries)))
  {
    match CollectComputeLayouts(reflects, |reflects|)
    case Err(p) => Err(p)
    case Ok(m) => Ok(LayoutsIn(m, order))
  }

  lemma {:induction false} CollectComputeLayoutsErrSticks(reflects: seq<ShaderReflect>, m: nat, n: nat)
    requires m <= n <= |reflects|
    requires CollectComputeLayouts(reflects, m).Err?
    ensures CollectComputeLayouts(reflects, n) == CollectComputeLayouts(reflects, m)
    decreases n - m
  {
    if m < n {
      CollectComputeLayoutsErrSticks(reflects, m, n - 1);
    }
  }

  /**
   * `make_group_layout` as the source runs it: a loop over the
   * reflections, each Compute reflection running the binding loop on the
   * shared table, then the groups in the table's iteration order.
   */
  method MakeGroupLayout(reflects: seq<ShaderReflect>, order: seq<U32>) returns (r: Result<seq<GroupLayout>, LayoutPanic>)
    requires IsIterationOrder(reflects, order)
    ensures r == MakeGroupLayoutSpec(reflects, order)
  {
    var layouts: Layouts := map[];
    var i := 0;
    while i < |reflects|
      invariant i <= |reflects|
      invariant CollectComputeLayouts(reflects, i) == Ok(layouts)
    {
      var next: Result<Layouts, LayoutPanic>;
      match reflects[i] {
        case Compute(_, bs) => next := PushBindings(layouts, bs, COMPUTE, false);
        case _ => next := Ok(layouts);
      }
      if next.Err? {
        CollectComputeLayoutsErrSticks(reflects, i + 1, |reflects|);
        return Err(next.error);
      }
      layouts := next.value;
      i := i + 1;
    }
    r := Ok(LayoutsIn(layouts, order));
  }

  /** Reflections other than Compute contribute nothing to the table. */
  lemma {:induction false} NonComputeContributesNothing(reflects: seq<ShaderReflect>, n: nat)
    requires n <= |reflects|
    requires forall i :: 0 <= i < n ==> !reflects[i].Compute?
    ensures CollectComputeLayouts(reflects, n) == Ok(map[])
  {
    if n > 0 {
      NonComputeContributesNothing(reflects, n - 1);
    }
  }

  /** So a shader without a compute entry point gets no bind-group layouts at all. */
  lemma NonComputeHasNoLayouts(reflects: seq<ShaderReflect>, order: seq<U32>)
    requires forall i :: 0 <= i < |reflects| ==> !reflects[i].Compute?
    requires IsIterationOrder(reflects, order)
    ensures MakeGroupLayoutSpec(reflects, order) == Ok([])
  {
    NonComputeContributesNothing(reflects, |reflects|);
    assert IsGroupOrder(map[], order);
    EmptyGroupOrder(order);
  }

  /** A table with no groups has only the empty iteration order. */
  lemma EmptyGroupOrder(order: seq<U32>)
    requires IsGroupOrder(map[], order)
    ensures order == []
  {
    if order != [] {
      HasMember(order);
      assert false;
    }
  }

  lemma HasMember(s: seq<U32>)
    requires s != []
    ensures exists g :: g in s
  {
    assert s[0] in s;
  }

  /** Some layout of `r` is the layout of group `g`. */
  predicate GroupListed(r: seq<GroupLayout>, g: U32)
  {
    exists i :: 0 <= i < |r| && r[i].group == g
  }

  /** Some binding of `bs` belongs to group `g`. */
  predicate GroupNamed(bs: seq<ShaderBindingInfo>, g: U32)
  {
    exists k :: 0 <= k < |bs| && bs[k].group == g
  }

  /**
   * The layouts of one compute reflection: each layout lists exactly the
   * binding numbers of that group's bindings, in declaration order
   * (bindings sharing a number are not merged), every entry is visible to
   * the compute stage, and a group has a layout exactly when some binding
   * names it.
   */
  lemma ComputeLayoutsOfBindings(e: Text, bs: seq<ShaderBindingInfo>, order: seq<U32>)
    requires IsIterationOrder([Compute(e, bs)], order)
    requires MakeGroupLayoutSpec([Compute(e, bs)], order).Ok?
    ensures var r := MakeGroupLayoutSpec([Compute(e, bs)], order).value;
      (forall i :: 0 <= i < |r| ==> r[i].bindings == GroupBindings(bs, |bs|, r[i].group)) &&
      (forall i, j :: 0 <= i < |r| && 0 <= j < |r[i].entries| ==> r[i].entries[j].visibility == COMPUTE) &&
      (forall g :: GroupListed(r, g) <==> GroupNamed(bs, g))
  {
    var reflects := [Compute(e, bs)];
    assert CollectComputeLayouts(reflects, 0) == Ok(map[]);
    var m := CollectComputeLayouts(reflects, 1).value;
    assert AddBindings(map[], bs, |bs|, COMPUTE, false) == Ok(m);
    var r := MakeGroupLayoutSpec(reflects, order).value;
    forall i | 0 <= i < |r|
      ensures r[i].bindings == GroupBindings(bs, |bs|, r[i].group)
      ensures forall j :: 0 <= j < |r[i].entries| ==> r[i].entries[j].visibility == COMPUTE
    {
      AppendedEntries(bs, |bs|, COMPUTE, order[i]);
      assert order[i] in m;
      assert EntriesOf(m, order[i]) == r[i].entries;
    }
    forall g
      ensures GroupListed(r, g) <==> GroupNamed(bs, g)
    {
      AppendedEntries(bs, |bs|, COMPUTE, g);
      if g in m {
        assert g in order;
        var i :| 0 <= i < |order| && order[i] == g;
        assert r[i].group == g;
      }
    }
  }

  // ---------------------------------------------------------------------
  // ComputeShader::new
  // ---------------------------------------------------------------------

  /** What `ComputeShader::new` keeps: the WGSL text the module was created from, the reflection and the layouts. */
  datatype ComputeParts = ComputeParts(code: Text, reflection: ShaderReflect, bindGroupLayouts: seq<GroupLayout>)

  /** The layouts of a reflection, in the iteration order `hashOrder` gives its table. */
  function LayoutsOf(reflect: ShaderReflect, hashOrder: Layouts -> seq<U32>): Result<seq<GroupLayout>, LayoutPanic>
    requires forall l :: IsGroupOrder(l, hashOrder(l))
  {
    match CollectComputeLayouts([reflect], 1)
    case Err(p) => Err(p)
    case Ok(m) => MakeGroupLayoutSpec([reflect], hashOrder(m))
  }

  /**
   * `ComputeShader::new`: an invalid context panics, then the text is
   * parsed and reflected, and the layouts are made from that one
   * reflection. The reflection need not be a Compute one.
   */
  function NewComputeShader(contextValid: bool, code: Text, parse: Text -> Option<Naga.Module>,
                            hashOrder: Layouts -> seq<U32>): (r: Result<ComputeParts, ComputeError>)
    requires forall l :: IsGroupOrder(l, hashOrder(l))
    ensures !contextValid ==> r == Err(InvalidContext)
    ensures contextValid && parse(code).None? ==> r == Err(ParseError)
    ensures contextValid && parse(code).Some? && Reflection.ParseSpec(parse(code).value).Err? ==>
      r == Err(ReflectFailed(Reflection.ParseSpec(parse(code).value).error))
    ensures r.Ok? ==>
      contextValid && parse(code).Some? &&
      Reflection.ParseSpec(parse(code).value) == Ok(r.value.reflection) &&
      r.value.code == code &&
      LayoutsOf(r.value.reflection, hashOrder) == Ok(r.value.bindGroupLayouts)
    ensures contextValid && parse(code).Some? && Reflection.ParseSpec(parse(code).value).Ok? ==>
      (r.Ok? <==> LayoutsOf(Reflection.ParseSpec(parse(code).value).value, hashOrder).Ok?)
  {
    if !contextValid then Err(InvalidContext)
    else
      match parse(code)
      case None => Err(ParseError)
      case Some(m) =>
        match Reflection.ParseSpec(m)
        case Err(e) => Err(ReflectFailed(e))
        case Ok(reflect) =>
          match LayoutsOf(reflect, hashOrder)
          case Err(p) => Err(LayoutFailed(p))
          case Ok(layouts) => Ok(ComputeParts(code, reflect, layouts))
  }

  /** `ComputeShaderBuilder::build`: `new` on the builder's text. */
  function Build(b: ComputeShaderBuilder, contextValid: bool, parse: Text -> Option<Naga.Module>,
                 hashOrder: Layouts -> seq<U32>): (r: Result<ComputeParts, ComputeError>)
    requires forall l :: IsGroupOrder(l, hashOrder(l))
    ensures r.Ok? ==> r.value.code == b.wgslData
  {
    NewComputeShader(contextValid, b.wgslData, parse, hashOrder)
  }

  /** A text that reflects as a vertex or fragment shader still builds, with no layouts. */
  lemma NonComputeShaderBuilds(code: Text, parse: Text -> Option<Naga.Module>, hashOrder: Layouts -> seq<U32>)
    requires forall l :: IsGroupOrder(l, hashOrder(l))
    requires parse(code).Some? && Reflection.ParseSpec(parse(code).value).Ok?
    requires !Reflection.ParseSpec(parse(code).value).value.Compute?
    ensures NewComputeShader(true, code, parse, hashOrder).Ok?
    ensures NewComputeShader(true, code, parse, hashOrder).value.bindGroupLayouts == []
  {
    var reflect := Reflection.ParseSpec(parse(code).value).value;
    NonComputeContributesNothing([reflect], 1);
    NonComputeHasNoLayouts([reflect], hashOrder(map[]));
  }

  // ---------------------------------------------------------------------
  // Uniform lookup
  // ---------------------------------------------------------------------

  /**
   * `get_uniform_location`: the (group, binding) of the first uniform
   * buffer named `name` of a Compute reflection; None for any other
   * reflection and when no uniform buffer has that name.
   */
  function GetUniformLocation(reflection: ShaderReflect, name: Text): (r: Option<(U32, U32)>)
    ensures !reflection.Compute? ==> r.None?
    ensures reflection.Compute? ==>
      (r.None? <==> forall i :: 0 <= i < |reflection.bindings| ==> !IsUniformNamed(reflection.bindings[i], name))
    ensures r.Some? ==> reflection.Compute? && exists i :: (0 <= i < |reflection.bindings| &&
      IsUniformNamed(reflection.bindings[i], name) &&
      r.value == (reflection.bindings[i].group, reflection.bindings[i].binding) &&
      forall j :: 0 <= j < i ==> !IsUniformNamed(reflection.bindings[j], name))
  {
    match reflection
    case Compute(_, bs) => FindUniform(bs, name)
    case _ => None
  }
}
