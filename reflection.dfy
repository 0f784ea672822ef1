/**
 * Shader reflection over a naga module (`parse` and
 * `mapping_to_vertex_input`, src/gpu/shader/reflection.rs): the resource
 * bindings of the module's global variables, sorted by (group, binding),
 * the vertex-input layout of the vertex entry point's struct argument, and
 * the classification of the module as vertex, fragment, vertex+fragment or
 * compute.
 *
 * Error strings of the source become `ReflectError` values; the one panic
 * (a vertex-input member without a location) becomes `MissingLocation`.
 * The validation build is modelled (the uniform size check is active).
 */
module Reflection {
  import opened Wrappers
  import opened ShaderTypes
  import opened Layout
  import Naga

  datatype ReflectError =
    | UniformTooSmall(name: Text, size: I32)
    | StorageImageInHandleSpace
    | MissingLocation
    | UnsupportedVertexInput(member: Text)
    | UnsupportedVertexVectorInput(member: Text)
    | UnsupportedStage(stage: Naga.ShaderStage)
    | NoEntryPoint

  /** The decimal digits of `n`, as ASCII bytes. */
  function DecimalText(n: nat): (r: Text)
    ensures |r| > 0
    ensures forall i :: 0 <= i < |r| ==> 48 <= r[i] <= 57
  {
    if n < 10 then [48 + n] else DecimalText(n / 10) + [48 + n % 10]
  }

  /** `format!("unnamed_{:?}", handle)`: naga prints a handle as `[index]`. */
  function UnnamedName(handle: nat): Text
  {
    [117, 110, 110, 97, 109, 101, 100, 95, 91] + DecimalText(handle) + [93]
  }

  function NameOr(name: Option<Text>, handle: nat): Text
  {
    match name
    case Some(n) => n
    case None => UnnamedName(handle)
  }

  // ---------------------------------------------------------------------
  // Vertex formats
  // ---------------------------------------------------------------------

  /** The byte size of a vertex format, as wgpu's `VertexFormat::size` gives it. */
  function FormatSize(t: VertexInputType): nat
  {
    match t
    case Uint8 => 1 case Sint8 => 1 case Unorm8 => 1 case Snorm8 => 1
    case Uint8x2 => 2 case Sint8x2 => 2 case Unorm8x2 => 2 case Snorm8x2 => 2
    case Uint8x4 => 4 case Sint8x4 => 4 case Unorm8x4 => 4 case Snorm8x4 => 4
    case Uint16 => 2 case Sint16 => 2 case Unorm16 => 2 case Snorm16 => 2 case Float16 => 2
    case Uint16x2 => 4 case Sint16x2 => 4 case Unorm16x2 => 4 case Snorm16x2 => 4 case Float16x2 => 4
    case Uint16x4 => 8 case Sint16x4 => 8 case Unorm16x4 => 8 case Snorm16x4 => 8 case Float16x4 => 8
    case Uint32 => 4 case Sint32 => 4 case Float32 => 4
    case Uint32x2 => 8 case Sint32x2 => 8 case Float32x2 => 8
    case Uint32x3 => 12 case Sint32x3 => 12 case Float32x3 => 12
    case Uint32x4 => 16 case Sint32x4 => 16 case Float32x4 => 16
  }

  /** The number of components of a scalar (None) or a vector. */
  function Components(v: Option<Naga.VectorSize>): U32
  {
    match v
    case None => 1
    case Some(size) => VectorSizeAsU32(size)
  }

  /**
   * `mapping_to_vertex_input` as written (reflection.rs:557-608): float,
   * signed and unsigned scalars and vectors map to the 32-bit formats of
   * their width, bools to the unsigned ones, and a bool vec2 to `Uint32`.
   */
  function MappingToVertexInputAsWritten(k: Naga.ScalarKind, v: Option<Naga.VectorSize>): Option<VertexInputType>
  {
    if k == Naga.Bool && v == Some(Naga.Bi) then Some(Uint32)
    else MappingToVertexInput(k, v)
  }

  /**
   * `mapping_to_vertex_input` with a bool vec2 mapped to `Uint32x2`, the
   * format of its width, like every other vector: the definition the rest
   * of the model uses.
   */
  function MappingToVertexInput(k: Naga.ScalarKind, v: Option<Naga.VectorSize>): (r: Option<VertexInputType>)
    ensures r.Some? <==> ScalarSize(k) == 4
    ensures r.Some? ==> FormatSize(r.value) == Components(v) * ScalarSize(k)
  {
    match k
    case Float =>
      Some(match v
           case None => Float32
           case Some(Bi) => Float32x2
           case Some(Tri) => Float32x3
           case Some(Quad) => Float32x4)
    case Sint =>
      Some(match v
           case None => Sint32
           case Some(Bi) => Sint32x2
           case Some(Tri) => Sint32x3
           case Some(Quad) => Sint32x4)
    case Uint =>
      Some(match v
           case None => Uint32
           case Some(Bi) => Uint32x2
           case Some(Tri) => Uint32x3
           case Some(Quad) => Uint32x4)
    case Bool =>
      Some(match v
           case None => Uint32
           case Some(Bi) => Uint32x2
           case Some(Tri) => Uint32x3
           case Some(Quad) => Uint32x4)
    case _ => None
  }

  /**
   * As written, a bool vec2 maps to a 4-byte format although the vertex
   * stride advances by 8 bytes for it; every other input agrees with the
   * corrected mapping.
   */
  lemma BoolVec2Mapping()
    ensures MappingToVertexInputAsWritten(Naga.Bool, Some(Naga.Bi)) == Some(Uint32)
    ensures FormatSize(Uint32) == 4 < Components(Some(Naga.Bi)) * ScalarSize(Naga.Bool) == 8
    ensures forall k, v :: (k, v) != (Naga.Bool, Some(Naga.Bi)) ==>
      MappingToVertexInputAsWritten(k, v) == MappingToVertexInput(k, v)
  {
  }

  // ---------------------------------------------------------------------
  // Resource bindings of global variables
  // ---------------------------------------------------------------------

  /** The uniform size check as written: a uniform of 16 bytes or fewer is refused. */
  predicate UniformSizeAcceptedAsWritten(size: I32)
  {
    !(size <= 16)
  }

  /** The uniform size check its message states: a uniform must be at least 16 bytes. */
  predicate UniformSizeAccepted(size: I32)
  {
    size >= 16
  }

  /** A vec4<f32> uniform is exactly 16 bytes, and the check as written refuses it. */
  lemma Vec4UniformRefused()
    ensures Size(Naga.Vector(Naga.Quad, Naga.Float)) == 16
    ensures !UniformSizeAcceptedAsWritten(16) && UniformSizeAccepted(16)
  {
    VectorSizes(Naga.Quad, Naga.Float);
  }

  function AccessOf(load: bool, store: bool, atomic: bool): StorageAccess
  {
    StorageAccess(load, store, atomic)
  }

  /**
   * The binding one global variable contributes (reflection.rs:187-366):
   * None for a variable without a resource binding or of a space or type
   * the reflection skips.
   */
  function BindingOf(v: Naga.GlobalVariable): Result<Option<ShaderBindingInfo>, ReflectError>
  {
    match v.binding
    case None => Ok(None)
    case Some(rb) =>
      var name := NameOr(v.name, v.handle);
      var info := (ty: ShaderBindingType) => Ok(Some(ShaderBindingInfo(rb.binding, rb.group, name, ty)));
      match v.space
      case Uniform =>
        var size := Size(v.ty.inner);
        if !UniformSizeAccepted(size) then Err(UniformTooSmall(name, size))
        else info(UniformBuffer(ToU32(size)))
      case PushConstantSpace =>
        info(PushConstant(ToU32(Size(v.ty.inner))))
      case Storage(load, store, atomic) =>
        var access := AccessOf(load, store, atomic);
        (match v.ty.inner
         case Struct(_) => info(StorageBuffer(ToU32(Size(v.ty.inner)), access))
         case Image(_) => info(StorageTexture(access))
         case Array(size, _) => info(StorageBuffer(ArrayCount(size), access))
         case _ => Ok(None))
      case Handle =>
        (match v.ty.inner
         case Sampler(comparison) => info(ShaderBindingType.Sampler(comparison))
         case Image(Sampled(multi)) => info(Texture(multi))
         case Image(Depth(multi)) => info(Texture(multi))
         case Image(StorageImage) => Err(StorageImageInHandleSpace)
         case _ => Ok(None))
      case _ => Ok(None)
  }

  /** A uniform with a binding is accepted exactly when it is at least 16 bytes. */
  lemma UniformBindingAccepted(v: Naga.GlobalVariable)
    requires v.binding.Some? && v.space == Naga.Uniform
    ensures BindingOf(v).Ok? <==> Size(v.ty.inner) >= 16
    ensures BindingOf(v).Ok? ==>
      (BindingOf(v).value.Some? && BindingOf(v).value.value.ty == UniformBuffer(ToU32(Size(v.ty.inner))))
  {
  }

  /** Every binding reported for a variable carries that variable's group and binding numbers. */
  lemma BindingOfNumbers(v: Naga.GlobalVariable)
    ensures BindingOf(v).Ok? && BindingOf(v).value.Some? ==>
      v.binding == Some(Naga.ResourceBinding(BindingOf(v).value.value.group, BindingOf(v).value.value.binding))
  {
  }

  /**
   * The binding loop of `parse` over the first `|gs|` variables: the
   * bindings in declaration order, or the first variable's error.
   */
  function CollectBindings(gs: seq<Naga.GlobalVariable>): Result<seq<ShaderBindingInfo>, ReflectError>
  {
    if |gs| == 0 then Ok([])
    else
      match CollectBindings(gs[..|gs| - 1])
      case Err(e) => Err(e)
      case Ok(bs) =>
        match BindingOf(gs[|gs| - 1])
        case Err(e) => Err(e)
        case Ok(None) => Ok(bs)
        case Ok(Some(b)) => Ok(bs + [b])
  }

  /** Every collected binding is the binding of some declared variable, and there are no more of them than variables. */
  lemma {:induction false} CollectBindingsDeclared(gs: seq<Naga.GlobalVariable>)
    ensures CollectBindings(gs).Ok? ==> |CollectBindings(gs).value| <= |gs|
    ensures CollectBindings(gs).Ok? ==>
      forall j :: 0 <= j < |CollectBindings(gs).value| ==>
        exists i :: 0 <= i < |gs| && BindingOf(gs[i]) == Ok(Some(CollectBindings(gs).value[j]))
  {
    if |gs| > 0 {
      var init := gs[..|gs| - 1];
      CollectBindingsDeclared(init);
      if CollectBindings(gs).Ok? {
        var bs := CollectBindings(init).value;
        forall j | 0 <= j < |CollectBindings(gs).value|
          ensures exists i :: 0 <= i < |gs| && BindingOf(gs[i]) == Ok(Some(CollectBindings(gs).value[j]))
        {
          if j < |bs| {
            var i :| 0 <= i < |init| && BindingOf(init[i]) == Ok(Some(bs[j]));
            assert gs[i] == init[i];
          } else {
            assert BindingOf(gs[|gs| - 1]) == Ok(Some(CollectBindings(gs).value[j]));
          }
        }
      }
    }
  }

  /** The binding loop of `parse`. */
  method CollectBindingsLoop(gs: seq<Naga.GlobalVariable>) returns (r: Result<seq<ShaderBindingInfo>, ReflectError>)
    ensures r == CollectBindings(gs)
  {
    var bindings: seq<ShaderBindingInfo> := [];
    var i := 0;
    while i < |gs|
      invariant 0 <= i <= |gs|
      invariant CollectBindings(gs[..i]) == Ok(bindings)
    {
      assert gs[..i + 1][..i] == gs[..i];
      var b := BindingOf(gs[i]);
      match b {
        case Err(e) =>
          assert CollectBindings(gs[..i + 1]).Err?;
          CollectBindingsErr(gs, i + 1);
          assert gs[..|gs|] == gs;
          return Err(e);
        case Ok(None) =>
        case Ok(Some(info)) =>
          bindings := bindings + [info];
      }
      i := i + 1;
    }
    assert gs[..i] == gs;
    r := Ok(bindings);
  }

  /** Once a prefix fails, every longer prefix fails with the same error. */
  lemma {:induction false} CollectBindingsErr(gs: seq<Naga.GlobalVariable>, n: nat)
    requires n <= |gs| && CollectBindings(gs[..n]).Err?
    ensures CollectBindings(gs) == CollectBindings(gs[..n])
    decreases |gs| - n
  {
    if n < |gs| {
      assert gs[..n + 1][..n] == gs[..n];
      CollectBindingsErr(gs, n + 1);
    } else {
      assert gs[..n] == gs;
    }
  }

  // ---------------------------------------------------------------------
  // Sorting by (group, binding)
  // ---------------------------------------------------------------------

  /** The sort order of `parse`: by group, then by binding. */
  predicate KeyLess(a: ShaderBindingInfo, b: ShaderBindingInfo)
  {
    a.group < b.group || (a.group == b.group && a.binding < b.binding)
  }

  predicate SameKey(a: ShaderBindingInfo, b: ShaderBindingInfo)
  {
    a.group == b.group && a.binding == b.binding
  }

  predicate SortedByKey(s: seq<ShaderBindingInfo>)
  {
    forall i, j :: 0 <= i < j < |s| ==> !KeyLess(s[j], s[i])
  }

  /** `x` placed before the first element of `s` with a greater key. */
  function InsertByKey(s: seq<ShaderBindingInfo>, x: ShaderBindingInfo): (r: seq<ShaderBindingInfo>)
    ensures multiset(r) == multiset(s) + multiset{x}
  {
    if |s| == 0 then [x]
    else if KeyLess(x, s[0]) then [x] + s
    else
      assert s == [s[0]] + s[1..];
      [s[0]] + InsertByKey(s[1..], x)
  }

  lemma {:induction false} InsertSorted(s: seq<ShaderBindingInfo>, x: ShaderBindingInfo)
    requires SortedByKey(s)
    ensures SortedByKey(InsertByKey(s, x))
    ensures forall y :: y in InsertByKey(s, x) ==> y in s || y == x
  {
    if |s| > 0 && !KeyLess(x, s[0]) {
      InsertSorted(s[1..], x);
      var r := InsertByKey(s, x);
      assert r == [s[0]] + InsertByKey(s[1..], x);
      forall i, j | 0 <= i < j < |r|
        ensures !KeyLess(r[j], r[i])
      {
        if i == 0 {
          assert r[j] in s[1..] || r[j] == x;
        }
      }
    }
  }

  /**
   * The bindings of `parse` after `sort_by` (a stable sort): each binding is
   * inserted after every earlier one with a key no greater than its own.
   */
  function SortBindings(s: seq<ShaderBindingInfo>): (r: seq<ShaderBindingInfo>)
    ensures SortedByKey(r)
    ensures multiset(r) == multiset(s)
  {
    if |s| == 0 then []
    else
      var init := SortBindings(s[..|s| - 1]);
      InsertSorted(init, s[|s| - 1]);
      assert s == s[..|s| - 1] + [s[|s| - 1]];
      InsertByKey(init, s[|s| - 1])
  }

  /** The elements of `s` with the key of `k`, in order. */
  function WithKey(s: seq<ShaderBindingInfo>, k: ShaderBindingInfo): seq<ShaderBindingInfo>
  {
    if |s| == 0 then []
    else WithKey(s[..|s| - 1], k) + (if SameKey(s[|s| - 1], k) then [s[|s| - 1]] else [])
  }

  lemma {:induction false} WithKeyConcat(a: seq<ShaderBindingInfo>, b: seq<ShaderBindingInfo>, k: ShaderBindingInfo)
    ensures WithKey(a + b, k) == WithKey(a, k) + WithKey(b, k)
    decreases |b|
  {
    if |b| > 0 {
      assert (a + b)[..|a + b| - 1] == a + b[..|b| - 1];
      WithKeyConcat(a, b[..|b| - 1], k);
    } else {
      assert a + b == a;
    }
  }

  lemma InsertWithKey(s: seq<ShaderBindingInfo>, x: ShaderBindingInfo, k: ShaderBindingInfo)
    requires SortedByKey(s)
    ensures WithKey(InsertByKey(s, x), k) == WithKey(s, k) + WithKey([x], k)
    decreases |s|
  {
    if |s| == 0 {
    } else if KeyLess(x, s[0]) {
      InsertWithKeyFront(s, x, k);
    } else {
      assert SortedByKey(s[1..]);
      InsertWithKey(s[1..], x, k);
      InsertWithKeyLater(s, x, k);
    }
  }

  lemma InsertWithKeyFront(s: seq<ShaderBindingInfo>, x: ShaderBindingInfo, k: ShaderBindingInfo)
    requires SortedByKey(s) && |s| > 0 && KeyLess(x, s[0])
    ensures WithKey(InsertByKey(s, x), k) == WithKey(s, k) + WithKey([x], k)
  {
    assert InsertByKey(s, x) == [x] + s;
    WithKeyConcat([x], s, k);
    if SameKey(x, k) {
      NoneWithKey(s, x, k);
    }
  }

  lemma InsertWithKeyLater(s: seq<ShaderBindingInfo>, x: ShaderBindingInfo, k: ShaderBindingInfo)
    requires SortedByKey(s) && |s| > 0 && !KeyLess(x, s[0])
    requires WithKey(InsertByKey(s[1..], x), k) == WithKey(s[1..], k) + WithKey([x], k)
    ensures WithKey(InsertByKey(s, x), k) == WithKey(s, k) + WithKey([x], k)
  {
    var t := InsertByKey(s[1..], x);
    var head := WithKey([s[0]], k);
    assert InsertByKey(s, x) == [s[0]] + t;
    WithKeyConcat([s[0]], t, k);
    assert WithKey(InsertByKey(s, x), k) == head + WithKey(t, k);
    WithKeyConcat([s[0]], s[1..], k);
    assert [s[0]] + s[1..] == s;
    assert WithKey(s, k) == head + WithKey(s[1..], k);
    ConcatAssoc(head, WithKey(s[1..], k), WithKey([x], k));
  }

  lemma ConcatAssoc<T>(a: seq<T>, b: seq<T>, c: seq<T>)
    ensures a + (b + c) == (a + b) + c
  {
  }

  /** In a sorted list whose first key exceeds `x`'s, no element has `x`'s key. */
  lemma {:induction false} NoneWithKey(s: seq<ShaderBindingInfo>, x: ShaderBindingInfo, k: ShaderBindingInfo)
    requires SortedByKey(s) && |s| > 0 && KeyLess(x, s[0]) && SameKey(x, k)
    ensures WithKey(s, k) == []
    decreases |s|
  {
    if |s| > 1 {
      assert SortedByKey(s[..|s| - 1]);
      NoneWithKey(s[..|s| - 1], x, k);
    }
    assert !KeyLess(s[|s| - 1], s[0]) || |s| == 1;
  }

  /** The sort is stable: the bindings sharing a key keep their collected order. */
  lemma {:induction false} SortBindingsStable(s: seq<ShaderBindingInfo>, k: ShaderBindingInfo)
    ensures WithKey(SortBindings(s), k) == WithKey(s, k)
  {
    if |s| > 0 {
      var init := s[..|s| - 1];
      SortBindingsStable(init, k);
      InsertWithKey(SortBindings(init), s[|s| - 1], k);
    }
  }

  // ---------------------------------------------------------------------
  // Vertex input of the vertex entry point
  // ---------------------------------------------------------------------

  /**
   * One member of the vertex-input struct at running offset `total`: its
   * attribute and the offset after it, or the member's error.
   */
  function AttributeOf(m: Naga.StructMember, total: U32): Result<(VertexAttribute, U32), ReflectError>
  {
    var name := NameOr(m.name, m.ty.handle);
    match m.location
    case None => Err(MissingLocation)
    case Some(location) =>
      match m.ty.inner
      case Scalar(k) =>
        (match MappingToVertexInput(k, None)
         case Some(f) => Ok((VertexAttribute(location, total, f), Wrap32(total + ScalarSize(k))))
         case None => Err(UnsupportedVertexInput(name)))
      case Vector(v, k) =>
        (match MappingToVertexInput(k, Some(v))
         case Some(f) => Ok((VertexAttribute(location, total, f), Wrap32(total + Wrap32(VectorSizeAsU32(v) * ScalarSize(k)))))
         case None => Err(UnsupportedVertexVectorInput(name)))
      case _ => Err(UnsupportedVertexInput(name))
  }

  /** The member loop from member `i` on, with attributes `attrs` so far at offset `total`. */
  function Attributes(ms: seq<Naga.StructMember>, i: nat, attrs: seq<VertexAttribute>, total: U32)
    : Result<(seq<VertexAttribute>, U32), ReflectError>
    requires i <= |ms|
    decreases |ms| - i
  {
    if i == |ms| then Ok((attrs, total))
    else
      match AttributeOf(ms[i], total)
      case Err(e) => Err(e)
      case Ok((a, next)) => Attributes(ms, i + 1, attrs + [a], next)
  }

  /**
   * The vertex input one argument of the vertex entry point describes: a
   * struct argument lists one attribute per member, any other argument
   * gives an empty layout of stride 0.
   */
  function VertexInputOf(t: Naga.Type): Result<VertexInputReflection, ReflectError>
  {
    var name := NameOr(t.name, t.handle);
    match t.inner
    case Struct(ms) =>
      (match Attributes(ms, 0, [], 0)
       case Err(e) => Err(e)
       case Ok((attrs, total)) => Ok(VertexInputReflection(name, total, attrs)))
    case _ => Ok(VertexInputReflection(name, 0, []))
  }

  /** The attributes are packed: each starts where the previous one's format ends (modulo 2^32). */
  predicate Packed(attrs: seq<VertexAttribute>, stride: int)
  {
    forall i :: 0 <= i < |attrs| ==>
      Wrap32(attrs[i].offset + FormatSize(attrs[i].format)) == NextOffset(attrs, i, stride)
  }

  /** Where the attribute after `attrs[i]` starts: the next attribute's offset, or the stride after the last. */
  function NextOffset(attrs: seq<VertexAttribute>, i: nat, stride: int): int
    requires i < |attrs|
  {
    if i + 1 < |attrs| then attrs[i + 1].offset else stride
  }

  lemma PackedLast(attrs: seq<VertexAttribute>, stride: int)
    requires Packed(attrs, stride) && |attrs| > 0
    ensures Wrap32(attrs[|attrs| - 1].offset + FormatSize(attrs[|attrs| - 1].format)) == stride
  {
  }

  lemma {:induction false} AttributesPacked(ms: seq<Naga.StructMember>, i: nat, attrs: seq<VertexAttribute>, total: U32)
    requires i <= |ms|
    requires Packed(attrs, total)
    requires |attrs| == i
    ensures Attributes(ms, i, attrs, total).Ok? ==>
      var (all, stride) := Attributes(ms, i, attrs, total).value;
      |all| == |ms| && all[..i] == attrs && Packed(all, stride) &&
      (i < |ms| ==> all[i].offset == total)
    decreases |ms| - i
  {
    if i < |ms| {
      match AttributeOf(ms[i], total)
      case Err(_) =>
      case Ok((a, next)) =>
        AttributeOfAdvance(ms[i], total);
        assert a.offset == total && next == Wrap32(total + FormatSize(a.format));
        var attrs' := attrs + [a];
        assert Packed(attrs', next) by {
          forall j | 0 <= j < |attrs'|
            ensures Wrap32(attrs'[j].offset + FormatSize(attrs'[j].format)) == NextOffset(attrs', j, next)
          {
            if j + 1 < |attrs| {
              assert attrs'[j] == attrs[j] && attrs'[j + 1] == attrs[j + 1];
            } else if j + 1 == |attrs| {
              assert attrs'[j] == attrs[j] && attrs'[j + 1] == a;
              PackedLast(attrs, total);
            } else {
              assert attrs'[j] == a;
            }
          }
        }
        AttributesPacked(ms, i + 1, attrs', next);
        if Attributes(ms, i, attrs, total).Ok? {
          var all := Attributes(ms, i, attrs, total).value.0;
          assert all[..i + 1] == attrs';
          assert all[..i] == all[..i + 1][..i];
          assert all[i] == all[..i + 1][i];
        }
    }
  }

  /** A member's attribute starts at the running offset and the offset advances by its format's size. */
  lemma AttributeOfAdvance(m: Naga.StructMember, total: U32)
    ensures AttributeOf(m, total).Ok? ==>
      var (a, next) := AttributeOf(m, total).value;
      a.offset == total && next == Wrap32(total + FormatSize(a.format)) && Some(a.location) == m.location
  {
    match m.ty.inner
    case Vector(v, k) =>
      if ScalarSize(k) == 4 {
        assert VectorSizeAsU32(v) * ScalarSize(k) <= 16;
        WrapSmall(VectorSizeAsU32(v) * ScalarSize(k));
      }
    case _ =>
  }

  /** A struct vertex input is tightly packed: offsets start at 0 and its stride ends the last attribute. */
  lemma VertexInputPacked(t: Naga.Type)
    ensures VertexInputOf(t).Ok? ==>
      var vi := VertexInputOf(t).value;
      Packed(vi.attributes, vi.stride) &&
      (|vi.attributes| > 0 ==> vi.attributes[0].offset == 0) &&
      (t.inner.Struct? ==> |vi.attributes| == |t.inner.members|)
  {
    if t.inner.Struct? {
      AttributesPacked(t.inner.members, 0, [], 0);
    }
  }

  /** The member loop of the vertex entry point's argument. */
  method VertexInputLoop(t: Naga.Type) returns (r: Result<VertexInputReflection, ReflectError>)
    ensures r == VertexInputOf(t)
  {
    var name := NameOr(t.name, t.handle);
    match t.inner {
      case Struct(ms) =>
        var attributes: seq<VertexAttribute> := [];
        var total: U32 := 0;
        var i := 0;
        while i < |ms|
          invariant 0 <= i <= |ms|
          invariant Attributes(ms, i, attributes, total) == Attributes(ms, 0, [], 0)
        {
          var step := AttributeOf(ms[i], total);
          match step {
            case Err(e) =>
              return Err(e);
            case Ok((a, next)) =>
              attributes := attributes + [a];
              total := next;
          }
          i := i + 1;
        }
        r := Ok(VertexInputReflection(name, total, attributes));
      case _ =>
        r := Ok(VertexInputReflection(name, 0, []));
    }
  }

  // ---------------------------------------------------------------------
  // Entry points and classification
  // ---------------------------------------------------------------------

  /** The entry-point names found so far (empty when none) and the current vertex input. */
  datatype EntryScan = EntryScan(vertex: Text, fragment: Text, compute: Text, vertexInput: Option<VertexInputReflection>)

  /** The argument loop of a vertex entry point: the last argument's vertex input wins. */
  function ArgumentsInput(args: seq<Naga.Type>, i: nat, current: Option<VertexInputReflection>)
    : Result<Option<VertexInputReflection>, ReflectError>
    requires i <= |args|
    decreases |args| - i
  {
    if i == |args| then Ok(current)
    else
      match VertexInputOf(args[i])
      case Err(e) => Err(e)
      case Ok(vi) => ArgumentsInput(args, i + 1, Some(vi))
  }

  /** One entry point's effect on the scan. */
  function ScanEntry(ep: Naga.EntryPoint, st: EntryScan): Result<EntryScan, ReflectError>
  {
    match ep.stage
    case VertexStage =>
      (match ArgumentsInput(ep.arguments, 0, st.vertexInput)
       case Err(e) => Err(e)
       case Ok(vi) => Ok(st.(vertex := ep.name, vertexInput := vi)))
    case FragmentStage => Ok(st.(fragment := ep.name))
    case ComputeStage => Ok(st.(compute := ep.name))
    case _ => Err(UnsupportedStage(ep.stage))
  }

  /** The entry-point loop of `parse` from entry point `i` on. */
  function ScanEntries(eps: seq<Naga.EntryPoint>, i: nat, st: EntryScan): Result<EntryScan, ReflectError>
    requires i <= |eps|
    decreases |eps| - i
  {
    if i == |eps| then Ok(st)
    else
      match ScanEntry(eps[i], st)
      case Err(e) => Err(e)
      case Ok(next) => ScanEntries(eps, i + 1, next)
  }

  const EMPTY_SCAN := EntryScan([], [], [], None)

  /** Whether `eps[i..]` holds an entry point of `stage`. */
  predicate HasStage(eps: seq<Naga.EntryPoint>, i: nat, stage: Naga.ShaderStage)
    requires i <= |eps|
  {
    exists j :: i <= j < |eps| && eps[j].stage == stage
  }

  /**
   * With non-empty entry-point names, a stage's name is found by the scan
   * exactly when the module has an entry point of that stage (or one was
   * found before).
   */
  lemma {:induction false} ScanFindsStages(eps: seq<Naga.EntryPoint>, i: nat, st: EntryScan)
    requires i <= |eps|
    requires forall j :: 0 <= j < |eps| ==> eps[j].name != []
    ensures ScanEntries(eps, i, st).Ok? ==>
      var r := ScanEntries(eps, i, st).value;
      (r.vertex != [] <==> st.vertex != [] || HasStage(eps, i, Naga.VertexStage)) &&
      (r.fragment != [] <==> st.fragment != [] || HasStage(eps, i, Naga.FragmentStage)) &&
      (r.compute != [] <==> st.compute != [] || HasStage(eps, i, Naga.ComputeStage))
    decreases |eps| - i
  {
    if i < |eps| {
      match ScanEntry(eps[i], st)
      case Err(_) =>
      case Ok(next) =>
        ScanFindsStages(eps, i + 1, next);
        if ScanEntries(eps, i, st).Ok? {
          forall stage | stage == Naga.VertexStage || stage == Naga.FragmentStage || stage == Naga.ComputeStage
            ensures HasStage(eps, i, stage) <==> eps[i].stage == stage || HasStage(eps, i + 1, stage)
          {
            if HasStage(eps, i, stage) {
              var j :| i <= j < |eps| && eps[j].stage == stage;
              if j > i {
                assert HasStage(eps, i + 1, stage);
              }
            }
          }
        }
    }
  }

  /** The entry-point loop of `parse`, with the argument loop of each vertex entry point. */
  method ScanEntriesLoop(eps: seq<Naga.EntryPoint>) returns (r: Result<EntryScan, ReflectError>)
    ensures r == ScanEntries(eps, 0, EMPTY_SCAN)
  {
    var st := EMPTY_SCAN;
    var i := 0;
    while i < |eps|
      invariant 0 <= i <= |eps|
      invariant ScanEntries(eps, i, st) == ScanEntries(eps, 0, EMPTY_SCAN)
    {
      var ep := eps[i];
      match ep.stage {
        case VertexStage =>
          var input := st.vertexInput;
          var j := 0;
          while j < |ep.arguments|
            invariant 0 <= j <= |ep.arguments|
            invariant ArgumentsInput(ep.arguments, j, input) == ArgumentsInput(ep.arguments, 0, st.vertexInput)
          {
            var vi := VertexInputLoop(ep.arguments[j]);
            if vi.Err? {
              return Err(vi.error);
            }
            input := Some(vi.value);
            j := j + 1;
          }
          st := st.(vertex := ep.name, vertexInput := input);
        case FragmentStage =>
          st := st.(fragment := ep.name);
        case ComputeStage =>
          st := st.(compute := ep.name);
        case _ =>
          return Err(UnsupportedStage(ep.stage));
      }
      i := i + 1;
    }
    r := Ok(st);
  }

  /**
   * The classification at the end of `parse` (reflection.rs:523-554):
   * vertex and fragment together, then vertex, fragment, compute alone;
   * no entry point is an error.
   */
  function Classify(st: EntryScan, bindings: seq<ShaderBindingInfo>): Result<ShaderReflect, ReflectError>
  {
    if st.vertex != [] && st.fragment != [] then
      Ok(VertexFragment(st.vertex, st.vertexInput, st.fragment, bindings))
    else if st.vertex != [] then Ok(Vertex(st.vertex, st.vertexInput, bindings))
    else if st.fragment != [] then Ok(Fragment(st.fragment, bindings))
    else if st.compute != [] then Ok(Compute(st.compute, bindings))
    else Err(NoEntryPoint)
  }

  /** Whatever the classification, the reflection carries the bindings it was given. */
  lemma ClassifyKeepsBindings(st: EntryScan, bindings: seq<ShaderBindingInfo>)
    ensures Classify(st, bindings).Ok? ==> BindingsOf(Classify(st, bindings).value) == bindings
    ensures Classify(st, bindings).Err? <==> st.vertex == [] && st.fragment == [] && st.compute == []
  {
  }

  /** `parse` (reflection.rs:185-555) as a value. */
  function ParseSpec(m: Naga.Module): Result<ShaderReflect, ReflectError>
  {
    match CollectBindings(m.globals)
    case Err(e) => Err(e)
    case Ok(bs) =>
      match ScanEntries(m.entryPoints, 0, EMPTY_SCAN)
      case Err(e) => Err(e)
      case Ok(st) => Classify(st, SortBindings(bs))
  }

  /** `parse`: collect the bindings, sort them, scan the entry points, classify. */
  method Parse(m: Naga.Module) returns (r: Result<ShaderReflect, ReflectError>)
    ensures r == ParseSpec(m)
  {
    var bindings := CollectBindingsLoop(m.globals);
    if bindings.Err? {
      return Err(bindings.error);
    }
    var sorted := SortBindings(bindings.value);
    var scan := ScanEntriesLoop(m.entryPoints);
    if scan.Err? {
      return Err(scan.error);
    }
    r := Classify(scan.value, sorted);
  }

  /**
   * The bindings `parse` returns are sorted by (group, binding), are a
   * permutation of the collected ones, and keep the collected order among
   * equal keys.
   */
  lemma ParseBindingsSorted(m: Naga.Module, k: ShaderBindingInfo)
    ensures ParseSpec(m).Ok? ==>
      CollectBindings(m.globals).Ok? &&
      var bs := BindingsOf(ParseSpec(m).value);
      SortedByKey(bs) && multiset(bs) == multiset(CollectBindings(m.globals).value) &&
      WithKey(bs, k) == WithKey(CollectBindings(m.globals).value, k)
  {
    if ParseSpec(m).Ok? {
      var bs := CollectBindings(m.globals).value;
      var st := ScanEntries(m.entryPoints, 0, EMPTY_SCAN).value;
      assert ParseSpec(m) == Classify(st, SortBindings(bs));
      ClassifyKeepsBindings(st, SortBindings(bs));
      SortBindingsStable(bs, k);
    }
  }

  /**
   * With non-empty entry-point names, a successful `parse` is
   * VertexFragment exactly when the module has both a vertex and a fragment
   * entry point, Vertex or Fragment when it has only one of them, and
   * Compute when it has neither.
   */
  lemma ParseClassification(m: Naga.Module)
    requires forall j :: 0 <= j < |m.entryPoints| ==> m.entryPoints[j].name != []
    ensures ParseSpec(m).Ok? ==>
      var eps := m.entryPoints;
      var hasV := HasStage(eps, 0, Naga.VertexStage);
      var hasF := HasStage(eps, 0, Naga.FragmentStage);
      (ParseSpec(m).value.VertexFragment? <==> hasV && hasF) &&
      (ParseSpec(m).value.Vertex? <==> hasV && !hasF) &&
      (ParseSpec(m).value.Fragment? <==> !hasV && hasF) &&
      (ParseSpec(m).value.Compute? ==> HasStage(eps, 0, Naga.ComputeStage))
  {
    ScanFindsStages(m.entryPoints, 0, EMPTY_SCAN);
  }

  /** A module without entry points is refused with NoEntryPoint unless a binding failed first. */
  lemma ParseNoEntryPoint(m: Naga.Module)
    requires |m.entryPoints| == 0
    ensures ParseSpec(m).Err?
    ensures CollectBindings(m.globals).Ok? ==> ParseSpec(m) == Err(NoEntryPoint)
  {
  }
}
