/**
 * The `est-binary-shader-v1` container read by `load_binary_shader`
 * (src/gpu/shader/reflection.rs). Every integer is little-endian; the reader
 * is a cursor over the byte slice and every read that runs past the end of
 * the data is an error.
 *
 * `ParseShader` is the specification of the reader as a function of the data
 * and the cursor position; `LoadBinaryShader` is the reader itself, with the
 * two counted loops of the source. `EncodeShader` writes the container, and
 * the lemmas at the end prove that reading what was written gives back the
 * shader, that a truncated container is always an error, and that bytes
 * after the end of the container are ignored.
 */
module BinaryShader {
  import opened Wrappers
  import opened ShaderTypes

  datatype LoadError =
    | MagicReadFailed
    | InvalidMagic
    | ReadU32Failed
    | ReadU64Failed
    | ReadBytesFailed
    | InvalidUtf8
    | InvalidStorageAccess
    | InvalidStorageTextureAccess
    | UnknownBindingType(bindingTypeId: U32)
    | InvalidVertexInputType(vertexTypeId: U32)
    | InvalidEntryPointFormat
    | UnknownShaderType(shaderTypeId: U32)

  datatype BinaryShader = BinaryShader(spirv: seq<Byte>, reflect: ShaderReflect)

  /** The 20 ASCII bytes of `est-binary-shader-v1`. */
  const MAGIC: seq<Byte> :=
    [0x65, 0x73, 0x74, 0x2D, 0x62, 0x69, 0x6E, 0x61, 0x72, 0x79,
     0x2D, 0x73, 0x68, 0x61, 0x64, 0x65, 0x72, 0x2D, 0x76, 0x31]

  const COMMA: Byte := 0x2C

  // ---------------------------------------------------------------------------
  // Little-endian integers

  /** 256 to the power `n`: one more than the largest `n`-byte value. */
  function Pow256(n: nat): nat
  {
    if n == 0 then 1 else 256 * Pow256(n - 1)
  }

  lemma Pow256Widths()
    ensures Pow256(4) == 0x1_0000_0000 && Pow256(8) == 0x1_0000_0000_0000_0000
  {
    assert Pow256(2) == 0x1_0000;
    assert Pow256(4) == 0x1_0000_0000;
    assert Pow256(6) == 0x1_0000_0000_0000;
  }

  /** The value of a little-endian byte string. */
  function LeValue(bs: seq<Byte>): nat
  {
    if |bs| == 0 then 0 else bs[0] + 256 * LeValue(bs[1..])
  }

  lemma {:induction false} LeValueBound(bs: seq<Byte>)
    ensures LeValue(bs) < Pow256(|bs|)
  {
    if |bs| > 0 {
      LeValueBound(bs[1..]);
    }
  }

  /** The `n` little-endian bytes of `x` (modulo 256^n). */
  function ToLe(x: nat, n: nat): (r: seq<Byte>)
    ensures |r| == n
  {
    if n == 0 then [] else [x % 256] + ToLe(x / 256, n - 1)
  }

  lemma {:induction false} ToLeValue(x: nat, n: nat)
    requires x < Pow256(n)
    ensures LeValue(ToLe(x, n)) == x
  {
    if n > 0 {
      var r := ToLe(x, n);
      assert r[1..] == ToLe(x / 256, n - 1);
      ToLeValue(x / 256, n - 1);
    }
  }

  function EncU32(x: U32): (r: seq<Byte>)
    ensures |r| == 4
  {
    ToLe(x, 4)
  }

  function EncU64(x: U64): (r: seq<Byte>)
    ensures |r| == 8
  {
    ToLe(x, 8)
  }

  // ---------------------------------------------------------------------------
  // UTF-8 (the acceptance rule of `String::from_utf8`)

  predicate Cont(b: Byte) { 0x80 <= b <= 0xBF }

  /** Length of the well-formed UTF-8 sequence that starts `s`, or 0 if there is none. */
  function FirstCharLen(s: seq<Byte>): (n: nat)
    requires |s| > 0
    ensures n <= 4 && n <= |s|
  {
    var b := s[0];
    if b < 0x80 then 1
    else if 0xC2 <= b <= 0xDF then (if |s| >= 2 && Cont(s[1]) then 2 else 0)
    else if b == 0xE0 then (if |s| >= 3 && 0xA0 <= s[1] <= 0xBF && Cont(s[2]) then 3 else 0)
    else if 0xE1 <= b <= 0xEC || 0xEE <= b <= 0xEF then
      (if |s| >= 3 && Cont(s[1]) && Cont(s[2]) then 3 else 0)
    else if b == 0xED then (if |s| >= 3 && 0x80 <= s[1] <= 0x9F && Cont(s[2]) then 3 else 0)
    else if b == 0xF0 then
      (if |s| >= 4 && 0x90 <= s[1] <= 0xBF && Cont(s[2]) && Cont(s[3]) then 4 else 0)
    else if 0xF1 <= b <= 0xF3 then
      (if |s| >= 4 && Cont(s[1]) && Cont(s[2]) && Cont(s[3]) then 4 else 0)
    else if b == 0xF4 then
      (if |s| >= 4 && 0x80 <= s[1] <= 0x8F && Cont(s[2]) && Cont(s[3]) then 4 else 0)
    else 0
  }

  predicate ValidUtf8(s: seq<Byte>)
    decreases |s|
  {
    |s| == 0 || (FirstCharLen(s) > 0 && ValidUtf8(s[FirstCharLen(s)..]))
  }

  lemma FirstCharLenPrefix(a: seq<Byte>, b: seq<Byte>)
    requires |a| > 0 && FirstCharLen(a) > 0
    ensures FirstCharLen(a + b) == FirstCharLen(a)
  {
    var s := a + b;
    assert s[0] == a[0];
    if |a| >= 2 { assert s[1] == a[1]; }
    if |a| >= 3 { assert s[2] == a[2]; }
    if |a| >= 4 { assert s[3] == a[3]; }
  }

  lemma {:induction false} ValidUtf8Concat(a: seq<Byte>, b: seq<Byte>)
    requires ValidUtf8(a) && ValidUtf8(b)
    ensures ValidUtf8(a + b)
    decreases |a|
  {
    if |a| == 0 {
      assert a + b == b;
    } else {
      var n := FirstCharLen(a);
      FirstCharLenPrefix(a, b);
      assert (a + b)[n..] == a[n..] + b;
      ValidUtf8Concat(a[n..], b);
    }
  }

  // ---------------------------------------------------------------------------
  // Splitting the combined entry point on ','

  /** `str::split`: the pieces of `s` between occurrences of `sep`. */
  function Split(s: seq<Byte>, sep: Byte): (r: seq<seq<Byte>>)
    ensures |r| >= 1
  {
    if |s| == 0 then [[]]
    else if s[0] == sep then [[]] + Split(s[1..], sep)
    else
      var rest := Split(s[1..], sep);
      [[s[0]] + rest[0]] + rest[1..]
  }

  lemma {:induction false} SplitNoSep(s: seq<Byte>, sep: Byte)
    requires sep !in s
    ensures Split(s, sep) == [s]
  {
    if |s| > 0 {
      SplitNoSep(s[1..], sep);
      assert [s[0]] + s[1..] == s;
    }
  }

  lemma {:induction false} SplitJoin(v: seq<Byte>, f: seq<Byte>, sep: Byte)
    requires sep !in v && sep !in f
    ensures Split(v + [sep] + f, sep) == [v, f]
  {
    if |v| == 0 {
      assert v + [sep] + f == [sep] + f;
      assert ([sep] + f)[1..] == f;
      SplitNoSep(f, sep);
    } else {
      assert (v + [sep] + f)[1..] == v[1..] + [sep] + f;
      SplitJoin(v[1..], f, sep);
      assert [v[0]] + v[1..] == v;
    }
  }

  /** The number of pieces is one more than the number of separators. */
  lemma {:induction false} SplitCount(s: seq<Byte>, sep: Byte)
    ensures |Split(s, sep)| == 1 + multiset(s)[sep]
  {
    if |s| > 0 {
      SplitCount(s[1..], sep);
      assert s == [s[0]] + s[1..];
      assert multiset(s) == multiset([s[0]]) + multiset(s[1..]);
    }
  }

  // ---------------------------------------------------------------------------
  // Cursor reads. The cursor over the data is modelled by the bytes it has not
  // read yet; each read returns the value and the bytes left after it.

  function ReadU32(s: seq<Byte>): (r: Result<(U32, seq<Byte>), LoadError>)
    ensures r.Ok? <==> |s| >= 4
    ensures r.Ok? ==> r.value.0 == LeValue(s[..4]) && r.value.1 == s[4..]
  {
    if |s| >= 4 then
      LeValueBound(s[..4]);
      Pow256Widths();
      Ok((LeValue(s[..4]), s[4..]))
    else Err(ReadU32Failed)
  }

  function ReadU64(s: seq<Byte>): (r: Result<(U64, seq<Byte>), LoadError>)
    ensures r.Ok? <==> |s| >= 8
    ensures r.Ok? ==> r.value.0 == LeValue(s[..8]) && r.value.1 == s[8..]
  {
    if |s| >= 8 then
      LeValueBound(s[..8]);
      Pow256Widths();
      Ok((LeValue(s[..8]), s[8..]))
    else Err(ReadU64Failed)
  }

  /** `read_exact` into a buffer of `len` bytes. */
  function ReadBytes(s: seq<Byte>, len: nat): (r: Result<(seq<Byte>, seq<Byte>), LoadError>)
    ensures r.Ok? <==> len <= |s|
    ensures r.Ok? ==> r.value.0 + r.value.1 == s && |r.value.0| == len
  {
    if len <= |s| then
      assert s[..len] + s[len..] == s;
      Ok((s[..len], s[len..]))
    else Err(ReadBytesFailed)
  }

  /** A length-prefixed UTF-8 string: a u32 byte count, then the bytes. */
  function ReadText(s: seq<Byte>): (r: Result<(Text, seq<Byte>), LoadError>)
    ensures r.Ok? ==> ValidUtf8(r.value.0) && |s| == 4 + |r.value.0| + |r.value.1|
  {
    match ReadU32(s)
    case Err(e) => Err(e)
    case Ok(len) =>
      match ReadBytes(len.1, len.0)
      case Err(e) => Err(e)
      case Ok(bytes) => if ValidUtf8(bytes.0) then Ok(bytes) else Err(InvalidUtf8)
  }

  // ---------------------------------------------------------------------------
  // The sections of the container

  /** The payload that follows binding type id `id`. */
  function ParseBindingPayload(s: seq<Byte>, id: U32): (r: Result<(ShaderBindingType, seq<Byte>), LoadError>)
    ensures r.Ok? ==> |r.value.1| < |s|
  {
    if id == 0 then
      match ReadU32(s)
      case Err(e) => Err(e)
      case Ok(size) => Ok((UniformBuffer(size.0), size.1))
    else if id == 1 then
      match ReadU32(s)
      case Err(e) => Err(e)
      case Ok(size) =>
        match ReadU32(size.1)
        case Err(e) => Err(e)
        case Ok(bits) =>
          match AccessFromBits(bits.0)
          case None => Err(InvalidStorageAccess)
          case Some(access) => Ok((StorageBuffer(size.0, access), bits.1))
    else if id == 2 then
      match ReadU32(s)
      case Err(e) => Err(e)
      case Ok(bits) =>
        match AccessFromBits(bits.0)
        case None => Err(InvalidStorageTextureAccess)
        case Some(access) => Ok((StorageTexture(access), bits.1))
    else if id == 3 then
      match ReadU32(s)
      case Err(e) => Err(e)
      case Ok(flag) => Ok((Sampler(flag.0 != 0), flag.1))
    else if id == 4 then
      match ReadU32(s)
      case Err(e) => Err(e)
      case Ok(flag) => Ok((Texture(flag.0 != 0), flag.1))
    else if id == 5 then
      match ReadU32(s)
      case Err(e) => Err(e)
      case Ok(size) => Ok((PushConstant(size.0), size.1))
    else Err(UnknownBindingType(id))
  }

  /** The binding kind: a u32 type id 0..5 followed by its payload. */
  function ParseBindingType(s: seq<Byte>): (r: Result<(ShaderBindingType, seq<Byte>), LoadError>)
    ensures r.Ok? ==> |r.value.1| < |s|
  {
    match ReadU32(s)
    case Err(e) => Err(e)
    case Ok(id) => ParseBindingPayload(id.1, id.0)
  }

  /** One binding: group, binding, name, kind. */
  function ParseBinding(s: seq<Byte>): (r: Result<(ShaderBindingInfo, seq<Byte>), LoadError>)
    ensures r.Ok? ==> |r.value.1| < |s|
  {
    match ReadU32(s)
    case Err(e) => Err(e)
    case Ok(group) =>
      match ReadU32(group.1)
      case Err(e) => Err(e)
      case Ok(binding) =>
        match ReadText(binding.1)
        case Err(e) => Err(e)
        case Ok(name) =>
          match ParseBindingType(name.1)
          case Err(e) => Err(e)
          case Ok(ty) => Ok((ShaderBindingInfo(binding.0, group.0, name.0, ty.0), ty.1))
  }

  /** `acc` followed by the items of a successful parse; errors pass through. */
  function Prepend<T>(acc: seq<T>, r: Result<(seq<T>, seq<Byte>), LoadError>): Result<(seq<T>, seq<Byte>), LoadError>
  {
    match r
    case Ok(v) => Ok((acc + v.0, v.1))
    case Err(e) => Err(e)
  }

  /** `n` items read one after another by `item`, stopping at the first error. */
  function ParseCount<T>(s: seq<Byte>, n: nat, item: seq<Byte> -> Result<(T, seq<Byte>), LoadError>)
    : (r: Result<(seq<T>, seq<Byte>), LoadError>)
    ensures r.Ok? ==> |r.value.0| == n
    decreases n
  {
    if n == 0 then Ok(([], s))
    else
      match item(s)
      case Err(e) => Err(e)
      case Ok(first) => Prepend([first.0], ParseCount(first.1, n - 1, item))
  }

  /** Vertex attribute type ids 0..11. */
  function VertexTypeFromId(id: U32): (r: Option<VertexInputType>)
    ensures r.Some? <==> id <= 11
  {
    match id
    case 0 => Some(Float32)
    case 1 => Some(Float32x2)
    case 2 => Some(Float32x3)
    case 3 => Some(Float32x4)
    case 4 => Some(Sint32)
    case 5 => Some(Sint32x2)
    case 6 => Some(Sint32x3)
    case 7 => Some(Sint32x4)
    case 8 => Some(Uint32)
    case 9 => Some(Uint32x2)
    case 10 => Some(Uint32x3)
    case 11 => Some(Uint32x4)
    case _ => None
  }

  /** One attribute: u32 location, u64 offset, u32 type id. */
  function ParseAttribute(s: seq<Byte>): (r: Result<(VertexAttribute, seq<Byte>), LoadError>)
    ensures r.Ok? ==> |s| == 16 + |r.value.1|
  {
    match ReadU32(s)
    case Err(e) => Err(e)
    case Ok(location) =>
      match ReadU64(location.1)
      case Err(e) => Err(e)
      case Ok(offset) =>
        match ReadU32(offset.1)
        case Err(e) => Err(e)
        case Ok(id) =>
          match VertexTypeFromId(id.0)
          case None => Err(InvalidVertexInputType(id.0))
          case Some(ty) => Ok((VertexAttribute(location.0, offset.0, ty), id.1))
  }

  /** The vertex-input section: struct name, stride (a u32 widened to u64), attributes. */
  function ParseVertexInput(s: seq<Byte>): (r: Result<(VertexInputReflection, seq<Byte>), LoadError>)
    ensures r.Ok? ==> r.value.0.stride <= U32_MAX
  {
    match ReadText(s)
    case Err(e) => Err(e)
    case Ok(name) =>
      match ReadU32(name.1)
      case Err(e) => Err(e)
      case Ok(stride) =>
        match ReadU32(stride.1)
        case Err(e) => Err(e)
        case Ok(count) =>
          match ParseCount(count.1, count.0, ParseAttribute)
          case Err(e) => Err(e)
          case Ok(attrs) => Ok((VertexInputReflection(name.0, stride.0, attrs.0), attrs.1))
  }

  /** Builds the reflection from the shader type id once bindings and vertex input are read. */
  function MakeReflect(typeId: U32, entry: Text, vertexInput: Option<VertexInputReflection>,
                       bindings: seq<ShaderBindingInfo>): (r: Result<ShaderReflect, LoadError>)
    ensures r.Ok? <==> typeId <= 3 && (typeId == 2 ==> |Split(entry, COMMA)| == 2)
    ensures r.Ok? ==> r.value.bindings == bindings
    ensures r.Err? ==> r.error == (if typeId <= 3 then InvalidEntryPointFormat else UnknownShaderType(typeId))
  {
    if typeId == 0 then Ok(Vertex(entry, vertexInput, bindings))
    else if typeId == 1 then Ok(Fragment(entry, bindings))
    else if typeId == 2 then
      var parts := Split(entry, COMMA);
      if |parts| != 2 then Err(InvalidEntryPointFormat)
      else Ok(VertexFragment(parts[0], vertexInput, parts[1], bindings))
    else if typeId == 3 then Ok(Compute(entry, bindings))
    else Err(UnknownShaderType(typeId))
  }

  /** Whether the shader type id announces a vertex-input section (vertex or vertex+fragment). */
  predicate HasVertexSection(typeId: U32) { typeId == 0 || typeId == 2 }

  function ParseOptVertexInput(s: seq<Byte>, typeId: U32)
    : (r: Result<(Option<VertexInputReflection>, seq<Byte>), LoadError>)
    ensures r.Ok? ==> (r.value.0.Some? <==> HasVertexSection(typeId))
    ensures !HasVertexSection(typeId) ==> r == Ok((None, s))
  {
    if HasVertexSection(typeId) then
      match ParseVertexInput(s)
      case Err(e) => Err(e)
      case Ok(vi) => Ok((Some(vi.0), vi.1))
    else Ok((None, s))
  }

  /** The whole container, with the bytes that follow it. */
  function ParseShader(data: seq<Byte>): (r: Result<(BinaryShader, seq<Byte>), LoadError>)
    ensures r.Ok? ==> |data| >= 20 && data[..20] == MAGIC
    ensures |data| < 20 ==> r == Err(MagicReadFailed)
  {
    if |data| < 20 then Err(MagicReadFailed)
    else if data[..20] != MAGIC then Err(InvalidMagic)
    else
      match ReadU32(data[20..])
      case Err(e) => Err(e)
      case Ok(typeId) =>
        match ReadText(typeId.1)
        case Err(e) => Err(e)
        case Ok(entry) =>
          match ReadU32(entry.1)
          case Err(e) => Err(e)
          case Ok(count) =>
            match ParseCount(count.1, count.0, ParseBinding)
            case Err(e) => Err(e)
            case Ok(bindings) =>
              match ParseOptVertexInput(bindings.1, typeId.0)
              case Err(e) => Err(e)
              case Ok(vi) =>
                match MakeReflect(typeId.0, entry.0, vi.0, bindings.0)
                case Err(e) => Err(e)
                case Ok(reflect) =>
                  match ReadU32(vi.1)
                  case Err(e) => Err(e)
                  case Ok(spirvLen) =>
                    match ReadBytes(spirvLen.1, spirvLen.0)
                    case Err(e) => Err(e)
                    case Ok(spirv) => Ok((BinaryShader(spirv.0, reflect), spirv.1))
  }

  /** `load_binary_shader` as a function of the data. */
  function LoadSpec(data: seq<Byte>): Result<BinaryShader, LoadError>
  {
    match ParseShader(data)
    case Ok(v) => Ok(v.0)
    case Err(e) => Err(e)
  }

  // ---------------------------------------------------------------------------
  // The reader, with the loops of the source

  lemma PrependEmpty<T>(r: Result<(seq<T>, seq<Byte>), LoadError>)
    ensures Prepend([], r) == r
  {
    if r.Ok? {
      assert [] + r.value.0 == r.value.0;
    }
  }

  lemma PrependStep<T>(acc: seq<T>, x: T, r: Result<(seq<T>, seq<Byte>), LoadError>)
    ensures Prepend(acc, Prepend([x], r)) == Prepend(acc + [x], r)
  {
    if r.Ok? {
      assert acc + ([x] + r.value.0) == acc + [x] + r.value.0;
    }
  }

  /** The counted loops of the reader (bindings and vertex attributes). */
  method ReadCountLoop<T>(s: seq<Byte>, count: U32, item: seq<Byte> -> Result<(T, seq<Byte>), LoadError>)
    returns (r: Result<(seq<T>, seq<Byte>), LoadError>)
    ensures r == ParseCount(s, count, item)
  {
    var items: seq<T> := [];
    var rest := s;
    var i: nat := 0;
    PrependEmpty(ParseCount(s, count, item));
    while i < count
      invariant i <= count
      invariant ParseCount(s, count, item) == Prepend(items, ParseCount(rest, count - i, item))
    {
      var next := item(rest);
      if next.Err? {
        return Err(next.error);
      }
      PrependStep(items, next.value.0, ParseCount(next.value.1, count - i - 1, item));
      items := items + [next.value.0];
      rest := next.value.1;
      i := i + 1;
    }
    assert items + [] == items;
    r := Ok((items, rest));
  }

  /** `load_binary_shader`: reads the container front to back, stopping at the first error. */
  method LoadBinaryShader(data: seq<Byte>) returns (r: Result<BinaryShader, LoadError>)
    ensures r == LoadSpec(data)
  {
    if |data| < 20 {
      return Err(MagicReadFailed);
    }
    if data[..20] != MAGIC {
      return Err(InvalidMagic);
    }
    var typeId := ReadU32(data[20..]);
    if typeId.Err? { return Err(typeId.error); }
    var entry := ReadText(typeId.value.1);
    if entry.Err? { return Err(entry.error); }
    var count := ReadU32(entry.value.1);
    if count.Err? { return Err(count.error); }
    var bindings := ReadCountLoop(count.value.1, count.value.0, ParseBinding);
    if bindings.Err? { return Err(bindings.error); }
    var cursor := bindings.value.1;
    var vertexInput: Option<VertexInputReflection> := None;
    if typeId.value.0 == 0 || typeId.value.0 == 2 {
      var name := ReadText(cursor);
      if name.Err? { return Err(name.error); }
      var stride := ReadU32(name.value.1);
      if stride.Err? { return Err(stride.error); }
      var attrCount := ReadU32(stride.value.1);
      if attrCount.Err? { return Err(attrCount.error); }
      var attrs := ReadCountLoop(attrCount.value.1, attrCount.value.0, ParseAttribute);
      if attrs.Err? { return Err(attrs.error); }
      vertexInput := Some(VertexInputReflection(name.value.0, stride.value.0, attrs.value.0));
      cursor := attrs.value.1;
    }
    var reflect := MakeReflect(typeId.value.0, entry.value.0, vertexInput, bindings.value.0);
    if reflect.Err? { return Err(reflect.error); }
    var spirvLen := ReadU32(cursor);
    if spirvLen.Err? { return Err(spirvLen.error); }
    var spirv := ReadBytes(spirvLen.value.1, spirvLen.value.0);
    if spirv.Err? { return Err(spirv.error); }
    r := Ok(BinaryShader(spirv.value.0, reflect.value));
  }

  // ---------------------------------------------------------------------------
  // Writing the container (the format's reference definition)

  function TypeIdOf(r: ShaderReflect): U32
  {
    match r
    case Vertex(_, _, _) => 0
    case Fragment(_, _) => 1
    case VertexFragment(_, _, _, _) => 2
    case Compute(_, _) => 3
  }

  /** The entry-point string stored in the container; a combined shader joins its two names with ','. */
  function EntryText(r: ShaderReflect): Text
  {
    match r
    case VertexFragment(v, _, f, _) => v + [COMMA] + f
    case Vertex(e, _, _) => e
    case Fragment(e, _) => e
    case Compute(e, _) => e
  }

  function VertexInputOf(r: ShaderReflect): Option<VertexInputReflection>
  {
    match r
    case Vertex(_, input, _) => input
    case VertexFragment(_, input, _, _) => input
    case _ => None
  }

  /** The type id the container uses for an attribute format; 12 for formats it cannot carry. */
  function VertexTypeId(t: VertexInputType): (id: U32)
    ensures id <= 11 ==> VertexTypeFromId(id) == Some(t)
  {
    match t
    case Float32 => 0
    case Float32x2 => 1
    case Float32x3 => 2
    case Float32x4 => 3
    case Sint32 => 4
    case Sint32x2 => 5
    case Sint32x3 => 6
    case Sint32x4 => 7
    case Uint32 => 8
    case Uint32x2 => 9
    case Uint32x3 => 10
    case Uint32x4 => 11
    case _ => 12
  }

  /** A u32 length followed by the bytes. */
  function EncBlob(t: seq<Byte>): seq<Byte>
    requires |t| <= U32_MAX
  {
    EncU32(|t|) + t
  }

  function EncBindingType(ty: ShaderBindingType): seq<Byte>
  {
    match ty
    case UniformBuffer(size) => EncU32(0) + EncU32(size)
    case StorageBuffer(size, access) => EncU32(1) + EncU32(size) + EncU32(AccessBits(access))
    case StorageTexture(access) => EncU32(2) + EncU32(AccessBits(access))
    case Sampler(comparison) => EncU32(3) + EncU32(if comparison then 1 else 0)
    case Texture(multisampled) => EncU32(4) + EncU32(if multisampled then 1 else 0)
    case PushConstant(size) => EncU32(5) + EncU32(size)
  }

  predicate WellFormedText(t: Text) { |t| <= U32_MAX && ValidUtf8(t) }

  function EncBinding(b: ShaderBindingInfo): seq<Byte>
    requires WellFormedText(b.name)
  {
    EncU32(b.group) + EncU32(b.binding) + EncBlob(b.name) + EncBindingType(b.ty)
  }

  function EncBindings(bs: seq<ShaderBindingInfo>): seq<Byte>
    requires forall i :: 0 <= i < |bs| ==> WellFormedText(bs[i].name)
  {
    if |bs| == 0 then [] else EncBinding(bs[0]) + EncBindings(bs[1..])
  }

  function EncAttribute(a: VertexAttribute): seq<Byte>
  {
    EncU32(a.location) + EncU64(a.offset) + EncU32(VertexTypeId(a.format))
  }

  function EncAttributes(attrs: seq<VertexAttribute>): seq<Byte>
  {
    if |attrs| == 0 then [] else EncAttribute(attrs[0]) + EncAttributes(attrs[1..])
  }

  predicate WellFormedVertexInput(vi: VertexInputReflection)
  {
    WellFormedText(vi.name) && vi.stride <= U32_MAX && |vi.attributes| <= U32_MAX &&
    forall i :: 0 <= i < |vi.attributes| ==> VertexTypeId(vi.attributes[i].format) <= 11
  }

  function EncVertexInput(vi: VertexInputReflection): seq<Byte>
    requires WellFormedVertexInput(vi)
  {
    EncBlob(vi.name) + EncU32(vi.stride) + EncU32(|vi.attributes|) + EncAttributes(vi.attributes)
  }

  /** What the container can carry: u32 lengths and counts, UTF-8 names, comma-free
      combined entry points, and a vertex-input section exactly for vertex stages. */
  predicate WellFormed(s: BinaryShader)
  {
    var r := s.reflect;
    WellFormedText(EntryText(r)) && |r.bindings| <= U32_MAX && |s.spirv| <= U32_MAX &&
    (forall i :: 0 <= i < |r.bindings| ==> WellFormedText(r.bindings[i].name)) &&
    (r.VertexFragment? ==> COMMA !in r.vertexEntryPoint && COMMA !in r.fragmentEntryPoint) &&
    (HasVertexSection(TypeIdOf(r)) <==> VertexInputOf(r).Some?) &&
    (VertexInputOf(r).Some? ==> WellFormedVertexInput(VertexInputOf(r).value))
  }

  function EncOptVertexInput(r: ShaderReflect): seq<Byte>
    requires VertexInputOf(r).Some? ==> WellFormedVertexInput(VertexInputOf(r).value)
  {
    match VertexInputOf(r)
    case Some(vi) => EncVertexInput(vi)
    case None => []
  }

  function EncodeShader(s: BinaryShader): seq<Byte>
    requires WellFormed(s)
  {
    MAGIC + (EncU32(TypeIdOf(s.reflect)) + (EncBlob(EntryText(s.reflect))
    + (EncU32(|s.reflect.bindings|) + (EncBindings(s.reflect.bindings)
    + (EncOptVertexInput(s.reflect) + EncBlob(s.spirv))))))
  }

  // ---------------------------------------------------------------------------
  // Reading what was written

  lemma Assoc(a: seq<Byte>, b: seq<Byte>, c: seq<Byte>)
    ensures (a + b) + c == a + (b + c)
  {
  }

  lemma ReadU32Enc(x: U32, rest: seq<Byte>)
    ensures ReadU32(EncU32(x) + rest) == Ok((x, rest))
  {
    var s := EncU32(x) + rest;
    assert s[..4] == EncU32(x);
    assert s[4..] == rest;
    Pow256Widths();
    ToLeValue(x, 4);
  }

  lemma ReadU64Enc(x: U64, rest: seq<Byte>)
    ensures ReadU64(EncU64(x) + rest) == Ok((x, rest))
  {
    var s := EncU64(x) + rest;
    assert s[..8] == EncU64(x);
    assert s[8..] == rest;
    Pow256Widths();
    ToLeValue(x, 8);
  }

  lemma ReadTextEnc(t: Text, rest: seq<Byte>)
    requires WellFormedText(t)
    ensures ReadText(EncBlob(t) + rest) == Ok((t, rest))
  {
    assert EncBlob(t) + rest == EncU32(|t|) + (t + rest);
    ReadU32Enc(|t|, t + rest);
    assert (t + rest)[..|t|] == t;
    assert (t + rest)[|t|..] == rest;
  }

  /** Two u32 fields followed by `rest`. */
  lemma ReadU32Pair(x: U32, y: U32, rest: seq<Byte>)
    ensures ReadU32(EncU32(x) + EncU32(y) + rest) == Ok((x, EncU32(y) + rest))
    ensures ReadU32(EncU32(y) + rest) == Ok((y, rest))
  {
    assert EncU32(x) + EncU32(y) + rest == EncU32(x) + (EncU32(y) + rest);
    ReadU32Enc(x, EncU32(y) + rest);
    ReadU32Enc(y, rest);
  }

  lemma BindingTypeEnc(ty: ShaderBindingType, rest: seq<Byte>)
    ensures ParseBindingType(EncBindingType(ty) + rest) == Ok((ty, rest))
  {
    match ty
    case UniformBuffer(size) =>
      ParseBindingTypeOf(0, size, rest);
    case StorageBuffer(size, access) =>
      StorageBufferEnc(size, access, rest);
    case StorageTexture(access) =>
      StorageTextureEnc(access, rest);
    case Sampler(c) =>
      ParseBindingTypeOf(3, if c then 1 else 0, rest);
    case Texture(m) =>
      ParseBindingTypeOf(4, if m then 1 else 0, rest);
    case PushConstant(size) =>
      ParseBindingTypeOf(5, size, rest);
  }

  lemma StorageBufferEnc(size: U32, access: StorageAccess, rest: seq<Byte>)
    ensures ParseBindingType(EncBindingType(StorageBuffer(size, access)) + rest) == Ok((StorageBuffer(size, access), rest))
  {
    var tail := EncU32(AccessBits(access)) + rest;
    assert EncBindingType(StorageBuffer(size, access)) + rest == EncU32(1) + EncU32(size) + tail;
    ParseBindingTypeOf(1, size, tail);
    ReadU32Enc(AccessBits(access), rest);
    AccessBitsRoundTrip(access);
  }

  lemma StorageTextureEnc(access: StorageAccess, rest: seq<Byte>)
    ensures ParseBindingType(EncBindingType(StorageTexture(access)) + rest) == Ok((StorageTexture(access), rest))
  {
    ParseBindingTypeOf(2, AccessBits(access), rest);
    AccessBitsRoundTrip(access);
  }

  /** A type id followed by one word: the reader dispatches on the id with the word first in line. */
  lemma ParseBindingTypeOf(id: U32, word: U32, rest: seq<Byte>)
    ensures ParseBindingType(EncU32(id) + EncU32(word) + rest) == ParseBindingPayload(EncU32(word) + rest, id)
    ensures ReadU32(EncU32(word) + rest) == Ok((word, rest))
  {
    ReadU32Pair(id, word, rest);
  }

  lemma BindingEnc(b: ShaderBindingInfo, rest: seq<Byte>)
    requires WellFormedText(b.name)
    ensures ParseBinding(EncBinding(b) + rest) == Ok((b, rest))
  {
    var r3 := EncBindingType(b.ty) + rest;
    var r2 := EncBlob(b.name) + r3;
    assert EncBinding(b) + rest == EncU32(b.group) + EncU32(b.binding) + r2;
    ReadU32Pair(b.group, b.binding, r2);
    ReadTextEnc(b.name, r3);
    BindingTypeEnc(b.ty, rest);
  }

  /** A successful first item followed by successful remaining ones. */
  lemma ParseCountCons<T>(s: seq<Byte>, n: nat, item: seq<Byte> -> Result<(T, seq<Byte>), LoadError>,
                          x: T, mid: seq<Byte>, xs: seq<T>, rest: seq<Byte>)
    requires n > 0 && item(s) == Ok((x, mid)) && ParseCount(mid, n - 1, item) == Ok((xs, rest))
    ensures ParseCount(s, n, item) == Ok(([x] + xs, rest))
  {
  }

  /** Encoded items written back to back. */
  function Concat(encs: seq<seq<Byte>>): seq<Byte>
  {
    if |encs| == 0 then [] else encs[0] + Concat(encs[1..])
  }

  /** Items that each parse back from their own encoding, whatever follows, parse back as a run. */
  lemma {:induction false} ParseCountConcat<T>(encs: seq<seq<Byte>>, xs: seq<T>, rest: seq<Byte>,
                                               item: seq<Byte> -> Result<(T, seq<Byte>), LoadError>)
    requires |encs| == |xs|
    requires forall i, t :: 0 <= i < |xs| ==> item(encs[i] + t) == Ok((xs[i], t))
    ensures ParseCount(Concat(encs) + rest, |xs|, item) == Ok((xs, rest))
  {
    if |xs| == 0 {
      assert Concat(encs) + rest == rest;
    } else {
      var tail := Concat(encs[1..]) + rest;
      assert Concat(encs) + rest == encs[0] + tail;
      assert forall i, t :: 0 <= i < |xs| - 1 ==> item(encs[1..][i] + t) == Ok((xs[1..][i], t)) by {
        forall i, t | 0 <= i < |xs| - 1
          ensures item(encs[1..][i] + t) == Ok((xs[1..][i], t))
        {
          assert encs[1..][i] == encs[i + 1] && xs[1..][i] == xs[i + 1];
        }
      }
      ParseCountConcat(encs[1..], xs[1..], rest, item);
      assert item(encs[0] + tail) == Ok((xs[0], tail));
      ParseCountCons(encs[0] + tail, |xs|, item, xs[0], tail, xs[1..], rest);
      assert [xs[0]] + xs[1..] == xs;
    }
  }

  /** The binding table is the bindings' encodings back to back. */
  lemma {:induction false} EncBindingsConcat(bs: seq<ShaderBindingInfo>)
    requires forall i :: 0 <= i < |bs| ==> WellFormedText(bs[i].name)
    ensures EncBindings(bs) == Concat(seq(|bs|, i requires 0 <= i < |bs| => EncBinding(bs[i])))
  {
    var encs := seq(|bs|, i requires 0 <= i < |bs| => EncBinding(bs[i]));
    if |bs| > 0 {
      EncBindingsConcat(bs[1..]);
      assert encs[1..] == seq(|bs[1..]|, i requires 0 <= i < |bs[1..]| => EncBinding(bs[1..][i]));
    }
  }

  lemma BindingsEnc(bs: seq<ShaderBindingInfo>, rest: seq<Byte>)
    requires forall i :: 0 <= i < |bs| ==> WellFormedText(bs[i].name)
    ensures ParseCount(EncBindings(bs) + rest, |bs|, ParseBinding) == Ok((bs, rest))
  {
    var encs := seq(|bs|, i requires 0 <= i < |bs| => EncBinding(bs[i]));
    EncBindingsConcat(bs);
    forall i, t | 0 <= i < |bs|
      ensures ParseBinding(encs[i] + t) == Ok((bs[i], t))
    {
      BindingEnc(bs[i], t);
    }
    ParseCountConcat(encs, bs, rest, ParseBinding);
  }

  lemma AttributeEnc(a: VertexAttribute, rest: seq<Byte>)
    requires VertexTypeId(a.format) <= 11
    ensures ParseAttribute(EncAttribute(a) + rest) == Ok((a, rest))
  {
    var r2 := EncU32(VertexTypeId(a.format)) + rest;
    assert EncAttribute(a) + rest == EncU32(a.location) + (EncU64(a.offset) + r2);
    ReadU32Enc(a.location, EncU64(a.offset) + r2);
    ReadU64Enc(a.offset, r2);
    ReadU32Enc(VertexTypeId(a.format), rest);
  }

  lemma {:induction false} AttributesEnc(attrs: seq<VertexAttribute>, rest: seq<Byte>)
    requires forall i :: 0 <= i < |attrs| ==> VertexTypeId(attrs[i].format) <= 11
    ensures ParseCount(EncAttributes(attrs) + rest, |attrs|, ParseAttribute) == Ok((attrs, rest))
    decreases |attrs|
  {
    if |attrs| == 0 {
      assert EncAttributes(attrs) + rest == rest;
    } else {
      var tail := EncAttributes(attrs[1..]) + rest;
      assert EncAttributes(attrs) + rest == EncAttribute(attrs[0]) + tail;
      AttributeEnc(attrs[0], tail);
      AttributesEnc(attrs[1..], rest);
      ParseCountCons(EncAttributes(attrs) + rest, |attrs|, ParseAttribute, attrs[0], tail, attrs[1..], rest);
      assert [attrs[0]] + attrs[1..] == attrs;
    }
  }

  lemma VertexInputEnc(vi: VertexInputReflection, rest: seq<Byte>)
    requires WellFormedVertexInput(vi)
    ensures ParseVertexInput(EncVertexInput(vi) + rest) == Ok((vi, rest))
  {
    var r3 := EncAttributes(vi.attributes) + rest;
    var r1 := EncU32(vi.stride) + EncU32(|vi.attributes|) + r3;
    assert EncVertexInput(vi) + rest == EncBlob(vi.name) + r1;
    ReadTextEnc(vi.name, r1);
    ReadU32Pair(vi.stride, |vi.attributes|, r3);
    AttributesEnc(vi.attributes, rest);
  }

  lemma OptVertexInputEnc(r: ShaderReflect, rest: seq<Byte>)
    requires HasVertexSection(TypeIdOf(r)) <==> VertexInputOf(r).Some?
    requires VertexInputOf(r).Some? ==> WellFormedVertexInput(VertexInputOf(r).value)
    ensures ParseOptVertexInput(EncOptVertexInput(r) + rest, TypeIdOf(r)) == Ok((VertexInputOf(r), rest))
  {
    if VertexInputOf(r).Some? {
      VertexInputEnc(VertexInputOf(r).value, rest);
    } else {
      assert EncOptVertexInput(r) + rest == rest;
    }
  }

  lemma EntryTextSplits(r: ShaderReflect)
    requires r.VertexFragment? && COMMA !in r.vertexEntryPoint && COMMA !in r.fragmentEntryPoint
    ensures Split(EntryText(r), COMMA) == [r.vertexEntryPoint, r.fragmentEntryPoint]
  {
    SplitJoin(r.vertexEntryPoint, r.fragmentEntryPoint, COMMA);
  }

  lemma MakeReflectOf(r: ShaderReflect)
    requires r.VertexFragment? ==> COMMA !in r.vertexEntryPoint && COMMA !in r.fragmentEntryPoint
    ensures MakeReflect(TypeIdOf(r), EntryText(r), VertexInputOf(r), r.bindings) == Ok(r)
  {
    if r.VertexFragment? {
      EntryTextSplits(r);
    }
  }

  /** The container from its successful fields. */
  lemma ParseShaderFields(data: seq<Byte>, typeId: U32, r1: seq<Byte>, entry: Text, r2: seq<Byte>,
                          n: U32, r3: seq<Byte>, bindings: seq<ShaderBindingInfo>, r4: seq<Byte>,
                          vi: Option<VertexInputReflection>, r5: seq<Byte>, reflect: ShaderReflect,
                          len: U32, r6: seq<Byte>, spirv: seq<Byte>, r7: seq<Byte>)
    requires |data| >= 20 && data[..20] == MAGIC
    requires ReadU32(data[20..]) == Ok((typeId, r1))
    requires ReadText(r1) == Ok((entry, r2))
    requires ReadU32(r2) == Ok((n, r3))
    requires ParseCount(r3, n, ParseBinding) == Ok((bindings, r4))
    requires ParseOptVertexInput(r4, typeId) == Ok((vi, r5))
    requires MakeReflect(typeId, entry, vi, bindings) == Ok(reflect)
    requires ReadU32(r5) == Ok((len, r6))
    requires ReadBytes(r6, len) == Ok((spirv, r7))
    ensures ParseShader(data) == Ok((BinaryShader(spirv, reflect), r7))
  {
  }

  /** Reading a written container gives back the shader and leaves whatever bytes follow it. */
  lemma RoundTrip(s: BinaryShader, rest: seq<Byte>)
    requires WellFormed(s)
    ensures ParseShader(EncodeShader(s) + rest) == Ok((s, rest))
    ensures LoadSpec(EncodeShader(s) + rest) == Ok(s)
  {
    var r := s.reflect;
    var data := EncodeShader(s) + rest;
    var x5 := EncOptVertexInput(r) + EncBlob(s.spirv);
    var x4 := EncBindings(r.bindings) + x5;
    var x3 := EncU32(|r.bindings|) + x4;
    var x2 := EncBlob(EntryText(r)) + x3;
    var x1 := EncU32(TypeIdOf(r)) + x2;
    var r7 := s.spirv + rest;
    var r6 := EncU32(|s.spirv|) + r7;
    var r5 := EncOptVertexInput(r) + r6;
    var r4 := EncBindings(r.bindings) + r5;
    var r3 := EncU32(|r.bindings|) + r4;
    var r2 := EncBlob(EntryText(r)) + r3;
    Assoc(EncU32(|s.spirv|), s.spirv, rest);
    Assoc(EncOptVertexInput(r), EncBlob(s.spirv), rest);
    Assoc(EncBindings(r.bindings), x5, rest);
    Assoc(EncU32(|r.bindings|), x4, rest);
    Assoc(EncBlob(EntryText(r)), x3, rest);
    Assoc(EncU32(TypeIdOf(r)), x2, rest);
    Assoc(MAGIC, x1, rest);
    assert data == MAGIC + (EncU32(TypeIdOf(r)) + r2);
    assert data[..20] == MAGIC;
    assert data[20..] == EncU32(TypeIdOf(r)) + r2;
    ReadU32Enc(TypeIdOf(r), r2);
    ReadTextEnc(EntryText(r), r3);
    ReadU32Enc(|r.bindings|, r4);
    BindingsEnc(r.bindings, r5);
    OptVertexInputEnc(r, r6);
    MakeReflectOf(r);
    ReadU32Enc(|s.spirv|, r7);
    assert r7[..|s.spirv|] == s.spirv && r7[|s.spirv|..] == rest;
    ParseShaderFields(data, TypeIdOf(r), r2, EntryText(r), r3, |r.bindings|, r4, r.bindings, r5,
                      VertexInputOf(r), r6, r, |s.spirv|, r7, s.spirv, rest);
  }

  // ---------------------------------------------------------------------------
  // Reading more data: every read that succeeds on some bytes succeeds in the
  // same way when more bytes follow, and leaves those bytes unread.

  predicate Extends<T(==)>(short: Result<(T, seq<Byte>), LoadError>, long: Result<(T, seq<Byte>), LoadError>,
                       t: seq<Byte>)
  {
    short.Ok? ==> long == Ok((short.value.0, short.value.1 + t))
  }

  lemma ReadU32Ext(s: seq<Byte>, t: seq<Byte>)
    ensures Extends(ReadU32(s), ReadU32(s + t), t)
  {
    if |s| >= 4 {
      assert (s + t)[..4] == s[..4];
      assert (s + t)[4..] == s[4..] + t;
    }
  }

  lemma ReadU64Ext(s: seq<Byte>, t: seq<Byte>)
    ensures Extends(ReadU64(s), ReadU64(s + t), t)
  {
    if |s| >= 8 {
      assert (s + t)[..8] == s[..8];
      assert (s + t)[8..] == s[8..] + t;
    }
  }

  lemma ReadBytesExt(s: seq<Byte>, len: nat, t: seq<Byte>)
    ensures Extends(ReadBytes(s, len), ReadBytes(s + t, len), t)
  {
    if len <= |s| {
      assert (s + t)[..len] == s[..len];
      assert (s + t)[len..] == s[len..] + t;
    }
  }

  lemma ReadTextExt(s: seq<Byte>, t: seq<Byte>)
    ensures Extends(ReadText(s), ReadText(s + t), t)
  {
    ReadU32Ext(s, t);
    if ReadU32(s).Ok? {
      var len := ReadU32(s).value;
      ReadBytesExt(len.1, len.0, t);
    }
  }

  lemma BindingPayloadExt(s: seq<Byte>, id: U32, t: seq<Byte>)
    ensures Extends(ParseBindingPayload(s, id), ParseBindingPayload(s + t, id), t)
  {
    ReadU32Ext(s, t);
    if id == 1 && ReadU32(s).Ok? {
      ReadU32Ext(ReadU32(s).value.1, t);
    }
  }

  lemma BindingExt(s: seq<Byte>, t: seq<Byte>)
    ensures Extends(ParseBinding(s), ParseBinding(s + t), t)
  {
    ReadU32Ext(s, t);
    if ReadU32(s).Ok? {
      var group := ReadU32(s).value;
      ReadU32Ext(group.1, t);
      if ReadU32(group.1).Ok? {
        var binding := ReadU32(group.1).value;
        ReadTextExt(binding.1, t);
        if ReadText(binding.1).Ok? {
          var name := ReadText(binding.1).value;
          ReadU32Ext(name.1, t);
          if ReadU32(name.1).Ok? {
            var id := ReadU32(name.1).value;
            BindingPayloadExt(id.1, id.0, t);
          }
        }
      }
    }
  }

  /** Counted reads extend when every single read does. */
  lemma {:induction false} CountExt<T>(s: seq<Byte>, n: nat, item: seq<Byte> -> Result<(T, seq<Byte>), LoadError>,
                                           t: seq<Byte>)
    requires forall x :: Extends(item(x), item(x + t), t)
    ensures Extends(ParseCount(s, n, item), ParseCount(s + t, n, item), t)
    decreases n
  {
    if n > 0 && item(s).Ok? {
      CountExt(item(s).value.1, n - 1, item, t);
    }
  }

  lemma BindingsExt(s: seq<Byte>, n: nat, t: seq<Byte>)
    ensures Extends(ParseCount(s, n, ParseBinding), ParseCount(s + t, n, ParseBinding), t)
  {
    forall x {
      BindingExt(x, t);
    }
    CountExt(s, n, ParseBinding, t);
  }

  lemma AttributeExt(s: seq<Byte>, t: seq<Byte>)
    ensures Extends(ParseAttribute(s), ParseAttribute(s + t), t)
  {
    ReadU32Ext(s, t);
    if ReadU32(s).Ok? {
      var location := ReadU32(s).value;
      ReadU64Ext(location.1, t);
      if ReadU64(location.1).Ok? {
        ReadU32Ext(ReadU64(location.1).value.1, t);
      }
    }
  }

  lemma AttributesExt(s: seq<Byte>, n: nat, t: seq<Byte>)
    ensures Extends(ParseCount(s, n, ParseAttribute), ParseCount(s + t, n, ParseAttribute), t)
  {
    forall x {
      AttributeExt(x, t);
    }
    CountExt(s, n, ParseAttribute, t);
  }

  lemma VertexInputExt(s: seq<Byte>, t: seq<Byte>)
    ensures Extends(ParseVertexInput(s), ParseVertexInput(s + t), t)
  {
    ReadTextExt(s, t);
    if ReadText(s).Ok? {
      var name := ReadText(s).value;
      ReadU32Ext(name.1, t);
      if ReadU32(name.1).Ok? {
        var stride := ReadU32(name.1).value;
        ReadU32Ext(stride.1, t);
        if ReadU32(stride.1).Ok? {
          var count := ReadU32(stride.1).value;
          AttributesExt(count.1, count.0, t);
        }
      }
    }
  }

  lemma OptVertexInputExt(s: seq<Byte>, typeId: U32, t: seq<Byte>)
    ensures Extends(ParseOptVertexInput(s, typeId), ParseOptVertexInput(s + t, typeId), t)
  {
    VertexInputExt(s, t);
  }

  lemma MagicExt(data: seq<Byte>, t: seq<Byte>)
    requires |data| >= 20
    ensures (data + t)[..20] == data[..20] && (data + t)[20..] == data[20..] + t
  {
  }

  lemma ShaderExt(data: seq<Byte>, t: seq<Byte>)
    ensures Extends(ParseShader(data), ParseShader(data + t), t)
  {
    if ParseShader(data).Ok? {
      var body := data[20..];
      MagicExt(data, t);
      ReadU32Ext(body, t);
      var typeId := ReadU32(body).value;
      ReadTextExt(typeId.1, t);
      var entry := ReadText(typeId.1).value;
      ReadU32Ext(entry.1, t);
      var count := ReadU32(entry.1).value;
      BindingsExt(count.1, count.0, t);
      var bindings := ParseCount(count.1, count.0, ParseBinding).value;
      OptVertexInputExt(bindings.1, typeId.0, t);
      var vi := ParseOptVertexInput(bindings.1, typeId.0).value;
      var reflect := MakeReflect(typeId.0, entry.0, vi.0, bindings.0).value;
      ReadU32Ext(vi.1, t);
      var len := ReadU32(vi.1).value;
      ReadBytesExt(len.1, len.0, t);
      var spirv := ReadBytes(len.1, len.0).value;
      ParseShaderFields(data + t, typeId.0, typeId.1 + t, entry.0, entry.1 + t, count.0, count.1 + t,
                        bindings.0, bindings.1 + t, vi.0, vi.1 + t, reflect, len.0, len.1 + t,
                        spirv.0, spirv.1 + t);
    }
  }

  /** Bytes after a container that loads are ignored. */
  lemma TrailingBytesIgnored(data: seq<Byte>, t: seq<Byte>)
    requires LoadSpec(data).Ok?
    ensures LoadSpec(data + t) == LoadSpec(data)
  {
    ShaderExt(data, t);
  }

  /** Every proper prefix of a written container fails to load. */
  lemma TruncatedFails(s: BinaryShader, k: nat)
    requires WellFormed(s) && k < |EncodeShader(s)|
    ensures LoadSpec(EncodeShader(s)[..k]).Err?
  {
    var e := EncodeShader(s);
    RoundTrip(s, []);
    assert e + [] == e;
    PrefixFails(e, k, s);
  }

  /** A proper prefix of an input that parses with nothing left over does not parse. */
  lemma PrefixFails(e: seq<Byte>, k: nat, s: BinaryShader)
    requires ParseShader(e) == Ok((s, [])) && k < |e|
    ensures LoadSpec(e[..k]).Err?
  {
    var t := e[k..];
    assert e[..k] + t == e;
    ShaderExt(e[..k], t);
    ExtendedToNothing(ParseShader(e[..k]), ParseShader(e), t, s);
  }

  /** A parse that extends to one leaving nothing over, by a non-empty suffix, failed. */
  lemma ExtendedToNothing<T>(short: Result<(T, seq<Byte>), LoadError>, long: Result<(T, seq<Byte>), LoadError>,
                                 t: seq<Byte>, v: T)
    requires Extends(short, long, t) && long == Ok((v, [])) && |t| > 0
    ensures short.Err?
  {
  }
}
