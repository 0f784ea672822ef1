/**
 * Buffer layout arithmetic of shader reflection (src/gpu/shader/reflection.rs):
 * `align_to`, `vector_alignment`, `scalar_size`, `vectorsize_as_u32`,
 * `std140_alignment` and `get_size`. The rules approximate std140 and the
 * model follows the code, not the standard.
 *
 * Arithmetic is on u32 and i32 with the wrap-around of a release build:
 * `Wrap32` is the u32 reduction, `ToI32`/`ToU32` are Rust's `as` casts, and
 * the bitwise `&` and `!` of `align_to` are written out on naturals.
 */
module Layout {
  import opened ShaderTypes
  import opened Naga

  type I32 = x: int | -0x8000_0000 <= x < 0x8000_0000

  const TWO_32: int := 0x1_0000_0000

  /** Reduction modulo 2^32: u32 arithmetic that wraps. */
  function Wrap32(x: int): (r: U32)
  {
    x % TWO_32
  }

  /** `x as i32` for a u32 `x`. */
  function ToI32(x: U32): (r: I32)
    ensures r % TWO_32 == x
  {
    if x < 0x8000_0000 then x else x - TWO_32
  }

  /** `x as u32` for an i32 `x`. */
  function ToU32(x: I32): (r: U32)
    ensures r % TWO_32 == x % TWO_32
  {
    if x >= 0 then x else x + TWO_32
  }

  lemma CastRoundTrip(x: U32, y: I32)
    ensures ToU32(ToI32(x)) == x
    ensures ToI32(ToU32(y)) == y
  {
  }

  function Pow2(k: nat): (r: nat)
    ensures r >= 1
  {
    if k == 0 then 1 else 2 * Pow2(k - 1)
  }

  /** Bitwise AND of two naturals. */
  function BitAnd(x: nat, y: nat): nat
    decreases x
  {
    if x == 0 || y == 0 then 0
    else 2 * BitAnd(x / 2, y / 2) + (if x % 2 == 1 && y % 2 == 1 then 1 else 0)
  }

  /** Bitwise NOT of a u32. */
  function Not32(x: U32): U32
  {
    U32_MAX - x
  }

  /**
   * The bitwise formula of `align_to(size, alignment)` (reflection.rs:707-709):
   * `(size + alignment - 1) & !(alignment - 1)` on u32, with the wrap-around
   * of a release build.
   */
  function AlignToBits(size: U32, alignment: U32): U32
  {
    var bumped := Wrap32(size + alignment - 1);
    var mask := Not32(Wrap32(alignment - 1));
    BitAndBound(bumped, mask);
    BitAnd(bumped, mask)
  }

  /**
   * `align_to` on the alignments the layout code passes it (0 and powers of
   * two): 0 for alignment 0, otherwise `size + alignment - 1` (wrapped)
   * rounded down to a multiple of the alignment. `AlignToAgrees` proves it
   * equal to the bitwise formula on those alignments.
   */
  function AlignTo(size: U32, alignment: U32): U32
  {
    if alignment == 0 then 0
    else
      var bumped := Wrap32(size + alignment - 1);
      bumped - bumped % alignment
  }

  lemma {:induction false} BitAndBound(x: nat, y: nat)
    ensures BitAnd(x, y) <= x
    decreases x
  {
    if x != 0 && y != 0 {
      BitAndBound(x / 2, y / 2);
    }
  }

  lemma {:induction false} Pow2Monotone(k: nat, n: nat)
    requires k < n
    ensures 2 * Pow2(k) <= Pow2(n)
    decreases n
  {
    if k < n - 1 {
      Pow2Monotone(k, n - 1);
    }
  }

  lemma Pow2Literals()
    ensures Pow2(4) == 16 && Pow2(32) == TWO_32
  {
    assert Pow2(4) == 16;
    assert Pow2(8) == 0x100;
    assert Pow2(16) == 0x1_0000 by { assert Pow2(12) == 0x1000; }
    assert Pow2(24) == 0x100_0000 by { assert Pow2(20) == 0x10_0000; }
    assert Pow2(32) == TWO_32 by { assert Pow2(28) == 0x1000_0000; }
  }

  /** Quotient and remainder are the only ones: `x == q * d + r` with `0 <= r < d`. */
  lemma DivModUnique(x: int, d: int, q: int, r: int)
    requires d > 0 && x == q * d + r && 0 <= r < d
    ensures x / d == q && x % d == r
  {
    var q0 := x / d;
    var r0 := x % d;
    assert x == q0 * d + r0;
    assert (q0 - q) * d == r - r0;
    if q0 > q {
      MulAtLeast(q0 - q, d);
    } else if q0 < q {
      assert (q - q0) * d == r0 - r;
      MulAtLeast(q - q0, d);
    }
  }

  lemma MulAtLeast(a: int, d: int)
    requires a >= 1 && d > 0
    ensures a * d >= d
  {
    assert a * d == (a - 1) * d + d;
  }

  /** Masking with all ones below bit `n` keeps every number below 2^n. */
  lemma {:induction false} BitAndAllOnes(x: nat, n: nat)
    requires x < Pow2(n)
    ensures BitAnd(x, Pow2(n) - 1) == x
    decreases n
  {
    if x != 0 {
      assert n > 0;
      assert (Pow2(n) - 1) / 2 == Pow2(n - 1) - 1;
      BitAndAllOnes(x / 2, n - 1);
    }
  }

  lemma HalfMod(x: nat, k: nat)
    requires k > 0
    ensures x % Pow2(k) == 2 * ((x / 2) % Pow2(k - 1)) + x % 2
  {
    var p := Pow2(k - 1);
    var h := x / 2;
    var q := h / p;
    var m := h % p;
    assert h == q * p + m;
    assert 2 * (q * p) == q * (2 * p);
    assert x == q * Pow2(k) + (2 * m + x % 2);
    DivModUnique(x, Pow2(k), q, 2 * m + x % 2);
  }

  lemma EvenMask(n: nat, k: nat)
    requires 0 < k < n
    ensures (Pow2(n) - Pow2(k)) / 2 == Pow2(n - 1) - Pow2(k - 1)
    ensures (Pow2(n) - Pow2(k)) % 2 == 0
  {
  }

  lemma BitAndEven(x: nat, y: nat)
    requires x > 0 && y > 0 && y % 2 == 0
    ensures BitAnd(x, y) == 2 * BitAnd(x / 2, y / 2)
  {
  }

  lemma Combine(x: nat, bx: int, bh: int, mh: int, mx: int)
    requires bx == 2 * bh && bh == x / 2 - mh && mx == 2 * mh + x % 2
    ensures bx == x - mx
  {
  }

  /** Clearing the low `k` bits of a number below 2^n rounds it down to a multiple of 2^k. */
  lemma {:induction false} ClearLowBits(x: nat, n: nat, k: nat)
    requires k <= n && x < Pow2(n)
    ensures Pow2(k) <= Pow2(n)
    ensures BitAnd(x, Pow2(n) - Pow2(k)) == x - x % Pow2(k)
    decreases n
  {
    if k == 0 || k == n || x == 0 {
      ClearLowBitsBase(x, n, k);
    } else {
      HalfBelow(x, n);
      ClearLowBits(x / 2, n - 1, k - 1);
      ClearLowBitsStep(x, n, k);
    }
  }

  /** `ClearLowBits` when the mask is all ones, all zeros, or `x` is zero. */
  lemma ClearLowBitsBase(x: nat, n: nat, k: nat)
    requires k <= n && x < Pow2(n)
    requires k == 0 || k == n || x == 0
    ensures Pow2(k) <= Pow2(n) && BitAnd(x, Pow2(n) - Pow2(k)) == x - x % Pow2(k)
  {
    if k == 0 {
      BitAndAllOnes(x, n);
    } else if k == n {
      DivModUnique(x, Pow2(n), 0, x);
    } else {
      Pow2Monotone(k, n);
      DivModUnique(0, Pow2(k), 0, 0);
    }
  }

  lemma HalfBelow(x: nat, n: nat)
    requires 0 < n && x < Pow2(n)
    ensures x / 2 < Pow2(n - 1)
  {
  }

  /** The inductive step of `ClearLowBits`: the mask's lowest bit is clear, so the AND halves. */
  lemma ClearLowBitsStep(x: nat, n: nat, k: nat)
    requires 0 < k < n && 0 < x
    requires Pow2(k - 1) <= Pow2(n - 1) && BitAnd(x / 2, Pow2(n - 1) - Pow2(k - 1)) == x / 2 - (x / 2) % Pow2(k - 1)
    ensures Pow2(k) <= Pow2(n) && BitAnd(x, Pow2(n) - Pow2(k)) == x - x % Pow2(k)
  {
    Pow2Monotone(k, n);
    EvenMask(n, k);
    BitAndEven(x, Pow2(n) - Pow2(k));
    HalfMod(x, k);
    Combine(x, BitAnd(x, Pow2(n) - Pow2(k)), BitAnd(x / 2, Pow2(n - 1) - Pow2(k - 1)),
            (x / 2) % Pow2(k - 1), x % Pow2(k));
  }

  /**
   * `AlignTo(s, a)` is a multiple of `a`, and when `s + a - 1` does not
   * overflow it is the least multiple of `a` that is at least `s`.
   */
  lemma AlignToLeastMultiple(s: U32, a: U32)
    requires a > 0
    ensures AlignTo(s, a) % a == 0
    ensures s + a - 1 <= U32_MAX ==>
      s <= AlignTo(s, a) < s + a &&
      forall m: int :: s <= m && m % a == 0 ==> AlignTo(s, a) <= m
  {
    if s + a - 1 <= U32_MAX {
      WrapSmall(s + a - 1);
    }
    RoundDown(Wrap32(s + a - 1), a, s, AlignTo(s, a));
  }

  /**
   * For a power-of-two alignment `a`, the bitwise `align_to(s, a)` is a
   * multiple of `a`, and when `s + a - 1` does not overflow it is the least
   * multiple of `a` that is at least `s`.
   */
  lemma AlignToBitsLeastMultiple(s: U32, k: nat)
    requires k < 32
    ensures Pow2(k) <= U32_MAX
    ensures AlignToBits(s, Pow2(k)) % Pow2(k) == 0
    ensures s + Pow2(k) - 1 <= U32_MAX ==>
      s <= AlignToBits(s, Pow2(k)) < s + Pow2(k) &&
      forall m: int :: s <= m && m % Pow2(k) == 0 ==> AlignToBits(s, Pow2(k)) <= m
  {
    AlignToAgrees(s, k);
    AlignToLeastMultiple(s, Pow2(k));
  }

  lemma WrapSmall(x: int)
    requires 0 <= x < TWO_32
    ensures Wrap32(x) == x
  {
  }

  /**
   * The bitwise formula and `AlignTo` agree on alignment 0 and on every
   * power-of-two alignment below 2^32.
   */
  lemma AlignToAgrees(s: U32, k: nat)
    requires k < 32
    ensures Pow2(k) <= 0x8000_0000
    ensures AlignToBits(s, 0) == AlignTo(s, 0) == 0
    ensures AlignToBits(s, Pow2(k)) == AlignTo(s, Pow2(k))
  {
    var a := Pow2(k);
    Pow2Literals();
    Pow2Monotone(k, 32);
    MaskOfPow2(a);
    var bumped := Wrap32(s + a - 1);
    ClearLowBitsAt(bumped, 32, k, Not32(Wrap32(a - 1)));
    AlignToUnfold(s, a);
    AlignToBitsUnfold(s, a);
    MaskOfPow2Zero(s);
  }

  lemma ClearLowBitsAt(x: nat, n: nat, k: nat, mask: nat)
    requires k <= n && x < Pow2(n) && mask == Pow2(n) - Pow2(k)
    ensures BitAnd(x, mask) == x - x % Pow2(k)
  {
    ClearLowBits(x, n, k);
  }

  lemma AlignToUnfold(s: U32, a: U32)
    requires a > 0
    ensures AlignTo(s, a) == Wrap32(s + a - 1) - Wrap32(s + a - 1) % a
  {
  }

  lemma AlignToBitsUnfold(s: U32, a: U32)
    ensures AlignToBits(s, a) == BitAnd(Wrap32(s + a - 1), Not32(Wrap32(a - 1)))
  {
  }

  lemma MaskOfPow2(a: int)
    requires 1 <= a <= 0x8000_0000
    ensures Not32(Wrap32(a - 1)) == TWO_32 - a
  {
  }

  lemma MaskOfPow2Zero(s: U32)
    ensures AlignToBits(s, 0) == 0
  {
    assert Not32(Wrap32(-1)) == 0;
  }

  /** `b - b % a` is a multiple of `a`; when `b == s + a - 1` it is the least one at least `s`. */
  lemma RoundDown(b: nat, a: int, s: int, r: int)
    requires a > 0 && r == b - b % a
    ensures r % a == 0
    ensures b == s + a - 1 ==>
      s <= r < s + a &&
      forall m: int :: s <= m && m % a == 0 ==> r <= m
  {
    DivModUnique(r, a, b / a, 0);
    if b == s + a - 1 {
      forall m: int | s <= m && m % a == 0
        ensures r <= m
      {
        MultiplesApart(r, m, a);
      }
    }
  }

  /** Two multiples of `a` less than `a` apart are ordered. */
  lemma MultiplesApart(r: int, m: int, a: int)
    requires a > 0 && r % a == 0 && m % a == 0 && m > r - a
    ensures r <= m
  {
    var p := r / a;
    var q := m / a;
    assert r == p * a && m == q * a;
    if q < p {
      assert (p - q) * a == r - m;
      MulAtLeast(p - q, a);
    }
  }

  /** `scalar_size`: 4 bytes for float, signed, unsigned and bool scalars, 0 otherwise. */
  function ScalarSize(k: ScalarKind): U32
  {
    match k
    case Float => 4
    case Sint => 4
    case Uint => 4
    case Bool => 4
    case _ => 0
  }

  function VectorSizeAsU32(v: VectorSize): U32
  {
    match v
    case Bi => 2
    case Tri => 3
    case Quad => 4
  }

  /** `vector_alignment`: vec2 aligns to 8 bytes, vec3 and vec4 to 16. */
  function VectorAlignment(v: VectorSize): U32
  {
    match v
    case Bi => 8
    case Tri => 16
    case Quad => 16
  }

  /** The alignments the layout rules produce: 1, 4, 8 or 16, all powers of two. */
  predicate IsAlignment(a: U32)
  {
    a == 1 || a == 4 || a == 8 || a == 16
  }

  /**
   * `std140_alignment`: 4 for a scalar, the vector alignment for a vector,
   * 16 for a matrix, the largest member alignment for a struct (1 when it
   * has no member), 1 for everything else.
   */
  function Std140Alignment(t: TypeInner): (r: U32)
    ensures IsAlignment(r)
    decreases t, 1, 0
  {
    match t
    case Scalar(_) => 4
    case Vector(v, _) => VectorAlignment(v)
    case Matrix(_, _, _) => 16
    case Struct(ms) => if |ms| == 0 then 1 else MaxMemberAlignment(ms, 0)
    case _ => 1
  }

  /** The largest `std140_alignment` among the members `ms[i..]` of a struct. */
  function MaxMemberAlignment(ms: seq<StructMember>, i: nat): (r: U32)
    requires i < |ms|
    ensures IsAlignment(r)
    decreases Struct(ms), 0, |ms| - i
  {
    var first := Std140Alignment(ms[i].ty.inner);
    if i == |ms| - 1 then first
    else
      var rest := MaxMemberAlignment(ms, i + 1);
      if first >= rest then first else rest
  }

  /** The element count `get_size` and the storage-array binding read from an array size. */
  function ArrayCount(size: ArraySize): U32
  {
    match size
    case Constant(n) => n
    case _ => U32_MAX
  }

  /**
   * `get_size` (reflection.rs:611-662), as a value: scalars 4 bytes, vectors
   * rounded up to their alignment, matrices as columns of 16-byte-aligned
   * rows, arrays `count * stride` (-1 for a runtime-sized one), structs as
   * the member loop of `StructLayout` padded to their largest alignment, and
   * 0 for everything else.
   */
  function Size(t: TypeInner): I32
    decreases t, 1, 0
  {
    match t
    case Scalar(k) => ToI32(ScalarSize(k))
    case Vector(v, k) => ToI32(AlignTo(Wrap32(VectorSizeAsU32(v) * ScalarSize(k)), VectorAlignment(v)))
    case Matrix(c, rows, k) =>
      ToI32(Wrap32(VectorSizeAsU32(c) * AlignTo(Wrap32(VectorSizeAsU32(rows) * ScalarSize(k)), 16)))
    case Array(size, stride) =>
      var count := ArrayCount(size);
      if count == U32_MAX then -1 else ToI32(Wrap32(count * stride))
    case Struct(ms) =>
      var (size, maxAlignment) := StructLayout(ms, 0, 0, 0);
      ToI32(AlignTo(size, maxAlignment))
    case _ => 0
  }

  /**
   * The struct loop of `get_size` from member `i` on, in the state (`size`,
   * `maxAlignment`): each member is placed at the running size aligned to
   * its own alignment, and the largest alignment is remembered.
   */
  function StructLayout(ms: seq<StructMember>, i: nat, size: U32, maxAlignment: U32): (U32, U32)
    requires i <= |ms|
    decreases Struct(ms), 0, |ms| - i
  {
    if i == |ms| then (size, maxAlignment)
    else
      var t := ms[i].ty.inner;
      var alignment := Std140Alignment(t);
      StructLayout(ms, i + 1, Wrap32(AlignTo(size, alignment) + ToU32(Size(t))),
                   if maxAlignment >= alignment then maxAlignment else alignment)
  }

  lemma StructLayoutStep(ms: seq<StructMember>, i: nat, size: U32, maxAlignment: U32)
    requires i < |ms|
    ensures var alignment := Std140Alignment(ms[i].ty.inner);
      StructLayout(ms, i, size, maxAlignment) ==
      StructLayout(ms, i + 1, Wrap32(AlignTo(size, alignment) + ToU32(Size(ms[i].ty.inner))),
                   if maxAlignment >= alignment then maxAlignment else alignment)
  {
  }

  /** The largest alignment the struct loop ends with is the struct's own alignment. */
  lemma {:induction false} StructLayoutAlignment(ms: seq<StructMember>, i: nat, size: U32, maxAlignment: U32)
    requires i < |ms|
    ensures StructLayout(ms, i, size, maxAlignment).1 ==
      (if maxAlignment >= MaxMemberAlignment(ms, i) then maxAlignment else MaxMemberAlignment(ms, i))
    decreases |ms| - i
  {
    var alignment := Std140Alignment(ms[i].ty.inner);
    var next := Wrap32(AlignTo(size, alignment) + ToU32(Size(ms[i].ty.inner)));
    var m := if maxAlignment >= alignment then maxAlignment else alignment;
    if i < |ms| - 1 {
      StructLayoutAlignment(ms, i + 1, next, m);
    }
  }

  /** A non-empty struct's size is padded to a multiple of its `std140_alignment`. */
  lemma StructSizePadded(ms: seq<StructMember>)
    requires |ms| > 0
    ensures ToU32(Size(Struct(ms))) % Std140Alignment(Struct(ms)) == 0
  {
    var (size, maxAlignment) := StructLayout(ms, 0, 0, 0);
    StructLayoutAlignment(ms, 0, 0, 0);
    AlignToLeastMultiple(size, maxAlignment);
    CastRoundTrip(AlignTo(size, maxAlignment), 0);
  }

  /**
   * `get_size` as the source computes it: recursion on the type, and an
   * accumulating loop over the members of a struct.
   */
  method GetSize(t: TypeInner) returns (r: I32)
    ensures r == Size(t)
    decreases t
  {
    match t {
      case Struct(ms) =>
        var maxAlignment: U32 := 0;
        var size: U32 := 0;
        var i := 0;
        while i < |ms|
          invariant 0 <= i <= |ms|
          invariant StructLayout(ms, i, size, maxAlignment) == StructLayout(ms, 0, 0, 0)
        {
          var memberSize := GetSize(ms[i].ty.inner);
          var alignment := Std140Alignment(ms[i].ty.inner);
          StructLayoutStep(ms, i, size, maxAlignment);
          size := Wrap32(AlignTo(size, alignment) + ToU32(memberSize));
          maxAlignment := if maxAlignment >= alignment then maxAlignment else alignment;
          i := i + 1;
        }
        r := ToI32(AlignTo(size, maxAlignment));
      case _ =>
        r := Size(t);
    }
  }

  /** A vec3<f32> occupies 16 bytes in a buffer layout but 12 bytes of a vertex stride. */
  /** Vectors of 4-byte scalars are padded to their alignment: vec2 to 8 bytes, vec3 and vec4 to 16. */
  lemma VectorSizes(v: VectorSize, k: ScalarKind)
    requires ScalarSize(k) == 4
    ensures Size(Vector(v, k)) == VectorAlignment(v)
  {
    match v
    case Bi => VectorSizeOf(v, k, 8, 8);
    case Tri => VectorSizeOf(v, k, 12, 16);
    case Quad => VectorSizeOf(v, k, 16, 16);
  }

  /** Of the vectors of 4-byte scalars only vec3 is padded: 4 bytes past its 12 bytes of data. */
  lemma VectorPadding(v: VectorSize, k: ScalarKind)
    requires ScalarSize(k) == 4
    ensures v == Tri ==> Size(Vector(v, k)) == VectorSizeAsU32(v) * ScalarSize(k) + 4
    ensures v != Tri ==> Size(Vector(v, k)) == VectorSizeAsU32(v) * ScalarSize(k)
  {
    match v
    case Bi => VectorSizeOf(v, k, 8, 8);
    case Tri => VectorSizeOf(v, k, 12, 16);
    case Quad => VectorSizeOf(v, k, 16, 16);
  }

  lemma VectorSizeOf(v: VectorSize, k: ScalarKind, bytes: U32, padded: U32)
    requires VectorSizeAsU32(v) * ScalarSize(k) == bytes <= 16
    requires AlignTo(bytes, VectorAlignment(v)) == padded <= 16
    ensures Size(Vector(v, k)) == padded
  {
    WrapSmall(bytes);
  }
}
