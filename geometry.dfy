/** The crate's integer rectangle (src/math/rect.rs): a position and a size, all i32. */
module Geometry {
  import opened Layout

  datatype Rect = Rect(x: I32, y: I32, w: I32, h: I32)

  /** `Point2` (src/math/point.rs): two i32 coordinates, used for sizes. */
  datatype Point2 = Point2(x: I32, y: I32)

  /** `Point2::new` from a u32: `to_i32().unwrap_or(0)`, so values past i32::MAX become 0. */
  function PointCoord(v: nat): (r: I32)
    ensures v < 0x8000_0000 ==> r == v
    ensures v >= 0x8000_0000 ==> r == 0
  {
    if v < 0x8000_0000 then v else 0
  }

  /** Rust's `x as usize` for an i32 on a 64-bit target. */
  function ToUsize(x: I32): (r: nat)
    ensures x >= 0 ==> r == x
    ensures x < 0 ==> r >= 0x1_0000_0000_0000_0000 - 0x8000_0000
  {
    if x >= 0 then x else x + 0x1_0000_0000_0000_0000
  }

  /** Wrapping i32 arithmetic: the result of an i32 operation in a release build. */
  function WrapI32(x: int): (r: I32)
    ensures -0x8000_0000 <= x < 0x8000_0000 ==> r == x
  {
    ToI32(Wrap32(x))
  }
}
