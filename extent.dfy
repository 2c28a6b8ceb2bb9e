/**
 * Two- and three-dimensional extents (src/utility/Extent.h): plain value types
 * of unsigned 32-bit components, with delegating constructors and
 * componentwise equality.
 */
module Extent {

  newtype u32 = x: int | 0 <= x < 0x1_0000_0000
  newtype i32 = x: int | -0x8000_0000 <= x < 0x8000_0000

  datatype Extent2D = Extent2D(width: u32, height: u32) {

    /** `operator==`: both components agree. */
    predicate Equals(other: Extent2D): (r: bool)
      ensures r <==> this == other
    {
      width == other.width && height == other.height
    }

    /** `operator!=`: defined as the negation of `==`. */
    predicate NotEquals(other: Extent2D): (r: bool)
      ensures r <==> this != other
    {
      !Equals(other)
    }
  }

  datatype Extent3D = Extent3D(width: u32, height: u32, depth: u32) {

    /** `operator==`: all three components agree. */
    predicate Equals(other: Extent3D): (r: bool)
      ensures r <==> this == other
    {
      width == other.width && height == other.height && depth == other.depth
    }

    /** `operator!=`: defined as the negation of `==`. */
    predicate NotEquals(other: Extent3D): (r: bool)
      ensures r <==> this != other
    {
      !Equals(other)
    }
  }

  /** `Extent2D(uint32_t, uint32_t)`. */
  function Make2D(width: u32, height: u32): (e: Extent2D)
    ensures e.width == width && e.height == height
  {
    Extent2D(width, height)
  }

  /** `Extent2D()`: delegates to the unsigned constructor with 0 x 0. */
  function Default2D(): (e: Extent2D)
    ensures e.width == 0 && e.height == 0
  {
    Make2D(0, 0)
  }

  /** `Extent2D(int, int)`: asserts that neither component is negative. */
  function Make2DFromInt(width: i32, height: i32): (e: Extent2D)
    requires width >= 0 && height >= 0
    ensures e.width as int == width as int && e.height as int == height as int
  {
    Extent2D(width as int as u32, height as int as u32)
  }

  /** `Extent2D(const Extent2D&)`: delegates to the unsigned constructor. */
  function Copy2D(other: Extent2D): (e: Extent2D)
    ensures e.Equals(other)
  {
    Make2D(other.width, other.height)
  }

  /** `Extent3D(uint32_t, uint32_t, uint32_t)`. */
  function Make3D(width: u32, height: u32, depth: u32): (e: Extent3D)
    ensures e.width == width && e.height == height && e.depth == depth
  {
    Extent3D(width, height, depth)
  }

  /** `Extent3D(uint32_t val = 0)`: every component is `val`. */
  function Uniform3D(val: u32): (e: Extent3D)
    ensures e.width == val && e.height == val && e.depth == val
  {
    Make3D(val, val, val)
  }

  /** `Extent3D()`, the default argument of the uniform constructor. */
  function Default3D(): (e: Extent3D)
    ensures e.width == 0 && e.height == 0 && e.depth == 0
  {
    Uniform3D(0)
  }

  /** `Extent3D(const Extent3D&)`. */
  function Copy3D(other: Extent3D): (e: Extent3D)
    ensures e.Equals(other)
  {
    Make3D(other.width, other.height, other.depth)
  }

  /** `Extent3D(const Extent2D&, uint32_t depth = 1)`. */
  function From2D(extent2d: Extent2D, depth: u32): (e: Extent3D)
    ensures e.width == extent2d.width && e.height == extent2d.height && e.depth == depth
  {
    Make3D(extent2d.width, extent2d.height, depth)
  }

  /** `Extent3D(const Extent2D&)` with the default depth argument. */
  function From2DDefaultDepth(extent2d: Extent2D): (e: Extent3D)
    ensures e.width == extent2d.width && e.height == extent2d.height && e.depth == 1
  {
    From2D(extent2d, 1)
  }

  /** `!=` is exactly the negation of `==`, for both extent types. */
  lemma NotEqualsIsNegation(a: Extent2D, b: Extent2D, c: Extent3D, d: Extent3D)
    ensures a.NotEquals(b) == !a.Equals(b)
    ensures c.NotEquals(d) == !c.Equals(d)
  {
  }

  /** Two 2D extents lifted to 3D compare equal exactly when the 2D extents
      and the depths do. */
  lemma From2DInjective(a: Extent2D, b: Extent2D, da: u32, db: u32)
    ensures From2D(a, da).Equals(From2D(b, db)) <==> a.Equals(b) && da == db
  {
  }
}
