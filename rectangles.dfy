/**
 * The `Rectangle` struct of chapt5/rectangles with its methods `area`,
 * `can_hold` and the associated function `square`.
 */
module Rectangles {
  import opened Ints

  datatype Rectangle = Rectangle(width: u32, height: u32)

  /** The product fits in a `u32`; otherwise `area` overflows (a panic in a debug build). */
  predicate AreaFits(r: Rectangle)
  {
    r.width as int * r.height as int <= U32_MAX
  }

  /** `Rectangle::area`. */
  function Area(r: Rectangle): (a: u32)
    requires AreaFits(r)
    ensures a as int == r.width as int * r.height as int
  {
    r.width * r.height
  }

  /** `Rectangle::can_hold`: strictly wider and strictly taller. */
  predicate CanHold(r: Rectangle, other: Rectangle)
  {
    r.width > other.width && r.height > other.height
  }

  /** `Rectangle::square`. */
  function Square(size: u32): (r: Rectangle)
    ensures r.width == r.height == size
  {
    Rectangle(size, size)
  }

  /** No rectangle can hold itself. */
  lemma CanHoldIrreflexive(r: Rectangle)
    ensures !CanHold(r, r)
  {
  }

  /** Two rectangles never hold each other. */
  lemma CanHoldAsymmetric(a: Rectangle, b: Rectangle)
    requires CanHold(a, b)
    ensures !CanHold(b, a)
  {
  }

  /** Whatever fits in something that fits in `a` fits in `a`. */
  lemma CanHoldTransitive(a: Rectangle, b: Rectangle, c: Rectangle)
    requires CanHold(a, b) && CanHold(b, c)
    ensures CanHold(a, c)
  {
  }

  /** A rectangle that holds another has the larger area. */
  lemma CanHoldLargerArea(a: Rectangle, b: Rectangle)
    requires AreaFits(a) && CanHold(a, b)
    ensures AreaFits(b) && Area(a) > Area(b)
  {
    var aw, ah, bw, bh := a.width as int, a.height as int, b.width as int, b.height as int;
    assert bw * bh <= bw * ah by {
      assert bw * (ah - bh) >= 0;
    }
    assert bw * ah < aw * ah by {
      assert (aw - bw) * ah > 0;
    }
  }

  /** A square's area is its side squared. */
  lemma SquareArea(size: u32)
    requires size as int * size as int <= U32_MAX
    ensures AreaFits(Square(size)) && Area(Square(size)) as int == size as int * size as int
  {
  }

  /** The values of `main`: a 30 x 50 rectangle has area 1500 and cannot hold a 70 x 40 one. */
  lemma MainExample()
    ensures Area(Rectangle(30, 50)) == 1500
    ensures !CanHold(Rectangle(30, 50), Rectangle(70, 40))
    ensures Square(3) == Rectangle(3, 3)
  {
  }
}
