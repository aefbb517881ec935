/**
 * Row-major pixel addressing shared by every stage of the Bayer pipeline.
 * A plane `width` pixels wide stores pixel (x, y) at flat position y * width + x.
 */
module Geometry {

  /** Flat row-major position of pixel (x, y) in a plane `width` pixels wide. */
  function Flat(width: nat, x: nat, y: nat): nat
  {
    y * width + x
  }

  /** Multiplication by a natural number is monotone. */
  lemma {:induction false} MulMono(a: nat, b: nat, c: nat)
    requires a <= b
    ensures a * c <= b * c
  {
    if c > 0 {
      MulMono(a, b, c - 1);
      assert a * c == a * (c - 1) + a;
      assert b * c == b * (c - 1) + b;
    }
  }

  /** A whole row `y` of a plane with `height` rows lies inside the plane. */
  lemma RowInPlane(width: nat, height: nat, y: nat)
    requires y < height
    ensures Flat(width, 0, y) + width <= width * height
  {
    MulMono(y + 1, height, width);
    assert (y + 1) * width == y * width + width;
  }

  /** Every in-bounds pixel has a flat position inside the plane. */
  lemma FlatBound(width: nat, height: nat, x: nat, y: nat)
    requires x < width && y < height
    ensures Flat(width, x, y) < width * height
  {
    RowInPlane(width, height, y);
  }

  /** Distinct in-bounds pixels have distinct flat positions. */
  lemma FlatInjective(width: nat, x1: nat, y1: nat, x2: nat, y2: nat)
    requires x1 < width && x2 < width
    requires Flat(width, x1, y1) == Flat(width, x2, y2)
    ensures x1 == x2 && y1 == y2
  {
    if y1 < y2 {
      MulMono(y1 + 1, y2, width);
    } else if y2 < y1 {
      MulMono(y2 + 1, y1, width);
    }
  }

  /** Column and row are recovered from a flat position by remainder and quotient. */
  lemma FlatDivMod(width: nat, x: nat, y: nat)
    requires x < width
    ensures Flat(width, x, y) % width == x
    ensures Flat(width, x, y) / width == y
  {
    var i := Flat(width, x, y);
    assert i == (i / width) * width + i % width;
    FlatInjective(width, x, y, i % width, i / width);
  }

  /** Every flat position inside a plane is the position of some in-bounds pixel. */
  lemma FlatOfIndex(width: nat, height: nat, i: nat)
    requires i < width * height
    ensures width > 0
    ensures i % width < width && i / width < height
    ensures Flat(width, i % width, i / width) == i
  {
    assert i == (i / width) * width + i % width;
    if i / width >= height {
      MulMono(height, i / width, width);
    }
  }
}
