/**
 * The colour filter array descriptor. Its real implementation is not part of
 * this model; it is abstracted as a repeating tile of colour ordinals read at
 * an accumulated (dx, dy) offset.
 */
module Cfa {
  import opened Geometry
  import opened Colors

  /**
   * A `tileWidth` x `tileHeight` tile of colour ordinals, stored row-major,
   * repeated over the sensor and read at (x + dx, y + dy).
   */
  datatype Cfa = Cfa(tile: seq<nat>, tileWidth: nat, tileHeight: nat, dx: nat, dy: nat)
  {
    /** A well-formed tile: non-empty, of the stated size, holding only the four colour ordinals. */
    predicate Valid()
    {
      tileWidth > 0 && tileHeight > 0 && |tile| == tileWidth * tileHeight &&
      forall i | 0 <= i < |tile| :: tile[i] < 4
    }

    /** The tile reports only Red, Green and Blue (no Emerald). */
    predicate ThreeColor()
    {
      forall i | 0 <= i < |tile| :: tile[i] < 3
    }

    /** The colour ordinal of the photosite at absolute position (x, y). */
    function ColorAt(x: nat, y: nat): (c: nat)
      requires Valid()
      ensures c < 4
      ensures ThreeColor() ==> c < 3
      ensures c in tile
    {
      var tx, ty := (x + dx) % tileWidth, (y + dy) % tileHeight;
      FlatBound(tileWidth, tileHeight, tx, ty);
      tile[Flat(tileWidth, tx, ty)]
    }

    /**
     * The same pattern with its origin moved by (left, top): position (x, y)
     * of the result reads what position (x + left, y + top) read before.
     */
    function Shift(left: nat, top: nat): (r: Cfa)
      requires Valid()
      ensures r.Valid()
      ensures r.ThreeColor() == ThreeColor()
      ensures forall x: nat, y: nat :: r.ColorAt(x, y) == ColorAt(x + left, y + top)
    {
      Cfa(tile, tileWidth, tileHeight, dx + left, dy + top)
    }
  }

  /**
   * The filter colour of the sample at flat position i of a plane `width`
   * pixels wide: column i % width, row i / width.
   */
  function ColorAtIndex(cfa: Cfa, width: nat, i: nat): (c: CfaColor)
    requires cfa.Valid() && width > 0
    ensures cfa.ThreeColor() ==> c != Emerald
  {
    FromOrdinal(cfa.ColorAt(i % width, i / width))
  }

  /** At the flat position of pixel (x, y), ColorAtIndex reports the colour of (x, y). */
  lemma ColorAtIndexOfPixel(cfa: Cfa, width: nat, x: nat, y: nat)
    requires cfa.Valid() && x < width
    ensures ColorAtIndex(cfa, width, Flat(width, x, y)) == FromOrdinal(cfa.ColorAt(x, y))
  {
    FlatDivMod(width, x, y);
  }

  /** The pattern repeats with the period of its tile in both directions. */
  lemma ColorAtPeriodic(cfa: Cfa, x: nat, y: nat)
    requires cfa.Valid()
    ensures cfa.ColorAt(x + cfa.tileWidth, y) == cfa.ColorAt(x, y)
    ensures cfa.ColorAt(x, y + cfa.tileHeight) == cfa.ColorAt(x, y)
  {
    ModPeriod(x + cfa.dx, cfa.tileWidth);
    ModPeriod(y + cfa.dy, cfa.tileHeight);
  }

  /** Adding the modulus does not change a remainder. */
  lemma ModPeriod(a: nat, m: nat)
    requires m > 0
    ensures (a + m) % m == a % m
  {
    var q, r := a / m, a % m;
    assert a == q * m + r;
    assert a + m == Flat(m, r, q + 1);
    FlatDivMod(m, r, q + 1);
  }

  /** Shifting twice is shifting once by the sum of the two offsets. */
  lemma ShiftTwice(cfa: Cfa, l1: nat, t1: nat, l2: nat, t2: nat)
    requires cfa.Valid()
    ensures cfa.Shift(l1, t1).Shift(l2, t2) == cfa.Shift(l1 + l2, t1 + t2)
  {
  }
}
