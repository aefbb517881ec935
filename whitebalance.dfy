/**
 * The white-balance stage on values: every sample is scaled by the
 * coefficient indexed by the colour ordinal of its photosite. The sample
 * arithmetic (a float multiply, followed for integer samples by a cast back)
 * is the parameter `scale`.
 */
module WhiteBalanceStage {
  import opened Geometry
  import opened Colors
  import opened Cfa

  /** Every colour ordinal the pattern can yield is an index of the coefficients. */
  predicate Indexes(cfa: Cfa, wb: seq<real>)
  {
    forall c | c in cfa.tile :: c < |wb|
  }

  /** On a three-colour pattern, three coefficients are enough. */
  lemma ThreeColorIndexes(cfa: Cfa, wb: seq<real>)
    requires cfa.Valid() && cfa.ThreeColor() && |wb| >= 3
    ensures Indexes(cfa, wb)
  {
    forall c | c in cfa.tile
      ensures c < |wb|
    {
      var i :| 0 <= i < |cfa.tile| && cfa.tile[i] == c;
    }
  }

  /**
   * The white-balanced plane: sample i is scaled by the coefficient whose
   * index is the colour ordinal of its photosite, column i % width, row i / width.
   */
  function WhiteBalanced<T>(s: seq<T>, width: nat, height: nat, cfa: Cfa, wb: seq<real>, scale: (T, real) -> T): (r: seq<T>)
    requires |s| == width * height && cfa.Valid() && Indexes(cfa, wb)
    ensures |r| == |s|
  {
    seq(|s|, i requires 0 <= i < |s| =>
      FlatOfIndex(width, height, i);
      scale(s[i], wb[cfa.ColorAt(i % width, i / width)]))
  }

  /**
   * Pixel (x, y) of the balanced plane is its own old sample scaled by the
   * coefficient its colour ordinal indexes, so an Emerald photosite takes
   * wb[3]; on a three-colour pattern that is the coefficient its colour
   * selects (Red wb[0], Green wb[1], Blue wb[2]).
   */
  lemma WhiteBalancedAt<T>(s: seq<T>, width: nat, height: nat, cfa: Cfa, wb: seq<real>, scale: (T, real) -> T, x: nat, y: nat)
    requires |s| == width * height && cfa.Valid() && Indexes(cfa, wb)
    requires x < width && y < height
    ensures Flat(width, x, y) < |s| && cfa.ColorAt(x, y) < |wb|
    ensures WhiteBalanced(s, width, height, cfa, wb, scale)[Flat(width, x, y)]
         == scale(s[Flat(width, x, y)], wb[cfa.ColorAt(x, y)])
    ensures cfa.ColorAt(x, y) == 3 ==>
      WhiteBalanced(s, width, height, cfa, wb, scale)[Flat(width, x, y)] == scale(s[Flat(width, x, y)], wb[3])
    ensures cfa.ThreeColor() ==>
      WhiteBalanced(s, width, height, cfa, wb, scale)[Flat(width, x, y)]
      == scale(s[Flat(width, x, y)], wb[RgbIndex(FromOrdinal(cfa.ColorAt(x, y)))])
  {
    FlatBound(width, height, x, y);
    FlatDivMod(width, x, y);
  }

  /**
   * Balancing is cumulative: a second pass applies the pixel's coefficient
   * again to the already balanced sample.
   */
  lemma WhiteBalanceTwice<T>(s: seq<T>, width: nat, height: nat, cfa: Cfa, wb: seq<real>, scale: (T, real) -> T, x: nat, y: nat)
    requires |s| == width * height && cfa.Valid() && Indexes(cfa, wb)
    requires x < width && y < height
    ensures Flat(width, x, y) < |s| && cfa.ColorAt(x, y) < |wb|
    ensures var once := WhiteBalanced(s, width, height, cfa, wb, scale);
      var k := wb[cfa.ColorAt(x, y)];
      WhiteBalanced(once, width, height, cfa, wb, scale)[Flat(width, x, y)] == scale(scale(s[Flat(width, x, y)], k), k)
  {
    var once := WhiteBalanced(s, width, height, cfa, wb, scale);
    WhiteBalancedAt(s, width, height, cfa, wb, scale, x, y);
    WhiteBalancedAt(once, width, height, cfa, wb, scale, x, y);
  }

  /** With coefficients that leave every sample as it is, balancing changes nothing. */
  lemma WhiteBalanceIdentity<T>(s: seq<T>, width: nat, height: nat, cfa: Cfa, wb: seq<real>, scale: (T, real) -> T)
    requires |s| == width * height && cfa.Valid() && Indexes(cfa, wb)
    requires forall v: T, k | 0 <= k < |wb| :: scale(v, wb[k]) == v
    ensures WhiteBalanced(s, width, height, cfa, wb, scale) == s
  {
    var r := WhiteBalanced(s, width, height, cfa, wb, scale);
    forall i | 0 <= i < |s|
      ensures r[i] == s[i]
    {
      FlatOfIndex(width, height, i);
      var k := cfa.ColorAt(i % width, i / width);
      assert scale(s[i], wb[k]) == s[i];
    }
  }
}
