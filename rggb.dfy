/**
 * The common RGGB Bayer layout (Red at even column and even row, Blue at odd
 * column and odd row, Green elsewhere) and what the demosaic engine promises
 * for it.
 */
module Rggb {
  import opened Geometry
  import opened Cfa
  import opened DemosaicStage
  import opened Random
  import opened BayerRgb

  /** The 2 x 2 RGGB tile with no shift. */
  const RggbCfa: Cfa := Cfa([0, 1, 1, 2], 2, 2, 0, 0)

  /** The colour ordinal at (x, y) depends only on the parities of x and y. */
  lemma RggbColorAt(x: nat, y: nat)
    ensures RggbCfa.Valid() && RggbCfa.ThreeColor()
    ensures RggbCfa.ColorAt(x, y) == if x % 2 == 0 && y % 2 == 0 then 0 else if x % 2 == 1 && y % 2 == 1 then 2 else 1
  {
    var tx, ty := x % 2, y % 2;
    Parity(x);
    Parity(y);
    assert RggbCfa.ColorAt(x, y) == RggbCfa.tile[Flat(2, tx, ty)];
    assert Flat(2, tx, ty) == if ty == 0 then tx else 2 + tx;
  }

  /**
   * Every interior pixel of an RGGB plane, whatever its size, has a neighbour
   * of each colour it lacks, so the demosaic engine never draws from an empty
   * candidate list.
   */
  lemma RggbCovers(width: nat, height: nat)
    ensures RggbCfa.Valid() && NeighboursCover(RggbCfa, width, height)
  {
    RggbColorAt(0, 0);
    forall x: nat, y: nat, k: nat | Interior(width, height, x, y) && k < 3
      ensures Covered(RggbCfa, x, y, k)
    {
      RggbCoveredAt(x, y, k);
    }
  }

  /**
   * Together with (x, y) itself, the neighbours to its right, below and
   * diagonally below-right meet all four parity classes, hence all three colours.
   */
  lemma RggbCoveredAt(x: nat, y: nat, k: nat)
    requires k < 3
    ensures RggbCfa.Valid() && Covered(RggbCfa, x, y, k)
  {
    Parity(x);
    Parity(y);
    RggbColorAt(x, y);
    RggbColorAt(x + 1, y);
    RggbColorAt(x, y + 1);
    RggbColorAt(x + 1, y + 1);
    var c, right, below, diagonal := RggbCfa.ColorAt(x, y), RggbCfa.ColorAt(x + 1, y), RggbCfa.ColorAt(x, y + 1), RggbCfa.ColorAt(x + 1, y + 1);
    assert k == c || k == right || k == below || k == diagonal;
    if k == right {
      assert IsNeighbour(x, y, x + 1, y);
    } else if k == below {
      assert IsNeighbour(x, y, x, y + 1);
    } else if k == diagonal {
      assert IsNeighbour(x, y, x + 1, y + 1);
    }
  }

  /**
   * A 4 x 4 RGGB plane whose samples are all 100 demosaics to an image whose
   * every channel is 100, whichever neighbours are drawn.
   */
  lemma FlatRggbScene(rgb: seq<int>)
    ensures RggbCfa.Valid()
    ensures Debayered(rgb, seq(16, _ => 100), 4, 4, RggbCfa) ==>
      forall x: nat, y: nat | x < 4 && y < 4 :: |rgb| == 48 && Filled(rgb, 4, 4, x, y, 100)
  {
    RggbColorAt(0, 0);
    var data := seq(16, _ => 100);
    if Debayered(rgb, data, 4, 4, RggbCfa) {
      FlatSceneDebayered(rgb, data, 4, 4, RggbCfa, 100);
    }
  }

  /** Moving one step flips parity. */
  lemma Parity(n: nat)
    ensures n % 2 == 0 || n % 2 == 1
    ensures (n + 1) % 2 == 1 - n % 2
  {
  }

  /**
   * The demosaic engine run on a 4 x 4 RGGB plane whose samples are all 100:
   * whatever bytes the sampler yields, every pixel is 100 in all three
   * channels, so all 48 output samples are 100.
   */
  method DebayerFlatRggb(bytes: nat -> Byte) returns (rgbImage: LinRgbImage<int>)
    ensures rgbImage.width == 4 && rgbImage.height == 4 && rgbImage.data.Length == 48
    ensures forall x: nat, y: nat | x < 4 && y < 4 :: Filled(rgbImage.data[..], 4, 4, x, y, 100)
    ensures forall j | 0 <= j < 48 :: rgbImage.data[j] == 100
  {
    RggbCovers(4, 4);
    var plane := new int[16](_ => 100);
    var image := new Image(4, 4, Metadata(None, [1.0, 1.0, 1.0], [], RggbCfa), plane);
    rgbImage := image.Debayer(bytes);
    FlatSceneDebayered(rgbImage.data[..], plane[..], 4, 4, RggbCfa, 100);
    FilledEverySample(rgbImage.data[..]);
  }

  /** When all 16 pixels of a 4 x 4 image are filled with 100, so are all its 48 samples. */
  lemma FilledEverySample(rgb: seq<int>)
    requires |rgb| == 48
    requires forall x: nat, y: nat | x < 4 && y < 4 :: Filled(rgb, 4, 4, x, y, 100)
    ensures forall j | 0 <= j < 48 :: rgb[j] == 100
  {
    forall j | 0 <= j < 48
      ensures rgb[j] == 100
    {
      var y := j / 12;
      var x := (j - 12 * y) / 3;
      assert 0 <= j - 12 * y - 3 * x < 3;
      assert Flat(4, x, y) * 3 == 12 * y + 3 * x;
      assert Filled(rgb, 4, 4, x, y, 100);
    }
  }
}
