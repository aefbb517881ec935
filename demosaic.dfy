/**
 * The demosaic engine on values: the 8-neighbourhood of a pixel, the
 * colour-filtered candidate lists, and what the interleaved RGB output must
 * hold once every interior pixel has been reconstructed.
 */
module DemosaicStage {
  import opened Geometry
  import opened Colors
  import opened Cfa

  /** The offsets of the eight neighbours, row by row, the centre skipped. */
  const Offsets: seq<(int, int)> := [(-1, -1), (0, -1), (1, -1), (-1, 0), (1, 0), (-1, 1), (0, 1), (1, 1)]

  /** (nx, ny) is one of the eight pixels immediately around (x, y). */
  predicate IsNeighbour(x: nat, y: nat, nx: nat, ny: nat)
  {
    (nx, ny) != (x, y) && nx <= x + 1 && x <= nx + 1 && ny <= y + 1 && y <= ny + 1
  }

  /** (x, y) lies off the outer one-pixel ring of a width x height plane. */
  predicate Interior(width: nat, height: nat, x: nat, y: nat)
  {
    1 <= x && x + 1 < width && 1 <= y && y + 1 < height
  }

  /** A neighbour with its filter colour and its coordinates. */
  type Candidate = (CfaColor, nat, nat)

  /** The neighbours of (x, y) in the order of Offsets, each with its filter colour. */
  function Neighbours(cfa: Cfa, x: nat, y: nat): (r: seq<Candidate>)
    requires cfa.Valid() && 1 <= x && 1 <= y
    ensures |r| == 8
    ensures forall i | 0 <= i < |r| ::
      IsNeighbour(x, y, r[i].1, r[i].2) && r[i].0 == FromOrdinal(cfa.ColorAt(r[i].1, r[i].2))
  {
    seq(8, i requires 0 <= i < 8 =>
      var nx: nat, ny: nat := x + Offsets[i].0, y + Offsets[i].1;
      (FromOrdinal(cfa.ColorAt(nx, ny)), nx, ny))
  }

  /** The position in Offsets of a non-zero offset within one pixel. */
  function OffsetIndex(dx: int, dy: int): (i: nat)
    requires -1 <= dx <= 1 && -1 <= dy <= 1 && (dx, dy) != (0, 0)
    ensures i < 8 && Offsets[i] == (dx, dy)
  {
    if dy == -1 then dx + 1 else if dy == 0 then (if dx == -1 then 3 else 4) else dx + 6
  }

  /** Every one of the eight neighbours of (x, y) is among Neighbours(cfa, x, y). */
  lemma NeighboursComplete(cfa: Cfa, x: nat, y: nat, nx: nat, ny: nat)
    requires cfa.Valid() && 1 <= x && 1 <= y
    requires IsNeighbour(x, y, nx, ny)
    ensures (FromOrdinal(cfa.ColorAt(nx, ny)), nx, ny) in Neighbours(cfa, x, y)
  {
    var r := Neighbours(cfa, x, y);
    var dx, dy := nx - x, ny - y;
    var i := OffsetIndex(dx, dy);
    assert x + Offsets[i].0 == nx && y + Offsets[i].1 == ny;
    assert r[i] == (FromOrdinal(cfa.ColorAt(nx, ny)), nx, ny);
  }

  /** The candidates of filter colour `color`, in their original order. */
  function Filter(options: seq<Candidate>, color: CfaColor): (r: seq<Candidate>)
    ensures |r| <= |options|
    ensures forall e :: e in r <==> e in options && e.0 == color
  {
    if options == [] then []
    else
      assert forall e :: e in options <==> e == options[0] || e in options[1..];
      (if options[0].0 == color then [options[0]] else []) + Filter(options[1..], color)
  }

  /** Some 8-neighbour of (x, y) has colour ordinal k, or (x, y) itself has it. */
  ghost predicate Covered(cfa: Cfa, x: nat, y: nat, k: nat)
    requires cfa.Valid()
  {
    k == cfa.ColorAt(x, y) || exists nx: nat, ny: nat | IsNeighbour(x, y, nx, ny) :: cfa.ColorAt(nx, ny) == k
  }

  /**
   * Every interior pixel finds each colour it lacks among its eight
   * neighbours, so no candidate list the engine draws from is empty.
   */
  ghost predicate NeighboursCover(cfa: Cfa, width: nat, height: nat)
    requires cfa.Valid()
  {
    forall x: nat, y: nat, k: nat | Interior(width, height, x, y) && k < 3 :: Covered(cfa, x, y, k)
  }

  /** An interior pixel lacking colour k has a neighbour of colour k among its candidates. */
  lemma CandidateOfColor(cfa: Cfa, width: nat, height: nat, x: nat, y: nat, k: nat)
    requires cfa.Valid() && NeighboursCover(cfa, width, height)
    requires Interior(width, height, x, y) && k < 3 && k != cfa.ColorAt(x, y)
    ensures exists e :: e in Neighbours(cfa, x, y) && e.0 == FromOrdinal(k)
  {
    assert Covered(cfa, x, y, k);
    var nx: nat, ny: nat :| IsNeighbour(x, y, nx, ny) && cfa.ColorAt(nx, ny) == k;
    NeighboursComplete(cfa, x, y, nx, ny);
  }

  /** v is the raw sample of an 8-neighbour of (x, y) whose filter has colour ordinal k. */
  ghost predicate FromNeighbour<T>(v: T, data: seq<T>, width: nat, height: nat, cfa: Cfa, x: nat, y: nat, k: nat)
    requires cfa.Valid() && |data| == width * height
  {
    exists nx: nat, ny: nat | IsNeighbour(x, y, nx, ny) && nx < width && ny < height ::
      cfa.ColorAt(nx, ny) == k && Flat(width, nx, ny) < |data| && data[Flat(width, nx, ny)] == v
  }

  /**
   * Channel k of output pixel (x, y) holds v as the engine requires: the
   * pixel's own sample when k is its own colour, otherwise the sample of a
   * neighbour of colour k.
   */
  ghost predicate ChannelReconstructed<T>(v: T, data: seq<T>, width: nat, height: nat, cfa: Cfa, x: nat, y: nat, k: nat)
    requires cfa.Valid() && |data| == width * height && x < width && y < height
  {
    FlatBound(width, height, x, y);
    if k == cfa.ColorAt(x, y) then v == data[Flat(width, x, y)]
    else FromNeighbour(v, data, width, height, cfa, x, y, k)
  }

  /**
   * Output pixel (x, y) is reconstructed: the channel of its own filter colour
   * holds its own sample, and each other channel holds the sample of a
   * neighbour of that channel's colour.
   */
  ghost predicate Reconstructed<T>(rgb: seq<T>, data: seq<T>, width: nat, height: nat, cfa: Cfa, x: nat, y: nat)
    requires cfa.Valid() && |data| == width * height && |rgb| == 3 * |data|
    requires x < width && y < height
  {
    FlatBound(width, height, x, y);
    var p := Flat(width, x, y);
    cfa.ColorAt(x, y) < 3 &&
    ChannelReconstructed(rgb[p * 3], data, width, height, cfa, x, y, 0) &&
    ChannelReconstructed(rgb[p * 3 + 1], data, width, height, cfa, x, y, 1) &&
    ChannelReconstructed(rgb[p * 3 + 2], data, width, height, cfa, x, y, 2)
  }

  /** All three channels of output pixel (x, y) hold v. */
  ghost predicate Filled<T>(rgb: seq<T>, width: nat, height: nat, x: nat, y: nat, v: T)
    requires |rgb| == 3 * (width * height) && x < width && y < height
  {
    FlatBound(width, height, x, y);
    var p := Flat(width, x, y);
    rgb[p * 3] == v && rgb[p * 3 + 1] == v && rgb[p * 3 + 2] == v
  }

  /**
   * rgb is a demosaiced image of the sensor plane data: three interleaved
   * channels per pixel, every interior pixel reconstructed, and every pixel
   * of the outer ring still holding the fill value data[0] in all channels.
   */
  ghost predicate Debayered<T>(rgb: seq<T>, data: seq<T>, width: nat, height: nat, cfa: Cfa)
    requires cfa.Valid()
  {
    |data| == width * height && |data| > 0 && |rgb| == 3 * |data| &&
    forall x: nat, y: nat | x < width && y < height ::
      if Interior(width, height, x, y) then Reconstructed(rgb, data, width, height, cfa, x, y)
      else Filled(rgb, width, height, x, y, data[0])
  }

  /** Column-major visiting order: (x, y) comes before (cx, cy). */
  predicate Before(x: nat, y: nat, cx: nat, cy: nat)
  {
    x < cx || (x == cx && y < cy)
  }

  /**
   * The engine has reached (cx, cy): interior pixels visited before it are
   * reconstructed, and every other pixel still holds the fill value.
   */
  ghost predicate Progress<T>(rgb: seq<T>, data: seq<T>, width: nat, height: nat, cfa: Cfa, cx: nat, cy: nat)
    requires cfa.Valid()
  {
    |data| == width * height && |data| > 0 && |rgb| == 3 * |data| &&
    forall x: nat, y: nat | x < width && y < height ::
      if Interior(width, height, x, y) && Before(x, y, cx, cy) then Reconstructed(rgb, data, width, height, cfa, x, y)
      else Filled(rgb, width, height, x, y, data[0])
  }

  /** A freshly filled output buffer is at the first interior pixel. */
  lemma ProgressStart<T>(rgb: seq<T>, data: seq<T>, width: nat, height: nat, cfa: Cfa)
    requires cfa.Valid() && |data| == width * height && |data| > 0 && |rgb| == 3 * |data|
    requires forall j | 0 <= j < |rgb| :: rgb[j] == data[0]
    ensures Progress(rgb, data, width, height, cfa, 1, 1)
  {
    forall x: nat, y: nat | x < width && y < height
      ensures Filled(rgb, width, height, x, y, data[0])
    {
      FlatBound(width, height, x, y);
    }
  }

  /** A pixel whose three output slots are untouched keeps its state. */
  lemma PixelUnchanged<T>(before: seq<T>, after: seq<T>, data: seq<T>, width: nat, height: nat, cfa: Cfa, x: nat, y: nat)
    requires cfa.Valid() && |data| == width * height && |before| == 3 * |data| && |after| == |before|
    requires x < width && y < height
    requires Flat(width, x, y) * 3 + 2 < |before|
    requires after[Flat(width, x, y) * 3] == before[Flat(width, x, y) * 3]
    requires after[Flat(width, x, y) * 3 + 1] == before[Flat(width, x, y) * 3 + 1]
    requires after[Flat(width, x, y) * 3 + 2] == before[Flat(width, x, y) * 3 + 2]
    ensures Reconstructed(after, data, width, height, cfa, x, y) == Reconstructed(before, data, width, height, cfa, x, y)
    ensures Filled(after, width, height, x, y, data[0]) == Filled(before, width, height, x, y, data[0])
  {
  }

  /** Reconstructing pixel (x, y), and touching nothing else, moves the engine to (x, y + 1). */
  lemma ProgressStep<T>(before: seq<T>, after: seq<T>, data: seq<T>, width: nat, height: nat, cfa: Cfa, x: nat, y: nat)
    requires cfa.Valid() && Interior(width, height, x, y)
    requires Progress(before, data, width, height, cfa, x, y)
    requires |after| == |before|
    requires forall j | 0 <= j < |before| && (j < Flat(width, x, y) * 3 || Flat(width, x, y) * 3 + 3 <= j) ::
      after[j] == before[j]
    requires Reconstructed(after, data, width, height, cfa, x, y)
    ensures Progress(after, data, width, height, cfa, x, y + 1)
  {
    forall x': nat, y': nat | x' < width && y' < height
      ensures if Interior(width, height, x', y') && Before(x', y', x, y + 1) then Reconstructed(after, data, width, height, cfa, x', y')
        else Filled(after, width, height, x', y', data[0])
    {
      if (x', y') != (x, y) {
        FlatBound(width, height, x', y');
        if Flat(width, x', y') == Flat(width, x, y) {
          FlatInjective(width, x', y', x, y);
        }
        PixelUnchanged(before, after, data, width, height, cfa, x', y');
      }
    }
  }

  /** Once a column is finished, the engine moves to the top of the next one. */
  lemma ProgressColumn<T>(rgb: seq<T>, data: seq<T>, width: nat, height: nat, cfa: Cfa, x: nat, y: nat)
    requires cfa.Valid() && Progress(rgb, data, width, height, cfa, x, y)
    requires height <= y + 1
    ensures Progress(rgb, data, width, height, cfa, x + 1, 1)
  {
    forall x': nat, y': nat | x' < width && y' < height && Interior(width, height, x', y')
      ensures Before(x', y', x, y) == Before(x', y', x + 1, 1)
    {
    }
  }

  /** Once the last interior column is finished, the output is demosaiced. */
  lemma ProgressDone<T>(rgb: seq<T>, data: seq<T>, width: nat, height: nat, cfa: Cfa, x: nat)
    requires cfa.Valid() && Progress(rgb, data, width, height, cfa, x, 1)
    requires width <= x + 1
    ensures Debayered(rgb, data, width, height, cfa)
  {
    forall x': nat, y': nat | x' < width && y' < height && Interior(width, height, x', y')
      ensures Before(x', y', x, 1)
    {
    }
  }

  /** Over a plane of equal samples, every reconstructed channel holds that sample. */
  lemma ChannelOfFlatScene<T>(u: T, data: seq<T>, width: nat, height: nat, cfa: Cfa, x: nat, y: nat, k: nat, v: T)
    requires cfa.Valid() && |data| == width * height && x < width && y < height
    requires forall i | 0 <= i < |data| :: data[i] == v
    requires ChannelReconstructed(u, data, width, height, cfa, x, y, k)
    ensures u == v
  {
    FlatBound(width, height, x, y);
    if k != cfa.ColorAt(x, y) {
      var nx: nat, ny: nat :| IsNeighbour(x, y, nx, ny) && nx < width && ny < height &&
        cfa.ColorAt(nx, ny) == k && Flat(width, nx, ny) < |data| && data[Flat(width, nx, ny)] == u;
    }
  }

  /**
   * A flat scene survives demosaicing exactly: whichever neighbours are drawn,
   * every channel of every output pixel holds the scene's single value.
   */
  lemma FlatSceneDebayered<T>(rgb: seq<T>, data: seq<T>, width: nat, height: nat, cfa: Cfa, v: T)
    requires cfa.Valid() && Debayered(rgb, data, width, height, cfa)
    requires forall i | 0 <= i < |data| :: data[i] == v
    ensures forall x: nat, y: nat | x < width && y < height :: Filled(rgb, width, height, x, y, v)
  {
    forall x: nat, y: nat | x < width && y < height
      ensures Filled(rgb, width, height, x, y, v)
    {
      FlatBound(width, height, x, y);
      var p := Flat(width, x, y);
      if Interior(width, height, x, y) {
        ChannelOfFlatScene(rgb[p * 3], data, width, height, cfa, x, y, 0, v);
        ChannelOfFlatScene(rgb[p * 3 + 1], data, width, height, cfa, x, y, 1, v);
        ChannelOfFlatScene(rgb[p * 3 + 2], data, width, height, cfa, x, y, 2, v);
      }
    }
  }
}
