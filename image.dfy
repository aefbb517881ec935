/**
 * The sensor-plane image and its in-place stages: crop, white balance, and
 * the demosaic engine that turns it into an interleaved linear-RGB image.
 * Sensor-plane images and linear-RGB images are distinct classes, so the
 * sensor-plane stages cannot be applied to a demosaiced image.
 */
module BayerRgb {
  import opened Geometry
  import opened Colors
  import opened Cfa
  import opened Random
  import opened CropStage
  import opened WhiteBalanceStage
  import opened DemosaicStage

  datatype Option<T> = None | Some(value: T)

  /**
   * What the decoder reports about an image: the margins still to crop (absent
   * once cropped), one white-balance coefficient per colour ordinal, the
   * per-channel white levels (used only downstream) and the colour filter array.
   */
  datatype Metadata = Metadata(crop: Option<CropRect>, whitebalance: seq<real>, whitelevels: seq<nat>, cfa: Cfa)

  /**
   * Picks one of the candidates of filter colour `color`: the one at position
   * `byte % count` among them, where `byte` is the next byte of `roll`.
   * Candidate lists of 256 or more, where the count's cast to a byte would
   * wrap, are excluded.
   */
  method PickColor(roll: RollingRandom, options: seq<Candidate>, color: CfaColor) returns (p: (nat, nat))
    requires |options| < 256
    requires exists e :: e in options && e.0 == color
    modifies roll
    ensures (color, p.0, p.1) in options
    ensures var colors := Filter(options, color);
      0 < |colors| && (color, p.0, p.1) == colors[roll.bytes(old(roll.drawn)) % |colors|]
    ensures roll.drawn == old(roll.drawn) + 1
  {
    var colors := Filter(options, color);
    var random := roll.RandomU8();
    var chosen := colors[random % |colors|];
    p := (chosen.1, chosen.2);
  }

  /**
   * The loop of the crop stage: copies, row by row, the `width - (left + right)`
   * samples starting at column `left` of each source row from `top` to
   * `height - bottom - 1`, into a fresh row-major plane.
   */
  method CropPlane<T>(source: seq<T>, width: nat, height: nat, crop: CropRect) returns (image: seq<T>)
    requires |source| == width * height && Fits(crop, width, height)
    ensures image == Cropped(source, width, height, crop)
  {
    var newWidth := width - (crop.left + crop.right);
    var newHeight := height - (crop.top + crop.bottom);
    image := [];
    for row := 0 to newHeight
      invariant image == CropRows(source, width, height, crop.left, newWidth, crop.top, row)
    {
      var rowX := row + crop.top;
      RowInPlane(width, height, rowX);
      var start := rowX * width + crop.left;
      var end := start + newWidth;
      image := image + source[start..end];
    }
  }

  /** A fresh array holding the given samples, as the cropped plane's buffer. */
  method NewPlane<T>(samples: seq<T>) returns (plane: array<T>)
    ensures fresh(plane) && plane[..] == samples
  {
    plane := new T[|samples|](i requires 0 <= i < |samples| => samples[i]);
  }

  /** A demosaiced image: three interleaved linear-RGB samples per pixel. */
  class LinRgbImage<T> {
    var width: nat
    var height: nat
    var metadata: Metadata
    var data: array<T>

    /** Three interleaved samples per pixel. */
    ghost predicate Valid()
      reads this
    {
      data.Length == width * height * 3
    }

    constructor (width: nat, height: nat, metadata: Metadata, data: array<T>)
      requires data.Length == width * height * 3
      ensures Valid()
      ensures this.width == width && this.height == height
      ensures this.metadata == metadata && this.data == data
    {
      this.width := width;
      this.height := height;
      this.metadata := metadata;
      this.data := data;
    }
  }

  /** A sensor-plane image: one raw sample per photosite, row-major. */
  class Image<T> {
    var width: nat
    var height: nat
    var metadata: Metadata
    var data: array<T>

    /** One sample per pixel, and a well-formed colour filter array. */
    ghost predicate Valid()
      reads this
    {
      data.Length == width * height && metadata.cfa.Valid()
    }

    /** The sensor plane as the decoder hands it over. */
    constructor (width: nat, height: nat, metadata: Metadata, data: array<T>)
      requires data.Length == width * height && metadata.cfa.Valid()
      ensures Valid()
      ensures this.width == width && this.height == height
      ensures this.metadata == metadata && this.data == data
    {
      this.width := width;
      this.height := height;
      this.metadata := metadata;
      this.data := data;
    }

    /**
     * Removes the margins named by the crop rectangle, if there is one: the
     * plane becomes the interior rectangle, the rectangle is cleared and the
     * colour filter array is shifted by (left, top) so that every kept sample
     * keeps its filter colour. Without a rectangle nothing changes, so a
     * second crop is a no-op.
     */
    method Crop()
      requires Valid()
      requires metadata.crop.Some? ==> Fits(metadata.crop.value, width, height)
      modifies this
      ensures Valid()
      ensures metadata.crop.None?
      ensures old(metadata.crop).None? ==>
        width == old(width) && height == old(height) && metadata == old(metadata) &&
        data == old(data) && data[..] == old(data[..])
      ensures old(metadata.crop).Some? ==>
        var c := old(metadata.crop).value;
        width == old(width) - (c.left + c.right) &&
        height == old(height) - (c.top + c.bottom) &&
        fresh(data) &&
        data[..] == Cropped(old(data[..]), old(width), old(height), c) &&
        metadata == old(metadata).(crop := None, cfa := old(metadata.cfa).Shift(c.left, c.top))
    {
      if metadata.crop.None? {
        return;
      }
      var crop := metadata.crop.value;

      var newWidth := width - (crop.left + crop.right);
      var newHeight := height - (crop.top + crop.bottom);
      var image := CropPlane(data[..], width, height, crop);
      var plane := NewPlane(image);
      assert plane.Length == newWidth * newHeight;
      var shifted := metadata.cfa.Shift(crop.left, crop.top);
      assert shifted.Valid();

      width := newWidth;
      height := newHeight;
      data := plane;
      metadata := metadata.(crop := None, cfa := shifted);
    }

    /**
     * White balance for float and byte samples: in place, each sample is
     * scaled by the coefficient its filter colour selects (Red wb[0],
     * Green wb[1], Blue wb[2]).
     */
    method WhiteBalanceByColor(scale: (T, real) -> T)
      requires Valid() && metadata.cfa.ThreeColor() && |metadata.whitebalance| >= 3
      modifies data
      ensures Indexes(metadata.cfa, metadata.whitebalance)
      ensures data[..] == WhiteBalanced(old(data[..]), width, height, metadata.cfa, metadata.whitebalance, scale)
    {
      var wb := metadata.whitebalance;
      ThreeColorIndexes(metadata.cfa, wb);
      ghost var balanced := WhiteBalanced(data[..], width, height, metadata.cfa, wb, scale);
      for i := 0 to data.Length
        invariant forall j | 0 <= j < i :: data[j] == balanced[j]
        invariant forall j | i <= j < data.Length :: data[j] == old(data[j])
      {
        FlatOfIndex(width, height, i);
        match ColorAtIndex(metadata.cfa, width, i)
        case Red => data[i] := scale(data[i], wb[0]);
        case Green => data[i] := scale(data[i], wb[1]);
        case Blue => data[i] := scale(data[i], wb[2]);
      }
    }

    /**
     * White balance for 16-bit samples: in place, each sample is scaled by
     * the coefficient indexed directly by its colour ordinal. There is no
     * match and no Emerald case: an Emerald photosite takes wb[3], so every
     * ordinal of the pattern must index the coefficients.
     */
    method WhiteBalanceByOrdinal(scale: (T, real) -> T)
      requires Valid() && Indexes(metadata.cfa, metadata.whitebalance)
      modifies data
      ensures data[..] == WhiteBalanced(old(data[..]), width, height, metadata.cfa, metadata.whitebalance, scale)
    {
      var wb := metadata.whitebalance;
      ghost var balanced := WhiteBalanced(data[..], width, height, metadata.cfa, wb, scale);
      for i := 0 to data.Length
        invariant forall j | 0 <= j < i :: data[j] == balanced[j]
        invariant forall j | i <= j < data.Length :: data[j] == old(data[j])
      {
        FlatOfIndex(width, height, i);
        data[i] := scale(data[i], wb[metadata.cfa.ColorAt(i % width, i / width)]);
      }
    }

    /** The raw sample at pixel p, row-major: index p.1 * width + p.0 of the plane. */
    function Get(p: (nat, nat)): (v: T)
      reads this, data
      requires Valid() && p.0 < width && p.1 < height
      ensures p.1 * width + p.0 < data.Length && v == data[..][p.1 * width + p.0]
    {
      FlatBound(width, height, p.0, p.1);
      data[Flat(width, p.0, p.1)]
    }

    /** Writes v into the channel of colour clr of output pixel (x, y). */
    method Set(rgb: array<T>, x: nat, y: nat, clr: CfaColor, v: T)
      requires Valid() && rgb.Length == 3 * data.Length && x < width && y < height && clr != Emerald
      modifies rgb
      ensures Flat(width, x, y) * 3 + RgbIndex(clr) < rgb.Length
      ensures rgb[Flat(width, x, y) * 3 + RgbIndex(clr)] == v
      ensures forall j | 0 <= j < rgb.Length && j != Flat(width, x, y) * 3 + RgbIndex(clr) :: rgb[j] == old(rgb[j])
    {
      FlatBound(width, height, x, y);
      rgb[Flat(width, x, y) * 3 + RgbIndex(clr)] := v;
    }

    /** A neighbour drawn for colour ordinal k supplies a FromNeighbour sample. */
    lemma DrawnNeighbour(x: nat, y: nat, p: (nat, nat), k: nat)
      requires Valid() && Interior(width, height, x, y) && k < 3
      requires (FromOrdinal(k), p.0, p.1) in Neighbours(metadata.cfa, x, y)
      ensures p.0 < width && p.1 < height
      ensures FromNeighbour(Get(p), data[..], width, height, metadata.cfa, x, y, k)
    {
      var cfa := metadata.cfa;
      assert IsNeighbour(x, y, p.0, p.1) && FromOrdinal(cfa.ColorAt(p.0, p.1)) == FromOrdinal(k);
      FlatBound(width, height, p.0, p.1);
      assert cfa.ColorAt(p.0, p.1) == k;
      assert data[..][Flat(width, p.0, p.1)] == Get(p);
    }

    /**
     * Fills the channel of colour clr of interior pixel (x, y), a colour the
     * pixel lacks, with the sample of a randomly drawn neighbour of that colour.
     */
    method Interpolate(rgb: array<T>, roll: RollingRandom, options: seq<Candidate>, x: nat, y: nat, clr: CfaColor)
      requires Valid() && metadata.cfa.ThreeColor() && NeighboursCover(metadata.cfa, width, height)
      requires rgb.Length == 3 * data.Length && rgb != data
      requires Interior(width, height, x, y) && clr != Emerald && RgbIndex(clr) != metadata.cfa.ColorAt(x, y)
      requires options == Neighbours(metadata.cfa, x, y)
      modifies rgb, roll
      ensures Flat(width, x, y) * 3 + RgbIndex(clr) < rgb.Length
      ensures forall j | 0 <= j < rgb.Length && j != Flat(width, x, y) * 3 + RgbIndex(clr) :: rgb[j] == old(rgb[j])
      ensures ChannelReconstructed(rgb[Flat(width, x, y) * 3 + RgbIndex(clr)], data[..], width, height, metadata.cfa, x, y, RgbIndex(clr))
    {
      CandidateOfColor(metadata.cfa, width, height, x, y, RgbIndex(clr));
      var p := PickColor(roll, options, clr);
      DrawnNeighbour(x, y, p, RgbIndex(clr));
      Set(rgb, x, y, clr, Get(p));
    }

    /**
     * Reconstructs interior pixel (x, y) of rgb: its own sample into its own
     * colour's channel, and for each other colour the sample of a randomly
     * drawn neighbour of that colour, in the order the arm of its colour sets them.
     */
    method ReconstructPixel(rgb: array<T>, roll: RollingRandom, x: nat, y: nat)
      requires Valid() && metadata.cfa.ThreeColor() && NeighboursCover(metadata.cfa, width, height)
      requires rgb.Length == 3 * data.Length && rgb != data
      requires Interior(width, height, x, y)
      modifies rgb, roll
      ensures forall j | 0 <= j < rgb.Length && (j < Flat(width, x, y) * 3 || Flat(width, x, y) * 3 + 3 <= j) ::
        rgb[j] == old(rgb[j])
      ensures Reconstructed(rgb[..], data[..], width, height, metadata.cfa, x, y)
    {
      match FromOrdinal(metadata.cfa.ColorAt(x, y))
      case Red => ReconstructRedSite(rgb, roll, x, y);
      case Blue => ReconstructBlueSite(rgb, roll, x, y);
      case Green => ReconstructGreenSite(rgb, roll, x, y);
    }

    /** A red photosite: Red from itself, then Green, then Blue from neighbours. */
    method ReconstructRedSite(rgb: array<T>, roll: RollingRandom, x: nat, y: nat)
      requires Valid() && metadata.cfa.ThreeColor() && NeighboursCover(metadata.cfa, width, height)
      requires rgb.Length == 3 * data.Length && rgb != data
      requires Interior(width, height, x, y)
      requires metadata.cfa.ColorAt(x, y) == 0
      modifies rgb, roll
      ensures forall j | 0 <= j < rgb.Length && (j < Flat(width, x, y) * 3 || Flat(width, x, y) * 3 + 3 <= j) ::
        rgb[j] == old(rgb[j])
      ensures Reconstructed(rgb[..], data[..], width, height, metadata.cfa, x, y)
    {
      var options := Neighbours(metadata.cfa, x, y);
      FlatBound(width, height, x, y);
      Set(rgb, x, y, Red, Get((x, y)));
      Interpolate(rgb, roll, options, x, y, Green);
      Interpolate(rgb, roll, options, x, y, Blue);
    }

    /** A blue photosite: Red from a neighbour, Blue from itself, then Green from a neighbour. */
    method ReconstructBlueSite(rgb: array<T>, roll: RollingRandom, x: nat, y: nat)
      requires Valid() && metadata.cfa.ThreeColor() && NeighboursCover(metadata.cfa, width, height)
      requires rgb.Length == 3 * data.Length && rgb != data
      requires Interior(width, height, x, y)
      requires metadata.cfa.ColorAt(x, y) == 2
      modifies rgb, roll
      ensures forall j | 0 <= j < rgb.Length && (j < Flat(width, x, y) * 3 || Flat(width, x, y) * 3 + 3 <= j) ::
        rgb[j] == old(rgb[j])
      ensures Reconstructed(rgb[..], data[..], width, height, metadata.cfa, x, y)
    {
      var options := Neighbours(metadata.cfa, x, y);
      FlatBound(width, height, x, y);
      Interpolate(rgb, roll, options, x, y, Red);
      Set(rgb, x, y, Blue, Get((x, y)));
      Interpolate(rgb, roll, options, x, y, Green);
    }

    /** A green photosite: Red, then Blue from neighbours, Green from itself. */
    method ReconstructGreenSite(rgb: array<T>, roll: RollingRandom, x: nat, y: nat)
      requires Valid() && metadata.cfa.ThreeColor() && NeighboursCover(metadata.cfa, width, height)
      requires rgb.Length == 3 * data.Length && rgb != data
      requires Interior(width, height, x, y)
      requires metadata.cfa.ColorAt(x, y) == 1
      modifies rgb, roll
      ensures forall j | 0 <= j < rgb.Length && (j < Flat(width, x, y) * 3 || Flat(width, x, y) * 3 + 3 <= j) ::
        rgb[j] == old(rgb[j])
      ensures Reconstructed(rgb[..], data[..], width, height, metadata.cfa, x, y)
    {
      var options := Neighbours(metadata.cfa, x, y);
      FlatBound(width, height, x, y);
      Interpolate(rgb, roll, options, x, y, Red);
      Interpolate(rgb, roll, options, x, y, Blue);
      Set(rgb, x, y, Green, Get((x, y)));
    }

    /**
     * The inner loop of the demosaic engine: reconstructs the interior pixels
     * of column x from top to bottom, so that every column before x + 1 is done.
     */
    method DebayerColumn(rgb: array<T>, roll: RollingRandom, x: nat)
      requires Valid() && metadata.cfa.ThreeColor() && NeighboursCover(metadata.cfa, width, height)
      requires rgb != data && 1 <= x && x + 1 < width
      requires Progress(rgb[..], data[..], width, height, metadata.cfa, x, 1)
      modifies rgb, roll
      ensures Progress(rgb[..], data[..], width, height, metadata.cfa, x + 1, 1)
    {
      var y := 1;
      while y + 1 < height
        invariant 1 <= y && (y == 1 || y + 1 <= height)
        invariant Progress(rgb[..], data[..], width, height, metadata.cfa, x, y)
        decreases height - y
      {
        ghost var before := rgb[..];
        ReconstructPixel(rgb, roll, x, y);
        ProgressStep(before, rgb[..], data[..], width, height, metadata.cfa, x, y);
        y := y + 1;
      }
      ProgressColumn(rgb[..], data[..], width, height, metadata.cfa, x, y);
    }

    /**
     * Demosaics the sensor plane into a fresh linear-RGB image of the same
     * size and metadata, drawing neighbour choices from a sampler yielding
     * `bytes`. Interior pixels are reconstructed; the outer ring keeps the
     * fill value data[0] in all three channels.
     */
    method Debayer(bytes: nat -> Byte) returns (rgbImage: LinRgbImage<T>)
      requires Valid() && data.Length > 0
      requires metadata.cfa.ThreeColor() && NeighboursCover(metadata.cfa, width, height)
      ensures fresh(rgbImage) && fresh(rgbImage.data) && rgbImage.Valid()
      ensures rgbImage.width == width && rgbImage.height == height && rgbImage.metadata == metadata
      ensures rgbImage.data.Length == width * height * 3
      ensures Debayered(rgbImage.data[..], data[..], width, height, metadata.cfa)
    {
      var fill := data[0];
      var rgb := new T[width * height * 3](_ => fill);

      var cfa := metadata.cfa;
      var rr := new RollingRandom(bytes);

      ProgressStart(rgb[..], data[..], width, height, cfa);
      var x := 1;
      while x + 1 < width
        invariant 1 <= x && (x == 1 || x + 1 <= width)
        invariant Progress(rgb[..], data[..], width, height, cfa, x, 1)
        decreases width - x
      {
        DebayerColumn(rgb, rr, x);
        x := x + 1;
      }
      ProgressDone(rgb[..], data[..], width, height, cfa, x);

      rgbImage := new LinRgbImage(width, height, metadata, rgb);
    }
  }
}
