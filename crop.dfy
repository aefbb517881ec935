/**
 * The crop stage on values: which samples of a row-major sensor plane survive
 * a crop rectangle, and where they land.
 */
module CropStage {
  import opened Geometry
  import opened Colors
  import opened Cfa

  /** Margins, in sensor pixels, to remove from each side of the plane. */
  datatype CropRect = CropRect(left: nat, right: nat, top: nat, bottom: nat)

  /** The margins fit inside a width x height plane, so the new size does not underflow. */
  predicate Fits(c: CropRect, width: nat, height: nat)
  {
    c.left + c.right <= width && c.top + c.bottom <= height
  }

  /**
   * The first `rows` rows of the cropped plane: for each source row
   * top, top + 1, ..., the `newWidth` samples starting at column `left`,
   * appended in order.
   */
  function CropRows<T>(s: seq<T>, width: nat, height: nat, left: nat, newWidth: nat, top: nat, rows: nat): (r: seq<T>)
    requires |s| == width * height
    requires left + newWidth <= width && top + rows <= height
    ensures |r| == newWidth * rows
    decreases rows
  {
    if rows == 0 then []
    else
      var y := top + rows - 1;
      RowInPlane(width, height, y);
      CropRows(s, width, height, left, newWidth, top, rows - 1)
        + s[Flat(width, left, y)..Flat(width, left, y) + newWidth]
  }

  /** Pixel (x, y) of the cropped rows is source pixel (x + left, y + top). */
  lemma {:induction false} CropRowsAt<T>(s: seq<T>, width: nat, height: nat, left: nat, newWidth: nat, top: nat, rows: nat, x: nat, y: nat)
    requires |s| == width * height
    requires left + newWidth <= width && top + rows <= height
    requires x < newWidth && y < rows
    ensures Flat(newWidth, x, y) < newWidth * rows
    ensures Flat(width, x + left, y + top) < |s|
    ensures CropRows(s, width, height, left, newWidth, top, rows)[Flat(newWidth, x, y)]
         == s[Flat(width, x + left, y + top)]
  {
    var r := CropRows(s, width, height, left, newWidth, top, rows);
    var prefix := CropRows(s, width, height, left, newWidth, top, rows - 1);
    var last := top + rows - 1;
    RowInPlane(width, height, last);
    var row := s[Flat(width, left, last)..Flat(width, left, last) + newWidth];
    assert r == prefix + row;
    FlatBound(width, height, x + left, y + top);
    if y < rows - 1 {
      CropRowsAt(s, width, height, left, newWidth, top, rows - 1, x, y);
    } else {
      LastRowStart(newWidth, rows, y);
      assert Flat(newWidth, x, y) == |prefix| + x;
      assert r[Flat(newWidth, x, y)] == row[x];
    }
  }

  /** The last of `rows` rows of width `newWidth` starts after the other rows' samples. */
  lemma LastRowStart(newWidth: nat, rows: nat, y: nat)
    requires y + 1 == rows
    ensures Flat(newWidth, 0, y) == newWidth * (rows - 1)
  {
  }

  /** Width of the plane after removing the left and right margins. */
  function NewWidth(c: CropRect, width: nat): nat
    requires c.left + c.right <= width
  {
    width - (c.left + c.right)
  }

  /** Height of the plane after removing the top and bottom margins. */
  function NewHeight(c: CropRect, height: nat): nat
    requires c.top + c.bottom <= height
  {
    height - (c.top + c.bottom)
  }

  /**
   * The samples of a width x height plane that lie inside the margins of `c`,
   * row-major, one row of the new width per row of the new height.
   */
  function Cropped<T>(s: seq<T>, width: nat, height: nat, c: CropRect): (r: seq<T>)
    requires |s| == width * height && Fits(c, width, height)
    ensures |r| == NewWidth(c, width) * NewHeight(c, height)
  {
    CropRows(s, width, height, c.left, NewWidth(c, width), c.top, NewHeight(c, height))
  }

  /** Pixel (x, y) of the cropped plane is source pixel (x + left, y + top). */
  lemma CroppedAt<T>(s: seq<T>, width: nat, height: nat, c: CropRect, x: nat, y: nat)
    requires |s| == width * height && Fits(c, width, height)
    requires x < NewWidth(c, width) && y < NewHeight(c, height)
    ensures Flat(NewWidth(c, width), x, y) < |Cropped(s, width, height, c)|
    ensures Flat(width, x + c.left, y + c.top) < |s|
    ensures Cropped(s, width, height, c)[Flat(NewWidth(c, width), x, y)] == s[Flat(width, x + c.left, y + c.top)]
  {
    CropRowsAt(s, width, height, c.left, NewWidth(c, width), c.top, NewHeight(c, height), x, y);
  }

  /**
   * Every retained sample keeps its filter colour: read through the pattern
   * shifted by (left, top), flat position i of the cropped plane has the colour
   * its source position had before the crop.
   */
  lemma CroppedKeepsColors<T>(s: seq<T>, width: nat, height: nat, c: CropRect, cfa: Cfa, x: nat, y: nat)
    requires |s| == width * height && Fits(c, width, height) && cfa.Valid()
    requires x < NewWidth(c, width) && y < NewHeight(c, height)
    ensures ColorAtIndex(cfa.Shift(c.left, c.top), NewWidth(c, width), Flat(NewWidth(c, width), x, y))
         == ColorAtIndex(cfa, width, Flat(width, x + c.left, y + c.top))
  {
    ColorAtIndexOfPixel(cfa.Shift(c.left, c.top), NewWidth(c, width), x, y);
    ColorAtIndexOfPixel(cfa, width, x + c.left, y + c.top);
  }
}
