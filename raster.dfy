/** The walk over the rasterized text: an RGBA byte buffer of `width * height`
    pixels is visited on a grid of stride `skip`, rows outer and columns inner,
    and every pixel whose alpha exceeds 128 becomes a sample. */
module Raster {
  import Arith

  type Byte = b: int | 0 <= b < 256

  datatype Color = Rgb(r: Byte, g: Byte, b: Byte)

  /** One accepted pixel: its grid coordinates and its colour. */
  datatype Sample = Sample(x: nat, y: nat, color: Color)

  const AlphaThreshold: int := 128

  /** The buffer holds four bytes (r, g, b, alpha) per pixel, row by row. */
  predicate WellSized(data: seq<Byte>, width: nat, height: nat)
  {
    |data| == 4 * width * height
  }

  function PixelIndex(width: nat, x: nat, y: nat): nat
  {
    (y * width + x) * 4
  }

  /** Every byte the walk reads, up to the alpha byte, lies inside the buffer. */
  lemma IndexInBounds(width: nat, height: nat, x: nat, y: nat)
    requires x < width && y < height
    ensures PixelIndex(width, x, y) + 3 < 4 * width * height
  {
    Arith.MulMono(y + 1, height, width);
    assert (y + 1) * width == y * width + width;
    assert 4 * width * height == 4 * (height * width);
  }

  function Alpha(data: seq<Byte>, width: nat, height: nat, x: nat, y: nat): Byte
    requires WellSized(data, width, height) && x < width && y < height
  {
    IndexInBounds(width, height, x, y);
    data[PixelIndex(width, x, y) + 3]
  }

  function ColorAt(data: seq<Byte>, width: nat, height: nat, x: nat, y: nat): Color
    requires WellSized(data, width, height) && x < width && y < height
  {
    IndexInBounds(width, height, x, y);
    var i := PixelIndex(width, x, y);
    Rgb(data[i], data[i + 1], data[i + 2])
  }

  /** Walking row `y` of the grid, then the rows below it. */
  lemma GridStep(data: seq<Byte>, width: nat, height: nat, skip: nat, y: nat, seen: seq<Sample>, all: seq<Sample>)
    requires WellSized(data, width, height) && skip > 0 && y < height
    requires seen + GridFrom(data, width, height, skip, y) == all
    ensures (seen + RowFrom(data, width, height, skip, y, 0)) + GridFrom(data, width, height, skip, y + skip) == all
  {
    assert GridFrom(data, width, height, skip, y)
        == RowFrom(data, width, height, skip, y, 0) + GridFrom(data, width, height, skip, y + skip);
  }

  /** The rebuild's read of pixel (x, y): its alpha byte and its colour. */
  method ReadPixel(data: seq<Byte>, width: nat, height: nat, x: nat, y: nat) returns (alpha: Byte, color: Color)
    requires WellSized(data, width, height) && x < width && y < height
    ensures alpha == Alpha(data, width, height, x, y) && color == ColorAt(data, width, height, x, y)
  {
    var index := (y * width + x) * 4;
    IndexInBounds(width, height, x, y);
    alpha := data[index + 3];
    color := Rgb(data[index], data[index + 1], data[index + 2]);
  }

  /** The samples of row `y`, from column `x` on. */
  function RowFrom(data: seq<Byte>, width: nat, height: nat, skip: nat, y: nat, x: nat): (r: seq<Sample>)
    requires WellSized(data, width, height) && skip > 0 && y < height
    ensures forall i :: 0 <= i < |r| ==> r[i].y == y && x <= r[i].x < width
    decreases width - x
  {
    if x >= width then []
    else
      (if Alpha(data, width, height, x, y) > AlphaThreshold
       then [Sample(x, y, ColorAt(data, width, height, x, y))] else [])
      + RowFrom(data, width, height, skip, y, x + skip)
  }

  /** The samples of the rows from `y` on, in row-major order. */
  function GridFrom(data: seq<Byte>, width: nat, height: nat, skip: nat, y: nat): (r: seq<Sample>)
    requires WellSized(data, width, height) && skip > 0
    ensures forall i :: 0 <= i < |r| ==> y <= r[i].y < height && r[i].x < width
    decreases height - y
  {
    if y >= height then []
    else RowFrom(data, width, height, skip, y, 0) + GridFrom(data, width, height, skip, y + skip)
  }

  /** Everything the walk accepts, in visiting order. */
  function Samples(data: seq<Byte>, width: nat, height: nat, skip: nat): (r: seq<Sample>)
    requires WellSized(data, width, height) && skip > 0
    ensures forall i :: 0 <= i < |r| ==> r[i].x < width && r[i].y < height
  {
    GridFrom(data, width, height, skip, 0)
  }

  /** A point of the stride grid inside the canvas whose pixel is opaque enough,
      carrying that pixel's colour. */
  predicate Accepted(data: seq<Byte>, width: nat, height: nat, skip: nat, s: Sample)
    requires WellSized(data, width, height) && skip > 0
  {
    s.x < width && s.y < height && s.x % skip == 0 && s.y % skip == 0
    && Alpha(data, width, height, s.x, s.y) > AlphaThreshold
    && s.color == ColorAt(data, width, height, s.x, s.y)
  }

  /** Row-major order: earlier row, or same row and earlier column. */
  predicate Before(a: Sample, b: Sample)
  {
    a.y < b.y || (a.y == b.y && a.x < b.x)
  }

  predicate RowMajor(ss: seq<Sample>)
  {
    forall i, j :: 0 <= i < j < |ss| ==> Before(ss[i], ss[j])
  }

  lemma {:induction false} RowFromMembers(data: seq<Byte>, width: nat, height: nat, skip: nat, y: nat, x: nat, s: Sample)
    requires WellSized(data, width, height) && skip > 0 && y < height
    ensures s in RowFrom(data, width, height, skip, y, x) <==>
      (s.y == y && x <= s.x < width && (s.x - x) % skip == 0
       && Alpha(data, width, height, s.x, y) > AlphaThreshold
       && s.color == ColorAt(data, width, height, s.x, y))
    decreases width - x
  {
    if x < width {
      RowFromMembers(data, width, height, skip, y, x + skip, s);
      if x <= s.x {
        Arith.ModStep(s.x, x, skip);
      }
    }
  }

  lemma {:induction false} GridFromMembers(data: seq<Byte>, width: nat, height: nat, skip: nat, y: nat, s: Sample)
    requires WellSized(data, width, height) && skip > 0
    ensures s in GridFrom(data, width, height, skip, y) <==>
      (y <= s.y < height && (s.y - y) % skip == 0 && s.x < width && s.x % skip == 0
       && Alpha(data, width, height, s.x, s.y) > AlphaThreshold
       && s.color == ColorAt(data, width, height, s.x, s.y))
    decreases height - y
  {
    if y < height {
      var row, rest := RowFrom(data, width, height, skip, y, 0), GridFrom(data, width, height, skip, y + skip);
      assert GridFrom(data, width, height, skip, y) == row + rest;
      assert s in row + rest <==> s in row || s in rest;
      RowFromMembers(data, width, height, skip, y, 0, s);
      GridFromMembers(data, width, height, skip, y + skip, s);
      if y <= s.y {
        Arith.ModStep(s.y, y, skip);
      }
    }
  }

  /** The samples are exactly the accepted grid points. */
  lemma SamplesAreAccepted(data: seq<Byte>, width: nat, height: nat, skip: nat, s: Sample)
    requires WellSized(data, width, height) && skip > 0
    ensures s in Samples(data, width, height, skip) <==> Accepted(data, width, height, skip, s)
  {
    GridFromMembers(data, width, height, skip, 0, s);
  }

  lemma {:induction false} RowFromOrdered(data: seq<Byte>, width: nat, height: nat, skip: nat, y: nat, x: nat)
    requires WellSized(data, width, height) && skip > 0 && y < height
    ensures RowMajor(RowFrom(data, width, height, skip, y, x))
    ensures forall s :: s in RowFrom(data, width, height, skip, y, x) ==> s.y == y && x <= s.x
    decreases width - x
  {
    if x < width {
      var rest := RowFrom(data, width, height, skip, y, x + skip);
      RowFromOrdered(data, width, height, skip, y, x + skip);
      if Alpha(data, width, height, x, y) > AlphaThreshold {
        var row := RowFrom(data, width, height, skip, y, x);
        assert row == [Sample(x, y, ColorAt(data, width, height, x, y))] + rest;
        forall i, j | 0 <= i < j < |row|
          ensures Before(row[i], row[j])
        {
          assert row[j] == rest[j - 1] && rest[j - 1] in rest;
        }
      }
    }
  }

  lemma {:induction false} GridFromOrdered(data: seq<Byte>, width: nat, height: nat, skip: nat, y: nat)
    requires WellSized(data, width, height) && skip > 0
    ensures RowMajor(GridFrom(data, width, height, skip, y))
    ensures forall s :: s in GridFrom(data, width, height, skip, y) ==> y <= s.y
    decreases height - y
  {
    if y < height {
      RowFromOrdered(data, width, height, skip, y, 0);
      GridFromOrdered(data, width, height, skip, y + skip);
      var row, rest := RowFrom(data, width, height, skip, y, 0), GridFrom(data, width, height, skip, y + skip);
      assert forall i :: 0 <= i < |row| ==> row[i] in row;
      assert forall j :: 0 <= j < |rest| ==> rest[j] in rest;
    }
  }

  /** The samples come in the walk's visiting order, rows outer and columns
      inner, each grid point at most once. */
  lemma SamplesInVisitingOrder(data: seq<Byte>, width: nat, height: nat, skip: nat)
    requires WellSized(data, width, height) && skip > 0
    ensures RowMajor(Samples(data, width, height, skip))
  {
    GridFromOrdered(data, width, height, skip, 0);
  }
}
