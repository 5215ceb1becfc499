/**
 * The patch arithmetic of `Raster.get_patch` in `raster_provider.py`: the
 * pixel a GPS position falls in, the window read around it, the size the
 * window is resized to, the centre crop, and the encoding of the cropped
 * patch as one band, one band per category (`compute_cat_patch`) or one
 * band per biome (`compute_ecoregions_per_biome_patch`).
 *
 * `cv2.resize` is a parameter: given the window and the number of rows and
 * columns asked for, it returns the resized grid or `None` for a cv2 error.
 * The cosine of the latitude, which sizes the window's width, is a parameter
 * too.
 */
module RasterPatches {
  import opened Wrappers
  import opened Numeric
  import opened NdArrays
  import opened Ecoregions

  /** Metres per arc-second along a meridian (`EQUATOR_ARC_SECOND_IN_METERS`). */
  const EquatorArcSecondInMeters: real := 30.87

  /** Where a raster lies: its west and south edges, its cell sizes, its rows and columns. */
  datatype Geometry = Geometry(xMin: real, yMin: real, xRes: real, yRes: real, nRows: int, nCols: int)

  /** The cells of a patch in row-major order, and its shape (`[]` for a single cell). */
  datatype RawPatch = RawPatch(pixels: seq<real>, shape: seq<nat>)

  /** `cv2.resize(window, dsize=(cols, rows))`: a `rows` by `cols` grid, or `None` for a cv2 error. */
  type Resizer = (Grid, int, int) -> Option<Grid>

  /** What a successful resize returns has the shape asked for. */
  ghost predicate ResizeKeepsShape(resize: Resizer)
  {
    forall w, rows, cols :: resize(w, rows, cols).Some? ==>
      rows >= 0 && cols >= 0 && IsRect(resize(w, rows, cols).value, rows as nat, cols as nat)
  }

  // ---------------------------------------------------------------------------
  // From a position to a pixel.

  /** `int(n_rows - (lat - y_min) / y_resolution)`: the row of latitude `lat`, counted from the top. */
  function RowNum(lat: real, g: Geometry): (r: Result<int>)
    ensures r.Raise? <==> g.yRes == 0.0
    ensures r.Raise? ==> r.exc == ZeroDivisionError
  {
    if g.yRes == 0.0 then Raise(ZeroDivisionError) else Ok(Trunc(g.nRows as real - (lat - g.yMin) / g.yRes))
  }

  /** `int((lng - x_min) / x_resolution)`: the column of longitude `lng`. */
  function ColNum(lng: real, g: Geometry): (r: Result<int>)
    ensures r.Raise? <==> g.xRes == 0.0
    ensures r.Raise? ==> r.exc == ZeroDivisionError
  {
    if g.xRes == 0.0 then Raise(ZeroDivisionError) else Ok(Trunc((lng - g.xMin) / g.xRes))
  }

  /** A latitude strictly above the south edge and at most the north edge falls in a row of the raster. */
  lemma RowNumInRaster(lat: real, g: Geometry)
    requires g.yRes > 0.0
    requires g.yMin < lat <= g.yMin + g.nRows as real * g.yRes
    ensures RowNum(lat, g).Ok? && 0 <= RowNum(lat, g).value < g.nRows
  {
    var t := (lat - g.yMin) / g.yRes;
    assert 0.0 < t <= g.nRows as real by {
      assert lat - g.yMin <= g.nRows as real * g.yRes;
      assert t * g.yRes == lat - g.yMin;
    }
  }

  /** A longitude from the west edge up to (but not including) the east edge falls in a column of the raster. */
  lemma ColNumInRaster(lng: real, g: Geometry)
    requires g.xRes > 0.0
    requires g.xMin <= lng < g.xMin + g.nCols as real * g.xRes
    ensures ColNum(lng, g).Ok? && 0 <= ColNum(lng, g).value < g.nCols
  {
    var t := (lng - g.xMin) / g.xRes;
    assert 0.0 <= t < g.nCols as real by {
      assert t * g.xRes == lng - g.xMin;
    }
  }

  // ---------------------------------------------------------------------------
  // Windows and crops.

  /** How many elements `s[a:b]` has, for `s` of length `n`. */
  function SliceLen(n: nat, a: int, b: int): nat
  {
    if SliceIndex(a, n) >= SliceIndex(b, n) then 0 else SliceIndex(b, n) - SliceIndex(a, n)
  }

  lemma PySliceAt<T>(s: seq<T>, a: int, b: int)
    ensures |PySlice(s, a, b)| == SliceLen(|s|, a, b)
    ensures forall i :: 0 <= i < |PySlice(s, a, b)| ==> PySlice(s, a, b)[i] == s[SliceIndex(a, |s|) + i]
  {
  }

  /** `g[r0:r1, c0:c1]` on a two-dimensional array. */
  function SubGrid(g: Grid, r0: int, r1: int, c0: int, c1: int): (s: Grid)
    ensures |s| == SliceLen(|g|, r0, r1)
    ensures forall i :: 0 <= i < |s| ==> s[i] == PySlice(g[SliceIndex(r0, |g|) + i], c0, c1)
  {
    PySliceAt(g, r0, r1);
    var rows := PySlice(g, r0, r1);
    seq(|rows|, i requires 0 <= i < |rows| => PySlice(rows[i], c0, c1))
  }

  /** A window of a rectangular grid is rectangular. */
  lemma SubGridRect(g: Grid, h: nat, w: nat, r0: int, r1: int, c0: int, c1: int)
    requires IsRect(g, h, w)
    ensures IsRect(SubGrid(g, r0, r1, c0, c1), SliceLen(h, r0, r1), SliceLen(w, c0, c1))
  {
    var s := SubGrid(g, r0, r1, c0, c1);
    forall i | 0 <= i < |s|
      ensures |s[i]| == SliceLen(w, c0, c1)
    {
      PySliceAt(g[SliceIndex(r0, h) + i], c0, c1);
    }
  }

  /** `np.full((h, w), v)`. */
  function Full(h: nat, w: nat, v: real): (g: Grid)
    ensures IsRect(g, h, w)
    ensures forall i, j :: 0 <= i < h && 0 <= j < w ==> g[i][j] == v
  {
    seq(h, i => seq(w, j => v))
  }

  /** `n // 2 - size // 2`: where the centred crop starts along an axis of length `n`. */
  function CropStart(n: nat, size: int): int
  {
    n / 2 - FloorDiv(size, 2)
  }

  /** `patch[starty:starty + size, startx:startx + size]`. */
  function CentreCrop(p: Grid, h: nat, w: nat, size: int): Grid
  {
    SubGrid(p, CropStart(h, size), CropStart(h, size) + size, CropStart(w, size), CropStart(w, size) + size)
  }

  /** On an axis at least `size` long the crop lies inside it. */
  lemma CropStartInside(n: nat, size: nat)
    requires size <= n
    ensures 0 <= CropStart(n, size) && CropStart(n, size) + size <= n
  {
    assert FloorDiv(size, 2) == size / 2;
  }

  /**
   * A grid at least `size` by `size` is cropped to exactly `size` by `size`,
   * the block whose top-left corner is at `(h // 2 - size // 2, w // 2 - size // 2)`.
   */
  lemma CropExact(p: Grid, h: nat, w: nat, size: nat)
    requires IsRect(p, h, w) && size <= h && size <= w
    ensures IsRect(CentreCrop(p, h, w, size), size, size)
    ensures forall i, j :: 0 <= i < size && 0 <= j < size ==>
      CentreCrop(p, h, w, size)[i][j] == p[CropStart(h, size) + i][CropStart(w, size) + j]
  {
    var y0, x0 := CropStart(h, size), CropStart(w, size);
    CropStartInside(h, size);
    CropStartInside(w, size);
    var c := SubGrid(p, y0, y0 + size, x0, x0 + size);
    assert CentreCrop(p, h, w, size) == c;
    BlockInside(p, h, w, y0, x0, size, c);
    assert IsRect(c, size, size);
  }

  /** An `n` by `n` block lying inside a rectangular grid is cut out cell for cell. */
  lemma BlockInside(p: Grid, h: nat, w: nat, y0: nat, x0: nat, n: nat, c: Grid)
    requires IsRect(p, h, w) && y0 + n <= h && x0 + n <= w
    requires c == SubGrid(p, y0, y0 + n, x0, x0 + n)
    ensures IsRect(c, n, n)
    ensures forall i :: 0 <= i < n ==> c[i] == p[y0 + i][x0..x0 + n]
  {
    assert |c| == n;
    forall i | 0 <= i < n
      ensures |c[i]| == n && c[i] == p[y0 + i][x0..x0 + n]
    {
      assert c[i] == PySlice(p[y0 + i], x0, x0 + n);
      assert |p[y0 + i]| == w;
    }
  }

  // ---------------------------------------------------------------------------
  // Sizing the window.

  /** `max(4, np.ceil((size * 1.5) * (res / pixel)))`: the window's side, in cells. */
  function BrutSide(size: int, res: real, pixel: real): (b: real)
    requires pixel != 0.0
    ensures b >= 4.0 && b >= size as real * 1.5 * (res / pixel)
  {
    var c := Ceil(size as real * 1.5 * (res / pixel)) as real;
    if 4.0 >= c then 4.0 else c
  }

  /** `round(side * (pixel / res))`: the side, in cells, asked of the resize. */
  function RunningSide(side: real, pixel: real, res: real): int
    requires res != 0.0
  {
    Round(side * (pixel / res))
  }

  /** The resize is always asked for at least `size` cells per side: the window covers 1.5 times the patch. */
  lemma RunningSideCovers(size: nat, res: real, pixel: real)
    requires pixel > 0.0 && res > 0.0
    ensures RunningSide(BrutSide(size, res, pixel), pixel, res) >= size
  {
    var b := BrutSide(size, res, pixel);
    var c := size as real * 1.5;
    var q := pixel / res;
    assert q > 0.0;
    assert (res / pixel) * q == 1.0;
    assert b * q >= c * (res / pixel) * q;
    assert c * (res / pixel) * q == c;
    assert b * q >= size as real;
  }

  // ---------------------------------------------------------------------------
  // Reading a patch.

  /** A grid together with its number of rows and columns. */
  datatype Sized = Sized(grid: Grid, h: nat, w: nat)

  /** `raster[row - side0 // 2 : row + side0 // 2, col - side1 // 2 : col + side1 // 2]`: the window around the pixel. */
  function Window(cells: Grid, row: int, col: int, b0: real, b1: real): Grid
  {
    var h0, h1 := Trunc(b0 / 2.0), Trunc(b1 / 2.0);
    SubGrid(cells, row - h0, row + h0, col - h1, col + h1)
  }

  /** The resized window or, when cv2 fails, `np.full((size, size), new_nan)`, which raises ValueError for a negative size. */
  function Resized(window: Grid, rows: int, cols: int, size: int, newNan: real, resize: Resizer): (r: Result<Sized>)
    requires ResizeKeepsShape(resize)
    ensures r.Ok? ==> IsRect(r.value.grid, r.value.h, r.value.w)
  {
    match resize(window, rows, cols)
    case Some(g) => Ok(Sized(g, rows, cols))
    case None => if size < 0 then Raise(ValueError) else Ok(Sized(Full(size, size, newNan), size, size))
  }

  /** The centre crop of a resized patch, flattened, with its shape. */
  function Crop(s: Sized, size: int): (r: RawPatch)
    requires IsRect(s.grid, s.h, s.w)
    ensures |r.pixels| == Product(r.shape) && |r.shape| == 2
  {
    var y0, x0 := CropStart(s.h, size), CropStart(s.w, size);
    var crop := CentreCrop(s.grid, s.h, s.w, size);
    var cw := SliceLen(s.w, x0, x0 + size);
    SubGridRect(s.grid, s.h, s.w, y0, y0 + size, x0, x0 + size);
    FlattenGridLength(crop, |crop|, cw);
    ProductPair(|crop|, cw);
    RawPatch(FlattenGrid(crop), [|crop|, cw])
  }

  lemma ProductPair(a: nat, b: nat)
    ensures Product([a, b]) == a * b
  {
    assert [a, b][1..] == [b] && [b][1..] == [];
    assert Product([b]) == b * Product([]);
  }

  lemma PositiveProduct(a: real, b: real)
    requires a > 0.0 && b > 0.0
    ensures a * b > 0.0
  {
  }

  /** A resize asked for at least `size` cells per side gives a grid at least that large, and so does the fallback. */
  lemma ResizedCovers(window: Grid, rows: int, cols: int, size: nat, newNan: real, resize: Resizer)
    requires ResizeKeepsShape(resize)
    requires rows >= size && cols >= size
    ensures Resized(window, rows, cols, size, newNan, resize).Ok?
    ensures Resized(window, rows, cols, size, newNan, resize).value.h >= size
    ensures Resized(window, rows, cols, size, newNan, resize).value.w >= size
  {
  }

  /** A patch at least `size` cells per side is cropped to `size` by `size`. */
  lemma CropSquare(s: Sized, size: nat)
    requires IsRect(s.grid, s.h, s.w) && size <= s.h && size <= s.w
    ensures Crop(s, size).shape == [size, size]
    ensures Crop(s, size).pixels == FlattenGrid(CentreCrop(s.grid, s.h, s.w, size))
  {
    CropExact(s.grid, s.h, s.w, size);
    CropStartInside(s.w, size);
  }

  /**
   * The patch read around pixel `(row, col)` when `size != 1`, for pixel
   * sides `latPixel` and `lngPixel` in metres: a window of `2 * (side // 2)`
   * cells per side is sliced around the pixel, resized, and centre-cropped
   * to `size`; when the resize fails the patch is a `size` by `size` grid
   * of `new_nan`.
   */
  function PatchAround(cells: Grid, row: int, col: int, size: int, res: real, latPixel: real, lngPixel: real,
                       newNan: real, resize: Resizer): (r: Result<RawPatch>)
    requires ResizeKeepsShape(resize)
    requires latPixel != 0.0 && lngPixel != 0.0 && res != 0.0
    ensures r.Ok? ==> |r.value.pixels| == Product(r.value.shape) && |r.value.shape| == 2
  {
    var b0, b1 := BrutSide(size, res, latPixel), BrutSide(size, res, lngPixel);
    var rows, cols := RunningSide(b0, latPixel, res), RunningSide(b1, lngPixel, res);
    var s := Resized(Window(cells, row, col, b0, b1), rows, cols, size, newNan, resize);
    if s.Raise? then Raise(s.exc) else Ok(Crop(s.value, size))
  }

  /**
   * The patch `get_patch` reads at pixel `(row, col)` before encoding it.
   * With `size == 1` it is the single cell `raster[row, col]` (NumPy
   * indexing: a negative index counts from the end, an index out of range
   * raises IndexError); otherwise it is `PatchAround` the pixel. A zero
   * pixel size or resolution raises ZeroDivisionError.
   */
  function ReadPatch(cells: Grid, width: nat, newNan: real, rasterRes: real, row: int, col: int,
                     size: int, res: real, cosLat: real, resize: Resizer): (r: Result<RawPatch>)
    requires forall i :: 0 <= i < |cells| ==> |cells[i]| == width
    requires ResizeKeepsShape(resize)
    ensures r.Ok? ==> |r.value.pixels| == Product(r.value.shape)
    ensures r.Ok? ==> |r.value.shape| == if size == 1 then 0 else 2
  {
    if size == 1 then
      var i := PyIndex(|cells|, row);
      var j := PyIndex(width, col);
      if i.None? || j.None? then Raise(IndexError)
      else Ok(RawPatch([cells[i.value][j.value]], []))
    else
      var latPixel := EquatorArcSecondInMeters * rasterRes;
      var lngPixel := EquatorArcSecondInMeters * cosLat * rasterRes;
      if latPixel == 0.0 || lngPixel == 0.0 || res == 0.0 then Raise(ZeroDivisionError)
      else PatchAround(cells, row, col, size, res, latPixel, lngPixel, newNan, resize)
  }

  /** With `size == 1` the patch is the one cell at the pixel. */
  lemma ReadOneCell(cells: Grid, width: nat, newNan: real, rasterRes: real, row: nat, col: nat,
                    res: real, cosLat: real, resize: Resizer)
    requires forall i :: 0 <= i < |cells| ==> |cells[i]| == width
    requires ResizeKeepsShape(resize)
    requires row < |cells| && col < width
    ensures ReadPatch(cells, width, newNan, rasterRes, row, col, 1, res, cosLat, resize)
         == Ok(RawPatch([cells[row][col]], []))
  {
  }

  /** Past the single-cell case and the divisions, the patch is the one read around the pixel. */
  lemma ReadPatchAround(cells: Grid, width: nat, newNan: real, rasterRes: real, row: int, col: int,
                        size: int, res: real, cosLat: real, resize: Resizer, latPixel: real, lngPixel: real)
    requires forall i :: 0 <= i < |cells| ==> |cells[i]| == width
    requires ResizeKeepsShape(resize)
    requires size != 1 && res != 0.0
    requires latPixel == EquatorArcSecondInMeters * rasterRes && latPixel != 0.0
    requires lngPixel == EquatorArcSecondInMeters * cosLat * rasterRes && lngPixel != 0.0
    ensures ReadPatch(cells, width, newNan, rasterRes, row, col, size, res, cosLat, resize)
         == PatchAround(cells, row, col, size, res, latPixel, lngPixel, newNan, resize)
  {
  }

  /** For positive sizes the pixel sides are positive. */
  lemma PixelSidesPositive(rasterRes: real, cosLat: real)
    requires rasterRes > 0.0 && cosLat > 0.0
    ensures EquatorArcSecondInMeters * rasterRes > 0.0
    ensures EquatorArcSecondInMeters * cosLat * rasterRes > 0.0
  {
    PositiveProduct(EquatorArcSecondInMeters, rasterRes);
    PositiveProduct(EquatorArcSecondInMeters * cosLat, rasterRes) by {
      PositiveProduct(EquatorArcSecondInMeters, cosLat);
    }
  }

  /**
   * With `size > 1` and positive pixel sides and resolution, the patch
   * around the pixel is exactly `size` by `size`, whether the resize
   * succeeds or not.
   */
  lemma PatchAroundSquare(cells: Grid, row: int, col: int, size: int, res: real, latPixel: real, lngPixel: real,
                          newNan: real, resize: Resizer)
    requires ResizeKeepsShape(resize)
    requires size > 1 && latPixel > 0.0 && lngPixel > 0.0 && res > 0.0
    ensures PatchAround(cells, row, col, size, res, latPixel, lngPixel, newNan, resize).Ok?
    ensures PatchAround(cells, row, col, size, res, latPixel, lngPixel, newNan, resize).value.shape == [size, size]
  {
    var b0, b1 := BrutSide(size, res, latPixel), BrutSide(size, res, lngPixel);
    var rows, cols := RunningSide(b0, latPixel, res), RunningSide(b1, lngPixel, res);
    RunningSideCovers(size, res, latPixel);
    RunningSideCovers(size, res, lngPixel);
    var window := Window(cells, row, col, b0, b1);
    ResizedCovers(window, rows, cols, size, newNan, resize);
    var s := Resized(window, rows, cols, size, newNan, resize);
    CropSquare(s.value, size);
    assert PatchAround(cells, row, col, size, res, latPixel, lngPixel, newNan, resize) == Ok(Crop(s.value, size));
  }

  /**
   * With `size > 1` and positive pixel sizes and resolution, the patch is
   * exactly `size` by `size`, whether the resize succeeds or not.
   */
  lemma ReadPatchSquare(cells: Grid, width: nat, newNan: real, rasterRes: real, row: int, col: int,
                        size: int, res: real, cosLat: real, resize: Resizer)
    requires forall i :: 0 <= i < |cells| ==> |cells[i]| == width
    requires ResizeKeepsShape(resize)
    requires size > 1 && rasterRes > 0.0 && cosLat > 0.0 && res > 0.0
    ensures ReadPatch(cells, width, newNan, rasterRes, row, col, size, res, cosLat, resize).Ok?
    ensures ReadPatch(cells, width, newNan, rasterRes, row, col, size, res, cosLat, resize).value.shape == [size, size]
  {
    var latPixel := EquatorArcSecondInMeters * rasterRes;
    var lngPixel := EquatorArcSecondInMeters * cosLat * rasterRes;
    assert latPixel > 0.0 && lngPixel > 0.0 by {
      PixelSidesPositive(rasterRes, cosLat);
    }
    assert PatchAround(cells, row, col, size, res, latPixel, lngPixel, newNan, resize).Ok?
      && PatchAround(cells, row, col, size, res, latPixel, lngPixel, newNan, resize).value.shape == [size, size] by {
      PatchAroundSquare(cells, row, col, size, res, latPixel, lngPixel, newNan, resize);
    }
    ReadPatchAround(cells, width, newNan, rasterRes, row, col, size, res, cosLat, resize, latPixel, lngPixel);
  }

  /** When the resize fails, the patch around the pixel is `size` by `size` cells of `new_nan`. */
  lemma PatchAroundFallback(cells: Grid, row: int, col: int, size: int, res: real, latPixel: real, lngPixel: real,
                            newNan: real, resize: Resizer)
    requires ResizeKeepsShape(resize)
    requires forall w, rows, cols :: resize(w, rows, cols).None?
    requires size > 1 && latPixel > 0.0 && lngPixel > 0.0 && res > 0.0
    ensures PatchAround(cells, row, col, size, res, latPixel, lngPixel, newNan, resize).Ok?
    ensures forall k :: 0 <= k < |PatchAround(cells, row, col, size, res, latPixel, lngPixel, newNan, resize).value.pixels| ==>
      PatchAround(cells, row, col, size, res, latPixel, lngPixel, newNan, resize).value.pixels[k] == newNan
  {
    var b0, b1 := BrutSide(size, res, latPixel), BrutSide(size, res, lngPixel);
    var rows, cols := RunningSide(b0, latPixel, res), RunningSide(b1, lngPixel, res);
    var window := Window(cells, row, col, b0, b1);
    assert resize(window, rows, cols).None?;
    var p := Full(size, size, newNan);
    assert Resized(window, rows, cols, size, newNan, resize) == Ok(Sized(p, size, size));
    CropSquare(Sized(p, size, size), size);
    CropExact(p, size, size, size);
    FlattenGridOf(CentreCrop(p, size, size, size), size, size, newNan);
    assert PatchAround(cells, row, col, size, res, latPixel, lngPixel, newNan, resize) == Ok(Crop(Sized(p, size, size), size));
  }

  /** When the resize fails (the position is off the raster), the patch is `size` by `size` cells of `new_nan`. */
  lemma ReadPatchFallback(cells: Grid, width: nat, newNan: real, rasterRes: real, row: int, col: int,
                          size: int, res: real, cosLat: real, resize: Resizer)
    requires forall i :: 0 <= i < |cells| ==> |cells[i]| == width
    requires ResizeKeepsShape(resize)
    requires forall w, rows, cols :: resize(w, rows, cols).None?
    requires size > 1 && rasterRes > 0.0 && cosLat > 0.0 && res > 0.0
    ensures ReadPatch(cells, width, newNan, rasterRes, row, col, size, res, cosLat, resize).Ok?
    ensures forall k :: 0 <= k < |ReadPatch(cells, width, newNan, rasterRes, row, col, size, res, cosLat, resize).value.pixels| ==>
      ReadPatch(cells, width, newNan, rasterRes, row, col, size, res, cosLat, resize).value.pixels[k] == newNan
  {
    var latPixel := EquatorArcSecondInMeters * rasterRes;
    var lngPixel := EquatorArcSecondInMeters * cosLat * rasterRes;
    assert latPixel > 0.0 && lngPixel > 0.0 by {
      PixelSidesPositive(rasterRes, cosLat);
    }
    PatchAroundFallback(cells, row, col, size, res, latPixel, lngPixel, newNan, resize);
    ReadPatchAround(cells, width, newNan, rasterRes, row, col, size, res, cosLat, resize, latPixel, lngPixel);
  }

  /** A rectangular grid whose every cell is `v` flattens to a sequence of `v`. */
  lemma {:induction false} FlattenGridOf(g: Grid, h: nat, w: nat, v: real)
    requires IsRect(g, h, w)
    requires forall i, j :: 0 <= i < h && 0 <= j < w ==> g[i][j] == v
    ensures forall k :: 0 <= k < |FlattenGrid(g)| ==> FlattenGrid(g)[k] == v
  {
    if g != [] {
      assert IsRect(g[1..], h - 1, w);
      FlattenGridOf(g[1..], h - 1, w, v);
      assert FlattenGrid(g) == g[0] + FlattenGrid(g[1..]);
    }
  }

  // ---------------------------------------------------------------------------
  // Encoding a patch as bands.

  /** `np.where(patch != new_nan, patch == c, new_nan)` at one pixel: the one-hot value for category `c`. */
  function CatValue(v: real, c: real, newNan: real): real
  {
    if v != newNan then (if v == c then 1.0 else 0.0) else newNan
  }

  /** `compute_cat_patch`: one band per category, in category order. */
  function CatGrid(pixels: seq<real>, cats: seq<real>, newNan: real): (g: Grid)
    ensures IsRect(g, |cats|, |pixels|)
  {
    seq(|cats|, k requires 0 <= k < |cats| => seq(|pixels|, i requires 0 <= i < |pixels| => CatValue(pixels[i], cats[k], newNan)))
  }

  /**
   * One-hot encoding of a pixel that is not the sentinel: band k is 1 exactly
   * when the pixel equals category k, so with distinct categories at most
   * one band is 1, and one is exactly when the value is a category. A
   * sentinel pixel is `new_nan` in every band.
   */
  lemma CatOneHot(v: real, cats: seq<real>, newNan: real)
    requires Distinct(cats)
    ensures v != newNan ==> forall k :: 0 <= k < |cats| ==> (CatValue(v, cats[k], newNan) == 1.0 <==> v == cats[k])
    ensures v != newNan ==> forall k1, k2 ::
      (0 <= k1 < |cats| && 0 <= k2 < |cats| && CatValue(v, cats[k1], newNan) == 1.0 && CatValue(v, cats[k2], newNan) == 1.0) ==> k1 == k2
    ensures v != newNan ==> ((exists k :: 0 <= k < |cats| && CatValue(v, cats[k], newNan) == 1.0) <==> v in cats)
    ensures v == newNan ==> forall k :: 0 <= k < |cats| ==> CatValue(v, cats[k], newNan) == newNan
  {
    if v != newNan && v in cats {
      var k :| 0 <= k < |cats| && cats[k] == v;
      assert CatValue(v, cats[k], newNan) == 1.0;
    }
  }

  /** `np.where(patch != -1, patch // 100 % 100 == b, -1)` at one pixel, after `astype(int)`. */
  function BiomeMask(v: real, b: int): (m: real)
    ensures m == -1.0 || m == 0.0 || m == 1.0
    ensures m == -1.0 <==> Trunc(v) == -1
    ensures m == 1.0 <==> Trunc(v) != -1 && Trunc(v) / 100 % 100 == b
  {
    var code := Trunc(v);
    if code != -1 then (if code / 100 % 100 == b then 1.0 else 0.0) else -1.0
  }

  /** `D.get(code, -1)` for the pixel's code. */
  function RankOf(v: real, d: map<int, int>): real
  {
    var code := Trunc(v);
    (if code in d then d[code] else -1) as real
  }

  function MaskBand(pixels: seq<real>, b: int): (band: seq<real>)
    ensures |band| == |pixels| && forall i :: 0 <= i < |pixels| ==> band[i] == BiomeMask(pixels[i], b)
  {
    seq(|pixels|, i requires 0 <= i < |pixels| => BiomeMask(pixels[i], b))
  }

  function EcoBand(pixels: seq<real>, b: int, d: map<int, int>, scaled: bool): (band: seq<real>)
    ensures |band| == |pixels| && forall i :: 0 <= i < |pixels| ==> band[i] == EcoValue(pixels[i], b, d, scaled)
  {
    seq(|pixels|, i requires 0 <= i < |pixels| => EcoValue(pixels[i], b, d, scaled))
  }

  /** The biome bands of `compute_ecoregions_per_biome_patch`, one per biome of `biomes_ref`. */
  function EcoGrid(pixels: seq<real>, biomes: seq<int>, d: map<int, int>, scaled: bool): (g: Grid)
    ensures IsRect(g, |biomes|, |pixels|)
    ensures forall k :: 0 <= k < |biomes| ==> g[k] == EcoBand(pixels, biomes[k], d, scaled)
  {
    seq(|biomes|, k requires 0 <= k < |biomes| => EcoBand(pixels, biomes[k], d, scaled))
  }

  /**
   * `compute_ecoregions_per_biome_patch`: the masks of every biome are
   * stacked, every 1 is overwritten with the pixel's rank in `D`
   * (`S[indices] = patch_nv[...]`), and the result is divided by `len(D)`
   * when Normalize is among the raster transforms. `patch.min()` of an empty
   * patch, and `np.stack` of no biome mask, raise ValueError.
   */
  method ComputeEcoregionsPerBiomePatch(pixels: seq<real>, biomes: seq<int>, d: map<int, int>, scaled: bool)
    returns (r: Result<Grid>)
    ensures r == if pixels == [] || biomes == [] then Raise(ValueError) else Ok(EcoGrid(pixels, biomes, d, scaled))
  {
    if pixels == [] || biomes == [] {
      return Raise(ValueError);
    }
    var s: Grid := [];
    for b := 0 to |biomes|
      invariant |s| == b
      invariant forall k :: 0 <= k < b ==> s[k] == MaskBand(pixels, biomes[k])
    {
      s := s + [MaskBand(pixels, biomes[b])];
    }
    for b := 0 to |biomes|
      invariant |s| == |biomes|
      invariant forall k :: 0 <= k < b ==> s[k] == EcoBand(pixels, biomes[k], d, false)
      invariant forall k :: b <= k < |biomes| ==> s[k] == MaskBand(pixels, biomes[k])
    {
      var band := s[b];
      for i := 0 to |pixels|
        invariant |band| == |pixels|
        invariant forall j :: 0 <= j < i ==> band[j] == EcoValue(pixels[j], biomes[b], d, false)
        invariant forall j :: i <= j < |pixels| ==> band[j] == BiomeMask(pixels[j], biomes[b])
      {
        if band[i] == 1.0 {
          band := band[i := RankOf(pixels[i], d)];
        }
      }
      s := s[b := band];
    }
    if scaled && |d| > 0 {
      for b := 0 to |biomes|
        invariant |s| == |biomes|
        invariant forall k :: 0 <= k < b ==> s[k] == EcoBand(pixels, biomes[k], d, true)
        invariant forall k :: b <= k < |biomes| ==> s[k] == EcoBand(pixels, biomes[k], d, false)
      {
        s := s[b := DivideAll(s[b], |d| as real)];
      }
    }
    forall k | 0 <= k < |biomes|
      ensures s[k] == EcoGrid(pixels, biomes, d, scaled)[k]
    {
      assert s[k] == EcoBand(pixels, biomes[k], d, scaled && |d| > 0);
      assert EcoBand(pixels, biomes[k], d, scaled && |d| > 0) == EcoBand(pixels, biomes[k], d, scaled);
    }
    assert s == EcoGrid(pixels, biomes, d, scaled);
    return Ok(s);
  }

  /** Band `k` of a band grid holds, at pixel `i`, element `k * w + i` of the flattened array. */
  lemma {:induction false} FlattenGridAt(g: Grid, h: nat, w: nat, k: nat, i: nat)
    requires IsRect(g, h, w) && k < h && i < w
    ensures k * w + i < |FlattenGrid(g)| && FlattenGrid(g)[k * w + i] == g[k][i]
  {
    assert FlattenGrid(g) == g[0] + FlattenGrid(g[1..]);
    if k > 0 {
      assert IsRect(g[1..], h - 1, w);
      FlattenGridAt(g[1..], h - 1, w, k - 1, i);
      assert k * w + i == w + ((k - 1) * w + i);
    }
  }

  /** What one raster's patch is encoded as: one band, one band per category, or one band per biome. */
  datatype Encoding = Single | OneHot(cats: seq<real>) | PerBiome(biomes: seq<int>, ranks: map<int, int>, scaled: bool)

  /** The number of bands an encoding produces. */
  function Depth(e: Encoding): nat
  {
    match e
    case Single => 1
    case OneHot(cats) => |cats|
    case PerBiome(biomes, _, _) => |biomes|
  }

  /**
   * The patch as `get_patch` returns it: `patch[np.newaxis]`, the one-hot
   * bands, or the biome bands, stacked along a new first axis. `np.stack`
   * of no band (no category, no biome) raises ValueError.
   */
  function Encode(raw: RawPatch, e: Encoding, newNan: real): (r: Result<NdArray>)
    requires |raw.pixels| == Product(raw.shape)
    ensures r.Raise? <==> (e.OneHot? && e.cats == []) || (e.PerBiome? && (raw.pixels == [] || e.biomes == []))
    ensures r.Raise? ==> r.exc == ValueError
    ensures r.Ok? ==> WellShaped(r.value) && NdArrays.Numeric(r.value) && r.value.shape == [Depth(e)] + raw.shape
  {
    var n := |raw.pixels|;
    assert ([Depth(e)] + raw.shape)[1..] == raw.shape;
    match e
    case Single =>
      Ok(NdArray([1] + raw.shape, Lift(raw.pixels)))
    case OneHot(cats) =>
      if cats == [] then Raise(ValueError)
      else
      var g := CatGrid(raw.pixels, cats, newNan);
      FlattenGridLength(g, |cats|, n);
      Ok(NdArray([|cats|] + raw.shape, Lift(FlattenGrid(g))))
    case PerBiome(biomes, ranks, scaled) =>
      if raw.pixels == [] || biomes == [] then Raise(ValueError)
      else
        var g := EcoGrid(raw.pixels, biomes, ranks, scaled);
        FlattenGridLength(g, |biomes|, n);
        Ok(NdArray([|biomes|] + raw.shape, Lift(FlattenGrid(g))))
  }

  /** A one-hot patch with at least one category stacks the flattened category grid. */
  lemma EncodeOneHotData(raw: RawPatch, cats: seq<real>, newNan: real)
    requires |raw.pixels| == Product(raw.shape) && cats != []
    ensures Encode(raw, OneHot(cats), newNan).Ok?
    ensures Encode(raw, OneHot(cats), newNan).value.data == Lift(FlattenGrid(CatGrid(raw.pixels, cats, newNan)))
  {
  }

  /** A biome patch with pixels and at least one biome stacks the flattened biome grid. */
  lemma EncodePerBiomeData(raw: RawPatch, biomes: seq<int>, ranks: map<int, int>, scaled: bool, newNan: real)
    requires |raw.pixels| == Product(raw.shape) && raw.pixels != [] && biomes != []
    ensures Encode(raw, PerBiome(biomes, ranks, scaled), newNan).Ok?
    ensures Encode(raw, PerBiome(biomes, ranks, scaled), newNan).value.data
         == Lift(FlattenGrid(EcoGrid(raw.pixels, biomes, ranks, scaled)))
  {
  }

  /** In a one-hot patch, band `k` at pixel `i` is the one-hot value of that pixel for category `k`. */
  lemma EncodeOneHotAt(raw: RawPatch, cats: seq<real>, newNan: real, k: nat, i: nat)
    requires |raw.pixels| == Product(raw.shape)
    requires k < |cats| && i < |raw.pixels|
    ensures k * |raw.pixels| + i < |Encode(raw, OneHot(cats), newNan).value.data|
    ensures Encode(raw, OneHot(cats), newNan).value.data[k * |raw.pixels| + i]
         == Some(CatValue(raw.pixels[i], cats[k], newNan))
  {
    var g := CatGrid(raw.pixels, cats, newNan);
    var flat, idx := FlattenGrid(g), k * |raw.pixels| + i;
    EncodeOneHotData(raw, cats, newNan);
    assert idx < |flat| && flat[idx] == g[k][i] by {
      FlattenGridAt(g, |cats|, |raw.pixels|, k, i);
    }
    assert Lift(flat)[idx] == Some(flat[idx]);
  }

  /** In a biome patch, band `k` at pixel `i` is the pixel's value for biome `biomes[k]`. */
  lemma EncodePerBiomeAt(raw: RawPatch, biomes: seq<int>, ranks: map<int, int>, scaled: bool, newNan: real, k: nat, i: nat)
    requires |raw.pixels| == Product(raw.shape)
    requires k < |biomes| && i < |raw.pixels|
    ensures k * |raw.pixels| + i < |Encode(raw, PerBiome(biomes, ranks, scaled), newNan).value.data|
    ensures Encode(raw, PerBiome(biomes, ranks, scaled), newNan).value.data[k * |raw.pixels| + i]
         == Some(EcoValue(raw.pixels[i], biomes[k], ranks, scaled))
  {
    var g := EcoGrid(raw.pixels, biomes, ranks, scaled);
    var flat, idx := FlattenGrid(g), k * |raw.pixels| + i;
    EncodePerBiomeData(raw, biomes, ranks, scaled, newNan);
    assert idx < |flat| && flat[idx] == g[k][i] by {
      FlattenGridAt(g, |biomes|, |raw.pixels|, k, i);
    }
    assert g[k][i] == EcoValue(raw.pixels[i], biomes[k], ranks, scaled);
    assert Lift(flat)[idx] == Some(flat[idx]);
  }
}
