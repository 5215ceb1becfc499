/**
 * The `Raster` class of `raster_provider.py`: one environmental band,
 * loaded with its no-data cells replaced by the sentinel `new_nan`, then
 * rewritten in place by the `Standardize` and `Normalize` transforms, and
 * read back one patch at a time by `get_patch`.
 *
 * Opening the file (rasterio) is a parameter: the cells it holds, as
 * numbers or NaN, and where it lies, or `None` when it cannot be opened.
 * The natural logarithm used by the log transform is a parameter too.
 */
module Rasters {
  import opened Wrappers
  import Numeric
  import opened NdArrays
  import opened RasterCatalog
  import opened Ecoregions
  import opened RasterPatches

  const EcoregionsName: string := "ecoregions001"
  const RoadsName: string := "Roads_WGS84"

  /** A cell as the file holds it: a number or NaN. */
  datatype Cell = Num(v: real) | NaN

  /** What opening a raster file gives: its rows of cells, its width and its georeferencing. */
  datatype RasterFile = RasterFile(cells: seq<seq<Cell>>, width: nat, geometry: Geometry)

  predicate FileShaped(f: RasterFile)
  {
    forall i :: 0 <= i < |f.cells| ==> |f.cells[i]| == f.width
  }

  /** The two module-level transforms, `Standardize` and `Normalize`. */
  datatype Transform = StandardizeT | NormalizeT

  /** The `transform` argument: `None`, a list of transforms, or a bare transform (not iterable). */
  datatype TransformArg = NoTransform | Listed(ts: seq<Transform>) | Bare(t: Transform)

  function TransformList(t: TransformArg): seq<Transform>
  {
    if t.Listed? then t.ts else []
  }

  // ---------------------------------------------------------------------------
  // Loading.

  /**
   * One loaded cell: NaN becomes `new_nan`, then `nan` becomes `new_nan`,
   * then, for the roads raster only, every value below `nan` does too.
   */
  function LoadCell(c: Cell, nan: real, newNan: real, roads: bool): real
  {
    var v := if c.NaN? then newNan else c.v;
    var v' := if v == nan then newNan else v;
    if roads && v' < nan then newNan else v'
  }

  /**
   * A loaded cell is the sentinel exactly when the file held NaN, the
   * no-data value, the sentinel itself, or (roads only) a value below the
   * no-data value; every other cell keeps the file's value.
   */
  lemma LoadCellSentinel(c: Cell, nan: real, newNan: real, roads: bool)
    ensures LoadCell(c, nan, newNan, roads) == newNan <==>
      c.NaN? || c.v == nan || c.v == newNan || (roads && c.v < nan)
    ensures LoadCell(c, nan, newNan, roads) != newNan ==> c.Num? && LoadCell(c, nan, newNan, roads) == c.v
  {
  }

  function LoadGrid(cells: seq<seq<Cell>>, m: Metadata, roads: bool): (g: Grid)
    ensures |g| == |cells|
    ensures forall i :: 0 <= i < |cells| ==> |g[i]| == |cells[i]|
    ensures forall i, j :: 0 <= i < |cells| && 0 <= j < |cells[i]| ==> g[i][j] == LoadCell(cells[i][j], m.nan, m.newNan, roads)
  {
    seq(|cells|, i requires 0 <= i < |cells| =>
      seq(|cells[i]|, j requires 0 <= j < |cells[i]| => LoadCell(cells[i][j], m.nan, m.newNan, roads)))
  }

  /** Every cell is the sentinel `s` or lies in `[lo, hi]`. */
  predicate SentinelOrIn(g: Grid, s: real, lo: real, hi: real)
  {
    forall i, j :: 0 <= i < |g| && 0 <= j < |g[i]| ==> g[i][j] == s || lo <= g[i][j] <= hi
  }

  /** Numbers in the file are the no-data value or lie in `[min_val, max_val]`. */
  predicate FileInRange(f: RasterFile, m: Metadata)
  {
    forall i, j :: 0 <= i < |f.cells| && 0 <= j < |f.cells[i]| && f.cells[i][j].Num? ==>
      f.cells[i][j].v == m.nan || m.minVal <= f.cells[i][j].v <= m.maxVal
  }

  /** When the file's numbers are in range, the loaded raster holds the sentinel or values in range. */
  lemma LoadInRange(f: RasterFile, m: Metadata, roads: bool)
    requires FileInRange(f, m)
    ensures SentinelOrIn(LoadGrid(f.cells, m, roads), m.newNan, m.minVal, m.maxVal)
  {
    var g := LoadGrid(f.cells, m, roads);
    forall i, j | 0 <= i < |g| && 0 <= j < |g[i]|
      ensures g[i][j] == m.newNan || m.minVal <= g[i][j] <= m.maxVal
    {
      var c := f.cells[i][j];
      assert g[i][j] == LoadCell(c, m.nan, m.newNan, roads);
      if c.Num? && c.v != m.nan {
        assert m.minVal <= c.v <= m.maxVal;
      }
    }
  }

  // ---------------------------------------------------------------------------
  // Transforms.

  /** The part of a raster the transforms rewrite: its cells and its sentinel. */
  datatype RasterState = RasterState(cells: Grid, newNan: real)

  /** The divisions of the transforms are defined for a raster that is not categorical. */
  predicate Divisible(m: Metadata)
  {
    m.cat.None? ==> m.sigma != 0.0 && m.maxVal != m.minVal
  }

  /** `(v - mu) / sigma` away from the sentinel. */
  function StandardizeCell(v: real, m: Metadata, newNan: real): real
    requires m.sigma != 0.0
  {
    if v != newNan then (v - m.mu) / m.sigma else newNan
  }

  /** `(v - min_val) / (max_val - min_val)`, or `log(v + 1 - min_val)`, away from the sentinel, which becomes -1. */
  function NormalizeCell(v: real, m: Metadata, newNan: real, log: bool, ln: real -> real): real
    requires m.maxVal != m.minVal
  {
    if v != newNan then (if log then ln(v + 1.0 - m.minVal) else (v - m.minVal) / (m.maxVal - m.minVal)) else -1.0
  }

  /** Standardizing is undone by `v * sigma + mu`; the sentinel is kept. */
  lemma StandardizeInverse(v: real, m: Metadata, newNan: real)
    requires m.sigma != 0.0
    ensures v == newNan ==> StandardizeCell(v, m, newNan) == newNan
    ensures v != newNan ==> StandardizeCell(v, m, newNan) * m.sigma + m.mu == v
  {
    if v != newNan {
      var z := (v - m.mu) / m.sigma;
      assert z * m.sigma == v - m.mu;
    }
  }

  /** Linear normalization maps `[min_val, max_val]` onto `[0, 1]` and the sentinel to -1. */
  lemma NormalizeUnit(v: real, m: Metadata, newNan: real, ln: real -> real)
    requires m.minVal < m.maxVal
    ensures NormalizeCell(newNan, m, newNan, false, ln) == -1.0
    ensures v != newNan && m.minVal <= v <= m.maxVal ==> 0.0 <= NormalizeCell(v, m, newNan, false, ln) <= 1.0
  {
    if v != newNan && m.minVal <= v <= m.maxVal {
      var span := m.maxVal - m.minVal;
      var t := (v - m.minVal) / span;
      assert t * span == v - m.minVal;
    }
  }

  function StandardizeGrid(g: Grid, m: Metadata, newNan: real): (r: Grid)
    requires m.sigma != 0.0
    ensures |r| == |g| && forall i :: 0 <= i < |g| ==> |r[i]| == |g[i]|
    ensures forall i, j :: 0 <= i < |g| && 0 <= j < |g[i]| ==> r[i][j] == StandardizeCell(g[i][j], m, newNan)
  {
    seq(|g|, i requires 0 <= i < |g| => seq(|g[i]|, j requires 0 <= j < |g[i]| => StandardizeCell(g[i][j], m, newNan)))
  }

  function NormalizeGrid(g: Grid, m: Metadata, newNan: real, log: bool, ln: real -> real): (r: Grid)
    requires m.maxVal != m.minVal
    ensures |r| == |g| && forall i :: 0 <= i < |g| ==> |r[i]| == |g[i]|
    ensures forall i, j :: 0 <= i < |g| && 0 <= j < |g[i]| ==> r[i][j] == NormalizeCell(g[i][j], m, newNan, log, ln)
  {
    seq(|g|, i requires 0 <= i < |g| => seq(|g[i]|, j requires 0 <= j < |g[i]| => NormalizeCell(g[i][j], m, newNan, log, ln)))
  }

  /** `Standardize(raster)`: categorical rasters are left alone. */
  function StandardizeState(st: RasterState, m: Metadata): RasterState
    requires Divisible(m)
  {
    if m.cat.Some? then st else RasterState(StandardizeGrid(st.cells, m, st.newNan), st.newNan)
  }

  /** `Normalize(raster)`: categorical rasters are left alone; otherwise the sentinel becomes -1. */
  function NormalizeState(st: RasterState, m: Metadata, log: bool, ln: real -> real): RasterState
    requires Divisible(m)
  {
    if m.cat.Some? then st else RasterState(NormalizeGrid(st.cells, m, st.newNan, log, ln), -1.0)
  }

  /** The transforms applied one after the other, in list order. */
  function ApplyTransforms(ts: seq<Transform>, st: RasterState, m: Metadata, log: bool, ln: real -> real): RasterState
    requires Divisible(m)
  {
    if ts == [] then st
    else
      var prev := ApplyTransforms(ts[..|ts| - 1], st, m, log, ln);
      match ts[|ts| - 1]
      case StandardizeT => StandardizeState(prev, m)
      case NormalizeT => NormalizeState(prev, m, log, ln)
  }

  /**
   * Standardizing keeps every sentinel cell and only those (for a sentinel
   * below `min_val`, with `sigma > 0`): the other cells become z-scores of
   * values in range, which lie above the standardized sentinel.
   */
  lemma StandardizeKeepsSentinel(st: RasterState, m: Metadata)
    requires m.cat.None? && m.sigma > 0.0 && m.minVal < m.maxVal
    requires SentinelOrIn(st.cells, st.newNan, m.minVal, m.maxVal) && st.newNan < m.minVal
    ensures StandardizeState(st, m).newNan == st.newNan
    ensures SentinelOrIn(StandardizeState(st, m).cells, st.newNan,
                         (m.minVal - m.mu) / m.sigma, (m.maxVal - m.mu) / m.sigma)
    ensures forall i, j :: 0 <= i < |st.cells| && 0 <= j < |st.cells[i]| ==>
      (st.cells[i][j] == st.newNan ==> StandardizeState(st, m).cells[i][j] == st.newNan)
  {
    var r := StandardizeState(st, m).cells;
    forall i, j | 0 <= i < |r| && 0 <= j < |r[i]|
      ensures r[i][j] == st.newNan || (m.minVal - m.mu) / m.sigma <= r[i][j] <= (m.maxVal - m.mu) / m.sigma
    {
      var v := st.cells[i][j];
      if v != st.newNan {
        DivideMonotone(m.minVal - m.mu, v - m.mu, m.sigma);
        DivideMonotone(v - m.mu, m.maxVal - m.mu, m.sigma);
      }
    }
  }

  lemma DivideMonotone(a: real, b: real, d: real)
    requires a <= b && d > 0.0
    ensures a / d <= b / d
  {
    assert (a / d) * d == a && (b / d) * d == b;
  }

  /**
   * Linear normalization of a raster whose cells are the sentinel or in
   * range (the sentinel itself out of range): afterwards the sentinel is -1,
   * the other cells lie in `[0, 1]`, and a cell is -1 exactly when it was
   * the sentinel before.
   */
  lemma NormalizeKeepsSentinel(st: RasterState, m: Metadata, ln: real -> real)
    requires m.cat.None? && m.sigma != 0.0 && m.minVal < m.maxVal
    requires SentinelOrIn(st.cells, st.newNan, m.minVal, m.maxVal)
    requires !(m.minVal <= st.newNan <= m.maxVal)
    ensures NormalizeState(st, m, false, ln).newNan == -1.0
    ensures SentinelOrIn(NormalizeState(st, m, false, ln).cells, -1.0, 0.0, 1.0)
    ensures forall i, j :: 0 <= i < |st.cells| && 0 <= j < |st.cells[i]| ==>
      (NormalizeState(st, m, false, ln).cells[i][j] == -1.0 <==> st.cells[i][j] == st.newNan)
  {
    var r := NormalizeState(st, m, false, ln).cells;
    forall i, j | 0 <= i < |st.cells| && 0 <= j < |st.cells[i]|
      ensures (r[i][j] == -1.0 || 0.0 <= r[i][j] <= 1.0) && (r[i][j] == -1.0 <==> st.cells[i][j] == st.newNan)
    {
      NormalizeUnit(st.cells[i][j], m, st.newNan, ln);
    }
  }

  /** Categorical rasters are left untouched by every transform list. */
  lemma {:induction false} CategoricalUntouched(ts: seq<Transform>, st: RasterState, m: Metadata, log: bool, ln: real -> real)
    requires m.cat.Some?
    ensures ApplyTransforms(ts, st, m, log, ln) == st
  {
    if ts != [] {
      CategoricalUntouched(ts[..|ts| - 1], st, m, log, ln);
    }
  }

  // ---------------------------------------------------------------------------
  // The raster object.

  class Raster {
    const name: string
    const meta: Metadata
    const transform: TransformArg
    const logTransform: bool
    const ln: real -> real
    const geometry: Geometry
    const width: nat
    /** `D`: ecoregion code to rank (ecoregions raster only). */
    const ranks: map<int, int>
    /** `biomes_ref`, in iteration order (ecoregions raster only). */
    const biomes: seq<int>
    var cells: Grid
    var newNan: real

    ghost predicate Valid()
      reads this
    {
      && (forall i :: 0 <= i < |cells| ==> |cells[i]| == width)
      && !transform.Bare?
      && (name == EcoregionsName ==> meta.cat.Some?)
      && Divisible(meta)
    }

    constructor(name: string, meta: Metadata, transform: TransformArg, logTransform: bool, ln: real -> real,
                geometry: Geometry, width: nat, ranks: map<int, int>, biomes: seq<int>, cells: Grid, newNan: real)
      requires forall i :: 0 <= i < |cells| ==> |cells[i]| == width
      requires !transform.Bare? && (name == EcoregionsName ==> meta.cat.Some?) && Divisible(meta)
      ensures Valid()
      ensures this.name == name && this.meta == meta && this.transform == transform
      ensures this.logTransform == logTransform && this.ln == ln && this.geometry == geometry
      ensures this.width == width && this.ranks == ranks && this.biomes == biomes
      ensures this.cells == cells && this.newNan == newNan
    {
      this.name := name;
      this.meta := meta;
      this.transform := transform;
      this.logTransform := logTransform;
      this.ln := ln;
      this.geometry := geometry;
      this.width := width;
      this.ranks := ranks;
      this.biomes := biomes;
      this.cells := cells;
      this.newNan := newNan;
    }

    function State(): RasterState
      reads this
    {
      RasterState(cells, newNan)
    }

    /** `Normalize in self.transform`: the biome bands are then divided by `len(D)`. */
    predicate Scaled()
    {
      transform.Listed? && NormalizeT in transform.ts
    }

    /** How `get_patch` encodes this raster's patches. */
    function PatchEncoding(): Encoding
    {
      if meta.cat.None? then Single
      else if name == EcoregionsName then PerBiome(biomes, ranks, Scaled())
      else OneHot(meta.cat.value)
    }

    /**
     * `get_patch(lat, lng, size, res)`: the pixel of the position, the patch
     * read around it, encoded as one band, one band per category or one band
     * per biome. `cosLat` is the cosine of the latitude.
     */
    function GetPatch(lat: real, lng: real, size: int, res: real, cosLat: real, resize: Resizer): (r: Result<NdArray>)
      reads this
      requires Valid()
      requires ResizeKeepsShape(resize)
      ensures geometry.yRes == 0.0 || geometry.xRes == 0.0 ==> r == Raise(ZeroDivisionError)
      ensures r.Ok? ==> WellShaped(r.value) && NdArrays.Numeric(r.value)
      ensures r.Ok? ==> |r.value.shape| == (if size == 1 then 1 else 3) && r.value.shape[0] == Depth(PatchEncoding())
    {
      var row := RowNum(lat, geometry);
      var col := ColNum(lng, geometry);
      if row.Raise? then Raise(row.exc)
      else if col.Raise? then Raise(col.exc)
      else
        var raw := ReadPatch(cells, width, newNan, meta.res, row.value, col.value, size, res, cosLat, resize);
        if raw.Raise? then Raise(raw.exc) else Encode(raw.value, PatchEncoding(), newNan)
    }
  }

  /**
   * With the pixel on the raster's grid, positive resolutions and `size > 1`,
   * the patch is a `depth` by `size` by `size` tensor, `depth` being 1, the
   * number of categories or the number of biomes.
   */
  lemma GetPatchShape(r: Raster, lat: real, lng: real, size: int, res: real, cosLat: real, resize: Resizer)
    requires r.Valid()
    requires ResizeKeepsShape(resize)
    requires r.geometry.yRes != 0.0 && r.geometry.xRes != 0.0
    requires size > 1 && r.meta.res > 0.0 && cosLat > 0.0 && res > 0.0
    ensures r.GetPatch(lat, lng, size, res, cosLat, resize).Ok? <==> Depth(r.PatchEncoding()) > 0
    ensures r.GetPatch(lat, lng, size, res, cosLat, resize).Ok? ==>
      r.GetPatch(lat, lng, size, res, cosLat, resize).value.shape == [Depth(r.PatchEncoding()), size, size]
  {
    var row := RowNum(lat, r.geometry).value;
    var col := ColNum(lng, r.geometry).value;
    ReadPatchSquare(r.cells, r.width, r.newNan, r.meta.res, row, col, size, res, cosLat, resize);
    var raw := ReadPatch(r.cells, r.width, r.newNan, r.meta.res, row, col, size, res, cosLat, resize);
    assert |raw.value.pixels| == size * size by {
      assert raw.value.shape == [size, size];
      ProductPair(size, size);
    }
    assert size * size > 0;
  }

  /** `Standardize(raster)` on the object. */
  method Standardize(r: Raster)
    requires r.Valid()
    modifies r
    ensures r.Valid()
    ensures r.State() == StandardizeState(old(r.State()), r.meta)
  {
    if r.meta.cat.None? {
      r.cells := StandardizeGrid(r.cells, r.meta, r.newNan);
    }
  }

  /** `Normalize(raster)` on the object. */
  method Normalize(r: Raster)
    requires r.Valid()
    modifies r
    ensures r.Valid()
    ensures r.State() == NormalizeState(old(r.State()), r.meta, r.logTransform, r.ln)
  {
    if r.meta.cat.None? {
      r.cells := NormalizeGrid(r.cells, r.meta, r.newNan, r.logTransform, r.ln);
      r.newNan := -1.0;
    }
  }

  /**
   * The tables of the ecoregions raster: `D`, ranking the sorted codes and
   * mapping `new_nan` to itself, and `biomes_ref`. `np.sort(None)` on a
   * missing category list raises an AxisError, a ValueError.
   */
  function EcoTables(name: string, meta: Metadata): (r: Result<(map<int, int>, seq<int>)>)
    ensures name != EcoregionsName ==> r == Ok((map[], []))
  {
    if name != EcoregionsName then Ok((map[], []))
    else if meta.cat.None? then Raise(ValueError)
    else
      var codes := meta.cat.value;
      var newNan := Numeric.Trunc(meta.newNan);
      var biomes := BiomesRef(codes, newNan);
      if biomes.Raise? then Raise(biomes.exc) else Ok((RankDict(codes, newNan), biomes.value))
  }

  /** The raster as loaded, before the transforms. */
  function Loaded(f: RasterFile, name: string, m: Metadata): RasterState
  {
    RasterState(LoadGrid(f.cells, m, name == RoadsName), m.newNan)
  }

  /**
   * `Raster(path, name, metadata, transform=..., log_transform=...)`: the
   * ecoregion tables are built first, then the file is opened (IOError when
   * it cannot be), loaded, and the transforms are applied in order; a bare
   * transform, which is not iterable, raises TypeError.
   */
  method OpenRaster(name: string, meta: Metadata, transform: TransformArg, logTransform: bool,
                    ln: real -> real, file: Option<RasterFile>) returns (r: Result<Raster>)
    requires Divisible(meta)
    requires file.Some? ==> FileShaped(file.value)
    ensures EcoTables(name, meta).Raise? ==> r == Raise(EcoTables(name, meta).exc)
    ensures EcoTables(name, meta).Ok? && file.None? ==> r == Raise(IOError)
    ensures EcoTables(name, meta).Ok? && file.Some? && transform.Bare? ==> r == Raise(TypeError)
    ensures r.Ok? <==> EcoTables(name, meta).Ok? && file.Some? && !transform.Bare?
    ensures r.Ok? ==> fresh(r.value) && r.value.Valid()
    ensures r.Ok? ==> r.value.name == name && r.value.meta == meta && r.value.transform == transform
    ensures r.Ok? ==> r.value.logTransform == logTransform && r.value.ln == ln
    ensures r.Ok? ==> r.value.geometry == file.value.geometry && r.value.width == file.value.width
    ensures r.Ok? ==> (r.value.ranks, r.value.biomes) == EcoTables(name, meta).value
    ensures r.Ok? ==>
      r.value.State() == ApplyTransforms(TransformList(transform), Loaded(file.value, name, meta), meta, logTransform, ln)
  {
    var tables := EcoTables(name, meta);
    if tables.Raise? {
      return Raise(tables.exc);
    }
    if file.None? {
      return Raise(IOError);
    }
    if transform.Bare? {
      return Raise(TypeError);
    }
    var f := file.value;
    var loaded := Loaded(f, name, meta);
    var raster := new Raster(name, meta, transform, logTransform, ln, f.geometry, f.width,
                             tables.value.0, tables.value.1, loaded.cells, loaded.newNan);
    var ts := TransformList(transform);
    for i := 0 to |ts|
      invariant raster.Valid()
      invariant raster.State() == ApplyTransforms(ts[..i], loaded, meta, logTransform, ln)
    {
      assert ts[..i + 1][..i] == ts[..i];
      match ts[i]
      case StandardizeT => Standardize(raster);
      case NormalizeT => Normalize(raster);
    }
    assert ts[..|ts|] == ts;
    return Ok(raster);
  }
}
