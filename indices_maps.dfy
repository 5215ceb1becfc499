/**
 * The map-writing end of the indicator pipeline (`indices.py`): the global
 * raster grid of `rasterize_dict`, the masking done by `rasterization`, the
 * insertion-ordered band dictionary and its `stacking`, the GeoTIFF profile
 * and buffer path, `grid2tif`, and the choice of inputs and names in
 * `incremental_tif_merge`. Burning points into cells, writing GeoTIFFs and
 * mosaicking pixels are not modelled: the model records what is handed to
 * them.
 */
module IndicesMaps {
  import opened Wrappers
  import opened Numeric
  import opened Text
  import opened IndicesRows
  import opened IndicesFrame

  // ---------------------------------------------------------------------------
  // The global grid.

  /** `Affine(a, b, c, d, e, f)`: x = a*col + b*row + c, y = d*col + e*row + f. */
  datatype Affine = Affine(a: real, b: real, c: real, d: real, e: real, f: real)

  /** The parameters `rasterize_dict` prepares for `features.rasterize`. */
  datatype RasterParams = RasterParams(
    secs: int, touched: bool, fill: int, dtype: Option<string>,
    transform: Affine, height: int, width: int)

  /** The side of a pixel, in degrees, for a grid of `secs` arc-seconds. */
  function PixelSize(secs: int): real
  {
    secs as real / 3600.0
  }

  /**
   * `rasterize_dict(secs, fill, dtype)`: a whole-globe grid of `secs`
   * arc-second pixels anchored at (-180, 90), never "all touched"; a zero
   * resolution raises in the integer division that sizes the grid.
   */
  function RasterizeDict(secs: int, fill: int, dtype: Option<string>): (r: Result<RasterParams>)
    ensures r.Raise? <==> secs == 0
    ensures r.Raise? ==> r.exc == ZeroDivisionError
    ensures r.Ok? ==> !r.value.touched && r.value.fill == fill && r.value.dtype == dtype && r.value.secs == secs
    ensures r.Ok? ==> r.value.transform == Affine(PixelSize(secs), 0.0, -180.0, 0.0, -PixelSize(secs), 90.0)
  {
    if secs == 0 then Raise(ZeroDivisionError)
    else
      Ok(RasterParams(secs, false, fill, dtype,
        Affine(PixelSize(secs), 0.0, -180.0, 0.0, -(secs as real) / 3600.0, 90.0),
        FloorDiv(180 * 3600, secs), FloorDiv(360 * 3600, secs)))
  }

  /**
   * For a positive resolution the grid's rows span the 180 degrees of
   * latitude and its columns the 360 degrees of longitude, short by less
   * than one pixel when the resolution does not divide them.
   */
  lemma GridCoversGlobe(secs: int, fill: int, dtype: Option<string>)
    requires secs > 0
    ensures RasterizeDict(secs, fill, dtype).Ok?
    ensures Spans(RasterizeDict(secs, fill, dtype).value.height, secs, 180)
    ensures Spans(RasterizeDict(secs, fill, dtype).value.width, secs, 360)
  {
    var g := RasterizeDict(secs, fill, dtype).value;
    SpanBounds(g.height, secs, 180);
    SpanBounds(g.width, secs, 360);
  }

  /** `n` pixels of `secs` arc-seconds cover `degrees`, short by less than one pixel. */
  ghost predicate Spans(n: int, secs: int, degrees: int)
  {
    n as real * PixelSize(secs) <= degrees as real < (n + 1) as real * PixelSize(secs)
  }

  lemma SpanBounds(q: int, secs: int, degrees: int)
    requires secs > 0 && q == FloorDiv(degrees * 3600, secs)
    ensures Spans(q, secs, degrees)
  {
    var lo := q * secs;
    assert lo <= degrees * 3600 < lo + secs;
    assert q as real * PixelSize(secs) == lo as real / 3600.0;
    assert (q + 1) as real * PixelSize(secs) == (lo + secs) as real / 3600.0;
    assert degrees as real == (degrees * 3600) as real / 3600.0;
  }

  /** The default 30-second grid has 21600 rows and 43200 columns of 1/120 degree. */
  lemma DefaultGrid(fill: int, dtype: Option<string>)
    ensures var g := RasterizeDict(30, fill, dtype).value;
      g.height == 21600 && g.width == 43200 && PixelSize(30) == 1.0 / 120.0
  {
  }

  // ---------------------------------------------------------------------------
  // Bands, the band dictionary and the stack.

  /**
   * What `rasterization` hands to `features.rasterize`: the (geometry,
   * value) pairs and the grid. The burnt array itself is not modelled.
   */
  datatype Band = Band(points: seq<(Option<Site>, real)>, raster: RasterParams)

  /**
   * `rasterization(grid, var, raster_params, indices_params)`: masks the
   * column on the empty points, then burns its (geometry, value) pairs. A
   * missing column raises KeyError.
   */
  method Rasterization(grid: Frame, name: string, raster: RasterParams, emptyName: string, emptyValue: int)
    returns (r: Result<Band>)
    requires grid.Valid()
    modifies grid
    ensures grid.Valid() && grid.rows == old(grid.rows) && grid.flags == old(grid.flags)
    ensures r.Ok? <==> name in old(grid.values) && emptyName in old(grid.flags)
    ensures r.Raise? ==> r.exc == KeyError && grid.values == old(grid.values)
    ensures r.Ok? ==> name in grid.values && grid.values == old(grid.values)[name := grid.values[name]]
    ensures r.Ok? ==> MaskedFrom(grid.values[name], old(grid.values)[name], grid.flags[emptyName], emptyValue)
    ensures r.Ok? ==> r.value == Band(Burned(grid.rows, grid.values[name]), raster)
  {
    var pairs := grid.MaskEmpty(name, emptyName, emptyValue);
    if pairs.Raise? {
      return Raise(pairs.exc);
    }
    r := Ok(Band(pairs.value, raster));
  }

  /** The keys of an insertion-ordered dictionary, in order. */
  function Keys<T>(d: seq<(string, T)>): (ks: seq<string>)
    ensures |ks| == |d|
    ensures forall i :: 0 <= i < |d| ==> ks[i] == d[i].0
  {
    seq(|d|, i requires 0 <= i < |d| => d[i].0)
  }

  /** The values of an insertion-ordered dictionary, in order. */
  function Values<T>(d: seq<(string, T)>): (vs: seq<T>)
    ensures |vs| == |d|
    ensures forall i :: 0 <= i < |d| ==> vs[i] == d[i].1
  {
    seq(|d|, i requires 0 <= i < |d| => d[i].1)
  }

  predicate DistinctKeys<T>(d: seq<(string, T)>)
  {
    forall i, j :: 0 <= i < j < |d| ==> d[i].0 != d[j].0
  }

  /** `s` without its repeats, each kept where it first occurs. */
  function Dedup(s: seq<string>): (d: seq<string>)
    ensures forall x :: x in d <==> x in s
  {
    if s == [] then []
    else
      var d := Dedup(s[..|s| - 1]);
      assert forall x :: x in s <==> x in s[..|s| - 1] || x == s[|s| - 1];
      if s[|s| - 1] in d then d else d + [s[|s| - 1]]
  }

  /**
   * `d[k] = v` on a Python dict: a new key goes last, an existing key keeps
   * its place and gets the new value; the keys stay distinct.
   */
  function DictPut<T>(d: seq<(string, T)>, k: string, v: T): (r: seq<(string, T)>)
    requires DistinctKeys(d)
    ensures DistinctKeys(r)
    ensures Keys(r) == if k in Keys(d) then Keys(d) else Keys(d) + [k]
    ensures forall i :: 0 <= i < |r| ==> r[i].1 == if r[i].0 == k then v else d[i].1
  {
    if k in Keys(d) then
      seq(|d|, i requires 0 <= i < |d| => if d[i].0 == k then (k, v) else d[i])
    else
      d + [(k, v)]
  }

  /**
   * `stacking(Dz)`: the stack's name joins the keys with "_" in insertion
   * order and its bands are the values in the same order. Stacking no band
   * raises ValueError.
   */
  function Stacking<T>(dz: seq<(string, T)>): (r: Result<(string, seq<T>)>)
    ensures r.Raise? <==> dz == []
    ensures r.Raise? ==> r.exc == ValueError
    ensures r.Ok? ==> r.value.0 == JoinWith("_", Keys(dz))
    ensures r.Ok? ==> |r.value.1| == |dz| && forall i :: 0 <= i < |dz| ==> r.value.1[i] == dz[i].1
  {
    if dz == [] then Raise(ValueError) else Ok((JoinWith("_", Keys(dz)), Values(dz)))
  }

  /** The stack's name gives back its band names, in order, when none contains "_". */
  lemma StackNameSplits<T>(dz: seq<(string, T)>)
    requires dz != []
    requires forall i :: 0 <= i < |dz| ==> Lacks(dz[i].0, '_')
    ensures Split(Stacking(dz).value.0, '_') == Keys(dz)
  {
    SplitJoin(Keys(dz), '_');
  }

  // ---------------------------------------------------------------------------
  // The GeoTIFF profile and path.

  /** The rasterio profile of a buffer GeoTIFF. */
  datatype Profile = Profile(
    driver: string, interleave: string, count: nat, height: int, width: int,
    blockxsize: int, blockysize: int, transform: Affine, crs: int,
    nodata: int, dtype: Option<string>, tiled: bool, compress: string)

  /**
   * `defines_profile(stack.shape, map_dict, compress=...)` with its
   * defaults (512-pixel blocks, EPSG:4326, untiled) over the GeoTIFF
   * defaults: one band per stack layer, the stack's height and width, and
   * the grid's transform, fill (as nodata) and dtype.
   */
  function DefinesProfile(count: nat, height: int, width: int, raster: RasterParams, compress: string): (p: Profile)
    ensures p.count == count && p.height == height && p.width == width
    ensures p.nodata == raster.fill && p.dtype == raster.dtype && p.transform == raster.transform
    ensures p.crs == 4326 && !p.tiled && p.blockxsize == p.blockysize == 512 && p.compress == compress
  {
    Profile("GTiff", "band", count, height, width, 512, 512, raster.transform, 4326,
      raster.fill, raster.dtype, false, compress)
  }

  /** `join(join(maps_path, stack_name, grid_name), str(buff_count) + ".tif")`. */
  function BufferTifPath(mapsPath: string, stackName: string, gridName: string, buffCount: nat): string
  {
    PathJoin(PathJoinAll(mapsPath, [stackName, gridName]), NatToString(buffCount) + ".tif")
  }

  /** A buffer file is named by its count: the path ends with `<count>.tif`. */
  lemma BufferTifPathEnds(mapsPath: string, stackName: string, gridName: string, buffCount: nat)
    ensures var name, t := NatToString(buffCount) + ".tif", BufferTifPath(mapsPath, stackName, gridName, buffCount);
      |t| >= |name| && t[|t| - |name|..] == name
  {
    var name := NatToString(buffCount) + ".tif";
    var t := BufferTifPath(mapsPath, stackName, gridName, buffCount);
    assert t[|t| - |name|..] == name;
  }

  /** Two buffers of one stack get two files exactly when their counts differ. */
  lemma BufferTifPathsDistinct(mapsPath: string, stackName: string, gridName: string, a: nat, b: nat)
    ensures BufferTifPath(mapsPath, stackName, gridName, a) == BufferTifPath(mapsPath, stackName, gridName, b)
      <==> a == b
  {
    if BufferTifPath(mapsPath, stackName, gridName, a) == BufferTifPath(mapsPath, stackName, gridName, b) {
      var folder := PathJoinAll(mapsPath, [stackName, gridName]);
      var na, nb := NatToString(a) + ".tif", NatToString(b) + ".tif";
      assert na[0] != '/' && nb[0] != '/';
      PathJoinInjective(folder, na, nb);
      assert NatToString(a) == na[..|na| - 4] && NatToString(b) == nb[..|nb| - 4];
      NatToStringInjective(a, b);
    }
  }

  // ---------------------------------------------------------------------------
  // grid2tif.

  /**
   * The `grid_name` entry of the indicator parameters: a `str`, or the
   * one-element tuple `(file_name,)` that `update_dicts` stores (its
   * assignment ends in a comma). `os.path.join` and `Path /` reject the
   * tuple with a TypeError, and it never equals a string.
   */
  datatype GridName = GridStr(name: string) | GridTuple(item: string)

  /** The entries of the indicator parameters that `grid2tif` reads. */
  datatype IndexParams = IndexParams(
    seconds: int, fillCat: int, dtypeCat: Option<string>, fillSumap: int, dtypeSumap: Option<string>,
    lstats: seq<string>, emptyName: string, emptyValue: int, compress: string,
    mapsPath: string, gridName: GridName)

  /** The GeoTIFF a `grid2tif` call writes: its path, stack name, bands and profile. */
  datatype Written = Written(path: string, stackName: string, bands: seq<Band>, profile: Profile)

  predicate IsVarType(varType: string)
  {
    varType in ["B", "S", "shannon", "cat"]
  }

  /** The grid of a `grid2tif` call: the category fill and dtype for "cat", the sumap ones otherwise. */
  function MapDict(p: IndexParams, varType: string): Result<RasterParams>
  {
    if varType == "cat" then RasterizeDict(p.seconds, p.fillCat, p.dtypeCat)
    else RasterizeDict(p.seconds, p.fillSumap, p.dtypeSumap)
  }

  /** ZeroDivisionError exactly for zero seconds; otherwise the seconds, with the fill and dtype of the map's type. */
  lemma MapDictParams(p: IndexParams, varType: string)
    ensures var r := MapDict(p, varType);
      && (r.Raise? <==> p.seconds == 0)
      && (r.Raise? ==> r.exc == ZeroDivisionError)
      && (r.Ok? ==> r.value.secs == p.seconds)
      && (r.Ok? && varType == "cat" ==> r.value.fill == p.fillCat && r.value.dtype == p.dtypeCat)
      && (r.Ok? && varType != "cat" ==> r.value.fill == p.fillSumap && r.value.dtype == p.dtypeSumap)
  {
  }

  /** The band names a `grid2tif` call of this type writes, in order. */
  function StageKeys(varType: string, src: Source, lstats: seq<string>): seq<string>
  {
    if varType == "B" then [SumapName(src, Binary)]
    else if varType == "S" then Dedup(StatusNames(src, lstats))
    else if varType == "shannon" then ["shannon"]
    else if varType == "cat" then [CatsName(src)]
    else []
  }

  /** Each band burns, on the grid, the masked column its key names. */
  ghost predicate BandsOf(dz: seq<(string, Band)>, rows: seq<Row>, values: map<string, seq<real>>, raster: RasterParams)
  {
    forall i :: 0 <= i < |dz| ==>
      && dz[i].0 in values
      && |values[dz[i].0]| == |rows|
      && dz[i].1 == Band(Burned(rows, values[dz[i].0]), raster)
  }

  /** Column `name` holds `column` with the empty points masked. */
  ghost predicate MaskedColumn(values: map<string, seq<real>>, flags: map<string, seq<bool>>,
                               name: string, column: seq<real>, emptyName: string, emptyValue: int)
  {
    name in values && emptyName in flags && MaskedFrom(values[name], column, flags[emptyName], emptyValue)
  }

  /** Statuses `0..n-1` of `lstats` each have their sumap column, masked, under their name. */
  ghost predicate StatusColumnsMasked(values: map<string, seq<real>>, flags: map<string, seq<bool>>, rows: seq<Row>,
                                      d: map<int, Option<Status>>, src: Source, lstats: seq<string>, n: nat,
                                      emptyName: string, emptyValue: int)
    requires n <= |lstats|
  {
    forall k :: 0 <= k < n ==>
      var col := SumapColumn(rows, d, OfStatus(lstats[k]));
      col.Ok? && MaskedColumn(values, flags, SumapName(src, OfStatus(lstats[k])), col.value, emptyName, emptyValue)
  }

  /** Two statuses share a column name only when they are the same status. */
  lemma SumapNameInjective(src: Source, a: string, b: string)
    requires SumapName(src, OfStatus(a)) == SumapName(src, OfStatus(b))
    ensures a == b
  {
    var prefix := SourceName(src) + "-";
    assert SumapName(src, OfStatus(a)) == prefix + a && SumapName(src, OfStatus(b)) == prefix + b;
    assert a == (prefix + a)[|prefix|..];
    assert b == (prefix + b)[|prefix|..];
  }

  /** Writing status `i`'s masked column keeps the earlier statuses' columns right. */
  lemma StatusColumnStep(values: map<string, seq<real>>, after: map<string, seq<real>>, flags: map<string, seq<bool>>,
                         rows: seq<Row>, d: map<int, Option<Status>>, src: Source, lstats: seq<string>, i: nat,
                         emptyName: string, emptyValue: int)
    requires i < |lstats|
    requires StatusColumnsMasked(values, flags, rows, d, src, lstats, i, emptyName, emptyValue)
    requires SumapColumn(rows, d, OfStatus(lstats[i])).Ok?
    requires MaskedColumn(after, flags, SumapName(src, OfStatus(lstats[i])),
      SumapColumn(rows, d, OfStatus(lstats[i])).value, emptyName, emptyValue)
    requires after == values[SumapName(src, OfStatus(lstats[i])) := after[SumapName(src, OfStatus(lstats[i]))]]
    ensures StatusColumnsMasked(after, flags, rows, d, src, lstats, i + 1, emptyName, emptyValue)
  {
    var name := SumapName(src, OfStatus(lstats[i]));
    forall k | 0 <= k < i + 1
      ensures var col := SumapColumn(rows, d, OfStatus(lstats[k]));
        col.Ok? && MaskedColumn(after, flags, SumapName(src, OfStatus(lstats[k])), col.value, emptyName, emptyValue)
    {
      if SumapName(src, OfStatus(lstats[k])) == name {
        SumapNameInjective(src, lstats[k], lstats[i]);
      }
    }
  }

  /** Putting the band of a freshly written column keeps every band matching its column. */
  lemma BandsOfPut(dz: seq<(string, Band)>, rows: seq<Row>, values: map<string, seq<real>>, after: map<string, seq<real>>,
                   name: string, raster: RasterParams)
    requires DistinctKeys(dz) && BandsOf(dz, rows, values, raster)
    requires name in after && |after[name]| == |rows| && after == values[name := after[name]]
    ensures BandsOf(DictPut(dz, name, Band(Burned(rows, after[name]), raster)), rows, after, raster)
  {
  }

  /**
   * What the "S" stage of `grid2tif` has done once the first `n` statuses
   * are through: the band dictionary holds their names once each, in first
   * occurrence order, every band burns its masked column, and no column
   * other than theirs has changed or gone.
   */
  ghost predicate StatusStage(dz: seq<(string, Band)>, rows: seq<Row>, values: map<string, seq<real>>,
                              flags: map<string, seq<bool>>, orig: map<string, seq<real>>,
                              d: map<int, Option<Status>>, src: Source, lstats: seq<string>, n: nat,
                              raster: RasterParams, emptyName: string, emptyValue: int)
    requires n <= |lstats|
  {
    && DistinctKeys(dz) && Keys(dz) == Dedup(StatusNames(src, lstats)[..n])
    && BandsOf(dz, rows, values, raster)
    && StatusColumnsMasked(values, flags, rows, d, src, lstats, n, emptyName, emptyValue)
    && (forall k :: k in orig ==> k in values)
    && (forall k :: k in orig && k !in StatusNames(src, lstats)[..n] ==> values[k] == orig[k])
  }

  /** One status of the "S" stage: its sumap column, masked, burnt into the dictionary. */
  method StatusBand(grid: Frame, table: seq<SpeciesRecord>, src: Source, lstats: seq<string>, i: nat,
                    raster: RasterParams, emptyName: string, emptyValue: int,
                    dz: seq<(string, Band)>, ghost orig: map<string, seq<real>>)
    returns (r: Result<seq<(string, Band)>>)
    requires grid.Valid() && i < |lstats|
    requires StatusStage(dz, grid.rows, grid.values, grid.flags, orig, ThreatDict(table, S, src), src, lstats, i,
      raster, emptyName, emptyValue)
    modifies grid
    ensures grid.Valid() && grid.rows == old(grid.rows) && grid.flags == old(grid.flags)
    ensures r.Ok? ==> StatusStage(r.value, grid.rows, grid.values, grid.flags, orig, ThreatDict(table, S, src), src,
      lstats, i + 1, raster, emptyName, emptyValue)
  {
    ghost var before := grid.values;
    var s := grid.Sumap(table, src, OfStatus(lstats[i]));
    if s.Raise? {
      return Raise(s.exc);
    }
    ghost var mid := grid.values;
    ghost var column := SumapColumn(grid.rows, ThreatDict(table, S, src), OfStatus(lstats[i])).value;
    var band := Rasterization(grid, s.value, raster, emptyName, emptyValue);
    if band.Raise? {
      return Raise(band.exc);
    }
    MaskedOverSumap(before, mid, grid.values, grid.flags, s.value, column, emptyName, emptyValue);
    StatusStageStep(dz, grid.rows, before, grid.values, grid.flags, orig, ThreatDict(table, S, src), src, lstats, i,
      raster, emptyName, emptyValue);
    r := Ok(DictPut(dz, s.value, band.value));
  }

  /** Masking a freshly computed column leaves every other column as it was before the column was added. */
  lemma MaskedOverSumap(before: map<string, seq<real>>, mid: map<string, seq<real>>, after: map<string, seq<real>>,
                        flags: map<string, seq<bool>>, name: string, column: seq<real>, emptyName: string, emptyValue: int)
    requires mid == before[name := column]
    requires name in after && after == mid[name := after[name]]
    requires emptyName in flags && MaskedFrom(after[name], mid[name], flags[emptyName], emptyValue)
    ensures after == before[name := after[name]]
    ensures MaskedColumn(after, flags, name, column, emptyName, emptyValue)
  {
  }

  lemma StatusStageStep(dz: seq<(string, Band)>, rows: seq<Row>, before: map<string, seq<real>>,
                        after: map<string, seq<real>>, flags: map<string, seq<bool>>, orig: map<string, seq<real>>,
                        d: map<int, Option<Status>>, src: Source, lstats: seq<string>, i: nat,
                        raster: RasterParams, emptyName: string, emptyValue: int)
    requires i < |lstats|
    requires StatusStage(dz, rows, before, flags, orig, d, src, lstats, i, raster, emptyName, emptyValue)
    requires SumapColumn(rows, d, OfStatus(lstats[i])).Ok?
    requires MaskedColumn(after, flags, SumapName(src, OfStatus(lstats[i])),
      SumapColumn(rows, d, OfStatus(lstats[i])).value, emptyName, emptyValue)
    requires after == before[SumapName(src, OfStatus(lstats[i])) := after[SumapName(src, OfStatus(lstats[i]))]]
    requires |after[SumapName(src, OfStatus(lstats[i]))]| == |rows|
    ensures StatusStage(DictPut(dz, SumapName(src, OfStatus(lstats[i])),
        Band(Burned(rows, after[SumapName(src, OfStatus(lstats[i]))]), raster)),
      rows, after, flags, orig, d, src, lstats, i + 1, raster, emptyName, emptyValue)
  {
    var names := StatusNames(src, lstats);
    var name := names[i];
    var dz' := DictPut(dz, name, Band(Burned(rows, after[name]), raster));
    assert DistinctKeys(dz') && Keys(dz') == Dedup(names[..i + 1]) by {
      assert names[..i + 1][..i] == names[..i] && names[..i + 1][i] == name;
    }
    assert BandsOf(dz', rows, after, raster) by {
      BandsOfPut(dz, rows, before, after, name, raster);
    }
    assert StatusColumnsMasked(after, flags, rows, d, src, lstats, i + 1, emptyName, emptyValue) by {
      StatusColumnStep(before, after, flags, rows, d, src, lstats, i, emptyName, emptyValue);
    }
    assert forall k :: k in orig && k !in names[..i + 1] ==> after[k] == orig[k] by {
      assert forall k :: k in names[..i + 1] <==> k in names[..i] || k == name;
    }
  }

  /**
   * The "S" stage of `grid2tif`: for each status of `Lstats` in order, the
   * status sumap column is computed, masked and burnt into the band
   * dictionary.
   */
  method StatusBands(grid: Frame, table: seq<SpeciesRecord>, src: Source, lstats: seq<string>,
                     raster: RasterParams, emptyName: string, emptyValue: int)
    returns (r: Result<seq<(string, Band)>>)
    requires grid.Valid()
    modifies grid
    ensures grid.Valid() && grid.rows == old(grid.rows) && grid.flags == old(grid.flags)
    ensures r.Ok? ==> StatusStage(r.value, grid.rows, grid.values, grid.flags, old(grid.values), ThreatDict(table, S, src),
      src, lstats, |lstats|, raster, emptyName, emptyValue)
    ensures lstats == [] ==> r == Ok([])
  {
    var dz: seq<(string, Band)> := [];
    for i := 0 to |lstats|
      invariant grid.Valid() && grid.rows == old(grid.rows) && grid.flags == old(grid.flags)
      invariant StatusStage(dz, grid.rows, grid.values, grid.flags, old(grid.values), ThreatDict(table, S, src),
        src, lstats, i, raster, emptyName, emptyValue)
    {
      var step := StatusBand(grid, table, src, lstats, i, raster, emptyName, emptyValue, dz, old(grid.values));
      if step.Raise? {
        return step;
      }
      dz := step.value;
    }
    r := Ok(dz);
  }

  /** Every column of `orig` is still there, and those not named in `keys` are unchanged. */
  ghost predicate KeepsOthers(values: map<string, seq<real>>, orig: map<string, seq<real>>, keys: seq<string>)
  {
    && (forall k :: k in orig ==> k in values)
    && (forall k :: k in orig && k !in keys ==> values[k] == orig[k])
  }

  /** A stage that computes one column and burns it: `Dz[var_name] = rasterization(grid, var_name, ...)`. */
  method SingleBand(grid: Frame, name: string, raster: RasterParams, emptyName: string, emptyValue: int)
    returns (r: Result<seq<(string, Band)>>)
    requires grid.Valid()
    modifies grid
    ensures grid.Valid() && grid.rows == old(grid.rows) && grid.flags == old(grid.flags)
    ensures r.Ok? <==> name in old(grid.values) && emptyName in old(grid.flags)
    ensures r.Ok? ==> DistinctKeys(r.value) && Keys(r.value) == [name] && BandsOf(r.value, grid.rows, grid.values, raster)
    ensures r.Ok? ==> MaskedColumn(grid.values, grid.flags, name, old(grid.values)[name], emptyName, emptyValue)
    ensures r.Ok? ==> KeepsOthers(grid.values, old(grid.values), [name])
  {
    var band := Rasterization(grid, name, raster, emptyName, emptyValue);
    if band.Raise? {
      return Raise(band.exc);
    }
    r := Ok(DictPut([], name, band.value));
  }

  /**
   * The columns a successful `grid2tif` call of this type leaves, masked
   * on the empty points: the binary sumap, each status sumap, the given
   * Shannon index, or the worst-status category computed from the status
   * columns as they were before the call (a status named "cats" reading
   * the category column being written).
   */
  ghost predicate StageColumns(varType: string, values: map<string, seq<real>>, flags: map<string, seq<bool>>,
                               rows: seq<Row>, orig: map<string, seq<real>>, table: seq<SpeciesRecord>, src: Source,
                               p: IndexParams, entropies: seq<real>)
  {
    && (varType == "B" ==>
         var col := SumapColumn(rows, ThreatDict(table, B, src), Binary);
         col.Ok? && MaskedColumn(values, flags, SumapName(src, Binary), col.value, p.emptyName, p.emptyValue))
    && (varType == "S" ==>
         StatusColumnsMasked(values, flags, rows, ThreatDict(table, S, src), src, p.lstats, |p.lstats|,
           p.emptyName, p.emptyValue))
    && (varType == "shannon" ==>
         MaskedColumn(values, flags, "shannon", entropies, p.emptyName, p.emptyValue))
    && (varType == "cat" ==>
         var names, cats := StatusNames(src, p.lstats), CatsName(src);
         && (forall k :: 0 <= k < |names| && names[k] != cats ==> names[k] in orig && |orig[names[k]]| == |rows|)
         && MaskedColumn(values, flags, cats, CatsAfter(orig, cats, names, |names|, |rows|, p.emptyValue),
              p.emptyName, p.emptyValue))
  }

  /** The band dictionary of a successful stage: the type's keys, once each, burning their columns. */
  ghost predicate StageBands(dz: seq<(string, Band)>, varType: string, rows: seq<Row>, values: map<string, seq<real>>,
                             src: Source, lstats: seq<string>, raster: RasterParams)
  {
    DistinctKeys(dz) && Keys(dz) == StageKeys(varType, src, lstats) && BandsOf(dz, rows, values, raster)
  }

  /** The "B" stage: the binary sumap, burnt. */
  method BinaryBands(grid: Frame, table: seq<SpeciesRecord>, src: Source, p: IndexParams, raster: RasterParams)
    returns (r: Result<seq<(string, Band)>>)
    requires grid.Valid()
    modifies grid
    ensures grid.Valid() && grid.rows == old(grid.rows) && grid.flags == old(grid.flags)
    ensures r.Ok? ==> StageBands(r.value, "B", grid.rows, grid.values, src, p.lstats, raster)
    ensures r.Ok? ==> StageColumns("B", grid.values, grid.flags, grid.rows, old(grid.values), table, src, p, [])
    ensures r.Ok? ==> KeepsOthers(grid.values, old(grid.values), StageKeys("B", src, p.lstats))
  {
    var s := grid.Sumap(table, src, Binary);
    if s.Raise? {
      return Raise(s.exc);
    }
    r := SingleBand(grid, s.value, raster, p.emptyName, p.emptyValue);
  }

  /** The "shannon" stage: the given index, burnt. */
  method ShannonBands(grid: Frame, p: IndexParams, entropies: seq<real>, raster: RasterParams)
    returns (r: Result<seq<(string, Band)>>)
    requires grid.Valid() && |entropies| == |grid.rows|
    modifies grid
    ensures grid.Valid() && grid.rows == old(grid.rows) && grid.flags == old(grid.flags)
    ensures r.Ok? ==> StageBands(r.value, "shannon", grid.rows, grid.values, Comp, p.lstats, raster)
    ensures r.Ok? ==> MaskedColumn(grid.values, grid.flags, "shannon", entropies, p.emptyName, p.emptyValue)
    ensures r.Ok? ==> KeepsOthers(grid.values, old(grid.values), ["shannon"])
  {
    var name := grid.Shannon(entropies);
    r := SingleBand(grid, name, raster, p.emptyName, p.emptyValue);
  }

  /** The "cat" stage: the worst-status category, burnt. */
  method CatBands(grid: Frame, src: Source, p: IndexParams, raster: RasterParams)
    returns (r: Result<seq<(string, Band)>>)
    requires grid.Valid()
    modifies grid
    ensures grid.Valid() && grid.rows == old(grid.rows) && grid.flags == old(grid.flags)
    ensures r.Ok? <==> ReadsColumns(old(grid.values), StatusNames(src, p.lstats), CatsName(src)) && p.emptyName in grid.flags
    ensures r.Ok? ==> StageBands(r.value, "cat", grid.rows, grid.values, src, p.lstats, raster)
    ensures r.Ok? ==> StageColumns("cat", grid.values, grid.flags, grid.rows, old(grid.values), [], src, p, [])
    ensures r.Ok? ==> KeepsOthers(grid.values, old(grid.values), StageKeys("cat", src, p.lstats))
  {
    var c := grid.WorstStatusCat(src, p.lstats, p.emptyValue);
    if c.Raise? {
      return Raise(c.exc);
    }
    r := SingleBand(grid, c.value, raster, p.emptyName, p.emptyValue);
  }

  /**
   * `grid2tif(grid, params, iucn_table, src, var_type, exp_count)`: checks
   * the variable type, prepares the grid (category fill and dtype for
   * "cat"), computes the type's columns (the binary sumap, one sumap per
   * status of `Lstats`, the Shannon index, or the worst-status category),
   * masks and burns each into the band dictionary, stacks the bands and
   * writes them under `maps_path/<stack name>/<grid name>/<exp_count>.tif`.
   * A tuple `grid_name` makes that path raise TypeError, once the columns
   * are computed. The Shannon index is given per row in `entropies`.
   */
  method Grid2Tif(grid: Frame, p: IndexParams, table: seq<SpeciesRecord>, src: Source, varType: string,
                  entropies: seq<real>, expCount: nat) returns (r: Result<Written>)
    requires grid.Valid()
    requires varType == "shannon" ==> |entropies| == |grid.rows|
    modifies grid
    ensures grid.Valid() && grid.rows == old(grid.rows) && grid.flags == old(grid.flags)
    ensures !IsVarType(varType) ==> r == Raise(AssertionError) && grid.values == old(grid.values)
    ensures IsVarType(varType) && p.seconds == 0 ==> r == Raise(ZeroDivisionError) && grid.values == old(grid.values)
    ensures varType == "S" && p.seconds != 0 && p.lstats == [] ==> r == Raise(ValueError)
    ensures varType == "cat" && p.seconds != 0 ==>
      (r.Ok? <==> (ReadsColumns(old(grid.values), StatusNames(src, p.lstats), CatsName(src)) && p.emptyName in grid.flags
                   && p.gridName.GridStr?))
    ensures (varType == "cat" && p.seconds != 0 && p.gridName.GridTuple? &&
             ReadsColumns(old(grid.values), StatusNames(src, p.lstats), CatsName(src)) && p.emptyName in grid.flags) ==>
      r == Raise(TypeError)
    ensures p.gridName.GridTuple? ==> r.Raise?
    ensures r.Ok? ==> IsVarType(varType)
    ensures r.Ok? ==> WrittenAs(r.value, grid.rows, grid.values, p, varType, src, expCount)
    ensures r.Ok? ==> StageColumns(varType, grid.values, grid.flags, grid.rows, old(grid.values), table, src, p, entropies)
    ensures r.Ok? ==> KeepsOthers(grid.values, old(grid.values), StageKeys(varType, src, p.lstats))
  {
    if !IsVarType(varType) {
      return Raise(AssertionError);
    }
    var md := MapDict(p, varType);
    if md.Raise? {
      return Raise(md.exc);
    }
    var raster := md.value;
    var bands := TypeBands(grid, p, table, src, varType, entropies, raster);
    if bands.Raise? {
      return Raise(bands.exc);
    }
    var dz := bands.value;
    var st := Stacking(dz);
    if st.Raise? {
      return Raise(st.exc);
    }
    var profile := DefinesProfile(|st.value.1|, raster.height, raster.width, raster, p.compress);
    if p.gridName.GridTuple? {
      return Raise(TypeError);
    }
    var path := BufferTifPath(p.mapsPath, st.value.0, p.gridName.name, expCount);
    r := Ok(Written(path, st.value.0, st.value.1, profile));
    StackWritten(dz, r.value, grid.rows, grid.values, p, varType, src, expCount);
  }

  /** The band dictionary of one variable type: the stage the type selects. */
  method TypeBands(grid: Frame, p: IndexParams, table: seq<SpeciesRecord>, src: Source, varType: string,
                   entropies: seq<real>, raster: RasterParams) returns (r: Result<seq<(string, Band)>>)
    requires grid.Valid() && IsVarType(varType)
    requires varType == "shannon" ==> |entropies| == |grid.rows|
    modifies grid
    ensures grid.Valid() && grid.rows == old(grid.rows) && grid.flags == old(grid.flags)
    ensures varType == "S" && p.lstats == [] ==> r == Ok([])
    ensures varType == "cat" ==>
      (r.Ok? <==> ReadsColumns(old(grid.values), StatusNames(src, p.lstats), CatsName(src)) && p.emptyName in grid.flags)
    ensures r.Ok? ==> StageBands(r.value, varType, grid.rows, grid.values, src, p.lstats, raster)
    ensures r.Ok? ==> StageColumns(varType, grid.values, grid.flags, grid.rows, old(grid.values), table, src, p, entropies)
    ensures r.Ok? ==> KeepsOthers(grid.values, old(grid.values), StageKeys(varType, src, p.lstats))
  {
    if varType == "B" {
      r := BinaryBands(grid, table, src, p, raster);
    } else if varType == "S" {
      r := StatusBands(grid, table, src, p.lstats, raster, p.emptyName, p.emptyValue);
      if r.Ok? {
        assert StatusNames(src, p.lstats)[..|p.lstats|] == StatusNames(src, p.lstats);
      }
    } else if varType == "shannon" {
      r := ShannonBands(grid, p, entropies, raster);
    } else {
      r := CatBands(grid, src, p, raster);
    }
  }

  /** Stacking the type's bands and naming the buffer file gives the file `WrittenAs` describes. */
  lemma StackWritten(dz: seq<(string, Band)>, w: Written, rows: seq<Row>, values: map<string, seq<real>>,
                     p: IndexParams, varType: string, src: Source, expCount: nat)
    requires MapDict(p, varType).Ok?
    requires StageBands(dz, varType, rows, values, src, p.lstats, MapDict(p, varType).value)
    requires Stacking(dz).Ok?
    requires w.stackName == Stacking(dz).value.0 && w.bands == Stacking(dz).value.1
    requires w.profile == DefinesProfile(|dz|, MapDict(p, varType).value.height, MapDict(p, varType).value.width,
               MapDict(p, varType).value, p.compress)
    requires p.gridName.GridStr? && w.path == BufferTifPath(p.mapsPath, w.stackName, p.gridName.name, expCount)
    ensures WrittenAs(w, rows, values, p, varType, src, expCount)
  {
    assert |Keys(dz)| == |dz|;
  }

  /**
   * The file a successful `grid2tif` call writes: one band per stage key,
   * in order, each burning its masked column on the type's grid; the stack
   * named after the keys; the profile of that stack; the buffer path of
   * the export count under a `str` grid name.
   */
  ghost predicate WrittenAs(w: Written, rows: seq<Row>, values: map<string, seq<real>>, p: IndexParams,
                            varType: string, src: Source, expCount: nat)
  {
    var keys := StageKeys(varType, src, p.lstats);
    && MapDict(p, varType).Ok?
    && |keys| >= 1
    && w.stackName == JoinWith("_", keys)
    && |w.bands| == |keys|
    && (forall i :: 0 <= i < |keys| ==>
         && keys[i] in values && |values[keys[i]]| == |rows|
         && w.bands[i] == Band(Burned(rows, values[keys[i]]), MapDict(p, varType).value))
    && w.profile == DefinesProfile(|keys|, MapDict(p, varType).value.height, MapDict(p, varType).value.width,
         MapDict(p, varType).value, p.compress)
    && p.gridName.GridStr?
    && w.path == BufferTifPath(p.mapsPath, w.stackName, p.gridName.name, expCount)
  }

  // ---------------------------------------------------------------------------
  // incremental_tif_merge: which files are mosaicked, and the output names.

  /** `os.path.basename(p)[:-4]`: the file name without its ".tif". */
  function Stem(p: string): (st: string)
    ensures var b := Basename(p);
      && (|b| >= 4 ==> |st| == |b| - 4 && b == st + b[|st|..])
      && (|b| < 4 ==> st == "")
      && (|b| >= 4 && b[|b| - 4..] == ".tif" ==> b == st + ".tif")
  {
    DropLast(Basename(p), 4)
  }

  /** `os.path.join(os.path.dirname(tif), "merged")`. */
  function MergedFolder(tif: string): (f: string)
    ensures |f| >= |Dirname(tif)| + 6
    ensures f[..|Dirname(tif)|] == Dirname(tif) && f[|f| - 6..] == "merged"
  {
    var d := Dirname(tif);
    var f := PathJoin(d, "merged");
    assert f[..|d|] == d && f[|f| - 6..] == "merged";
    f
  }

  /**
   * The inputs and names of `incremental_tif_merge(tif, tif2, dest_p, copy,
   * copy_name)`. `listing` is what the merged folder holds when the call
   * looks (`os.listdir`). Returns the files mosaicked, in order, and the
   * destination and copy paths; the mosaic and the file writes are not
   * modelled.
   */
  method IncrementalTifMerge(tif: string, tif2: Option<string>, destP: Option<string>, copy: bool,
                             copyName: string, listing: seq<string>)
    returns (sources: seq<string>, dest: string, copyP: Option<string>)
    ensures 1 <= |sources| <= 2 && sources[0] == tif
    ensures tif2.Some? ==> sources == [tif, tif2.value]
    ensures tif2.None? ==> (|sources| == 2 <==> copyName in listing)
    ensures tif2.None? && |sources| == 2 ==> sources[1] == PathJoin(MergedFolder(tif), copyName)
    ensures destP.Some? ==> dest == destP.value
    ensures destP.None? && tif2.None? ==> dest == PathJoin(MergedFolder(tif), Stem(tif) + "_merged.tif")
    ensures destP.None? && tif2.Some? ==>
      dest == PathJoin(MergedFolder(tif), Stem(tif) + "_" + Stem(tif2.value) + "_merged.tif")
    ensures copyP.None? <==> !copy
    ensures copy && tif2.Some? ==> copyP == Some(PathJoin(MergedFolder(tif), "last_tif2merge.tif"))
    ensures copy && tif2.None? ==> copyP == Some(PathJoin(MergedFolder(tif), copyName))
  {
    sources := [tif];
    var tifName := Stem(tif);
    var merged := PathJoin(Dirname(tif), "merged");
    if tif2.Some? {
      sources := sources + [tif2.value];
      var tif2Name := Stem(tif2.value);
      dest := if destP.None? then PathJoin(merged, tifName + "_" + tif2Name + "_merged.tif") else destP.value;
      copyP := if copy then Some(PathJoin(merged, "last_tif2merge.tif")) else None;
    } else {
      if copyName in listing {
        sources := sources + [PathJoin(merged, copyName)];
      }
      dest := if destP.None? then PathJoin(merged, tifName + "_merged.tif") else destP.value;
      copyP := if copy then Some(PathJoin(merged, copyName)) else None;
    }
  }

  /** A relative name joined onto a directory ends the path. */
  lemma PathJoinEndsWith(a: string, b: string)
    requires b != [] && b[0] != '/'
    ensures |PathJoin(a, b)| >= |b| && PathJoin(a, b)[|PathJoin(a, b)| - |b|..] == b
  {
  }

  /**
   * The default destination of a merge lies in the merged folder beside
   * `tif` and is named after the merged files' stems.
   */
  lemma MergeDestinationInMergedFolder(tif: string, tif2: Option<string>)
    ensures var name := if tif2.None? then Stem(tif) + "_merged.tif" else Stem(tif) + "_" + Stem(tif2.value) + "_merged.tif";
      && Dirname(PathJoin(MergedFolder(tif), name)) == MergedFolder(tif)
      && Basename(PathJoin(MergedFolder(tif), name)) == name
  {
    var name := if tif2.None? then Stem(tif) + "_merged.tif" else Stem(tif) + "_" + Stem(tif2.value) + "_merged.tif";
    MergedFolderJoinable(tif);
    MergedNameLacksSlash(tif, tif2);
    JoinDirnameBasename(MergedFolder(tif), name);
  }

  /** The default name of a merge holds no "/". */
  lemma MergedNameLacksSlash(tif: string, tif2: Option<string>)
    ensures var name := if tif2.None? then Stem(tif) + "_merged.tif" else Stem(tif) + "_" + Stem(tif2.value) + "_merged.tif";
      name != [] && Lacks(name, '/')
  {
    StemLacksSlash(tif);
    LacksConcat(Stem(tif), "_merged.tif", '/');
    if tif2.Some? {
      StemLacksSlash(tif2.value);
      LacksConcat(Stem(tif), "_", '/');
      LacksConcat(Stem(tif) + "_", Stem(tif2.value), '/');
      LacksConcat(Stem(tif) + "_" + Stem(tif2.value), "_merged.tif", '/');
    }
  }

  /** The merged folder ends in `merged`, so a name can be joined onto it and split off again. */
  lemma MergedFolderJoinable(tif: string)
    ensures var folder := MergedFolder(tif);
      folder != [] && !EndsWith(folder, '/') && !AllSlashes(folder)
  {
    var folder := MergedFolder(tif);
    PathJoinEndsWith(Dirname(tif), "merged");
    assert folder[|folder| - 1] == 'd';
    assert !AllSlashes(folder) by {
      assert folder[|folder| - 1] != '/';
    }
  }

  lemma LacksConcat(a: string, b: string, c: char)
    requires Lacks(a, c) && Lacks(b, c)
    ensures Lacks(a + b, c)
  {
    forall k | 0 <= k < |a + b|
      ensures (a + b)[k] != c
    {
      if k >= |a| {
        assert (a + b)[k] == b[k - |a|];
      }
    }
  }

  lemma StemLacksSlash(p: string)
    ensures Lacks(Stem(p), '/')
  {
    var b := Basename(p);
    if |b| >= 4 {
      assert Stem(p) == b[..|b| - 4];
    }
  }
}
