/**
 * `GeoProvider` of `geo_provider.py`: a two-band patch holding, for every
 * cell, a latitude (band 0) and a longitude (band 1) derived from the
 * occurrence's coordinates, optionally normalised to [-1, 1] or
 * standardised with fixed means and deviations.
 *
 * `extent` and `geo_features` are expressions over their inputs and are
 * functions here; `Normalize` and `Standardize` rewrite the first two bands
 * of a NumPy array in place and are methods over a three-dimensional array.
 * `__getitem__` is the function `GetItem`, which applies the same band
 * rewrites to the patch as a value.
 */
module GeoProviders {
  import opened Wrappers
  import Numeric
  import opened NdArrays
  import RasterPatches

  // ---------------------------------------------------------------------------
  // The provider's constants.

  const MinLat: real := -90.0
  const MaxLat: real := 90.0
  const MinLon: real := -180.0
  const MaxLon: real := 180.0
  const AvgLat: real := 29.50334
  const StdLat: real := 35.58280
  const AvgLon: real := 24.09806
  const StdLon: real := 67.70266

  /** The constructor's arguments; every other field is one of the constants above. */
  datatype GeoProvider = GeoProvider(
    mode: string,                          // "constant", "degraded" or "sliding"
    size: int,                             // side of the square patch
    res: int,                              // metres per cell, used by `extent`
    decimals: int,                         // `degrad_decimal_round`
    patchTransform: Option<seq<string>>)   // the names of the transforms, or `None`

  /** The keyword defaults of `GeoProvider()`. */
  const DefaultProvider := GeoProvider("constant", 64, 10, 2, None)

  // ---------------------------------------------------------------------------
  // Per-cell rewrites.

  /** `Normalize`'s latitude map: [-90, 90] onto [-1, 1], linearly. */
  function LatUnit(x: real): (u: real)
    ensures MinLat <= x <= MaxLat <==> -1.0 <= u <= 1.0
    ensures (u + 1.0) * (MaxLat - MinLat) / 2.0 + MinLat == x
  {
    2.0 * (x - MinLat) / (MaxLat - MinLat) - 1.0
  }

  /** `Normalize`'s longitude map: [-180, 180] onto [-1, 1], linearly. */
  function LonUnit(x: real): (u: real)
    ensures MinLon <= x <= MaxLon <==> -1.0 <= u <= 1.0
    ensures (u + 1.0) * (MaxLon - MinLon) / 2.0 + MinLon == x
  {
    2.0 * (x - MinLon) / (MaxLon - MinLon) - 1.0
  }

  /** `Standardize`'s latitude map: the z-score against the fixed mean and deviation. */
  function LatScore(x: real): (z: real)
    ensures z * StdLat + AvgLat == x
    ensures z >= 0.0 <==> x >= AvgLat
  {
    (x - AvgLat) / StdLat
  }

  /** `Standardize`'s longitude map. */
  function LonScore(x: real): (z: real)
    ensures z * StdLon + AvgLon == x
    ensures z >= 0.0 <==> x >= AvgLon
  {
    (x - AvgLon) / StdLon
  }

  /** Both maps keep the order of coordinates, so a sliding patch keeps its direction. */
  lemma RewritesMonotone(x: real, y: real)
    requires x <= y
    ensures LatUnit(x) <= LatUnit(y) && LonUnit(x) <= LonUnit(y)
    ensures LatScore(x) <= LatScore(y) && LonScore(x) <= LonScore(y)
  {
  }

  // ---------------------------------------------------------------------------
  // `Normalize` and `Standardize` on an array, in place.

  /** `patch[b, :, :] = f(patch[b, :, :])`: band `b` rewritten cell by cell, nothing else touched. */
  method MapBand(patch: array3<real>, b: nat, f: real -> real)
    requires b < patch.Length0
    modifies patch
    ensures forall c, i, j :: 0 <= c < patch.Length0 && 0 <= i < patch.Length1 && 0 <= j < patch.Length2 ==>
      patch[c, i, j] == if c == b then f(old(patch[c, i, j])) else old(patch[c, i, j])
  {
    var i := 0;
    while i < patch.Length1
      invariant 0 <= i <= patch.Length1
      invariant forall c, i', j :: 0 <= c < patch.Length0 && 0 <= i' < patch.Length1 && 0 <= j < patch.Length2 ==>
        patch[c, i', j] == if c == b && i' < i then f(old(patch[c, i', j])) else old(patch[c, i', j])
    {
      var j := 0;
      while j < patch.Length2
        invariant 0 <= j <= patch.Length2
        invariant forall c, i', j' :: 0 <= c < patch.Length0 && 0 <= i' < patch.Length1 && 0 <= j' < patch.Length2 ==>
          patch[c, i', j'] ==
            if c == b && (i' < i || (i' == i && j' < j)) then f(old(patch[c, i', j'])) else old(patch[c, i', j'])
      {
        patch[b, i, j] := f(patch[b, i, j]);
        j := j + 1;
      }
      i := i + 1;
    }
  }

  /** `Normalize(patch)`: band 0 through `LatUnit`, band 1 through `LonUnit`, in place. */
  method Normalize(patch: array3<real>)
    requires patch.Length0 >= 2
    modifies patch
    ensures forall c, i, j :: 0 <= c < patch.Length0 && 0 <= i < patch.Length1 && 0 <= j < patch.Length2 ==>
      patch[c, i, j] ==
        if c == 0 then LatUnit(old(patch[c, i, j]))
        else if c == 1 then LonUnit(old(patch[c, i, j]))
        else old(patch[c, i, j])
  {
    MapBand(patch, 0, LatUnit);
    MapBand(patch, 1, LonUnit);
  }

  /** `Standardize(patch)`: band 0 through `LatScore`, band 1 through `LonScore`, in place. */
  method Standardize(patch: array3<real>)
    requires patch.Length0 >= 2
    modifies patch
    ensures forall c, i, j :: 0 <= c < patch.Length0 && 0 <= i < patch.Length1 && 0 <= j < patch.Length2 ==>
      patch[c, i, j] ==
        if c == 0 then LatScore(old(patch[c, i, j]))
        else if c == 1 then LonScore(old(patch[c, i, j]))
        else old(patch[c, i, j])
  {
    MapBand(patch, 0, LatScore);
    MapBand(patch, 1, LonScore);
  }

  // ---------------------------------------------------------------------------
  // `extent`.

  /** `(dlat_min, dlat_max, dlon_min, dlon_max)`. */
  datatype Extent = Extent(latMin: real, latMax: real, lonMin: real, lonMax: real)

  /** `d = size * res // 2 / 1000`: half the patch side, in kilometres. */
  function HalfSide(size: int, res: int): (d: real)
    ensures size * res >= 0 ==> d >= 0.0
  {
    Numeric.FloorDiv(size * res, 2) as real / 1000.0
  }

  /** A lower bound below `-m` is replaced by Python's `x % m`; otherwise kept. */
  function WrapMin(x: real, m: real): (y: real)
    requires m == 90.0 || m == 180.0
    ensures y >= -m
    ensures x < -m ==> 0.0 <= y < m
  {
    if x >= -m then x else Numeric.PyMod(x, m)
  }

  /** An upper bound above `m` is replaced by Python's `x % -m`; otherwise kept. */
  function WrapMax(x: real, m: real): (y: real)
    requires m == 90.0 || m == 180.0
    ensures y <= m
    ensures x > m ==> -m < y <= 0.0
  {
    if x <= m then x else Numeric.PyMod(x, -m)
  }

  /**
   * `extent(dlat, dlon)`, with the longitude half-width `delta_lon` (which
   * the source derives from the cosine of the latitude) given: the bounds
   * of the square around the point, each one brought back within the
   * latitude or longitude range when it overshoots.
   */
  function ExtentOf(size: int, res: int, dlat: real, dlon: real, deltaLon: real): (e: Extent)
    ensures MinLat <= e.latMin && e.latMax <= MaxLat
    ensures MinLon <= e.lonMin && e.lonMax <= MaxLon
  {
    var deltaLat := HalfSide(size, res) / 111.0;
    Extent(WrapMin(dlat - deltaLat, 90.0), WrapMax(dlat + deltaLat, 90.0),
           WrapMin(dlon - deltaLon, 180.0), WrapMax(dlon + deltaLon, 180.0))
  }

  /**
   * Away from the poles and the antimeridian no bound is wrapped: the
   * extent is centred on the point, `2 d / 111` degrees tall and
   * `2 delta_lon` degrees wide.
   */
  lemma ExtentAround(size: int, res: int, dlat: real, dlon: real, deltaLon: real)
    requires size * res >= 0 && deltaLon >= 0.0
    requires MinLat <= dlat - HalfSide(size, res) / 111.0 && dlat + HalfSide(size, res) / 111.0 <= MaxLat
    requires MinLon <= dlon - deltaLon && dlon + deltaLon <= MaxLon
    ensures var e := ExtentOf(size, res, dlat, dlon, deltaLon);
      && e.latMin <= dlat <= e.latMax && e.lonMin <= dlon <= e.lonMax
      && e.latMax - e.latMin == 2.0 * HalfSide(size, res) / 111.0
      && e.lonMax - e.lonMin == 2.0 * deltaLon
      && (e.latMin + e.latMax) / 2.0 == dlat && (e.lonMin + e.lonMax) / 2.0 == dlon
  {
  }

  // ---------------------------------------------------------------------------
  // `geo_features`.

  /** The spacing of `np.linspace(start, stop, n)`. */
  function Step(start: real, stop: real, n: nat): real
  {
    if n > 1 then (stop - start) / (n - 1) as real else 0.0
  }

  /** `np.linspace(start, stop, num=n)`: `n` evenly spaced values, the last one set to `stop`. */
  function Linspace(start: real, stop: real, n: nat): (r: seq<real>)
    ensures |r| == n
    ensures n >= 1 ==> r[0] == start
    ensures n >= 2 ==> r[n - 1] == stop
  {
    seq(n, i requires 0 <= i < n => if n > 1 && i == n - 1 then stop else start + i as real * Step(start, stop, n))
  }

  /** Every value, the last included, is `start + i * step`: the values are evenly spaced. */
  lemma LinspaceAt(start: real, stop: real, n: nat, i: nat)
    requires i < n
    ensures Linspace(start, stop, n)[i] == start + i as real * Step(start, stop, n)
  {
    if n > 1 && i == n - 1 {
      var k := (n - 1) as real;
      assert k * ((stop - start) / k) == stop - start;
    }
  }

  /** Multiplying by a non-negative (non-positive) factor keeps (reverses) an order. */
  lemma ScaleOrder(a: real, b: real, s: real)
    requires a <= b
    ensures s >= 0.0 ==> a * s <= b * s
    ensures s <= 0.0 ==> b * s <= a * s
  {
    assert b * s - a * s == (b - a) * s;
  }

  /** The offsets `i * s <= j * s <= m * s` of three positions, reversed for a negative step. */
  lemma ScaledPositions(i: nat, j: nat, m: nat, s: real)
    requires i <= j <= m
    ensures s >= 0.0 ==> 0.0 <= i as real * s <= j as real * s <= m as real * s
    ensures s <= 0.0 ==> m as real * s <= j as real * s <= i as real * s <= 0.0
  {
    ScaleOrder(0.0, i as real, s);
    ScaleOrder(i as real, j as real, s);
    ScaleOrder(j as real, m as real, s);
  }

  /** The step has the sign of `stop - start`. */
  lemma StepSign(start: real, stop: real, n: nat)
    ensures start <= stop ==> Step(start, stop, n) >= 0.0
    ensures stop <= start ==> Step(start, stop, n) <= 0.0
  {
  }

  /** The ordering argument of `LinspaceMonotone`, on the offsets `x <= y <= z` of two values and the last from `start`. */
  lemma OffsetsOrdered(start: real, stop: real, s: real, x: real, y: real, z: real)
    requires stop == start + z
    requires s >= 0.0 ==> 0.0 <= x <= y <= z
    requires s <= 0.0 ==> z <= y <= x <= 0.0
    requires start <= stop ==> s >= 0.0
    requires stop <= start ==> s <= 0.0
    ensures start <= stop ==> start <= start + x <= start + y <= stop
    ensures stop <= start ==> stop <= start + y <= start + x <= start
  {
  }

  /** The ordering argument of `LinspaceMonotone` for values `ri`, `rj` at positions `i <= j` of a grid of step `s` ending at `stop`, position `m`. */
  lemma SteppedValuesOrdered(start: real, stop: real, s: real, i: nat, j: nat, m: nat, ri: real, rj: real)
    requires i <= j <= m
    requires ri == start + i as real * s && rj == start + j as real * s && stop == start + m as real * s
    requires start <= stop ==> s >= 0.0
    requires stop <= start ==> s <= 0.0
    ensures start <= stop ==> start <= ri <= rj <= stop
    ensures stop <= start ==> stop <= rj <= ri <= start
  {
    ScaledPositions(i, j, m, s);
    OffsetsOrdered(start, stop, s, i as real * s, j as real * s, m as real * s);
  }

  /** The values run monotonically from `start` to `stop`, and stay between them. */
  lemma LinspaceMonotone(start: real, stop: real, n: nat, i: nat, j: nat)
    requires i <= j < n
    ensures var r := Linspace(start, stop, n);
      && (start <= stop ==> start <= r[i] <= r[j] <= stop)
      && (stop <= start ==> stop <= r[j] <= r[i] <= start)
  {
    if n > 1 {
      var r, s := Linspace(start, stop, n), Step(start, stop, n);
      LinspaceAt(start, stop, n, i);
      LinspaceAt(start, stop, n, j);
      LinspaceAt(start, stop, n, n - 1);
      StepSign(start, stop, n);
      SteppedValuesOrdered(start, stop, s, i, j, n - 1, r[i], r[j]);
    }
  }

  /** `10^k`. */
  function Power10(k: nat): (p: real)
    ensures p >= 1.0
  {
    if k == 0 then 1.0 else 10.0 * Power10(k - 1)
  }

  /** The step of `decimals` decimal places: `10^-decimals`. */
  function DecimalStep(decimals: int): (s: real)
    ensures s > 0.0
    ensures decimals >= 0 ==> s * Power10(decimals) == 1.0
    ensures decimals < 0 ==> s == Power10(-decimals)
  {
    if decimals >= 0 then 1.0 / Power10(decimals) else Power10(-decimals)
  }

  /** For non-negative `decimals`, dividing by the step is scaling by `10^decimals`. */
  lemma DividedByStep(y: real, decimals: int)
    requires decimals >= 0
    ensures y / DecimalStep(decimals) == y * Power10(decimals)
  {
    var s, p := DecimalStep(decimals), Power10(decimals);
    assert s * p == 1.0;
    assert (y * p) * s == y;
  }

  /**
   * Rounds `x` to the nearest multiple of `s`, a tie going to the even one:
   * divided by `s` the result is a whole number within half a unit of
   * `x / s`, and an even one on a tie.
   */
  function RoundToMultiple(x: real, s: real): (y: real)
    requires s > 0.0
    ensures x / s - 0.5 <= y / s <= x / s + 0.5
    ensures (y / s).Floor as real == y / s
    ensures x / s - (x / s).Floor as real == 0.5 ==> (y / s).Floor % 2 == 0
  {
    var n := Numeric.Round(x / s);
    var y := n as real * s;
    DividedBack(x, s, n, y);
    y
  }

  /** `n * s`, for `n` the rounded `x / s`, is `x` rounded to a multiple of `s`. */
  lemma DividedBack(x: real, s: real, n: int, y: real)
    requires s > 0.0 && n == Numeric.Round(x / s) && y == n as real * s
    ensures x / s - 0.5 <= y / s <= x / s + 0.5
    ensures (y / s).Floor as real == y / s
    ensures x / s - (x / s).Floor as real == 0.5 ==> (y / s).Floor % 2 == 0
  {
    assert y / s == n as real;
  }

  /**
   * NumPy's `np.round(x, decimals)`: the nearest multiple of the step
   * `10^-decimals`, a tie going to the even one. Divided by the step, the
   * result is a whole number within half a unit of `x` divided by it, and
   * an even one on a tie.
   */
  function RoundTo(x: real, decimals: int): (y: real)
    ensures var s := DecimalStep(decimals);
      && x / s - 0.5 <= y / s <= x / s + 0.5
      && (y / s).Floor as real == y / s
      && (x / s - (x / s).Floor as real == 0.5 ==> (y / s).Floor % 2 == 0)
  {
    RoundToMultiple(x, DecimalStep(decimals))
  }

  /** The geo tensor: two `n` by `n` bands, or, for an unknown mode, `np.stack((None, None))`. */
  datatype GeoTensor = Bands(n: nat, lat: Grid, lon: Grid) | Nones

  /** The two bands are `n` by `n`. */
  predicate Shaped(t: GeoTensor)
  {
    t.Bands? ==> IsRect(t.lat, t.n, t.n) && IsRect(t.lon, t.n, t.n)
  }

  /** `np.broadcast_to(vec, (n, n)).T`: row `i` repeats `vec[i]`. */
  function RowsOf(vec: seq<real>): (g: Grid)
    ensures IsRect(g, |vec|, |vec|)
    ensures forall i, j :: 0 <= i < |vec| && 0 <= j < |vec| ==> g[i][j] == vec[i]
  {
    seq(|vec|, i requires 0 <= i < |vec| => seq(|vec|, j => vec[i]))
  }

  /** `np.broadcast_to(vec, (n, n))`: every row is `vec`. */
  function ColumnsOf(vec: seq<real>): (g: Grid)
    ensures IsRect(g, |vec|, |vec|)
    ensures forall i, j :: 0 <= i < |vec| && 0 <= j < |vec| ==> g[i][j] == vec[j]
  {
    seq(|vec|, i => vec)
  }

  /**
   * `geo_features(dlat, dlon)`. A negative size makes `np.broadcast_to`
   * or `np.linspace` raise ValueError; an unknown mode yields the
   * two-element object array of `None`s.
   */
  function GeoFeatures(p: GeoProvider, dlat: real, dlon: real, deltaLon: real): (r: Result<GeoTensor>)
    ensures r.Ok? ==> Shaped(r.value)
    ensures r.Raise? <==> p.size < 0 && p.mode in {"constant", "degraded", "sliding"}
    ensures r.Ok? && r.value.Bands? ==> r.value.n == p.size
  {
    if p.mode !in {"constant", "degraded", "sliding"} then Ok(Nones)
    else if p.size < 0 then Raise(ValueError)
    else if p.mode == "constant" then
      Ok(Bands(p.size, RasterPatches.Full(p.size, p.size, dlat), RasterPatches.Full(p.size, p.size, dlon)))
    else if p.mode == "degraded" then
      Ok(Bands(p.size, RasterPatches.Full(p.size, p.size, RoundTo(dlat, p.decimals)),
                       RasterPatches.Full(p.size, p.size, RoundTo(dlon, p.decimals))))
    else
      var e := ExtentOf(p.size, p.res, dlat, dlon, deltaLon);
      Ok(Bands(p.size, RowsOf(Linspace(e.latMax, e.latMin, p.size)), ColumnsOf(Linspace(e.lonMin, e.lonMax, p.size))))
  }

  /** Constant mode: every cell of band 0 is the latitude, every cell of band 1 the longitude. */
  lemma ConstantFeatures(p: GeoProvider, dlat: real, dlon: real, deltaLon: real)
    requires p.mode == "constant" && p.size >= 0
    ensures var r := GeoFeatures(p, dlat, dlon, deltaLon);
      && r.Ok? && r.value.Bands? && r.value.n == p.size
      && (forall i, j :: 0 <= i < p.size && 0 <= j < p.size ==> r.value.lat[i][j] == dlat && r.value.lon[i][j] == dlon)
  {
  }

  /**
   * Sliding mode: band 0 is constant along each row and falls from the
   * extent's top latitude (first row) to its bottom latitude (last row);
   * band 1 is constant along each column and rises from the extent's
   * western longitude (first column) to its eastern one (last column).
   */
  lemma SlidingFeatures(p: GeoProvider, dlat: real, dlon: real, deltaLon: real, i: nat, j: nat, k: nat)
    requires p.mode == "sliding" && i <= k < p.size && j < p.size
    requires p.size * p.res >= 0 && deltaLon >= 0.0
    requires MinLat <= dlat - HalfSide(p.size, p.res) / 111.0 && dlat + HalfSide(p.size, p.res) / 111.0 <= MaxLat
    requires MinLon <= dlon - deltaLon && dlon + deltaLon <= MaxLon
    ensures var r := GeoFeatures(p, dlat, dlon, deltaLon);
      var e := ExtentOf(p.size, p.res, dlat, dlon, deltaLon);
      && r.Ok? && r.value.Bands?
      && r.value.lat[i][j] == r.value.lat[i][0] && r.value.lon[j][i] == r.value.lon[0][i]
      && r.value.lat[0][j] == e.latMax && r.value.lon[j][0] == e.lonMin
      && (p.size >= 2 ==> r.value.lat[p.size - 1][j] == e.latMin && r.value.lon[j][p.size - 1] == e.lonMax)
      && e.latMin <= r.value.lat[k][j] <= r.value.lat[i][j] <= e.latMax
      && e.lonMin <= r.value.lon[j][i] <= r.value.lon[j][k] <= e.lonMax
  {
    var e := ExtentOf(p.size, p.res, dlat, dlon, deltaLon);
    ExtentAround(p.size, p.res, dlat, dlon, deltaLon);
    LinspaceMonotone(e.latMax, e.latMin, p.size, i, k);
    LinspaceMonotone(e.lonMin, e.lonMax, p.size, i, k);
  }

  // ---------------------------------------------------------------------------
  // `__getitem__`.

  /** Every cell of a grid through `f`. */
  function MapGrid(g: Grid, f: real -> real): (h: Grid)
    ensures |h| == |g|
    ensures forall i :: 0 <= i < |g| ==> |h[i]| == |g[i]|
    ensures forall i, j :: 0 <= i < |g| && 0 <= j < |g[i]| ==> h[i][j] == f(g[i][j])
  {
    seq(|g|, i requires 0 <= i < |g| => seq(|g[i]|, j requires 0 <= j < |g[i]| => f(g[i][j])))
  }

  /**
   * `Normalize` or `Standardize` applied to the value `geo_features`
   * produced: `None` cannot be indexed (TypeError), the one-dimensional
   * object array has no second axis (IndexError).
   */
  function RewriteBands(t: Option<GeoTensor>, fLat: real -> real, fLon: real -> real): (r: Result<Option<GeoTensor>>)
    ensures r.Raise? <==> t.None? || t.value.Nones?
    ensures r.Raise? ==> r.exc == (if t.None? then TypeError else IndexError)
    ensures r.Ok? ==> r.value.Some? && r.value.value.Bands? && r.value.value.n == t.value.n
    ensures r.Ok? && Shaped(t.value) ==> Shaped(r.value.value)
  {
    match t
    case None => Raise(TypeError)
    case Some(Nones) => Raise(IndexError)
    case Some(Bands(n, lat, lon)) => Ok(Some(Bands(n, MapGrid(lat, fLat), MapGrid(lon, fLon))))
  }

  /**
   * `__getitem__((id, lat, lng))`: the geo features, `None` when computing
   * them raised; then `Normalize` when the transform list names it, else
   * `Standardize` when it names that.
   */
  function GetItem(p: GeoProvider, lat: real, lng: real, deltaLon: real): (r: Result<Option<GeoTensor>>)
    ensures r.Ok? && r.value.Some? ==> Shaped(r.value.value)
    ensures r.Raise? ==> p.patchTransform.Some? && r.exc in {TypeError, IndexError}
  {
    var features := GeoFeatures(p, lat, lng, deltaLon);
    var t := if features.Ok? then Some(features.value) else None;
    if p.patchTransform.None? then Ok(t)
    else if "Normalize" in p.patchTransform.value then RewriteBands(t, LatUnit, LonUnit)
    else if "Standardize" in p.patchTransform.value then RewriteBands(t, LatScore, LonScore)
    else Ok(t)
  }

  /** A failure inside `geo_features` is swallowed: without a transform the item is `None`. */
  lemma FailureGivesNone(p: GeoProvider, lat: real, lng: real, deltaLon: real)
    requires p.size < 0 && p.mode in {"constant", "degraded", "sliding"}
    ensures p.patchTransform.None? ==> GetItem(p, lat, lng, deltaLon) == Ok(None)
    ensures p.patchTransform.Some? && ("Normalize" in p.patchTransform.value || "Standardize" in p.patchTransform.value)
      ==> GetItem(p, lat, lng, deltaLon) == Raise(TypeError)
  {
  }

  /** With both transforms named only `Normalize` runs. */
  lemma NormalizeWins(p: GeoProvider, lat: real, lng: real, deltaLon: real)
    requires p.patchTransform.Some? && "Normalize" in p.patchTransform.value && "Standardize" in p.patchTransform.value
    ensures var t := GeoFeatures(p, lat, lng, deltaLon);
      GetItem(p, lat, lng, deltaLon) == RewriteBands(if t.Ok? then Some(t.value) else None, LatUnit, LonUnit)
  {
  }

  /**
   * Normalised constant patches of valid coordinates lie in [-1, 1], and
   * every cell maps back to the coordinates.
   */
  lemma NormalizedConstantInUnit(p: GeoProvider, lat: real, lng: real, deltaLon: real, i: nat, j: nat)
    requires p.mode == "constant" && i < p.size && j < p.size
    requires p.patchTransform == Some(["Normalize"])
    requires MinLat <= lat <= MaxLat && MinLon <= lng <= MaxLon
    ensures var r := GetItem(p, lat, lng, deltaLon);
      && r.Ok? && r.value.Some? && r.value.value.Bands?
      && -1.0 <= r.value.value.lat[i][j] <= 1.0 && -1.0 <= r.value.value.lon[i][j] <= 1.0
      && (r.value.value.lat[i][j] + 1.0) * 90.0 - 90.0 == lat
      && (r.value.value.lon[i][j] + 1.0) * 180.0 - 180.0 == lng
  {
    ConstantFeatures(p, lat, lng, deltaLon);
    var t := GeoFeatures(p, lat, lng, deltaLon).value;
    assert GetItem(p, lat, lng, deltaLon) == RewriteBands(Some(t), LatUnit, LonUnit);
  }

  /** An unknown mode reaches the transforms as a one-dimensional array, which they cannot index. */
  lemma UnknownModeRaises(p: GeoProvider, lat: real, lng: real, deltaLon: real)
    requires p.mode !in {"constant", "degraded", "sliding"}
    requires p.patchTransform.Some? && "Standardize" in p.patchTransform.value
    ensures GetItem(p, lat, lng, deltaLon) == Raise(IndexError)
  {
  }

  /** The item as the NumPy array handed to `ModularDataset`: shape `(2, size, size)` or `(2,)` of `None`. */
  function AsArray(t: Option<GeoTensor>): (a: Option<NdArray>)
    requires t.Some? ==> Shaped(t.value)
    ensures t.Some? <==> a.Some?
    ensures a.Some? ==> WellShaped(a.value)
    ensures a.Some? && t.value.Bands? ==> NdArrays.Numeric(a.value) && a.value.shape == [2, t.value.n, t.value.n]
    ensures a.Some? && t.value.Nones? ==> a.value.shape == [2] && !NdArrays.Numeric(a.value)
  {
    match t
    case None => None
    case Some(Nones) =>
      assert Product([2]) == 2 * Product([]);
      var nones: seq<Option<real>> := [None, None];
      assert nones[0].None?;
      Some(NdArray([2], nones))
    case Some(Bands(n, lat, lon)) => Some(StackGrids([lat, lon], n, n))
  }
}
