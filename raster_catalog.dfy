/**
 * The raster catalog of `raster_provider.py` (`raster_metadata`): for each
 * raster name, its valid range, the nodata value of its file (`nan`), the
 * sentinel that replaces nodata (`new_nan`), its mean and deviation, its
 * resolution in arc-seconds and, for categorical rasters, the category
 * values. The entries are kept in declaration order.
 */
module RasterCatalog {
  import opened Wrappers
  import opened Text
  import IndicesMaps

  /** One catalog entry: `min_val`, `max_val`, `nan`, `new_nan`, `mu`, `sigma`, `res`, `cat`, and whether it has an 'ignore' key. */
  datatype Metadata = Metadata(
    minVal: real, maxVal: real, nan: real, newNan: real,
    mu: real, sigma: real, res: real, cat: Option<seq<real>>, ignored: bool)

  /** The resolution shared by the human-pressure rasters, in arc-seconds. */
  const ArcSecRes: real := 35.613844445368
  /** The resolution of the SoilGrids rasters, in arc-seconds. */
  const SoilGridsRes: real := 32.77676792018758
  /** The float32 nodata value of the WorldClim, biome and ecoregion files. */
  const Float32Lowest: real := -339999995214436420000000000000000000000.0

  function HumanPressure(): seq<(string, Metadata)>
  {
    [
      ("NavWater1994_WGS84", Metadata(0.0, 4.0, -9999.0, -1.0, 0.06879497, 0.411931725, ArcSecRes, None, false)),
      ("NavWater2009_WGS84", Metadata(0.0, 4.0, -9999.0, -1.0, 0.07914783, 0.44055015, ArcSecRes, None, false)),
      ("Railways_WGS84", Metadata(0.0, 8.0, 255.0, -1.0, 0.15251939, 1.0940273, ArcSecRes, Some([8.0]), false)),
      ("Roads_WGS84", Metadata(0.0, 8.0, -2.0, -1.0, 1.3234715, 2.2345204, ArcSecRes, None, false)),
      ("Pasture2009_WGS84", Metadata(0.0, 4.0, 127.0, -1.0, 0.4739912, 0.9447189, ArcSecRes, Some([1.0, 2.0, 3.0, 4.0]), false)),
      ("Pasture1993_WGS84", Metadata(0.0, 4.0, 127.0, -1.0, 0.50720686, 0.9687058, ArcSecRes, Some([1.0, 2.0, 3.0, 4.0]), false)),
      ("croplands2005_WGS84", Metadata(0.0, 7.0, 127.0, -1.0, 0.95726395, 2.4050977, ArcSecRes, Some([7.0]), false)),
      ("croplands1992_WGS84", Metadata(0.0, 7.0, 127.0, -1.0, 0.7948161, 2.2208056, ArcSecRes, Some([7.0]), false)),
      ("Lights2009_WGS84", Metadata(0.0, 10.0, 127.0, -1.0, 0.36079723, 1.5246228, ArcSecRes, Some([1.0, 2.0, 3.0, 4.0, 5.0, 6.0, 7.0, 8.0, 9.0, 10.0]), false)),
      ("Lights1994_WGS84", Metadata(0.0, 10.0, 127.0, -1.0, 0.29228857, 1.4004335, ArcSecRes, Some([1.0, 2.0, 3.0, 4.0, 5.0, 6.0, 7.0, 8.0, 9.0, 10.0]), false)),
      ("Popdensity2010_WGS84", Metadata(0.0, 10.0, 2147483600.0, -1.0, 2.3217769, 2.5324972, ArcSecRes, Some([1.0, 2.0, 3.0, 4.0, 5.0, 6.0, 7.0, 8.0, 9.0, 10.0]), false)),
      ("Popdensity1990_WGS84", Metadata(0.0, 10.0, 127.0, -1.0, 2.100136, 2.3988833, ArcSecRes, Some([1.0, 2.0, 3.0, 4.0, 5.0, 6.0, 7.0, 8.0, 9.0, 10.0]), false)),
      ("Built2009_WGS84", Metadata(0.0, 10.0, 2147483650.0, -1.0, 0.18676297, 1.3537824, ArcSecRes, Some([10.0]), false)),
      ("Built1994_WGS84", Metadata(0.0, 10.0, 2147483650.0, -1.0, 0.16713549, 1.281962, ArcSecRes, Some([10.0]), false))
    ]
  }

  function BiomesEcoregions(ecoCodes: seq<real>): seq<(string, Metadata)>
  {
    [
      ("biomes01", Metadata(1.0, 14.0, Float32Lowest, -1.0, 7.820812352118446, 3.8276948440061425, 360.0, Some([1.0, 2.0, 3.0, 4.0, 5.0, 6.0, 7.0, 8.0, 9.0, 10.0, 11.0, 12.0, 13.0, 14.0]), false)),
      ("biomes001", Metadata(1.0, 14.0, Float32Lowest, -1.0, 7.820618402801339, 3.8274062735774326, 36.0, Some([1.0, 2.0, 3.0, 4.0, 5.0, 6.0, 7.0, 8.0, 9.0, 10.0, 11.0, 12.0, 13.0, 14.0]), false)),
      ("ecoregions01", Metadata(10101.0, 81333.0, Float32Lowest, -1.0, 57775.340511425624, 23246.668162355003, 360.0, Some(ecoCodes), false)),
      ("ecoregions001", Metadata(10101.0, 81333.0, Float32Lowest, -1.0, 57774.163653140575, 23247.29986839079, 36.0, Some(ecoCodes), false))
    ]
  }

  function HumanFootprintClimate(): seq<(string, Metadata)>
  {
    [
      ("HFP2009_WGS84", Metadata(0.0, 50.0, -9999.0, -1.0, 5.855772, 6.8387604, ArcSecRes, None, false)),
      ("HFP1993_WGS84", Metadata(0.0, 50.0, -9999.0, -1.0, 5.406442, 6.529244, ArcSecRes, None, false)),
      ("wc2.1_30s_bio_1", Metadata(-54.770832, 31.3875, Float32Lowest, -56.0, -4.4446025, 24.706017, 30.0, None, false)),
      ("wc2.1_30s_bio_10", Metadata(-38.716667, 38.533333, Float32Lowest, -40.0, 6.941778, 21.19865, 30.0, None, false)),
      ("wc2.1_30s_bio_11", Metadata(-66.416664, 29.3, Float32Lowest, -68.0, -14.421264, 26.796232, 30.0, None, false)),
      ("wc2.1_30s_bio_12", Metadata(0.0, 11256.0, Float32Lowest, -1.0, 532.14465, 630.03644, 30.0, None, false)),
      ("wc2.1_30s_bio_13", Metadata(0.0, 2982.0, Float32Lowest, -1.0, 91.45205, 102.122856, 30.0, None, false)),
      ("wc2.1_30s_bio_14", Metadata(0.0, 528.0, Float32Lowest, -1.0, 14.405708, 27.11674, 30.0, None, false)),
      ("wc2.1_30s_bio_15", Metadata(0.0, 235.28041, Float32Lowest, -1.0, 75.82189, 44.050907, 30.0, None, false)),
      ("wc2.1_30s_bio_16", Metadata(0.0, 6637.0, Float32Lowest, -1.0, 235.6551, 274.2746, 30.0, None, false)),
      ("wc2.1_30s_bio_17", Metadata(0.0, 1649.0, Float32Lowest, -1.0, 52.30186, 90.52435, 30.0, None, false)),
      ("wc2.1_30s_bio_18", Metadata(0.0, 6124.0, Float32Lowest, -1.0, 152.55205, 183.28079, 30.0, None, false)),
      ("wc2.1_30s_bio_19", Metadata(0.0, 5645.0, Float32Lowest, -1.0, 104.11981, 181.23813, 30.0, None, false)),
      ("wc2.1_30s_bio_2", Metadata(1.0, 22.233334, Float32Lowest, 0.0, 10.0962305, 3.1111703, 30.0, None, false)),
      ("wc2.1_30s_bio_3", Metadata(8.243729, 100.0, Float32Lowest, 7.0, 34.370358, 18.710659, 30.0, None, false)),
      ("wc2.1_30s_bio_4", Metadata(0.0, 2382.5247, Float32Lowest, -1.0, 891.212, 467.2958, 30.0, None, false)),
      ("wc2.1_30s_bio_5", Metadata(-31.2, 48.6, Float32Lowest, -33.0, 13.787962, 21.70779, 30.0, None, false)),
      ("wc2.1_30s_bio_6", Metadata(-72.6, 26.5, Float32Lowest, -74.0, -20.40257, 26.016174, 30.0, None, false)),
      ("wc2.1_30s_bio_7", Metadata(1.0, 72.8, Float32Lowest, 0.0, 34.190613, 12.002961, 30.0, None, false)),
      ("wc2.1_30s_bio_8", Metadata(-66.35, 38.016666, Float32Lowest, -68.0, -1.3610482, 29.150635, 30.0, None, false)),
      ("wc2.1_30s_bio_9", Metadata(-57.183334, 37.683334, Float32Lowest, -59.0, -5.745067, 22.773882, 30.0, None, false))
    ]
  }

  function SoilGrids(): seq<(string, Metadata)>
  {
    [
      ("bdod_0-5cm_mean_1000_WGS84", Metadata(7.0, 182.0, -32768.0, -1.0, 111.14117, 29.322037, SoilGridsRes, None, false)),
      ("cec_0-5cm_mean_1000_WGS84", Metadata(10.0, 1043.0, -32768.0, -1.0, 283.2858, 138.39671, SoilGridsRes, None, false)),
      ("cfvo_0-5cm_mean_1000_WGS84", Metadata(0.0, 808.0, -32768.0, -1.0, 126.41906, 68.653915, SoilGridsRes, None, false)),
      ("clay_0-5cm_mean_1000_WGS84", Metadata(8.0, 796.0, -32768.0, -1.0, 236.73318, 76.499245, SoilGridsRes, None, false)),
      ("nitrogen_0-5cm_mean_1000_WGS84", Metadata(15.0, 30992.0, -32768.0, -1.0, 4641.656, 3697.1582, SoilGridsRes, None, false)),
      ("ocd_0-5cm_mean_1000_WGS84", Metadata(35.0, 1199.0, -32768.0, -1.0, 393.91708, 193.66812, SoilGridsRes, None, false)),
      ("ocs_0-30cm_mean_1000_WGS84", Metadata(4.0, 265.0, -32768.0, -1.0, 51.37108, 23.89384, SoilGridsRes, None, false)),
      ("phh2o_0-5cm_mean_1000_WGS84", Metadata(34.0, 103.0, -32768.0, -1.0, 63.444016, 11.182072, SoilGridsRes, None, false)),
      ("sand_0-5cm_mean_1000_WGS84", Metadata(4.0, 982.0, -32768.0, -1.0, 446.11685, 135.35095, SoilGridsRes, None, false)),
      ("silt_0-5cm_mean_1000_WGS84", Metadata(3.0, 894.0, -32768.0, -1.0, 317.1515, 106.88893, SoilGridsRes, None, false)),
      ("soc_0-5cm_mean_1000_WGS84", Metadata(8.0, 4922.0, -32768.0, -1.0, 688.285, 687.8051, SoilGridsRes, None, false))
    ]
  }

  /**
   * The whole catalog. The 815 ecoregion codes shared by "ecoregions01" and
   * "ecoregions001" are a parameter.
   */
  function Catalog(ecoCodes: seq<real>): seq<(string, Metadata)>
  {
    HumanPressure() + BiomesEcoregions(ecoCodes) + HumanFootprintClimate() + SoilGrids()
  }

  function Names(catalog: seq<(string, Metadata)>): (names: seq<string>)
    ensures |names| == |catalog| && forall i :: 0 <= i < |catalog| ==> names[i] == catalog[i].0
  {
    seq(|catalog|, i requires 0 <= i < |catalog| => catalog[i].0)
  }

  /** `raster_metadata[name]`: the value of the last entry with that name (as in a dict display); KeyError when there is none. */
  function Find(catalog: seq<(string, Metadata)>, name: string): (r: Result<Metadata>)
    ensures r.Raise? <==> name !in Names(catalog)
    ensures r.Raise? ==> r.exc == KeyError
    ensures r.Ok? ==> exists i :: 0 <= i < |catalog| && catalog[i] == (name, r.value)
  {
    if catalog == [] then Raise(KeyError)
    else
      var last := catalog[|catalog| - 1];
      assert Names(catalog) == Names(catalog[..|catalog| - 1]) + [last.0];
      if last.0 == name then Ok(last.1)
      else
        var r := Find(catalog[..|catalog| - 1], name);
        if r.Ok? then
          var i :| 0 <= i < |catalog| - 1 && catalog[..|catalog| - 1][i] == (name, r.value);
          assert catalog[i] == (name, r.value);
          r
        else r
  }

  /** `sorted(raster_metadata.keys())`: every name once, in code-point order. */
  function SortedKeys(catalog: seq<(string, Metadata)>): (keys: seq<string>)
    ensures SortedStrings(keys)
    ensures forall k :: k in keys <==> k in Names(catalog)
  {
    var keys := SortStrings(IndicesMaps.Dedup(Names(catalog)));
    assert forall k :: k in keys <==> k in multiset(keys);
    keys
  }

  /**
   * The catalog's invariant for one entry: the sentinel lies below the
   * valid range, the range has positive width, the deviation is positive
   * (so that Normalize and Standardize never divide by zero), and every
   * category lies in the range.
   */
  predicate WellFormed(m: Metadata)
  {
    && m.newNan < m.minVal < m.maxVal
    && m.sigma > 0.0
    && (m.cat.Some? ==> forall k :: 0 <= k < |m.cat.value| ==> m.minVal <= m.cat.value[k] <= m.maxVal)
  }

  predicate AllWellFormed(entries: seq<(string, Metadata)>)
  {
    forall i :: 0 <= i < |entries| ==> WellFormed(entries[i].1) && !entries[i].1.ignored
  }

  lemma HumanPressureWellFormed()
    ensures AllWellFormed(HumanPressure())
  {
  }

  lemma BiomesEcoregionsWellFormed(ecoCodes: seq<real>)
    requires forall k :: 0 <= k < |ecoCodes| ==> 10101.0 <= ecoCodes[k] <= 81333.0
    ensures AllWellFormed(BiomesEcoregions(ecoCodes))
  {
  }

  lemma HumanFootprintClimateWellFormed()
    ensures AllWellFormed(HumanFootprintClimate())
  {
  }

  lemma SoilGridsWellFormed()
    ensures AllWellFormed(SoilGrids())
  {
  }

  lemma AllWellFormedAppend(a: seq<(string, Metadata)>, b: seq<(string, Metadata)>)
    requires AllWellFormed(a) && AllWellFormed(b)
    ensures AllWellFormed(a + b)
  {
    forall i | 0 <= i < |a + b|
      ensures WellFormed((a + b)[i].1) && !(a + b)[i].1.ignored
    {
      if i >= |a| {
        assert (a + b)[i] == b[i - |a|];
      }
    }
  }

  /**
   * Every entry of the catalog keeps its sentinel below its valid range and
   * its categories inside it, and none is marked 'ignore', provided the
   * ecoregion codes lie between the declared bounds 10101 and 81333.
   */
  lemma CatalogWellFormed(ecoCodes: seq<real>)
    requires forall k :: 0 <= k < |ecoCodes| ==> 10101.0 <= ecoCodes[k] <= 81333.0
    ensures AllWellFormed(Catalog(ecoCodes))
  {
    HumanPressureWellFormed();
    BiomesEcoregionsWellFormed(ecoCodes);
    HumanFootprintClimateWellFormed();
    SoilGridsWellFormed();
    AllWellFormedAppend(HumanPressure(), BiomesEcoregions(ecoCodes));
    AllWellFormedAppend(HumanPressure() + BiomesEcoregions(ecoCodes), HumanFootprintClimate());
    AllWellFormedAppend(HumanPressure() + BiomesEcoregions(ecoCodes) + HumanFootprintClimate(), SoilGrids());
  }

  /** A well-formed entry's sentinel is never a category value, nor inside the valid range. */
  lemma SentinelOutsideRange(m: Metadata)
    requires WellFormed(m)
    ensures !(m.minVal <= m.newNan <= m.maxVal)
    ensures m.cat.Some? ==> m.newNan !in m.cat.value
  {
  }

  /** Looking a name up in a well-formed catalog gives a well-formed entry. */
  lemma FindWellFormed(catalog: seq<(string, Metadata)>, name: string)
    requires AllWellFormed(catalog)
    requires Find(catalog, name).Ok?
    ensures WellFormed(Find(catalog, name).value) && !Find(catalog, name).value.ignored
  {
    var i :| 0 <= i < |catalog| && catalog[i] == (name, Find(catalog, name).value);
  }
}
