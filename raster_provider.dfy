/**
 * `RasterProvider` of `raster_provider.py`: the list of rasters a dataset
 * reads, filled from the raster catalog (every entry in sorted order, or the
 * names asked for), and the environmental tensor of one occurrence, the
 * patches of every raster stacked along the first axis.
 *
 * Which raster files can be opened is a parameter (`files`), as are the
 * cosine of the occurrence's latitude and cv2's resize.
 */
module RasterProviders {
  import opened Wrappers
  import Numeric
  import opened NdArrays
  import opened Text
  import opened Ecoregions
  import opened RasterCatalog
  import opened RasterPatches
  import opened Rasters

  /** What opening `root_path + name + '.tif'` gives, by raster name. */
  type Files = string -> Option<RasterFile>

  /** An element of `patch_transform`: a callable, or a string, which cannot be called (TypeError). */
  datatype PatchStep = Call(f: NdArray -> Result<NdArray>) | Named(s: string)

  /** `for transform in patch_transform: patch = transform(patch)`. */
  function ApplyPatchSteps(steps: seq<PatchStep>, p: NdArray): (r: Result<NdArray>)
    ensures steps == [] ==> r == Ok(p)
    ensures steps != [] && steps[0].Named? ==> r == Raise(TypeError)
  {
    if steps == [] then Ok(p)
    else match steps[0]
      case Named(_) => Raise(TypeError)
      case Call(f) =>
        var q := f(p);
        if q.Raise? then q else ApplyPatchSteps(steps[1..], q.value)
  }

  /** Every file that opens has rows of equal width. */
  ghost predicate FilesShaped(files: Files)
  {
    forall name :: files(name).Some? ==> FileShaped(files(name).value)
  }

  /** `add_all`'s list: the catalog's names in sorted order, without the entries marked to be ignored. */
  function AddAllNames(catalog: seq<(string, Metadata)>): (names: seq<string>)
    ensures forall n :: n in names ==> n in Names(catalog) && !Find(catalog, n).value.ignored
    ensures forall n :: n in Names(catalog) && !Find(catalog, n).value.ignored ==> n in names
  {
    Unignored(catalog, SortedKeys(catalog))
  }

  function Unignored(catalog: seq<(string, Metadata)>, keys: seq<string>): (names: seq<string>)
    requires forall k :: k in keys ==> k in Names(catalog)
    ensures forall n :: n in names <==> n in keys && !Find(catalog, n).value.ignored
  {
    if keys == [] then []
    else
      var rest := Unignored(catalog, keys[1..]);
      if Find(catalog, keys[0]).value.ignored then rest else [keys[0]] + rest
  }

  /** The total number of bands the rasters' patches have. */
  function TotalDepth(rs: seq<Raster>): nat
    reads rs
    requires forall i :: 0 <= i < |rs| ==> rs[i].Valid()
  {
    if rs == [] then 0 else Depth(rs[0].PatchEncoding()) + TotalDepth(rs[1..])
  }

  /** `[r.get_patch(...) for r in rasters]`: the first exception propagates. */
  function Patches(rs: seq<Raster>, lat: real, lng: real, size: int, res: real, cosLat: real, resize: Resizer)
    : (r: Result<seq<Option<NdArray>>>)
    reads rs
    requires forall i :: 0 <= i < |rs| ==> rs[i].Valid()
    requires ResizeKeepsShape(resize)
    ensures r.Ok? ==> |r.value| == |rs|
    ensures r.Ok? ==> forall i :: 0 <= i < |rs| ==>
      rs[i].GetPatch(lat, lng, size, res, cosLat, resize).Ok? &&
      r.value[i] == Some(rs[i].GetPatch(lat, lng, size, res, cosLat, resize).value)
    ensures r.Raise? ==> exists i :: 0 <= i < |rs| && rs[i].GetPatch(lat, lng, size, res, cosLat, resize) == Raise(r.exc)
  {
    if rs == [] then Ok([])
    else
      var p := rs[0].GetPatch(lat, lng, size, res, cosLat, resize);
      if p.Raise? then Raise(p.exc)
      else
        var rest := Patches(rs[1..], lat, lng, size, res, cosLat, resize);
        if rest.Raise? then Raise(rest.exc) else Ok([Some(p.value)] + rest.value)
  }

  class RasterProvider {
    /** `raster_metadata`. */
    const catalog: seq<(string, Metadata)>
    const files: Files
    const rasterTransform: TransformArg
    const patchTransform: seq<PatchStep>
    const logTransform: bool
    const ln: real -> real
    const size: int
    const res: real
    var rasters: seq<Raster>

    ghost predicate Valid()
      reads this, rasters
    {
      && (forall i :: 0 <= i < |catalog| ==> Divisible(catalog[i].1))
      && FilesShaped(files)
      && (forall i :: 0 <= i < |rasters| ==> rasters[i].Valid())
    }

    /** The provider with no raster yet, before `__init__` fills it. */
    constructor(catalog: seq<(string, Metadata)>, files: Files, rasterTransform: TransformArg,
                patchTransform: seq<PatchStep>, logTransform: bool, ln: real -> real, size: int, res: real)
      requires forall i :: 0 <= i < |catalog| ==> Divisible(catalog[i].1)
      requires FilesShaped(files)
      ensures Valid() && rasters == []
      ensures this.catalog == catalog && this.files == files && this.rasterTransform == rasterTransform
      ensures this.patchTransform == patchTransform && this.logTransform == logTransform && this.ln == ln
      ensures this.size == size && this.res == res
    {
      this.catalog := catalog;
      this.files := files;
      this.rasterTransform := rasterTransform;
      this.patchTransform := patchTransform;
      this.logTransform := logTransform;
      this.ln := ln;
      this.size := size;
      this.res := res;
      this.rasters := [];
    }

    /** `get_rasters_order`: the names of the rasters, in order. */
    function RastersOrder(): (names: seq<string>)
      reads this, rasters
      ensures |names| == |rasters| && forall i :: 0 <= i < |rasters| ==> names[i] == rasters[i].name
    {
      seq(|rasters|, i reads this, rasters requires 0 <= i < |rasters| => rasters[i].name)
    }

    /**
     * What `append(name)` does: KeyError for a name missing from the catalog,
     * the exceptions of the `Raster` constructor (the ecoregion tables, a bare
     * transform), `Ok(false)` when the file cannot be opened (the only
     * exception caught) and `Ok(true)` when the raster is added.
     */
    function AppendOutcome(name: string): (r: Result<bool>)
      ensures r.Ok? ==> (r.value <==> files(name).Some?)
    {
      var m := Find(catalog, name);
      if m.Raise? then Raise(m.exc)
      else
        var t := EcoTables(name, m.value);
        if t.Raise? then Raise(t.exc)
        else if files(name).None? then Ok(false)
        else if rasterTransform.Bare? then Raise(TypeError)
        else Ok(true)
    }

    /** The names `append` adds, one after the other, or the first exception. */
    function AddedNames(names: seq<string>): (r: Result<seq<string>>)
    {
      if names == [] then Ok([])
      else
        var prev := AddedNames(names[..|names| - 1]);
        var last := names[|names| - 1];
        if prev.Raise? then prev
        else
          var o := AppendOutcome(last);
          if o.Raise? then Raise(o.exc)
          else if o.value then Ok(prev.value + [last]) else prev
    }

    /** `append(name)`. */
    method Append(name: string) returns (r: Result<bool>)
      requires Valid()
      modifies this
      ensures Valid()
      ensures r == AppendOutcome(name)
      ensures r == Ok(true) ==> |rasters| == |old(rasters)| + 1 && rasters[..|old(rasters)|] == old(rasters)
      ensures r == Ok(true) ==> RastersOrder() == old(RastersOrder()) + [name]
      ensures r == Ok(true) ==> fresh(rasters[|rasters| - 1])
      ensures r == Ok(true) ==> rasters[|rasters| - 1].State() == ApplyTransforms(
        TransformList(rasterTransform), Loaded(files(name).value, name, Find(catalog, name).value),
        Find(catalog, name).value, logTransform, ln)
      ensures r != Ok(true) ==> rasters == old(rasters)
    {
      var m := Find(catalog, name);
      if m.Raise? {
        return Raise(m.exc);
      }
      var i :| 0 <= i < |catalog| && catalog[i] == (name, m.value);
      assert Divisible(catalog[i].1);
      var made := OpenRaster(name, m.value, rasterTransform, logTransform, ln, files(name));
      if made.Raise? {
        if made.exc == IOError {
          return Ok(false);
        }
        return Raise(made.exc);
      }
      rasters := rasters + [made.value];
      return Ok(true);
    }

    /** The names appended one by one, stopping at the first exception. */
    method AppendAll(names: seq<string>) returns (r: Result<()>)
      requires Valid()
      modifies this
      ensures Valid()
      ensures AddedNames(names).Raise? <==> r.Raise?
      ensures r.Raise? ==> r.exc == AddedNames(names).exc
      ensures r.Ok? ==> RastersOrder() == old(RastersOrder()) + AddedNames(names).value
    {
      for i := 0 to |names|
        invariant Valid()
        invariant AddedNames(names[..i]).Ok?
        invariant RastersOrder() == old(RastersOrder()) + AddedNames(names[..i]).value
      {
        AddedNamesNext(this, names, i);
        var o := Append(names[i]);
        if o.Raise? {
          AddedNamesStop(this, names, i + 1);
          return Raise(o.exc);
        }
      }
      assert names[..|names|] == names;
      return Ok(());
    }

    /** `add_all`: every catalog entry not marked to be ignored, in sorted name order. */
    method AddAll() returns (r: Result<()>)
      requires Valid()
      modifies this
      ensures Valid()
      ensures AddedNames(AddAllNames(catalog)).Raise? <==> r.Raise?
      ensures r.Ok? ==> RastersOrder() == old(RastersOrder()) + AddedNames(AddAllNames(catalog)).value
    {
      r := AppendAll(AddAllNames(catalog));
    }

    /** `__init__`'s filling: every catalog entry when no list (or an empty one) is given, otherwise the names listed. */
    method Populate(rasterList: seq<string>) returns (r: Result<()>)
      requires Valid()
      modifies this
      ensures Valid()
      ensures var names := if rasterList == [] then AddAllNames(catalog) else rasterList;
        (AddedNames(names).Raise? <==> r.Raise?) &&
        (r.Ok? ==> RastersOrder() == old(RastersOrder()) + AddedNames(names).value)
    {
      if rasterList == [] {
        r := AddAll();
      } else {
        r := AppendAll(rasterList);
      }
    }

    /** `clean`: every raster is removed. */
    method Clean()
      modifies this
      ensures rasters == []
    {
      rasters := [];
    }

    /** `__len__`: the number of rasters (not the number of bands). */
    function Len(): (n: nat)
      reads this, rasters
      ensures n == |RastersOrder()|
    {
      |rasters|
    }

    /**
     * `__getitem__((id, lat, lng))`: with several rasters their patches are
     * concatenated along the first axis, in raster order; with one raster it
     * is that raster's patch; with none, `rasters[0]` raises IndexError. The
     * patch transforms are then applied.
     */
    function GetItem(lat: real, lng: real, cosLat: real, resize: Resizer): (r: Result<NdArray>)
      reads this, rasters
      requires Valid()
      requires ResizeKeepsShape(resize)
      ensures rasters == [] ==> r == Raise(IndexError)
    {
      var p :=
        if |rasters| > 1 then
          var parts := Patches(rasters, lat, lng, size, res, cosLat, resize);
          if parts.Raise? then Raise(parts.exc) else Concatenate(parts.value)
        else if |rasters| == 1 then rasters[0].GetPatch(lat, lng, size, res, cosLat, resize)
        else Raise(IndexError);
      if p.Raise? then p else ApplyPatchSteps(patchTransform, p.value)
    }
  }

  // ---------------------------------------------------------------------------
  // Properties.

  /**
   * The names added are exactly those asked for whose file opens, in the
   * order asked, as long as no name raises.
   */
  lemma {:induction false} AddedNamesExactly(p: RasterProvider, names: seq<string>)
    requires forall k :: 0 <= k < |names| ==> p.AppendOutcome(names[k]).Ok?
    ensures p.AddedNames(names).Ok?
    ensures forall n :: n in p.AddedNames(names).value <==> n in names && p.files(n).Some?
  {
    if names != [] {
      var init := names[..|names| - 1];
      var last := names[|names| - 1];
      assert forall k :: 0 <= k < |init| ==> p.AppendOutcome(init[k]).Ok? by {
        assert forall k :: 0 <= k < |init| ==> init[k] == names[k];
      }
      AddedNamesExactly(p, init);
      var prev := p.AddedNames(init).value;
      assert p.AppendOutcome(last).Ok?;
      AddedNamesNext(p, names, |names| - 1);
      assert names[..|names|] == names;
      SnocMembers(p.files, names, prev, p.AddedNames(names).value);
    }
  }

  lemma SnocMembers(files: Files, names: seq<string>, prev: seq<string>, next: seq<string>)
    requires names != []
    requires forall n :: n in prev <==> n in names[..|names| - 1] && files(n).Some?
    requires var last := names[|names| - 1]; next == if files(last).Some? then prev + [last] else prev
    ensures forall n :: n in next <==> n in names && files(n).Some?
  {
    assert names == names[..|names| - 1] + [names[|names| - 1]];
  }

  /** One more name: `AddedNames` of the first `i + 1` names from that of the first `i`. */
  lemma AddedNamesNext(p: RasterProvider, names: seq<string>, i: nat)
    requires i < |names|
    ensures var prev, o := p.AddedNames(names[..i]), p.AppendOutcome(names[i]);
      p.AddedNames(names[..i + 1]) ==
        if prev.Raise? then prev
        else if o.Raise? then Raise(o.exc)
        else if o.value then Ok(prev.value + [names[i]]) else prev
  {
    var next := names[..i + 1];
    assert next[..|next| - 1] == names[..i];
    assert next[|next| - 1] == names[i];
  }

  /** Once a name raises, the names after it are not tried: the whole list raises the same exception. */
  lemma {:induction false} AddedNamesStop(p: RasterProvider, names: seq<string>, i: nat)
    requires i <= |names|
    requires p.AddedNames(names[..i]).Raise?
    ensures p.AddedNames(names) == p.AddedNames(names[..i])
    decreases |names| - i
  {
    if i < |names| {
      var next := names[..i + 1];
      assert next[..|next| - 1] == names[..i];
      AddedNamesStop(p, names, i + 1);
    } else {
      assert names[..i] == names;
    }
  }

  /** A name is added only when the catalog has it and its file opens. */
  lemma {:induction false} AddedNamesAvailable(p: RasterProvider, names: seq<string>)
    ensures p.AddedNames(names).Ok? ==>
      forall n :: n in p.AddedNames(names).value ==> n in names && n in Names(p.catalog) && p.files(n).Some?
  {
    if names != [] {
      var init := names[..|names| - 1];
      AddedNamesAvailable(p, init);
      assert names == init + [names[|names| - 1]];
    }
  }

  /** Names asked for in sorted order are added in sorted order. */
  lemma {:induction false} AddedNamesSorted(p: RasterProvider, names: seq<string>)
    requires SortedStrings(names)
    requires p.AddedNames(names).Ok?
    ensures SortedStrings(p.AddedNames(names).value)
  {
    if names != [] {
      var n := |names|;
      var init := names[..n - 1];
      var last := names[n - 1];
      assert SortedStrings(init) by {
        forall i | 0 <= i < |init| - 1 ensures StrLe(init[i], init[i + 1]) {
          assert init[i] == names[i] && init[i + 1] == names[i + 1];
        }
      }
      AddedNamesSorted(p, init);
      var prev := p.AddedNames(init).value;
      assert p.AddedNames(names) == if p.AppendOutcome(last) == Ok(true) then Ok(prev + [last]) else Ok(prev) by {
        AddedNamesNext(p, names, n - 1);
        assert names[..n] == names;
      }
      if p.AppendOutcome(last) == Ok(true) && prev != [] {
        var x := prev[|prev| - 1];
        var k: nat :| k < |init| && init[k] == x by {
          AddedNamesAvailable(p, init);
          assert x in prev;
        }
        assert StrLe(x, last) by {
          SortedStringsAllPairs(names, k, n - 1);
        }
        SortedSnoc(prev, last);
      }
    }
  }

  lemma SortedSnoc(s: seq<string>, x: string)
    requires SortedStrings(s) && (s != [] ==> StrLe(s[|s| - 1], x))
    ensures SortedStrings(s + [x])
  {
    var r := s + [x];
    forall i | 0 <= i < |r| - 1 ensures StrLe(r[i], r[i + 1]) {
      if i < |s| - 1 {
        assert r[i] == s[i] && r[i + 1] == s[i + 1];
      }
    }
  }

  lemma SortedCons(x: string, s: seq<string>)
    requires SortedStrings(s) && (s != [] ==> StrLe(x, s[0]))
    ensures SortedStrings([x] + s)
  {
    var r := [x] + s;
    forall i | 0 <= i < |r| - 1 ensures StrLe(r[i], r[i + 1]) {
      if i > 0 {
        assert r[i] == s[i - 1] && r[i + 1] == s[i];
      }
    }
  }

  // ---------------------------------------------------------------------------
  // The catalog's own entries.

  /** Every entry named `ecoregions001` has metadata `m`. */
  predicate EcoEntriesAre(entries: seq<(string, Metadata)>, m: Metadata)
  {
    forall i :: 0 <= i < |entries| && entries[i].0 == EcoregionsName ==> entries[i].1 == m
  }

  lemma EcoEntriesAppend(a: seq<(string, Metadata)>, b: seq<(string, Metadata)>, m: Metadata)
    requires EcoEntriesAre(a, m) && EcoEntriesAre(b, m)
    ensures EcoEntriesAre(a + b, m)
  {
    forall i | 0 <= i < |a + b| && (a + b)[i].0 == EcoregionsName
      ensures (a + b)[i].1 == m
    {
      if i >= |a| {
        assert (a + b)[i] == b[i - |a|];
      }
    }
  }

  /** The ecoregions entry of the catalog: the shared codes as categories, and -1 as sentinel. */
  function EcoMetadata(ecoCodes: seq<real>): Metadata
  {
    BiomesEcoregions(ecoCodes)[3].1
  }

  lemma CatalogEcoEntry(ecoCodes: seq<real>)
    ensures EcoEntriesAre(Catalog(ecoCodes), EcoMetadata(ecoCodes))
    ensures EcoMetadata(ecoCodes).cat == Some(ecoCodes) && EcoMetadata(ecoCodes).newNan == -1.0
  {
    var m := EcoMetadata(ecoCodes);
    assert EcoEntriesAre(HumanPressure(), m);
    assert EcoEntriesAre(BiomesEcoregions(ecoCodes), m);
    assert EcoEntriesAre(HumanFootprintClimate(), m);
    assert EcoEntriesAre(SoilGrids(), m);
    EcoEntriesAppend(HumanPressure(), BiomesEcoregions(ecoCodes), m);
    EcoEntriesAppend(HumanPressure() + BiomesEcoregions(ecoCodes), HumanFootprintClimate(), m);
    EcoEntriesAppend(HumanPressure() + BiomesEcoregions(ecoCodes) + HumanFootprintClimate(), SoilGrids(), m);
  }

  /**
   * Over the catalog, with ecoregion codes in the catalog's range and a transform list
   * (not a bare transform), appending a catalog name never raises: it adds
   * the raster, or skips it when its file does not open.
   */
  lemma CatalogAppendsOk(p: RasterProvider, ecoCodes: seq<real>, name: string)
    requires p.catalog == Catalog(ecoCodes)
    requires forall k :: 0 <= k < |ecoCodes| ==> 10101.0 <= ecoCodes[k] <= 81333.0
    requires !p.rasterTransform.Bare?
    requires name in Names(p.catalog)
    ensures p.AppendOutcome(name) == Ok(p.files(name).Some?)
  {
    var m := Find(p.catalog, name).value;
    if name == EcoregionsName {
      CatalogEcoEntry(ecoCodes);
      var i :| 0 <= i < |p.catalog| && p.catalog[i] == (name, m);
      assert m == EcoMetadata(ecoCodes);
      assert forall k :: 0 <= k < |ecoCodes| ==> 10000 <= Numeric.Trunc(ecoCodes[k]) < 100000;
      BiomesRefOfCodes(ecoCodes);
    }
  }

  /**
   * `add_all` over the catalog never raises, and adds, in sorted name order,
   * exactly the catalog's rasters whose file opens.
   */
  lemma AddAllOverCatalog(p: RasterProvider, ecoCodes: seq<real>)
    requires p.catalog == Catalog(ecoCodes)
    requires forall k :: 0 <= k < |ecoCodes| ==> 10101.0 <= ecoCodes[k] <= 81333.0
    requires !p.rasterTransform.Bare?
    ensures p.AddedNames(AddAllNames(p.catalog)).Ok?
    ensures SortedStrings(p.AddedNames(AddAllNames(p.catalog)).value)
    ensures forall n :: n in p.AddedNames(AddAllNames(p.catalog)).value <==> n in Names(p.catalog) && p.files(n).Some?
  {
    var names := AddAllNames(p.catalog);
    forall k | 0 <= k < |names| ensures p.AppendOutcome(names[k]).Ok? {
      CatalogAppendsOk(p, ecoCodes, names[k]);
    }
    AddedNamesExactly(p, names);
    CatalogWellFormed(ecoCodes);
    forall n | n in Names(p.catalog) ensures n in names {
      FindWellFormed(p.catalog, n);
    }
    AddAllNamesSorted(p.catalog);
    AddedNamesSorted(p, names);
  }

  /** `add_all` goes through the names in sorted order. */
  lemma AddAllNamesSorted(catalog: seq<(string, Metadata)>)
    ensures SortedStrings(AddAllNames(catalog))
  {
    UnignoredSorted(catalog, SortedKeys(catalog));
  }

  lemma {:induction false} UnignoredSorted(catalog: seq<(string, Metadata)>, keys: seq<string>)
    requires forall k :: k in keys ==> k in Names(catalog)
    requires SortedStrings(keys)
    ensures SortedStrings(Unignored(catalog, keys))
  {
    if keys != [] {
      var rest := keys[1..];
      assert SortedStrings(rest) by {
        forall i | 0 <= i < |rest| - 1 ensures StrLe(rest[i], rest[i + 1]) {
          assert rest[i] == keys[i + 1] && rest[i + 1] == keys[i + 2];
        }
      }
      UnignoredSorted(catalog, rest);
      var u := Unignored(catalog, rest);
      if !Find(catalog, keys[0]).value.ignored && u != [] {
        assert u[0] in u;
        var k :| 0 <= k < |rest| && rest[k] == u[0];
        SortedStringsAllPairs(keys, 0, k + 1);
        SortedCons(keys[0], u);
      }
    }
  }

  /**
   * With no exception on the way, the tensor has, along its first axis, the
   * bands of every raster's patch in raster order; each raster's patch
   * appears unchanged at its offset.
   */
  lemma PatchesJoined(rs: seq<Raster>, lat: real, lng: real, size: int, res: real, cosLat: real, resize: Resizer, k: nat)
    requires forall i :: 0 <= i < |rs| ==> rs[i].Valid()
    requires ResizeKeepsShape(resize)
    requires Patches(rs, lat, lng, size, res, cosLat, resize).Ok?
    requires k < |rs|
    ensures var parts := Patches(rs, lat, lng, size, res, cosLat, resize).value;
      var data := rs[k].GetPatch(lat, lng, size, res, cosLat, resize).value.data;
      Offset(parts, k) + |data| <= |JoinData(parts)| &&
      JoinData(parts)[Offset(parts, k)..Offset(parts, k) + |data|] == data
  {
    var parts := Patches(rs, lat, lng, size, res, cosLat, resize).value;
    JoinDataPart(parts, k);
  }

  /** The patches' first dimensions add up to the rasters' total depth. */
  lemma {:induction false} PatchesChannels(rs: seq<Raster>, lat: real, lng: real, size: int, res: real, cosLat: real, resize: Resizer)
    requires forall i :: 0 <= i < |rs| ==> rs[i].Valid()
    requires ResizeKeepsShape(resize)
    requires Patches(rs, lat, lng, size, res, cosLat, resize).Ok?
    ensures var parts := Patches(rs, lat, lng, size, res, cosLat, resize).value;
      (forall i :: 0 <= i < |parts| ==> parts[i].Some? && |parts[i].value.shape| >= 1) &&
      Channels(parts) == TotalDepth(rs)
  {
    var parts := Patches(rs, lat, lng, size, res, cosLat, resize).value;
    if rs != [] {
      PatchesChannels(rs[1..], lat, lng, size, res, cosLat, resize);
      assert parts[1..] == Patches(rs[1..], lat, lng, size, res, cosLat, resize).value;
    }
  }

  /**
   * With every raster on a proper grid and encoded as at least one band
   * (`np.stack` of no category band raises), positive resolutions,
   * `size > 1`, at least one raster and no patch transform, the
   * environmental tensor is `TotalDepth` by `size` by `size`.
   */
  lemma GetItemShape(p: RasterProvider, lat: real, lng: real, cosLat: real, resize: Resizer)
    requires p.Valid()
    requires ResizeKeepsShape(resize)
    requires p.rasters != [] && p.patchTransform == []
    requires forall i :: 0 <= i < |p.rasters| ==>
      p.rasters[i].geometry.yRes != 0.0 && p.rasters[i].geometry.xRes != 0.0 && p.rasters[i].meta.res > 0.0
    requires forall i :: 0 <= i < |p.rasters| ==> Depth(p.rasters[i].PatchEncoding()) > 0
    requires p.size > 1 && p.res > 0.0 && cosLat > 0.0
    ensures p.GetItem(lat, lng, cosLat, resize).Ok?
    ensures p.GetItem(lat, lng, cosLat, resize).value.shape == [TotalDepth(p.rasters), p.size, p.size]
  {
    var rs := p.rasters;
    forall i | 0 <= i < |rs|
      ensures rs[i].GetPatch(lat, lng, p.size, p.res, cosLat, resize).Ok?
      ensures rs[i].GetPatch(lat, lng, p.size, p.res, cosLat, resize).value.shape
           == [Depth(rs[i].PatchEncoding()), p.size, p.size]
    {
      GetPatchShape(rs[i], lat, lng, p.size, p.res, cosLat, resize);
    }
    GetItemOfShapedPatches(p, lat, lng, cosLat, resize);
  }

  /** Patches of shape depth by `size` by `size` join into one tensor of the total depth. */
  lemma GetItemOfShapedPatches(p: RasterProvider, lat: real, lng: real, cosLat: real, resize: Resizer)
    requires p.Valid()
    requires ResizeKeepsShape(resize)
    requires p.rasters != [] && p.patchTransform == []
    requires forall i :: 0 <= i < |p.rasters| ==>
      && p.rasters[i].GetPatch(lat, lng, p.size, p.res, cosLat, resize).Ok?
      && p.rasters[i].GetPatch(lat, lng, p.size, p.res, cosLat, resize).value.shape
         == [Depth(p.rasters[i].PatchEncoding()), p.size, p.size]
    ensures p.GetItem(lat, lng, cosLat, resize).Ok?
    ensures p.GetItem(lat, lng, cosLat, resize).value.shape == [TotalDepth(p.rasters), p.size, p.size]
  {
    var rs := p.rasters;
    var parts := Patches(rs, lat, lng, p.size, p.res, cosLat, resize);
    PatchesChannels(rs, lat, lng, p.size, p.res, cosLat, resize);
    if |rs| > 1 {
      assert Joinable(parts.value);
      assert parts.value[0].value.shape[1..] == [p.size, p.size];
    } else {
      assert TotalDepth(rs) == Depth(rs[0].PatchEncoding()) + TotalDepth(rs[1..]);
    }
  }
}
