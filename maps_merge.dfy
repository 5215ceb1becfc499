/**
 * The naming side of `maps_merge.py`: the folder a map type is read from
 * and written to, the list file of the tiles found there, the output COG
 * path, and the order of the calls of `maps_merge_all`. The lz4
 * decompression, the COG build and the deletion of the source tiles are
 * shell and GDAL calls and are not modelled; the tiles `glob` finds and the
 * timestamp of each call are inputs.
 */
module MapsMerge {
  import opened Wrappers
  import opened Numeric
  import opened Text
  import opened IndicesRows
  import opened IndicesFrame
  import opened IndicesMaps

  /** An operand of `/` in a path expression: a `pathlib.Path` or a plain `str`. */
  datatype PathArg = PathObj(path: string) | Str(text: string)

  /** `a / b` for a string `b`: a `Path` joins it; `str / str` raises TypeError. */
  function Slash(a: PathArg, b: string): (r: Result<string>)
    ensures r.Ok? <==> a.PathObj?
    ensures r.Raise? ==> r.exc == TypeError
    ensures r.Ok? ==> |r.value| >= |b| && r.value[|r.value| - |b|..] == b
  {
    match a
    case PathObj(path) =>
      var j := PathJoin(path, b);
      assert j[|j| - |b|..] == b;
      Ok(j)
    case Str(_) => Raise(TypeError)
  }

  /** `path / grid_name`: a `str` grid name is joined on; a tuple one raises TypeError. */
  function SlashGrid(path: string, g: GridName): (r: Result<string>)
    ensures r.Ok? <==> g.GridStr?
    ensures r.Raise? ==> r.exc == TypeError
    ensures r.Ok? ==> |r.value| >= |g.name| && r.value[|r.value| - |g.name|..] == g.name
  {
    match g
    case GridStr(name) =>
      var j := PathJoin(path, name);
      assert j[|j| - |name|..] == name;
      Ok(j)
    case GridTuple(_) => Raise(TypeError)
  }

  /** What `maps_merge_one` reads from `indices_params`. */
  datatype MergeParams = MergeParams(mapsPath: PathArg, gridName: GridName, lstats: seq<string>)

  /** Where one merge reads and writes: the tiles folder, its list file and text, the output folder and COG. */
  datatype MergeJob = MergeJob(tifsFolder: string, listFile: string, listText: string, outDir: string, outTif: string)

  /** The merged maps root, `Path("../../out/maps/merged/")`. */
  const MergedRoot: string := "../../out/maps/merged"

  /**
   * `type_folder`: "shannon" for the Shannon maps; for "S" the `_`-join of
   * `<status_lvl>-<s>` over the statuses in order; `<status_lvl>-<type>`
   * otherwise.
   */
  function TypeFolder(statusLvl: string, kind: string, statuses: seq<string>): (f: string)
    ensures kind == "S" ==> (f == "" <==> statuses == [])
    ensures kind != "shannon" && (kind != "S" || statuses != []) ==>
      |f| > |statusLvl| && f[..|statusLvl| + 1] == statusLvl + "-"
  {
    if kind == "shannon" then "shannon"
    else if kind == "S" then
      var parts := seq(|statuses|, k requires 0 <= k < |statuses| => statusLvl + "-" + statuses[k]);
      var f := JoinWith("_", parts);
      assert parts != [] ==> f[..|parts[0]|] == parts[0] && parts[0][..|statusLvl| + 1] == statusLvl + "-";
      f
    else statusLvl + "-" + kind
  }

  /** A list without repeats is its own de-duplication. */
  lemma {:induction false} DedupDistinct(s: seq<string>)
    requires Distinct(s)
    ensures Dedup(s) == s
  {
    if s != [] {
      var init := s[..|s| - 1];
      assert Distinct(init);
      DedupDistinct(init);
      assert s[|s| - 1] !in init;
      assert init + [s[|s| - 1]] == s;
    }
  }

  /** Distinct statuses give distinct sumap names. */
  lemma StatusNamesDistinct(src: Source, lstats: seq<string>)
    requires Distinct(lstats)
    ensures Distinct(StatusNames(src, lstats))
  {
    var names := StatusNames(src, lstats);
    forall i, j | 0 <= i < j < |names|
      ensures names[i] != names[j]
    {
      if names[i] == names[j] {
        SumapNameInjective(src, lstats[i], lstats[j]);
      }
    }
  }

  /**
   * The folder `maps_merge_one` reads is the stack name `grid2tif` wrote
   * for the same source: the binary sumap name, "shannon", and
   * `<source>-cats` for the category maps (the map type "cats" reads what
   * the stage "cat" wrote).
   */
  lemma TypeFolderIsStackName(src: Source, lstats: seq<string>)
    ensures TypeFolder(SourceName(src), "B", lstats) == JoinWith("_", StageKeys("B", src, lstats))
    ensures TypeFolder(SourceName(src), "shannon", lstats) == JoinWith("_", StageKeys("shannon", src, lstats))
    ensures TypeFolder(SourceName(src), "cats", lstats) == JoinWith("_", StageKeys("cat", src, lstats))
  {
    PlainTypeFolder(SourceName(src), "B", lstats);
    PlainTypeFolder(SourceName(src), "cats", lstats);
  }

  /** The status folder is the status stack's name when no status is repeated. */
  lemma StatusFolderIsStackName(src: Source, lstats: seq<string>)
    requires Distinct(lstats)
    ensures TypeFolder(SourceName(src), "S", lstats) == JoinWith("_", StageKeys("S", src, lstats))
  {
    StatusNamesDistinct(src, lstats);
    DedupDistinct(StatusNames(src, lstats));
    var lvl := SourceName(src);
    assert seq(|lstats|, k requires 0 <= k < |lstats| => lvl + "-" + lstats[k]) == StatusNames(src, lstats);
  }

  /** `Path("../../out/maps/merged/") / type_folder / grid_name`: where a merge writes. */
  function OutDir(statusLvl: string, kind: string, p: MergeParams): (d: string)
    requires p.gridName.GridStr?
    ensures |d| >= |p.gridName.name| && d[|d| - |p.gridName.name|..] == p.gridName.name
  {
    var folder := PathJoin(MergedRoot, TypeFolder(statusLvl, kind, p.lstats));
    var d := PathJoin(folder, p.gridName.name);
    assert d[|d| - |p.gridName.name|..] == p.gridName.name;
    d
  }

  /**
   * `maps_merge_one(status_lvl, type, indices_params)` with the tiles
   * `glob` finds in a folder and the call's `%d-%m-%Y-%Hh%M` timestamp:
   * `maps_path / type_folder / grid_name` is the tiles folder,
   * `merged_<stamp>.txt` there lists the tiles one per line, and the COG
   * `merged_<stamp>.tif` goes to `<merged root>/<type_folder>/<grid_name>`,
   * the folder returned. A `str` maps path (`str / str`) and a tuple grid
   * name (`Path / tuple`) raise TypeError.
   */
  function MapsMergeOne(statusLvl: string, kind: string, p: MergeParams, stamp: string,
                        glob: string -> seq<string>): (r: Result<MergeJob>)
    ensures r.Ok? <==> p.mapsPath.PathObj? && p.gridName.GridStr?
    ensures r.Raise? ==> r.exc == TypeError
    ensures r.Ok? ==> r.value.tifsFolder == PathJoin(PathJoin(p.mapsPath.path, TypeFolder(statusLvl, kind, p.lstats)), p.gridName.name)
    ensures r.Ok? ==> r.value.outDir == OutDir(statusLvl, kind, p)
    ensures r.Ok? ==> r.value.listFile == PathJoin(r.value.tifsFolder, "merged_" + stamp + ".txt")
    ensures r.Ok? ==> r.value.outTif == PathJoin(r.value.outDir, "merged_" + stamp + ".tif")
  {
    var folder := TypeFolder(statusLvl, kind, p.lstats);
    var top := Slash(p.mapsPath, folder);
    if top.Raise? then Raise(top.exc)
    else
      var tifs := SlashGrid(top.value, p.gridName);
      if tifs.Raise? then Raise(tifs.exc)
      else
        var tifsFolder := tifs.value;
        var outDir := OutDir(statusLvl, kind, p);
        var name := "merged_" + stamp;
        Ok(MergeJob(tifsFolder, PathJoin(tifsFolder, name + ".txt"), LinesText(glob(tifsFolder)),
          outDir, PathJoin(outDir, name + ".tif")))
  }

  /** Reading the list file back gives the tiles found, in the order found. */
  lemma ListFileRoundTrip(statusLvl: string, kind: string, p: MergeParams, stamp: string, glob: string -> seq<string>)
    requires p.mapsPath.PathObj? && p.gridName.GridStr?
    requires forall k :: 0 <= k < |glob(MapsMergeOne(statusLvl, kind, p, stamp, glob).value.tifsFolder)| ==>
      Lacks(glob(MapsMergeOne(statusLvl, kind, p, stamp, glob).value.tifsFolder)[k], '\n')
    ensures var job := MapsMergeOne(statusLvl, kind, p, stamp, glob).value;
      ReadLines(job.listText) == glob(job.tifsFolder)
  {
    ReadLinesText(glob(MapsMergeOne(statusLvl, kind, p, stamp, glob).value.tifsFolder));
  }

  /** The COG is named after the timestamp and lands in the returned folder. */
  lemma OutTifInOutDir(statusLvl: string, kind: string, p: MergeParams, stamp: string, glob: string -> seq<string>)
    requires p.mapsPath.PathObj? && p.gridName.GridStr?
    requires Lacks(TypeFolder(statusLvl, kind, p.lstats), '/') && TypeFolder(statusLvl, kind, p.lstats) != []
    requires Lacks(p.gridName.name, '/') && p.gridName.name != []
    requires Lacks(stamp, '/')
    ensures var job := MapsMergeOne(statusLvl, kind, p, stamp, glob).value;
      Dirname(job.outTif) == job.outDir && Basename(job.outTif) == "merged_" + stamp + ".tif"
  {
    var folder := TypeFolder(statusLvl, kind, p.lstats);
    var name := "merged_" + stamp + ".tif";
    var mid := PathJoin(MergedRoot, folder);
    assert mid == MergedRoot + "/" + folder;
    var outDir := PathJoin(mid, p.gridName.name);
    assert outDir == mid + "/" + p.gridName.name;
    assert outDir[|outDir| - 1] == p.gridName.name[|p.gridName.name| - 1];
    assert !AllSlashes(outDir) by { assert outDir[0] != '/'; }
    assert Lacks(name, '/') by {
      forall k | 0 <= k < |name| ensures name[k] != '/' {
        if 7 <= k < 7 + |stamp| { assert name[k] == stamp[k - 7]; }
      }
    }
    JoinDirnameBasename(outDir, name);
  }

  /** The (status level, type) pairs of `maps_merge_all`, in call order. */
  function MergeCalls(): (calls: seq<(string, string)>)
    ensures |calls| == 8
  {
    [("iucn", "cats"), ("iucn", "shannon"), ("iucn", "B"), ("iucn", "S"),
     ("comp", "cats"), ("comp", "shannon"), ("comp", "B"), ("comp", "S")]
  }

  /**
   * The loop of `maps_merge_all` over the calls `calls`, the `k`-th stamped
   * with `stamps(k)`: one `maps_merge_one` per call, in order, collecting the
   * folders returned; the first exception propagates.
   */
  function MapsMergeEach(calls: seq<(string, string)>, p: MergeParams, stamps: nat -> string, glob: string -> seq<string>)
    : (r: Result<seq<string>>)
    ensures r.Ok? <==> calls == [] || (p.mapsPath.PathObj? && p.gridName.GridStr?)
    ensures r.Raise? ==> r.exc == TypeError
    ensures r.Ok? ==> |r.value| == |calls|
    ensures r.Ok? && calls != [] ==> p.gridName.GridStr? && forall k :: 0 <= k < |calls| ==> r.value[k] == OutDir(calls[k].0, calls[k].1, p)
  {
    if calls == [] then Ok([])
    else
      var one := MapsMergeOne(calls[0].0, calls[0].1, p, stamps(0), glob);
      if one.Raise? then Raise(one.exc)
      else
        var rest := MapsMergeEach(calls[1..], p, (k: nat) => stamps(k + 1), glob);
        if rest.Raise? then rest
        else
          OutDirsCons(calls, p, rest.value);
          Ok([one.value.outDir] + rest.value)
  }

  /** The folders of the calls after the first, preceded by the first call's. */
  lemma OutDirsCons(calls: seq<(string, string)>, p: MergeParams, rest: seq<string>)
    requires calls != [] && |rest| == |calls| - 1 && p.gridName.GridStr?
    requires forall k :: 0 <= k < |rest| ==> rest[k] == OutDir(calls[1..][k].0, calls[1..][k].1, p)
    ensures var r := [OutDir(calls[0].0, calls[0].1, p)] + rest;
      forall k :: 0 <= k < |calls| ==> r[k] == OutDir(calls[k].0, calls[k].1, p)
  {
    var r := [OutDir(calls[0].0, calls[0].1, p)] + rest;
    forall k | 0 <= k < |calls|
      ensures r[k] == OutDir(calls[k].0, calls[k].1, p)
    {
      if k > 0 {
        assert r[k] == rest[k - 1] && calls[1..][k - 1] == calls[k];
      }
    }
  }

  /** `maps_merge_all(indices_params)`: the eight output folders, call `i` stamped with `stamps(i)`. */
  function MapsMergeAll(p: MergeParams, stamps: nat -> string, glob: string -> seq<string>): (r: Result<seq<string>>)
    ensures r.Ok? <==> p.mapsPath.PathObj? && p.gridName.GridStr?
    ensures r.Raise? ==> r == Raise(TypeError)
    ensures r.Ok? ==> |r.value| == 8 && p.gridName.GridStr? && forall k :: 0 <= k < 8 ==> r.value[k] == OutDir(MergeCalls()[k].0, MergeCalls()[k].1, p)
  {
    MapsMergeEach(MergeCalls(), p, stamps, glob)
  }

  /**
   * The calls go iucn then comp, each over cats, shannon, B, S
   * (`MergeCalls`); the Shannon folder is shared by both levels, so the
   * second and sixth calls merge the same folder.
   */
  lemma ShannonMergedTwice(p: MergeParams, stamps: nat -> string, glob: string -> seq<string>)
    requires p.mapsPath.PathObj? && p.gridName.GridStr?
    ensures MapsMergeAll(p, stamps, glob).value[1] == MapsMergeAll(p, stamps, glob).value[5]
  {
    ShannonFolderShared(MapsMergeAll(p, stamps, glob).value, p);
  }

  lemma ShannonFolderShared(all: seq<string>, p: MergeParams)
    requires p.gridName.GridStr?
    requires |all| == 8 && forall k :: 0 <= k < 8 ==> all[k] == OutDir(MergeCalls()[k].0, MergeCalls()[k].1, p)
    ensures all[1] == all[5]
  {
    assert MergeCalls()[1] == ("iucn", "shannon") && MergeCalls()[5] == ("comp", "shannon");
    assert all[1] == OutDir("iucn", "shannon", p) && all[5] == OutDir("comp", "shannon", p);
    assert TypeFolder("iucn", "shannon", p.lstats) == "shannon" == TypeFolder("comp", "shannon", p.lstats);
  }

  /**
   * The category and binary folders of the two levels differ (calls 0 and
   * 4, and 2 and 6, of `MergeCalls`).
   */
  lemma LevelsMergedApart(p: MergeParams)
    requires p.gridName.GridStr? && (p.gridName.name == [] || p.gridName.name[0] != '/')
    ensures OutDir("iucn", "cats", p) != OutDir("comp", "cats", p)
    ensures OutDir("iucn", "B", p) != OutDir("comp", "B", p)
  {
    LevelFoldersApart(p, "cats");
    LevelFoldersApart(p, "B");
  }

  /** For a type other than "shannon" and "S", the two levels' folders differ. */
  lemma LevelFoldersApart(p: MergeParams, kind: string)
    requires p.gridName.GridStr? && (p.gridName.name == [] || p.gridName.name[0] != '/')
    requires |kind| != |"shannon"| && kind != "S" && kind != [] && kind[|kind| - 1] != '/'
    ensures OutDir("iucn", kind, p) != OutDir("comp", kind, p)
  {
    PlainTypeFolder("iucn", kind, p.lstats);
    PlainTypeFolder("comp", kind, p.lstats);
    var a, b := "iucn" + "-" + kind, "comp" + "-" + kind;
    assert a[0] == 'i' && b[0] == 'c';
    assert a[|a| - 1] == kind[|kind| - 1] == b[|b| - 1];
    FoldersApart(MergedRoot, a, b, p.gridName.name);
  }

  /** A type other than "shannon" and "S" names its folder `<status_lvl>-<type>`. */
  lemma PlainTypeFolder(statusLvl: string, kind: string, statuses: seq<string>)
    requires |kind| != |"shannon"| && kind != "S"
    ensures TypeFolder(statusLvl, kind, statuses) == statusLvl + "-" + kind
  {
  }

  /** Two folders that differ in their first letter, joined onto one root and one grid, stay apart. */
  lemma FoldersApart(root: string, a: string, b: string, g: string)
    requires root != [] && !EndsWith(root, '/')
    requires a != [] && b != [] && a[0] != b[0] && a[0] != '/' && b[0] != '/'
    requires !EndsWith(a, '/') && !EndsWith(b, '/')
    requires g == [] || g[0] != '/'
    ensures PathJoin(PathJoin(root, a), g) != PathJoin(PathJoin(root, b), g)
  {
    var pa, pb := PathJoin(PathJoin(root, a), g), PathJoin(PathJoin(root, b), g);
    assert PathJoin(root, a) == root + "/" + a && PathJoin(root, b) == root + "/" + b;
    assert pa == root + "/" + a + "/" + g;
    assert pb == root + "/" + b + "/" + g;
    assert pa[|root| + 1] == a[0];
    assert pb[|root| + 1] == b[0];
  }
}
