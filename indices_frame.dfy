/**
 * The prediction grid of src/model/indices.py as a frame whose columns the
 * pipeline stages assign in place: `out2df` groups the exported (id, class,
 * probability) triples by point and left-joins the grid reference; then the
 * threshold, region, out-of-range, renormalisation, empty-flag, sumap,
 * worst-status and masking stages each rewrite or add columns.
 *
 * The geometry a point carries is its grid reference record (`Site`); the
 * spatial join of `df2gdf` that yields each point's level-1 region code is
 * not modelled, its codes are an input of the region stage.
 */
module IndicesFrame {
  import opened Wrappers
  import opened Numeric
  import opened IndicesRows

  /** A grid reference record: the point's coordinates. */
  datatype Site = Site(lat: real, lon: real)

  /** One line of the grid reference file. */
  datatype GridRow = GridRow(gbifid: int, site: Site)

  /** One `[id, class_id, proba]` entry of the export's `output`. */
  datatype Triple = Triple(gbifid: int, classId: int, proba: real)

  /** One row of the frame: a point, its predictions, its reference record (NA when absent) and its region code. */
  datatype Row = Row(gbifid: int, preds: Preds, site: Option<Site>, region: Option<int>)

  // ---------------------------------------------------------------------------
  // out2df (src/model/indices.py:34-63)

  function Ids(output: seq<Triple>): (ids: seq<int>)
    ensures |ids| == |output|
    ensures forall i :: 0 <= i < |output| ==> ids[i] == output[i].gbifid
  {
    seq(|output|, i requires 0 <= i < |output| => output[i].gbifid)
  }

  ghost predicate StrictlyIncreasing(s: seq<int>)
  {
    forall i, j :: 0 <= i < j < |s| ==> s[i] < s[j]
  }

  function InsertId(x: int, s: seq<int>): (r: seq<int>)
    requires StrictlyIncreasing(s)
    ensures StrictlyIncreasing(r)
    ensures forall y :: y in r <==> y == x || y in s
  {
    if s == [] then [x]
    else if x < s[0] then [x] + s
    else if x == s[0] then s
    else
      var t := InsertId(x, s[1..]);
      InsertIdBehind(x, s, t);
      [s[0]] + t
  }

  /** Inserting behind the head keeps the head in front. */
  lemma InsertIdBehind(x: int, s: seq<int>, t: seq<int>)
    requires s != [] && s[0] < x && StrictlyIncreasing(s) && StrictlyIncreasing(t)
    requires forall y :: y in t <==> y == x || y in s[1..]
    ensures StrictlyIncreasing([s[0]] + t)
    ensures forall y :: y in [s[0]] + t <==> y == x || y in s
  {
    forall y | y in t
      ensures s[0] < y
    {
      if y != x {
        var i :| 0 <= i < |s[1..]| && s[1..][i] == y;
        assert s[i + 1] == y;
      }
    }
    var r := [s[0]] + t;
    forall i, j | 0 <= i < j < |r|
      ensures r[i] < r[j]
    {
      assert r[j] == t[j - 1] && t[j - 1] in t;
      if i > 0 {
        assert r[i] == t[i - 1];
      }
    }
    assert s == [s[0]] + s[1..];
  }

  /** The group keys of `groupby("gbifid")`: each id once, in ascending order. */
  function GroupKeys(output: seq<Triple>): (ks: seq<int>)
    ensures StrictlyIncreasing(ks)
    ensures forall y :: y in ks <==> y in Ids(output)
  {
    if output == [] then []
    else
      assert Ids(output) == [output[0].gbifid] + Ids(output[1..]);
      InsertId(output[0].gbifid, GroupKeys(output[1..]))
  }

  /** `aggregate(list)` for one id: its classes and probabilities, in output order. */
  function Group(output: seq<Triple>, id: int): (g: Preds)
    ensures |g.classes| == |g.probas|
    ensures id in Ids(output) ==> |g.classes| > 0
    ensures forall i :: 0 <= i < |g.classes| ==> Triple(id, g.classes[i], g.probas[i]) in output
  {
    if output == [] then Preds([], [])
    else
      assert Ids(output) == [output[0].gbifid] + Ids(output[1..]);
      var g := Group(output[1..], id);
      if output[0].gbifid == id then
        Preds([output[0].classId] + g.classes, [output[0].proba] + g.probas)
      else g
  }

  /** The reference records of `id`, in grid order. */
  function Matches(grid: seq<GridRow>, id: int): (m: seq<Site>)
    ensures forall s :: s in m <==> GridRow(id, s) in grid
  {
    if grid == [] then []
    else (if grid[0].gbifid == id then [grid[0].site] else []) + Matches(grid[1..], id)
  }

  /** The rows `merge(grid, how="left")` makes of one group: one per matching record, or one with NA. */
  function JoinGroup(id: int, p: Preds, grid: seq<GridRow>): (rows: seq<Row>)
    ensures |rows| >= 1
    ensures forall r :: r in rows ==> r.gbifid == id && r.preds == p && r.region.None?
    ensures forall r :: r in rows ==> (r.site.Some? <==> Matches(grid, id) != [])
    ensures forall r :: r in rows && r.site.Some? ==> GridRow(id, r.site.value) in grid
  {
    var m := Matches(grid, id);
    if m == [] then [Row(id, p, None, None)]
    else seq(|m|, j requires 0 <= j < |m| => Row(id, p, Some(m[j]), None))
  }

  function LeftJoin(keys: seq<int>, output: seq<Triple>, grid: seq<GridRow>): (rows: seq<Row>)
    ensures forall r :: r in rows ==> r.gbifid in keys && r.preds == Group(output, r.gbifid) && r.region.None?
    ensures forall r :: r in rows ==> (r.site.Some? <==> Matches(grid, r.gbifid) != [])
    ensures forall r :: r in rows && r.site.Some? ==> GridRow(r.gbifid, r.site.value) in grid
    ensures forall k :: k in keys ==> exists r :: r in rows && r.gbifid == k
  {
    if keys == [] then []
    else
      var first := JoinGroup(keys[0], Group(output, keys[0]), grid);
      var rest := LeftJoin(keys[1..], output, grid);
      assert keys == [keys[0]] + keys[1..];
      assert first[0] in first + rest;
      assert forall k :: k in keys[1..] ==> exists r :: r in rest && r.gbifid == k;
      assert forall k :: k in keys[1..] ==> exists r :: r in first + rest && r.gbifid == k;
      first + rest
  }

  /** The rows of `out2df(output, grid)`: one group per point id in ascending id order, left-joined with the grid reference. */
  function JoinedRows(output: seq<Triple>, grid: seq<GridRow>): seq<Row>
  {
    LeftJoin(GroupKeys(output), output, grid)
  }

  /**
   * `out2df(output, grid)`. An empty `output` becomes an array of shape
   * (0,), which `pd.DataFrame` cannot label with three columns: ValueError.
   */
  function Out2Df(output: seq<Triple>, grid: seq<GridRow>): (r: Result<seq<Row>>)
    ensures r.Raise? <==> output == []
    ensures r.Raise? ==> r.exc == ValueError
    ensures r.Ok? ==> r.value == JoinedRows(output, grid)
  {
    if output == [] then Raise(ValueError) else Ok(JoinedRows(output, grid))
  }

  /**
   * Every exported point keeps at least one row, with all its predictions in
   * output order, and no row comes from a reference record without output;
   * a row carries a record exactly when the reference holds one for its id.
   */
  lemma Out2DfKeepsEveryPoint(output: seq<Triple>, grid: seq<GridRow>)
    ensures forall r :: r in JoinedRows(output, grid) ==> r.gbifid in Ids(output)
    ensures forall r :: r in JoinedRows(output, grid) ==> r.preds == Group(output, r.gbifid)
    ensures forall i :: 0 <= i < |output| ==> exists r :: r in JoinedRows(output, grid) && r.gbifid == output[i].gbifid
    ensures forall r :: r in JoinedRows(output, grid) ==> (r.site.Some? <==> Matches(grid, r.gbifid) != [])
    ensures forall r :: r in JoinedRows(output, grid) && r.site.Some? ==> GridRow(r.gbifid, r.site.value) in grid
  {
    var keys := GroupKeys(output);
    assert JoinedRows(output, grid) == LeftJoin(keys, output, grid);
    forall i | 0 <= i < |output|
      ensures exists r :: r in JoinedRows(output, grid) && r.gbifid == output[i].gbifid
    {
      assert Ids(output)[i] == output[i].gbifid;
      assert output[i].gbifid in keys;
    }
  }

  // ---------------------------------------------------------------------------
  // df2gdf's duplicate removal (src/model/indices.py:99)

  /** The positions `drop_duplicates(subset="gbifid")` keeps among the first `n`: first occurrences. */
  function FirstPositions(ids: seq<int>, n: nat): (ks: seq<nat>)
    requires n <= |ids|
    ensures forall j :: 0 <= j < |ks| ==> ks[j] < n && ids[ks[j]] !in ids[..ks[j]]
    ensures forall i :: 0 <= i < n && ids[i] !in ids[..i] ==> i in ks
    ensures forall a, b :: 0 <= a < b < |ks| ==> ks[a] < ks[b]
  {
    if n == 0 then []
    else
      var ks := FirstPositions(ids, n - 1);
      FirstPositionsStep(ids, n, ks);
      if ids[n - 1] in ids[..n - 1] then ks else ks + [n - 1]
  }

  /** The step of `FirstPositions`: position `n - 1` is kept exactly when its id is new. */
  lemma FirstPositionsStep(ids: seq<int>, n: nat, ks: seq<nat>)
    requires 0 < n <= |ids|
    requires forall j :: 0 <= j < |ks| ==> ks[j] < n - 1 && ids[ks[j]] !in ids[..ks[j]]
    requires forall i :: 0 <= i < n - 1 && ids[i] !in ids[..i] ==> i in ks
    requires forall a, b :: 0 <= a < b < |ks| ==> ks[a] < ks[b]
    ensures var r := if ids[n - 1] in ids[..n - 1] then ks else ks + [n - 1];
      && (forall j :: 0 <= j < |r| ==> r[j] < n && ids[r[j]] !in ids[..r[j]])
      && (forall i :: 0 <= i < n && ids[i] !in ids[..i] ==> i in r)
      && (forall a, b :: 0 <= a < b < |r| ==> r[a] < r[b])
  {
    if ids[n - 1] !in ids[..n - 1] {
      var r := ks + [n - 1];
      forall j | 0 <= j < |r|
        ensures r[j] < n && ids[r[j]] !in ids[..r[j]]
      {
        if j < |ks| {
          assert r[j] == ks[j];
        } else {
          assert r[j] == n - 1;
        }
      }
      forall i | 0 <= i < n && ids[i] !in ids[..i]
        ensures i in r
      {
        if i < n - 1 {
          assert i in ks;
        } else {
          assert r[|ks|] == i;
        }
      }
      forall a, b | 0 <= a < b < |r|
        ensures r[a] < r[b]
      {
        if b < |ks| {
          assert r[a] == ks[a] && r[b] == ks[b];
        } else {
          assert r[a] == ks[a];
        }
      }
    }
  }

  function Select<T>(s: seq<T>, ks: seq<nat>): (r: seq<T>)
    requires forall j :: 0 <= j < |ks| ==> ks[j] < |s|
    ensures |r| == |ks|
    ensures forall j :: 0 <= j < |ks| ==> r[j] == s[ks[j]]
  {
    seq(|ks|, j requires 0 <= j < |ks| => s[ks[j]])
  }

  function RowIds(rows: seq<Row>): (ids: seq<int>)
    ensures |ids| == |rows|
    ensures forall i :: 0 <= i < |rows| ==> ids[i] == rows[i].gbifid
  {
    seq(|rows|, i requires 0 <= i < |rows| => rows[i].gbifid)
  }

  /** The reference grid holds at most one record per id. */
  ghost predicate UniqueIds(grid: seq<GridRow>)
  {
    forall a, b :: 0 <= a < b < |grid| ==> grid[a].gbifid != grid[b].gbifid
  }

  /** An id no record carries matches nothing. */
  lemma {:induction false} MatchesNone(grid: seq<GridRow>, id: int)
    requires forall j :: 0 <= j < |grid| ==> grid[j].gbifid != id
    ensures Matches(grid, id) == []
  {
    if grid != [] {
      MatchesNone(grid[1..], id);
    }
  }

  /** Under unique reference ids, an id matches at most one record. */
  lemma {:induction false} MatchesAtMostOne(grid: seq<GridRow>, id: int)
    requires UniqueIds(grid)
    ensures |Matches(grid, id)| <= 1
  {
    if grid != [] {
      MatchesAtMostOne(grid[1..], id);
      if grid[0].gbifid == id {
        MatchesNone(grid[1..], id);
      }
    }
  }

  /** Under unique reference ids, the left join makes one row per key, in key order. */
  lemma {:induction false} LeftJoinOneRowPerKey(keys: seq<int>, output: seq<Triple>, grid: seq<GridRow>)
    requires UniqueIds(grid)
    ensures RowIds(LeftJoin(keys, output, grid)) == keys
  {
    if keys != [] {
      var first := JoinGroup(keys[0], Group(output, keys[0]), grid);
      var rest := LeftJoin(keys[1..], output, grid);
      assert LeftJoin(keys, output, grid) == first + rest;
      LeftJoinOneRowPerKey(keys[1..], output, grid);
      MatchesAtMostOne(grid, keys[0]);
      JoinGroupOneRow(keys[0], Group(output, keys[0]), grid);
      RowIdsConcat(first, rest);
      assert keys == [keys[0]] + keys[1..];
    }
  }

  /** An id with at most one record gives exactly one joined row. */
  lemma JoinGroupOneRow(id: int, p: Preds, grid: seq<GridRow>)
    requires |Matches(grid, id)| <= 1
    ensures RowIds(JoinGroup(id, p, grid)) == [id]
  {
  }

  lemma RowIdsConcat(a: seq<Row>, b: seq<Row>)
    ensures RowIds(a + b) == RowIds(a) + RowIds(b)
  {
  }

  /**
   * Under unique reference ids, `out2df` makes exactly one row per point,
   * in ascending id order: no id repeats, so `drop_duplicates` has
   * nothing to drop and the frame's index stays 0..n-1.
   */
  lemma Out2DfOneRowPerPoint(output: seq<Triple>, grid: seq<GridRow>)
    requires UniqueIds(grid)
    ensures RowIds(JoinedRows(output, grid)) == GroupKeys(output)
    ensures forall a, b :: 0 <= a < b < |JoinedRows(output, grid)| ==> JoinedRows(output, grid)[a].gbifid != JoinedRows(output, grid)[b].gbifid
  {
    LeftJoinOneRowPerKey(GroupKeys(output), output, grid);
  }

  /** When no id repeats, every position is a first occurrence. */
  lemma {:induction false} FirstPositionsOfDistinct(ids: seq<int>, n: nat)
    requires n <= |ids|
    requires forall a, b :: 0 <= a < b < |ids| ==> ids[a] != ids[b]
    ensures FirstPositions(ids, n) == seq(n, i => i)
  {
    if n > 0 {
      FirstPositionsOfDistinct(ids, n - 1);
      var pre := ids[..n - 1];
      forall j | 0 <= j < |pre|
        ensures pre[j] != ids[n - 1]
      {
      }
      assert ids[n - 1] !in pre;
      assert seq(n - 1, i => i) + [n - 1] == seq(n, i => i);
    }
  }

  /** After dropping duplicates every id appears once, and every id of the input is still there. */
  lemma DropDuplicatesKeepsOnePerId(rows: seq<Row>)
    ensures var kept := Select(rows, FirstPositions(RowIds(rows), |rows|));
      && (forall a, b :: 0 <= a < b < |kept| ==> kept[a].gbifid != kept[b].gbifid)
      && (forall i :: 0 <= i < |rows| ==> exists j :: 0 <= j < |kept| && kept[j].gbifid == rows[i].gbifid)
  {
    var ids := RowIds(rows);
    var ks := FirstPositions(ids, |rows|);
    var kept := Select(rows, ks);
    forall a, b | 0 <= a < b < |kept| ensures kept[a].gbifid != kept[b].gbifid {
      assert ks[a] < ks[b];
      assert ids[..ks[b]][ks[a]] == ids[ks[a]];
    }
    forall i | 0 <= i < |rows| ensures exists j :: 0 <= j < |kept| && kept[j].gbifid == rows[i].gbifid {
      var f := FirstOccurrence(ids, i);
      assert f in ks;
      var j :| 0 <= j < |ks| && ks[j] == f;
      assert kept[j].gbifid == ids[f] == rows[i].gbifid;
    }
  }

  /** The first position holding the same id as position `i`. */
  lemma {:induction false} FirstOccurrence(ids: seq<int>, i: nat) returns (f: nat)
    requires i < |ids|
    ensures f <= i && ids[f] == ids[i] && ids[f] !in ids[..f]
    decreases i
  {
    if ids[i] in ids[..i] {
      var k :| 0 <= k < i && ids[..i][k] == ids[i];
      f := FirstOccurrence(ids, k);
    } else {
      f := i;
    }
  }

  // ---------------------------------------------------------------------------
  // The frame

  /** Row-wise maps applied by the stages. */
  function MapAppliesT(rows: seq<Row>, t: real): (r: seq<Row>)
    ensures |r| == |rows|
    ensures forall i :: 0 <= i < |rows| ==> r[i] == rows[i].(preds := AppliesT(rows[i].preds, t))
  {
    seq(|rows|, i requires 0 <= i < |rows| => rows[i].(preds := AppliesT(rows[i].preds, t)))
  }

  ghost predicate Normalisable(rows: seq<Row>)
  {
    forall i :: 0 <= i < |rows| ==> rows[i].preds.probas == [] || Sum(rows[i].preds.probas) != 0.0
  }

  function MapNormAbT(rows: seq<Row>, byZero: real -> real): (r: seq<Row>)
    ensures |r| == |rows|
    ensures forall i :: 0 <= i < |rows| ==>
      r[i] == rows[i].(preds := Preds(rows[i].preds.classes, NormAbT(rows[i].preds.probas, byZero)))
  {
    seq(|rows|, i requires 0 <= i < |rows| =>
      rows[i].(preds := Preds(rows[i].preds.classes, NormAbT(rows[i].preds.probas, byZero))))
  }

  /**
   * On rows that never sum to zero the float a division by zero gives is
   * never used: every choice of `byZero` normalises them alike.
   */
  lemma MapNormAbTIgnoresByZero(rows: seq<Row>, f: real -> real, g: real -> real)
    requires Normalisable(rows)
    ensures MapNormAbT(rows, f) == MapNormAbT(rows, g)
  {
    forall i | 0 <= i < |rows|
      ensures NormAbT(rows[i].preds.probas, f) == NormAbT(rows[i].preds.probas, g)
    {
      var ps := rows[i].preds.probas;
      if ps == [] {
        assert |NormAbT(ps, f)| == 0 == |NormAbT(ps, g)|;
      }
    }
  }

  /** `applies_oor_filter` over all rows: the first failing row's exception, or every row filtered. */
  function MapOorFilter(rows: seq<Row>, dz: RangeMap): (r: Result<seq<Row>>)
    ensures r.Ok? ==> |r.value| == |rows|
    ensures r.Ok? ==> forall i :: 0 <= i < |rows| ==>
      rows[i].region.Some?
      && RemovesOorSpecies(rows[i].preds, rows[i].region.value, dz) == Ok(r.value[i].preds)
      && r.value[i] == rows[i].(preds := r.value[i].preds)
    ensures r.Ok? <==> forall i :: 0 <= i < |rows| ==>
      rows[i].region.Some? && RemovesOorSpecies(rows[i].preds, rows[i].region.value, dz).Ok?
  {
    if rows == [] then Ok([])
    else if rows[0].region.None? then Raise(KeyError)
    else
      var head := RemovesOorSpecies(rows[0].preds, rows[0].region.value, dz);
      if head.Raise? then Raise(head.exc)
      else
        var tail := MapOorFilter(rows[1..], dz);
        if tail.Raise? then tail
        else Ok([rows[0].(preds := head.value)] + tail.value)
  }

  function SumapColumn(rows: seq<Row>, d: map<int, Option<Status>>, kind: SumapKind): (r: Result<seq<real>>)
    ensures r.Ok? ==> |r.value| == |rows|
    ensures r.Ok? ==> forall i :: 0 <= i < |rows| ==> Sumap(rows[i].preds, d, kind) == Ok(r.value[i])
    ensures r.Ok? <==> forall i :: 0 <= i < |rows| ==> Sumap(rows[i].preds, d, kind).Ok?
  {
    if rows == [] then Ok([])
    else
      var head := Sumap(rows[0].preds, d, kind);
      if head.Raise? then Raise(head.exc)
      else
        var tail := SumapColumn(rows[1..], d, kind);
        if tail.Raise? then tail
        else Ok([head.value] + tail.value)
  }

  /** The per-status sums of row `j`, in `Lstats` order. */
  function StatusSums(values: map<string, seq<real>>, names: seq<string>, j: nat): seq<real>
    requires forall k :: 0 <= k < |names| ==> names[k] in values && j < |values[names[k]]|
  {
    seq(|names|, k requires 0 <= k < |names| && names[k] in values && j < |values[names[k]]| => values[names[k]][j])
  }

  function StatusNames(source: Source, lstats: seq<string>): (names: seq<string>)
    ensures |names| == |lstats|
    ensures forall k :: 0 <= k < |lstats| ==> names[k] == SumapName(source, OfStatus(lstats[k]))
  {
    seq(|lstats|, k requires 0 <= k < |lstats| => SumapName(source, OfStatus(lstats[k])))
  }

  function CatsName(source: Source): string
  {
    SourceName(source) + "-cats"
  }

  /**
   * `after` is `before` with the empty value written on every row flagged
   * in `empty`, and only there.
   */
  ghost predicate MaskedFrom(after: seq<real>, before: seq<real>, empty: seq<bool>, emptyValue: int)
  {
    && |after| == |before| == |empty|
    && forall j :: 0 <= j < |after| ==> after[j] == if empty[j] then emptyValue as real else before[j]
  }

  /** The (geometry, value) pairs of a column, row by row: what is handed to the rasteriser. */
  function Burned(rows: seq<Row>, column: seq<real>): (pairs: seq<(Option<Site>, real)>)
    requires |column| == |rows|
    ensures |pairs| == |rows|
  {
    seq(|rows|, j requires 0 <= j < |rows| => (rows[j].site, column[j]))
  }

  /** Every named column exists. */
  ghost predicate HasColumns(values: map<string, seq<real>>, names: seq<string>)
  {
    forall k :: 0 <= k < |names| ==> names[k] in values
  }

  /** The column `worst_status_cat` computes: each row's worst-status code. */
  function CatsColumn(values: map<string, seq<real>>, names: seq<string>, n: nat, emptyValue: int): (c: seq<real>)
    requires forall k :: 0 <= k < |names| ==> names[k] in values && |values[names[k]]| == n
    ensures |c| == n
  {
    seq(n, j requires 0 <= j < n => WorstCat(StatusSums(values, names, j), emptyValue) as real)
  }

  /**
   * The status columns `worst_status_cat` reads are there: a status named
   * "cats" names the category column itself, which exists by then.
   */
  ghost predicate ReadsColumns(values: map<string, seq<real>>, names: seq<string>, cats: string)
  {
    forall k :: 0 <= k < |names| ==> names[k] == cats || names[k] in values
  }

  /**
   * The category column `cats` after the first `i` statuses of
   * `worst_status_cat`: the empty value as a byte, then, status by status,
   * the status's position plus one on every row where its column is
   * non-zero. A status whose column is `cats` reads the column as written
   * so far.
   */
  function CatsAfter(values: map<string, seq<real>>, cats: string, names: seq<string>, i: nat, n: nat,
                     emptyValue: int): (c: seq<real>)
    requires i <= |names|
    requires forall k :: 0 <= k < i && names[k] != cats ==> names[k] in values && |values[names[k]]| == n
    ensures |c| == n
    decreases i
  {
    if i == 0 then seq(n, _ => Uint8(emptyValue) as real)
    else
      var cur := CatsAfter(values, cats, names, i - 1, n, emptyValue);
      var column := if names[i - 1] == cats then cur else values[names[i - 1]];
      CatsStep(cur, column, Uint8(i))
  }

  /** One status of `worst_status_cat`: `code` on every row whose status column is non-zero. */
  function CatsStep(cur: seq<real>, column: seq<real>, code: int): (next: seq<real>)
    requires |column| == |cur|
    ensures |next| == |cur|
    ensures forall j :: 0 <= j < |cur| ==> next[j] == if column[j] != 0.0 then code as real else cur[j]
  {
    seq(|cur|, j requires 0 <= j < |cur| => if column[j] != 0.0 then code as real else cur[j])
  }

  /**
   * With no status column named `cats`, each row receives its worst-status
   * code: the byte of the last status with a non-zero sum, or of the empty
   * value.
   */
  lemma {:induction false} CatsAfterWorst(values: map<string, seq<real>>, cats: string, names: seq<string>, i: nat,
                                          n: nat, emptyValue: int)
    requires i <= |names|
    requires forall k :: 0 <= k < |names| ==> names[k] != cats && names[k] in values && |values[names[k]]| == n
    ensures forall j :: 0 <= j < n ==>
      CatsAfter(values, cats, names, i, n, emptyValue)[j] == WorstCat(StatusSums(values, names[..i], j), emptyValue) as real
  {
    if i > 0 {
      CatsAfterWorst(values, cats, names, i - 1, n, emptyValue);
      forall j | 0 <= j < n
        ensures CatsAfter(values, cats, names, i, n, emptyValue)[j]
          == WorstCat(StatusSums(values, names[..i], j), emptyValue) as real
      {
        WorstStatusStep(values, names, i - 1, j);
      }
    }
  }

  /** Without a status named "cats", the category column is `CatsColumn`. */
  lemma CatsAfterIsCatsColumn(values: map<string, seq<real>>, source: Source, lstats: seq<string>, n: nat,
                              emptyValue: int)
    requires forall k :: 0 <= k < |lstats| ==> lstats[k] != "cats"
    requires HasColumns(values, StatusNames(source, lstats))
    requires forall k :: 0 <= k < |lstats| ==> |values[StatusNames(source, lstats)[k]]| == n
    ensures CatsAfter(values, CatsName(source), StatusNames(source, lstats), |lstats|, n, emptyValue)
      == CatsColumn(values, StatusNames(source, lstats), n, emptyValue)
  {
    var names := StatusNames(source, lstats);
    forall k | 0 <= k < |names|
      ensures names[k] != CatsName(source)
    {
      StatusNameIsNotCats(source, lstats, k);
    }
    CatsAfterWorst(values, CatsName(source), names, |names|, n, emptyValue);
    assert names[..|names|] == names;
  }

  /** While no position reaches 256, the category column holds no zero when the empty value's byte is not zero. */
  lemma {:induction false} CatsAfterNonZero(values: map<string, seq<real>>, cats: string, names: seq<string>, i: nat,
                                            n: nat, emptyValue: int)
    requires i <= |names| && i < 256 && Uint8(emptyValue) != 0
    requires forall k :: 0 <= k < i && names[k] != cats ==> names[k] in values && |values[names[k]]| == n
    ensures forall j :: 0 <= j < n ==> CatsAfter(values, cats, names, i, n, emptyValue)[j] != 0.0
  {
    if i > 0 {
      CatsAfterNonZero(values, cats, names, i - 1, n, emptyValue);
      var cur, c := CatsAfter(values, cats, names, i - 1, n, emptyValue), CatsAfter(values, cats, names, i, n, emptyValue);
      assert Uint8(i) == i;
      forall j | 0 <= j < n
        ensures c[j] != 0.0
      {
        assert c[j] == Uint8(i) as real || c[j] == cur[j];
      }
    }
  }

  /**
   * A status named "cats" reads the category column it is writing: with a
   * non-zero empty byte every row is non-zero by then, so every row takes
   * that status's code.
   */
  lemma CatsStatusFloods(values: map<string, seq<real>>, cats: string, names: seq<string>, i: nat, n: nat,
                         emptyValue: int)
    requires i < |names| && i < 255 && names[i] == cats && Uint8(emptyValue) != 0
    requires forall k :: 0 <= k <= i && names[k] != cats ==> names[k] in values && |values[names[k]]| == n
    ensures var c := CatsAfter(values, cats, names, i + 1, n, emptyValue);
      forall j :: 0 <= j < n ==> c[j] == (i + 1) as real
  {
    CatsAfterNonZero(values, cats, names, i, n, emptyValue);
    var cur, c := CatsAfter(values, cats, names, i, n, emptyValue), CatsAfter(values, cats, names, i + 1, n, emptyValue);
    assert Uint8(i + 1) == i + 1;
    forall j | 0 <= j < n
      ensures c[j] == (i + 1) as real
    {
      assert cur[j] != 0.0;
    }
  }

  /**
   * The loop of `worst_status_cat` over the columns `values`: `cur` is the
   * category column `cats` as written so far, which a status named `cats`
   * reads. `missing` tells that a status column was absent; `cur` is then
   * the column as far as it got.
   */
  method CatsLoop(values: map<string, seq<real>>, cats: string, names: seq<string>, n: nat, emptyValue: int)
    returns (cur: seq<real>, missing: bool)
    requires forall k :: k in values ==> |values[k]| == n
    ensures |cur| == n
    ensures !missing <==> ReadsColumns(values, names, cats)
    ensures !missing ==> cur == CatsAfter(values, cats, names, |names|, n, emptyValue)
  {
    cur := seq(n, _ => Uint8(emptyValue) as real);
    var i := 0;
    while i < |names|
      invariant 0 <= i <= |names| && |cur| == n
      invariant forall k :: 0 <= k < i && names[k] != cats ==> names[k] in values
      invariant cur == CatsAfter(values, cats, names, i, n, emptyValue)
    {
      var stat := names[i];
      if stat != cats && stat !in values {
        assert !ReadsColumns(values, names, cats);
        return cur, true;
      }
      var column := if stat == cats then cur else values[stat];
      cur := CatsStep(cur, column, Uint8(i + 1));
      i := i + 1;
    }
    missing := false;
  }

  /** A status other than "cats" never names the category column. */
  lemma StatusNameIsNotCats(source: Source, lstats: seq<string>, i: nat)
    requires i < |lstats| && lstats[i] != "cats"
    ensures StatusNames(source, lstats)[i] != CatsName(source)
  {
    var prefix := SourceName(source) + "-";
    assert StatusNames(source, lstats)[i] == prefix + lstats[i];
    assert CatsName(source) == prefix + "cats";
    assert (prefix + lstats[i])[|prefix|..] == lstats[i];
    assert (prefix + "cats")[|prefix|..] == "cats";
  }

  /**
   * The frame the pipeline stages share: its rows (points, predictions,
   * reference records, region codes) and the columns the stages add,
   * boolean or numeric, by name.
   */
  class Frame {
    var rows: seq<Row>
    var flags: map<string, seq<bool>>
    var values: map<string, seq<real>>

    /** Every added column has one entry per row. */
    ghost predicate Valid()
      reads this
    {
      && (forall n :: n in flags ==> |flags[n]| == |rows|)
      && (forall n :: n in values ==> |values[n]| == |rows|)
    }

    /** The frame `out2df` returns: its rows, and no column added yet. */
    constructor (joined: seq<Row>)
      ensures Valid()
      ensures rows == joined && flags == map[] && values == map[]
    {
      rows := joined;
      flags := map[];
      values := map[];
    }

    /** `appliesT(grid, params)`. */
    method AppliesT(t: real)
      requires Valid()
      modifies this
      ensures Valid()
      ensures rows == MapAppliesT(old(rows), t) && flags == old(flags) && values == old(values)
    {
      rows := MapAppliesT(rows, t);
    }

    /**
     * The region part of `df2gdf`: with `removes_oor`, each row receives the
     * region code of the spatial join (`codes`, one per row); outside the
     * precomputed W2_05 grid, rows with an id seen before are then dropped.
     */
    method Df2Gdf(removesOor: bool, precomputedGrid: bool, codes: seq<int>)
      requires Valid()
      requires |codes| == |rows|
      modifies this
      ensures Valid()
      ensures !removesOor ==> rows == old(rows) && flags == old(flags) && values == old(values)
      ensures removesOor && precomputedGrid ==>
        |rows| == |old(rows)| && flags == old(flags) && values == old(values)
        && forall i :: 0 <= i < |rows| ==> rows[i] == old(rows)[i].(region := Some(codes[i]))
      ensures removesOor && !precomputedGrid ==>
        var ks := FirstPositions(RowIds(old(rows)), |old(rows)|);
        && |rows| == |ks|
        && (forall j :: 0 <= j < |ks| ==> rows[j] == old(rows)[ks[j]].(region := Some(codes[ks[j]])))
        && flags.Keys == old(flags).Keys && values.Keys == old(values).Keys
        && (forall k :: k in flags ==> flags[k] == Select(old(flags)[k], ks))
        && (forall k :: k in values ==> values[k] == Select(old(values)[k], ks))
    {
      if removesOor {
        var current := rows;
        var withCodes := seq(|current|, i requires 0 <= i < |current| && |codes| == |current| => current[i].(region := Some(codes[i])));
        if precomputedGrid {
          rows := withCodes;
        } else {
          var ks := FirstPositions(RowIds(rows), |rows|);
          assert forall j :: 0 <= j < |ks| ==> ks[j] < |withCodes|;
          var n := |rows|;
          rows := Select(withCodes, ks);
          flags := map k | k in flags :: Select(flags[k], ks);
          values := map k | k in values :: Select(values[k], ks);
        }
      }
    }

    /**
     * `applies_oor_filter(grid, params)`: with `removes_oor`, every row is
     * filtered; any exception leaves the frame as it was.
     */
    method AppliesOorFilter(removesOor: bool, dz: RangeMap) returns (r: Result<()>)
      requires Valid()
      modifies this
      ensures Valid()
      ensures flags == old(flags) && values == old(values)
      ensures !removesOor ==> r.Ok? && rows == old(rows)
      ensures removesOor ==> (r.Ok? <==> MapOorFilter(old(rows), dz).Ok?)
      ensures removesOor && r.Ok? ==> rows == MapOorFilter(old(rows), dz).value
      ensures r.Raise? ==> rows == old(rows) && r.exc == MapOorFilter(old(rows), dz).exc
    {
      if !removesOor {
        return Ok(());
      }
      var filtered := MapOorFilter(rows, dz);
      if filtered.Raise? {
        return Raise(filtered.exc);
      }
      rows := filtered.value;
      r := Ok(());
    }

    /** `normAbT(grid, params)`, where `byZero` is the float a division by a zero sum yields. */
    method NormAbT(normAbTprobas: bool, byZero: real -> real)
      requires Valid()
      modifies this
      ensures Valid()
      ensures flags == old(flags) && values == old(values)
      ensures rows == if normAbTprobas then MapNormAbT(old(rows), byZero) else old(rows)
    {
      if normAbTprobas {
        rows := MapNormAbT(rows, byZero);
      }
    }

    /** `computes_empty_preds(grid, params)`: the column `empty_name` flags the points left without predictions. */
    method ComputesEmptyPreds(emptyName: string)
      requires Valid()
      modifies this
      ensures Valid()
      ensures rows == old(rows) && values == old(values)
      ensures emptyName in flags && flags == old(flags)[emptyName := flags[emptyName]]
      ensures forall i :: 0 <= i < |rows| ==> (flags[emptyName][i] <==> rows[i].preds.probas == [])
    {
      var current := rows;
      flags := flags[emptyName := seq(|current|, i requires 0 <= i < |current| => IsEmpty(current[i].preds))];
    }

    /**
     * `sumap(grid, sp_ref, source, level, status)`: the column named after
     * the source and the status (or level) receives each point's sum; an
     * exception leaves the frame as it was.
     */
    method Sumap(table: seq<SpeciesRecord>, source: Source, kind: SumapKind) returns (r: Result<string>)
      requires Valid()
      modifies this
      ensures Valid()
      ensures rows == old(rows) && flags == old(flags)
      ensures var col := SumapColumn(old(rows), ThreatDict(table, if kind.Binary? then B else S, source), kind);
        && (r.Ok? <==> col.Ok?)
        && (r.Ok? ==> r.value == SumapName(source, kind) && values == old(values)[r.value := col.value])
        && (r.Raise? ==> values == old(values) && r.exc == col.exc)
    {
      var d := ThreatDict(table, if kind.Binary? then B else S, source);
      var col := SumapColumn(rows, d, kind);
      if col.Raise? {
        return Raise(col.exc);
      }
      var name := SumapName(source, kind);
      values := values[name := col.value];
      r := Ok(name);
    }

    /**
     * The `shannon` column. The index itself (`-sum(p * log p)`) is not
     * modelled: `entropies` holds its value for each row.
     */
    method Shannon(entropies: seq<real>) returns (name: string)
      requires Valid()
      requires |entropies| == |rows|
      modifies this
      ensures Valid()
      ensures rows == old(rows) && flags == old(flags)
      ensures name == "shannon" && values == old(values)[name := entropies]
    {
      name := "shannon";
      values := values[name := entropies];
    }

    /**
     * `worst_status_cat(df, params, source)`: the column `source-cats` starts
     * at the empty value; then, status by status in `Lstats` order, every
     * row whose `source-status` sum is non-zero receives the status's
     * position plus one. A status column that does not exist raises KeyError
     * once the column has been partly written.
     */
    method WorstStatusCat(source: Source, lstats: seq<string>, emptyValue: int) returns (r: Result<string>)
      requires Valid()
      modifies this
      ensures Valid()
      ensures rows == old(rows) && flags == old(flags)
      ensures r.Ok? <==> ReadsColumns(old(values), StatusNames(source, lstats), CatsName(source))
      ensures r.Ok? ==> r.value == CatsName(source)
      ensures r.Ok? ==> values == old(values)[CatsName(source) :=
        CatsAfter(old(values), CatsName(source), StatusNames(source, lstats), |lstats|, |rows|, emptyValue)]
      ensures r.Raise? ==> r.exc == KeyError
      ensures r.Raise? ==> CatsName(source) in values
      ensures r.Raise? ==> values == old(values)[CatsName(source) := values[CatsName(source)]]
    {
      var cats := CatsName(source);
      var cur, missing := CatsLoop(values, cats, StatusNames(source, lstats), |rows|, emptyValue);
      values := values[cats := cur];
      if missing {
        return Raise(KeyError);
      }
      r := Ok(cats);
    }

    /**
     * The masking part of `rasterization(grid, var, ...)`: on every empty
     * row the column `var` becomes the empty value; the (record, value)
     * pairs handed to the rasteriser are returned. A missing column raises
     * KeyError.
     */
    method MaskEmpty(name: string, emptyName: string, emptyValue: int) returns (r: Result<seq<(Option<Site>, real)>>)
      requires Valid()
      modifies this
      ensures Valid()
      ensures rows == old(rows) && flags == old(flags)
      ensures r.Ok? <==> name in old(values) && emptyName in old(flags)
      ensures r.Raise? ==> r.exc == KeyError && values == old(values)
      ensures r.Ok? ==> name in values && values == old(values)[name := values[name]]
      ensures r.Ok? ==> MaskedFrom(values[name], old(values)[name], old(flags)[emptyName], emptyValue)
      ensures r.Ok? ==> r.value == Burned(rows, values[name])
    {
      if name !in values || emptyName !in flags {
        return Raise(KeyError);
      }
      var n := |rows|;
      var column := values[name];
      var empty := flags[emptyName];
      var masked := seq(n, j requires 0 <= j < n && |column| == n && |empty| == n =>
        if empty[j] then emptyValue as real else column[j]);
      values := values[name := masked];
      var current := rows;
      r := Ok(Burned(current, masked));
    }
  }

  /** One more status extends the worst-status computation the way the loop does. */
  lemma WorstStatusStep(values: map<string, seq<real>>, names: seq<string>, i: nat, j: nat)
    requires i < |names|
    requires forall k :: 0 <= k <= i ==> names[k] in values && j < |values[names[k]]|
    ensures var before := StatusSums(values, names[..i], j);
      var after := StatusSums(values, names[..i + 1], j);
      && after == before + [values[names[i]][j]]
      && WorstStatus(after) == (if values[names[i]][j] != 0.0 then Some(i + 1) else WorstStatus(before))
  {
    var after := StatusSums(values, names[..i + 1], j);
    assert after[..i] == StatusSums(values, names[..i], j);
  }
}
