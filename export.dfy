/**
 * `export.py`: the buffered export of model outputs. Batches of scores are
 * buffered; each flush (`_export_bigdata`) lays the top-`size` predictions
 * of every buffered point out in the two binary streams, advances the
 * exported count, and computes and writes the seven indicator maps of the
 * buffer under that count.
 */
module Export {
  import opened Wrappers
  import opened Numeric
  import opened Text
  import opened IndicesRows
  import opened IndicesFrame
  import opened IndicesMaps
  import opened ExportLayout
  import opened Chains

  /** The model's output for one batch: a row of scores per point. */
  type Batch = seq<Scores>

  /** The rows of the batches, one batch after the other. */
  function Flatten(results: seq<Batch>): (rows: seq<Scores>)
  {
    if results == [] then [] else results[0] + Flatten(results[1..])
  }

  lemma {:induction false} FlattenConcat(a: seq<Batch>, b: seq<Batch>)
    ensures Flatten(a + b) == Flatten(a) + Flatten(b)
  {
    if a == [] {
      assert a + b == b;
    } else {
      assert (a + b)[0] == a[0];
      assert (a + b)[1..] == a[1..] + b;
      FlattenConcat(a[1..], b);
    }
  }

  /** `np.concatenate(results)`: the buffered rows in order; an empty buffer raises ValueError. */
  function Concatenate(results: seq<Batch>): (r: Result<seq<Scores>>)
    ensures r.Raise? <==> results == []
    ensures r.Raise? ==> r.exc == ValueError
    ensures r.Ok? ==> r.value == Flatten(results)
  {
    if results == [] then Raise(ValueError) else Ok(Flatten(results))
  }

  /** Every batch holds at least one point. */
  ghost predicate NonEmptyBatches(batches: seq<Batch>)
  {
    forall k :: 0 <= k < |batches| ==> batches[k] != []
  }

  // ---------------------------------------------------------------------------
  // Point ids: `test_ids[exp_count + i]`.

  /** `test_ids` has an entry for each of the `n` points from position `start` on. */
  predicate IdsFit(testIds: seq<int>, start: nat, n: nat)
  {
    n == 0 || start + n <= |testIds|
  }

  /** The ids of the `n` points from position `start` on. */
  function IdsOf(testIds: seq<int>, start: nat, n: nat): (ids: seq<int>)
    requires IdsFit(testIds, start, n)
    ensures |ids| == n
    ensures forall k :: 0 <= k < n ==> ids[k] == testIds[start + k]
  {
    if n == 0 then [] else testIds[start..start + n]
  }

  /** Two runs of ids read one after the other are the ids of the whole run: no gap, no repeat. */
  lemma IdsOfConcat(testIds: seq<int>, start: nat, m: nat, n: nat)
    requires IdsFit(testIds, start, m) && IdsFit(testIds, start + m, n) && IdsFit(testIds, start, m + n)
    ensures IdsOf(testIds, start, m) + IdsOf(testIds, start + m, n) == IdsOf(testIds, start, m + n)
  {
    var a, b, c := IdsOf(testIds, start, m), IdsOf(testIds, start + m, n), IdsOf(testIds, start, m + n);
    assert forall k :: 0 <= k < m + n ==> (a + b)[k] == c[k];
  }

  // ---------------------------------------------------------------------------
  // The streams.

  /** The words of the classes stream, read back as the optional ids they were converted from. */
  function Lift(ws: seq<int>): (xs: seq<Option<int>>)
    ensures |xs| == |ws|
    ensures forall k :: 0 <= k < |ws| ==> xs[k] == Some(ws[k])
  {
    seq(|ws|, k requires 0 <= k < |ws| => Some(ws[k]))
  }

  lemma LiftConcat(a: seq<int>, b: seq<int>)
    ensures Lift(a + b) == Lift(a) + Lift(b)
  {
    assert forall k :: 0 <= k < |a| + |b| ==> Lift(a + b)[k] == (Lift(a) + Lift(b))[k];
  }

  /** A successful uint32 conversion reads back as the ids it converted, each modulo 2^32. */
  lemma LiftToUint32(xs: seq<Option<int>>)
    requires ToUint32(xs).Ok?
    ensures Lift(ToUint32(xs).value) == Wrapped(xs)
  {
    var ws := ToUint32(xs).value;
    assert forall k :: 0 <= k < |xs| ==> Lift(ws)[k] == Wrapped(xs)[k];
  }

  /** Appending one more row to the rows laid out appends its part of each layout. */
  lemma LayoutsAppendRow(rows: seq<Scores>, ids: seq<int>, row: Scores, id: int,
                         index: Option<map<int, int>>, size: int)
    requires |ids| == |rows|
    ensures ClassesLayout(rows + [row], ids + [id], index, size)
      == ClassesLayout(rows, ids, index, size) + [Some(id)] + ClassIds(TopK(row, size), index)
    ensures ProbasLayout(rows + [row], size) == ProbasLayout(rows, size) + ExportLayout.Selected(row, TopK(row, size))
    ensures OutputLayout(rows + [row], ids + [id], index, size)
      == OutputLayout(rows, ids, index, size) + RowEntries(row, id, index, size)
  {
    assert [row][1..] == [] && [id][1..] == [];
    assert ClassesLayout(rows + [row], ids + [id], index, size)
      == ClassesLayout(rows, ids, index, size) + [Some(id)] + ClassIds(TopK(row, size), index) by {
      var head, cs := [Some(id)], ClassIds(TopK(row, size), index);
      ClassesLayoutConcat(rows, [row], ids, [id], index, size);
      assert ClassesLayout([row], [id], index, size) == head + cs + [];
      assert head + cs + [] == head + cs;
      SeqAssoc(ClassesLayout(rows, ids, index, size), head, cs);
    }
    assert ProbasLayout(rows + [row], size) == ProbasLayout(rows, size) + ExportLayout.Selected(row, TopK(row, size)) by {
      ProbasLayoutConcat(rows, [row], size);
      assert ProbasLayout([row], size) == ExportLayout.Selected(row, TopK(row, size)) + [];
    }
    assert OutputLayout(rows + [row], ids + [id], index, size)
      == OutputLayout(rows, ids, index, size) + RowEntries(row, id, index, size) by {
      OutputLayoutConcat(rows, [row], ids, [id], index, size);
      assert OutputLayout([row], [id], index, size) == RowEntries(row, id, index, size) + [];
    }
  }

  /** Once the classes stream converts, every `output` triple has a class id. */
  lemma {:induction false} OutputClassesKnown(rows: seq<Scores>, ids: seq<int>, index: Option<map<int, int>>, size: int)
    requires |ids| == |rows|
    requires forall x :: x in ClassesLayout(rows, ids, index, size) ==> x.Some?
    ensures forall e :: e in OutputLayout(rows, ids, index, size) ==> e.classId.Some?
  {
    if rows != [] {
      var order := TopK(rows[0], size);
      var cs := ClassIds(order, index);
      var es := RowEntries(rows[0], ids[0], index, size);
      assert ClassesLayout(rows, ids, index, size)
        == [Some(ids[0])] + cs + ClassesLayout(rows[1..], ids[1..], index, size);
      assert OutputLayout(rows, ids, index, size) == es + OutputLayout(rows[1..], ids[1..], index, size);
      OutputClassesKnown(rows[1..], ids[1..], index, size);
      forall m | 0 <= m < |es|
        ensures es[m].classId.Some?
      {
        assert es[m].classId == cs[m] && cs[m] in cs;
      }
    }
  }

  // ---------------------------------------------------------------------------
  // The indicator maps of one flush.

  /** The source and variable type of each map a flush writes, in order: B, S, cat for "iucn" then "comp"; then Shannon. */
  const Stages: seq<(Source, string)> :=
    [(Iucn, "B"), (Iucn, "S"), (Iucn, "cat"), (Comp, "B"), (Comp, "S"), (Comp, "cat"), (Comp, "shannon")]

  /** The three types written per source. */
  const SourceTypes: seq<string> := ["B", "S", "cat"]

  lemma StagesOfSource(s: nat)
    requires s < 2
    ensures forall k :: 0 <= k < 3 ==> Stages[3 * s + k] == ([Iucn, Comp][s], SourceTypes[k])
  {
    if s == 0 {
      assert Stages[..3] == [(Iucn, "B"), (Iucn, "S"), (Iucn, "cat")];
    } else {
      assert Stages[3..6] == [(Comp, "B"), (Comp, "S"), (Comp, "cat")];
    }
  }

  /** Map `w` is the `varType` stack of `src`, named after its bands and written under buffer count `count`. */
  ghost predicate NamedAs(w: Written, p: IndexParams, src: Source, varType: string, count: nat)
  {
    && w.stackName == JoinWith("_", StageKeys(varType, src, p.lstats))
    && p.gridName.GridStr?
    && w.path == BufferTifPath(p.mapsPath, w.stackName, p.gridName.name, count)
  }

  /** The maps of one flush: the first stages, in their order, all under the flush's count. */
  ghost predicate FlushMaps(ws: seq<Written>, p: IndexParams, count: nat)
  {
    |ws| <= 7 && forall k :: 0 <= k < |ws| ==> NamedAs(ws[k], p, Stages[k].0, Stages[k].1, count)
  }

  /** A written map is named as its stage says. */
  lemma WrittenNamed(w: Written, rows: seq<Row>, values: map<string, seq<real>>, p: IndexParams,
                     varType: string, src: Source, count: nat)
    requires WrittenAs(w, rows, values, p, varType, src, count)
    ensures NamedAs(w, p, src, varType, count)
  {
  }

  /** The maps of one more source extend the maps of a flush. */
  lemma FlushMapsSource(written: seq<Written>, ws: seq<Written>, p: IndexParams, count: nat, s: nat)
    requires s < 2 && |written| == 3 * s && FlushMaps(written, p, count) && |ws| <= 3
    requires forall k :: 0 <= k < |ws| ==> NamedAs(ws[k], p, [Iucn, Comp][s], SourceTypes[k], count)
    ensures FlushMaps(written + ws, p, count)
  {
    StagesOfSource(s);
    forall k | 0 <= k < |written + ws|
      ensures NamedAs((written + ws)[k], p, Stages[k].0, Stages[k].1, count)
    {
      if k >= |written| {
        assert (written + ws)[k] == ws[k - 3 * s];
      }
    }
  }

  /** A flush that wrote a map had a `str` grid name: under a tuple one, the first map raises. */
  lemma WrittenUnderStr(ws: seq<Written>, p: IndexParams, count: nat)
    requires FlushMaps(ws, p, count) && ws != []
    ensures p.gridName.GridStr?
  {
    assert NamedAs(ws[0], p, Stages[0].0, Stages[0].1, count);
  }

  /** The Shannon map ends the maps of a flush. */
  lemma FlushMapsShannon(written: seq<Written>, w: Written, p: IndexParams, count: nat)
    requires |written| == 6 && FlushMaps(written, p, count)
    requires NamedAs(w, p, Comp, "shannon", count)
    ensures FlushMaps(written + [w], p, count)
  {
    assert Stages[6] == (Comp, "shannon");
  }

  /**
   * What the indicator computation reads besides the predictions: the
   * reference grid, the threshold `T`, the range filter and its ranges,
   * the normalisation flag, the status table and the map parameters. The
   * spatial join of a point with the ecoregions is `regionCode`, the
   * Shannon index of a prediction list is `entropy`, and the float a
   * probability divided by a zero sum gives is `byZero`.
   */
  datatype IndicesEnv = IndicesEnv(
    gridRef: seq<GridRow>, t: real, removesOor: bool, dz: RangeMap,
    normAbTprobas: bool, regionCode: Option<Site> -> int, entropy: seq<real> -> real,
    byZero: real -> real, table: seq<SpeciesRecord>, maps: IndexParams)

  /** The grid whose points are unique already: `df2gdf` skips `drop_duplicates` on it. */
  const PrecomputedGrid: string := "W2_05_grid"

  /** Every probability of every row is positive. */
  ghost predicate Positive(rows: seq<Row>)
  {
    forall i, x :: 0 <= i < |rows| && x in rows[i].preds.probas ==> x > 0.0
  }

  /** A positive threshold leaves only positive probabilities. */
  lemma PositiveAfterT(rows: seq<Row>, t: real)
    requires t > 0.0
    ensures Positive(MapAppliesT(rows, t))
  {
    var out := MapAppliesT(rows, t);
    forall i, x | 0 <= i < |out| && x in out[i].preds.probas
      ensures x > 0.0
    {
      assert out[i].preds.probas == AtLeast(rows[i].preds.probas, t);
    }
  }

  /** The range filter only removes probabilities. */
  lemma PositiveAfterOor(rows: seq<Row>, dz: RangeMap)
    requires Positive(rows) && MapOorFilter(rows, dz).Ok?
    ensures Positive(MapOorFilter(rows, dz).value)
  {
    var out := MapOorFilter(rows, dz).value;
    forall i, x | 0 <= i < |out| && x in out[i].preds.probas
      ensures x > 0.0
    {
      var p := rows[i].preds;
      var sel := OorSelector(p.classes, rows[i].region.value, dz);
      assert RemovesOorSpecies(p, rows[i].region.value, dz) == Ok(out[i].preds);
      var probas := ListIndex(p.probas, sel.value);
      assert out[i].preds.probas == probas.value;
      assert x in p.probas;
    }
  }

  /** Positive probabilities never sum to zero. */
  lemma PositiveNormalisable(rows: seq<Row>)
    requires Positive(rows)
    ensures Normalisable(rows)
  {
    forall i | 0 <= i < |rows|
      ensures rows[i].preds.probas == [] || Sum(rows[i].preds.probas) != 0.0
    {
      var ps := rows[i].preds.probas;
      forall k | 0 <= k < |ps|
        ensures ps[k] > 0.0
      {
        assert ps[k] in ps;
      }
      SumPositive(ps);
    }
  }

  /**
   * The region part of `df2gdf` on `rows`: without the range filter the
   * rows stay as they are; with it every row receives the region code of
   * its site, and outside the precomputed grid (which a tuple name never
   * is) only the first row of each id is kept.
   */
  function Located(rows: seq<Row>, removesOor: bool, gridName: GridName, regionCode: Option<Site> -> int): (r: seq<Row>)
    ensures |r| <= |rows|
  {
    if !removesOor then rows
    else if gridName == GridStr(PrecomputedGrid) then
      seq(|rows|, i requires 0 <= i < |rows| => rows[i].(region := Some(regionCode(rows[i].site))))
    else
      var ks := FirstPositions(RowIds(rows), |rows|);
      FirstPositionsLength(RowIds(rows), ks);
      seq(|ks|, j requires 0 <= j < |ks| => rows[ks[j]].(region := Some(regionCode(rows[ks[j]].site))))
  }

  /**
   * With one reference record per id, `df2gdf` drops no row: the located
   * frame holds the rows of `out2df` after `appliesT`, position for
   * position, so its index stays 0..n-1 and the positions
   * `worst_status_cat` hands to `.loc` are its labels.
   */
  lemma LocatedKeepsPositions(output: seq<Triple>, env: IndicesEnv)
    requires UniqueIds(env.gridRef)
    ensures var rows := MapAppliesT(JoinedRows(output, env.gridRef), env.t);
      var located := Located(rows, env.removesOor, env.maps.gridName, env.regionCode);
      && |located| == |rows|
      && forall i :: 0 <= i < |rows| ==> located[i].gbifid == rows[i].gbifid && located[i].preds == rows[i].preds
  {
    var joined := JoinedRows(output, env.gridRef);
    var rows := MapAppliesT(joined, env.t);
    Out2DfOneRowPerPoint(output, env.gridRef);
    assert RowIds(rows) == RowIds(joined);
    FirstPositionsOfDistinct(RowIds(rows), |rows|);
  }

  /** Increasing positions below `|ids|` are no more than `|ids|`. */
  lemma FirstPositionsLength(ids: seq<int>, ks: seq<nat>)
    requires forall j :: 0 <= j < |ks| ==> ks[j] < |ids|
    requires forall a, b :: 0 <= a < b < |ks| ==> ks[a] < ks[b]
    ensures |ks| <= |ids|
  {
    if |ks| > 0 {
      forall j | 0 <= j < |ks|
        ensures j <= ks[j]
      {
        var i := 0;
        while i < j
          invariant i <= j && i <= ks[i]
        {
          i := i + 1;
        }
      }
      assert |ks| - 1 <= ks[|ks| - 1];
    }
  }

  /** Locating the points keeps the probabilities of the rows it keeps. */
  lemma PositiveLocated(rows: seq<Row>, removesOor: bool, gridName: GridName, regionCode: Option<Site> -> int)
    requires Positive(rows)
    ensures Positive(Located(rows, removesOor, gridName, regionCode))
  {
    var out := Located(rows, removesOor, gridName, regionCode);
    forall i, x | 0 <= i < |out| && x in out[i].preds.probas
      ensures x > 0.0
    {
      if removesOor && gridName != GridStr(PrecomputedGrid) {
        var ks := FirstPositions(RowIds(rows), |rows|);
        assert out[i].preds == rows[ks[i]].preds;
      }
    }
  }

  /**
   * The frame `_export_bigdata` hands to the maps: `out2df`, `appliesT`,
   * the region part of `df2gdf`, the range filter and `normAbT`. The only
   * exception is the range filter's.
   */
  ghost function Prepared(output: seq<Triple>, env: IndicesEnv): (r: Result<seq<Row>>)
  {
    var joined := Out2Df(output, env.gridRef);
    if joined.Raise? then Raise(joined.exc)
    else
      var thresholded := MapAppliesT(joined.value, env.t);
      var located := Located(thresholded, env.removesOor, env.maps.gridName, env.regionCode);
      var filtered := if env.removesOor then MapOorFilter(located, env.dz) else Ok(located);
      if filtered.Raise? then filtered
      else if env.normAbTprobas then Ok(MapNormAbT(filtered.value, env.byZero))
      else filtered
  }

  /**
   * `Prepared` is the filtered located rows of the joined frame, normalised
   * when asked; with a positive threshold no row reaching `normAbT` sums to
   * zero, so `byZero` is never used.
   */
  lemma PreparedOf(output: seq<Triple>, env: IndicesEnv, joined: seq<Row>, filtered: Result<seq<Row>>)
    requires Out2Df(output, env.gridRef) == Ok(joined)
    requires var located := Located(MapAppliesT(joined, env.t), env.removesOor,
      env.maps.gridName, env.regionCode);
      filtered == if env.removesOor then MapOorFilter(located, env.dz) else Ok(located)
    ensures filtered.Ok? && env.t > 0.0 ==> Normalisable(filtered.value)
    ensures Prepared(output, env) ==
      if filtered.Raise? || !env.normAbTprobas then filtered else Ok(MapNormAbT(filtered.value, env.byZero))
  {
    if filtered.Ok? && env.t > 0.0 {
      PreparedNormalisable(joined, env);
    }
  }

  /** With normalisation on, the rows reaching `normAbT` never sum to zero. */
  lemma PreparedNormalisable(joined: seq<Row>, env: IndicesEnv)
    requires env.t > 0.0
    requires var located := Located(MapAppliesT(joined, env.t), env.removesOor, env.maps.gridName, env.regionCode);
      env.removesOor ==> MapOorFilter(located, env.dz).Ok?
    ensures var located := Located(MapAppliesT(joined, env.t), env.removesOor, env.maps.gridName, env.regionCode);
      Normalisable(if env.removesOor then MapOorFilter(located, env.dz).value else located)
  {
    PositiveAfterT(joined, env.t);
    var located := Located(MapAppliesT(joined, env.t), env.removesOor, env.maps.gridName, env.regionCode);
    PositiveLocated(MapAppliesT(joined, env.t), env.removesOor, env.maps.gridName, env.regionCode);
    if env.removesOor {
      PositiveAfterOor(located, env.dz);
      PositiveNormalisable(MapOorFilter(located, env.dz).value);
    } else {
      PositiveNormalisable(located);
    }
  }

  /** The empty-prediction flags of the rows, one per row. */
  function EmptyFlags(rows: seq<Row>): (fl: seq<bool>)
    ensures |fl| == |rows|
    ensures forall i :: 0 <= i < |rows| ==> (fl[i] <==> rows[i].preds.probas == [])
  {
    seq(|rows|, i requires 0 <= i < |rows| => IsEmpty(rows[i].preds))
  }

  /** The Shannon index of every row. */
  function Entropies(rows: seq<Row>, entropy: seq<real> -> real): (es: seq<real>)
    ensures |es| == |rows|
    ensures forall j :: 0 <= j < |rows| ==> es[j] == entropy(rows[j].preds.probas)
  {
    seq(|rows|, j requires 0 <= j < |rows| => entropy(rows[j].preds.probas))
  }

  /**
   * Map `w`, written by the `varType` stage of `src` on the frame `rows`
   * and `flags`, found the columns `prev` and left the columns `col`: the
   * file burns the stage's masked columns.
   */
  ghost predicate StageOutput(w: Written, col: map<string, seq<real>>, prev: map<string, seq<real>>, rows: seq<Row>,
                              flags: map<string, seq<bool>>, p: IndexParams, table: seq<SpeciesRecord>,
                              src: Source, varType: string, entropies: seq<real>, count: nat)
  {
    && WrittenAs(w, rows, col, p, varType, src, count)
    && StageColumns(varType, col, flags, rows, prev, table, src, p, entropies)
  }

  /** Stage `k` of a flush, of the source and type `Stages[k]`, on the frame `rows` and `flags`. */
  ghost function FlushStage(rows: seq<Row>, flags: map<string, seq<bool>>, env: IndicesEnv, count: nat)
    : (nat, Written, map<string, seq<real>>, map<string, seq<real>>) -> bool
  {
    (k: nat, w: Written, col: map<string, seq<real>>, prev: map<string, seq<real>>) =>
      k < 7 && StageOutput(w, col, prev, rows, flags, env.maps, env.table, Stages[k].0, Stages[k].1,
        if k == 6 then Entropies(rows, env.entropy) else [], count)
  }

  /** Stage `i` of source `src`, of type `SourceTypes[i]`. */
  ghost function SourceStage(rows: seq<Row>, flags: map<string, seq<bool>>, p: IndexParams,
                             table: seq<SpeciesRecord>, src: Source, count: nat)
    : (nat, Written, map<string, seq<real>>, map<string, seq<real>>) -> bool
  {
    (i: nat, w: Written, col: map<string, seq<real>>, prev: map<string, seq<real>>) =>
      i < 3 && StageOutput(w, col, prev, rows, flags, p, table, src, SourceTypes[i], [], count)
  }

  /**
   * The maps `written` of a flush, stage after stage from the columns
   * `v0`: map `k` is the output of stage `k`, which found the columns the
   * stage before it left (`cols[k - 1]`) and left `cols[k]`.
   */
  ghost predicate StagesWritten(written: seq<Written>, cols: seq<map<string, seq<real>>>, v0: map<string, seq<real>>,
                                rows: seq<Row>, flags: map<string, seq<bool>>, env: IndicesEnv, count: nat)
  {
    Chain(written, cols, v0, FlushStage(rows, flags, env, count))
  }

  /** The maps of source `s` extend the maps of the sources before it. */
  lemma StagesWrittenSource(written: seq<Written>, cols: seq<map<string, seq<real>>>, v0: map<string, seq<real>>,
                            ws: seq<Written>, scols: seq<map<string, seq<real>>>,
                            rows: seq<Row>, flags: map<string, seq<bool>>, env: IndicesEnv, count: nat, s: nat)
    requires s < 2 && |written| == 3 * s
    requires StagesWritten(written, cols, v0, rows, flags, env, count)
    requires Chain(ws, scols, Before(v0, cols, |cols|),
      SourceStage(rows, flags, env.maps, env.table, [Iucn, Comp][s], count))
    ensures StagesWritten(written + ws, cols + scols, v0, rows, flags, env, count)
  {
    SourceChainIsFlushChain(ws, scols, Before(v0, cols, |cols|), rows, flags, env, count, s, |written|);
    ChainAppend(written, cols, v0, FlushStage(rows, flags, env, count), ws, scols);
  }

  /** The maps of source `s`, moved `3 * s` places on, are stages of a flush. */
  lemma SourceChainIsFlushChain(ws: seq<Written>, scols: seq<map<string, seq<real>>>, mid: map<string, seq<real>>,
                                rows: seq<Row>, flags: map<string, seq<bool>>, env: IndicesEnv, count: nat,
                                s: nat, off: nat)
    requires s < 2 && off == 3 * s
    requires Chain(ws, scols, mid, SourceStage(rows, flags, env.maps, env.table, [Iucn, Comp][s], count))
    ensures forall j :: 0 <= j < |ws| ==>
      FlushStage(rows, flags, env, count)(off + j, ws[j], scols[j], Before(mid, scols, j))
  {
    var Q := SourceStage(rows, flags, env.maps, env.table, [Iucn, Comp][s], count);
    forall j | 0 <= j < |ws|
      ensures FlushStage(rows, flags, env, count)(off + j, ws[j], scols[j], Before(mid, scols, j))
    {
      assert Q(j, ws[j], scols[j], Before(mid, scols, j));
      SourceStageIsFlushStage(rows, flags, env, count, s, j, ws[j], scols[j], Before(mid, scols, j));
    }
  }

  /** Stage `i` of source `s` is stage `3 * s + i` of a flush. */
  lemma SourceStageIsFlushStage(rows: seq<Row>, flags: map<string, seq<bool>>, env: IndicesEnv, count: nat,
                                s: nat, i: nat, w: Written, c: map<string, seq<real>>, prev: map<string, seq<real>>)
    requires s < 2
    requires SourceStage(rows, flags, env.maps, env.table, [Iucn, Comp][s], count)(i, w, c, prev)
    ensures FlushStage(rows, flags, env, count)(3 * s + i, w, c, prev)
  {
    var src, ty := [Iucn, Comp][s], SourceTypes[i];
    assert i < 3 && StageOutput(w, c, prev, rows, flags, env.maps, env.table, src, ty, [], count);
    StagesOfSource(s);
    assert Stages[3 * s + i] == (src, ty);
  }

  /**
   * The B, S and cat maps of one source, in that order. The cat stage reads
   * the status columns the S stage has just written, so once S succeeds
   * cat cannot fail.
   */
  method SourceMaps(grid: Frame, p: IndexParams, table: seq<SpeciesRecord>, src: Source, count: nat)
    returns (ws: seq<Written>, r: Result<()>, ghost cols: seq<map<string, seq<real>>>)
    requires grid.Valid() && p.emptyName in grid.flags
    modifies grid
    ensures grid.Valid() && grid.rows == old(grid.rows) && grid.flags == old(grid.flags)
    ensures |ws| <= 3
    ensures r.Ok? ==> |ws| == 3
    ensures r.Raise? ==> |ws| < 2
    ensures Chain(ws, cols, old(grid.values), SourceStage(grid.rows, grid.flags, p, table, src, count))
    ensures r.Ok? ==> grid.values == cols[2]
  {
    ws := [];
    cols := [];
    for k := 0 to 3
      invariant grid.Valid() && grid.rows == old(grid.rows) && grid.flags == old(grid.flags)
      invariant |ws| == k && |cols| == k
      invariant Chain(ws, cols, old(grid.values), SourceStage(grid.rows, grid.flags, p, table, src, count))
      invariant grid.values == Before(old(grid.values), cols, k)
      invariant k >= 1 ==> p.seconds != 0 && p.gridName.GridStr?
      invariant k == 2 ==> HasColumns(grid.values, StatusNames(src, p.lstats))
    {
      var w := SourceMapStep(grid, p, table, src, count, k, ws, cols, old(grid.values));
      if w.Raise? {
        return ws, Raise(w.exc), cols;
      }
      ws := ws + [w.value];
      cols := cols + [grid.values];
    }
    r := Ok(());
  }

  /**
   * One pass of the loop of `SourceMaps`: stage `k`'s map, and the chain of
   * the source's stages one stage longer; at "cat" it cannot fail.
   */
  method SourceMapStep(grid: Frame, p: IndexParams, table: seq<SpeciesRecord>, src: Source, count: nat, k: nat,
                       ws: seq<Written>, ghost cols: seq<map<string, seq<real>>>, ghost start: map<string, seq<real>>)
    returns (w: Result<Written>)
    requires k < 3 && grid.Valid() && p.emptyName in grid.flags
    requires |ws| == k && |cols| == k
    requires Chain(ws, cols, start, SourceStage(grid.rows, grid.flags, p, table, src, count))
    requires grid.values == Before(start, cols, k)
    requires k >= 1 ==> p.seconds != 0 && p.gridName.GridStr?
    requires k == 2 ==> HasColumns(grid.values, StatusNames(src, p.lstats))
    modifies grid
    ensures grid.Valid() && grid.rows == old(grid.rows) && grid.flags == old(grid.flags)
    ensures k == 2 ==> w.Ok?
    ensures w.Ok? ==> p.seconds != 0 && p.gridName.GridStr?
    ensures w.Ok? ==> Chain(ws + [w.value], cols + [grid.values], start, SourceStage(grid.rows, grid.flags, p, table, src, count))
    ensures w.Ok? ==> grid.values == Before(start, cols + [grid.values], k + 1)
    ensures w.Ok? && k == 1 ==> HasColumns(grid.values, StatusNames(src, p.lstats))
  {
    w := SourceMap(grid, p, table, src, count, k);
    if w.Ok? {
      ChainSnoc(ws, cols, start, SourceStage(grid.rows, grid.flags, p, table, src, count), w.value, grid.values);
    }
  }

  /** Stage `k` of the maps of source `src`: `grid2tif` of type `SourceTypes[k]`. */
  method SourceMap(grid: Frame, p: IndexParams, table: seq<SpeciesRecord>, src: Source, count: nat, k: nat)
    returns (w: Result<Written>)
    requires k < 3 && grid.Valid() && p.emptyName in grid.flags
    requires k == 2 ==> p.seconds != 0 && p.gridName.GridStr? && HasColumns(grid.values, StatusNames(src, p.lstats))
    modifies grid
    ensures grid.Valid() && grid.rows == old(grid.rows) && grid.flags == old(grid.flags)
    ensures k == 2 ==> w.Ok?
    ensures w.Ok? ==> p.seconds != 0 && p.gridName.GridStr?
    ensures w.Ok? ==> SourceStage(grid.rows, grid.flags, p, table, src, count)(k, w.value, grid.values, old(grid.values))
    ensures w.Ok? && k == 1 ==> HasColumns(grid.values, StatusNames(src, p.lstats))
  {
    w := Grid2Tif(grid, p, table, src, SourceTypes[k], [], count);
    if w.Raise? {
      return;
    }
    if k == 1 {
      var names := StatusNames(src, p.lstats);
      forall i | 0 <= i < |names|
        ensures names[i] in grid.values
      {
        assert names[i] == SumapName(src, OfStatus(p.lstats[i]));
      }
    }
  }

  /** The maps of a source are named as their stages say. */
  lemma SourceStagesNamed(ws: seq<Written>, cols: seq<map<string, seq<real>>>, start: map<string, seq<real>>,
                          rows: seq<Row>, flags: map<string, seq<bool>>, p: IndexParams,
                          table: seq<SpeciesRecord>, src: Source, count: nat)
    requires Chain(ws, cols, start, SourceStage(rows, flags, p, table, src, count))
    ensures forall k :: 0 <= k < |ws| ==> NamedAs(ws[k], p, src, SourceTypes[k], count)
  {
    forall k | 0 <= k < |ws|
      ensures NamedAs(ws[k], p, src, SourceTypes[k], count)
    {
      assert SourceStage(rows, flags, p, table, src, count)(k, ws[k], cols[k], Before(start, cols, k));
      WrittenNamed(ws[k], rows, cols[k], p, SourceTypes[k], src, count);
    }
  }

  /**
   * The frame stages of `_export_bigdata` before the maps: `out2df`,
   * `appliesT`, `df2gdf` (the spatial join giving each point
   * `regionCode(site)`), the range filter, `normAbT` and the empty flag.
   * The frame is `Prepared`, with no value column yet and the empty flag;
   * the only exception is the range filter's.
   */
  method PrepareGrid(output: seq<Triple>, env: IndicesEnv) returns (grid: Frame, r: Result<()>)
    ensures fresh(grid) && grid.Valid()
    ensures r.Ok? <==> Prepared(output, env).Ok?
    ensures r.Raise? ==> r.exc == Prepared(output, env).exc
    ensures r.Ok? ==>
      && grid.rows == Prepared(output, env).value && grid.values == map[]
      && grid.flags == map[env.maps.emptyName := EmptyFlags(grid.rows)]
  {
    var joined := Out2Df(output, env.gridRef);
    if joined.Raise? {
      grid := new Frame([]);
      r := Raise(joined.exc);
      return;
    }
    grid := LocatedGrid(joined.value, env);
    ghost var located := grid.rows;
    ghost var filtered := if env.removesOor then MapOorFilter(located, env.dz) else Ok(located);
    PreparedOf(output, env, joined.value, filtered);
    r := grid.AppliesOorFilter(env.removesOor, env.dz);
    if r.Raise? {
      return;
    }
    assert grid.rows == filtered.value;
    grid.NormAbT(env.normAbTprobas, env.byZero);
    grid.ComputesEmptyPreds(env.maps.emptyName);
    assert grid.flags[env.maps.emptyName] == EmptyFlags(grid.rows);
  }

  /** `appliesT` and `df2gdf` on the frame `out2df` built: the located rows, with no column yet. */
  method LocatedGrid(joined: seq<Row>, env: IndicesEnv) returns (grid: Frame)
    ensures fresh(grid) && grid.Valid()
    ensures grid.rows == Located(MapAppliesT(joined, env.t), env.removesOor,
      env.maps.gridName, env.regionCode)
    ensures grid.flags == map[] && grid.values == map[]
  {
    grid := new Frame(joined);
    grid.AppliesT(env.t);
    var rows := grid.rows;
    var codes := seq(|rows|, j requires 0 <= j < |rows| => env.regionCode(rows[j].site));
    grid.Df2Gdf(env.removesOor, env.maps.gridName == GridStr(PrecomputedGrid), codes);
    LocatedRows(rows, grid.rows, codes, env);
    if grid.flags.Keys == {} {
      assert grid.flags == map[];
    }
    if grid.values.Keys == {} {
      assert grid.values == map[];
    }
  }

  /** What `Frame.Df2Gdf` leaves, given the region code of every row's site, is `Located`. */
  lemma LocatedRows(rows: seq<Row>, out: seq<Row>, codes: seq<int>, env: IndicesEnv)
    requires |codes| == |rows| && forall j :: 0 <= j < |rows| ==> codes[j] == env.regionCode(rows[j].site)
    requires !env.removesOor ==> out == rows
    requires env.removesOor && env.maps.gridName == GridStr(PrecomputedGrid) ==>
      |out| == |rows| && forall i :: 0 <= i < |out| ==> out[i] == rows[i].(region := Some(codes[i]))
    requires env.removesOor && env.maps.gridName != GridStr(PrecomputedGrid) ==>
      var ks := FirstPositions(RowIds(rows), |rows|);
      |out| == |ks| && forall j :: 0 <= j < |ks| ==> out[j] == rows[ks[j]].(region := Some(codes[ks[j]]))
    ensures out == Located(rows, env.removesOor, env.maps.gridName, env.regionCode)
  {
  }

  /** The maps of a flush, in stage order; the Shannon index of each point is `entropy` of its probabilities. */
  method WriteMaps(grid: Frame, env: IndicesEnv, count: nat)
    returns (written: seq<Written>, r: Result<()>, ghost cols: seq<map<string, seq<real>>>)
    requires grid.Valid() && env.maps.emptyName in grid.flags
    modifies grid
    ensures grid.rows == old(grid.rows) && grid.flags == old(grid.flags)
    ensures FlushMaps(written, env.maps, count)
    ensures r.Ok? ==> |written| == 7
    ensures r.Raise? ==> |written| < 7 && |written| != 2 && |written| != 5
    ensures StagesWritten(written, cols, old(grid.values), grid.rows, grid.flags, env, count)
  {
    written := [];
    cols := [];
    var sources := [Iucn, Comp];
    for s := 0 to 2
      invariant grid.Valid() && env.maps.emptyName in grid.flags
      invariant grid.rows == old(grid.rows) && grid.flags == old(grid.flags)
      invariant |written| == 3 * s && FlushMaps(written, env.maps, count)
      invariant StagesWritten(written, cols, old(grid.values), grid.rows, grid.flags, env, count)
      invariant grid.values == Before(old(grid.values), cols, |cols|)
    {
      ghost var start := grid.values;
      var ws, sr, scols := SourceMaps(grid, env.maps, env.table, sources[s], count);
      SourceStagesNamed(ws, scols, start, grid.rows, grid.flags, env.maps, env.table, sources[s], count);
      FlushMapsSource(written, ws, env.maps, count, s);
      StagesWrittenSource(written, cols, old(grid.values), ws, scols, grid.rows, grid.flags, env, count, s);
      written := written + ws;
      cols := cols + scols;
      if sr.Raise? {
        return written, sr, cols;
      }
    }
    var entropies := Entropies(grid.rows, env.entropy);
    var w := Grid2Tif(grid, env.maps, [], Comp, "shannon", entropies, count);
    if w.Raise? {
      return written, Raise(w.exc), cols;
    }
    WrittenNamed(w.value, grid.rows, grid.values, env.maps, "shannon", Comp, count);
    FlushMapsShannon(written, w.value, env.maps, count);
    ChainSnoc(written, cols, old(grid.values), FlushStage(grid.rows, grid.flags, env, count), w.value, grid.values);
    written := written + [w.value];
    cols := cols + [grid.values];
    r := Ok(());
  }

  /** `output` as the frame's triples: every class id is known by then. */
  function Triples(output: seq<Entry>): (ts: seq<Triple>)
    requires forall k :: 0 <= k < |output| ==> output[k].classId.Some?
    ensures |ts| == |output|
    ensures forall k :: 0 <= k < |output| ==>
      ts[k] == Triple(output[k].id, output[k].classId.value, output[k].proba)
  {
    if output == [] then []
    else [Triple(output[0].id, output[0].classId.value, output[0].proba)] + Triples(output[1..])
  }

  /**
   * The indicator part of `_export_bigdata`: the frame stages, then the
   * maps of every stage in order. Returns the maps written before any
   * exception.
   */
  method ComputeIndices(output: seq<Triple>, env: IndicesEnv, count: nat)
    returns (written: seq<Written>, r: Result<()>, ghost cols: seq<map<string, seq<real>>>)
    ensures FlushMaps(written, env.maps, count)
    ensures r.Ok? ==> |written| == 7
    ensures r.Raise? ==> |written| < 7 && |written| != 2 && |written| != 5
    ensures Prepared(output, env).Raise? ==> written == [] && r == Raise(Prepared(output, env).exc)
    ensures Prepared(output, env).Ok? ==>
      var rows := Prepared(output, env).value;
      StagesWritten(written, cols, map[], rows, map[env.maps.emptyName := EmptyFlags(rows)], env, count)
  {
    var grid;
    grid, r := PrepareGrid(output, env);
    if r.Raise? {
      return [], r, [];
    }
    written, r, cols := WriteMaps(grid, env, count);
  }

  // ---------------------------------------------------------------------------
  // The per-point loops of `_export_bigdata`.

  /**
   * The inner loop for one point: for each index of its order, the class
   * id (`ClassId`) and score, appended to `L_classes` (after the point's id),
   * `L_probas` and `output`.
   */
  method RowLayout(row: Scores, id: int, index: Option<map<int, int>>, size: int)
    returns (cs: seq<Option<int>>, ps: seq<real>, es: seq<Entry>)
    ensures cs == [Some(id)] + ClassIds(TopK(row, size), index)
    ensures ps == ExportLayout.Selected(row, TopK(row, size))
    ensures es == RowEntries(row, id, index, size)
  {
    var order := TopK(row, size);
    cs, ps, es := [Some(id)], [], [];
    for k := 0 to |order|
      invariant cs == [Some(id)] + ClassIds(order, index)[..k]
      invariant ps == ExportLayout.Selected(row, order)[..k]
      invariant es == RowEntries(row, id, index, size)[..k]
    {
      var j := order[k];
      var proba := row[j];
      var classId := ClassId(j, index);
      assert ClassIds(order, index)[..k + 1] == ClassIds(order, index)[..k] + [classId];
      assert ExportLayout.Selected(row, order)[..k + 1] == ExportLayout.Selected(row, order)[..k] + [proba];
      assert RowEntries(row, id, index, size)[..k + 1] == RowEntries(row, id, index, size)[..k] + [Entry(id, classId, proba)];
      cs := cs + [classId];
      ps := ps + [proba];
      es := es + [Entry(id, classId, proba)];
    }
    assert ClassIds(order, index)[..|order|] == ClassIds(order, index);
    assert ExportLayout.Selected(row, order)[..|order|] == ExportLayout.Selected(row, order);
    assert RowEntries(row, id, index, size)[..|order|] == RowEntries(row, id, index, size);
  }

  /** Laying out row `i` after the rows before it appends its part of each layout, under its id. */
  lemma LayOutStep(rows: seq<Scores>, i: nat, testIds: seq<int>, expCount: nat, index: Option<map<int, int>>, size: int)
    requires i < |rows| && expCount + i < |testIds|
    ensures IdsFit(testIds, expCount, i) && IdsFit(testIds, expCount, i + 1)
    ensures var id, row := testIds[expCount + i], rows[i];
      && ClassesLayout(rows[..i + 1], IdsOf(testIds, expCount, i + 1), index, size)
         == ClassesLayout(rows[..i], IdsOf(testIds, expCount, i), index, size) + ([Some(id)] + ClassIds(TopK(row, size), index))
      && ProbasLayout(rows[..i + 1], size)
         == ProbasLayout(rows[..i], size) + ExportLayout.Selected(row, TopK(row, size))
      && OutputLayout(rows[..i + 1], IdsOf(testIds, expCount, i + 1), index, size)
         == OutputLayout(rows[..i], IdsOf(testIds, expCount, i), index, size) + RowEntries(row, id, index, size)
  {
    var id, pre := testIds[expCount + i], rows[..i];
    var ids := IdsOf(testIds, expCount, i);
    assert rows[..i + 1] == pre + [rows[i]];
    assert IdsOf(testIds, expCount, i + 1) == ids + [id] by {
      if i > 0 {
        assert testIds[expCount..expCount + i + 1] == testIds[expCount..expCount + i] + [id];
      }
    }
    LayoutsAppendRow(pre, ids, rows[i], id, index, size);
    SeqAssoc(ClassesLayout(pre, ids, index, size), [Some(id)], ClassIds(TopK(rows[i], size), index));
  }

  lemma SeqAssoc<T>(a: seq<T>, b: seq<T>, c: seq<T>)
    ensures a + b + c == a + (b + c)
  {
  }

  /**
   * The outer loop: row `i` is attributed to `test_ids[exp_count + i]`;
   * running past the end of `test_ids` raises IndexError. The three lists
   * are the layouts of the rows.
   */
  method LayOut(rows: seq<Scores>, testIds: seq<int>, expCount: nat, index: Option<map<int, int>>, size: int)
    returns (output: seq<Entry>, lClasses: seq<Option<int>>, lProbas: seq<real>, r: Result<()>)
    ensures r.Ok? <==> IdsFit(testIds, expCount, |rows|)
    ensures r.Raise? ==> r.exc == IndexError
    ensures r.Ok? ==> output == OutputLayout(rows, IdsOf(testIds, expCount, |rows|), index, size)
    ensures r.Ok? ==> lClasses == ClassesLayout(rows, IdsOf(testIds, expCount, |rows|), index, size)
    ensures r.Ok? ==> lProbas == ProbasLayout(rows, size)
  {
    output, lClasses, lProbas := [], [], [];
    for i := 0 to |rows|
      invariant IdsFit(testIds, expCount, i)
      invariant output == OutputLayout(rows[..i], IdsOf(testIds, expCount, i), index, size)
      invariant lClasses == ClassesLayout(rows[..i], IdsOf(testIds, expCount, i), index, size)
      invariant lProbas == ProbasLayout(rows[..i], size)
    {
      if expCount + i >= |testIds| {
        return output, lClasses, lProbas, Raise(IndexError);
      }
      var id := testIds[expCount + i];
      var cs, ps, es := RowLayout(rows[i], id, index, size);
      LayOutStep(rows, i, testIds, expCount, index, size);
      lClasses := lClasses + cs;
      lProbas := lProbas + ps;
      output := output + es;
    }
    assert rows[..|rows|] == rows;
    r := Ok(());
  }

  /**
   * The part of `_export_bigdata` before anything is written: the buffer
   * concatenated, its layouts, and the classes layout as uint32 words. It
   * raises the errors of those steps, in their order.
   */
  method Encode(results: seq<Batch>, testIds: seq<int>, index: Option<map<int, int>>, size: int, expCount: nat)
    returns (rows: seq<Scores>, output: seq<Entry>, words: seq<int>, lProbas: seq<real>, r: Result<()>)
    ensures results == [] ==> r == Raise(ValueError)
    ensures results != [] && !IdsFit(testIds, expCount, |Flatten(results)|) ==> r == Raise(IndexError)
    ensures results != [] && IdsFit(testIds, expCount, |Flatten(results)|) ==>
      var conv := ToUint32(ClassesLayout(Flatten(results), IdsOf(testIds, expCount, |Flatten(results)|), index, size));
      && (conv.Raise? ==> r == Raise(conv.exc))
      && (conv.Ok? ==> r.Ok? && words == conv.value)
    ensures r.Ok? ==> rows == Flatten(results) && IdsFit(testIds, expCount, |rows|)
    ensures r.Ok? ==> output == OutputLayout(rows, IdsOf(testIds, expCount, |rows|), index, size)
    ensures r.Ok? ==> lProbas == ProbasLayout(rows, size)
    ensures r.Ok? ==> forall k :: 0 <= k < |output| ==> output[k].classId.Some?
  {
    output, words, lProbas := [], [], [];
    var c := Concatenate(results);
    if c.Raise? {
      return [], output, words, lProbas, Raise(c.exc);
    }
    rows := c.value;
    var lClasses, laid;
    output, lClasses, lProbas, laid := LayOut(rows, testIds, expCount, index, size);
    if laid.Raise? {
      return rows, output, words, lProbas, Raise(laid.exc);
    }
    var conv := ToUint32(lClasses);
    if conv.Raise? {
      return rows, output, words, lProbas, Raise(conv.exc);
    }
    words := conv.value;
    forall x | x in lClasses
      ensures x.Some?
    {
      var p := IndexOf(lClasses, x);
    }
    OutputClassesKnown(rows, IdsOf(testIds, expCount, |rows|), index, size);
    assert forall k :: 0 <= k < |output| ==> output[k] in output;
    r := Ok(());
  }

  // ---------------------------------------------------------------------------
  // The exporter.

  /** How many batches are still buffered after the first `n`: a flush empties the buffer. */
  function Pending(n: nat, batchSize: int, bufferSize: int): (p: nat)
    ensures p <= n
  {
    if n == 0 then 0
    else
      var q := Pending(n - 1, batchSize, bufferSize) + 1;
      if q * batchSize >= bufferSize then 0 else q
  }

  /** Buffering batch `idx` after the batches `flushed` and `results` keeps both slices of `batches`. */
  lemma BufferSlices(batches: seq<Batch>, idx: nat, flushed: seq<Batch>, results: seq<Batch>)
    requires idx < |batches| && |results| <= idx
    requires flushed == batches[..idx - |results|] && results == batches[idx - |results|..idx]
    ensures results + [batches[idx]] == batches[idx - |results|..idx + 1]
    ensures flushed + (results + [batches[idx]]) == batches[..idx + 1]
    ensures NonEmptyBatches(batches) ==> (results + [batches[idx]])[0] != []
  {
    assert batches[..idx + 1] == batches[..idx - |results|] + batches[idx - |results|..idx + 1];
  }

  /**
   * With the default `bs_test` (512) and `buffer_size` (100), every batch
   * fills the buffer on its own, so nothing is ever left buffered.
   */
  lemma {:induction false} DefaultsLeaveNothingPending(n: nat)
    ensures Pending(n, 512, 100) == 0
  {
    if n > 0 {
      DefaultsLeaveNothingPending(n - 1);
    }
  }

  /** How many flushes the loop makes over the first `n` batches: one each time the buffer fills. */
  function FlushCount(n: nat, batchSize: int, bufferSize: int): (f: nat)
    ensures f <= n
  {
    if n == 0 then 0
    else
      var full := (Pending(n - 1, batchSize, bufferSize) + 1) * batchSize >= bufferSize;
      FlushCount(n - 1, batchSize, bufferSize) + (if full then 1 else 0)
  }

  /** One more batch: the buffer fills and is flushed, or the batch stays pending. */
  lemma FlushCountNext(n: nat, batchSize: int, bufferSize: int, full: bool)
    requires full <==> (Pending(n, batchSize, bufferSize) + 1) * batchSize >= bufferSize
    ensures FlushCount(n + 1, batchSize, bufferSize) == FlushCount(n, batchSize, bufferSize) + if full then 1 else 0
    ensures Pending(n + 1, batchSize, bufferSize) == if full then 0 else Pending(n, batchSize, bufferSize) + 1
  {
  }

  /** More batches never mean fewer flushes. */
  lemma {:induction false} FlushCountMonotone(m: nat, n: nat, batchSize: int, bufferSize: int)
    requires m <= n
    ensures FlushCount(m, batchSize, bufferSize) <= FlushCount(n, batchSize, bufferSize)
    decreases n - m
  {
    if m < n {
      FlushCountMonotone(m, n - 1, batchSize, bufferSize);
    }
  }

  /** With the default `bs_test` (512) and `buffer_size` (100), every batch is flushed on its own. */
  lemma {:induction false} DefaultsFlushEveryBatch(n: nat)
    ensures FlushCount(n, 512, 100) == n
  {
    if n > 0 {
      DefaultsFlushEveryBatch(n - 1);
      DefaultsLeaveNothingPending(n - 1);
    }
  }

  /** The maps log `t` extends `t0` by `f` flushes, each of which wrote all seven maps. */
  ghost predicate AllWritten(t0: seq<seq<Written>>, t: seq<seq<Written>>, f: nat)
  {
    && |t| == |t0| + f && t[..|t0|] == t0
    && forall i :: |t0| <= i < |t| ==> |t[i]| == 7
  }

  /**
   * The maps log `t` after one flush on `t0`: a flush that succeeds logs
   * all seven maps; one that fails logs nothing or fewer than seven.
   */
  ghost predicate Logged(t0: seq<seq<Written>>, t: seq<seq<Written>>, ok: bool)
  {
    if ok then AllWritten(t0, t, 1)
    else t == t0 || (|t| == |t0| + 1 && t[..|t0|] == t0 && |t[|t0|]| < 7)
  }

  /**
   * The maps log `t` after a run of flushes on `t0` that stopped at a
   * failing one, before the `f`-th flush completed: the failing flush is
   * the last logged, with fewer than seven maps, or is not logged.
   */
  ghost predicate Failed(t0: seq<seq<Written>>, t: seq<seq<Written>>, f: nat)
  {
    && f > 0 && |t0| <= |t| <= |t0| + f && t[..|t0|] == t0
    && (|t| == |t0| + f ==> |t[|t| - 1]| < 7)
  }

  /** A successful flush after `f` complete ones makes `f + 1`. */
  lemma AllWrittenStep(t0: seq<seq<Written>>, t1: seq<seq<Written>>, t2: seq<seq<Written>>, f: nat)
    requires AllWritten(t0, t1, f) && Logged(t1, t2, true)
    ensures AllWritten(t0, t2, f + 1)
  {
    assert t2[..|t0|] == t2[..|t1|][..|t0|];
  }

  /** A failing flush after `f` complete ones stops the run before the `g`-th, for any `g` beyond `f`. */
  lemma FailedStep(t0: seq<seq<Written>>, t1: seq<seq<Written>>, t2: seq<seq<Written>>, f: nat, g: nat)
    requires AllWritten(t0, t1, f) && Logged(t1, t2, false) && f < g
    ensures Failed(t0, t2, g)
  {
    if t2 != t1 {
      assert t2[..|t0|] == t2[..|t1|][..|t0|];
    }
  }

  /** A run that failed never logs `g` complete flushes, for any `g` from the one it stopped before. */
  lemma FailedNotAllWritten(t0: seq<seq<Written>>, t: seq<seq<Written>>, f: nat, g: nat)
    requires Failed(t0, t, f) && f <= g
    ensures !AllWritten(t0, t, g)
  {
    if |t| == |t0| + g {
      assert |t[|t| - 1]| < 7;
    }
  }

  /** A flush of the loop at batch `idx` of `n` extends the complete flushes, or stops the run before all of them. */
  lemma LoopFlushLogged(t0: seq<seq<Written>>, t1: seq<seq<Written>>, t2: seq<seq<Written>>, idx: nat, n: nat,
                        batchSize: int, bufferSize: int, ok: bool)
    requires idx < n && FlushCount(idx + 1, batchSize, bufferSize) == FlushCount(idx, batchSize, bufferSize) + 1
    requires AllWritten(t0, t1, FlushCount(idx, batchSize, bufferSize)) && Logged(t1, t2, ok)
    ensures ok ==> AllWritten(t0, t2, FlushCount(idx + 1, batchSize, bufferSize))
    ensures !ok ==> Failed(t0, t2, FlushCount(n, batchSize, bufferSize))
  {
    var f := FlushCount(idx, batchSize, bufferSize);
    if ok {
      AllWrittenStep(t0, t1, t2, f);
    } else {
      FlushCountMonotone(idx + 1, n, batchSize, bufferSize);
      FailedStep(t0, t1, t2, f, FlushCount(n, batchSize, bufferSize));
    }
  }

  /** A log of at least one flush holding all seven maps of each was written under a `str` grid name. */
  lemma AllWrittenUnderStr(t0: seq<seq<Written>>, t: seq<seq<Written>>, k0: seq<nat>, k: seq<nat>,
                           p: IndexParams, strict: bool, f: nat)
    requires Log(t, k, t0, k0, p, strict) && f > 0
    ensures AllWritten(t0, t, f) ==> p.gridName.GridStr?
  {
    if AllWritten(t0, t, f) {
      WrittenUnderStr(t[|t0|], p, k[|t0|]);
    }
  }

  /** A non-empty run of batches is flushed at least once, in the loop or after it. */
  lemma SomeFlush(n: nat, batchSize: int, bufferSize: int)
    requires n > 0
    ensures FlushCount(n, batchSize, bufferSize) + (if Pending(n, batchSize, bufferSize) > 0 then 1 else 0) >= 1
  {
  }

  /** After `f` complete flushes, one more completes the run of `f + 1` exactly when it succeeds. */
  lemma LastFlushLogged(t0: seq<seq<Written>>, t1: seq<seq<Written>>, t2: seq<seq<Written>>, f: nat, ok: bool)
    requires AllWritten(t0, t1, f) && Logged(t1, t2, ok)
    ensures ok <==> AllWritten(t0, t2, f + 1)
  {
    if ok {
      AllWrittenStep(t0, t1, t2, f);
    } else {
      FailedStep(t0, t1, t2, f, f + 1);
      FailedNotAllWritten(t0, t2, f + 1, f + 1);
    }
  }

  /**
   * The two binary output streams (opened for appending, so they keep what
   * they held) and the log of the indicator maps written: per flush, its
   * maps and the buffer count they are named after.
   */
  class Exporter {
    var classesFile: seq<int>
    var probasFile: seq<real>
    var tiles: seq<seq<Written>>
    var tileCounts: seq<nat>

    ghost predicate Valid()
      reads this
    {
      |tiles| == |tileCounts|
    }

    constructor (classes: seq<int>, probas: seq<real>)
      ensures Valid()
      ensures classesFile == classes && probasFile == probas && tiles == [] && tileCounts == []
    {
      classesFile := classes;
      probasFile := probas;
      tiles := [];
      tileCounts := [];
    }

    /**
     * `_export_bigdata(fc, fp, results, test_ids, indexed_labels, size,
     * exp_count, ...)`: concatenates the buffer, writes per point its id
     * and the class ids of its top-`size` scores to the classes stream and
     * those scores to the probas stream (both or neither), then computes
     * and writes the maps under the updated count, which it returns.
     */
    method Flush(results: seq<Batch>, testIds: seq<int>, index: Option<map<int, int>>, size: int,
                 expCount: nat, env: IndicesEnv) returns (r: Result<nat>)
      requires Valid()
      modifies this
      ensures Valid()
      ensures Flushed(old(classesFile), old(probasFile), old(tiles), old(tileCounts),
                      classesFile, probasFile, tiles, tileCounts,
                      results, testIds, index, size, expCount, env.maps, r)
    {
      var rows, output, words, lProbas, encoded := Encode(results, testIds, index, size, expCount);
      ghost var n := |Flatten(results)|;
      ghost var fits := IdsFit(testIds, expCount, n);
      ghost var conv := if fits then ToUint32(ClassesLayout(Flatten(results), IdsOf(testIds, expCount, n), index, size))
                        else Raise(IndexError);
      ghost var probas := ProbasLayout(Flatten(results), size);
      if encoded.Raise? {
        r := Raise(encoded.exc);
        FlushedUnchanged(classesFile, probasFile, tiles, tileCounts, results == [], fits, conv, probas, n,
          expCount, env.maps, r);
        FlushedIntro(classesFile, probasFile, tiles, tileCounts, classesFile, probasFile, tiles, tileCounts,
          results, testIds, index, size, expCount, env.maps, r);
        return;
      }
      ghost var cPrev, pPrev, tPrev, kPrev := classesFile, probasFile, tiles, tileCounts;
      classesFile := classesFile + words;
      probasFile := probasFile + lProbas;

      // The exported count, advanced by the rows flushed, names this flush's maps.
      var count := expCount + |rows|;
      var written, ir := LogIndices(Triples(output), env, count);
      r := if ir.Raise? then Raise(ir.exc) else Ok(count);
      FlushedWritten(cPrev, pPrev, tPrev, kPrev, classesFile, probasFile, tiles, tileCounts, written,
        fits, conv, probas, n, expCount, env.maps, r);
      FlushedIntro(cPrev, pPrev, tPrev, kPrev, classesFile, probasFile, tiles, tileCounts,
        results, testIds, index, size, expCount, env.maps, r);
    }

    /**
     * `compute_indices` on the flushed triples: the maps it writes, which
     * `ComputeIndices` describes, are logged under `count`.
     */
    method LogIndices(output: seq<Triple>, env: IndicesEnv, count: nat) returns (written: seq<Written>, r: Result<()>)
      requires Valid()
      modifies this
      ensures Valid() && classesFile == old(classesFile) && probasFile == old(probasFile)
      ensures tiles == old(tiles) + [written] && tileCounts == old(tileCounts) + [count]
      ensures FlushMaps(written, env.maps, count)
      ensures r.Ok? ==> |written| == 7
      ensures r.Raise? ==> |written| < 7 && |written| != 2 && |written| != 5
    {
      ghost var cols;
      written, r, cols := ComputeIndices(output, env, count);
      tiles := tiles + [written];
      tileCounts := tileCounts + [count];
    }

    /** The maps log extends `oldTiles` as `Log` says. */
    ghost predicate LogExtends(oldTiles: seq<seq<Written>>, oldCounts: seq<nat>, p: IndexParams, strict: bool)
      reads this
    {
      Log(tiles, tileCounts, oldTiles, oldCounts, p, strict)
    }

    /** The counts of the flushes from `from` on do not exceed `count`. */
    ghost predicate CountsBelow(from: nat, count: nat)
      reads this
    {
      Below(tileCounts, from, count)
    }

    /**
     * One call of `_export_bigdata` inside `export_bigdata`: the buffer
     * `results` is flushed after the batches `flushed`, at count `count`;
     * on success the streams hold the rows of both, and the new count is
     * above every earlier flush's.
     */
    method FlushAfter(ghost flushed: seq<Batch>, results: seq<Batch>, count: nat, testIds: seq<int>,
                      index: Option<map<int, int>>, size: int, env: IndicesEnv, ghost strict: bool,
                      ghost c0: seq<int>, ghost p0: seq<real>, ghost t0: seq<seq<Written>>, ghost k0: seq<nat>)
      returns (next: nat, r: Result<()>)
      requires Valid()
      requires strict && results != [] ==> results[0] != []
      requires Streams(classesFile, probasFile, c0, p0, Flatten(flushed), testIds, index, size, count)
      requires LogExtends(t0, k0, env.maps, strict) && CountsBelow(|t0|, count)
      modifies this
      ensures Valid() && LogExtends(t0, k0, env.maps, strict)
      ensures results == [] ==> r == Raise(ValueError) && tiles == old(tiles)
      ensures Logged(old(tiles), tiles, r.Ok?)
      ensures r.Ok? ==> CountsBelow(|t0|, next)
      ensures r.Ok? ==> Streams(classesFile, probasFile, c0, p0, Flatten(flushed + results), testIds, index, size, next)
    {
      ghost var cPrev, pPrev, tPrev, kPrev := classesFile, probasFile, tiles, tileCounts;
      var e := Flush(results, testIds, index, size, count, env);
      FlushLogStep(cPrev, pPrev, tPrev, kPrev, classesFile, probasFile, tiles, tileCounts, results,
        testIds, index, size, count, env.maps, e, strict, t0, k0);
      FlushedLogged(cPrev, pPrev, tPrev, kPrev, classesFile, probasFile, tiles, tileCounts, results,
        testIds, index, size, count, env.maps, e);
      if e.Raise? {
        return count, Raise(e.exc);
      }
      FlushedOk(cPrev, pPrev, tPrev, kPrev, classesFile, probasFile, tiles, tileCounts,
        results, testIds, index, size, count, env.maps, e);
      FlushStreamsStep(cPrev, pPrev, classesFile, probasFile, flushed, results, testIds, index, size, count, c0, p0);
      next := e.value;
      r := Ok(());
    }

    /**
     * The flush the loop makes when batch `idx` fills the buffer `results`:
     * on success the streams hold every batch up to `idx` and the complete
     * flushes grow by one; on failure the run stops short of its flushes.
     */
    method FlushFull(batches: seq<Batch>, idx: nat, ghost flushed: seq<Batch>, results: seq<Batch>, count: nat,
                     batchSize: int, bufferSize: int, testIds: seq<int>, index: Option<map<int, int>>, size: int,
                     env: IndicesEnv, ghost c0: seq<int>, ghost p0: seq<real>, ghost t0: seq<seq<Written>>,
                     ghost k0: seq<nat>)
      returns (next: nat, e: Result<()>)
      requires Valid()
      requires idx < |batches| && flushed + results == batches[..idx + 1]
      requires NonEmptyBatches(batches) && results != [] ==> results[0] != []
      requires FlushCount(idx + 1, batchSize, bufferSize) == FlushCount(idx, batchSize, bufferSize) + 1
      requires Streams(classesFile, probasFile, c0, p0, Flatten(flushed), testIds, index, size, count)
      requires LogExtends(t0, k0, env.maps, NonEmptyBatches(batches)) && CountsBelow(|t0|, count)
      requires AllWritten(t0, tiles, FlushCount(idx, batchSize, bufferSize))
      modifies this
      ensures Valid() && LogExtends(t0, k0, env.maps, NonEmptyBatches(batches))
      ensures e.Ok? ==> CountsBelow(|t0|, next) && AllWritten(t0, tiles, FlushCount(idx + 1, batchSize, bufferSize))
      ensures e.Ok? ==> Streams(classesFile, probasFile, c0, p0, Flatten(flushed + results), testIds, index, size, next)
      ensures e.Raise? ==> Failed(t0, tiles, FlushCount(|batches|, batchSize, bufferSize))
      ensures |tiles| <= |old(tiles)| + 1
    {
      ghost var before := tiles;
      next, e := FlushAfter(flushed, results, count, testIds, index, size, env, NonEmptyBatches(batches),
        c0, p0, t0, k0);
      LoopFlushLogged(t0, before, tiles, idx, |batches|, batchSize, bufferSize, e.Ok?);
    }

    /**
     * One turn of the flush loop: batch `idx` joins the buffer, and a full
     * buffer is flushed and emptied. A raise stops the loop: a failed flush,
     * or the progress line's division by an empty reference grid.
     */
    method BufferBatch(batches: seq<Batch>, idx: nat, ghost flushed: seq<Batch>, results: seq<Batch>, count: nat,
                       batchSize: int, bufferSize: int, testIds: seq<int>, index: Option<map<int, int>>, size: int,
                       env: IndicesEnv, ghost c0: seq<int>, ghost p0: seq<real>, ghost t0: seq<seq<Written>>,
                       ghost k0: seq<nat>)
      returns (ghost flushed': seq<Batch>, results': seq<Batch>, count': nat, e: Result<()>)
      requires Valid() && idx < |batches|
      requires |results| == Pending(idx, batchSize, bufferSize)
      requires flushed == batches[..idx - |results|] && results == batches[idx - |results|..idx]
      requires LogExtends(t0, k0, env.maps, NonEmptyBatches(batches)) && CountsBelow(|t0|, count)
      requires Streams(classesFile, probasFile, c0, p0, Flatten(flushed), testIds, index, size, count)
      requires AllWritten(t0, tiles, FlushCount(idx, batchSize, bufferSize))
      requires |env.gridRef| == 0 ==> tiles == t0
      modifies this
      ensures Valid() && LogExtends(t0, k0, env.maps, NonEmptyBatches(batches))
      ensures |env.gridRef| == 0 ==> |tiles| <= |t0| + 1
      ensures e.Raise? ==>
        Failed(t0, tiles, FlushCount(|batches|, batchSize, bufferSize))
        || (e == Raise(ZeroDivisionError) && |env.gridRef| == 0)
      ensures e.Ok? ==> |results'| == Pending(idx + 1, batchSize, bufferSize)
      ensures e.Ok? ==> flushed' == batches[..idx + 1 - |results'|] && results' == batches[idx + 1 - |results'|..idx + 1]
      ensures e.Ok? ==> CountsBelow(|t0|, count')
      ensures e.Ok? ==> Streams(classesFile, probasFile, c0, p0, Flatten(flushed'), testIds, index, size, count')
      ensures e.Ok? ==> AllWritten(t0, tiles, FlushCount(idx + 1, batchSize, bufferSize))
      ensures e.Ok? && |env.gridRef| == 0 ==> tiles == t0
    {
      BufferSlices(batches, idx, flushed, results);
      flushed', results', count', e := flushed, results + [batches[idx]], count, Ok(());
      var full := |results'| * batchSize >= bufferSize;
      FlushCountNext(idx, batchSize, bufferSize, full);
      if full {
        var next;
        next, e := FlushFull(batches, idx, flushed, results', count, batchSize, bufferSize, testIds, index, size,
          env, c0, p0, t0, k0);
        if e.Raise? {
          return;
        }
        if |env.gridRef| == 0 {
          e := Raise(ZeroDivisionError);
          return;
        }
        flushed', results', count' := flushed + results', [], next;
      }
    }

    /**
     * The flush loop of `export_bigdata`: every batch is buffered, and a full
     * buffer is flushed and emptied. The progress line printed after each
     * flush divides by the size of the reference grid: an empty one raises
     * ZeroDivisionError right after the first successful flush.
     */
    method FlushLoop(batches: seq<Batch>, batchSize: int, bufferSize: int, testIds: seq<int>,
                     index: Option<map<int, int>>, size: int, env: IndicesEnv)
      returns (results: seq<Batch>, count: nat, r: Result<()>)
      requires Valid()
      modifies this
      ensures Valid()
      ensures LogExtends(old(tiles), old(tileCounts), env.maps, NonEmptyBatches(batches))
      ensures r.Ok? ==> AllWritten(old(tiles), tiles, FlushCount(|batches|, batchSize, bufferSize))
      ensures r.Raise? ==>
        Failed(old(tiles), tiles, FlushCount(|batches|, batchSize, bufferSize))
        || (r == Raise(ZeroDivisionError) && |env.gridRef| == 0 && batches != [])
      ensures |env.gridRef| == 0 ==> |tiles| <= |old(tiles)| + 1
      ensures r.Ok? && |env.gridRef| == 0 ==> tiles == old(tiles)
      ensures r.Ok? ==> CountsBelow(|old(tiles)|, count)
      ensures r.Ok? ==> |results| == Pending(|batches|, batchSize, bufferSize)
      ensures r.Ok? ==> results == batches[|batches| - |results|..]
      ensures r.Ok? ==> Streams(classesFile, probasFile, old(classesFile), old(probasFile),
        Flatten(batches[..|batches| - |results|]), testIds, index, size, count)
    {
      results := [];
      count := 0;
      ghost var flushed: seq<Batch> := [];
      ghost var c0, p0, t0, k0 := classesFile, probasFile, tiles, tileCounts;
      for idx := 0 to |batches|
        invariant Valid()
        invariant |results| == Pending(idx, batchSize, bufferSize)
        invariant flushed == batches[..idx - |results|] && results == batches[idx - |results|..idx]
        invariant LogExtends(t0, k0, env.maps, NonEmptyBatches(batches))
        invariant CountsBelow(|t0|, count)
        invariant Streams(classesFile, probasFile, c0, p0, Flatten(flushed), testIds, index, size, count)
        invariant AllWritten(t0, tiles, FlushCount(idx, batchSize, bufferSize))
        invariant |env.gridRef| == 0 ==> tiles == t0
      {
        var e;
        flushed, results, count, e := BufferBatch(batches, idx, flushed, results, count, batchSize, bufferSize,
          testIds, index, size, env, c0, p0, t0, k0);
        if e.Raise? {
          return results, count, e;
        }
      }
      r := Ok(());
    }

    /** The flush after the loop, on whatever the buffer still holds; its count is the export's total. */
    method LastFlush(batches: seq<Batch>, results: seq<Batch>, count: nat, testIds: seq<int>,
                     index: Option<map<int, int>>, size: int, env: IndicesEnv,
                     ghost c0: seq<int>, ghost p0: seq<real>, ghost t0: seq<seq<Written>>, ghost k0: seq<nat>)
      returns (r: Result<nat>)
      requires Valid()
      requires |results| <= |batches| && results == batches[|batches| - |results|..]
      requires Streams(classesFile, probasFile, c0, p0, Flatten(batches[..|batches| - |results|]), testIds, index, size, count)
      requires LogExtends(t0, k0, env.maps, NonEmptyBatches(batches)) && CountsBelow(|t0|, count)
      modifies this
      ensures Valid() && LogExtends(t0, k0, env.maps, NonEmptyBatches(batches))
      ensures results == [] ==> r == Raise(ValueError) && tiles == old(tiles)
      ensures Logged(old(tiles), tiles, r.Ok?)
      ensures r.Ok? ==> r.value == |Flatten(batches)|
      ensures r.Ok? ==> Streams(classesFile, probasFile, c0, p0, Flatten(batches), testIds, index, size, r.value)
    {
      ghost var flushed := batches[..|batches| - |results|];
      if results != [] {
        assert results[0] == batches[|batches| - |results|];
      }
      var next, e := FlushAfter(flushed, results, count, testIds, index, size, env, NonEmptyBatches(batches),
        c0, p0, t0, k0);
      if e.Raise? {
        return Raise(e.exc);
      }
      assert flushed + results == batches;
      r := Ok(next);
    }

    /**
     * `export_bigdata` as written: the flush loop, then a final flush that
     * always runs (`len(results) >= 0` always holds), so that an export
     * whose last batch triggered a flush ends on the empty buffer's
     * ValueError: it succeeds exactly when a batch is left buffered and
     * every flush, the final one included, writes all seven maps.
     */
    method ExportBigdata(batches: seq<Batch>, batchSize: int, bufferSize: int, testIds: seq<int>,
                         index: Option<map<int, int>>, size: int, env: IndicesEnv)
      returns (r: Result<nat>)
      requires Valid()
      modifies this
      ensures Valid() && LogExtends(old(tiles), old(tileCounts), env.maps, NonEmptyBatches(batches))
      ensures Pending(|batches|, batchSize, bufferSize) == 0 ==> r.Raise?
      ensures env.maps.gridName.GridTuple? ==> r.Raise?
      ensures Pending(|batches|, batchSize, bufferSize) == 0 && (batches == [] || |env.gridRef| > 0) ==>
        (AllWritten(old(tiles), tiles, FlushCount(|batches|, batchSize, bufferSize)) ==> r == Raise(ValueError))
      ensures Pending(|batches|, batchSize, bufferSize) > 0 ==>
        (r.Ok? <==> AllWritten(old(tiles), tiles, FlushCount(|batches|, batchSize, bufferSize) + 1) && |env.gridRef| > 0)
      ensures |env.gridRef| == 0 ==> r.Raise? && |tiles| <= |old(tiles)| + 1
      ensures r.Ok? ==> r.value == |Flatten(batches)|
      ensures r.Ok? ==> Streams(classesFile, probasFile, old(classesFile), old(probasFile), Flatten(batches), testIds, index, size, r.value)
    {
      ghost var f := FlushCount(|batches|, batchSize, bufferSize);
      var results, count, lr := FlushLoop(batches, batchSize, bufferSize, testIds, index, size, env);
      if lr.Raise? {
        if Failed(old(tiles), tiles, f) {
          FailedNotAllWritten(old(tiles), tiles, f, f);
          FailedNotAllWritten(old(tiles), tiles, f, f + 1);
        }
        return Raise(lr.exc);
      }
      ghost var looped := tiles;
      r := LastFlush(batches, results, count, testIds, index, size, env, old(classesFile), old(probasFile),
        old(tiles), old(tileCounts));
      LastFlushLogged(old(tiles), looped, tiles, f, r.Ok?);
      if r.Ok? && |env.gridRef| == 0 {
        r := Raise(ZeroDivisionError);
      }
      AllWrittenUnderStr(old(tiles), tiles, old(tileCounts), tileCounts, env.maps, NonEmptyBatches(batches), f + 1);
    }

    /**
     * `export_bigdata` with the final flush guarded by `len(results) > 0`:
     * when nothing is left buffered, the export ends with the loop's last
     * flush, every row in the streams.
     */
    method ExportBigdataFixed(batches: seq<Batch>, batchSize: int, bufferSize: int, testIds: seq<int>,
                              index: Option<map<int, int>>, size: int, env: IndicesEnv)
      returns (r: Result<nat>)
      requires Valid()
      modifies this
      ensures Valid() && LogExtends(old(tiles), old(tileCounts), env.maps, NonEmptyBatches(batches))
      ensures r.Ok? <==>
        && AllWritten(old(tiles), tiles, FlushCount(|batches|, batchSize, bufferSize)
             + if Pending(|batches|, batchSize, bufferSize) > 0 then 1 else 0)
        && (batches == [] || |env.gridRef| > 0)
      ensures |env.gridRef| == 0 ==> |tiles| <= |old(tiles)| + 1
      ensures env.maps.gridName.GridTuple? && batches != [] ==> r.Raise?
      ensures r.Ok? ==> r.value == |Flatten(batches)|
      ensures r.Ok? ==> Streams(classesFile, probasFile, old(classesFile), old(probasFile), Flatten(batches), testIds, index, size, r.value)
    {
      ghost var f := FlushCount(|batches|, batchSize, bufferSize);
      var results, count, lr := FlushLoop(batches, batchSize, bufferSize, testIds, index, size, env);
      if lr.Raise? {
        if Failed(old(tiles), tiles, f) {
          FailedNotAllWritten(old(tiles), tiles, f, f + if Pending(|batches|, batchSize, bufferSize) > 0 then 1 else 0);
        }
        return Raise(lr.exc);
      }
      if |results| > 0 {
        ghost var looped := tiles;
        r := LastFlush(batches, results, count, testIds, index, size, env, old(classesFile), old(probasFile),
          old(tiles), old(tileCounts));
        LastFlushLogged(old(tiles), looped, tiles, f, r.Ok?);
        if r.Ok? && |env.gridRef| == 0 {
          r := Raise(ZeroDivisionError);
        }
      } else {
        assert batches[..|batches|] == batches;
        r := Ok(count);
      }
      if batches != [] {
        SomeFlush(|batches|, batchSize, bufferSize);
        AllWrittenUnderStr(old(tiles), tiles, old(tileCounts), tileCounts, env.maps, NonEmptyBatches(batches),
          f + if Pending(|batches|, batchSize, bufferSize) > 0 then 1 else 0);
      }
    }
  }

  /**
   * What one `_export_bigdata` call does to the streams (`c`, `p`) and the
   * maps log (`t`, with the counts `k`): an empty buffer raises the
   * ValueError of `np.concatenate`, too few test ids the IndexError of the
   * id lookup and an unmapped (None) class id the TypeError of the uint32
   * conversion,
   * all before anything is written. Otherwise both streams are appended,
   * and the flush is logged at the advanced count, with the maps it wrote
   * (all seven when it succeeds) named after that count.
   */
  ghost predicate Flushed(cPrev: seq<int>, pPrev: seq<real>, tPrev: seq<seq<Written>>, kPrev: seq<nat>,
                          cNow: seq<int>, pNow: seq<real>, tNow: seq<seq<Written>>, kNow: seq<nat>,
                          results: seq<Batch>, testIds: seq<int>, index: Option<map<int, int>>, size: int,
                          expCount: nat, p: IndexParams, r: Result<nat>)
  {
    var rows := Flatten(results);
    var fits := IdsFit(testIds, expCount, |rows|);
    var conv := if fits then ToUint32(ClassesLayout(rows, IdsOf(testIds, expCount, |rows|), index, size))
                else Raise(IndexError);
    FlushedWith(cPrev, pPrev, tPrev, kPrev, cNow, pNow, tNow, kNow,
                results == [], fits, conv, ProbasLayout(rows, size), |rows|, expCount, p, r)
  }

  /**
   * `Flushed` for a buffer that is `empty` or not, whose `n` rows `fits`
   * the test ids or not, and whose class ids convert to `conv` and scores
   * lay out as `probas`.
   */
  ghost predicate FlushedWith(cPrev: seq<int>, pPrev: seq<real>, tPrev: seq<seq<Written>>, kPrev: seq<nat>,
                              cNow: seq<int>, pNow: seq<real>, tNow: seq<seq<Written>>, kNow: seq<nat>,
                              empty: bool, fits: bool, conv: Result<seq<int>>, probas: seq<real>, n: nat,
                              expCount: nat, p: IndexParams, r: Result<nat>)
  {
    var same := cNow == cPrev && pNow == pPrev && tNow == tPrev && kNow == kPrev;
    && (empty ==> r == Raise(ValueError) && same)
    && (!empty && !fits ==> r == Raise(IndexError) && same)
    && (!empty && fits ==>
          && (conv.Raise? ==> r == Raise(conv.exc) && same)
          && (conv.Ok? ==>
                && cNow == cPrev + conv.value
                && pNow == pPrev + probas
                && kNow == kPrev + [expCount + n]
                && |tNow| == |tPrev| + 1 && tNow[..|tPrev|] == tPrev
                && FlushMaps(tNow[|tPrev|], p, expCount + n)
                && (r.Raise? ==> |tNow[|tPrev|]| < 7 && |tNow[|tPrev|]| != 2 && |tNow[|tPrev|]| != 5)))
    && (r.Ok? ==> r.value == expCount + n && |tNow| > 0 && |tNow[|tNow| - 1]| == 7)
  }

  /** A flush keeps the maps log, and on success its count is above every logged one. */
  lemma FlushLogStep(cPrev: seq<int>, pPrev: seq<real>, tPrev: seq<seq<Written>>, kPrev: seq<nat>,
                     cNow: seq<int>, pNow: seq<real>, tNow: seq<seq<Written>>, kNow: seq<nat>,
                     results: seq<Batch>, testIds: seq<int>, index: Option<map<int, int>>,
                     size: int, count: nat, p: IndexParams, e: Result<nat>, strict: bool,
                     t0: seq<seq<Written>>, k0: seq<nat>)
    requires Flushed(cPrev, pPrev, tPrev, kPrev, cNow, pNow, tNow, kNow, results, testIds, index, size, count, p, e)
    requires strict && results != [] ==> results[0] != []
    requires Log(tPrev, kPrev, t0, k0, p, strict) && Below(kPrev, |t0|, count)
    ensures Log(tNow, kNow, t0, k0, p, strict)
    ensures e.Ok? ==> Below(kNow, |t0|, e.value)
  {
    var rows := Flatten(results);
    var n: nat := |rows|;
    var fits := IdsFit(testIds, count, n);
    var conv := if fits then ToUint32(ClassesLayout(rows, IdsOf(testIds, count, n), index, size))
                else Raise(IndexError);
    if strict && results != [] {
      FlattenHeadNonEmpty(results);
    }
    FlushedWithLogShape(cPrev, pPrev, tPrev, kPrev, cNow, pNow, tNow, kNow,
      results == [], fits, conv, ProbasLayout(rows, size), n, count, p, e);
    LogStep(tPrev, kPrev, tNow, kNow, count, n, p, e, t0, k0, strict);
  }

  /** Batches whose first one holds a row flatten to at least one row. */
  lemma FlattenHeadNonEmpty(results: seq<Batch>)
    requires results != [] && results[0] != []
    ensures |Flatten(results)| > 0
  {
    assert Flatten(results) == results[0] + Flatten(results[1..]);
  }

  /** A successful flush after the batches `flushed` leaves the rows of `flushed` and `results` in the streams. */
  lemma FlushStreamsStep(cPrev: seq<int>, pPrev: seq<real>, cNow: seq<int>, pNow: seq<real>,
                         flushed: seq<Batch>, results: seq<Batch>, testIds: seq<int>, index: Option<map<int, int>>,
                         size: int, count: nat, c0: seq<int>, p0: seq<real>)
    requires Streams(cPrev, pPrev, c0, p0, Flatten(flushed), testIds, index, size, count)
    requires var rows := Flatten(results);
      && IdsFit(testIds, count, |rows|)
      && ToUint32(ClassesLayout(rows, IdsOf(testIds, count, |rows|), index, size)).Ok?
      && cNow == cPrev + ToUint32(ClassesLayout(rows, IdsOf(testIds, count, |rows|), index, size)).value
      && pNow == pPrev + ProbasLayout(rows, size)
    ensures Streams(cNow, pNow, c0, p0, Flatten(flushed + results), testIds, index, size, count + |Flatten(results)|)
  {
    var a, b := Flatten(flushed), Flatten(results);
    assert Streams(cNow, pNow, c0, p0, a + b, testIds, index, size, count + |b|) by {
      FlushExtends(cPrev, pPrev, cNow, pNow, c0, p0, a, b, a + b, testIds, index, size, count);
    }
    StreamsOfConcat(cNow, pNow, c0, p0, flushed, results, testIds, index, size, count + |b|);
    // the two streams of `Streams`, spelled out
    assert Lift(cNow) == Lift(c0) + Wrapped(ClassesLayout(Flatten(flushed + results), IdsOf(testIds, 0, count + |b|), index, size));
    assert pNow == p0 + ProbasLayout(Flatten(flushed + results), size);
  }

  /** The streams of the rows of `flushed` followed by those of `results` are the streams of `flushed + results`. */
  lemma StreamsOfConcat(c: seq<int>, p: seq<real>, c0: seq<int>, p0: seq<real>, flushed: seq<Batch>, results: seq<Batch>,
                        testIds: seq<int>, index: Option<map<int, int>>, size: int, count: nat)
    requires Streams(c, p, c0, p0, Flatten(flushed) + Flatten(results), testIds, index, size, count)
    ensures Streams(c, p, c0, p0, Flatten(flushed + results), testIds, index, size, count)
  {
    FlattenConcat(flushed, results);
  }

  /** A flush that stops before writing anything leaves the streams and the maps log as they were. */
  lemma FlushedUnchanged(c: seq<int>, p: seq<real>, t: seq<seq<Written>>, k: seq<nat>,
                         empty: bool, fits: bool, conv: Result<seq<int>>, probas: seq<real>, n: nat,
                         expCount: nat, params: IndexParams, r: Result<nat>)
    requires r.Raise?
    requires empty ==> r == Raise(ValueError)
    requires !empty && !fits ==> r == Raise(IndexError)
    requires !empty && fits ==> conv.Raise? && r == Raise(conv.exc)
    ensures FlushedWith(c, p, t, k, c, p, t, k, empty, fits, conv, probas, n, expCount, params, r)
  {
  }

  /** `FlushedWith` on the buffer's own facts is `Flushed`. */
  lemma FlushedIntro(cPrev: seq<int>, pPrev: seq<real>, tPrev: seq<seq<Written>>, kPrev: seq<nat>,
                     cNow: seq<int>, pNow: seq<real>, tNow: seq<seq<Written>>, kNow: seq<nat>,
                     results: seq<Batch>, testIds: seq<int>, index: Option<map<int, int>>, size: int,
                     expCount: nat, p: IndexParams, r: Result<nat>)
    requires var rows := Flatten(results);
      var fits := IdsFit(testIds, expCount, |rows|);
      var conv := if fits then ToUint32(ClassesLayout(rows, IdsOf(testIds, expCount, |rows|), index, size))
                  else Raise(IndexError);
      FlushedWith(cPrev, pPrev, tPrev, kPrev, cNow, pNow, tNow, kNow,
                  results == [], fits, conv, ProbasLayout(rows, size), |rows|, expCount, p, r)
    ensures Flushed(cPrev, pPrev, tPrev, kPrev, cNow, pNow, tNow, kNow, results, testIds, index, size, expCount, p, r)
  {
  }

  lemma FlushedWritten(cPrev: seq<int>, pPrev: seq<real>, tPrev: seq<seq<Written>>, kPrev: seq<nat>,
                       cNow: seq<int>, pNow: seq<real>, tNow: seq<seq<Written>>, kNow: seq<nat>, written: seq<Written>,
                       fits: bool, conv: Result<seq<int>>, probas: seq<real>, n: nat,
                       expCount: nat, params: IndexParams, r: Result<nat>)
    requires fits && conv.Ok? && cNow == cPrev + conv.value && pNow == pPrev + probas
    requires kNow == kPrev + [expCount + n] && tNow == tPrev + [written]
    requires FlushMaps(written, params, expCount + n)
    requires r.Ok? ==> r.value == expCount + n && |written| == 7
    requires r.Raise? ==> |written| < 7 && |written| != 2 && |written| != 5
    ensures FlushedWith(cPrev, pPrev, tPrev, kPrev, cNow, pNow, tNow, kNow, false, fits, conv, probas, n,
                        expCount, params, r)
  {
    assert tNow[..|tPrev|] == tPrev && tNow[|tPrev|] == written;
    assert |tNow| > 0 && tNow[|tNow| - 1] == written;
  }

  /** A flush keeps the maps log, and on success its count bounds every logged one. */
  lemma LogStep(tPrev: seq<seq<Written>>, kPrev: seq<nat>, tNow: seq<seq<Written>>, kNow: seq<nat>,
                count: nat, n: nat, p: IndexParams, r: Result<nat>,
                t0: seq<seq<Written>>, k0: seq<nat>, strict: bool)
    requires Log(tPrev, kPrev, t0, k0, p, strict) && Below(kPrev, |t0|, count)
    requires tNow == tPrev ==> kNow == kPrev && r.Raise?
    requires tNow != tPrev ==>
      && |tNow| == |tPrev| + 1 && tNow == tPrev + [tNow[|tPrev|]]
      && kNow == kPrev + [count + n]
      && FlushMaps(tNow[|tPrev|], p, count + n)
      && (strict ==> n > 0)
    requires r.Ok? ==> r.value == count + n
    ensures Log(tNow, kNow, t0, k0, p, strict)
    ensures r.Ok? ==> Below(kNow, |t0|, r.value)
  {
    if tNow != tPrev {
      LogAppend(tPrev, kPrev, t0, k0, p, strict, count, tNow[|tPrev|], count + n);
    }
  }

  /** The maps log after a flush is either untouched or one flush longer, logged at the advanced count. */
  lemma FlushedWithLogShape(cPrev: seq<int>, pPrev: seq<real>, tPrev: seq<seq<Written>>, kPrev: seq<nat>,
                            cNow: seq<int>, pNow: seq<real>, tNow: seq<seq<Written>>, kNow: seq<nat>,
                            empty: bool, fits: bool, conv: Result<seq<int>>, probas: seq<real>, n: nat,
                            count: nat, p: IndexParams, r: Result<nat>)
    requires FlushedWith(cPrev, pPrev, tPrev, kPrev, cNow, pNow, tNow, kNow, empty, fits, conv, probas, n, count, p, r)
    ensures tNow == tPrev ==> kNow == kPrev && r.Raise?
    ensures tNow != tPrev ==>
      && !empty
      && |tNow| == |tPrev| + 1 && tNow == tPrev + [tNow[|tPrev|]]
      && kNow == kPrev + [count + n]
      && FlushMaps(tNow[|tPrev|], p, count + n)
    ensures r.Ok? ==> r.value == count + n
  {
    if !empty && fits && conv.Ok? {
      Snoc(tPrev, tNow);
    }
  }

  /** A sequence one longer than `a` that starts with `a` is `a` and its last element. */
  lemma Snoc<T>(a: seq<T>, b: seq<T>)
    requires |b| == |a| + 1 && b[..|a|] == a
    ensures b == a + [b[|a|]]
  {
    assert forall k :: 0 <= k < |b| ==> b[k] == (a + [b[|a|]])[k];
  }

  /** A flush that succeeds converted its class ids and appended both streams. */
  lemma FlushedOk(cPrev: seq<int>, pPrev: seq<real>, tPrev: seq<seq<Written>>, kPrev: seq<nat>,
                  cNow: seq<int>, pNow: seq<real>, tNow: seq<seq<Written>>, kNow: seq<nat>,
                  results: seq<Batch>, testIds: seq<int>, index: Option<map<int, int>>, size: int,
                  count: nat, p: IndexParams, r: Result<nat>)
    requires Flushed(cPrev, pPrev, tPrev, kPrev, cNow, pNow, tNow, kNow, results, testIds, index, size, count, p, r)
    requires r.Ok?
    ensures var rows := Flatten(results);
      && IdsFit(testIds, count, |rows|)
      && ToUint32(ClassesLayout(rows, IdsOf(testIds, count, |rows|), index, size)).Ok?
      && cNow == cPrev + ToUint32(ClassesLayout(rows, IdsOf(testIds, count, |rows|), index, size)).value
      && pNow == pPrev + ProbasLayout(rows, size)
      && r.value == count + |rows|
  {
  }

  /** A flush logs all seven maps when it succeeds, and nothing, or fewer, when it fails; nothing on an empty buffer. */
  lemma FlushedLogged(cPrev: seq<int>, pPrev: seq<real>, tPrev: seq<seq<Written>>, kPrev: seq<nat>,
                      cNow: seq<int>, pNow: seq<real>, tNow: seq<seq<Written>>, kNow: seq<nat>,
                      results: seq<Batch>, testIds: seq<int>, index: Option<map<int, int>>, size: int,
                      count: nat, p: IndexParams, r: Result<nat>)
    requires Flushed(cPrev, pPrev, tPrev, kPrev, cNow, pNow, tNow, kNow, results, testIds, index, size, count, p, r)
    ensures Logged(tPrev, tNow, r.Ok?)
    ensures results == [] ==> tNow == tPrev
  {
    var rows := Flatten(results);
    var fits := IdsFit(testIds, count, |rows|);
    var conv := if fits then ToUint32(ClassesLayout(rows, IdsOf(testIds, count, |rows|), index, size))
                else Raise(IndexError);
    FlushedWithLogged(cPrev, pPrev, tPrev, kPrev, cNow, pNow, tNow, kNow,
      results == [], fits, conv, ProbasLayout(rows, size), |rows|, count, p, r);
  }

  /** `FlushedLogged` for any buffer facts. */
  lemma FlushedWithLogged(cPrev: seq<int>, pPrev: seq<real>, tPrev: seq<seq<Written>>, kPrev: seq<nat>,
                          cNow: seq<int>, pNow: seq<real>, tNow: seq<seq<Written>>, kNow: seq<nat>,
                          empty: bool, fits: bool, conv: Result<seq<int>>, probas: seq<real>, n: nat,
                          count: nat, p: IndexParams, r: Result<nat>)
    requires FlushedWith(cPrev, pPrev, tPrev, kPrev, cNow, pNow, tNow, kNow, empty, fits, conv, probas, n, count, p, r)
    ensures Logged(tPrev, tNow, r.Ok?)
    ensures empty ==> tNow == tPrev
  {
    if tNow != tPrev {
      assert !empty && |tNow| == |tPrev| + 1 && tNow[..|tPrev|] == tPrev;
      if r.Ok? {
        assert tNow[|tNow| - 1] == tNow[|tPrev|];
      }
    }
  }

  /**
   * The maps log `tiles` (with the count of each flush) extends `oldTiles`;
   * every new flush's maps are named after its count; with every batch
   * non-empty, the counts of the new flushes strictly increase.
   */
  ghost predicate Log(tiles: seq<seq<Written>>, counts: seq<nat>, oldTiles: seq<seq<Written>>, oldCounts: seq<nat>,
                      p: IndexParams, strict: bool)
  {
    && |oldTiles| == |oldCounts| <= |tiles| == |counts|
    && tiles[..|oldTiles|] == oldTiles && counts[..|oldTiles|] == oldCounts
    && (forall f :: |oldTiles| <= f < |tiles| ==> FlushMaps(tiles[f], p, counts[f]))
    && (strict ==> forall f, g :: |oldTiles| <= f < g < |tiles| ==> counts[f] < counts[g])
  }

  ghost predicate Below(counts: seq<nat>, from: nat, count: nat)
  {
    forall f :: from <= f < |counts| ==> counts[f] <= count
  }

  /** Logging one more flush, at a count above every earlier one when strict, keeps the log. */
  lemma LogAppend(tiles: seq<seq<Written>>, counts: seq<nat>, oldTiles: seq<seq<Written>>, oldCounts: seq<nat>,
                  p: IndexParams, strict: bool, count: nat, ws: seq<Written>, next: nat)
    requires Log(tiles, counts, oldTiles, oldCounts, p, strict) && Below(counts, |oldTiles|, count)
    requires FlushMaps(ws, p, next) && count <= next && (strict ==> count < next)
    ensures Log(tiles + [ws], counts + [next], oldTiles, oldCounts, p, strict)
    ensures Below(counts + [next], |oldTiles|, next)
  {
    assert (tiles + [ws])[..|oldTiles|] == tiles[..|oldTiles|];
    assert (counts + [next])[..|oldTiles|] == counts[..|oldTiles|];
  }

  /**
   * The streams hold, after what they held, the layouts of `rows`,
   * attributed to the first `count` ids: each row its own id, in order,
   * none skipped or repeated. The classes stream holds every id and class
   * id modulo 2^32, as its uint32 words store them.
   */
  ghost predicate Streams(classes: seq<int>, probas: seq<real>, c0: seq<int>, p0: seq<real>, rows: seq<Scores>,
                          testIds: seq<int>, index: Option<map<int, int>>, size: int, count: nat)
  {
    && ClassesStream(classes, c0, rows, testIds, index, size, count)
    && probas == p0 + ProbasLayout(rows, size)
  }

  /** The classes half of `Streams`. */
  ghost predicate ClassesStream(classes: seq<int>, c0: seq<int>, rows: seq<Scores>,
                                testIds: seq<int>, index: Option<map<int, int>>, size: int, count: nat)
  {
    && count == |rows|
    && IdsFit(testIds, 0, count)
    && Lift(classes) == Lift(c0) + Wrapped(ClassesLayout(rows, IdsOf(testIds, 0, count), index, size))
  }

  /** A successful flush of rows `b` at count `count` extends the streams by them, attributed to the next ids. */
  lemma FlushExtends(cPrev: seq<int>, pPrev: seq<real>, cNow: seq<int>, pNow: seq<real>, c0: seq<int>, p0: seq<real>,
                     a: seq<Scores>, b: seq<Scores>, rows: seq<Scores>, testIds: seq<int>, index: Option<map<int, int>>,
                     size: int, count: nat)
    requires Streams(cPrev, pPrev, c0, p0, a, testIds, index, size, count)
    requires IdsFit(testIds, count, |b|)
    requires ToUint32(ClassesLayout(b, IdsOf(testIds, count, |b|), index, size)).Ok?
    requires cNow == cPrev + ToUint32(ClassesLayout(b, IdsOf(testIds, count, |b|), index, size)).value
    requires pNow == pPrev + ProbasLayout(b, size)
    requires rows == a + b
    ensures Streams(cNow, pNow, c0, p0, rows, testIds, index, size, count + |b|)
  {
    ClassesStreamExtends(cPrev, cNow, c0, a, b, testIds, count, index, size);
    ProbasStreamExtends(pPrev, pNow, p0, a, b, size);
  }

  /** The probabilities stream part of `FlushExtends`. */
  lemma ProbasStreamExtends(pPrev: seq<real>, pNow: seq<real>, p0: seq<real>, a: seq<Scores>, b: seq<Scores>, size: int)
    requires pPrev == p0 + ProbasLayout(a, size)
    requires pNow == pPrev + ProbasLayout(b, size)
    ensures pNow == p0 + ProbasLayout(a + b, size)
  {
    ProbasLayoutConcat(a, b, size);
    AppendChain(p0, pPrev, pNow, ProbasLayout(a, size), ProbasLayout(b, size), ProbasLayout(a + b, size));
  }

  /** The classes stream part of `FlushExtends`. */
  lemma ClassesStreamExtends(cPrev: seq<int>, cNow: seq<int>, c0: seq<int>, a: seq<Scores>, b: seq<Scores>,
                             testIds: seq<int>, count: nat, index: Option<map<int, int>>, size: int)
    requires |a| == count && IdsFit(testIds, 0, count) && IdsFit(testIds, count, |b|)
    requires Lift(cPrev) == Lift(c0) + Wrapped(ClassesLayout(a, IdsOf(testIds, 0, count), index, size))
    requires ToUint32(ClassesLayout(b, IdsOf(testIds, count, |b|), index, size)).Ok?
    requires cNow == cPrev + ToUint32(ClassesLayout(b, IdsOf(testIds, count, |b|), index, size)).value
    ensures IdsFit(testIds, 0, count + |b|)
    ensures Lift(cNow) == Lift(c0) + Wrapped(ClassesLayout(a + b, IdsOf(testIds, 0, count + |b|), index, size))
  {
    var ia, ib := IdsOf(testIds, 0, count), IdsOf(testIds, count, |b|);
    assert ia + ib == IdsOf(testIds, 0, count + |b|) by {
      IdsOfConcat(testIds, 0, count, |b|);
    }
    var xa, xs := ClassesLayout(a, ia, index, size), ClassesLayout(b, ib, index, size);
    var ws := ToUint32(xs).value;
    assert Lift(cNow) == Lift(cPrev) + Lift(ws) by {
      LiftConcat(cPrev, ws);
    }
    assert Lift(ws) == Wrapped(xs) by {
      LiftToUint32(xs);
    }
    assert Wrapped(ClassesLayout(a + b, ia + ib, index, size)) == Wrapped(xa) + Wrapped(xs) by {
      ClassesLayoutConcat(a, b, ia, ib, index, size);
      WrappedConcat(xa, xs);
    }
    AppendChain(Lift(c0), Lift(cPrev), Lift(cNow), Wrapped(xa), Wrapped(xs),
      Wrapped(ClassesLayout(a + b, ia + ib, index, size)));
  }

  /** Appending `y` to `x0 + x` is appending `x + y` to `x0`. */
  lemma AppendChain<T>(x0: seq<T>, prev: seq<T>, now: seq<T>, x: seq<T>, y: seq<T>, xy: seq<T>)
    requires prev == x0 + x && now == prev + y && xy == x + y
    ensures now == x0 + xy
  {
  }
}
