/**
 * What one export of `export.py` computes from a buffer of model outputs:
 * each row's top-`size` class indices by descending score, the class id of
 * each index through the optional label index, and the layout of the two
 * binary streams and of the `output` triples.
 */
module ExportLayout {
  import opened Wrappers
  import opened Numeric
  import opened LabelIndex

  /** A row of model scores, one per class. */
  type Scores = seq<real>

  // ---------------------------------------------------------------------------
  // Top-K by descending score (`np.argsort(-results, axis=1)[:, :size]`).

  ghost predicate IndicesBelow(order: seq<nat>, n: nat)
  {
    forall k :: 0 <= k < |order| ==> order[k] < n
  }

  /** The scores `order` selects never increase. */
  ghost predicate Descending(order: seq<nat>, row: Scores)
    requires IndicesBelow(order, |row|)
  {
    forall a, b :: 0 <= a < b < |order| ==> row[order[a]] >= row[order[b]]
  }

  /**
   * Puts index `i` into a descending order of indices, before every index
   * of lower score and after every index of equal score.
   */
  function InsertByScore(i: nat, s: seq<nat>, row: Scores): (r: seq<nat>)
    requires i < |row| && IndicesBelow(s, |row|)
    ensures |r| == |s| + 1 && IndicesBelow(r, |row|)
  {
    if s == [] || row[s[0]] < row[i] then [i] + s else [s[0]] + InsertByScore(i, s[1..], row)
  }

  /** A position of `x` in `s`. */
  lemma IndexOf<T>(s: seq<T>, x: T) returns (p: nat)
    requires x in s
    ensures p < |s| && s[p] == x
  {
    if s[0] == x {
      p := 0;
    } else {
      assert x in s[1..];
      var q := IndexOf(s[1..], x);
      p := q + 1;
    }
  }

  /** Inserting adds exactly `i`. */
  lemma {:induction false} InsertByScoreMembers(i: nat, s: seq<nat>, row: Scores)
    requires i < |row| && IndicesBelow(s, |row|)
    ensures forall x :: x in InsertByScore(i, s, row) <==> x == i || x in s
  {
    if !(s == [] || row[s[0]] < row[i]) {
      var rest := InsertByScore(i, s[1..], row);
      InsertByScoreMembers(i, s[1..], row);
      assert InsertByScore(i, s, row) == [s[0]] + rest;
      assert s == [s[0]] + s[1..];
    }
  }

  /** Inserting keeps the order descending. */
  lemma {:induction false} InsertByScoreDescending(i: nat, s: seq<nat>, row: Scores)
    requires i < |row| && IndicesBelow(s, |row|) && Descending(s, row)
    ensures Descending(InsertByScore(i, s, row), row)
  {
    var r := InsertByScore(i, s, row);
    if s == [] || row[s[0]] < row[i] {
      assert r == [i] + s;
    } else {
      var rest := InsertByScore(i, s[1..], row);
      assert r == [s[0]] + rest;
      InsertByScoreDescending(i, s[1..], row);
      InsertByScoreMembers(i, s[1..], row);
      forall b | 0 <= b < |rest|
        ensures row[s[0]] >= row[rest[b]]
      {
        if rest[b] != i {
          var p := IndexOf(s[1..], rest[b]);
          assert s[p + 1] == rest[b];
        }
      }
      forall a, b | 0 <= a < b < |r|
        ensures row[r[a]] >= row[r[b]]
      {
        assert r[b] == rest[b - 1];
        if a > 0 {
          assert r[a] == rest[a - 1];
        }
      }
    }
  }

  /** Inserting a new index keeps the indices distinct. */
  lemma {:induction false} InsertByScoreDistinct(i: nat, s: seq<nat>, row: Scores)
    requires i < |row| && IndicesBelow(s, |row|)
    requires Distinct(s) && i !in s
    ensures Distinct(InsertByScore(i, s, row))
  {
    var r := InsertByScore(i, s, row);
    if s == [] || row[s[0]] < row[i] {
      assert r == [i] + s;
    } else {
      var rest := InsertByScore(i, s[1..], row);
      assert r == [s[0]] + rest;
      assert s == [s[0]] + s[1..];
      assert s[0] !in s[1..];
      InsertByScoreDistinct(i, s[1..], row);
      InsertByScoreMembers(i, s[1..], row);
      forall a, b | 0 <= a < b < |r|
        ensures r[a] != r[b]
      {
        assert r[b] == rest[b - 1] && rest[b - 1] in rest;
        if a > 0 {
          assert r[a] == rest[a - 1];
        }
      }
    }
  }

  /**
   * The indices `0 .. n-1` ordered by descending score, equal scores in
   * index order: NumPy's stable sort of the negated scores. The default
   * `argsort` kind promises no tie order; this is the order it gives on
   * rows short enough for its insertion sort.
   */
  function ArgsortDesc(row: Scores, n: nat): (r: seq<nat>)
    requires n <= |row|
    ensures |r| == n && IndicesBelow(r, |row|)
  {
    if n == 0 then [] else InsertByScore(n - 1, ArgsortDesc(row, n - 1), row)
  }

  /** The descending order is a permutation of the `n` first indices. */
  lemma ArgsortDescSpec(row: Scores, n: nat)
    requires n <= |row|
    ensures var r := ArgsortDesc(row, n);
      && IndicesBelow(r, n) && Distinct(r) && Descending(r, row)
      && forall x :: 0 <= x < n <==> x in r
  {
    ArgsortDescMembers(row, n);
    ArgsortDescOrdered(row, n);
    var r := ArgsortDesc(row, n);
    forall k | 0 <= k < |r|
      ensures r[k] < n
    {
      assert r[k] in r;
    }
  }

  lemma {:induction false} ArgsortDescMembers(row: Scores, n: nat)
    requires n <= |row|
    ensures forall x :: 0 <= x < n <==> x in ArgsortDesc(row, n)
  {
    if n > 0 {
      var s := ArgsortDesc(row, n - 1);
      ArgsortDescMembers(row, n - 1);
      InsertByScoreMembers(n - 1, s, row);
    }
  }

  lemma {:induction false} ArgsortDescOrdered(row: Scores, n: nat)
    requires n <= |row|
    ensures Distinct(ArgsortDesc(row, n)) && Descending(ArgsortDesc(row, n), row)
  {
    if n > 0 {
      var s := ArgsortDesc(row, n - 1);
      assert ArgsortDesc(row, n) == InsertByScore(n - 1, s, row);
      ArgsortDescOrdered(row, n - 1);
      assert Descending(InsertByScore(n - 1, s, row), row) by {
        InsertByScoreDescending(n - 1, s, row);
      }
      assert Distinct(InsertByScore(n - 1, s, row)) by {
        ArgsortDescMembers(row, n - 1);
        assert n - 1 !in s;
        InsertByScoreDistinct(n - 1, s, row);
      }
    }
  }

  /** Indices of equal score appear in increasing index order. */
  ghost predicate TiesByIndex(order: seq<nat>, row: Scores)
    requires IndicesBelow(order, |row|)
  {
    forall a, b :: 0 <= a < b < |order| && row[order[a]] == row[order[b]] ==> order[a] < order[b]
  }

  /** Inserting an index above all others keeps equal scores in index order. */
  lemma {:induction false} InsertByScoreTies(i: nat, s: seq<nat>, row: Scores)
    requires i < |row| && IndicesBelow(s, |row|) && Descending(s, row) && TiesByIndex(s, row)
    requires forall k :: 0 <= k < |s| ==> s[k] < i
    ensures TiesByIndex(InsertByScore(i, s, row), row)
  {
    var r := InsertByScore(i, s, row);
    if s == [] || row[s[0]] < row[i] {
      assert r == [i] + s;
      forall a, b | 0 <= a < b < |r| && row[r[a]] == row[r[b]]
        ensures r[a] < r[b]
      {
        assert r[0] == i && r[b] == s[b - 1] && row[s[0]] >= row[s[b - 1]];
        assert a > 0;
        assert r[a] == s[a - 1];
      }
    } else {
      var rest := InsertByScore(i, s[1..], row);
      assert r == [s[0]] + rest;
      assert Descending(s[1..], row) && TiesByIndex(s[1..], row) by {
        forall a, b | 0 <= a < b < |s[1..]|
          ensures s[1..][a] == s[a + 1] && s[1..][b] == s[b + 1]
        {
        }
      }
      InsertByScoreTies(i, s[1..], row);
      InsertByScoreMembers(i, s[1..], row);
      forall a, b | 0 <= a < b < |r| && row[r[a]] == row[r[b]]
        ensures r[a] < r[b]
      {
        assert r[b] == rest[b - 1];
        if a > 0 {
          assert r[a] == rest[a - 1];
        } else if rest[b - 1] != i {
          var p := IndexOf(s[1..], rest[b - 1]);
          assert s[p + 1] == rest[b - 1];
        }
      }
    }
  }

  /** The descending order lists indices of equal score in index order. */
  lemma {:induction false} ArgsortDescTies(row: Scores, n: nat)
    requires n <= |row|
    ensures TiesByIndex(ArgsortDesc(row, n), row)
  {
    if n > 0 {
      var s := ArgsortDesc(row, n - 1);
      ArgsortDescTies(row, n - 1);
      ArgsortDescOrdered(row, n - 1);
      ArgsortDescMembers(row, n - 1);
      forall k | 0 <= k < |s|
        ensures s[k] < n - 1
      {
        assert s[k] in s;
      }
      InsertByScoreTies(n - 1, s, row);
    }
  }

  /** A row's `order`: the first `size` indices of the descending order (a Python slice). */
  function TopK(row: Scores, size: int): (order: seq<nat>)
    ensures IndicesBelow(order, |row|)
  {
    ArgsortDescSpec(row, |row|);
    PySlice(ArgsortDesc(row, |row|), 0, size)
  }

  function Min(a: int, b: int): int
  {
    if a <= b then a else b
  }

  /** For a non-negative `size`, a row keeps `min(size, C)` classes. */
  lemma TopKSize(row: Scores, size: int)
    requires size >= 0
    ensures |TopK(row, size)| == Min(size, |row|)
  {
    var full := ArgsortDesc(row, |row|);
    assert PySlice(full, 0, size) == full[..Min(size, |row|)];
  }

  /**
   * For a non-negative `size`, a row's order holds `min(size, C)` distinct
   * class indices whose scores never increase, no class left out
   * scores higher than one kept, and one left out at a kept score has a
   * higher index.
   */
  lemma TopKIsTop(row: Scores, size: int)
    requires size >= 0
    ensures var order := TopK(row, size);
      && |order| == Min(size, |row|)
      && Distinct(order)
      && Descending(order, row)
      && (forall x, k :: 0 <= x < |row| && x !in order && 0 <= k < |order| ==> row[x] <= row[order[k]])
      && forall x, k :: 0 <= x < |row| && x !in order && 0 <= k < |order| && row[x] == row[order[k]] ==> order[k] < x
  {
    var full := ArgsortDesc(row, |row|);
    ArgsortDescSpec(row, |row|);
    var m := Min(size, |row|);
    assert PySlice(full, 0, size) == full[..m];
    var order := full[..m];
    forall x, k | 0 <= x < |row| && x !in order && 0 <= k < |order|
      ensures row[x] <= row[order[k]]
    {
      var p := IndexOf(full, x);
    }
    TopKTies(row, size);
  }

  /** A class left out at the score of a kept one has a higher index. */
  lemma TopKTies(row: Scores, size: int)
    requires size >= 0
    ensures var order := TopK(row, size);
      forall x, k :: 0 <= x < |row| && x !in order && 0 <= k < |order| && row[x] == row[order[k]] ==> order[k] < x
  {
    var full := ArgsortDesc(row, |row|);
    ArgsortDescMembers(row, |row|);
    ArgsortDescTies(row, |row|);
    var m := Min(size, |row|);
    assert PySlice(full, 0, size) == full[..m];
    var order := full[..m];
    forall x, k | 0 <= x < |row| && x !in order && 0 <= k < |order| && row[x] == row[order[k]]
      ensures order[k] < x
    {
      var p := IndexOf(full, x);
      assert forall j :: 0 <= j < m ==> full[j] in order;
      assert order[k] == full[k] && k < p;
    }
  }

  // ---------------------------------------------------------------------------
  // Class ids.

  /**
   * The class id of output index `j`: `j` itself without a label index, the
   * indexed label when the index has `j`, and None (a logged miss) otherwise.
   */
  function ClassId(j: int, index: Option<map<int, int>>): (c: Option<int>)
    ensures index.None? ==> c == Some(j)
    ensures index.Some? ==> (c.Some? <==> j in index.value)
    ensures index.Some? && j in index.value ==> c == Some(index.value[j])
  {
    match index
    case None => Some(j)
    case Some(d) => if j in d then Some(d[j]) else None
  }

  /**
   * With the reversed index saved at training time, every output index of
   * the model gets back the label that was interned under it.
   */
  lemma ClassIdRecoversLabel(ids: map<int, int>, reversed: map<int, int>, lbl: int)
    requires IsReversal(ids, reversed) && Injective(ids) && lbl in ids
    ensures ClassId(ids[lbl], Some(reversed)) == Some(lbl)
  {
    var j := ids[lbl];
    assert j in reversed;
    var back := reversed[j];
    assert back in ids && ids[back] == j;
  }

  // ---------------------------------------------------------------------------
  // Layouts of one export.

  /** The class ids a row's order selects. */
  function ClassIds(order: seq<nat>, index: Option<map<int, int>>): (cs: seq<Option<int>>)
    ensures |cs| == |order|
    ensures forall k :: 0 <= k < |order| ==> cs[k] == ClassId(order[k], index)
  {
    seq(|order|, k requires 0 <= k < |order| => ClassId(order[k], index))
  }

  /** The scores a row's order selects. */
  function Selected(row: Scores, order: seq<nat>): (ps: seq<real>)
    requires IndicesBelow(order, |row|)
    ensures |ps| == |order|
  {
    seq(|order|, k requires 0 <= k < |order| && IndicesBelow(order, |row|) => row[order[k]])
  }

  /**
   * The classes stream of rows `rows` attributed to `ids`: per row its id,
   * then its class ids.
   */
  function ClassesLayout(rows: seq<Scores>, ids: seq<int>, index: Option<map<int, int>>, size: int): seq<Option<int>>
    requires |ids| == |rows|
  {
    if rows == [] then []
    else [Some(ids[0])] + ClassIds(TopK(rows[0], size), index) + ClassesLayout(rows[1..], ids[1..], index, size)
  }

  /** The probas stream of rows `rows`: per row, its selected scores. */
  function ProbasLayout(rows: seq<Scores>, size: int): seq<real>
  {
    if rows == [] then [] else Selected(rows[0], TopK(rows[0], size)) + ProbasLayout(rows[1..], size)
  }

  /** A row of `output`: `[id, class_id, proba]`. */
  datatype Entry = Entry(id: int, classId: Option<int>, proba: real)

  /** The `output` triples of one row. */
  function RowEntries(row: Scores, id: int, index: Option<map<int, int>>, size: int): (es: seq<Entry>)
    ensures |es| == |TopK(row, size)|
  {
    var order := TopK(row, size);
    seq(|order|, k requires 0 <= k < |order| && order == TopK(row, size) =>
      Entry(id, ClassId(order[k], index), row[order[k]]))
  }

  /** The `output` triples of rows `rows`, point-major then rank. */
  function OutputLayout(rows: seq<Scores>, ids: seq<int>, index: Option<map<int, int>>, size: int): seq<Entry>
    requires |ids| == |rows|
  {
    if rows == [] then [] else RowEntries(rows[0], ids[0], index, size) + OutputLayout(rows[1..], ids[1..], index, size)
  }

  /** Every row has `c` scores. */
  ghost predicate Width(rows: seq<Scores>, c: nat)
  {
    forall i :: 0 <= i < |rows| ==> |rows[i]| == c
  }

  /**
   * With `c` classes and `k = min(size, c)` kept per point, the classes
   * stream holds `1 + k` values per point, the probas stream `k`, and
   * `output` `k` triples.
   */
  lemma LayoutSizes(rows: seq<Scores>, ids: seq<int>, index: Option<map<int, int>>, size: nat, c: nat)
    requires |ids| == |rows| && Width(rows, c)
    ensures |ClassesLayout(rows, ids, index, size)| == |rows| * (1 + Min(size, c))
    ensures |ProbasLayout(rows, size)| == |rows| * Min(size, c)
    ensures |OutputLayout(rows, ids, index, size)| == |rows| * Min(size, c)
  {
    ClassesLayoutSize(rows, ids, index, size, c);
    ProbasLayoutSize(rows, size, c);
    OutputLayoutSize(rows, ids, index, size, c);
  }

  lemma {:induction false} ClassesLayoutSize(rows: seq<Scores>, ids: seq<int>, index: Option<map<int, int>>, size: nat, c: nat)
    requires |ids| == |rows| && Width(rows, c)
    ensures |ClassesLayout(rows, ids, index, size)| == |rows| * (1 + Min(size, c))
  {
    if rows != [] {
      var k := Min(size, c);
      TopKSize(rows[0], size);
      var head := [Some(ids[0])] + ClassIds(TopK(rows[0], size), index);
      assert |head| == 1 + k;
      assert ClassesLayout(rows, ids, index, size) == head + ClassesLayout(rows[1..], ids[1..], index, size);
      ClassesLayoutSize(rows[1..], ids[1..], index, size, c);
      MulStep(|rows|, 1 + k);
    }
  }

  lemma {:induction false} ProbasLayoutSize(rows: seq<Scores>, size: nat, c: nat)
    requires Width(rows, c)
    ensures |ProbasLayout(rows, size)| == |rows| * Min(size, c)
  {
    if rows != [] {
      var k := Min(size, c);
      TopKSize(rows[0], size);
      ProbasLayoutSize(rows[1..], size, c);
      MulStep(|rows|, k);
    }
  }

  lemma {:induction false} OutputLayoutSize(rows: seq<Scores>, ids: seq<int>, index: Option<map<int, int>>, size: nat, c: nat)
    requires |ids| == |rows| && Width(rows, c)
    ensures |OutputLayout(rows, ids, index, size)| == |rows| * Min(size, c)
  {
    if rows != [] {
      var k := Min(size, c);
      TopKSize(rows[0], size);
      var head := RowEntries(rows[0], ids[0], index, size);
      assert |head| == k;
      assert OutputLayout(rows, ids, index, size) == head + OutputLayout(rows[1..], ids[1..], index, size);
      OutputLayoutSize(rows[1..], ids[1..], index, size, c);
      MulStep(|rows|, k);
    }
  }

  lemma MulStep(n: nat, k: int)
    requires n >= 1
    ensures n * k == k + (n - 1) * k
  {
  }

  /** Laying out two runs of rows one after the other is laying out their concatenation. */
  lemma LayoutsConcat(a: seq<Scores>, b: seq<Scores>, ia: seq<int>, ib: seq<int>,
                      index: Option<map<int, int>>, size: int)
    requires |ia| == |a| && |ib| == |b|
    ensures ClassesLayout(a + b, ia + ib, index, size) == ClassesLayout(a, ia, index, size) + ClassesLayout(b, ib, index, size)
    ensures ProbasLayout(a + b, size) == ProbasLayout(a, size) + ProbasLayout(b, size)
    ensures OutputLayout(a + b, ia + ib, index, size) == OutputLayout(a, ia, index, size) + OutputLayout(b, ib, index, size)
  {
    ClassesLayoutConcat(a, b, ia, ib, index, size);
    ProbasLayoutConcat(a, b, size);
    OutputLayoutConcat(a, b, ia, ib, index, size);
  }

  lemma {:induction false} ClassesLayoutConcat(a: seq<Scores>, b: seq<Scores>, ia: seq<int>, ib: seq<int>,
                                               index: Option<map<int, int>>, size: int)
    requires |ia| == |a| && |ib| == |b|
    ensures ClassesLayout(a + b, ia + ib, index, size) == ClassesLayout(a, ia, index, size) + ClassesLayout(b, ib, index, size)
  {
    if a == [] {
      assert a + b == b && ia + ib == ib;
    } else {
      assert (a + b)[0] == a[0] && (ia + ib)[0] == ia[0];
      assert (a + b)[1..] == a[1..] + b && (ia + ib)[1..] == ia[1..] + ib;
      ClassesLayoutConcat(a[1..], b, ia[1..], ib, index, size);
    }
  }

  lemma {:induction false} ProbasLayoutConcat(a: seq<Scores>, b: seq<Scores>, size: int)
    ensures ProbasLayout(a + b, size) == ProbasLayout(a, size) + ProbasLayout(b, size)
  {
    if a == [] {
      assert a + b == b;
    } else {
      assert (a + b)[0] == a[0];
      assert (a + b)[1..] == a[1..] + b;
      ProbasLayoutConcat(a[1..], b, size);
    }
  }

  lemma {:induction false} OutputLayoutConcat(a: seq<Scores>, b: seq<Scores>, ia: seq<int>, ib: seq<int>,
                                              index: Option<map<int, int>>, size: int)
    requires |ia| == |a| && |ib| == |b|
    ensures OutputLayout(a + b, ia + ib, index, size) == OutputLayout(a, ia, index, size) + OutputLayout(b, ib, index, size)
  {
    if a == [] {
      assert a + b == b && ia + ib == ib;
    } else {
      assert (a + b)[0] == a[0] && (ia + ib)[0] == ia[0];
      assert (a + b)[1..] == a[1..] + b && (ia + ib)[1..] == ia[1..] + ib;
      OutputLayoutConcat(a[1..], b, ia[1..], ib, index, size);
    }
  }

  // ---------------------------------------------------------------------------
  // The uint32 write of the classes stream.

  const Uint32Limit: int := 0x1_0000_0000

  /**
   * `np.asarray(L_classes, dtype=np.uint32)` under the NumPy the code is
   * written for (it still has `np.float`, gone since NumPy 1.24): a None
   * raises TypeError, and an int outside the uint32 range is stored
   * modulo 2^32, silently.
   */
  function ToUint32(xs: seq<Option<int>>): (r: Result<seq<int>>)
    ensures r.Ok? <==> forall k :: 0 <= k < |xs| ==> xs[k].Some?
    ensures r.Ok? ==> |r.value| == |xs|
    ensures r.Raise? ==> r.exc == TypeError
  {
    if forall k :: 0 <= k < |xs| ==> xs[k].Some? then
      Ok(seq(|xs|, k requires 0 <= k < |xs| => xs[k].value % Uint32Limit))
    else Raise(TypeError)
  }

  /** Each present value reduced modulo 2^32, as a uint32 array stores it. */
  function Wrapped(xs: seq<Option<int>>): (ys: seq<Option<int>>)
    ensures |ys| == |xs|
  {
    seq(|xs|, k requires 0 <= k < |xs| => if xs[k].Some? then Some(xs[k].value % Uint32Limit) else None)
  }

  /** Every stored word is a uint32. */
  lemma ToUint32Words(xs: seq<Option<int>>)
    requires ToUint32(xs).Ok?
    ensures forall k :: 0 <= k < |xs| ==> 0 <= ToUint32(xs).value[k] < Uint32Limit
  {
  }

  /** Values that fit in uint32 are stored unchanged. */
  lemma WrappedFits(xs: seq<Option<int>>)
    requires forall k :: 0 <= k < |xs| && xs[k].Some? ==> 0 <= xs[k].value < Uint32Limit
    ensures Wrapped(xs) == xs
  {
    assert forall k :: 0 <= k < |xs| ==> Wrapped(xs)[k] == xs[k];
  }

  /** An id one past the uint32 range is stored as 0: the ids of the classes stream then collide. */
  lemma WrappedCollides()
    ensures Wrapped([Some(Uint32Limit)]) == Wrapped([Some(0)])
  {
  }

  lemma WrappedConcat(a: seq<Option<int>>, b: seq<Option<int>>)
    ensures Wrapped(a + b) == Wrapped(a) + Wrapped(b)
  {
    assert forall k :: 0 <= k < |a| + |b| ==> Wrapped(a + b)[k] == (Wrapped(a) + Wrapped(b))[k];
  }
}
