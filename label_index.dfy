/**
 * The label index of src/model/loaders/util/index.py: labels are interned
 * into dense integer ids, an index can be reversed (id -> label) and saved,
 * and the last loaded index is cached process-wide under its path.
 *
 * The index files on disk are an input `disk`: the decoded integer map of
 * every index file that exists, keyed by path.
 */
module LabelIndex {
  import opened Wrappers
  import opened Numeric
  import NdArrays

  // ---------------------------------------------------------------------------
  // Interning labels

  /** Distinct keys have distinct values. */
  ghost predicate Injective<K, V>(m: map<K, V>)
  {
    forall a, b :: a in m && b in m && a != b ==> m[a] != m[b]
  }

  /**
   * The ids handed out so far are distinct and below the number of labels,
   * hence (by counting) exactly 0, 1, ..., |m| - 1, one per label.
   */
  ghost predicate Dense<L>(m: map<L, int>)
  {
    && (forall l :: l in m ==> 0 <= m[l] < |m|)
    && Injective(m)
  }

  /** The dict after `index_labels(indexer, label)`: an unseen label gets id `len(indexer)`. */
  function Interned<L>(m: map<L, int>, lbl: L): (m': map<L, int>)
    ensures lbl in m'
    ensures lbl in m ==> m' == m
    ensures lbl !in m ==> m' == m[lbl := |m|]
  {
    if lbl in m then m else m[lbl := |m|]
  }

  /** Interning keeps the ids dense and never changes an id already handed out. */
  lemma InternedKeepsDense<L>(m: map<L, int>, lbl: L)
    requires Dense(m)
    ensures Dense(Interned(m, lbl))
    ensures forall l :: l in m ==> l in Interned(m, lbl) && Interned(m, lbl)[l] == m[l]
    ensures lbl !in m ==> Interned(m, lbl)[lbl] == |m|
  {
    if lbl !in m {
      var m' := m[lbl := |m|];
      assert |m'| == |m| + 1;
    }
  }

  /** A single-task label indexer: the caller's `indexer` dict, mutated by `index_labels`. */
  class Indexer<L(==)> {
    var ids: map<L, int>

    constructor ()
      ensures ids == map[]
    {
      ids := map[];
    }

    /** `index_labels(indexer, label)` for a single (non-tuple) label. */
    method IndexLabel(lbl: L) returns (id: int)
      modifies this
      ensures ids == Interned(old(ids), lbl)
      ensures id == ids[lbl]
      ensures lbl in old(ids) ==> id == old(ids)[lbl]
      ensures lbl !in old(ids) ==> id == |old(ids)|
    {
      if lbl !in ids {
        ids := ids[lbl := |ids|];
      }
      id := ids[lbl];
    }
  }

  /**
   * A multitask label indexer: `indexer` is a list of dicts, one per
   * component of a tuple label.
   */
  class MultiIndexer<L(==)> {
    var tables: seq<map<L, int>>

    constructor (components: nat)
      ensures tables == seq(components, _ => map[])
    {
      tables := seq(components, _ => map[]);
    }

    /**
     * `index_labels(indexer, label)` for a tuple label: component i is
     * interned in `indexer[i]` only, and the ids come back in component
     * order. A label with more components than there are dicts raises
     * IndexError after the leading components were interned.
     */
    method IndexLabels(labels: seq<L>) returns (r: Result<seq<int>>)
      modifies this
      ensures |tables| == |old(tables)|
      ensures forall i :: 0 <= i < |tables| ==>
        tables[i] == (if i < |labels| then Interned(old(tables)[i], labels[i]) else old(tables)[i])
      ensures |labels| <= |tables| <==> r.Ok?
      ensures r.Ok? ==> |r.value| == |labels|
      ensures r.Ok? ==> forall i :: 0 <= i < |labels| && i < |tables| ==> labels[i] in tables[i] && r.value[i] == tables[i][labels[i]]
      ensures r.Raise? ==> r.exc == IndexError
    {
      var i := 0;
      while i < |labels|
        invariant 0 <= i <= |labels|
        invariant |tables| == |old(tables)|
        invariant i <= |tables|
        invariant forall j :: 0 <= j < |tables| ==>
          tables[j] == (if j < i then Interned(old(tables)[j], labels[j]) else old(tables)[j])
      {
        if i >= |tables| {
          return Raise(IndexError);
        }
        tables := tables[i := Interned(tables[i], labels[i])];
        i := i + 1;
      }
      var t := tables;
      r := Ok(seq(|labels|, j requires 0 <= j < |labels| && j < |t| && labels[j] in t[j] => t[j][labels[j]]));
    }
  }

  // ---------------------------------------------------------------------------
  // Reversal

  /** A saved index: one dict, or one dict per task of a multitask model. */
  datatype Index = Flat(ids: map<int, int>) | PerTask(tables: seq<map<int, int>>)

  /**
   * `r` is a reversal of `d`: its keys are exactly the values of `d`, and each maps
   * back to a key of `d` holding it. When `d` is injective there is exactly
   * one reversal; otherwise which key wins depends on dict order.
   */
  ghost predicate IsReversal(d: map<int, int>, r: map<int, int>)
  {
    && (forall k :: k in d ==> d[k] in r)
    && (forall v :: v in r ==> r[v] in d && d[r[v]] == v)
  }

  /** `order` lists every key of `d` exactly once: the dict's iteration order. */
  ghost predicate IsKeyOrder(order: seq<int>, d: map<int, int>)
  {
    && (forall i :: 0 <= i < |order| ==> order[i] in d)
    && (forall k :: k in d ==> k in order)
    && Distinct(order)
  }

  /** The reversed dict after `reversed_index[v] = k` for the first `n` items of `d`, in `order`. */
  ghost function ReversedPrefix(d: map<int, int>, order: seq<int>, n: nat): map<int, int>
    requires forall i :: 0 <= i < |order| ==> order[i] in d
    requires n <= |order|
  {
    if n == 0 then map[] else ReversedPrefix(d, order, n - 1)[d[order[n - 1]] := order[n - 1]]
  }

  /**
   * What the first `n` steps of the reversal loop build: one entry per value
   * met, mapped back to a key holding it, and for a value held by several
   * keys it is the last of them in dict order that wins.
   */
  lemma {:induction false} ReversedPrefixSpec(d: map<int, int>, order: seq<int>, n: nat)
    requires forall i :: 0 <= i < |order| ==> order[i] in d
    requires Distinct(order)
    requires n <= |order|
    ensures forall i :: 0 <= i < n ==> d[order[i]] in ReversedPrefix(d, order, n)
    ensures forall v :: v in ReversedPrefix(d, order, n) ==>
      ReversedPrefix(d, order, n)[v] in order[..n] && d[ReversedPrefix(d, order, n)[v]] == v
    ensures forall i, j :: 0 <= i < j < n && d[order[i]] == d[order[j]] ==>
      ReversedPrefix(d, order, n)[d[order[i]]] != order[i]
  {
    if n > 0 {
      ReversedPrefixSpec(d, order, n - 1);
      assert order[..n] == order[..n - 1] + [order[n - 1]];
    }
  }

  /** `reverse_indexing` over one dict: `reversed_index[v] = k` for each item, in dict order. */
  method ReverseMap(d: map<int, int>, order: seq<int>) returns (r: map<int, int>)
    requires IsKeyOrder(order, d)
    ensures r == ReversedPrefix(d, order, |order|)
    ensures IsReversal(d, r)
  {
    r := map[];
    for n := 0 to |order|
      invariant r == ReversedPrefix(d, order, n)
    {
      r := r[d[order[n]] := order[n]];
    }
    ReversedPrefixSpec(d, order, |order|);
    assert order[..|order|] == order;
    forall k | k in d ensures d[k] in r {
      var i :| 0 <= i < |order| && order[i] == k;
    }
  }

  /**
   * `reverse_indexing(index, column)`: reverses the index itself, or its
   * `column`-th dict when it is a list (IndexError past either end). `order`
   * is the iteration order of the dict being reversed.
   */
  method ReverseIndexing(index: Index, column: int, order: seq<int>) returns (r: Result<map<int, int>>)
    requires index.Flat? ==> IsKeyOrder(order, index.ids)
    requires index.PerTask? && NdArrays.PyIndex(|index.tables|, column).Some? ==>
      IsKeyOrder(order, index.tables[NdArrays.PyIndex(|index.tables|, column).value])
    ensures index.Flat? ==> r.Ok? && IsReversal(index.ids, r.value)
    ensures index.PerTask? ==> (r.Ok? <==> NdArrays.PyIndex(|index.tables|, column).Some?)
    ensures index.PerTask? && r.Ok? ==> IsReversal(index.tables[NdArrays.PyIndex(|index.tables|, column).value], r.value)
    ensures r.Raise? ==> r.exc == IndexError
  {
    if index.Flat? {
      var m := ReverseMap(index.ids, order);
      r := Ok(m);
    } else {
      var k := NdArrays.PyIndex(|index.tables|, column);
      if k.Some? {
        var m := ReverseMap(index.tables[k.value], order);
        r := Ok(m);
      } else {
        r := Raise(IndexError);
      }
    }
  }

  /** A reversal of an injective map is injective. */
  lemma ReversalInjective(d: map<int, int>, r: map<int, int>)
    requires IsReversal(d, r)
    ensures Injective(r)
  {}

  /** Reversing an injective map twice gives back the original map. */
  lemma DoubleReversal(d: map<int, int>, r: map<int, int>, back: map<int, int>)
    requires Injective(d) && IsReversal(d, r) && IsReversal(r, back)
    ensures back == d
  {
    ReversalInjective(d, r);
    forall k | k in d ensures k in back && back[k] == d[k] {
      var v := d[k];
      assert v in r && r[v] in d && d[r[v]] == v;
      assert r[v] == k;
      assert back[k] in r && r[back[k]] == k;
    }
    forall k | k in back ensures k in d {
      var v := back[k];
      assert v in r && r[v] == k;
      assert r[v] in d;
    }
  }

  // ---------------------------------------------------------------------------
  // The process-wide cache of the last loaded index

  /** The module globals `previous_index_path` and `previous_indexed_labels`. */
  class IndexCache {
    var previousPath: Option<string>
    var previousLabels: Option<Index>

    /** Both globals start as None. */
    constructor ()
      ensures previousPath == None && previousLabels == None
    {
      previousPath := None;
      previousLabels := None;
    }

    /**
     * `get_index(index_path)`: the cached labels when the path is the cached
     * one (the file is not looked at); else the file's map, which becomes the
     * cache; else None, leaving the cache as it was.
     */
    method GetIndex(disk: map<string, map<int, int>>, path: string) returns (r: Option<Index>)
      modifies this
      ensures old(previousPath) == Some(path) ==>
        r == old(previousLabels) && previousPath == old(previousPath) && previousLabels == old(previousLabels)
      ensures old(previousPath) != Some(path) && path in disk ==>
        r == Some(Flat(disk[path])) && previousPath == Some(path) && previousLabels == r
      ensures old(previousPath) != Some(path) && path !in disk ==>
        r == None && previousPath == old(previousPath) && previousLabels == old(previousLabels)
    {
      if previousPath == Some(path) {
        return previousLabels;
      }
      if path in disk {
        r := Some(Flat(disk[path]));
        previousPath := Some(path);
        previousLabels := r;
      } else {
        r := None;
      }
    }

    /** `reload_index(index_path)`: forget the cached path, then load from the file. */
    method ReloadIndex(disk: map<string, map<int, int>>, path: string) returns (r: Option<Index>)
      modifies this
      ensures path in disk ==> r == Some(Flat(disk[path])) && previousPath == Some(path) && previousLabels == r
      ensures path !in disk ==> r == None && previousPath == None && previousLabels == old(previousLabels)
    {
      previousPath := None;
      r := GetIndex(disk, path);
    }

    /**
     * `save_reversed_index(path, index, column)`: the file receives the
     * reversed map, but the cache holds the un-reversed `index` under that
     * path. A column past either end of a list index raises before anything
     * is written. `order` is the iteration order of the dict being reversed.
     */
    method SaveReversedIndex(disk: map<string, map<int, int>>, path: string, index: Index, column: int, order: seq<int>)
      returns (disk': map<string, map<int, int>>, r: Result<()>)
      requires index.Flat? ==> IsKeyOrder(order, index.ids)
      requires index.PerTask? && NdArrays.PyIndex(|index.tables|, column).Some? ==>
        IsKeyOrder(order, index.tables[NdArrays.PyIndex(|index.tables|, column).value])
      modifies this
      ensures r.Ok? <==> (index.Flat? || NdArrays.PyIndex(|index.tables|, column).Some?)
      ensures r.Ok? ==> path in disk' && disk' == disk[path := disk'[path]]
      ensures r.Ok? && index.Flat? ==> IsReversal(index.ids, disk'[path])
      ensures r.Ok? && index.PerTask? ==> IsReversal(index.tables[NdArrays.PyIndex(|index.tables|, column).value], disk'[path])
      ensures r.Ok? ==> previousPath == Some(path) && previousLabels == Some(index)
      ensures r.Raise? ==> r.exc == IndexError && disk' == disk
      ensures r.Raise? ==> previousPath == old(previousPath) && previousLabels == old(previousLabels)
    {
      var reversed := ReverseIndexing(index, column, order);
      if reversed.Raise? {
        return disk, Raise(reversed.exc);
      }
      disk' := disk[path := reversed.value];
      previousPath := Some(path);
      previousLabels := Some(index);
      r := Ok(());
    }

    /** `has_previous_index()`. */
    function HasPreviousIndex(): (b: bool)
      reads this
      ensures b <==> previousLabels != None
    {
      previousLabels.Some?
    }
  }

  /**
   * After a save, loading the same path is served from the cache and returns
   * the un-reversed index, while a reload returns the reversed map from disk.
   */
  method SaveThenLoad(disk: map<string, map<int, int>>, path: string, ids: map<int, int>, order: seq<int>)
    returns (cached: Option<Index>, reloaded: Option<Index>)
    requires IsKeyOrder(order, ids)
    ensures cached == Some(Flat(ids))
    ensures reloaded.Some? && reloaded.value.Flat? && IsReversal(ids, reloaded.value.ids)
  {
    var cache := new IndexCache();
    var disk', saved := cache.SaveReversedIndex(disk, path, Flat(ids), 0, order);
    cached := cache.GetIndex(disk', path);
    reloaded := cache.ReloadIndex(disk', path);
  }
}
