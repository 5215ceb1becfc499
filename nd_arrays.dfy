/**
 * NumPy arrays as the data providers build and combine them: a shape and
 * the elements in row-major order, an element being a number or Python's
 * `None` held in an object array. Two-dimensional rasters and patches are
 * grids (rows of numbers); `np.concatenate` along the first axis, Python
 * list indexing and the flattening of grids are defined here.
 */
module NdArrays {
  import opened Wrappers

  /** An array: its shape and its elements in row-major (C) order. */
  datatype NdArray = NdArray(shape: seq<nat>, data: seq<Option<real>>)

  /** The number of elements of an array of the given shape. */
  function Product(shape: seq<nat>): nat
  {
    if shape == [] then 1 else shape[0] * Product(shape[1..])
  }

  /** The element count agrees with the shape. */
  predicate WellShaped(a: NdArray)
  {
    |a.data| == Product(a.shape)
  }

  /** Every element is a number (no `None`): `astype(float)` succeeds. */
  predicate Numeric(a: NdArray)
  {
    forall k :: 0 <= k < |a.data| ==> a.data[k].Some?
  }

  /** `x` as an element. */
  function Lift(xs: seq<real>): (ys: seq<Option<real>>)
    ensures |ys| == |xs| && forall k :: 0 <= k < |xs| ==> ys[k] == Some(xs[k])
  {
    seq(|xs|, k requires 0 <= k < |xs| => Some(xs[k]))
  }

  lemma LiftConcat(a: seq<real>, b: seq<real>)
    ensures Lift(a + b) == Lift(a) + Lift(b)
  {
  }

  // ---------------------------------------------------------------------------
  // Grids.

  /** A two-dimensional array of numbers, as a list of rows. */
  type Grid = seq<seq<real>>

  /** `g` has `h` rows of `w` numbers each. */
  predicate IsRect(g: Grid, h: nat, w: nat)
  {
    |g| == h && forall i :: 0 <= i < h ==> |g[i]| == w
  }

  /** The rows of `g` one after the other (`g.flatten()`). */
  function FlattenGrid(g: Grid): seq<real>
  {
    if g == [] then [] else g[0] + FlattenGrid(g[1..])
  }

  /** A rectangular grid flattens to `h * w` numbers. */
  lemma {:induction false} FlattenGridLength(g: Grid, h: nat, w: nat)
    requires IsRect(g, h, w)
    ensures |FlattenGrid(g)| == h * w
  {
    if g != [] {
      assert IsRect(g[1..], h - 1, w);
      FlattenGridLength(g[1..], h - 1, w);
      assert |FlattenGrid(g)| == w + (h - 1) * w;
    }
  }

  /** The grids of `bands` one after the other. */
  function FlattenBands(bands: seq<Grid>): seq<real>
  {
    if bands == [] then [] else FlattenGrid(bands[0]) + FlattenBands(bands[1..])
  }

  /** `h` by `w` bands flatten to `|bands| * h * w` numbers. */
  lemma {:induction false} FlattenBandsLength(bands: seq<Grid>, h: nat, w: nat)
    requires forall b :: 0 <= b < |bands| ==> IsRect(bands[b], h, w)
    ensures |FlattenBands(bands)| == |bands| * (h * w)
  {
    if bands != [] {
      var hw := h * w;
      FlattenGridLength(bands[0], h, w);
      FlattenBandsLength(bands[1..], h, w);
      assert |FlattenBands(bands)| == hw + (|bands| - 1) * hw;
    }
  }

  /** `np.stack(bands)` of `h` by `w` bands: shape `(len(bands), h, w)`. */
  function StackGrids(bands: seq<Grid>, h: nat, w: nat): (a: NdArray)
    requires forall b :: 0 <= b < |bands| ==> IsRect(bands[b], h, w)
    ensures WellShaped(a) && Numeric(a) && a.shape == [|bands|, h, w]
  {
    FlattenBandsLength(bands, h, w);
    assert [|bands|, h, w][1..] == [h, w] && [h, w][1..] == [w] && [w][1..] == [];
    assert Product([w]) == w;
    assert Product([h, w]) == h * w;
    NdArray([|bands|, h, w], Lift(FlattenBands(bands)))
  }

  /** A one-dimensional array of numbers, shape `(len(xs),)`. */
  function Vector(xs: seq<real>): (a: NdArray)
    ensures WellShaped(a) && Numeric(a) && a.shape == [|xs|]
  {
    NdArray([|xs|], Lift(xs))
  }

  // ---------------------------------------------------------------------------
  // Python indexing.

  /** `s[i]` on a Python list or a NumPy axis: negative `i` counts from the end; out of range raises IndexError. */
  function PyIndex(n: nat, i: int): (k: Option<nat>)
    ensures k.Some? <==> 0 - n <= i < n
    ensures k.Some? ==> k.value < n && (k.value == i || k.value == i + n)
  {
    if 0 <= i < n then Some(i) else if 0 - n <= i < 0 then Some((i + n) as nat) else None
  }

  // ---------------------------------------------------------------------------
  // np.concatenate along the first axis.

  /** The parts can be joined: each is a non-scalar array, all with the first part's trailing shape. */
  predicate Joinable(parts: seq<Option<NdArray>>)
  {
    && parts != []
    && (forall i :: 0 <= i < |parts| ==> parts[i].Some? && |parts[i].value.shape| >= 1)
    && (forall i :: 0 <= i < |parts| ==> parts[i].value.shape[1..] == parts[0].value.shape[1..])
  }

  /** The sum of the parts' first dimensions. */
  function Channels(parts: seq<Option<NdArray>>): nat
    requires forall i :: 0 <= i < |parts| ==> parts[i].Some? && |parts[i].value.shape| >= 1
  {
    if parts == [] then 0 else parts[0].value.shape[0] + Channels(parts[1..])
  }

  /** The parts' elements one after the other. */
  function JoinData(parts: seq<Option<NdArray>>): seq<Option<real>>
    requires forall i :: 0 <= i < |parts| ==> parts[i].Some?
  {
    if parts == [] then [] else parts[0].value.data + JoinData(parts[1..])
  }

  /**
   * `np.concatenate(parts)`: an empty list, a `None` part (a zero-dimensional
   * object array), a zero-dimensional part, or parts whose dimensions after
   * the first differ raise ValueError.
   */
  function Concatenate(parts: seq<Option<NdArray>>): (r: Result<NdArray>)
    ensures r.Ok? <==> Joinable(parts)
    ensures r.Raise? ==> r.exc == ValueError
  {
    if !Joinable(parts) then Raise(ValueError)
    else Ok(NdArray([Channels(parts)] + parts[0].value.shape[1..], JoinData(parts)))
  }

  /** Where the elements of part `k` start in the joined data. */
  function Offset(parts: seq<Option<NdArray>>, k: nat): nat
    requires k <= |parts|
    requires forall i :: 0 <= i < |parts| ==> parts[i].Some?
  {
    if k == 0 then 0 else |parts[0].value.data| + Offset(parts[1..], k - 1)
  }

  /** Part `k`'s elements appear, unchanged, at its offset: the parts keep their order. */
  lemma {:induction false} JoinDataPart(parts: seq<Option<NdArray>>, k: nat)
    requires k < |parts|
    requires forall i :: 0 <= i < |parts| ==> parts[i].Some?
    ensures Offset(parts, k) + |parts[k].value.data| <= |JoinData(parts)|
    ensures JoinData(parts)[Offset(parts, k)..Offset(parts, k) + |parts[k].value.data|] == parts[k].value.data
  {
    var d0 := parts[0].value.data;
    assert JoinData(parts) == d0 + JoinData(parts[1..]);
    if k > 0 {
      JoinDataPart(parts[1..], k - 1);
      var o := Offset(parts[1..], k - 1);
      assert parts[1..][k - 1] == parts[k];
      assert JoinData(parts)[|d0| + o..|d0| + o + |parts[k].value.data|]
          == JoinData(parts[1..])[o..o + |parts[k].value.data|];
    }
  }

  /** Joined parts with the same trailing shape hold `Channels * Product(tail)` elements. */
  lemma {:induction false} JoinDataLength(parts: seq<Option<NdArray>>, tail: seq<nat>)
    requires forall i :: 0 <= i < |parts| ==>
      parts[i].Some? && |parts[i].value.shape| >= 1 && parts[i].value.shape[1..] == tail && WellShaped(parts[i].value)
    ensures |JoinData(parts)| == Channels(parts) * Product(tail)
  {
    if parts != [] {
      JoinDataLength(parts[1..], tail);
      var s := parts[0].value.shape;
      assert Product(s) == s[0] * Product(tail);
    }
  }

  /** Concatenating well-shaped arrays gives a well-shaped array; numbers stay numbers. */
  lemma ConcatenateWellShaped(parts: seq<Option<NdArray>>)
    requires Concatenate(parts).Ok?
    requires forall i :: 0 <= i < |parts| ==> WellShaped(parts[i].value)
    ensures WellShaped(Concatenate(parts).value)
  {
    var tail := parts[0].value.shape[1..];
    JoinDataLength(parts, tail);
    assert ([Channels(parts)] + tail)[1..] == tail;
  }

  /** Concatenating a single non-scalar array gives it back. */
  lemma {:induction false} ConcatenateOne(a: NdArray)
    requires |a.shape| >= 1
    ensures Concatenate([Some(a)]) == Ok(a)
  {
    assert [Some(a)][1..] == [];
    assert Joinable([Some(a)]);
    assert Channels([Some(a)]) == a.shape[0] + Channels([]);
    assert JoinData([Some(a)]) == a.data + JoinData([]);
    assert [a.shape[0]] + a.shape[1..] == a.shape;
    assert JoinData([Some(a)]) == a.data;
    assert Concatenate([Some(a)]) == Ok(NdArray(a.shape, a.data));
  }

  /** The joined array's first dimension is the sum of the parts' first dimensions. */
  lemma {:induction false} ChannelsAppend(parts: seq<Option<NdArray>>, last: NdArray)
    requires forall i :: 0 <= i < |parts| ==> parts[i].Some? && |parts[i].value.shape| >= 1
    requires |last.shape| >= 1
    ensures Channels(parts + [Some(last)]) == Channels(parts) + last.shape[0]
  {
    if parts != [] {
      assert (parts + [Some(last)])[1..] == parts[1..] + [Some(last)];
      ChannelsAppend(parts[1..], last);
    } else {
      assert Channels([Some(last)]) == last.shape[0] + Channels([]);
    }
  }
}
