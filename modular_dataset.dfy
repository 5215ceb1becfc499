/**
 * `ModularDataset` of `modular_dataset.py`: a dataset whose sample at an
 * index is the concatenation, along the channel axis, of what each data
 * provider returns for the occurrence at that index, paired with the
 * occurrence's label. Fields are set once, so the dataset is a value and
 * its operations are functions; a provider is its `__getitem__`, a
 * function from the occurrence item to an array, `None`, or an exception.
 */
module ModularDatasets {
  import opened Wrappers
  import opened NdArrays
  import Text

  /** `(str(id), latitude, longitude)`, what every provider is given. */
  datatype Item = Item(id: string, lat: real, lng: real)

  /** A provider's `__getitem__`: an array, `None`, or the exception it raises. */
  type Provider = Item -> Result<Option<NdArray>>

  datatype ModularDataset<L> = ModularDataset(
    labels: seq<L>,
    dataset: seq<(real, real)>,   // (latitude, longitude) per occurrence
    ids: seq<int>,
    providers: seq<Provider>)

  /** `__len__`: the number of ids. */
  function Len<L>(d: ModularDataset<L>): nat
  {
    |d.ids|
  }

  /** Every provider called on the same item, in provider order; the first exception propagates. */
  function Collect(providers: seq<Provider>, item: Item): (r: Result<seq<Option<NdArray>>>)
    ensures r.Ok? <==> forall k :: 0 <= k < |providers| ==> providers[k](item).Ok?
    ensures r.Ok? ==> |r.value| == |providers| && forall k :: 0 <= k < |providers| ==> r.value[k] == providers[k](item).value
    ensures r.Raise? ==> exists k :: (0 <= k < |providers| && providers[k](item) == Raise(r.exc)
      && forall j :: 0 <= j < k ==> providers[j](item).Ok?)
  {
    if providers == [] then Ok([])
    else
      var first := providers[0](item);
      if first.Raise? then Raise(first.exc)
      else
        var rest := Collect(providers[1..], item);
        if rest.Raise? then
          assert forall k :: 0 <= k < |providers| - 1 ==> providers[1..][k] == providers[k + 1];
          Raise(rest.exc)
        else Ok([first.value] + rest.value)
  }

  /** The item of occurrence `idx`, or IndexError from `dataset[idx]` or `ids[idx]`. */
  function ItemAt<L>(d: ModularDataset<L>, idx: int): (r: Result<Item>)
    ensures r.Ok? <==> PyIndex(|d.dataset|, idx).Some? && PyIndex(|d.ids|, idx).Some?
    ensures r.Raise? ==> r.exc == IndexError
    ensures 0 <= idx < |d.dataset| && idx < |d.ids| ==>
      r == Ok(Item(Text.IntToString(d.ids[idx]), d.dataset[idx].0, d.dataset[idx].1))
  {
    var row := PyIndex(|d.dataset|, idx);
    var id := PyIndex(|d.ids|, idx);
    if row.None? || id.None? then Raise(IndexError)
    else Ok(Item(Text.IntToString(d.ids[id.value]), d.dataset[row.value].0, d.dataset[row.value].1))
  }

  /** The numbers of a numeric array. */
  function Values(a: NdArray): (xs: seq<real>)
    requires NdArrays.Numeric(a)
    ensures Lift(xs) == a.data
  {
    var xs := seq(|a.data|, k requires 0 <= k < |a.data| => a.data[k].value);
    assert Lift(xs) == a.data;
    xs
  }

  /**
   * `__getitem__(idx)`: the providers' outputs for the item at `idx`
   * concatenated in provider order; `astype(float)` fails on a `None`
   * element (TypeError); the label is `labels[idx]`.
   */
  function GetItem<L>(d: ModularDataset<L>, idx: int): (r: Result<(NdArray, L)>)
    ensures r.Ok? ==> NdArrays.Numeric(r.value.0) && |r.value.0.shape| >= 1
    ensures r.Ok? ==> PyIndex(|d.labels|, idx).Some? && r.value.1 == d.labels[PyIndex(|d.labels|, idx).value]
  {
    var item := ItemAt(d, idx);
    if item.Raise? then Raise(item.exc)
    else
      var parts := Collect(d.providers, item.value);
      if parts.Raise? then Raise(parts.exc)
      else
        var tensor := Concatenate(parts.value);
        if tensor.Raise? then Raise(tensor.exc)
        else if !NdArrays.Numeric(tensor.value) then Raise(TypeError)
        else
          var k := PyIndex(|d.labels|, idx);
          if k.None? then Raise(IndexError) else Ok((tensor.value, d.labels[k.value]))
  }

  /**
   * A sample is made of every provider's array for the same item, in
   * provider order: provider `k`'s array sits unchanged at its offset, and
   * the channel count is the sum of the providers' channel counts.
   */
  lemma GetItemParts<L>(d: ModularDataset<L>, idx: int, k: nat)
    requires GetItem(d, idx).Ok? && k < |d.providers|
    ensures ItemAt(d, idx).Ok?
    ensures var parts := Collect(d.providers, ItemAt(d, idx).value);
      && parts.Ok? && Joinable(parts.value)
      && d.providers[k](ItemAt(d, idx).value) == Ok(parts.value[k])
      && GetItem(d, idx).value.0.shape[0] == Channels(parts.value)
      && GetItem(d, idx).value.0.shape[1..] == parts.value[k].value.shape[1..]
      && Offset(parts.value, k) + |parts.value[k].value.data| <= |GetItem(d, idx).value.0.data|
      && GetItem(d, idx).value.0.data[Offset(parts.value, k)..Offset(parts.value, k) + |parts.value[k].value.data|]
         == parts.value[k].value.data
  {
    var parts := Collect(d.providers, ItemAt(d, idx).value).value;
    JoinDataPart(parts, k);
  }

  /** A provider that raises makes the sample raise the first such exception; `None` from a provider is a ValueError. */
  lemma GetItemFailures<L>(d: ModularDataset<L>, idx: int, k: nat)
    requires ItemAt(d, idx).Ok? && k < |d.providers|
    requires forall j :: 0 <= j < k ==> d.providers[j](ItemAt(d, idx).value).Ok?
    ensures d.providers[k](ItemAt(d, idx).value).Raise? ==>
      GetItem(d, idx) == Raise(d.providers[k](ItemAt(d, idx).value).exc)
    ensures d.providers[k](ItemAt(d, idx).value) == Ok(None) && Collect(d.providers, ItemAt(d, idx).value).Ok? ==>
      GetItem(d, idx) == Raise(ValueError)
  {
    var item := ItemAt(d, idx).value;
    var c := Collect(d.providers, item);
    if d.providers[k](item).Raise? {
      assert c.Raise?;
      var k' :| 0 <= k' < |d.providers| && d.providers[k'](item) == Raise(c.exc)
        && forall j :: 0 <= j < k' ==> d.providers[j](item).Ok?;
      assert k' == k;
    }
    if d.providers[k](item) == Ok(None) && c.Ok? {
      assert c.value[k] == None;
      assert !Joinable(c.value);
    }
  }

  /** Inside every list, the sample at `idx` carries `labels[idx]` and is built from occurrence `idx`'s item. */
  lemma GetItemInRange<L>(d: ModularDataset<L>, idx: int)
    requires 0 <= idx < |d.dataset| && idx < |d.ids|
    requires GetItem(d, idx).Ok?
    ensures GetItem(d, idx).value.1 == d.labels[idx]
    ensures ItemAt(d, idx) == Ok(Item(Text.IntToString(d.ids[idx]), d.dataset[idx].0, d.dataset[idx].1))
  {
  }

  /** With a single provider the sample is that provider's array. */
  lemma GetItemOneProvider<L>(d: ModularDataset<L>, idx: int, a: NdArray)
    requires |d.providers| == 1 && ItemAt(d, idx).Ok?
    requires d.providers[0](ItemAt(d, idx).value) == Ok(Some(a))
    requires |a.shape| >= 1 && NdArrays.Numeric(a) && 0 <= idx < |d.labels|
    ensures GetItem(d, idx) == Ok((a, d.labels[idx]))
  {
    var item := ItemAt(d, idx).value;
    assert d.providers[1..] == [];
    assert Collect(d.providers, item) == Ok([Some(a)] + []);
    assert [Some(a)] + [] == [Some(a)];
    ConcatenateOne(a);
  }

  /**
   * The first `n` rows of `numpy()`: for each index in order, the
   * sample's array flattened; the first failing sample's exception
   * propagates.
   */
  function Rows<L>(d: ModularDataset<L>, n: nat): (r: Result<seq<seq<real>>>)
    requires n <= Len(d)
    ensures r.Ok? ==> |r.value| == n
    ensures r.Ok? ==> forall i :: 0 <= i < n ==> GetItem(d, i).Ok? && Lift(r.value[i]) == GetItem(d, i).value.0.data
    ensures r.Raise? ==> exists i :: 0 <= i < n && GetItem(d, i) == Raise(r.exc)
  {
    if n == 0 then Ok([])
    else
      var before := Rows(d, n - 1);
      if before.Raise? then Raise(before.exc)
      else
        var s := GetItem(d, n - 1);
        if s.Raise? then Raise(s.exc) else Ok(before.value + [Values(s.value.0)])
  }

  /** `numpy()` over the whole dataset. */
  function ToNumpy<L>(d: ModularDataset<L>): (r: Result<seq<seq<real>>>)
    ensures r.Ok? ==> |r.value| == Len(d)
    ensures r.Ok? ==> forall i :: 0 <= i < Len(d) ==> GetItem(d, i).Ok? && Lift(r.value[i]) == GetItem(d, i).value.0.data
  {
    Rows(d, Len(d))
  }

  /** `numpy()` succeeds exactly when every sample does. */
  lemma {:induction false} RowsOk<L>(d: ModularDataset<L>, n: nat)
    requires n <= Len(d)
    ensures Rows(d, n).Ok? <==> forall i :: 0 <= i < n ==> GetItem(d, i).Ok?
  {
    if n > 0 {
      RowsOk(d, n - 1);
    }
  }
}
