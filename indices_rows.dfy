/**
 * The per-point and per-species logic of src/model/indices.py: the
 * probability threshold, the out-of-range filter, renormalisation, the
 * status precedence between ground truth and predictions, the species ->
 * status dictionary, the summed probability of a status ("sumap") and the
 * worst-status category of a point.
 *
 * A point's predictions are its class ids and their probabilities, two
 * parallel lists; probabilities are exact reals.
 */
module IndicesRows {
  import opened Wrappers
  import opened Numeric

  // ---------------------------------------------------------------------------
  // Parallel lists

  /** The class ids of one point and their probabilities. */
  datatype Preds = Preds(classes: seq<int>, probas: seq<real>)

  function Zip<A, B>(a: seq<A>, b: seq<B>): (r: seq<(A, B)>)
    requires |a| == |b|
    ensures |r| == |a|
    ensures forall i :: 0 <= i < |a| ==> r[i] == (a[i], b[i])
  {
    seq(|a|, i requires 0 <= i < |a| => (a[i], b[i]))
  }

  /** NumPy boolean-mask selection `s[sel]` for a mask of the same length. */
  function Mask<T>(s: seq<T>, sel: seq<bool>): (r: seq<T>)
    requires |s| == |sel|
    ensures |r| <= |s|
    ensures forall x :: x in r ==> x in s
  {
    if s == [] then [] else (if sel[0] then [s[0]] else []) + Mask(s[1..], sel[1..])
  }

  /** A mask keeps every flagged element, and every element it keeps is a flagged one. */
  lemma {:induction false} MaskMembers<T>(s: seq<T>, sel: seq<bool>)
    requires |s| == |sel|
    ensures forall i :: 0 <= i < |s| && sel[i] ==> s[i] in Mask(s, sel)
    ensures forall x :: x in Mask(s, sel) ==> exists i :: 0 <= i < |s| && sel[i] && s[i] == x
  {
    if s != [] {
      MaskMembers(s[1..], sel[1..]);
      var t := Mask(s[1..], sel[1..]);
      assert Mask(s, sel) == (if sel[0] then [s[0]] else []) + t;
      forall i | 0 <= i < |s| && sel[i]
        ensures s[i] in Mask(s, sel)
      {
        if i > 0 {
          assert s[1..][i - 1] == s[i] && sel[1..][i - 1];
        }
      }
      forall x | x in Mask(s, sel)
        ensures exists i :: 0 <= i < |s| && sel[i] && s[i] == x
      {
        if sel[0] && x == s[0] {
          assert sel[0] && s[0] == x;
        } else {
          assert x in t;
          var j :| 0 <= j < |s| - 1 && sel[1..][j] && s[1..][j] == x;
          assert sel[j + 1] && s[j + 1] == x;
        }
      }
    }
  }

  /** Masking two parallel lists with one mask keeps them parallel, pair by pair. */
  lemma {:induction false} MaskZip<A, B>(a: seq<A>, b: seq<B>, sel: seq<bool>)
    requires |a| == |b| == |sel|
    ensures |Mask(a, sel)| == |Mask(b, sel)|
    ensures Zip(Mask(a, sel), Mask(b, sel)) == Mask(Zip(a, b), sel)
  {
    if a != [] {
      MaskZip(a[1..], b[1..], sel[1..]);
      assert Zip(a, b)[1..] == Zip(a[1..], b[1..]);
      var ha: seq<A> := if sel[0] then [a[0]] else [];
      var hb: seq<B> := if sel[0] then [b[0]] else [];
      ZipAppend(ha, Mask(a[1..], sel[1..]), hb, Mask(b[1..], sel[1..]));
    }
  }

  lemma ZipAppend<A, B>(a1: seq<A>, a2: seq<A>, b1: seq<B>, b2: seq<B>)
    requires |a1| == |b1| && |a2| == |b2|
    ensures Zip(a1 + a2, b1 + b2) == Zip(a1, b1) + Zip(a2, b2)
  {}

  /**
   * `arr[selector]` where `selector` is a Python list of booleans: an empty
   * list is an (empty) integer index and selects nothing; otherwise its
   * length must match the array's (IndexError).
   */
  function ListIndex<T>(s: seq<T>, sel: seq<bool>): (r: Result<seq<T>>)
    ensures sel == [] ==> r == Ok([])
    ensures sel != [] ==> (r.Ok? <==> |sel| == |s|)
    ensures r.Raise? ==> r.exc == IndexError
  {
    if sel == [] then Ok([])
    else if |sel| != |s| then Raise(IndexError)
    else Ok(Mask(s, sel))
  }

  /**
   * `arr[mask]` where `mask` is a NumPy boolean array: its length must
   * match the array's, even when it is empty (IndexError).
   */
  function ArrayIndex<T>(s: seq<T>, sel: seq<bool>): (r: Result<seq<T>>)
    ensures r.Ok? <==> |sel| == |s|
    ensures r.Raise? ==> r.exc == IndexError
  {
    if |sel| != |s| then Raise(IndexError) else Ok(Mask(s, sel))
  }

  // ---------------------------------------------------------------------------
  // appliesT (src/model/indices.py:66-69)

  /** `[p for p in probas if p >= T]`. */
  function AtLeast(ps: seq<real>, t: real): (r: seq<real>)
    ensures |r| <= |ps|
    ensures forall i :: 0 <= i < |r| ==> r[i] >= t
    ensures forall p :: p in r <==> p in ps && p >= t
  {
    if ps == [] then []
    else
      assert ps == [ps[0]] + ps[1..];
      (if ps[0] >= t then [ps[0]] else []) + AtLeast(ps[1..], t)
  }

  /** `appliesT` on one point: filter the probabilities, then cut the classes to as many. */
  function AppliesT(p: Preds, t: real): (r: Preds)
    ensures |r.probas| <= |p.probas| && |r.classes| <= |p.classes|
  {
    var probas := AtLeast(p.probas, t);
    Preds(PySlice(p.classes, 0, |probas|), probas)
  }

  /** The pairs whose probability reaches `t`: the intended effect of the threshold. */
  function PairsAtLeast(pairs: seq<(int, real)>, t: real): seq<(int, real)>
  {
    if pairs == [] then []
    else (if pairs[0].1 >= t then [pairs[0]] else []) + PairsAtLeast(pairs[1..], t)
  }

  ghost predicate NonIncreasing(ps: seq<real>)
  {
    forall i, j :: 0 <= i < j < |ps| ==> ps[i] >= ps[j]
  }

  /**
   * On equal-length lists the threshold keeps the lists equal in length,
   * keeps only probabilities of at least `t`, and keeps a prefix of the classes.
   */
  lemma AppliesTAligned(p: Preds, t: real)
    requires |p.classes| == |p.probas|
    ensures |AppliesT(p, t).classes| == |AppliesT(p, t).probas|
    ensures forall i :: 0 <= i < |AppliesT(p, t).probas| ==> AppliesT(p, t).probas[i] >= t
    ensures AppliesT(p, t).classes == p.classes[..|AppliesT(p, t).classes|]
  {}

  lemma {:induction false} AtLeastNoneReach(c: seq<int>, ps: seq<real>, t: real)
    requires |c| == |ps|
    requires forall i :: 0 <= i < |ps| ==> ps[i] < t
    ensures AtLeast(ps, t) == []
    ensures PairsAtLeast(Zip(c, ps), t) == []
  {
    if ps != [] {
      assert Zip(c, ps)[1..] == Zip(c[1..], ps[1..]);
      AtLeastNoneReach(c[1..], ps[1..], t);
    }
  }

  /** On non-increasing probabilities, the filtered probabilities and pairs are one prefix. */
  lemma {:induction false} SortedThresholdIsPrefix(c: seq<int>, ps: seq<real>, t: real)
    requires |c| == |ps| && NonIncreasing(ps)
    ensures AtLeast(ps, t) == ps[..|AtLeast(ps, t)|]
    ensures PairsAtLeast(Zip(c, ps), t) == Zip(c, ps)[..|AtLeast(ps, t)|]
  {
    if ps != [] {
      var z := Zip(c, ps);
      assert z[1..] == Zip(c[1..], ps[1..]);
      if ps[0] >= t {
        SortedThresholdIsPrefix(c[1..], ps[1..], t);
        var k := |AtLeast(ps[1..], t)|;
        assert AtLeast(ps, t) == [ps[0]] + ps[1..][..k];
        assert [ps[0]] + ps[1..][..k] == ps[..k + 1];
        assert PairsAtLeast(z, t) == [z[0]] + z[1..][..k];
        assert [z[0]] + z[1..][..k] == z[..k + 1];
      } else {
        AtLeastNoneReach(c, ps, t);
      }
    }
  }

  /**
   * Because `classes` is cut to a prefix rather than filtered, the kept
   * (class, probability) pairs are exactly the pairs reaching `t` when the
   * probabilities are in non-increasing order, as the export writes them.
   */
  lemma AppliesTKeepsPairs(p: Preds, t: real)
    requires |p.classes| == |p.probas| && NonIncreasing(p.probas)
    ensures |AppliesT(p, t).classes| == |AppliesT(p, t).probas|
    ensures Zip(AppliesT(p, t).classes, AppliesT(p, t).probas) == PairsAtLeast(Zip(p.classes, p.probas), t)
  {
    SortedThresholdIsPrefix(p.classes, p.probas, t);
    var k := |AtLeast(p.probas, t)|;
    assert Zip(p.classes[..k], p.probas[..k]) == Zip(p.classes, p.probas)[..k];
  }

  /** Out of order, the cut pairs a kept probability with another class. */
  lemma AppliesTUnsortedMisaligns()
    ensures AppliesT(Preds([1, 2], [0.1, 0.9]), 0.5) == Preds([1], [0.9])
    ensures PairsAtLeast(Zip([1, 2], [0.1, 0.9]), 0.5) == [(2, 0.9)]
  {
    assert AtLeast([0.1, 0.9], 0.5) == [0.9] by {
      assert [0.1, 0.9][1..] == [0.9];
      assert AtLeast([0.9], 0.5) == [0.9] by {
        assert [0.9][1..] == [];
      }
    }
    var z: seq<(int, real)> := Zip([1, 2], [0.1, 0.9]);
    assert z == [(1, 0.1), (2, 0.9)];
    assert z[1..] == [(2, 0.9)];
    assert z[1..][1..] == [];
  }

  // ---------------------------------------------------------------------------
  // removes_oor_species / applies_oor_filter (src/model/indices.py:108-118)

  /** `DZ[1]`: the level-1 region codes of each species' range, by species key. */
  type RangeMap = map<int, seq<int>>

  /** `[region in DZ[1][spK] for spK in classes]`; a class without a range raises KeyError. */
  function OorSelector(classes: seq<int>, region: int, dz: RangeMap): (r: Result<seq<bool>>)
    ensures r.Ok? <==> forall i :: 0 <= i < |classes| ==> classes[i] in dz
    ensures r.Raise? ==> r.exc == KeyError
    ensures r.Ok? ==> |r.value| == |classes|
    ensures r.Ok? ==> forall i :: 0 <= i < |classes| ==> (r.value[i] <==> region in dz[classes[i]])
  {
    if classes == [] then Ok([])
    else if classes[0] !in dz then Raise(KeyError)
    else
      var rest := OorSelector(classes[1..], region, dz);
      if rest.Raise? then rest
      else Ok([region in dz[classes[0]]] + rest.value)
  }

  /** `removes_oor_species` on one point in region `region`. */
  function RemovesOorSpecies(p: Preds, region: int, dz: RangeMap): (r: Result<Preds>)
    ensures r.Raise? ==> r.exc == KeyError || r.exc == IndexError
    ensures r.Ok? ==> |r.value.classes| <= |p.classes|
    ensures r.Ok? ==> forall c :: c in r.value.classes ==> c in dz && region in dz[c]
  {
    var sel := OorSelector(p.classes, region, dz);
    if sel.Raise? then Raise(sel.exc)
    else
      MaskMembers(p.classes, sel.value);
      var classes := ListIndex(p.classes, sel.value);
      var probas := ListIndex(p.probas, sel.value);
      if classes.Raise? then Raise(classes.exc)
      else if probas.Raise? then Raise(probas.exc)
      else Ok(Preds(classes.value, probas.value))
  }

  /** The pairs whose species range contains `region`: the intended effect of the filter. */
  function PairsInRange(pairs: seq<(int, real)>, region: int, dz: RangeMap): seq<(int, real)>
    requires forall i :: 0 <= i < |pairs| ==> pairs[i].0 in dz
  {
    if pairs == [] then []
    else (if region in dz[pairs[0].0] then [pairs[0]] else []) + PairsInRange(pairs[1..], region, dz)
  }

  lemma {:induction false} MaskIsPairsInRange(pairs: seq<(int, real)>, sel: seq<bool>, region: int, dz: RangeMap)
    requires |pairs| == |sel|
    requires forall i :: 0 <= i < |pairs| ==> pairs[i].0 in dz && (sel[i] <==> region in dz[pairs[i].0])
    ensures Mask(pairs, sel) == PairsInRange(pairs, region, dz)
  {
    if pairs != [] {
      MaskIsPairsInRange(pairs[1..], sel[1..], region, dz);
    }
  }

  /**
   * On equal-length lists the filter fails exactly when a class has no range
   * (KeyError), and otherwise keeps exactly the (class, probability) pairs
   * whose range contains the point's region, in their order.
   */
  lemma OorFilterKeepsInRangePairs(p: Preds, region: int, dz: RangeMap)
    requires |p.classes| == |p.probas|
    ensures RemovesOorSpecies(p, region, dz).Ok? <==> forall i :: 0 <= i < |p.classes| ==> p.classes[i] in dz
    ensures RemovesOorSpecies(p, region, dz).Raise? ==> RemovesOorSpecies(p, region, dz).exc == KeyError
    ensures RemovesOorSpecies(p, region, dz).Ok? ==>
      var q := RemovesOorSpecies(p, region, dz).value;
      |q.classes| == |q.probas| && Zip(q.classes, q.probas) == PairsInRange(Zip(p.classes, p.probas), region, dz)
  {
    var sel := OorSelector(p.classes, region, dz);
    if sel.Ok? {
      MaskZip(p.classes, p.probas, sel.value);
      MaskIsPairsInRange(Zip(p.classes, p.probas), sel.value, region, dz);
    }
  }

  // ---------------------------------------------------------------------------
  // normAbT and computes_empty_preds (src/model/indices.py:121-124, 274-279)

  /**
   * `probas / np.sum(probas)`. A row summing to 0 has every entry divided by
   * zero, and NumPy gives infinities or NaN, which no real number is:
   * `byZero(p)` stands for the float that `p / 0.0` yields. An empty row
   * stays empty.
   */
  function NormAbT(ps: seq<real>, byZero: real -> real): (r: seq<real>)
    ensures |r| == |ps|
    ensures Sum(ps) != 0.0 ==> forall i :: 0 <= i < |ps| ==> r[i] == ps[i] / Sum(ps)
    ensures Sum(ps) == 0.0 ==> forall i :: 0 <= i < |ps| ==> r[i] == byZero(ps[i])
  {
    if Sum(ps) == 0.0 then seq(|ps|, i requires 0 <= i < |ps| => byZero(ps[i])) else DivideAll(ps, Sum(ps))
  }

  /** Renormalised positive probabilities sum to 1 and keep their order. */
  lemma NormAbTSumsToOne(ps: seq<real>, byZero: real -> real)
    requires ps != [] && forall i :: 0 <= i < |ps| ==> ps[i] > 0.0
    ensures Sum(ps) > 0.0
    ensures Sum(NormAbT(ps, byZero)) == 1.0
    ensures forall i, j :: 0 <= i < |ps| && 0 <= j < |ps| && ps[i] >= ps[j] ==> NormAbT(ps, byZero)[i] >= NormAbT(ps, byZero)[j]
  {
    SumPositive(ps);
    NormAbTSum(ps, byZero);
    forall i, j | 0 <= i < |ps| && 0 <= j < |ps| && ps[i] >= ps[j]
      ensures NormAbT(ps, byZero)[i] >= NormAbT(ps, byZero)[j]
    {
      DivideMonotone(ps[i], ps[j], Sum(ps));
    }
  }

  /** A row with a positive sum is divided by it: the sum of the quotients is 1. */
  lemma NormAbTSum(ps: seq<real>, byZero: real -> real)
    requires ps != [] && Sum(ps) > 0.0
    ensures Sum(NormAbT(ps, byZero)) == 1.0
  {
    var s := Sum(ps);
    SumDivideAll(ps, s);
    SelfQuotient(s);
  }

  lemma SelfQuotient(s: real)
    requires s > 0.0
    ensures s / s == 1.0
  {
  }

  lemma DivideMonotone(a: real, b: real, s: real)
    requires s > 0.0 && a >= b
    ensures a / s >= b / s
  {
    assert a / s - b / s == (a - b) / s;
  }

  /** `len(probas) == 0`: no prediction reached the threshold. */
  function IsEmpty(p: Preds): (b: bool)
    ensures b <==> |p.probas| == 0
  {
    |p.probas| == 0
  }

  // ---------------------------------------------------------------------------
  // status_table, threat_binary, pred_threat (src/model/indices.py:138-211)

  /**
   * One species after the left joins of status_table: its key, its ground
   * truth IUCN category (`GT`), its binary prediction label and its
   * predicted status, each possibly missing (NA).
   */
  datatype SpeciesRecord = SpeciesRecord(speciesKey: int, gt: Option<string>, pred: Option<string>, predS: Option<string>)

  /** The IUCN categories from least to most threatened, as the default `Lstats` lists them. */
  const IucnLadder: seq<string> := ["LC", "NT", "VU", "EN", "CR"]

  /** `threat_binary`: a ground-truth category is a threat category, VU or worse on the ladder. */
  predicate ThreatBinary(gt: string)
    ensures ThreatBinary(gt) <==> exists i :: 2 <= i < |IucnLadder| && IucnLadder[i] == gt
  {
    assert IucnLadder[2] == "VU" && IucnLadder[3] == "EN" && IucnLadder[4] == "CR";

    gt == "VU" || gt == "EN" || gt == "CR"
  }

  /** `pred_threat`: the binary prediction says "Threatened". */
  predicate PredThreat(pred: string)
    ensures pred == "Threatened" ==> PredThreat(pred)
    ensures pred == "Not Threatened" ==> !PredThreat(pred)
  {
    pred == "Threatened"
  }

  function GTb(r: SpeciesRecord): Option<bool>
  {
    if r.gt.Some? then Some(ThreatBinary(r.gt.value)) else None
  }

  function PredB(r: SpeciesRecord): Option<bool>
  {
    if r.pred.Some? then Some(PredThreat(r.pred.value)) else None
  }

  function PredBOnly(r: SpeciesRecord): Option<bool>
  {
    if r.gt.None? then PredB(r) else None
  }

  function PredSOnly(r: SpeciesRecord): Option<string>
  {
    if r.gt.None? then r.predS else None
  }

  function PredBOnGT(r: SpeciesRecord): Option<bool>
  {
    if r.gt.None? then None else PredB(r)
  }

  function PredSOnGT(r: SpeciesRecord): Option<string>
  {
    if r.gt.None? then None else r.predS
  }

  function GtOrPredB(r: SpeciesRecord): Option<bool>
  {
    if r.gt.None? then PredB(r) else GTb(r)
  }

  function GtOrPredS(r: SpeciesRecord): Option<string>
  {
    if r.gt.None? then r.predS else r.gt
  }

  function Either<T>(a: Option<T>, b: Option<T>): Option<T>
  {
    if a.Some? then a else b
  }

  /**
   * The "only" and "on GT" columns split each prediction by whether the
   * ground truth is known: never both present, and together they give back
   * the prediction.
   */
  lemma PredictionsSplitByGroundTruth(r: SpeciesRecord)
    ensures PredSOnly(r).None? || PredSOnGT(r).None?
    ensures Either(PredSOnly(r), PredSOnGT(r)) == r.predS
    ensures PredBOnly(r).None? || PredBOnGT(r).None?
    ensures Either(PredBOnly(r), PredBOnGT(r)) == PredB(r)
    ensures PredSOnly(r).Some? ==> r.gt.None?
    ensures PredSOnGT(r).Some? ==> r.gt.Some?
  {}

  /**
   * Ground truth takes precedence: where it is known the status column is
   * the ground truth and the binary column is its threat class; elsewhere
   * both columns are the predictions.
   */
  lemma GroundTruthPrecedence(r: SpeciesRecord)
    ensures r.gt.Some? ==> GtOrPredS(r) == r.gt && GtOrPredB(r) == Some(ThreatBinary(r.gt.value))
    ensures r.gt.None? ==> GtOrPredS(r) == r.predS && GtOrPredB(r) == PredB(r)
    ensures GtOrPredB(r) == Either(GTb(r), PredB(r))
  {}

  // ---------------------------------------------------------------------------
  // threat_dict (src/model/indices.py:220-230)

  datatype Level = B | S
  datatype Source = Comp | Iucn

  /** A status column value: a threat flag (level B) or an IUCN category (level S). */
  datatype Status = Flag(threatened: bool) | Label(category: string)

  /** The column `threat_dict` reads: `GT_o_pred_<level>` for comp; `GT` or `GTb` for iucn. */
  function Column(r: SpeciesRecord, level: Level, source: Source): (v: Option<Status>)
    ensures level == B ==> v.None? || v.value.Flag?
    ensures level == S ==> v.None? || v.value.Label?
  {
    match (source, level)
    case (Comp, B) => if GtOrPredB(r).Some? then Some(Flag(GtOrPredB(r).value)) else None
    case (Comp, S) => if GtOrPredS(r).Some? then Some(Label(GtOrPredS(r).value)) else None
    case (Iucn, B) => if GTb(r).Some? then Some(Flag(GTb(r).value)) else None
    case (Iucn, S) => if r.gt.Some? then Some(Label(r.gt.value)) else None
  }

  /** `dict(zip(keys, values))`: species key -> column value; a repeated key keeps its last value. */
  function ThreatDict(table: seq<SpeciesRecord>, level: Level, source: Source): (d: map<int, Option<Status>>)
    ensures forall i :: 0 <= i < |table| ==> table[i].speciesKey in d
    ensures forall k :: k in d ==> exists i :: 0 <= i < |table| && table[i].speciesKey == k
  {
    if table == [] then map[]
    else
      var last := table[|table| - 1];
      ThreatDict(table[..|table| - 1], level, source)[last.speciesKey := Column(last, level, source)]
  }

  /** Each species key maps to the column value of its last row. */
  lemma {:induction false} ThreatDictLastWins(table: seq<SpeciesRecord>, level: Level, source: Source, i: nat)
    requires i < |table|
    requires forall j :: i < j < |table| ==> table[j].speciesKey != table[i].speciesKey
    ensures ThreatDict(table, level, source)[table[i].speciesKey] == Column(table[i], level, source)
  {
    if i < |table| - 1 {
      ThreatDictLastWins(table[..|table| - 1], level, source, i);
    }
  }

  // ---------------------------------------------------------------------------
  // classes_selector / matching_probas / sumap (src/model/indices.py:233-255)

  /** Which sum is taken: the binary threat flag, or one IUCN status. */
  datatype SumapKind = Binary | OfStatus(status: string)

  /**
   * Whether a class is selected: for the binary sum, a present flag that is
   * true; for a status, a present value equal to it (a flag never equals a
   * status string).
   */
  predicate Selected(v: Option<Status>, kind: SumapKind)
  {
    match kind
    case Binary => v == Some(Flag(true))
    case OfStatus(s) => v == Some(Label(s))
  }

  /** `classes_selector`: one flag per class; a class missing from `D` raises KeyError. */
  function ClassesSelector(classes: seq<int>, d: map<int, Option<Status>>, kind: SumapKind): (r: Result<seq<bool>>)
    ensures r.Ok? <==> forall i :: 0 <= i < |classes| ==> classes[i] in d
    ensures r.Raise? ==> r.exc == KeyError
    ensures r.Ok? ==> |r.value| == |classes|
    ensures r.Ok? ==> forall i :: 0 <= i < |classes| ==> (r.value[i] <==> Selected(d[classes[i]], kind))
  {
    if classes == [] then Ok([])
    else if classes[0] !in d then Raise(KeyError)
    else
      var rest := ClassesSelector(classes[1..], d, kind);
      if rest.Raise? then rest
      else Ok([Selected(d[classes[0]], kind)] + rest.value)
  }

  /** The value `sumap` stores for one point: the sum of the selected probabilities. */
  function Sumap(p: Preds, d: map<int, Option<Status>>, kind: SumapKind): Result<real>
  {
    var sel := ClassesSelector(p.classes, d, kind);
    if sel.Raise? then Raise(sel.exc)
    else
      var probas := ArrayIndex(p.probas, sel.value);
      if probas.Raise? then Raise(probas.exc) else Ok(Sum(probas.value))
  }

  /** Reference: the sum of the probabilities whose class is selected. */
  function SumSelected(classes: seq<int>, probas: seq<real>, d: map<int, Option<Status>>, kind: SumapKind): real
    requires |classes| == |probas|
    requires forall i :: 0 <= i < |classes| ==> classes[i] in d
  {
    if classes == [] then 0.0
    else (if Selected(d[classes[0]], kind) then probas[0] else 0.0) + SumSelected(classes[1..], probas[1..], d, kind)
  }

  lemma {:induction false} SumMaskIsSumSelected(classes: seq<int>, probas: seq<real>, sel: seq<bool>, d: map<int, Option<Status>>, kind: SumapKind)
    requires |classes| == |probas| == |sel|
    requires forall i :: 0 <= i < |classes| ==> classes[i] in d && (sel[i] <==> Selected(d[classes[i]], kind))
    ensures Sum(Mask(probas, sel)) == SumSelected(classes, probas, d, kind)
  {
    if classes != [] {
      SumMaskIsSumSelected(classes[1..], probas[1..], sel[1..], d, kind);
      var head: seq<real> := if sel[0] then [probas[0]] else [];
      SumAppend(head, Mask(probas[1..], sel[1..]));
    }
  }

  /**
   * The sumap of a point is the sum of the probabilities of its classes
   * whose status matches, 0 for a point without predictions; it raises
   * KeyError for a class missing from the dictionary and IndexError when
   * the lists differ in length.
   */
  lemma SumapIsSumOfMatching(p: Preds, d: map<int, Option<Status>>, kind: SumapKind)
    ensures (forall i :: 0 <= i < |p.classes| ==> p.classes[i] in d) && |p.classes| == |p.probas| <==>
      Sumap(p, d, kind).Ok?
    ensures Sumap(p, d, kind).Ok? ==> Sumap(p, d, kind).value == SumSelected(p.classes, p.probas, d, kind)
    ensures (exists i :: 0 <= i < |p.classes| && p.classes[i] !in d) ==> Sumap(p, d, kind) == Raise(KeyError)
    ensures p.classes == [] && p.probas == [] ==> Sumap(p, d, kind) == Ok(0.0)
  {
    var sel := ClassesSelector(p.classes, d, kind);
    if sel.Ok? && |p.classes| == |p.probas| {
      SumMaskIsSumSelected(p.classes, p.probas, sel.value, d, kind);
    }
  }

  /** The column `sumap` writes: `source-status`, or `source-level` for the binary sum. */
  function SumapName(source: Source, kind: SumapKind): string
  {
    SourceName(source) + "-" + (match kind case Binary => "B" case OfStatus(s) => s)
  }

  /** A sumap column is the source's name, a "-", then the status, or "B" for the binary sum. */
  lemma SumapNameParts(source: Source, kind: SumapKind)
    ensures var n := SumapName(source, kind);
      && |n| >= 5 && n[..4] == SourceName(source) && n[4] == '-'
      && (kind.OfStatus? ==> n[5..] == kind.status)
      && (kind.Binary? ==> n[5..] == "B")
  {
  }

  function SourceName(source: Source): (s: string)
    ensures |s| == 4 && '-' !in s
  {
    match source case Comp => "comp" case Iucn => "iucn"
  }

  // ---------------------------------------------------------------------------
  // worst_status_cat (src/model/indices.py:283-299)

  /** A Python int stored in a uint8 column: wraps modulo 256. */
  function Uint8(v: int): (b: int)
    ensures 0 <= b < 256
    ensures 0 <= v < 256 ==> b == v
    ensures (v - b) % 256 == 0
  {
    v % 256
  }

  /**
   * The worst status of a point from its per-status sums, in `Lstats`
   * order: one plus the last position whose sum is non-zero, or None when
   * every sum is zero.
   */
  function WorstStatus(sums: seq<real>): (w: Option<nat>)
    ensures w.None? <==> forall j :: 0 <= j < |sums| ==> sums[j] == 0.0
    ensures w.Some? ==> 1 <= w.value <= |sums| && sums[w.value - 1] != 0.0
    ensures w.Some? ==> forall j :: w.value <= j < |sums| ==> sums[j] == 0.0
  {
    if sums == [] then None
    else if sums[|sums| - 1] != 0.0 then Some(|sums|)
    else WorstStatus(sums[..|sums| - 1])
  }

  /** The category code `worst_status_cat` stores: the worst status, or the empty value. */
  function WorstCat(sums: seq<real>, emptyValue: int): int
  {
    var w := WorstStatus(sums);
    Uint8(if w.Some? then w.value else emptyValue)
  }

  /**
   * The stored code is a byte: the empty value when no status sum is
   * non-zero, otherwise (with fewer than 256 statuses) the last non-zero
   * status, counted from 1.
   */
  lemma WorstCatCode(sums: seq<real>, emptyValue: int)
    ensures var c := WorstCat(sums, emptyValue);
      && 0 <= c < 256
      && ((forall j :: 0 <= j < |sums| ==> sums[j] == 0.0) ==> c == Uint8(emptyValue))
      && (|sums| < 256 && (exists j :: 0 <= j < |sums| && sums[j] != 0.0) ==>
            1 <= c <= |sums| && sums[c - 1] != 0.0 && forall j :: c <= j < |sums| ==> sums[j] == 0.0)
  {
  }
}
