/**
 * The ecoregion encoding of `raster_provider.py`: the rank dictionary `D`
 * that `Raster.__init__` builds for "ecoregions001" from its sorted
 * category codes, the biome list read from the second and third decimal
 * digits of every key of `D`, and the value a pixel takes in each biome band
 * of `compute_ecoregions_per_biome_patch`.
 */
module Ecoregions {
  import opened Wrappers
  import opened Numeric
  import opened Text

  predicate SortedInts(s: seq<int>)
  {
    forall i, j :: 0 <= i < j < |s| ==> s[i] <= s[j]
  }

  predicate StrictlySorted(s: seq<int>)
  {
    forall i, j :: 0 <= i < j < |s| ==> s[i] < s[j]
  }

  function InsertInt(x: int, s: seq<int>): (r: seq<int>)
    requires SortedInts(s)
    ensures SortedInts(r)
    ensures multiset(r) == multiset(s) + multiset{x}
    ensures |r| == |s| + 1
    ensures r[0] == x || (s != [] && r[0] == s[0])
  {
    if s == [] || x <= s[0] then [x] + s
    else
      var tail := InsertInt(x, s[1..]);
      assert s == [s[0]] + s[1..];
      [s[0]] + tail
  }

  /** `np.sort(xs)`: the same numbers in ascending order. */
  function SortInts(xs: seq<int>): (r: seq<int>)
    ensures SortedInts(r)
    ensures multiset(r) == multiset(xs)
  {
    if xs == [] then []
    else
      assert xs == [xs[0]] + xs[1..];
      InsertInt(xs[0], SortInts(xs[1..]))
  }

  /** `astype(int)`: each float truncated toward zero. */
  function TruncAll(xs: seq<real>): (ns: seq<int>)
    ensures |ns| == |xs| && forall k :: 0 <= k < |xs| ==> ns[k] == Trunc(xs[k])
  {
    seq(|xs|, k requires 0 <= k < |xs| => Trunc(xs[k]))
  }

  /** In a list without repeats, every number occurs at most once in its multiset. */
  lemma {:induction false} DistinctAtMostOnce(s: seq<int>)
    requires Distinct(s)
    ensures forall x :: multiset(s)[x] <= 1
  {
    if s != [] {
      assert s == [s[0]] + s[1..];
      assert Distinct(s[1..]);
      DistinctAtMostOnce(s[1..]);
      assert s[0] !in s[1..];
    }
  }

  /** A number found at two positions occurs at least twice in the multiset. */
  lemma RepeatCounted(s: seq<int>, i: nat, j: nat)
    requires i < j < |s| && s[i] == s[j]
    ensures multiset(s)[s[i]] >= 2
  {
    assert s == s[..j] + [s[j]] + s[j + 1..];
    assert s[..j][i] == s[i];
    assert s[i] in multiset(s[..j]);
  }

  /** Sorting distinct numbers gives a strictly increasing list. */
  lemma SortIntsStrict(xs: seq<int>)
    requires Distinct(xs)
    ensures StrictlySorted(SortInts(xs))
  {
    var r := SortInts(xs);
    DistinctAtMostOnce(xs);
    forall i, j | 0 <= i < j < |r|
      ensures r[i] < r[j]
    {
      if r[i] == r[j] {
        RepeatCounted(r, i, j);
      }
    }
  }

  // ---------------------------------------------------------------------------
  // The rank dictionary D.

  /** `dict(zip(keys, range(1, len(keys) + 1)))`: a later repeat of a key overwrites its value. */
  function ZipRanks(keys: seq<int>): map<int, int>
  {
    if keys == [] then map[] else ZipRanks(keys[..|keys| - 1])[keys[|keys| - 1] := |keys|]
  }

  /** The sorted codes, truncated to ints: the keys of `D` before `new_nan`. */
  function RankKeys(codes: seq<real>): (keys: seq<int>)
    ensures |keys| == |codes|
  {
    var keys := SortInts(TruncAll(codes));
    assert |multiset(keys)| == |multiset(TruncAll(codes))|;
    keys
  }

  /** `D`: `dict(zip(np.sort(cat).astype(int), 1..))` with `D[new_nan] = new_nan`. */
  function RankDict(codes: seq<real>, newNan: int): (d: map<int, int>)
    ensures newNan in d && d[newNan] == newNan
  {
    ZipRanks(RankKeys(codes))[newNan := newNan]
  }

  /** Distinct keys: each key maps to its 1-based position, and there are as many entries as keys. */
  lemma {:induction false} ZipRanksDistinct(keys: seq<int>)
    requires StrictlySorted(keys)
    ensures forall c :: c in ZipRanks(keys) <==> c in keys
    ensures |ZipRanks(keys)| == |keys|
    ensures forall i :: 0 <= i < |keys| ==> ZipRanks(keys)[keys[i]] == i + 1
  {
    if keys != [] {
      var init, last := keys[..|keys| - 1], keys[|keys| - 1];
      ZipRanksDistinct(init);
      assert last !in ZipRanks(init);
      assert keys == init + [last];
      forall i | 0 <= i < |keys|
        ensures ZipRanks(keys)[keys[i]] == i + 1
      {
        if i < |keys| - 1 {
          assert keys[i] == init[i] && keys[i] < last;
        }
      }
    }
  }

  /** Sorting keeps the number of codes; distinct codes sort strictly increasing. */
  lemma RankKeysStrict(codes: seq<real>)
    requires Distinct(TruncAll(codes))
    ensures |RankKeys(codes)| == |codes|
    ensures StrictlySorted(RankKeys(codes))
  {
    SortIntsStrict(TruncAll(codes));
    assert |RankKeys(codes)| == |multiset(RankKeys(codes))| == |multiset(TruncAll(codes))|;
  }

  /** The keys before `new_nan` are the truncated codes, reordered. */
  lemma RankKeysMembers(codes: seq<real>)
    ensures forall c :: c in RankKeys(codes) <==> c in TruncAll(codes)
  {
    forall c ensures c in RankKeys(codes) <==> c in TruncAll(codes) {
      assert c in RankKeys(codes) <==> c in multiset(RankKeys(codes));
      assert c in TruncAll(codes) <==> c in multiset(TruncAll(codes));
    }
  }

  /**
   * For distinct integral codes that do not contain `new_nan`: `D` maps the
   * k-th smallest code to k (1-based) and `new_nan` to itself.
   */
  lemma RankDictRanks(codes: seq<real>, newNan: int)
    requires Distinct(TruncAll(codes))
    requires newNan !in TruncAll(codes)
    ensures |RankKeys(codes)| == |codes|
    ensures forall k :: 0 <= k < |codes| ==>
      RankKeys(codes)[k] in RankDict(codes, newNan) && RankDict(codes, newNan)[RankKeys(codes)[k]] == k + 1
    ensures RankDict(codes, newNan)[newNan] == newNan
  {
    var keys := RankKeys(codes);
    RankKeysStrict(codes);
    RankKeysMembers(codes);
    ZipRanksDistinct(keys);
    forall k | 0 <= k < |codes|
      ensures keys[k] != newNan
    {
      assert keys[k] in TruncAll(codes);
    }
  }

  /** `D` has one entry per code and one for `new_nan`: the `len(D)` that Normalize divides by. */
  lemma RankDictSize(codes: seq<real>, newNan: int)
    requires Distinct(TruncAll(codes))
    requires newNan !in TruncAll(codes)
    ensures forall c :: c in RankDict(codes, newNan) <==> c in TruncAll(codes) || c == newNan
    ensures |RankDict(codes, newNan)| == |codes| + 1
  {
    var keys := RankKeys(codes);
    RankKeysStrict(codes);
    RankKeysMembers(codes);
    ZipRanksDistinct(keys);
    assert newNan !in ZipRanks(keys);
  }

  // ---------------------------------------------------------------------------
  // The biome of a key: `int(str(k)[1:3])`.

  function DigitValue(c: char): int
  {
    c as int - '0' as int
  }

  /** `int(t)` for a non-empty string of decimal digits. */
  function DigitsValue(t: string): int
  {
    if t == [] then 0 else DigitsValue(t[..|t| - 1]) * 10 + DigitValue(t[|t| - 1])
  }

  /**
   * `int(str(k)[1:3])`: the two characters after the first of `k`'s decimal
   * form; a one-character form leaves nothing to convert and `int('')`
   * raises ValueError.
   */
  function BiomeOfKey(k: int): (r: Result<int>)
    ensures r.Raise? <==> 0 <= k < 10
    ensures r.Raise? ==> r.exc == ValueError
  {
    var s := IntToString(k);
    var t := PySlice(s, 1, 3);
    assert |s| >= 2 <==> !(0 <= k < 10) by {
      if k < 0 {
        assert s == "-" + NatToString(-k);
      } else if k >= 10 {
        assert |NatToString(k)| >= 2;
      }
    }
    if t == [] then Raise(ValueError) else Ok(DigitsValue(t))
  }

  lemma DigitCharValue(d: nat)
    requires d < 10
    ensures DigitValue(DigitChar(d)) == d
  {
  }

  /** Two decimal digits: the tens and the units of `n`, read together, are `n % 100`. */
  lemma TwoDigits(n: nat)
    ensures (n / 10 % 10) * 10 + n % 10 == n % 100
  {
    var q, r := n / 10, n % 10;
    var p, t := q / 10, q % 10;
    assert n == 100 * p + (10 * t + r);
  }

  /** Dividing by 10 twice divides by 100. */
  lemma DivTenTwice(n: nat)
    ensures n / 10 / 10 == n / 100
  {
    var q, r := n / 10, n % 10;
    var p, t := q / 10, q % 10;
    assert n == 100 * p + (10 * t + r);
  }

  /** The decimal form of a number of at least three digits ends with the digits of `n / 100` and then two more. */
  lemma NatToStringTwoLast(n: nat)
    requires n >= 100
    ensures NatToString(n) == NatToString(n / 100) + [DigitChar(n / 10 % 10), DigitChar(n % 10)]
  {
    DivTenTwice(n);
    assert NatToString(n / 10) == NatToString(n / 10 / 10) + [DigitChar(n / 10 % 10)];
  }

  /** The second and third characters of a five-digit code are the digits of `k // 100 % 100`. */
  lemma CodeDigits(k: int)
    requires 10000 <= k < 100000
    ensures var h := k / 100;
      PySlice(IntToString(k), 1, 3) == [DigitChar(h / 10 % 10), DigitChar(h % 10)]
  {
    var h := k / 100;
    assert 100 <= h < 1000;
    NatToStringTwoLast(k);
    NatToStringTwoLast(h);
    assert h / 100 < 10;
    var t := [DigitChar(h / 10 % 10), DigitChar(h % 10)];
    assert NatToString(k) == [DigitChar(h / 100)] + t + [DigitChar(k / 10 % 10), DigitChar(k % 10)];
    assert NatToString(k)[1..3] == t;
  }

  /** Two digit characters read as a number. */
  lemma PairValue(a: nat, b: nat)
    requires a < 10 && b < 10
    ensures DigitsValue([DigitChar(a), DigitChar(b)]) == a * 10 + b
  {
    var t := [DigitChar(a), DigitChar(b)];
    DigitCharValue(a);
    DigitCharValue(b);
    assert t[..1] == [DigitChar(a)];
    assert DigitsValue(t[..1]) == DigitValue(t[0]);
  }

  /** For a five-digit code, the biome read from its digits is `k // 100 % 100`, the one `compute_ecoregions_per_biome_patch` compares. */
  lemma BiomeOfCode(k: int)
    requires 10000 <= k < 100000
    ensures BiomeOfKey(k) == Ok(k / 100 % 100)
  {
    var h := k / 100;
    CodeDigits(k);
    PairValue(h / 10 % 10, h % 10);
    TwoDigits(h);
    assert BiomeOfKey(k) == Ok(DigitsValue([DigitChar(h / 10 % 10), DigitChar(h % 10)]));
  }

  /** `new_nan = -1` gives biome 1: `str(-1)[1:3]` is "1". */
  lemma BiomeOfMinusOne()
    ensures BiomeOfKey(-1) == Ok(1)
  {
    assert IntToString(-1) == "-" + [DigitChar(1)];
    assert PySlice(IntToString(-1), 1, 3) == [DigitChar(1)];
    DigitCharValue(1);
    assert DigitsValue([DigitChar(1)]) == DigitsValue([]) * 10 + DigitValue(DigitChar(1));
  }

  /** The biomes of the keys, in key order; the first key that has none raises ValueError. */
  function BiomesOfKeys(keys: seq<int>): (r: Result<seq<int>>)
    ensures r.Ok? <==> forall i :: 0 <= i < |keys| ==> BiomeOfKey(keys[i]).Ok?
    ensures r.Raise? ==> r.exc == ValueError
    ensures r.Ok? ==> |r.value| == |keys| && forall i :: 0 <= i < |keys| ==> r.value[i] == BiomeOfKey(keys[i]).value
  {
    if keys == [] then Ok([])
    else
      var b := BiomeOfKey(keys[0]);
      var rest := BiomesOfKeys(keys[1..]);
      if b.Raise? then Raise(b.exc)
      else if rest.Raise? then Raise(rest.exc)
      else Ok([b.value] + rest.value)
  }

  /** `x` added to a strictly increasing list, unless already there. */
  function InsertUnique(x: int, s: seq<int>): (r: seq<int>)
    requires StrictlySorted(s)
    ensures StrictlySorted(r)
    ensures forall y :: y in r <==> y in s || y == x
  {
    if s == [] then [x]
    else if x < s[0] then [x] + s
    else if x == s[0] then s
    else
      var tail := InsertUnique(x, s[1..]);
      assert forall y :: y in s <==> y == s[0] || y in s[1..];
      forall i | 0 <= i < |tail|
        ensures s[0] < tail[i]
      {
        assert tail[i] in tail;
        if tail[i] in s[1..] {
          var j :| 0 <= j < |s[1..]| && s[1..][j] == tail[i];
          assert s[j + 1] == tail[i];
        }
      }
      [s[0]] + tail
  }

  /** `set(sorted(xs))` as it is iterated: each value once, ascending. */
  function AscendingSet(xs: seq<int>): (r: seq<int>)
    ensures StrictlySorted(r)
    ensures forall y :: y in r <==> y in xs
  {
    if xs == [] then []
    else
      assert forall y :: y in xs <==> y == xs[0] || y in xs[1..];
      InsertUnique(xs[0], AscendingSet(xs[1..]))
  }

  /** `biomes_ref`: the biomes of the keys of `D` (the sorted codes, then `new_nan`). */
  function BiomesRef(codes: seq<real>, newNan: int): (r: Result<seq<int>>)
    ensures r.Raise? ==> r.exc == ValueError
    ensures r.Ok? ==> StrictlySorted(r.value) && BiomeOfKey(newNan).Ok? && BiomeOfKey(newNan).value in r.value
  {
    var keys := RankKeys(codes) + [newNan];
    var b := BiomesOfKeys(keys);
    if b.Raise? then Raise(b.exc)
    else
      assert keys[|keys| - 1] == newNan && b.value[|keys| - 1] in b.value;
      Ok(AscendingSet(b.value))
  }

  /** Five-digit keys followed by -1: every key has a biome, its `// 100 % 100`, and -1's is 1. */
  lemma BiomesOfCodeKeys(keys: seq<int>)
    requires forall i :: 0 <= i < |keys| ==> 10000 <= keys[i] < 100000
    ensures BiomesOfKeys(keys + [-1]).Ok?
    ensures forall i :: 0 <= i < |keys| ==> BiomesOfKeys(keys + [-1]).value[i] == keys[i] / 100 % 100
    ensures BiomesOfKeys(keys + [-1]).value[|keys|] == 1
  {
    var all := keys + [-1];
    forall i | 0 <= i < |all|
      ensures BiomeOfKey(all[i]).Ok?
      ensures BiomeOfKey(all[i]).value == if i < |keys| then keys[i] / 100 % 100 else 1
    {
      if i < |keys| {
        BiomeOfCode(keys[i]);
      } else {
        BiomeOfMinusOne();
      }
    }
  }

  /** `b` is the biome `// 100 % 100` of one of the codes. */
  ghost predicate IsCodeBiome(codes: seq<real>, b: int)
  {
    exists k :: 0 <= k < |codes| && b == Trunc(codes[k]) / 100 % 100
  }

  /** Five-digit codes: so are the keys of `D` before `new_nan`. */
  lemma RankKeysFiveDigits(codes: seq<real>)
    requires forall k :: 0 <= k < |codes| ==> 10000 <= Trunc(codes[k]) < 100000
    ensures forall i :: 0 <= i < |RankKeys(codes)| ==> 10000 <= RankKeys(codes)[i] < 100000
  {
    RankKeysMembers(codes);
    forall i | 0 <= i < |RankKeys(codes)|
      ensures 10000 <= RankKeys(codes)[i] < 100000
    {
      assert RankKeys(codes)[i] in TruncAll(codes);
    }
  }

  /** Every biome read from the keys of `D` is 1 or the biome of a code. */
  lemma BiomesOfRankKeysSound(codes: seq<real>, b: int)
    requires forall k :: 0 <= k < |codes| ==> 10000 <= Trunc(codes[k]) < 100000
    requires BiomesOfKeys(RankKeys(codes) + [-1]).Ok?
    requires b in BiomesOfKeys(RankKeys(codes) + [-1]).value
    ensures b == 1 || IsCodeBiome(codes, b)
  {
    var keys, ints := RankKeys(codes), TruncAll(codes);
    RankKeysFiveDigits(codes);
    var i := KeyOfBiome(keys, b);
    if i < |keys| {
      assert keys[i] in ints by {
        RankKeysMembers(codes);
      }
      var k :| 0 <= k < |ints| && ints[k] == keys[i];
      assert ints[k] == Trunc(codes[k]);
    }
  }

  /** A biome read from five-digit keys followed by -1 is 1 (position `|keys|`) or the biome of the key at the returned position. */
  lemma KeyOfBiome(keys: seq<int>, b: int) returns (i: nat)
    requires forall i :: 0 <= i < |keys| ==> 10000 <= keys[i] < 100000
    requires BiomesOfKeys(keys + [-1]).Ok?
    requires b in BiomesOfKeys(keys + [-1]).value
    ensures i <= |keys|
    ensures i == |keys| ==> b == 1
    ensures i < |keys| ==> b == keys[i] / 100 % 100
  {
    BiomesOfCodeKeys(keys);
    var bs := BiomesOfKeys(keys + [-1]).value;
    i :| 0 <= i < |bs| && bs[i] == b;
  }

  /** The biome of every code is read from the keys of `D`. */
  lemma BiomesOfRankKeysComplete(codes: seq<real>, b: int)
    requires forall k :: 0 <= k < |codes| ==> 10000 <= Trunc(codes[k]) < 100000
    requires IsCodeBiome(codes, b)
    ensures BiomesOfKeys(RankKeys(codes) + [-1]).Ok?
    ensures b in BiomesOfKeys(RankKeys(codes) + [-1]).value
  {
    var keys, ints := RankKeys(codes), TruncAll(codes);
    RankKeysMembers(codes);
    RankKeysFiveDigits(codes);
    BiomesOfCodeKeys(keys);
    var bs := BiomesOfKeys(keys + [-1]).value;
    var k :| 0 <= k < |codes| && b == Trunc(codes[k]) / 100 % 100;
    assert ints[k] in keys;
    var i :| 0 <= i < |keys| && keys[i] == ints[k];
    assert bs[i] == b;
  }

  /**
   * Five-digit codes and `new_nan = -1`: the biome list is the ascending
   * list of the codes' `// 100 % 100` values, together with 1.
   */
  lemma BiomesRefOfCodes(codes: seq<real>)
    requires forall k :: 0 <= k < |codes| ==> 10000 <= Trunc(codes[k]) < 100000
    ensures BiomesRef(codes, -1).Ok?
    ensures StrictlySorted(BiomesRef(codes, -1).value)
    ensures forall b :: b in BiomesRef(codes, -1).value <==> b == 1 || IsCodeBiome(codes, b)
  {
    var keys := RankKeys(codes);
    RankKeysFiveDigits(codes);
    BiomesOfCodeKeys(keys);
    var bs := BiomesOfKeys(keys + [-1]).value;
    assert bs[|keys|] == 1;
    forall b
      ensures b in bs <==> b == 1 || IsCodeBiome(codes, b)
    {
      if b in bs {
        BiomesOfRankKeysSound(codes, b);
      }
      if IsCodeBiome(codes, b) {
        BiomesOfRankKeysComplete(codes, b);
      }
    }
  }

  // ---------------------------------------------------------------------------
  // One pixel in the biome bands.

  /**
   * The value of a pixel in the band of biome `b`: -1 for a no-data pixel
   * (`patch == -1` after `astype(int)`), its rank `D.get(code, -1)` when the
   * code's biome `code // 100 % 100` is `b`, 0 otherwise; divided by
   * `len(D)` when Normalize is among the raster transforms.
   */
  function EcoValue(v: real, b: int, d: map<int, int>, scaled: bool): real
  {
    var code := Trunc(v);
    var raw := if code == -1 then -1 else if code / 100 % 100 == b then (if code in d then d[code] else -1) else 0;
    if scaled && |d| > 0 then raw as real / |d| as real else raw as real
  }

  /**
   * A pixel holding the k-th smallest code has its rank k in the band of
   * the code's biome and 0 in every other band; a no-data pixel is -1 in
   * every band (before scaling).
   */
  lemma EcoValueOfCode(codes: seq<real>, k: nat, b: int)
    requires Distinct(TruncAll(codes)) && -1 !in TruncAll(codes)
    requires k < |codes|
    ensures var c := RankKeys(codes)[k];
      EcoValue(c as real, b, RankDict(codes, -1), false) == if c / 100 % 100 == b then (k + 1) as real else 0.0
    ensures EcoValue(-1.0, b, RankDict(codes, -1), false) == -1.0
  {
    RankDictRanks(codes, -1);
    var c := RankKeys(codes)[k];
    assert Trunc(c as real) == c;
    assert c in multiset(TruncAll(codes));
    assert c != -1;
  }

  /** A pixel is non-zero in at most one biome band. */
  lemma EcoValueOneBand(v: real, b1: int, b2: int, d: map<int, int>, scaled: bool)
    requires b1 != b2 && Trunc(v) != -1
    ensures EcoValue(v, b1, d, scaled) == 0.0 || EcoValue(v, b2, d, scaled) == 0.0
  {
  }
}
