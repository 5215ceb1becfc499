// Step-by-step chains: a run of stages, each of which found the columns
// the stage before it left. The export writes its maps as such a chain.

module Chains {

  /** The columns step `i` of a chain found: `start`, or those the step before it left. */
  function Before<C>(start: C, cols: seq<C>, i: nat): C
    requires i <= |cols|
  {
    if i == 0 then start else cols[i - 1]
  }

  /**
   * `ws` and `cols` built step after step from the columns `start`: step
   * `i` wrote `ws[i]` and left `cols[i]`, having found the columns the step
   * before it left, and `P` holds of it.
   */
  ghost predicate Chain<W, C>(ws: seq<W>, cols: seq<C>, start: C, P: (nat, W, C, C) -> bool)
  {
    && |cols| == |ws|
    && forall i :: 0 <= i < |ws| ==> P(i, ws[i], cols[i], Before(start, cols, i))
  }

  /** One more step of a chain. */
  lemma ChainSnoc<W, C>(ws: seq<W>, cols: seq<C>, start: C, P: (nat, W, C, C) -> bool, w: W, col: C)
    requires Chain(ws, cols, start, P)
    requires P(|ws|, w, col, Before(start, cols, |ws|))
    ensures Chain(ws + [w], cols + [col], start, P)
  {
    var w', c' := ws + [w], cols + [col];
    forall i | 0 <= i < |w'|
      ensures P(i, w'[i], c'[i], Before(start, c', i))
    {
      assert Before(start, c', i) == Before(start, cols, i);
      if i < |ws| {
        assert w'[i] == ws[i] && c'[i] == cols[i];
      } else {
        assert w'[i] == w && c'[i] == col;
      }
    }
  }

  /** The columns step `i` of two chains run one after the other found. */
  lemma BeforeAppend<C>(start: C, cols: seq<C>, cols2: seq<C>, i: nat)
    requires i <= |cols| + |cols2|
    ensures i <= |cols| ==> Before(start, cols + cols2, i) == Before(start, cols, i)
    ensures i >= |cols| ==> Before(start, cols + cols2, i) == Before(Before(start, cols, |cols|), cols2, i - |cols|)
  {
    if 0 < i <= |cols| {
      assert (cols + cols2)[i - 1] == cols[i - 1];
    } else if i > |cols| {
      assert (cols + cols2)[i - 1] == cols2[i - |cols| - 1];
    }
  }

  /** Steps `ws2` that continue a chain where it stopped, each satisfying `P` at its place, extend it. */
  lemma ChainAppend<W, C>(ws: seq<W>, cols: seq<C>, start: C, P: (nat, W, C, C) -> bool,
                          ws2: seq<W>, cols2: seq<C>)
    requires Chain(ws, cols, start, P) && |cols2| == |ws2|
    requires forall j :: 0 <= j < |ws2| ==>
      P(|ws| + j, ws2[j], cols2[j], Before(Before(start, cols, |cols|), cols2, j))
    ensures Chain(ws + ws2, cols + cols2, start, P)
  {
    var w', c' := ws + ws2, cols + cols2;
    forall i | 0 <= i < |w'|
      ensures P(i, w'[i], c'[i], Before(start, c', i))
    {
      BeforeAppend(start, cols, cols2, i);
      if i < |ws| {
        assert w'[i] == ws[i] && c'[i] == cols[i];
      } else {
        assert w'[i] == ws2[i - |ws|] && c'[i] == cols2[i - |ws|];
      }
    }
  }


}
