/**
 * The token history the penalty samplers look back on: the window of the
 * most recent tokens and the per-token occurrence counts within it.
 */
module History {

  /** The last `n` tokens of `h`, or all of `h` when it is shorter. */
  function LastN(h: seq<nat>, n: nat): (r: seq<nat>)
    ensures |r| == if n < |h| then n else |h|
    ensures r == h[|h| - |r|..]
  {
    if n > |h| then h else h[|h| - n..]
  }

  /** A window of zero tokens is empty; a window wider than the history is all of it. */
  lemma LastNBounds(h: seq<nat>, n: nat)
    ensures n == 0 ==> LastN(h, n) == []
    ensures n >= |h| ==> LastN(h, n) == h
  {
  }

  /** Occurrences of `tid` in `w`. */
  function Count(w: seq<nat>, tid: nat): nat
  {
    multiset(w)[tid]
  }

  /**
   * Counts every token of `w` into a map: exactly the tokens of `w` are
   * keys, each mapped to its number of occurrences.
   */
  method CountTokens(w: seq<nat>) returns (counts: map<nat, nat>)
    ensures forall t :: t in counts <==> t in w
    ensures forall t :: t in counts ==> counts[t] == Count(w, t) && counts[t] > 0
  {
    counts := map[];
    var i := 0;
    while i < |w|
      invariant 0 <= i <= |w|
      invariant forall t :: t in counts <==> t in w[..i]
      invariant forall t :: t in counts ==> counts[t] == Count(w[..i], t) && counts[t] > 0
    {
      assert w[..i + 1] == w[..i] + [w[i]];
      var tid := w[i];
      var cnt := if tid in counts then counts[tid] else 0;
      counts := counts[tid := cnt + 1];
      i := i + 1;
    }
    assert w[..i] == w;
  }
}
