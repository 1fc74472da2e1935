/**
 * Top-P (nucleus): keeps the shortest most-probable prefix whose cumulative
 * probability reaches `p`, and at least `minKeep` entries.
 */
module TopP {
  import opened Types

  /** Cutting after the first `n` entries reaches `p` and keeps `minKeep`. */
  predicate Enough(s: seq<Logit>, p: real, minKeep: nat, n: nat)
    requires n <= |s|
  {
    ProbSum(s, n) >= p && n >= minKeep
  }

  /** The scan of top-p, resumed at position `idx`. */
  function CutFrom(s: seq<Logit>, p: real, minKeep: nat, idx: nat): (r: nat)
    requires idx <= |s|
    decreases |s| - idx
    ensures idx <= r <= |s|
    ensures r == |s| || (r > idx && Enough(s, p, minKeep, r))
    ensures forall n :: idx < n < r ==> !Enough(s, p, minKeep, n)
  {
    if idx == |s| then |s|
    else if Enough(s, p, minKeep, idx + 1) then idx + 1
    else CutFrom(s, p, minKeep, idx + 1)
  }

  /** How many entries top-p keeps. */
  function TopPLen(s: seq<Logit>, p: real, minKeep: nat): nat
  {
    CutFrom(s, p, minKeep, 0)
  }

  /**
   * The kept length is the least `n >= 1` whose prefix reaches `p` with at
   * least `minKeep` entries; when there is none, everything is kept.
   */
  lemma TopPLenIsLeast(s: seq<Logit>, p: real, minKeep: nat)
    ensures TopPLen(s, p, minKeep) <= |s|
    ensures TopPLen(s, p, minKeep) == 0 <==> s == []
    ensures TopPLen(s, p, minKeep) < |s| ==> Enough(s, p, minKeep, TopPLen(s, p, minKeep))
    ensures forall n :: 1 <= n < TopPLen(s, p, minKeep) ==> !Enough(s, p, minKeep, n)
    ensures (forall n :: 1 <= n <= |s| ==> !Enough(s, p, minKeep, n)) ==> TopPLen(s, p, minKeep) == |s|
  {
  }

  /** Probabilities 0.4, 0.3, 0.2, 0.1: `p` 0 keeps one, 0.7 keeps two, 1 keeps all. */
  lemma TopPExamples()
    ensures var s := [Logit(3, 0.4, 0.4), Logit(2, 0.3, 0.3), Logit(1, 0.2, 0.2), Logit(0, 0.1, 0.1)];
      TopPLen(s, 0.0, 1) == 1 && TopPLen(s, 0.7, 1) == 2 && TopPLen(s, 1.0, 1) == 4
  {
  }

  /** The buffer after top-p: softmax, then the kept prefix. */
  function TopPBuf(p: real, minKeep: nat, b: Buf, m: Math): Buf
    requires ExpPositive(m)
  {
    var sb := SoftmaxBuf(b, m);
    sb.(entries := Truncated(sb.entries, TopPLen(sb.entries, p, minKeep)))
  }

  datatype SampleTopP = SampleTopP(p: real, minKeep: nat)
  {
    method Sample(m: Math, logits: Logits)
      requires ExpPositive(m)
      modifies logits
      ensures logits.State() == TopPBuf(p, minKeep, old(logits.State()), m)
    {
      logits.Softmax(m);
      ghost var s := logits.entries;
      var cumSum := 0.0;
      var lastIdx := |logits.entries|;
      var idx := 0;
      while idx < |logits.entries|
        invariant logits.entries == s
        invariant idx <= |s| && lastIdx == |s|
        invariant cumSum == ProbSum(s, idx)
        invariant TopPLen(s, p, minKeep) == CutFrom(s, p, minKeep, idx)
      {
        cumSum := cumSum + logits.entries[idx].prob;
        if cumSum >= p && idx + 1 >= minKeep {
          lastIdx := idx + 1;
          break;
        }
        idx := idx + 1;
      }
      logits.Truncate(lastIdx);
    }
  }
}
