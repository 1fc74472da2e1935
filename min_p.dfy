/**
 * Min-P: drops the tail of the (softmaxed, sorted) buffer from the first
 * entry whose probability falls below `p` times the top probability.
 */
module MinP {
  import opened Types

  function Max(a: nat, b: nat): nat { if a >= b then a else b }

  /** First position at or after `start` whose probability is below `threshold`, else `|s|`. */
  function FirstBelow(s: seq<Logit>, start: nat, threshold: real): (r: nat)
    requires start <= |s|
    decreases |s| - start
    ensures start <= r <= |s|
    ensures forall i :: start <= i < r ==> s[i].prob >= threshold
    ensures r < |s| ==> s[r].prob < threshold
  {
    if start == |s| then |s|
    else if s[start].prob < threshold then start
    else FirstBelow(s, start + 1, threshold)
  }

  /**
   * The cut shared by Min-P and Top-A, applied to a buffer already through
   * `ensure_softmax`: nothing when it holds at most `minKeep` entries,
   * otherwise truncation at the first entry below `threshold` past the
   * protected head, which also clears the softmax flag.
   */
  function CutBelow(b: Buf, threshold: real, minKeep: nat): Buf
  {
    if |b.entries| <= minKeep then b
    else
      var idx := FirstBelow(b.entries, Max(1, minKeep), threshold);
      if idx != |b.entries| then Buf(b.entries[..idx], b.sorted, false) else b
  }

  /**
   * `after` is a prefix of `before` that includes the first
   * `max(1, minKeep)` entries (or all of them) and shares its sorted flag;
   * every kept entry past that head reaches the threshold; a cut happens at
   * an entry below the threshold and clears the softmax flag; with no cut
   * nothing changes.
   */
  predicate ThresholdPrefix(before: Buf, after: Buf, threshold: real, minKeep: nat)
  {
    |after.entries| <= |before.entries| &&
    after.entries == before.entries[..|after.entries|] && after.sorted == before.sorted &&
    |after.entries| >= (if Max(1, minKeep) < |before.entries| then Max(1, minKeep) else |before.entries|) &&
    (forall i :: Max(1, minKeep) <= i < |after.entries| ==> after.entries[i].prob >= threshold) &&
    (|after.entries| < |before.entries| ==> before.entries[|after.entries|].prob < threshold && !after.softmax) &&
    (|after.entries| == |before.entries| ==> after == before)
  }

  lemma CutBelowKeepsPrefix(b: Buf, threshold: real, minKeep: nat)
    requires b.entries != []
    ensures ThresholdPrefix(b, CutBelow(b, threshold, minKeep), threshold, minKeep)
  {
  }

  /** `p` times the top probability. */
  function Threshold(p: real, sb: Buf): real
    requires sb.entries != []
  {
    sb.entries[0].prob * p
  }

  /** The Min-P cut of a buffer already through `ensure_softmax`. */
  function MinPCutOf(p: real, minKeep: nat, sb: Buf): Buf
    requires sb.entries != []
  {
    CutBelow(sb, Threshold(p, sb), minKeep)
  }

  /** The buffer after Min-P: no-op guards, `ensure_softmax`, then the cut. */
  function MinPBuf(p: real, minKeep: nat, b: Buf, m: Math): Buf
    requires ExpPositive(m)
  {
    if p == 0.0 || b.entries == [] then b else MinPCutOf(p, minKeep, EnsureSoftmaxBuf(b, m))
  }

  /** With `p` 0 or an empty buffer Min-P changes nothing. */
  lemma MinPNoop(p: real, minKeep: nat, b: Buf, m: Math)
    requires ExpPositive(m)
    requires p == 0.0 || b.entries == []
    ensures MinPBuf(p, minKeep, b, m) == b
  {
  }

  /**
   * On a softmaxed buffer Min-P keeps a threshold prefix, with threshold
   * `p` times the top probability; a buffer of at most `minKeep` entries
   * is left as it is.
   */
  lemma MinPCut(p: real, minKeep: nat, sb: Buf)
    requires sb.entries != []
    ensures ThresholdPrefix(sb, MinPCutOf(p, minKeep, sb), Threshold(p, sb), minKeep)
    ensures |sb.entries| <= minKeep ==> MinPCutOf(p, minKeep, sb) == sb
  {
    var t := Threshold(p, sb);
    var r := MinPCutOf(p, minKeep, sb);
    assert r == CutBelow(sb, t, minKeep);
    CutBelowKeepsPrefix(sb, t, minKeep);
    assert ThresholdPrefix(sb, r, t, minKeep);
  }

  /**
   * On the softmaxed probabilities 0.5194805, 0.25974026, 0.12987013,
   * 0.064935066, 0.025974026: `p` 2 keeps one entry, 0.2 keeps three and
   * 0.0001 keeps all five.
   */
  lemma MinPExamples(m: Math)
    requires ExpPositive(m)
    ensures var b := Buf([Logit(0, 0.0, 0.5194805), Logit(1, 0.0, 0.25974026), Logit(2, 0.0, 0.12987013),
                          Logit(3, 0.0, 0.064935066), Logit(4, 0.0, 0.025974026)], true, true);
      |MinPBuf(2.0, 1, b, m).entries| == 1 &&
      |MinPBuf(0.2, 1, b, m).entries| == 3 &&
      |MinPBuf(0.0001, 1, b, m).entries| == 5
  {
  }

  datatype SampleMinP = SampleMinP(p: real, minKeep: nat)
  {
    method Sample(m: Math, logits: Logits)
      requires ExpPositive(m)
      modifies logits
      ensures logits.State() == MinPBuf(p, minKeep, old(logits.State()), m)
    {
      if p == 0.0 || logits.entries == [] {
        return;
      }
      logits.EnsureSoftmax(m);
      if |logits.entries| <= minKeep {
        return;
      }
      ghost var sb := logits.State();
      var threshold := logits.entries[0].prob * p;
      assert threshold == Threshold(p, sb);
      var lastIdx := FirstBelow(logits.entries, Max(1, minKeep), threshold);
      if lastIdx != |logits.entries| {
        logits.Truncate(lastIdx);
        logits.SetSoftmax(false);
      }
    }
  }
}
