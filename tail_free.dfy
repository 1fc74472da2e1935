/**
 * Tail free sampling: after softmax, the absolute second differences of
 * the sorted probabilities are normalised to sum to one, and the buffer is
 * cut at the first position where their running sum exceeds `z`.
 */
module TailFree {
  import opened Types

  function Abs(x: real): real
  {
    if x < 0.0 then -x else x
  }

  /** Absolute second differences of the probabilities: `|s|-2` values. */
  function SecondDiffs(s: seq<Logit>): (r: seq<real>)
    requires |s| >= 2
    ensures |r| == |s| - 2
    ensures forall i :: 0 <= i < |r| ==> r[i] >= 0.0
  {
    seq(|s| - 2, i requires 0 <= i < |s| - 2 =>
      Abs((s[i].prob - s[i + 1].prob) - (s[i + 1].prob - s[i + 2].prob)))
  }

  /** Sum of the first `n` values. */
  function Sum(xs: seq<real>, n: nat): real
    requires n <= |xs|
  {
    if n == 0 then 0.0 else Sum(xs, n - 1) + xs[n - 1]
  }

  /** Every value divided by `total`. */
  function Normalised(xs: seq<real>, total: real): (r: seq<real>)
    requires total != 0.0
    ensures |r| == |xs|
  {
    seq(|xs|, i requires 0 <= i < |xs| => xs[i] / total)
  }

  /** Position `idx` is where the cut happens: the running sum through it exceeds `z` and `idx >= minKeep`. */
  predicate Crosses(w: seq<real>, z: real, minKeep: nat, idx: nat)
    requires idx < |w|
  {
    Sum(w, idx + 1) > z && idx >= minKeep
  }

  /** The scan for the cut, resumed at `idx`; `len` is kept when no position crosses. */
  function CutFrom(w: seq<real>, z: real, minKeep: nat, idx: nat, len: nat): (r: nat)
    requires idx <= |w|
    ensures r == len || (idx <= r < |w| && Crosses(w, z, minKeep, r))
    ensures forall j :: idx <= j < |w| && j < r ==> !Crosses(w, z, minKeep, j)
    decreases |w| - idx
  {
    if idx == |w| then len
    else if Crosses(w, z, minKeep, idx) then idx
    else CutFrom(w, z, minKeep, idx + 1, len)
  }

  /**
   * How many entries the cut keeps. A zero sum of second differences makes
   * every normalised value a floating-point NaN, no comparison succeeds
   * and everything is kept.
   */
  function TailLen(s: seq<Logit>, z: real, minKeep: nat): nat
    requires |s| >= 2
  {
    var sd := SecondDiffs(s);
    var total := Sum(sd, |sd|);
    if total == 0.0 then |s| else CutFrom(Normalised(sd, total), z, minKeep, 0, |s|)
  }

  /** The sampler's effect on a buffer of at least two entries when `z < 1`. */
  function TailFreeStep(z: real, minKeep: nat, b: Buf, m: Math): Step
    requires ExpPositive(m)
  {
    if z >= 1.0 || |b.entries| < 2 then Step(b, None)
    else
      var sb := SoftmaxBuf(b, m);
      if |sb.entries| == 2 then Step(sb, Some(InternalError("Impossible: missing next deriv item?")))
      else Step(TailCut(z, minKeep, sb), None)
  }

  /** What follows the softmax on three entries or more: keep a prefix. */
  function TailCut(z: real, minKeep: nat, sb: Buf): Buf
    requires |sb.entries| >= 2
  {
    sb.(entries := Truncated(sb.entries, TailLen(sb.entries, z, minKeep)))
  }

  /** With `z >= 1` or fewer than two entries, nothing happens. */
  lemma TailFreeNoop(z: real, minKeep: nat, b: Buf, m: Math)
    requires ExpPositive(m)
    requires z >= 1.0 || |b.entries| < 2
    ensures TailFreeStep(z, minKeep, b, m) == Step(b, None)
  {
  }

  /**
   * With exactly two entries the second-difference scan runs out of first
   * differences: an internal error, after the softmax has been applied.
   */
  lemma TailFreeTwoEntries(z: real, minKeep: nat, b: Buf, m: Math)
    requires ExpPositive(m)
    requires z < 1.0 && |b.entries| == 2
    ensures TailFreeStep(z, minKeep, b, m).err.Some?
    ensures TailFreeStep(z, minKeep, b, m).buf == SoftmaxBuf(b, m)
  {
  }

  /** With three entries or more there is no error and the cut applies to the softmaxed buffer. */
  lemma TailFreeNoError(z: real, minKeep: nat, b: Buf, m: Math)
    requires ExpPositive(m)
    requires z < 1.0 && |b.entries| >= 3
    ensures TailFreeStep(z, minKeep, b, m) == Step(TailCut(z, minKeep, SoftmaxBuf(b, m)), None)
  {
    assert |SoftmaxBuf(b, m).entries| >= 3;
  }

  /**
   * The result is a prefix of the softmaxed entries with its flags; either
   * everything is kept or the cut is at a crossing position, which is at
   * least `minKeep` and drops at least the last three entries.
   */
  lemma TailCutPrefix(z: real, minKeep: nat, sb: Buf)
    requires |sb.entries| >= 3
    ensures var n := |TailCut(z, minKeep, sb).entries|;
      TailCut(z, minKeep, sb) == sb.(entries := sb.entries[..n]) &&
      (n == |sb.entries| || minKeep <= n <= |sb.entries| - 3)
  {
  }

  lemma {:induction false} SumScaled(xs: seq<real>, total: real, n: nat)
    requires total != 0.0 && n <= |xs|
    ensures Sum(Normalised(xs, total), n) == Sum(xs, n) / total
  {
    if n > 0 {
      SumScaled(xs, total, n - 1);
      DivAdd(Sum(xs, n - 1), xs[n - 1], total);
    }
  }

  /** The normalised second differences sum to one. */
  lemma NormalisedSumsToOne(xs: seq<real>)
    requires Sum(xs, |xs|) != 0.0
    ensures Sum(Normalised(xs, Sum(xs, |xs|)), |xs|) == 1.0
  {
    var t := Sum(xs, |xs|);
    SumScaled(xs, t, |xs|);
    DivSelf(t);
  }

  /**
   * When the second differences are not all zero and `minKeep` leaves room,
   * the cut always happens: since their normalised sum is one and `z < 1`,
   * at most `len - 3` entries survive, and at least `minKeep`.
   */
  lemma TailFreeAlwaysCuts(z: real, minKeep: nat, sb: Buf)
    requires z < 1.0 && |sb.entries| >= 3
    requires var sd := SecondDiffs(sb.entries); Sum(sd, |sd|) != 0.0
    requires minKeep <= |sb.entries| - 3
    ensures var n := |TailCut(z, minKeep, sb).entries|;
      minKeep <= n <= |sb.entries| - 3
  {
    var sd := SecondDiffs(sb.entries);
    var w := Normalised(sd, Sum(sd, |sd|));
    NormalisedSumsToOne(sd);
    assert Crosses(w, z, minKeep, |w| - 1);
  }

  lemma {:induction false} SumZeros(xs: seq<real>, n: nat)
    requires n <= |xs|
    requires forall i :: 0 <= i < |xs| ==> xs[i] == 0.0
    ensures Sum(xs, n) == 0.0
  {
    if n > 0 {
      SumZeros(xs, n - 1);
    }
  }

  /**
   * Evenly spaced probabilities (every second difference zero) keep every
   * entry.
   */
  lemma TailFreeEvenlySpaced(z: real, minKeep: nat, sb: Buf)
    requires |sb.entries| >= 3
    requires forall i :: 0 <= i < |sb.entries| - 2 ==>
      sb.entries[i].prob - sb.entries[i + 1].prob == sb.entries[i + 1].prob - sb.entries[i + 2].prob
    ensures TailCut(z, minKeep, sb) == sb
  {
    var sd := SecondDiffs(sb.entries);
    forall i | 0 <= i < |sd|
      ensures sd[i] == 0.0
    {
    }
    SumZeros(sd, |sd|);
    assert TailLen(sb.entries, z, minKeep) == |sb.entries|;
  }

  /** One more second difference extends the prefix computed so far. */
  lemma SecondDiffsExtend(s: seq<Logit>, sderivs: seq<real>, k: nat)
    requires k + 2 < |s| && sderivs == SecondDiffs(s)[..k]
    ensures sderivs + [Abs((s[k].prob - s[k + 1].prob) - (s[k + 1].prob - s[k + 2].prob))] == SecondDiffs(s)[..k + 1]
    ensures Sum(SecondDiffs(s), k + 1) == Sum(SecondDiffs(s), k) + SecondDiffs(s)[k]
  {
    var sd := SecondDiffs(s);
    assert sd[..k + 1] == sd[..k] + [sd[k]];
  }

  /**
   * The second-difference scan: the source walks the first differences,
   * peeking at the next one; on two entries there is none to peek at.
   */
  method SecondDiffsOf(s: seq<Logit>) returns (sderivs: seq<real>, ssum: real, err: Option<SamplerError>)
    requires |s| >= 2
    ensures |s| == 2 ==> err == Some(InternalError("Impossible: missing next deriv item?"))
    ensures |s| >= 3 ==> err == None && sderivs == SecondDiffs(s) && ssum == Sum(sderivs, |sderivs|)
  {
    var n := |s|;
    var want := n - 2;
    sderivs := [];
    ssum := 0.0;
    err := None;
    var k := 0;
    while k < n - 1
      invariant n >= 3 ==> k <= n - 3
      invariant n == 2 ==> k == 0
      invariant |sderivs| == k
      invariant sderivs == SecondDiffs(s)[..k]
      invariant ssum == Sum(SecondDiffs(s), k)
    {
      var prob := s[k].prob - s[k + 1].prob;
      if k + 1 >= n - 1 {
        return [], 0.0, Some(InternalError("Impossible: missing next deriv item?"));
      }
      var next := s[k + 1].prob - s[k + 2].prob;
      var sprob := Abs(prob - next);
      ssum := ssum + sprob;
      SecondDiffsExtend(s, sderivs, k);
      sderivs := sderivs + [sprob];
      if |sderivs| == want {
        break;
      }
      k := k + 1;
    }
    assert sderivs == SecondDiffs(s);
  }

  /** Divides every value by `ssum`, in place. */
  method NormaliseInPlace(xs: seq<real>, ssum: real) returns (r: seq<real>)
    requires ssum != 0.0
    ensures r == Normalised(xs, ssum)
  {
    r := xs;
    var i := 0;
    while i < |r|
      invariant 0 <= i <= |r| == |xs|
      invariant forall j :: 0 <= j < i ==> r[j] == xs[j] / ssum
      invariant forall j :: i <= j < |r| ==> r[j] == xs[j]
    {
      r := r[i := r[i] / ssum];
      i := i + 1;
    }
  }

  /** The running-sum scan for the cut; `len` when no position crosses. */
  method CutIndex(w: seq<real>, z: real, minKeep: nat, len: nat) returns (lastIdx: nat)
    ensures lastIdx == CutFrom(w, z, minKeep, 0, len)
  {
    var cumSum := 0.0;
    lastIdx := len;
    var idx := 0;
    while idx < |w|
      invariant idx <= |w| && lastIdx == len
      invariant cumSum == Sum(w, idx)
      invariant CutFrom(w, z, minKeep, 0, len) == CutFrom(w, z, minKeep, idx, len)
    {
      cumSum := cumSum + w[idx];
      if cumSum > z && idx >= minKeep {
        lastIdx := idx;
        break;
      }
      idx := idx + 1;
    }
  }

  datatype SampleTailFree = SampleTailFree(z: real, minKeep: nat)
  {
    method Sample(m: Math, logits: Logits) returns (err: Option<SamplerError>)
      requires ExpPositive(m)
      modifies logits
      ensures Step(logits.State(), err) == TailFreeStep(z, minKeep, old(logits.State()), m)
    {
      if z >= 1.0 || |logits.entries| < 2 {
        return None;
      }
      logits.Softmax(m);
      var sderivs, ssum, e := SecondDiffsOf(logits.entries);
      if e.Some? {
        return e;
      }
      var lastIdx := |logits.entries|;
      if ssum != 0.0 {
        var w := NormaliseInPlace(sderivs, ssum);
        lastIdx := CutIndex(w, z, minKeep, |logits.entries|);
      }
      logits.Truncate(lastIdx);
      err := None;
    }
  }
}
