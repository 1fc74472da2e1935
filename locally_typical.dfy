/**
 * Locally typical sampling: after softmax, each entry is scored by how far
 * its information content `-ln(prob)` lies from the entropy of the
 * distribution; the entries are stably re-sorted by ascending score and
 * the shortest prefix whose probability exceeds `p` is kept.
 */
module LocallyTypical {
  import opened Types

  function Abs(x: real): real
  {
    if x < 0.0 then -x else x
  }

  /** The entropy term of one entry: `-prob * ln(prob)`. */
  function EntropyTerm(l: Logit, m: Math): real
  {
    -l.prob * m.ln(l.prob)
  }

  /** The entropy of the first `n` entries. */
  function Entropy(s: seq<Logit>, m: Math, n: nat): real
    requires n <= |s|
  {
    if n == 0 then 0.0 else Entropy(s, m, n - 1) + EntropyTerm(s[n - 1], m)
  }

  /** How atypical an entry is: `|-ln(prob) - ent|`. */
  function Score(l: Logit, ent: real, m: Math): real
  {
    Abs(-m.ln(l.prob) - ent)
  }

  function ScoreOf(x: (Logit, real)): real
  {
    x.1
  }

  /** Each entry paired with its score. */
  function Shifted(s: seq<Logit>, ent: real, m: Math): seq<(Logit, real)>
  {
    seq(|s|, i requires 0 <= i < |s| => (s[i], Score(s[i], ent, m)))
  }

  /** Sum of the probabilities of the first `n` scored entries. */
  function PairProbSum(t: seq<(Logit, real)>, n: nat): real
    requires n <= |t|
  {
    if n == 0 then 0.0 else PairProbSum(t, n - 1) + t[n - 1].0.prob
  }

  /** Position `idx` ends the kept prefix: the sum through it exceeds `p` and `idx >= mk`. */
  predicate Crosses(t: seq<(Logit, real)>, p: real, mk: nat, idx: nat)
    requires idx < |t|
  {
    PairProbSum(t, idx + 1) > p && idx >= mk
  }

  /** The scan for the cut, resumed at `idx`: the kept length. */
  function CutFrom(t: seq<(Logit, real)>, p: real, mk: nat, idx: nat): (r: nat)
    requires idx <= |t|
    ensures idx <= r <= |t|
    ensures r == |t| || (r > idx && Crosses(t, p, mk, r - 1))
    ensures forall j :: idx <= j < r - 1 ==> !Crosses(t, p, mk, j)
    decreases |t| - idx
  {
    if idx == |t| then |t|
    else if Crosses(t, p, mk, idx) then idx + 1
    else CutFrom(t, p, mk, idx + 1)
  }

  /** `min_keep` counts entries, the scan compares positions: 0 stays 0, otherwise one less. */
  function AdjustedMinKeep(minKeep: nat): nat
  {
    if minKeep == 0 then 0 else minKeep - 1
  }

  function Firsts(t: seq<(Logit, real)>): (r: seq<Logit>)
    ensures |r| == |t|
  {
    seq(|t|, i requires 0 <= i < |t| => t[i].0)
  }

  /** The entries paired with their scores and stably sorted by ascending score. */
  function Ranked(s: seq<Logit>, m: Math): seq<(Logit, real)>
  {
    SortBy(Shifted(s, Entropy(s, m, |s|), m), ScoreOf)
  }

  /** How many entries the cut keeps. */
  function TypicalLen(s: seq<Logit>, p: real, minKeep: nat, m: Math): nat
  {
    CutFrom(Ranked(s, m), p, AdjustedMinKeep(minKeep), 0)
  }

  /** What follows the softmax: rank, then keep the prefix; the flags are not touched. */
  function TypicalCutOf(p: real, minKeep: nat, sb: Buf, m: Math): Buf
  {
    sb.(entries := Firsts(Ranked(sb.entries, m)[..TypicalLen(sb.entries, p, minKeep, m)]))
  }

  /** The buffer after locally typical sampling. */
  function TypicalBuf(p: real, minKeep: nat, b: Buf, m: Math): Buf
    requires ExpPositive(m)
  {
    TypicalCutOf(p, minKeep, SoftmaxBuf(b, m), m)
  }

  /**
   * The kept entries are the first `n` of the ranking, where `n` is the
   * first position past which the probability exceeds `p` with at least
   * the adjusted `minKeep` before it, or everything; at least
   * `min(minKeep, len)` entries are kept.
   */
  lemma TypicalLength(p: real, minKeep: nat, sb: Buf, m: Math)
    ensures var n := TypicalLen(sb.entries, p, minKeep, m);
      var t := Ranked(sb.entries, m);
      |t| == |sb.entries| &&
      |TypicalCutOf(p, minKeep, sb, m).entries| == n <= |sb.entries| &&
      (n < |t| ==> n >= 1 && Crosses(t, p, AdjustedMinKeep(minKeep), n - 1)) &&
      (forall j :: 0 <= j < n - 1 ==> !Crosses(t, p, AdjustedMinKeep(minKeep), j)) &&
      n >= (if minKeep < |sb.entries| then minKeep else |sb.entries|)
  {
  }

  /** Each ranked pair is an input entry with its own score. */
  lemma RankedPairs(s: seq<Logit>, m: Math)
    ensures var t := Ranked(s, m);
      |t| == |s| &&
      forall i :: 0 <= i < |t| ==> t[i].0 in s && t[i].1 == Score(t[i].0, Entropy(s, m, |s|), m)
  {
    var ent := Entropy(s, m, |s|);
    var sh := Shifted(s, ent, m);
    var t := Ranked(s, m);
    SortBySpec(sh, ScoreOf);
    forall i | 0 <= i < |t|
      ensures t[i].0 in s && t[i].1 == Score(t[i].0, ent, m)
    {
      assert t[i] in multiset(sh);
      var k :| 0 <= k < |sh| && sh[k] == t[i];
      assert s[k] == t[i].0;
    }
  }

  /**
   * Each kept entry is an unchanged copy of an input entry, and the kept
   * entries come in ascending score order.
   */
  lemma TypicalKept(p: real, minKeep: nat, sb: Buf, m: Math)
    ensures var r := TypicalCutOf(p, minKeep, sb, m);
      var ent := Entropy(sb.entries, m, |sb.entries|);
      (forall i :: 0 <= i < |r.entries| ==> r.entries[i] in sb.entries) &&
      (forall i, j :: 0 <= i < j < |r.entries| ==> Score(r.entries[i], ent, m) <= Score(r.entries[j], ent, m))
  {
    var t := Ranked(sb.entries, m);
    var n := TypicalLen(sb.entries, p, minKeep, m);
    var r := TypicalCutOf(p, minKeep, sb, m);
    RankedPairs(sb.entries, m);
    assert forall i :: 0 <= i < n ==> r.entries[i] == t[i].0;
    SortBySpec(Shifted(sb.entries, Entropy(sb.entries, m, |sb.entries|), m), ScoreOf);
    assert SortedBy(t, ScoreOf);
  }

  /**
   * The kept entries are a prefix of the ranking, which is stable: the
   * entries of any one score appear in their input order; the flags are
   * those of the softmaxed buffer.
   */
  lemma TypicalStable(p: real, minKeep: nat, sb: Buf, m: Math, v: real)
    ensures var r := TypicalCutOf(p, minKeep, sb, m);
      var t := Ranked(sb.entries, m);
      r.entries == Firsts(t)[..|r.entries|] &&
      KeyClass(t, ScoreOf, v) == KeyClass(Shifted(sb.entries, Entropy(sb.entries, m, |sb.entries|), m), ScoreOf, v) &&
      r.sorted == sb.sorted && r.softmax == sb.softmax
  {
    SortByStable(Shifted(sb.entries, Entropy(sb.entries, m, |sb.entries|), m), ScoreOf, v);
  }

  lemma {:induction false} InsertByAfterAll<T>(x: T, s: seq<T>, key: T -> real)
    requires forall i :: 0 <= i < |s| ==> key(s[i]) < key(x)
    ensures InsertBy(x, s, key) == s + [x]
  {
    if s != [] {
      InsertByAfterAll(x, s[1..], key);
      assert s == [s[0]] + s[1..];
    }
  }

  /** An element that scores higher than the rest, all equal, moves behind them. */
  lemma SortFirstLast<T>(s: seq<T>, key: T -> real)
    requires |s| >= 1
    requires forall i, j :: 1 <= i < j < |s| ==> key(s[i]) == key(s[j])
    requires forall i :: 1 <= i < |s| ==> key(s[i]) < key(s[0])
    ensures SortBy(s, key) == s[1..] + [s[0]]
  {
    assert SortedBy(s[1..], key);
    SortByOfSorted(s[1..], key);
    InsertByAfterAll(s[0], s[1..], key);
  }

  /** The cut over probabilities 0.2, 0.2, 0.2, 0.4 with `p` 0.5 keeps three. */
  lemma CutFlat(t: seq<(Logit, real)>)
    requires |t| == 4
    requires t[0].0.prob == 0.2 && t[1].0.prob == 0.2 && t[2].0.prob == 0.2
    ensures CutFrom(t, 0.5, 0, 0) == 3
  {
    assert PairProbSum(t, 1) == 0.2;
    assert PairProbSum(t, 2) == 0.4;
    assert PairProbSum(t, 3) > 0.5;
    assert CutFrom(t, 0.5, 0, 2) == 3;
  }

  /** The cut over a first probability of 0.97 with `p` 0.5 keeps one. */
  lemma CutPeak(t: seq<(Logit, real)>)
    requires |t| >= 1 && t[0].0.prob == 0.97
    ensures CutFrom(t, 0.5, 0, 0) == 1
  {
    assert PairProbSum(t, 1) == 0.97;
  }

  /**
   * Probabilities 0.4, 0.2, 0.2, 0.2 with `p` 0.5 and `minKeep` 1, under
   * any `ln` that makes the 0.2 entries more typical than the 0.4 entry:
   * the three 0.2 entries are kept, in their input order.
   */
  lemma TypicalExampleFlat(l0: Logit, l1: Logit, l2: Logit, l3: Logit, m: Math)
    requires l0.prob == 0.4 && l1.prob == 0.2 && l2.prob == 0.2 && l3.prob == 0.2
    requires var ent := Entropy([l0, l1, l2, l3], m, 4);
      Score(l1, ent, m) < Score(l0, ent, m)
    ensures TypicalCutOf(0.5, 1, Buf([l0, l1, l2, l3], true, true), m).entries == [l1, l2, l3]
  {
    var s := [l0, l1, l2, l3];
    var ent := Entropy(s, m, 4);
    var sh := Shifted(s, ent, m);
    SortFirstLast(sh, ScoreOf);
    var t := Ranked(s, m);
    assert t == sh[1..] + [sh[0]];
    CutFlat(t);
    assert Firsts(t[..3]) == [l1, l2, l3];
  }

  /**
   * Probabilities 0.97, 0.01, 0.01, 0.01 with `p` 0.5 and `minKeep` 1,
   * when the 0.97 entry is the most typical: only it is kept.
   */
  lemma TypicalExamplePeak(l0: Logit, l1: Logit, l2: Logit, l3: Logit, m: Math)
    requires l0.prob == 0.97 && l1.prob == 0.01 && l2.prob == 0.01 && l3.prob == 0.01
    requires var ent := Entropy([l0, l1, l2, l3], m, 4);
      Score(l0, ent, m) < Score(l1, ent, m)
    ensures TypicalCutOf(0.5, 1, Buf([l0, l1, l2, l3], true, true), m).entries == [l0]
  {
    var s := [l0, l1, l2, l3];
    var ent := Entropy(s, m, 4);
    var sh := Shifted(s, ent, m);
    assert SortedBy(sh, ScoreOf);
    SortByOfSorted(sh, ScoreOf);
    var t := Ranked(s, m);
    assert t == sh;
    CutPeak(t);
    assert Firsts(t[..1]) == [l0];
  }

  /** The entropy of the buffer: one pass accumulating `-prob * ln(prob)`. */
  method EntropyOf(s: seq<Logit>, m: Math) returns (ent: real)
    ensures ent == Entropy(s, m, |s|)
  {
    ent := 0.0;
    var i := 0;
    while i < |s|
      invariant 0 <= i <= |s|
      invariant ent == Entropy(s, m, i)
    {
      ent := ent + -s[i].prob * m.ln(s[i].prob);
      i := i + 1;
    }
  }

  /** The scored copy of the entries. */
  method ShiftedOf(s: seq<Logit>, ent: real, m: Math) returns (shifted: seq<(Logit, real)>)
    ensures shifted == Shifted(s, ent, m)
  {
    shifted := [];
    var i := 0;
    while i < |s|
      invariant 0 <= i <= |s|
      invariant shifted == Shifted(s, ent, m)[..i]
    {
      shifted := shifted + [(s[i], Abs(-m.ln(s[i].prob) - ent))];
      i := i + 1;
    }
  }

  /** The cut scan with a running sum; returns the kept length. */
  method CutIndex(t: seq<(Logit, real)>, p: real, mk: nat) returns (lastIdx: nat)
    ensures lastIdx == CutFrom(t, p, mk, 0)
  {
    var cumSum := 0.0;
    lastIdx := |t|;
    var idx := 0;
    while idx < |t|
      invariant idx <= |t| && lastIdx == |t|
      invariant cumSum == PairProbSum(t, idx)
      invariant CutFrom(t, p, mk, 0) == CutFrom(t, p, mk, idx)
    {
      cumSum := cumSum + t[idx].0.prob;
      if cumSum > p && idx >= mk {
        lastIdx := idx + 1;
        break;
      }
      idx := idx + 1;
    }
  }

  /** Replaces the entries by the first `n` scored entries, pushed one by one. */
  method Refill(logits: Logits, t: seq<(Logit, real)>, n: nat)
    requires n <= |t|
    modifies logits
    ensures logits.entries == Firsts(t[..n])
    ensures logits.sorted == old(logits.sorted) && logits.softmax == old(logits.softmax)
  {
    logits.entries := [];
    var i := 0;
    while i < n
      invariant 0 <= i <= n
      invariant logits.entries == Firsts(t[..i])
      invariant logits.sorted == old(logits.sorted) && logits.softmax == old(logits.softmax)
    {
      logits.entries := logits.entries + [t[i].0];
      i := i + 1;
    }
  }

  datatype SampleLocallyTypical = SampleLocallyTypical(p: real, minKeep: nat)
  {
    method Sample(m: Math, logits: Logits)
      requires ExpPositive(m)
      modifies logits
      ensures logits.State() == TypicalBuf(p, minKeep, old(logits.State()), m)
    {
      var mk := if minKeep == 0 then 0 else minKeep - 1;
      logits.Softmax(m);
      ghost var sb := logits.State();
      var ent := EntropyOf(logits.entries, m);
      var shifted := ShiftedOf(logits.entries, ent, m);
      shifted := SortBy(shifted, ScoreOf);
      var lastIdx := CutIndex(shifted, p, mk);
      Refill(logits, shifted, lastIdx);
      assert logits.State() == TypicalCutOf(p, minKeep, sb, m);
    }
  }
}
