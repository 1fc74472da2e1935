/**
 * The older repetition penalty: every entry whose token id occurs in the
 * given token slice has a non-positive logit multiplied by the penalty and
 * a positive logit divided by it.
 */
module Repetition {
  import opened Types

  /** One penalised logit. */
  function Penalised(x: real, penalty: real): real
    requires penalty != 0.0
  {
    if x <= 0.0 then x * penalty else x / penalty
  }

  /** One entry after the penalty. */
  function PenaliseEntry(l: Logit, penalty: real, tokens: seq<nat>): Logit
    requires penalty != 0.0
  {
    if l.tokenId in tokens then l.(logit := Penalised(l.logit, penalty)) else l
  }

  /** The buffer after the penalty; the sorted flag is always cleared. */
  function RepetitionBuf(penalty: real, tokens: seq<nat>, b: Buf): Buf
    requires penalty != 0.0
  {
    Buf(seq(|b.entries|, i requires 0 <= i < |b.entries| => PenaliseEntry(b.entries[i], penalty, tokens)),
        false, b.softmax)
  }

  /**
   * Only entries whose id occurs in `tokens` change, and only in their
   * logit; length, ids and order are kept; the sorted flag is cleared and
   * the softmax flag kept.
   */
  lemma RepetitionEntries(penalty: real, tokens: seq<nat>, b: Buf)
    requires penalty != 0.0
    ensures |RepetitionBuf(penalty, tokens, b).entries| == |b.entries|
    ensures forall i :: 0 <= i < |b.entries| ==>
      var l := b.entries[i];
      var r := RepetitionBuf(penalty, tokens, b).entries[i];
      r.tokenId == l.tokenId && r.prob == l.prob &&
      (l.tokenId !in tokens ==> r == l) &&
      (l.tokenId in tokens && l.logit <= 0.0 ==> r.logit == l.logit * penalty) &&
      (l.tokenId in tokens && l.logit > 0.0 ==> r.logit * penalty == l.logit)
    ensures !RepetitionBuf(penalty, tokens, b).sorted
    ensures RepetitionBuf(penalty, tokens, b).softmax == b.softmax
  {
  }

  lemma PenaltyLowers(x: real, penalty: real)
    requires penalty >= 1.0
    ensures Penalised(x, penalty) <= x
  {
    if x <= 0.0 {
      assert x * penalty == x + x * (penalty - 1.0);
      assert x * (penalty - 1.0) <= 0.0;
    } else {
      assert x / penalty * penalty == x;
      assert x / penalty > 0.0;
      assert x / penalty * (penalty - 1.0) >= 0.0;
    }
  }

  /** A penalty of at least 1 never raises a logit. */
  lemma RepetitionLowers(penalty: real, tokens: seq<nat>, b: Buf)
    requires penalty >= 1.0
    ensures forall i :: 0 <= i < |b.entries| ==>
      RepetitionBuf(penalty, tokens, b).entries[i].logit <= b.entries[i].logit
  {
    forall i | 0 <= i < |b.entries|
      ensures RepetitionBuf(penalty, tokens, b).entries[i].logit <= b.entries[i].logit
    {
      PenaltyLowers(b.entries[i].logit, penalty);
    }
  }

  /** A penalty of 1 changes no entry; only the sorted flag is cleared. */
  lemma RepetitionNeutral(tokens: seq<nat>, b: Buf)
    ensures RepetitionBuf(1.0, tokens, b) == b.(sorted := false)
  {
    assert RepetitionBuf(1.0, tokens, b).entries == b.entries;
  }

  datatype SampleRepetition = SampleRepetition(penalty: real, tokens: seq<nat>)
  {
    method Sample(logits: Logits)
      requires penalty != 0.0
      modifies logits
      ensures logits.State() == RepetitionBuf(penalty, tokens, old(logits.State()))
    {
      ghost var s := logits.entries;
      var i := 0;
      while i < |logits.entries|
        invariant 0 <= i <= |logits.entries| == |s|
        invariant logits.sorted == old(logits.sorted) && logits.softmax == old(logits.softmax)
        invariant forall j :: 0 <= j < i ==> logits.entries[j] == PenaliseEntry(s[j], penalty, tokens)
        invariant forall j :: i <= j < |s| ==> logits.entries[j] == s[j]
      {
        var l := logits.entries[i];
        if l.tokenId in tokens {
          if l.logit <= 0.0 {
            logits.entries := logits.entries[i := l.(logit := l.logit * penalty)];
          } else {
            logits.entries := logits.entries[i := l.(logit := l.logit / penalty)];
          }
        }
        i := i + 1;
      }
      logits.SetSorted(false);
    }
  }
}
