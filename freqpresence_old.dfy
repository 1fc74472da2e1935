/**
 * The older frequency/presence penalty, which takes the token slice
 * directly, has no guards and always clears the sorted flag.
 */
module FreqPresenceOld {
  import opened Types
  import opened History
  import FreqPresence

  /** The buffer after the older penalty. */
  function FreqPresenceOldBuf(alphaFrequency: real, alphaPresence: real, lastN: nat, tokens: seq<nat>, b: Buf): Buf
  {
    Buf(FreqPresence.Penalised(b.entries, LastN(tokens, lastN), alphaFrequency, alphaPresence), false, b.softmax)
  }

  /**
   * Entries whose token occurs `c > 0` times among the last `lastN` tokens
   * lose `c * alphaFrequency + alphaPresence`; the others are unchanged;
   * the sorted flag is cleared and the softmax flag kept.
   */
  lemma FreqPresenceOldEntries(alphaFrequency: real, alphaPresence: real, lastN: nat, tokens: seq<nat>, b: Buf)
    ensures |FreqPresenceOldBuf(alphaFrequency, alphaPresence, lastN, tokens, b).entries| == |b.entries|
    ensures forall i :: 0 <= i < |b.entries| ==>
      var c := multiset(LastN(tokens, lastN))[b.entries[i].tokenId];
      FreqPresenceOldBuf(alphaFrequency, alphaPresence, lastN, tokens, b).entries[i] ==
        if c > 0 then b.entries[i].(logit := b.entries[i].logit - FreqPresence.Penalty(c, alphaFrequency, alphaPresence))
        else b.entries[i]
    ensures !FreqPresenceOldBuf(alphaFrequency, alphaPresence, lastN, tokens, b).sorted
    ensures FreqPresenceOldBuf(alphaFrequency, alphaPresence, lastN, tokens, b).softmax == b.softmax
  {
  }

  /** A window of zero tokens changes no entry; the sorted flag is still cleared. */
  lemma FreqPresenceOldEmptyWindow(alphaFrequency: real, alphaPresence: real, tokens: seq<nat>, b: Buf)
    ensures FreqPresenceOldBuf(alphaFrequency, alphaPresence, 0, tokens, b) == b.(sorted := false)
  {
    assert LastN(tokens, 0) == [];
    assert FreqPresence.Penalised(b.entries, [], alphaFrequency, alphaPresence) == b.entries;
  }

  datatype SampleFreqPresence = SampleFreqPresence(alphaFrequency: real, alphaPresence: real, lastN: nat, tokens: seq<nat>)
  {
    method Sample(logits: Logits)
      modifies logits
      ensures logits.State() == FreqPresenceOldBuf(alphaFrequency, alphaPresence, lastN, tokens, old(logits.State()))
    {
      var window := if lastN > |tokens| then tokens else tokens[|tokens| - lastN..];
      assert window == LastN(tokens, lastN);
      var counts := CountTokens(window);
      var _ := FreqPresence.PenaliseCounted(logits, counts, window, alphaFrequency, alphaPresence);
      logits.SetSorted(false);
    }
  }
}
