/**
 * Frequency/presence penalty: an entry whose token occurs `c > 0` times in
 * the last `last_n` tokens of the history loses `c * frequency_penalty +
 * presence_penalty` from its logit.
 */
module FreqPresence {
  import opened Types
  import opened Values
  import opened Metadata
  import opened History

  /** The amount taken off the logit of a token seen `c` times. */
  function Penalty(c: nat, freq: real, pres: real): real
  {
    c as real * freq + (if c > 0 then 1.0 else 0.0) * pres
  }

  /** One entry after the penalty, given the window `w`. */
  function PenaliseEntry(l: Logit, w: seq<nat>, freq: real, pres: real): Logit
  {
    var c := Count(w, l.tokenId);
    if c > 0 then l.(logit := l.logit - Penalty(c, freq, pres)) else l
  }

  /** Some entry's token occurs in the window. */
  predicate AnySeen(s: seq<Logit>, w: seq<nat>)
  {
    exists i :: 0 <= i < |s| && Count(w, s[i].tokenId) > 0
  }

  /** The entries after the penalty. */
  function Penalised(s: seq<Logit>, w: seq<nat>, freq: real, pres: real): seq<Logit>
  {
    seq(|s|, i requires 0 <= i < |s| => PenaliseEntry(s[i], w, freq, pres))
  }

  /**
   * The sampler's effect: nothing when the buffer is empty, `lastN` is 0 or
   * both penalties are 0; a missing history is an error; otherwise the
   * entries are penalised and both flags cleared iff some entry changed.
   */
  function FreqPresenceStep(freq: real, pres: real, lastN: nat, history: Option<seq<nat>>, b: Buf): Step
  {
    if b.entries == [] || lastN == 0 || (freq == 0.0 && pres == 0.0) then Step(b, None)
    else match history
      case None => Step(b, Some(MissingResource("last_tokens")))
      case Some(h) =>
        var w := LastN(h, lastN);
        if AnySeen(b.entries, w) then Step(Buf(Penalised(b.entries, w, freq, pres), false, false), None)
        else Step(b, None)
  }

  /** The guards make the sampler a no-op, whatever the history. */
  lemma FreqPresenceNoop(freq: real, pres: real, lastN: nat, history: Option<seq<nat>>, b: Buf)
    requires b.entries == [] || lastN == 0 || (freq == 0.0 && pres == 0.0)
    ensures FreqPresenceStep(freq, pres, lastN, history, b) == Step(b, None)
  {
  }

  /** Past the guards, a missing history is reported and the buffer is untouched. */
  lemma FreqPresenceMissingHistory(freq: real, pres: real, lastN: nat, b: Buf)
    requires b.entries != [] && lastN > 0 && (freq != 0.0 || pres != 0.0)
    ensures FreqPresenceStep(freq, pres, lastN, None, b) == Step(b, Some(MissingResource("last_tokens")))
  {
  }

  /** For a token that was seen, the penalty is `c * freq + pres`. */
  lemma PenaltyOfSeen(c: nat, freq: real, pres: real)
    requires c > 0
    ensures Penalty(c, freq, pres) == c as real * freq + pres
  {
  }

  /**
   * With a history, each entry seen `c > 0` times in the last `lastN`
   * tokens loses `Penalty(c, freq, pres)`; all other entries are
   * unchanged; length and order are kept, and both flags are cleared iff
   * some entry was seen.
   */
  lemma FreqPresenceEntries(freq: real, pres: real, lastN: nat, h: seq<nat>, b: Buf)
    requires b.entries != [] && lastN > 0 && (freq != 0.0 || pres != 0.0)
    ensures FreqPresenceStep(freq, pres, lastN, Some(h), b).err == None
    ensures |FreqPresenceStep(freq, pres, lastN, Some(h), b).buf.entries| == |b.entries|
    ensures forall i :: 0 <= i < |b.entries| ==>
      var c := multiset(LastN(h, lastN))[b.entries[i].tokenId];
      FreqPresenceStep(freq, pres, lastN, Some(h), b).buf.entries[i] ==
        if c > 0 then b.entries[i].(logit := b.entries[i].logit - Penalty(c, freq, pres)) else b.entries[i]
    ensures FreqPresenceStep(freq, pres, lastN, Some(h), b).buf.sorted == (b.sorted && !AnySeen(b.entries, LastN(h, lastN)))
    ensures FreqPresenceStep(freq, pres, lastN, Some(h), b).buf.softmax == (b.softmax && !AnySeen(b.entries, LastN(h, lastN)))
  {
    var w := LastN(h, lastN);
    var r := FreqPresenceStep(freq, pres, lastN, Some(h), b);
    if AnySeen(b.entries, w) {
      assert r.buf.entries == Penalised(b.entries, w, freq, pres);
    } else {
      assert r.buf == b;
    }
  }

  /** Non-negative penalties never raise a logit. */
  lemma FreqPresenceLowers(freq: real, pres: real, lastN: nat, h: seq<nat>, b: Buf)
    requires freq >= 0.0 && pres >= 0.0
    ensures var r := FreqPresenceStep(freq, pres, lastN, Some(h), b);
      |r.buf.entries| == |b.entries| &&
      forall i :: 0 <= i < |b.entries| ==> r.buf.entries[i].logit <= b.entries[i].logit
  {
    var r := FreqPresenceStep(freq, pres, lastN, Some(h), b);
    if !(b.entries == [] || lastN == 0 || (freq == 0.0 && pres == 0.0)) {
      var w := LastN(h, lastN);
      if AnySeen(b.entries, w) {
        assert r.buf.entries == Penalised(b.entries, w, freq, pres);
        forall i | 0 <= i < |b.entries|
          ensures r.buf.entries[i].logit <= b.entries[i].logit
        {
          PenaliseEntryLowers(b.entries[i], w, freq, pres);
        }
      }
    }
  }

  /** A non-negative penalty never raises the entry's logit. */
  lemma PenaliseEntryLowers(l: Logit, w: seq<nat>, freq: real, pres: real)
    requires freq >= 0.0 && pres >= 0.0
    ensures PenaliseEntry(l, w, freq, pres).logit <= l.logit
  {
    var c := Count(w, l.tokenId);
    assert c as real * freq >= 0.0;
  }

  function FreqPresenceMetadata(): SamplerMetadata
  {
    SamplerMetadata("frequency/presence", [
      OptionMetadata("frequency_penalty", FloatType),
      OptionMetadata("presence_penalty", FloatType),
      OptionMetadata("last_n", UIntType)])
  }

  /** The option keys, in order. */
  lemma FreqPresenceKeys()
    ensures Keys(FreqPresenceMetadata().options) == ["frequency_penalty", "presence_penalty", "last_n"]
  {
  }

  /**
   * The rewrite loop: subtracts the penalty from every entry whose token
   * has a count, and reports how many entries changed.
   */
  method PenaliseCounted(logits: Logits, counts: map<nat, nat>, ghost w: seq<nat>, freq: real, pres: real)
    returns (changed: nat)
    requires forall t :: t in counts <==> t in w
    requires forall t :: t in counts ==> counts[t] == Count(w, t)
    modifies logits
    ensures logits.entries == Penalised(old(logits.entries), w, freq, pres)
    ensures logits.sorted == old(logits.sorted) && logits.softmax == old(logits.softmax)
    ensures changed > 0 <==> AnySeen(old(logits.entries), w)
  {
    ghost var s := logits.entries;
    changed := 0;
    var i := 0;
    while i < |logits.entries|
      invariant 0 <= i <= |logits.entries| == |s|
      invariant logits.sorted == old(logits.sorted) && logits.softmax == old(logits.softmax)
      invariant forall j :: 0 <= j < i ==> logits.entries[j] == PenaliseEntry(s[j], w, freq, pres)
      invariant forall j :: i <= j < |s| ==> logits.entries[j] == s[j]
      invariant changed > 0 <==> exists j :: 0 <= j < i && Count(w, s[j].tokenId) > 0
    {
      var l := logits.entries[i];
      if l.tokenId in counts {
        var cnt := counts[l.tokenId];
        if cnt > 0 {
          var p := Penalty(cnt, freq, pres);
          logits.entries := logits.entries[i := l.(logit := l.logit - p)];
          changed := changed + 1;
        }
      } else {
        assert Count(w, l.tokenId) == 0;
      }
      i := i + 1;
    }
  }

  datatype SampleFreqPresence = SampleFreqPresence(frequencyPenalty: real, presencePenalty: real, lastN: nat)
  {
    method Sample(res: Resources, logits: Logits) returns (err: Option<SamplerError>)
      modifies logits
      ensures Step(logits.State(), err)
        == FreqPresenceStep(frequencyPenalty, presencePenalty, lastN, res.lastTokens, old(logits.State()))
    {
      if logits.entries == [] || lastN == 0 || (frequencyPenalty == 0.0 && presencePenalty == 0.0) {
        return None;
      }
      if res.lastTokens.None? {
        return Some(MissingResource("last_tokens"));
      }
      var origTokens := res.lastTokens.value;
      var tokens := if lastN > |origTokens| then origTokens else origTokens[|origTokens| - lastN..];
      assert tokens == LastN(origTokens, lastN);
      var counts := CountTokens(tokens);
      var changed := PenaliseCounted(logits, counts, tokens, frequencyPenalty, presencePenalty);
      if changed > 0 {
        logits.SetSorted(false);
        logits.SetSoftmax(false);
      } else {
        assert logits.entries == old(logits.entries);
      }
      err := None;
    }
  }
}
