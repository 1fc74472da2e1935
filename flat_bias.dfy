/**
 * Flat bias: a list of (token id, bias) pairs; each entry whose id appears
 * in the list gets the bias of the first pair naming it added to its logit.
 */
module FlatBias {
  import opened Types
  import opened Values
  import opened Metadata

  /** The bias of the first pair naming `tid`, if any. */
  function FirstBias(bias: seq<(nat, real)>, tid: nat): (r: Option<real>)
    ensures r.None? <==> forall j :: 0 <= j < |bias| ==> bias[j].0 != tid
    ensures r.Some? ==> exists j :: (0 <= j < |bias| && bias[j] == (tid, r.value) &&
      forall k :: 0 <= k < j ==> bias[k].0 != tid)
  {
    if bias == [] then None
    else if bias[0].0 == tid then Some(bias[0].1)
    else FirstBias(bias[1..], tid)
  }

  /** The entry with its bias added, when it has one. */
  function Biased(l: Logit, bias: seq<(nat, real)>): Logit
  {
    match FirstBias(bias, l.tokenId)
    case Some(bv) => l.(logit := l.logit + bv)
    case None => l
  }

  /** Some entry of `s` is named in the bias list. */
  predicate AnyMatch(s: seq<Logit>, bias: seq<(nat, real)>)
  {
    exists i :: 0 <= i < |s| && FirstBias(bias, s[i].tokenId).Some?
  }

  /** The buffer after flat bias: entries biased, both flags cleared iff something matched. */
  function FlatBiasBuf(bias: seq<(nat, real)>, b: Buf): Buf
  {
    if AnyMatch(b.entries, bias) then
      Buf(seq(|b.entries|, i requires 0 <= i < |b.entries| => Biased(b.entries[i], bias)), false, false)
    else b
  }

  /**
   * Length and order are kept; an entry named in the list gets the bias of
   * the first pair naming it added, every other entry is unchanged.
   */
  lemma FlatBiasEntries(bias: seq<(nat, real)>, b: Buf)
    ensures |FlatBiasBuf(bias, b).entries| == |b.entries|
    ensures forall i :: 0 <= i < |b.entries| ==>
      FlatBiasBuf(bias, b).entries[i] ==
        (if FirstBias(bias, b.entries[i].tokenId).Some?
         then b.entries[i].(logit := b.entries[i].logit + FirstBias(bias, b.entries[i].tokenId).value)
         else b.entries[i])
    ensures FlatBiasBuf(bias, b).sorted == (b.sorted && !AnyMatch(b.entries, bias))
    ensures FlatBiasBuf(bias, b).softmax == (b.softmax && !AnyMatch(b.entries, bias))
    ensures !AnyMatch(b.entries, bias) ==> FlatBiasBuf(bias, b) == b
  {
  }

  /** An empty bias list changes nothing. */
  lemma FlatBiasEmpty(b: Buf)
    ensures FlatBiasBuf([], b) == b
  {
  }

  /**
   * A single pair `(k, v)` changes the logit of the entry with id `k` by
   * `v` and leaves every other entry alone.
   */
  lemma FlatBiasSingle(k: nat, v: real, b: Buf)
    ensures forall i :: 0 <= i < |b.entries| ==>
      FlatBiasBuf([(k, v)], b).entries[i] ==
        (if b.entries[i].tokenId == k then b.entries[i].(logit := b.entries[i].logit + v) else b.entries[i])
  {
    FlatBiasEntries([(k, v)], b);
  }

  /** The flat bias sampler declares no options. */
  function FlatBiasMetadata(): SamplerMetadata
  {
    SamplerMetadata("flat bias", [])
  }

  /** With no options, no key resolves, so every non-empty configure segment fails. */
  lemma FlatBiasNoOptions<T>(key: string)
    ensures FindOptionDefinition(BuildOptions<T>(FlatBiasMetadata().options, []), key).Err?
  {
  }

  /** The first `n` entries biased, the rest as they were. */
  function BiasedBelow(s: seq<Logit>, bias: seq<(nat, real)>, n: nat): (r: seq<Logit>)
    ensures |r| == |s|
  {
    seq(|s|, j requires 0 <= j < |s| => if j < n then Biased(s[j], bias) else s[j])
  }

  /** Biasing one more entry updates that entry alone. */
  lemma BiasedBelowStep(s: seq<Logit>, bias: seq<(nat, real)>, n: nat)
    requires n < |s|
    ensures BiasedBelow(s, bias, n + 1) == BiasedBelow(s, bias, n)[n := Biased(s[n], bias)]
  {
  }

  /** Some entry among the first `n` is named in the bias list. */
  predicate MatchBelow(s: seq<Logit>, bias: seq<(nat, real)>, n: nat)
    requires n <= |s|
  {
    n > 0 && (MatchBelow(s, bias, n - 1) || FirstBias(bias, s[n - 1].tokenId).Some?)
  }

  lemma {:induction false} MatchBelowAny(s: seq<Logit>, bias: seq<(nat, real)>, n: nat)
    requires n <= |s|
    ensures MatchBelow(s, bias, n) <==> exists i :: 0 <= i < n && FirstBias(bias, s[i].tokenId).Some?
  {
    if n > 0 {
      MatchBelowAny(s, bias, n - 1);
    }
  }

  datatype SampleFlatBias = SampleFlatBias(bias: seq<(nat, real)>)
  {
    method Sample(logits: Logits)
      modifies logits
      ensures logits.State() == FlatBiasBuf(bias, old(logits.State()))
    {
      ghost var s := logits.entries;
      var changed := 0;
      var i := 0;
      while i < |logits.entries|
        invariant 0 <= i <= |logits.entries| == |s|
        invariant logits.sorted == old(logits.sorted) && logits.softmax == old(logits.softmax)
        invariant logits.entries == BiasedBelow(s, bias, i)
        invariant changed > 0 <==> MatchBelow(s, bias, i)
      {
        var e := logits.entries;
        var found := FirstBias(bias, e[i].tokenId);
        assert e[i] == s[i];
        BiasedBelowStep(s, bias, i);
        if found.Some? {
          logits.entries := e[i := e[i].(logit := e[i].logit + found.value)];
          changed := changed + 1;
        } else {
          assert e[i := e[i]] == e;
        }
        i := i + 1;
      }
      MatchBelowAny(s, bias, |s|);
      if changed > 0 {
        assert logits.entries == seq(|s|, j requires 0 <= j < |s| => Biased(s[j], bias));
        logits.SetSorted(false);
        logits.SetSoftmax(false);
      } else {
        assert logits.entries == s;
      }
    }
  }
}
