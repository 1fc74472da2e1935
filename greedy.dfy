/** Greedy selection: reports the token with the highest logit. */
module Greedy {
  import opened Types

  /** Position of the first entry with the largest logit. */
  function FirstMaxIndex(s: seq<Logit>): (i: nat)
    requires s != []
    ensures i < |s|
  {
    if |s| == 1 then 0
    else
      var j := FirstMaxIndex(s[..|s| - 1]);
      if s[|s| - 1].logit > s[j].logit then |s| - 1 else j
  }

  /** The entry `FirstMaxIndex` picks has the largest logit and no earlier entry ties it. */
  lemma {:induction false} FirstMaxIndexIsFirstMax(s: seq<Logit>)
    requires s != []
    ensures forall k :: 0 <= k < |s| ==> s[k].logit <= s[FirstMaxIndex(s)].logit
    ensures forall k :: 0 <= k < FirstMaxIndex(s) ==> s[k].logit < s[FirstMaxIndex(s)].logit
  {
    if |s| > 1 {
      var t := s[..|s| - 1];
      FirstMaxIndexIsFirstMax(t);
      assert forall k :: 0 <= k < |t| ==> t[k] == s[k];
    }
  }

  /** Conversely, any position with those two properties is `FirstMaxIndex`. */
  lemma FirstMaxIndexUnique(s: seq<Logit>, i: nat)
    requires i < |s|
    requires forall k :: 0 <= k < |s| ==> s[k].logit <= s[i].logit
    requires forall k :: 0 <= k < i ==> s[k].logit < s[i].logit
    ensures FirstMaxIndex(s) == i
  {
    FirstMaxIndexIsFirstMax(s);
  }

  /** The token greedy sampling reports for a buffer. */
  function GreedyToken(s: seq<Logit>): Option<nat>
  {
    if s == [] then None else Some(s[FirstMaxIndex(s)].tokenId)
  }

  /** A reported token belongs to an entry whose logit no other entry exceeds. */
  lemma GreedyTokenIsMax(s: seq<Logit>)
    ensures GreedyToken(s).None? <==> s == []
    ensures GreedyToken(s).Some? ==>
      exists i :: 0 <= i < |s| && s[i].tokenId == GreedyToken(s).value &&
        forall k :: 0 <= k < |s| ==> s[k].logit <= s[i].logit
  {
    if s != [] {
      FirstMaxIndexIsFirstMax(s);
    }
  }

  /** Scores 0.1, 0.2, 0.3, 0.4 select token 3; reversed they select token 0. */
  lemma GreedyExamples()
    ensures GreedyToken(Enumerate([0.1, 0.2, 0.3, 0.4])) == Some(3)
    ensures GreedyToken(Enumerate([0.4, 0.3, 0.2, 0.1])) == Some(0)
  {
    var a := Enumerate([0.1, 0.2, 0.3, 0.4]);
    FirstMaxIndexUnique(a, 3);
    var b := Enumerate([0.4, 0.3, 0.2, 0.1]);
    FirstMaxIndexUnique(b, 0);
  }

  class SampleGreedy {
    var tokenId: Option<nat>

    constructor ()
      ensures tokenId == None
    {
      tokenId := None;
    }

    function SampledTokenId(): Option<nat>
      reads this
    {
      tokenId
    }

    /** Scans the buffer once; the buffer itself is left untouched. */
    method Sample(logits: Logits)
      modifies this
      ensures tokenId == GreedyToken(logits.entries)
    {
      tokenId := None;
      if logits.entries == [] {
        return;
      }
      ghost var s := logits.entries;
      var result := logits.entries[0];
      ghost var idx := 0;
      var i := 1;
      while i < |logits.entries|
        invariant 1 <= i <= |s|
        invariant idx == FirstMaxIndex(s[..i]) && result == s[idx]
      {
        assert s[..i + 1][..i] == s[..i];
        if logits.entries[i].logit > result.logit {
          result := logits.entries[i];
          idx := i;
        }
        i := i + 1;
      }
      assert s[..i] == s;
      tokenId := Some(result.tokenId);
    }
  }
}
