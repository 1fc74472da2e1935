/** Top-K: keeps the `k` highest-scoring entries (at least `minKeep`). */
module TopK {
  import opened Types

  function Max(a: nat, b: nat): nat { if a >= b then a else b }

  /** The buffer after top-k: sorted, then cut to `max(k, minKeep)` entries. */
  function TopKBuf(k: nat, minKeep: nat, b: Buf): Buf
  {
    Buf(Truncated(SortedView(b), Max(k, minKeep)), true, b.softmax)
  }

  /** In a non-increasing sequence no entry after position `n` beats one before it. */
  lemma PrefixDominates(t: seq<Logit>, n: nat)
    requires NonIncreasing(t) && n <= |t|
    ensures forall x, y :: x in t[..n] && y in t[n..] ==> x.logit >= y.logit
  {
    forall x, y | x in t[..n] && y in t[n..]
      ensures x.logit >= y.logit
    {
      var i :| 0 <= i < n && t[..n][i] == x;
      var j :| 0 <= j < |t| - n && t[n..][j] == y;
      assert t[i] == x && t[n + j] == y;
    }
  }

  /**
   * Top-k keeps `min(max(k, minKeep), len)` entries, a prefix of the sorted
   * buffer drawn from the original entries, and (when the buffer was not
   * already flagged sorted) no dropped entry scores higher than a kept one.
   */
  lemma TopKKeepsHighest(k: nat, minKeep: nat, b: Buf)
    ensures var r := TopKBuf(k, minKeep, b).entries;
      |r| == (if Max(k, minKeep) < |b.entries| then Max(k, minKeep) else |b.entries|) &&
      multiset(r) <= multiset(b.entries) && r == SortedView(b)[..|r|]
    ensures !b.sorted ==>
      var r := TopKBuf(k, minKeep, b).entries;
      forall x, y :: x in r && y in multiset(b.entries) - multiset(r) ==> x.logit >= y.logit
  {
    var t := SortedView(b);
    var r := TopKBuf(k, minKeep, b).entries;
    assert t == r + t[|r|..];
    assert multiset(t) == multiset(r) + multiset(t[|r|..]);
    if !b.sorted {
      PrefixDominates(t, |r|);
      assert multiset(b.entries) - multiset(r) == multiset(t[|r|..]);
    }
  }

  function Reverse(s: seq<Logit>): (r: seq<Logit>)
    ensures |r| == |s|
  {
    if s == [] then [] else Reverse(s[1..]) + [s[0]]
  }

  /** An entry below everything else is inserted at the end. */
  lemma {:induction false} InsertBelowAll(x: Logit, s: seq<Logit>)
    requires forall i :: 0 <= i < |s| ==> s[i].logit > x.logit
    ensures InsertBy(x, s, NegLogit) == s + [x]
  {
    if s != [] {
      assert NegLogit(x) > NegLogit(s[0]);
      InsertBelowAll(x, s[1..]);
      assert s == [s[0]] + s[1..];
    }
  }

  lemma {:induction false} ReverseElems(s: seq<Logit>)
    ensures forall y :: y in Reverse(s) <==> y in s
  {
    if s != [] {
      ReverseElems(s[1..]);
      assert s == [s[0]] + s[1..];
    }
  }

  /** Sorting entries with strictly increasing logits reverses them. */
  lemma {:induction false} SortDescOfIncreasing(s: seq<Logit>)
    requires forall i, j :: 0 <= i < j < |s| ==> s[i].logit < s[j].logit
    ensures SortDesc(s) == Reverse(s)
  {
    if s != [] {
      SortDescOfIncreasing(s[1..]);
      ReverseElems(s[1..]);
      var r := Reverse(s[1..]);
      forall i | 0 <= i < |r| ensures r[i].logit > s[0].logit {
        assert r[i] in s[1..];
      }
      InsertBelowAll(s[0], r);
    }
  }

  lemma ReverseOfFour(l0: Logit, l1: Logit, l2: Logit, l3: Logit)
    ensures Reverse([l0, l1, l2, l3]) == [l3, l2, l1, l0]
  {
    assert [l3][1..] == [];
    assert Reverse([l3]) == [l3];
    assert [l2, l3][1..] == [l3];
    assert Reverse([l2, l3]) == [l3, l2];
    assert [l1, l2, l3][1..] == [l2, l3];
    assert Reverse([l1, l2, l3]) == [l3, l2, l1];
    assert [l0, l1, l2, l3][1..] == [l1, l2, l3];
  }

  lemma SortFour(l0: Logit, l1: Logit, l2: Logit, l3: Logit)
    requires l0.logit < l1.logit < l2.logit < l3.logit
    ensures SortDesc([l0, l1, l2, l3]) == [l3, l2, l1, l0]
  {
    SortDescOfIncreasing([l0, l1, l2, l3]);
    ReverseOfFour(l0, l1, l2, l3);
  }

  /**
   * Four entries with increasing logits, such as the scores 0.1, 0.2, 0.3,
   * 0.4 of tokens 0 to 3: top-1 keeps the last and top-3 the last three,
   * highest first.
   */
  lemma TopKExamples(l0: Logit, l1: Logit, l2: Logit, l3: Logit)
    requires l0.logit < l1.logit < l2.logit < l3.logit
    ensures TopKBuf(1, 0, Buf([l0, l1, l2, l3], false, false)).entries == [l3]
    ensures TopKBuf(3, 0, Buf([l0, l1, l2, l3], false, false)).entries == [l3, l2, l1]
  {
    SortFour(l0, l1, l2, l3);
    var t := [l3, l2, l1, l0];
    assert t[..1] == [l3];
    assert t[..3] == [l3, l2, l1];
  }

  datatype SampleTopK = SampleTopK(k: nat, minKeep: nat)
  {
    method Sample(logits: Logits)
      modifies logits
      ensures logits.State() == TopKBuf(k, minKeep, old(logits.State()))
    {
      var n := if Max(k, minKeep) < |logits.entries| then Max(k, minKeep) else |logits.entries|;
      logits.EnsureSorted();
      logits.Truncate(n);
    }
  }
}
