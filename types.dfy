/**
 * The shared vocabulary of the samplers: a candidate token (`Logit`), the
 * mutable candidate buffer (`Logits`) with its `sorted` and `softmax` flags,
 * the sampler error kinds and the stable sort the buffer relies on.
 */
module Types {

  datatype Option<T> = None | Some(value: T)

  datatype Result<T, E> = Ok(value: T) | Err(error: E)

  /** Errors a sampler can report. */
  datatype SamplerError =
    | InternalError(msg: string)
    | MissingResource(name: string)
    | RandError(msg: string)

  /**
   * What a sampler may draw on besides the buffer: the recent token history
   * (absent when the caller provides none) and the outcome of the weighted
   * random draw over a buffer (the random number generator is not modelled).
   */
  datatype Resources = Resources(
    lastTokens: Option<seq<nat>>,
    draw: seq<Logit> -> Result<Option<nat>, SamplerError>)

  /** One candidate token: its id, its score and its probability. */
  datatype Logit = Logit(tokenId: nat, logit: real, prob: real)

  /** A value snapshot of a `Logits` buffer. */
  datatype Buf = Buf(entries: seq<Logit>, sorted: bool, softmax: bool)

  /**
   * What a sampler that can fail leaves behind: the buffer as it is when
   * the sampler returns, and the error when it failed.
   */
  datatype Step = Step(buf: Buf, err: Option<SamplerError>)

  /**
   * The floating-point functions the samplers call. They are inputs of the
   * model: the only fact relied on is that `exp` is positive.
   */
  datatype Math = Math(
    exp: real -> real,
    ln: real -> real,
    log2: real -> real,
    powf: (real, real) -> real)

  ghost predicate ExpPositive(m: Math)
  {
    forall x :: m.exp(x) > 0.0
  }

  // ---------------------------------------------------------------------
  // Stable sort by a real-valued key (ascending)
  // ---------------------------------------------------------------------

  predicate SortedBy<T>(s: seq<T>, key: T -> real)
  {
    forall i, j :: 0 <= i < j < |s| ==> key(s[i]) <= key(s[j])
  }

  /** The elements of `s` whose key equals `v`, in their order in `s`. */
  function KeyClass<T>(s: seq<T>, key: T -> real, v: real): seq<T>
  {
    if s == [] then []
    else (if key(s[0]) == v then [s[0]] else []) + KeyClass(s[1..], key, v)
  }

  /** Inserts `x` in front of the first element whose key is not smaller. */
  function InsertBy<T>(x: T, s: seq<T>, key: T -> real): (r: seq<T>)
    ensures |r| == |s| + 1
  {
    if s == [] || key(x) <= key(s[0]) then [x] + s
    else [s[0]] + InsertBy(x, s[1..], key)
  }

  /** Insertion adds exactly `x`. */
  lemma {:induction false} InsertByPerm<T>(x: T, s: seq<T>, key: T -> real)
    ensures multiset(InsertBy(x, s, key)) == multiset(s) + multiset{x}
  {
    if s != [] && key(x) > key(s[0]) {
      InsertByPerm(x, s[1..], key);
      assert s == [s[0]] + s[1..];
      assert InsertBy(x, s, key) == [s[0]] + InsertBy(x, s[1..], key);
    }
  }

  /** A lower bound on the keys of `x` and of `s` bounds the keys after insertion. */
  lemma {:induction false} InsertByBound<T>(x: T, s: seq<T>, key: T -> real, lo: real)
    requires lo <= key(x) && forall i :: 0 <= i < |s| ==> lo <= key(s[i])
    ensures forall i :: 0 <= i < |s| + 1 ==> lo <= key(InsertBy(x, s, key)[i])
  {
    if s != [] && key(x) > key(s[0]) {
      var t := InsertBy(x, s[1..], key);
      InsertByBound(x, s[1..], key, lo);
      assert InsertBy(x, s, key) == [s[0]] + t;
    }
  }

  lemma {:induction false} InsertBySorted<T>(x: T, s: seq<T>, key: T -> real)
    requires SortedBy(s, key)
    ensures SortedBy(InsertBy(x, s, key), key)
  {
    var r := InsertBy(x, s, key);
    if s == [] || key(x) <= key(s[0]) {
      assert r == [x] + s;
      forall i, j | 0 <= i < j < |r| ensures key(r[i]) <= key(r[j]) {
        if i > 0 {
          assert r[i] == s[i - 1] && r[j] == s[j - 1];
        } else {
          assert r[j] == s[j - 1];
        }
      }
    } else {
      var t := InsertBy(x, s[1..], key);
      assert r == [s[0]] + t;
      assert SortedBy(s[1..], key);
      InsertBySorted(x, s[1..], key);
      assert forall i :: 0 <= i < |s[1..]| ==> key(s[0]) <= key(s[1..][i]);
      InsertByBound(x, s[1..], key, key(s[0]));
      forall i, j | 0 <= i < j < |r| ensures key(r[i]) <= key(r[j]) {
        if i > 0 {
          assert r[i] == t[i - 1] && r[j] == t[j - 1];
        } else {
          assert r[j] == t[j - 1];
        }
      }
    }
  }

  /** Insertion sort: the stable ascending sort by `key`. */
  function SortBy<T>(s: seq<T>, key: T -> real): (r: seq<T>)
    ensures |r| == |s|
  {
    if s == [] then [] else InsertBy(s[0], SortBy(s[1..], key), key)
  }

  /** The sort is a permutation and its result is sorted. */
  lemma {:induction false} SortBySpec<T>(s: seq<T>, key: T -> real)
    ensures multiset(SortBy(s, key)) == multiset(s)
    ensures SortedBy(SortBy(s, key), key)
  {
    if s != [] {
      var t := SortBy(s[1..], key);
      SortBySpec(s[1..], key);
      InsertBySorted(s[0], t, key);
      InsertByPerm(s[0], t, key);
      assert s == [s[0]] + s[1..];
    }
  }

  lemma {:induction false} KeyClassAppend<T>(a: seq<T>, b: seq<T>, key: T -> real, v: real)
    ensures KeyClass(a + b, key, v) == KeyClass(a, key, v) + KeyClass(b, key, v)
  {
    if a != [] {
      assert (a + b)[1..] == a[1..] + b;
      KeyClassAppend(a[1..], b, key, v);
    } else {
      assert a + b == b;
    }
  }

  lemma KeyClassSingleton<T>(x: T, key: T -> real, v: real)
    ensures KeyClass([x], key, v) == if key(x) == v then [x] else []
  {
    assert [x][1..] == [];
    assert KeyClass([x][1..], key, v) == [];
    assert [x][0] == x;
  }

  lemma {:induction false} InsertByClass<T>(x: T, s: seq<T>, key: T -> real, v: real)
    ensures KeyClass(InsertBy(x, s, key), key, v) == KeyClass([x] + s, key, v)
  {
    if s != [] && key(x) > key(s[0]) {
      var t := InsertBy(x, s[1..], key);
      var r := InsertBy(x, s, key);
      var xt := [x] + s[1..];
      var xs := [x] + s;
      InsertByClass(x, s[1..], key, v);
      var cx := if key(x) == v then [x] else [];
      var c0 := if key(s[0]) == v then [s[0]] else [];
      var k1 := KeyClass(s[1..], key, v);
      assert r == [s[0]] + t && r[0] == s[0] && r[1..] == t;
      assert xt[0] == x && xt[1..] == s[1..];
      assert xs[0] == x && xs[1..] == s;
      assert KeyClass(r, key, v) == c0 + KeyClass(xt, key, v);
      assert KeyClass(xt, key, v) == cx + k1;
      assert KeyClass(s, key, v) == c0 + k1;
      assert KeyClass(xs, key, v) == cx + (c0 + k1);
      // `x` and `s[0]` have different keys, so at most one of them is in the class.
      assert cx == [] || c0 == [];
      assert c0 + (cx + k1) == cx + (c0 + k1);
    }
  }

  /** Stability: elements with equal keys keep their relative order. */
  lemma {:induction false} SortByStable<T>(s: seq<T>, key: T -> real, v: real)
    ensures KeyClass(SortBy(s, key), key, v) == KeyClass(s, key, v)
  {
    if s != [] {
      SortByStable(s[1..], key, v);
      InsertByClass(s[0], SortBy(s[1..], key), key, v);
      KeyClassAppend([s[0]], SortBy(s[1..], key), key, v);
      KeyClassAppend([s[0]], s[1..], key, v);
      assert s == [s[0]] + s[1..];
    }
  }

  /** Sorting an already sorted sequence changes nothing. */
  lemma {:induction false} SortByOfSorted<T>(s: seq<T>, key: T -> real)
    requires SortedBy(s, key)
    ensures SortBy(s, key) == s
  {
    if s != [] {
      assert SortedBy(s[1..], key);
      SortByOfSorted(s[1..], key);
      assert s == [s[0]] + s[1..];
    }
  }

  // ---------------------------------------------------------------------
  // Descending order by logit
  // ---------------------------------------------------------------------

  function NegLogit(l: Logit): real
  {
    -l.logit
  }

  predicate NonIncreasing(s: seq<Logit>)
  {
    forall i, j :: 0 <= i < j < |s| ==> s[i].logit >= s[j].logit
  }

  /** The stable sort by descending logit (ties keep their order). */
  function SortDesc(s: seq<Logit>): (r: seq<Logit>)
    ensures |r| == |s|
    ensures multiset(r) == multiset(s)
    ensures NonIncreasing(r)
  {
    var r := SortBy(s, NegLogit);
    SortBySpec(s, NegLogit);
    assert forall i, j :: 0 <= i < j < |r| ==> NegLogit(r[i]) <= NegLogit(r[j]);
    r
  }

  /** The entries in the order a sampler sees them after `ensure_sorted`. */
  function SortedView(b: Buf): seq<Logit>
  {
    if b.sorted then b.entries else SortDesc(b.entries)
  }

  // ---------------------------------------------------------------------
  // Softmax
  // ---------------------------------------------------------------------

  /** Sum of `exp(logit - maxL)` over the first `n` entries. */
  function ExpSum(s: seq<Logit>, m: Math, maxL: real, n: nat): (r: real)
    requires n <= |s|
    requires ExpPositive(m)
    ensures n > 0 ==> r > 0.0
    ensures n == 0 ==> r == 0.0
  {
    if n == 0 then 0.0 else ExpSum(s, m, maxL, n - 1) + m.exp(s[n - 1].logit - maxL)
  }

  /** Sum of the probabilities of the first `n` entries. */
  function ProbSum(s: seq<Logit>, n: nat): real
    requires n <= |s|
  {
    if n == 0 then 0.0 else ProbSum(s, n - 1) + s[n - 1].prob
  }

  /**
   * Probabilities from logits, shifted by the first (largest, once sorted)
   * logit; ids and logits are kept.
   */
  function SoftmaxOf(s: seq<Logit>, m: Math): (r: seq<Logit>)
    requires ExpPositive(m)
    ensures |r| == |s|
    ensures forall i :: 0 <= i < |s| ==>
      r[i].tokenId == s[i].tokenId && r[i].logit == s[i].logit && r[i].prob > 0.0
  {
    if s == [] then []
    else
      var z := ExpSum(s, m, s[0].logit, |s|);
      seq(|s|, i requires 0 <= i < |s| => s[i].(prob := m.exp(s[i].logit - s[0].logit) / z))
  }

  /** Each probability set to `exp(logit - maxL)`. */
  function ExpProbs(s: seq<Logit>, m: Math, maxL: real): (r: seq<Logit>)
    ensures |r| == |s|
  {
    seq(|s|, i requires 0 <= i < |s| => s[i].(prob := m.exp(s[i].logit - maxL)))
  }

  /** Each probability divided by `z`. */
  function ProbsDividedBy(s: seq<Logit>, z: real): (r: seq<Logit>)
    requires z != 0.0
    ensures |r| == |s|
  {
    seq(|s|, i requires 0 <= i < |s| => s[i].(prob := s[i].prob / z))
  }

  /** Softmax is the exponential pass followed by division by the total. */
  lemma SoftmaxByPasses(s: seq<Logit>, m: Math)
    requires ExpPositive(m) && s != []
    ensures SoftmaxOf(s, m) == ProbsDividedBy(ExpProbs(s, m, s[0].logit), ExpSum(s, m, s[0].logit, |s|))
  {
    var z := ExpSum(s, m, s[0].logit, |s|);
    var e := ExpProbs(s, m, s[0].logit);
    var r := SoftmaxOf(s, m);
    forall j | 0 <= j < |s|
      ensures r[j] == ProbsDividedBy(e, z)[j]
    {
      assert e[j] == s[j].(prob := m.exp(s[j].logit - s[0].logit));
    }
  }

  lemma DivAdd(a: real, b: real, z: real)
    requires z != 0.0
    ensures a / z + b / z == (a + b) / z
  {
  }

  lemma DivSelf(z: real)
    requires z != 0.0
    ensures z / z == 1.0
  {
  }

  lemma {:induction false} ProbSumScaled(s: seq<Logit>, m: Math, n: nat)
    requires ExpPositive(m) && s != [] && n <= |s|
    ensures ProbSum(SoftmaxOf(s, m), n)
         == ExpSum(s, m, s[0].logit, n) / ExpSum(s, m, s[0].logit, |s|)
  {
    var r := SoftmaxOf(s, m);
    var z := ExpSum(s, m, s[0].logit, |s|);
    if n > 0 {
      ProbSumScaled(s, m, n - 1);
      var e := m.exp(s[n - 1].logit - s[0].logit);
      assert r[n - 1].prob == e / z;
      DivAdd(ExpSum(s, m, s[0].logit, n - 1), e, z);
    }
  }

  /** The probabilities computed by softmax add up to one. */
  lemma SoftmaxSumsToOne(s: seq<Logit>, m: Math)
    requires ExpPositive(m) && s != []
    ensures ProbSum(SoftmaxOf(s, m), |s|) == 1.0
  {
    ProbSumScaled(s, m, |s|);
    DivSelf(ExpSum(s, m, s[0].logit, |s|));
  }

  /** The buffer after `softmax`: sorted first, probabilities computed. */
  function SoftmaxBuf(b: Buf, m: Math): (r: Buf)
    requires ExpPositive(m)
    ensures |r.entries| == |b.entries|
    ensures b.entries != [] ==> r.sorted && r.softmax
    ensures !b.sorted ==> NonIncreasing(r.entries)
  {
    if b.entries == [] then b else Buf(SoftmaxOf(SortedView(b), m), true, true)
  }

  /** The buffer after `ensure_softmax`: softmax unless the flag is set. */
  function EnsureSoftmaxBuf(b: Buf, m: Math): (r: Buf)
    requires ExpPositive(m)
    ensures |r.entries| == |b.entries|
  {
    if b.softmax then b else SoftmaxBuf(b, m)
  }

  /** `Vec::truncate`: keep the first `n` entries if there are more. */
  function Truncated(s: seq<Logit>, n: nat): (r: seq<Logit>)
    ensures |r| == if n < |s| then n else |s|
    ensures r == s[..|r|]
  {
    if n < |s| then s[..n] else s
  }

  /** Entry `i` has token id `i`, the `i`th score and probability zero. */
  function Enumerate(scores: seq<real>): seq<Logit>
  {
    seq(|scores|, i requires 0 <= i < |scores| => Logit(i, scores[i], 0.0))
  }

  // ---------------------------------------------------------------------
  // The mutable buffer
  // ---------------------------------------------------------------------

  class Logits {
    var entries: seq<Logit>
    var sorted: bool
    var softmax: bool

    function State(): Buf
      reads this
    {
      Buf(entries, sorted, softmax)
    }

    /** Construction from raw scores: ids are positions, both flags clear. */
    constructor FromScores(scores: seq<real>)
      ensures |entries| == |scores|
      ensures forall i :: 0 <= i < |scores| ==> entries[i] == Logit(i, scores[i], 0.0)
      ensures entries == Enumerate(scores)
      ensures !sorted && !softmax
    {
      entries := Enumerate(scores);
      sorted := false;
      softmax := false;
    }

    method SetSorted(b: bool)
      modifies this
      ensures entries == old(entries) && softmax == old(softmax) && sorted == b
    {
      sorted := b;
    }

    method SetSoftmax(b: bool)
      modifies this
      ensures entries == old(entries) && sorted == old(sorted) && softmax == b
    {
      softmax := b;
    }

    /** Sorts by descending logit unless the sorted flag is already set. */
    method EnsureSorted()
      modifies this
      ensures entries == SortedView(old(State()))
      ensures sorted && softmax == old(softmax)
    {
      if !sorted {
        entries := SortDesc(entries);
        sorted := true;
      }
    }

    /** Recomputes every probability from the logits; no-op when empty. */
    method Softmax(m: Math)
      requires ExpPositive(m)
      modifies this
      ensures State() == SoftmaxBuf(old(State()), m)
    {
      if entries == [] {
        return;
      }
      EnsureSorted();
      ghost var s := entries;
      var maxL := entries[0].logit;
      var cumSum := ExpPass(m, maxL);
      DividePass(cumSum);
      softmax := true;
      SoftmaxByPasses(s, m);
    }

    /** First pass: each probability becomes `exp(logit - maxL)`; returns their sum. */
    method ExpPass(m: Math, maxL: real) returns (cumSum: real)
      requires ExpPositive(m)
      modifies this
      ensures entries == ExpProbs(old(entries), m, maxL)
      ensures cumSum == ExpSum(old(entries), m, maxL, |entries|)
      ensures sorted == old(sorted) && softmax == old(softmax)
    {
      ghost var s := entries;
      cumSum := 0.0;
      var i := 0;
      while i < |entries|
        invariant 0 <= i <= |s| == |entries|
        invariant sorted == old(sorted) && softmax == old(softmax)
        invariant cumSum == ExpSum(s, m, maxL, i)
        invariant forall j :: 0 <= j < i ==> entries[j] == s[j].(prob := m.exp(s[j].logit - maxL))
        invariant forall j :: i <= j < |s| ==> entries[j] == s[j]
      {
        var p := m.exp(entries[i].logit - maxL);
        entries := entries[i := entries[i].(prob := p)];
        cumSum := cumSum + p;
        i := i + 1;
      }
      assert entries == ExpProbs(s, m, maxL);
    }

    /** Second pass: each probability is divided by the sum. */
    method DividePass(z: real)
      requires z != 0.0
      modifies this
      ensures entries == ProbsDividedBy(old(entries), z)
      ensures sorted == old(sorted) && softmax == old(softmax)
    {
      ghost var s := entries;
      var i := 0;
      while i < |entries|
        invariant 0 <= i <= |s| == |entries|
        invariant sorted == old(sorted) && softmax == old(softmax)
        invariant forall j :: 0 <= j < i ==> entries[j] == s[j].(prob := s[j].prob / z)
        invariant forall j :: i <= j < |s| ==> entries[j] == s[j]
      {
        entries := entries[i := entries[i].(prob := entries[i].prob / z)];
        i := i + 1;
      }
      assert entries == ProbsDividedBy(s, z);
    }

    method EnsureSoftmax(m: Math)
      requires ExpPositive(m)
      modifies this
      ensures State() == EnsureSoftmaxBuf(old(State()), m)
    {
      if !softmax {
        Softmax(m);
      }
    }

    method Truncate(n: nat)
      modifies this
      ensures entries == Truncated(old(entries), n)
      ensures sorted == old(sorted) && softmax == old(softmax)
    {
      if n < |entries| {
        entries := entries[..n];
      }
    }
  }
}
