/**
 * The repeated-sequence detector behind the sequence repetition penalty.
 *
 * `Fuzzy` walks a needle against the start of a hay, allowing up to
 * `tolerance` needle tokens to be skipped, each skip opening a window of
 * `mergeLimit + 1` hay tokens in which the next needle token may match.
 * `FindSeqs` slides the hay start over the history and, for every suffix of
 * the history at least `minLen` long, records the stretch of history that
 * matched it together with the token that followed.
 */
module SeqMatch {

  // ---------------------------------------------------------------------
  // fuzzy_match
  // ---------------------------------------------------------------------

  /**
   * The matcher resumed at needle position `nidx`, hay position `hpos`,
   * with `window` hay tokens left for the current needle token and `tol`
   * skips left. Each result `(h, n)` says that the first `n` needle tokens
   * were matched within the first `h` hay tokens, the last ones equal.
   */
  function Fuzzy(hay: seq<nat>, needle: seq<nat>, minLen: nat, mergeLimit: nat,
                 nidx: nat, hpos: nat, window: nat, tol: nat): seq<(nat, nat)>
    requires nidx <= |needle| && hpos <= |hay|
    requires nidx <= hpos && (window == 0 ==> nidx < hpos)
    decreases |needle| - nidx, window
  {
    if nidx == |needle| then []
    else if window > 0 then
      if hpos == |hay| then []
      else if hay[hpos] == needle[nidx] then
        (if nidx + 1 >= minLen then [(hpos + 1, nidx + 1)] else [])
          + Fuzzy(hay, needle, minLen, mergeLimit, nidx + 1, hpos + 1, 1, tol)
      else Fuzzy(hay, needle, minLen, mergeLimit, nidx, hpos + 1, window - 1, tol)
    else if tol == 0 then []
    else Fuzzy(hay, needle, minLen, mergeLimit, nidx + 1, hpos, mergeLimit + 1, tol - 1)
  }

  /** A reported pair: within bounds, past the resume point, and ending on equal tokens. */
  predicate MatchPair(hay: seq<nat>, needle: seq<nat>, minLen: nat, nidx: nat, hpos: nat, p: (nat, nat))
  {
    nidx < p.1 <= p.0 && hpos < p.0 <= |hay| && p.1 <= |needle| && minLen <= p.1 &&
    hay[p.0 - 1] == needle[p.1 - 1]
  }

  /** Every pair of `r` is a reported pair for the resume point `(nidx, hpos)`. */
  predicate AllMatch(hay: seq<nat>, needle: seq<nat>, minLen: nat, nidx: nat, hpos: nat, r: seq<(nat, nat)>)
  {
    forall k :: 0 <= k < |r| ==> MatchPair(hay, needle, minLen, nidx, hpos, r[k])
  }

  /** The pairs strictly increase in both components. */
  predicate Increasing(r: seq<(nat, nat)>)
  {
    forall k, l :: 0 <= k < l < |r| ==> r[k].0 < r[l].0 && r[k].1 < r[l].1
  }

  /**
   * Every pair reported is within bounds, at least `minLen` needle tokens
   * long, past the resume point, never uses more needle than hay, and ends
   * on equal tokens.
   */
  lemma {:induction false} FuzzyMatches(hay: seq<nat>, needle: seq<nat>, minLen: nat, mergeLimit: nat,
                                        nidx: nat, hpos: nat, window: nat, tol: nat)
    requires nidx <= |needle| && hpos <= |hay|
    requires nidx <= hpos && (window == 0 ==> nidx < hpos)
    ensures AllMatch(hay, needle, minLen, nidx, hpos, Fuzzy(hay, needle, minLen, mergeLimit, nidx, hpos, window, tol))
    decreases |needle| - nidx, window
  {
    var r := Fuzzy(hay, needle, minLen, mergeLimit, nidx, hpos, window, tol);
    if nidx == |needle| {
    } else if window > 0 {
      if hpos == |hay| {
      } else if hay[hpos] == needle[nidx] {
        var rest := Fuzzy(hay, needle, minLen, mergeLimit, nidx + 1, hpos + 1, 1, tol);
        var head := if nidx + 1 >= minLen then [(hpos + 1, nidx + 1)] else [];
        FuzzyMatches(hay, needle, minLen, mergeLimit, nidx + 1, hpos + 1, 1, tol);
        assert r == head + rest;
        forall k | 0 <= k < |r|
          ensures MatchPair(hay, needle, minLen, nidx, hpos, r[k])
        {
          if k >= |head| {
            assert r[k] == rest[k - |head|];
            assert MatchPair(hay, needle, minLen, nidx + 1, hpos + 1, rest[k - |head|]);
          }
        }
      } else {
        FuzzyMatches(hay, needle, minLen, mergeLimit, nidx, hpos + 1, window - 1, tol);
        assert r == Fuzzy(hay, needle, minLen, mergeLimit, nidx, hpos + 1, window - 1, tol);
        forall k | 0 <= k < |r|
          ensures MatchPair(hay, needle, minLen, nidx, hpos, r[k])
        {
          assert MatchPair(hay, needle, minLen, nidx, hpos + 1, r[k]);
        }
      }
    } else if tol > 0 {
      FuzzyMatches(hay, needle, minLen, mergeLimit, nidx + 1, hpos, mergeLimit + 1, tol - 1);
      assert r == Fuzzy(hay, needle, minLen, mergeLimit, nidx + 1, hpos, mergeLimit + 1, tol - 1);
      forall k | 0 <= k < |r|
        ensures MatchPair(hay, needle, minLen, nidx, hpos, r[k])
      {
        assert MatchPair(hay, needle, minLen, nidx + 1, hpos, r[k]);
      }
    }
  }

  /** The pairs reported strictly increase in both components. */
  lemma {:induction false} FuzzyIncreasing(hay: seq<nat>, needle: seq<nat>, minLen: nat, mergeLimit: nat,
                                           nidx: nat, hpos: nat, window: nat, tol: nat)
    requires nidx <= |needle| && hpos <= |hay|
    requires nidx <= hpos && (window == 0 ==> nidx < hpos)
    ensures Increasing(Fuzzy(hay, needle, minLen, mergeLimit, nidx, hpos, window, tol))
    decreases |needle| - nidx, window
  {
    var r := Fuzzy(hay, needle, minLen, mergeLimit, nidx, hpos, window, tol);
    if nidx == |needle| {
    } else if window > 0 {
      if hpos == |hay| {
      } else if hay[hpos] == needle[nidx] {
        var rest := Fuzzy(hay, needle, minLen, mergeLimit, nidx + 1, hpos + 1, 1, tol);
        var head := if nidx + 1 >= minLen then [(hpos + 1, nidx + 1)] else [];
        FuzzyIncreasing(hay, needle, minLen, mergeLimit, nidx + 1, hpos + 1, 1, tol);
        FuzzyMatches(hay, needle, minLen, mergeLimit, nidx + 1, hpos + 1, 1, tol);
        assert r == head + rest;
        forall k, l | 0 <= k < l < |r|
          ensures r[k].0 < r[l].0 && r[k].1 < r[l].1
        {
          assert r[l] == rest[l - |head|];
          assert MatchPair(hay, needle, minLen, nidx + 1, hpos + 1, rest[l - |head|]);
          if k >= |head| {
            assert r[k] == rest[k - |head|];
          }
        }
      } else {
        FuzzyIncreasing(hay, needle, minLen, mergeLimit, nidx, hpos + 1, window - 1, tol);
        assert r == Fuzzy(hay, needle, minLen, mergeLimit, nidx, hpos + 1, window - 1, tol);
      }
    } else if tol > 0 {
      FuzzyIncreasing(hay, needle, minLen, mergeLimit, nidx + 1, hpos, mergeLimit + 1, tol - 1);
      assert r == Fuzzy(hay, needle, minLen, mergeLimit, nidx + 1, hpos, mergeLimit + 1, tol - 1);
    }
  }

  /** The whole match, from the start of both. */
  function FuzzyMatchOf(hay: seq<nat>, needle: seq<nat>, minLen: nat, tolerance: nat, mergeLimit: nat): seq<(nat, nat)>
  {
    Fuzzy(hay, needle, minLen, mergeLimit, 0, 0, 1, tolerance)
  }

  /** Length of the common prefix of `a` and `b`, given that it is at least `i`. */
  function CommonPrefix(a: seq<nat>, b: seq<nat>, i: nat): (r: nat)
    requires i <= |a| && i <= |b|
    ensures i <= r <= |a| && r <= |b|
    ensures a[i..r] == b[i..r]
    ensures r == |a| || r == |b| || a[r] != b[r]
    decreases |a| - i
  {
    if i < |a| && i < |b| && a[i] == b[i] then CommonPrefix(a, b, i + 1) else i
  }

  /**
   * With no tolerance the matcher is exact: resumed in step at position
   * `i`, it reports `(k, k)` for exactly the `k` past `i` and at least
   * `minLen` up to the common-prefix length.
   */
  lemma {:induction false} FuzzyExactFrom(hay: seq<nat>, needle: seq<nat>, minLen: nat, mergeLimit: nat, i: nat)
    requires i <= |hay| && i <= |needle|
    ensures forall h, n :: (h, n) in Fuzzy(hay, needle, minLen, mergeLimit, i, i, 1, 0) <==>
      (h == n && minLen <= n && i < n <= CommonPrefix(hay, needle, i))
    decreases |needle| - i
  {
    if i == |needle| || i == |hay| {
    } else if hay[i] == needle[i] {
      FuzzyExactFrom(hay, needle, minLen, mergeLimit, i + 1);
    } else {
      assert Fuzzy(hay, needle, minLen, mergeLimit, i, i, 1, 0) == Fuzzy(hay, needle, minLen, mergeLimit, i, i + 1, 0, 0);
    }
  }

  /** With tolerance 0, `fuzzy_match` returns exactly `(k, k)` for `minLen <= k <= ` the common-prefix length (and `k >= 1`). */
  lemma FuzzyExact(hay: seq<nat>, needle: seq<nat>, minLen: nat, mergeLimit: nat)
    ensures forall h, n :: (h, n) in FuzzyMatchOf(hay, needle, minLen, 0, mergeLimit) <==>
      (h == n && minLen <= n && 0 < n <= CommonPrefix(hay, needle, 0))
  {
    FuzzyExactFrom(hay, needle, minLen, mergeLimit, 0);
  }

  /** One step of the matcher, case by case. */
  lemma FuzzyUnfold(hay: seq<nat>, needle: seq<nat>, minLen: nat, mergeLimit: nat,
                    nidx: nat, hpos: nat, window: nat, tol: nat)
    requires nidx < |needle| && hpos <= |hay|
    requires nidx <= hpos && (window == 0 ==> nidx < hpos)
    ensures window > 0 && hpos == |hay| ==> Fuzzy(hay, needle, minLen, mergeLimit, nidx, hpos, window, tol) == []
    ensures window > 0 && hpos < |hay| && hay[hpos] == needle[nidx] ==>
      Fuzzy(hay, needle, minLen, mergeLimit, nidx, hpos, window, tol)
        == (if nidx + 1 >= minLen then [(hpos + 1, nidx + 1)] else [])
          + Fuzzy(hay, needle, minLen, mergeLimit, nidx + 1, hpos + 1, 1, tol)
    ensures window > 0 && hpos < |hay| && hay[hpos] != needle[nidx] ==>
      Fuzzy(hay, needle, minLen, mergeLimit, nidx, hpos, window, tol)
        == Fuzzy(hay, needle, minLen, mergeLimit, nidx, hpos + 1, window - 1, tol)
    ensures window == 0 && tol == 0 ==> Fuzzy(hay, needle, minLen, mergeLimit, nidx, hpos, window, tol) == []
    ensures window == 0 && tol > 0 ==>
      Fuzzy(hay, needle, minLen, mergeLimit, nidx, hpos, window, tol)
        == Fuzzy(hay, needle, minLen, mergeLimit, nidx + 1, hpos, mergeLimit + 1, tol - 1)
  {
  }

  /** The matcher's loops: the needle walk, and inside it the window over the hay. */
  method FuzzyMatch(hay: seq<nat>, needle: seq<nat>, minLen: nat, tolerance: nat, mergeLimit: nat)
    returns (result: seq<(nat, nat)>)
    ensures result == FuzzyMatchOf(hay, needle, minLen, tolerance, mergeLimit)
  {
    ghost var total := FuzzyMatchOf(hay, needle, minLen, tolerance, mergeLimit);
    result := [];
    var window: nat := 1;
    var hpos: nat := 0;
    var tol: nat := tolerance;
    var nidx: nat := 0;
    while nidx < |needle|
      invariant nidx <= |needle| && hpos <= |hay| && nidx <= hpos && window >= 1
      invariant result + Fuzzy(hay, needle, minLen, mergeLimit, nidx, hpos, window, tol) == total
      decreases |needle| - nidx
    {
      var matched := false;
      var exhausted := false;
      while window > 0
        invariant hpos <= |hay| && nidx <= hpos && (window == 0 ==> nidx < hpos)
        invariant result + Fuzzy(hay, needle, minLen, mergeLimit, nidx, hpos, window, tol) == total
        invariant !matched && !exhausted
      {
        FuzzyUnfold(hay, needle, minLen, mergeLimit, nidx, hpos, window, tol);
        if hpos == |hay| {
          exhausted := true;
          break;
        }
        var h := hay[hpos];
        if h == needle[nidx] {
          if nidx + 1 >= minLen {
            result := result + [(hpos + 1, nidx + 1)];
          }
          hpos := hpos + 1;
          window := 1;
          matched := true;
          break;
        }
        hpos := hpos + 1;
        window := window - 1;
      }
      if exhausted {
        break;
      }
      if matched {
        nidx := nidx + 1;
        continue;
      }
      FuzzyUnfold(hay, needle, minLen, mergeLimit, nidx, hpos, window, tol);
      if tol == 0 {
        break;
      }
      tol := tol - 1;
      window := mergeLimit + 1;
      nidx := nidx + 1;
    }
  }

  // ---------------------------------------------------------------------
  // find_seqs
  // ---------------------------------------------------------------------

  /**
   * One recorded match: the stretch `s` of the history starting at `hOffs`
   * of length `hLen`, which matched a history suffix of length `nLen` and
   * ends with the token that followed the match.
   */
  datatype SeqMatch = SeqMatch(hOffs: nat, hLen: nat, nLen: nat, s: seq<nat>)

  /**
   * What every recorded match satisfies: it is a stretch of the history,
   * ending before the last history token; the suffix it matched is at
   * least `minLen` long and leaves `minLen` tokens before it; and its
   * second-to-last token equals the last history token.
   */
  predicate Continues(sq: seq<nat>, minLen: nat, r: SeqMatch)
  {
    0 < r.nLen && minLen <= r.nLen < r.hLen && r.nLen + minLen <= |sq| &&
    r.hOffs + r.hLen < |sq| &&
    r.s == sq[r.hOffs..r.hOffs + r.hLen] &&
    sq[r.hOffs + r.hLen - 2] == sq[|sq| - 1]
  }

  /** What a match found without tolerance satisfies: an exact earlier occurrence of the suffix, plus the next token. */
  predicate ExactlyContinues(sq: seq<nat>, r: SeqMatch)
  {
    r.hLen == r.nLen + 1 && r.hOffs + r.hLen < |sq| && r.nLen <= |sq| &&
    r.s == sq[r.hOffs..r.hOffs + r.hLen] &&
    sq[r.hOffs..r.hOffs + r.nLen] == sq[|sq| - r.nLen..]
  }

  /** A match reported for the suffix of length `nlen` against the hay at `off`. */
  predicate FoundPair(sq: seq<nat>, off: nat, nlen: nat, p: (nat, nat))
  {
    p.1 == nlen && nlen <= p.0 && 1 <= p.0 && off + p.0 <= |sq| && sq[off + p.0 - 1] == sq[|sq| - 1]
  }

  /** A record built for hay start `off` and suffix length `nlen`. */
  predicate RecordAt(sq: seq<nat>, off: nat, nlen: nat, r: SeqMatch)
  {
    r.hOffs == off && r.nLen == nlen && nlen + 1 <= r.hLen && off + r.hLen < |sq| &&
    r.s == sq[off..off + r.hLen]
  }

  /** Keeps the matches with room for a following token and turns them into records. */
  function Records(rs: seq<(nat, nat)>, sq: seq<nat>, off: nat, nlen: nat): seq<SeqMatch>
    requires off <= |sq|
    decreases |rs|
  {
    if rs == [] then []
    else
      var hay := sq[off..];
      var (h, n) := rs[|rs| - 1];
      Records(rs[..|rs| - 1], sq, off, nlen)
        + (if |hay| > nlen && |hay| > h + 1 then [SeqMatch(off, h + 1, n, hay[..h + 1])] else [])
  }

  /** Each record comes from a reported pair `(hLen - 1, nLen)` and is the stretch of history at `off` of length `hLen`, ending before the last token. */
  lemma {:induction false} RecordsShape(rs: seq<(nat, nat)>, sq: seq<nat>, off: nat, nlen: nat)
    requires off <= |sq|
    ensures forall x :: x in Records(rs, sq, off, nlen) ==>
      (x.hLen - 1, x.nLen) in rs && 1 <= x.hLen && x.hOffs == off && off + x.hLen < |sq| && x.s == sq[off..off + x.hLen]
    decreases |rs|
  {
    if rs != [] {
      var init := rs[..|rs| - 1];
      var hay := sq[off..];
      var h := rs[|rs| - 1].0;
      var n := rs[|rs| - 1].1;
      var tail := if |hay| > nlen && |hay| > h + 1 then [SeqMatch(off, h + 1, n, hay[..h + 1])] else [];
      RecordsShape(init, sq, off, nlen);
      assert Records(rs, sq, off, nlen) == Records(init, sq, off, nlen) + tail;
      assert rs[|rs| - 1] in rs;
      forall x | x in Records(rs, sq, off, nlen)
        ensures (x.hLen - 1, x.nLen) in rs && 1 <= x.hLen && x.hOffs == off && off + x.hLen < |sq| && x.s == sq[off..off + x.hLen]
      {
        if x in Records(init, sq, off, nlen) {
          var k :| 0 <= k < |init| && init[k] == (x.hLen - 1, x.nLen);
          assert rs[k] == (x.hLen - 1, x.nLen);
        } else {
          assert x in tail;
          assert hay[..h + 1] == sq[off..off + h + 1];
        }
      }
    }
  }

  /** With no tolerance, a hay and needle whose first tokens differ give no match. */
  lemma FuzzyFirstMismatch(hay: seq<nat>, needle: seq<nat>, minLen: nat, mergeLimit: nat)
    requires 0 < |hay| && 0 < |needle| && hay[0] != needle[0]
    ensures FuzzyMatchOf(hay, needle, minLen, 0, mergeLimit) == []
  {
    assert FuzzyMatchOf(hay, needle, minLen, 0, mergeLimit) == Fuzzy(hay, needle, minLen, mergeLimit, 0, 1, 0, 0);
  }

  /**
   * The matches of the suffix of length `nlen` against the hay starting at
   * `off`. The source only runs the matcher when the first tokens agree;
   * when they differ the matcher run with tolerance 0 reports nothing
   * (`FuzzyFirstMismatch`), so the guard is folded into the tolerance.
   */
  function Found(sq: seq<nat>, tol: nat, mergeLimit: nat, off: nat, nlen: nat): seq<(nat, nat)>
    requires off < |sq| && 1 <= nlen <= |sq|
  {
    var hay := sq[off..];
    var needle := sq[|sq| - nlen..];
    FuzzyMatchOf(hay, needle, nlen, if sq[off] == sq[|sq| - nlen] then tol else 0, mergeLimit)
  }

  /** Every match ends on a token equal to the last history token, with a needle of length `nlen` inside the history. */
  lemma FoundShape(sq: seq<nat>, tol: nat, mergeLimit: nat, off: nat, nlen: nat)
    requires off < |sq| && 1 <= nlen <= |sq|
    ensures forall p :: p in Found(sq, tol, mergeLimit, off, nlen) ==> FoundPair(sq, off, nlen, p)
  {
    var hay := sq[off..];
    var needle := sq[|sq| - nlen..];
    var t := if sq[off] == sq[|sq| - nlen] then tol else 0;
    var f := Found(sq, tol, mergeLimit, off, nlen);
    FuzzyMatches(hay, needle, nlen, mergeLimit, 0, 0, 1, t);
    assert f == Fuzzy(hay, needle, nlen, mergeLimit, 0, 0, 1, t);
    forall p | p in f
      ensures FoundPair(sq, off, nlen, p)
    {
      var k :| 0 <= k < |f| && f[k] == p;
      assert MatchPair(hay, needle, nlen, 0, 0, p);
    }
  }

  /** A hay start whose first token differs from the suffix's first token yields no match. */
  lemma FoundMismatch(sq: seq<nat>, tol: nat, mergeLimit: nat, off: nat, nlen: nat)
    requires off < |sq| && 1 <= nlen <= |sq| && sq[off] != sq[|sq| - nlen]
    ensures Found(sq, tol, mergeLimit, off, nlen) == []
  {
    FuzzyFirstMismatch(sq[off..], sq[|sq| - nlen..], nlen, mergeLimit);
  }

  /** A single reported pair with room after it makes a single record. */
  lemma RecordsSingle(sq: seq<nat>, off: nat, nlen: nat, h: nat, n: nat)
    requires off <= |sq| && nlen < |sq| - off && h + 1 < |sq| - off
    ensures Records([(h, n)], sq, off, nlen) == [SeqMatch(off, h + 1, n, sq[off..off + h + 1])]
  {
    assert [(h, n)][..0] == [];
    assert sq[off..][..h + 1] == sq[off..off + h + 1];
  }

  /** The records of one hay start and one suffix length. */
  function FoundRecords(sq: seq<nat>, tol: nat, mergeLimit: nat, off: nat, nlen: nat): seq<SeqMatch>
    requires off < |sq| && 1 <= nlen <= |sq|
  {
    Records(Found(sq, tol, mergeLimit, off, nlen), sq, off, nlen)
  }

  lemma FoundRecordsShape(sq: seq<nat>, tol: nat, mergeLimit: nat, off: nat, nlen: nat)
    requires off < |sq| && 1 <= nlen <= |sq|
    ensures forall x :: x in FoundRecords(sq, tol, mergeLimit, off, nlen) ==>
      RecordAt(sq, off, nlen, x) && (x.hLen - 1, nlen) in Found(sq, tol, mergeLimit, off, nlen) &&
      FoundPair(sq, off, nlen, (x.hLen - 1, nlen))
  {
    FoundShape(sq, tol, mergeLimit, off, nlen);
    RecordsShape(Found(sq, tol, mergeLimit, off, nlen), sq, off, nlen);
  }

  /**
   * One past the longest suffix length scanned for hay start `off`: the
   * lengths `n >= minLen` with `n + minLen <= |sq|` and `n < |sq| - off`.
   */
  function NeedleEnd(sq: seq<nat>, minLen: nat, off: nat): nat
  {
    var m := if |sq| - minLen + 1 < |sq| - off then |sq| - minLen + 1 else |sq| - off;
    if m < minLen then minLen else m
  }

  /** The records of one hay start, for the suffix lengths `minLen <= n < hi`, shortest first. */
  function Needles(sq: seq<nat>, minLen: nat, tol: nat, mergeLimit: nat, off: nat, hi: nat): seq<SeqMatch>
    requires minLen >= 1 && hi <= NeedleEnd(sq, minLen, off)
  {
    if hi <= minLen then []
    else Needles(sq, minLen, tol, mergeLimit, off, hi - 1) + FoundRecords(sq, tol, mergeLimit, off, hi - 1)
  }

  /** The records of one hay start, over every suffix length scanned. */
  function NeedleScan(sq: seq<nat>, minLen: nat, tol: nat, mergeLimit: nat, off: nat): seq<SeqMatch>
    requires minLen >= 1
  {
    Needles(sq, minLen, tol, mergeLimit, off, NeedleEnd(sq, minLen, off))
  }

  /** The records of every hay start from `off` on. */
  function HayScan(sq: seq<nat>, minLen: nat, tol: nat, mergeLimit: nat, off: nat): seq<SeqMatch>
    requires minLen >= 1 && off <= |sq|
    decreases |sq| - off
  {
    if |sq| - off <= minLen then []
    else NeedleScan(sq, minLen, tol, mergeLimit, off) + HayScan(sq, minLen, tol, mergeLimit, off + 1)
  }

  /**
   * `find_seqs`; `minLen` must be positive (the sampler only calls it with
   * at least 2: with 0 the source would index an empty needle).
   */
  function FindSeqs(sq: seq<nat>, minLen: nat, tol: nat, mergeLimit: nat): seq<SeqMatch>
    requires minLen >= 1
  {
    if |sq| < minLen * 2 then [] else HayScan(sq, minLen, tol, mergeLimit, 0)
  }

  lemma FoundRecordsContinue(sq: seq<nat>, minLen: nat, tol: nat, mergeLimit: nat, off: nat, nlen: nat)
    requires off < |sq| && 1 <= minLen <= nlen && nlen + minLen <= |sq|
    ensures forall r :: r in FoundRecords(sq, tol, mergeLimit, off, nlen) ==> Continues(sq, minLen, r)
  {
    FoundRecordsShape(sq, tol, mergeLimit, off, nlen);
  }

  /** The records of every suffix length below `hi` are among the records of the scan. */
  lemma {:induction false} NeedlesHas(sq: seq<nat>, minLen: nat, tol: nat, mergeLimit: nat, off: nat, hi: nat, n: nat)
    requires minLen >= 1 && hi <= NeedleEnd(sq, minLen, off) && minLen <= n < hi
    ensures forall r :: r in FoundRecords(sq, tol, mergeLimit, off, n) ==> r in Needles(sq, minLen, tol, mergeLimit, off, hi)
  {
    var init := Needles(sq, minLen, tol, mergeLimit, off, hi - 1);
    assert Needles(sq, minLen, tol, mergeLimit, off, hi) == init + FoundRecords(sq, tol, mergeLimit, off, hi - 1);
    if n < hi - 1 {
      NeedlesHas(sq, minLen, tol, mergeLimit, off, hi - 1, n);
    }
  }

  lemma {:induction false} NeedlesContinue(sq: seq<nat>, minLen: nat, tol: nat, mergeLimit: nat, off: nat, hi: nat)
    requires minLen >= 1 && hi <= NeedleEnd(sq, minLen, off)
    ensures forall r :: r in Needles(sq, minLen, tol, mergeLimit, off, hi) ==> Continues(sq, minLen, r)
  {
    if hi > minLen {
      NeedlesContinue(sq, minLen, tol, mergeLimit, off, hi - 1);
      FoundRecordsContinue(sq, minLen, tol, mergeLimit, off, hi - 1);
    }
  }

  lemma {:induction false} HayScanContinues(sq: seq<nat>, minLen: nat, tol: nat, mergeLimit: nat, off: nat)
    requires minLen >= 1 && off <= |sq|
    ensures forall r :: r in HayScan(sq, minLen, tol, mergeLimit, off) ==> Continues(sq, minLen, r)
    decreases |sq| - off
  {
    if |sq| - off > minLen {
      NeedlesContinue(sq, minLen, tol, mergeLimit, off, NeedleEnd(sq, minLen, off));
      HayScanContinues(sq, minLen, tol, mergeLimit, off + 1);
    }
  }

  /**
   * Every record is a stretch `history[hOffs .. hOffs + hLen]` ending
   * before the last history token, of length at least 2, whose
   * second-to-last token equals the last history token; so its last token
   * is the one that followed an earlier occurrence of the current end.
   */
  lemma FindSeqsContinues(sq: seq<nat>, minLen: nat, tol: nat, mergeLimit: nat)
    requires minLen >= 1
    ensures forall r :: r in FindSeqs(sq, minLen, tol, mergeLimit) ==> Continues(sq, minLen, r)
  {
    if |sq| >= minLen * 2 {
      HayScanContinues(sq, minLen, tol, mergeLimit, 0);
    }
  }

  /** Too short a history yields no records. */
  lemma FindSeqsShort(sq: seq<nat>, minLen: nat, tol: nat, mergeLimit: nat)
    requires minLen >= 1 && |sq| < minLen * 2
    ensures FindSeqs(sq, minLen, tol, mergeLimit) == []
  {
  }

  /** The records for the first hay start and the shortest suffix are among the results. */
  lemma FindSeqsFirst(sq: seq<nat>, minLen: nat, tol: nat, mergeLimit: nat)
    requires minLen >= 1 && |sq| >= minLen * 2
    ensures forall r :: r in FoundRecords(sq, tol, mergeLimit, 0, minLen) ==> r in FindSeqs(sq, minLen, tol, mergeLimit)
  {
    NeedlesHas(sq, minLen, tol, mergeLimit, 0, NeedleEnd(sq, minLen, 0), minLen);
    assert FindSeqs(sq, minLen, tol, mergeLimit) ==
      NeedleScan(sq, minLen, tol, mergeLimit, 0) + HayScan(sq, minLen, tol, mergeLimit, 1);
  }

  // ---------------------------------------------------------------------
  // Without tolerance, find_seqs finds exactly the earlier occurrences
  // ---------------------------------------------------------------------

  /** Without tolerance, the only possible match for a suffix of length `nlen` is `(nlen, nlen)`, present iff the hay starts with that suffix. */
  lemma ExactFound(sq: seq<nat>, mergeLimit: nat, off: nat, nlen: nat)
    requires off < |sq| && 1 <= nlen <= |sq|
    ensures forall p :: p in Found(sq, 0, mergeLimit, off, nlen) ==>
      p == (nlen, nlen) && off + nlen <= |sq| && sq[off..off + nlen] == sq[|sq| - nlen..]
    ensures off + nlen <= |sq| && sq[off..off + nlen] == sq[|sq| - nlen..] ==>
      (nlen, nlen) in Found(sq, 0, mergeLimit, off, nlen)
  {
    var hay := sq[off..];
    var needle := sq[|sq| - nlen..];
    FuzzyExact(hay, needle, nlen, mergeLimit);
    var cp := CommonPrefix(hay, needle, 0);
    if off + nlen <= |sq| && sq[off..off + nlen] == sq[|sq| - nlen..] {
      assert hay[..nlen] == needle;
      assert hay[0] == needle[0];
      assert hay[..nlen] == needle[..nlen];
    }
    var f := Found(sq, 0, mergeLimit, off, nlen);
    forall p | p in f
      ensures p == (nlen, nlen) && off + nlen <= |sq| && sq[off..off + nlen] == sq[|sq| - nlen..]
    {
      assert f == FuzzyMatchOf(hay, needle, nlen, 0, mergeLimit);
      assert (p.0, p.1) in FuzzyMatchOf(hay, needle, nlen, 0, mergeLimit);
      assert p.0 == p.1 && nlen <= p.1 <= cp;
      assert cp == nlen;
      assert hay[0..nlen] == needle[0..nlen];
      assert sq[off..off + nlen] == hay[0..nlen];
    }
  }

  /** A match with room for a following token is recorded. */
  lemma {:induction false} RecordsHas(rs: seq<(nat, nat)>, sq: seq<nat>, off: nat, nlen: nat, h: nat)
    requires off <= |sq|
    requires forall p :: p in rs ==> p.1 == nlen && nlen <= p.0
    requires (h, nlen) in rs && off + h + 1 < |sq| && nlen < |sq| - off
    ensures SeqMatch(off, h + 1, nlen, sq[off..off + h + 1]) in Records(rs, sq, off, nlen)
    decreases |rs|
  {
    var last := rs[|rs| - 1];
    assert last in rs;
    if last == (h, nlen) {
      assert sq[off..][..h + 1] == sq[off..off + h + 1];
    } else {
      assert (h, nlen) in rs[..|rs| - 1] by {
        var k :| 0 <= k < |rs| && rs[k] == (h, nlen);
        assert k < |rs| - 1;
      }
      RecordsHas(rs[..|rs| - 1], sq, off, nlen, h);
    }
  }

  /** Without tolerance, the records of one hay start and suffix length: the exact occurrence at `off`, if followed by a token. */
  lemma ExactRecords(sq: seq<nat>, mergeLimit: nat, off: nat, nlen: nat)
    requires off < |sq| && 1 <= nlen <= |sq|
    ensures forall r :: r in FoundRecords(sq, 0, mergeLimit, off, nlen) ==> ExactlyContinues(sq, r)
    ensures off + nlen + 1 < |sq| && sq[off..off + nlen] == sq[|sq| - nlen..] ==>
      SeqMatch(off, nlen + 1, nlen, sq[off..off + nlen + 1]) in FoundRecords(sq, 0, mergeLimit, off, nlen)
  {
    ExactFound(sq, mergeLimit, off, nlen);
    FoundRecordsShape(sq, 0, mergeLimit, off, nlen);
    FoundShape(sq, 0, mergeLimit, off, nlen);
    forall r | r in FoundRecords(sq, 0, mergeLimit, off, nlen)
      ensures ExactlyContinues(sq, r)
    {
      assert (r.hLen - 1, nlen) in Found(sq, 0, mergeLimit, off, nlen);
    }
    if off + nlen + 1 < |sq| && sq[off..off + nlen] == sq[|sq| - nlen..] {
      RecordsHas(Found(sq, 0, mergeLimit, off, nlen), sq, off, nlen, nlen);
    }
  }

  lemma {:induction false} NeedlesExact(sq: seq<nat>, minLen: nat, mergeLimit: nat, off: nat, hi: nat, k: nat)
    requires minLen >= 1 && hi <= NeedleEnd(sq, minLen, off)
    requires minLen <= k < hi && off + k + 1 < |sq| && sq[off..off + k] == sq[|sq| - k..]
    ensures SeqMatch(off, k + 1, k, sq[off..off + k + 1]) in Needles(sq, minLen, 0, mergeLimit, off, hi)
  {
    var init := Needles(sq, minLen, 0, mergeLimit, off, hi - 1);
    var here := FoundRecords(sq, 0, mergeLimit, off, hi - 1);
    var x := SeqMatch(off, k + 1, k, sq[off..off + k + 1]);
    assert Needles(sq, minLen, 0, mergeLimit, off, hi) == init + here;
    if k == hi - 1 {
      assert x in here by {
        ExactRecords(sq, mergeLimit, off, k);
      }
    } else {
      assert x in init by {
        NeedlesExact(sq, minLen, mergeLimit, off, hi - 1, k);
      }
    }
  }

  lemma {:induction false} HayScanExact(sq: seq<nat>, minLen: nat, mergeLimit: nat, off: nat, o: nat, k: nat)
    requires minLen >= 1 && off <= o
    requires minLen <= k && k + minLen <= |sq| && o + k + 1 < |sq| && sq[o..o + k] == sq[|sq| - k..]
    ensures SeqMatch(o, k + 1, k, sq[o..o + k + 1]) in HayScan(sq, minLen, 0, mergeLimit, off)
    decreases |sq| - off
  {
    if off == o {
      NeedlesExact(sq, minLen, mergeLimit, o, NeedleEnd(sq, minLen, o), k);
    } else {
      HayScanExact(sq, minLen, mergeLimit, off + 1, o, k);
    }
  }

  lemma {:induction false} NeedlesExactSound(sq: seq<nat>, minLen: nat, mergeLimit: nat, off: nat, hi: nat)
    requires minLen >= 1 && hi <= NeedleEnd(sq, minLen, off)
    ensures forall r :: r in Needles(sq, minLen, 0, mergeLimit, off, hi) ==> ExactlyContinues(sq, r)
  {
    if hi > minLen {
      var init := Needles(sq, minLen, 0, mergeLimit, off, hi - 1);
      var here := FoundRecords(sq, 0, mergeLimit, off, hi - 1);
      assert Needles(sq, minLen, 0, mergeLimit, off, hi) == init + here;
      assert forall r :: r in init ==> ExactlyContinues(sq, r) by {
        NeedlesExactSound(sq, minLen, mergeLimit, off, hi - 1);
      }
      assert forall r :: r in here ==> ExactlyContinues(sq, r) by {
        ExactRecords(sq, mergeLimit, off, hi - 1);
      }
    }
  }

  lemma {:induction false} HayScanExactSound(sq: seq<nat>, minLen: nat, mergeLimit: nat, off: nat)
    requires minLen >= 1 && off <= |sq|
    ensures forall r :: r in HayScan(sq, minLen, 0, mergeLimit, off) ==> ExactlyContinues(sq, r)
    decreases |sq| - off
  {
    if |sq| - off > minLen {
      NeedlesExactSound(sq, minLen, mergeLimit, off, NeedleEnd(sq, minLen, off));
      HayScanExactSound(sq, minLen, mergeLimit, off + 1);
    }
  }

  /** An exact earlier occurrence of a history suffix, of length `k`, followed by a token. */
  predicate Occurrence(sq: seq<nat>, minLen: nat, o: nat, k: nat)
  {
    minLen <= k && k + minLen <= |sq| && o + k + 1 < |sq| && sq[o..o + k] == sq[|sq| - k..]
  }

  /**
   * With tolerance 0, the records are exactly the earlier occurrences of
   * a history suffix of length `k` (`minLen <= k <= |history| - minLen`)
   * that are followed by a token, each recorded with that following token.
   */
  lemma FindSeqsExact(sq: seq<nat>, minLen: nat, mergeLimit: nat)
    requires minLen >= 1
    ensures forall r :: r in FindSeqs(sq, minLen, 0, mergeLimit) ==>
      ExactlyContinues(sq, r) && Occurrence(sq, minLen, r.hOffs, r.nLen)
    ensures forall o: nat, k: nat :: Occurrence(sq, minLen, o, k) ==>
      SeqMatch(o, k + 1, k, sq[o..o + k + 1]) in FindSeqs(sq, minLen, 0, mergeLimit)
  {
    if |sq| >= minLen * 2 {
      HayScanExactSound(sq, minLen, mergeLimit, 0);
      HayScanContinues(sq, minLen, 0, mergeLimit, 0);
      forall o: nat, k: nat | Occurrence(sq, minLen, o, k)
        ensures SeqMatch(o, k + 1, k, sq[o..o + k + 1]) in FindSeqs(sq, minLen, 0, mergeLimit)
      {
        HayScanExact(sq, minLen, mergeLimit, 0, o, k);
      }
    }
  }

  // ---------------------------------------------------------------------
  // The loops of find_seqs
  // ---------------------------------------------------------------------

  /** The filter-and-record pass over one match list. */
  method RecordsOf(rs: seq<(nat, nat)>, sq: seq<nat>, off: nat, nlen: nat) returns (out: seq<SeqMatch>)
    requires off <= |sq|
    ensures out == Records(rs, sq, off, nlen)
  {
    var hay := sq[off..];
    out := [];
    var i := 0;
    while i < |rs|
      invariant 0 <= i <= |rs|
      invariant out == Records(rs[..i], sq, off, nlen)
    {
      assert rs[..i + 1][..i] == rs[..i];
      var (h, n) := rs[i];
      if |hay| > nlen && |hay| > h + 1 {
        out := out + [SeqMatch(off, h + 1, n, hay[..h + 1])];
      }
      i := i + 1;
    }
    assert rs[..i] == rs;
  }

  /** One step of the inner scan: match the suffix of length `nlen` if the first tokens agree. */
  method FoundRecordsOf(sq: seq<nat>, tolerance: nat, maxMerge: nat, off: nat, nlen: nat) returns (recs: seq<SeqMatch>)
    requires off < |sq| && 1 <= nlen <= |sq|
    ensures recs == FoundRecords(sq, tolerance, maxMerge, off, nlen)
  {
    var hay := sq[off..];
    var needle := sq[|sq| - nlen..];
    recs := [];
    if hay[0] == needle[0] {
      var found := FuzzyMatch(hay, needle, |needle|, tolerance, maxMerge);
      recs := RecordsOf(found, sq, off, nlen);
    } else {
      FuzzyFirstMismatch(hay, needle, nlen, maxMerge);
    }
  }

  /** The inner scan over suffix lengths for one hay start. */
  method NeedleLoop(sq: seq<nat>, minLen: nat, tolerance: nat, maxMerge: nat, off: nat) returns (result: seq<SeqMatch>)
    requires minLen >= 1 && minLen < |sq| - off
    ensures result == NeedleScan(sq, minLen, tolerance, maxMerge, off)
  {
    var seqlen := |sq|;
    var hayLen := seqlen - off;
    result := [];
    var nlen: nat := minLen;
    // The source tests `nlen >= hay.len()` after each increment and breaks;
    // since `minLen < hayLen` on entry, testing it in the loop guard is the same.
    while seqlen >= nlen + minLen && nlen < hayLen
      invariant minLen <= nlen <= NeedleEnd(sq, minLen, off)
      invariant result == Needles(sq, minLen, tolerance, maxMerge, off, nlen)
      decreases seqlen - nlen
    {
      var recs := FoundRecordsOf(sq, tolerance, maxMerge, off, nlen);
      result := result + recs;
      nlen := nlen + 1;
    }
  }

  /** The outer loop of `find_seqs`: the hay shrinks by one token per pass. */
  method HayLoop(sq: seq<nat>, minLen: nat, tolerance: nat, maxMerge: nat) returns (result: seq<SeqMatch>)
    requires minLen >= 1
    ensures result == HayScan(sq, minLen, tolerance, maxMerge, 0)
  {
    var seqlen := |sq|;
    result := [];
    var off: nat := 0;
    while seqlen - off > minLen
      invariant off <= seqlen
      invariant result + HayScan(sq, minLen, tolerance, maxMerge, off) == HayScan(sq, minLen, tolerance, maxMerge, 0)
      decreases seqlen - off
    {
      var recs := NeedleLoop(sq, minLen, tolerance, maxMerge, off);
      result := result + recs;
      off := off + 1;
    }
  }

  /** `find_seqs`: nothing for a history shorter than twice `minLen`, else the hay scan. */
  method FindSeqsLoop(sq: seq<nat>, minLen: nat, tolerance: nat, maxMerge: nat) returns (result: seq<SeqMatch>)
    requires minLen >= 1
    ensures result == FindSeqs(sq, minLen, tolerance, maxMerge)
  {
    if |sq| < minLen * 2 {
      return [];
    }
    result := HayLoop(sq, minLen, tolerance, maxMerge);
  }
}
