/**
 * Sequence repetition penalty: when the end of the token history repeats a
 * stretch seen earlier (up to `tolerance` skipped tokens), the token that
 * followed that earlier stretch is penalised, by a flat amount plus an
 * amount proportional to the length of the longest such stretch.
 */
module SequenceRepetition {
  import opened Types
  import opened Values
  import opened Metadata
  import opened History
  import opened SeqMatch

  /** The amount taken off the logit for a matched stretch of length `len`. */
  function SeqPenalty(len: nat, stacking: real, flat: real): real
  {
    len as real * stacking + (if len > 0 then 1.0 else 0.0) * flat
  }

  /** A non-empty record whose last token is `t`. */
  predicate Ends(r: SeqMatch, t: nat)
  {
    |r.s| > 0 && r.s[|r.s| - 1] == t
  }

  /**
   * The penalty table built from the records: every record's last token
   * maps to the length of the longest record ending in it.
   */
  function PenaltyMap(recs: seq<SeqMatch>): map<nat, nat>
    decreases |recs|
  {
    if recs == [] then map[]
    else
      var pm := PenaltyMap(recs[..|recs| - 1]);
      var r := recs[|recs| - 1];
      if |r.s| == 0 then pm
      else
        var t := r.s[|r.s| - 1];
        pm[t := if t in pm && pm[t] > |r.s| then pm[t] else |r.s|]
  }

  /**
   * The table's keys are exactly the last tokens of the records, and each
   * maps to the greatest length among the records ending in it.
   */
  lemma PenaltyMapSpec(recs: seq<SeqMatch>)
    ensures forall t :: t in PenaltyMap(recs) <==> exists i :: 0 <= i < |recs| && Ends(recs[i], t)
    ensures forall t, i :: t in PenaltyMap(recs) && 0 <= i < |recs| && Ends(recs[i], t) ==>
      |recs[i].s| <= PenaltyMap(recs)[t]
    ensures forall t :: t in PenaltyMap(recs) ==>
      exists i :: 0 <= i < |recs| && Ends(recs[i], t) && |recs[i].s| == PenaltyMap(recs)[t]
  {
    PenaltyMapKeys(recs);
    PenaltyMapMax(recs);
    PenaltyMapAttained(recs);
  }

  /** The keys are the last tokens of the non-empty records. */
  lemma {:induction false} PenaltyMapKeys(recs: seq<SeqMatch>)
    ensures forall t :: t in PenaltyMap(recs) <==> exists i :: 0 <= i < |recs| && Ends(recs[i], t)
    decreases |recs|
  {
    if recs != [] {
      var init := recs[..|recs| - 1];
      PenaltyMapKeys(init);
      var pm := PenaltyMap(recs);
      var pm0 := PenaltyMap(init);
      assert forall t :: t in pm <==> t in pm0 || Ends(recs[|recs| - 1], t);
      forall t | t in pm
        ensures exists i :: 0 <= i < |recs| && Ends(recs[i], t)
      {
        if !Ends(recs[|recs| - 1], t) {
          var i :| 0 <= i < |init| && Ends(init[i], t);
          assert recs[i] == init[i];
        }
      }
      forall t | exists i :: 0 <= i < |recs| && Ends(recs[i], t)
        ensures t in pm
      {
        var i :| 0 <= i < |recs| && Ends(recs[i], t);
        if i < |init| {
          assert init[i] == recs[i];
        }
      }
    }
  }

  /** No record ending in a key is longer than the key's value. */
  lemma PenaltyMapMax(recs: seq<SeqMatch>)
    ensures forall t, i :: t in PenaltyMap(recs) && 0 <= i < |recs| && Ends(recs[i], t) ==>
      |recs[i].s| <= PenaltyMap(recs)[t]
  {
    forall t, i | t in PenaltyMap(recs) && 0 <= i < |recs| && Ends(recs[i], t)
      ensures |recs[i].s| <= PenaltyMap(recs)[t]
    {
      PenaltyMapHas(recs, i, t);
    }
  }

  /** A record ending in `t` makes `t` a key mapped to at least the record's length. */
  lemma {:induction false} PenaltyMapHas(recs: seq<SeqMatch>, i: nat, t: nat)
    requires i < |recs| && Ends(recs[i], t)
    ensures t in PenaltyMap(recs) && |recs[i].s| <= PenaltyMap(recs)[t]
    decreases |recs|
  {
    var init := recs[..|recs| - 1];
    if i < |init| {
      assert init[i] == recs[i];
      PenaltyMapHas(init, i, t);
    }
  }

  /** Each key's value is the length of some record ending in it. */
  lemma {:induction false} PenaltyMapAttained(recs: seq<SeqMatch>)
    ensures forall t :: t in PenaltyMap(recs) ==>
      exists i :: 0 <= i < |recs| && Ends(recs[i], t) && |recs[i].s| == PenaltyMap(recs)[t]
    decreases |recs|
  {
    if recs != [] {
      var init := recs[..|recs| - 1];
      var r := recs[|recs| - 1];
      PenaltyMapAttained(init);
      var pm := PenaltyMap(recs);
      var pm0 := PenaltyMap(init);
      forall t | t in pm
        ensures exists i :: 0 <= i < |recs| && Ends(recs[i], t) && |recs[i].s| == pm[t]
      {
        if Ends(r, t) && pm[t] == |r.s| {
          assert Ends(recs[|recs| - 1], t);
        } else {
          assert t in pm0 && pm[t] == pm0[t];
          var i :| 0 <= i < |init| && Ends(init[i], t) && |init[i].s| == pm0[t];
          assert recs[i] == init[i];
        }
      }
    }
  }

  /** Every key comes from a record ending in it whose length is the key's value. */
  lemma PenaltyMapWitness(recs: seq<SeqMatch>, t: nat) returns (i: nat)
    requires t in PenaltyMap(recs)
    ensures i < |recs| && Ends(recs[i], t) && |recs[i].s| == PenaltyMap(recs)[t]
  {
    PenaltyMapAttained(recs);
    i :| 0 <= i < |recs| && Ends(recs[i], t) && |recs[i].s| == PenaltyMap(recs)[t];
  }

  /**
   * The table of the history: empty when the history is shorter than twice
   * the minimum length, else built from the repeated stretches of the last
   * `lastN` tokens.
   */
  function RepetitionMap(h: seq<nat>, minLength: nat, tolerance: nat, maxMerge: nat, lastN: nat): map<nat, nat>
    requires minLength >= 1
  {
    if |h| < minLength * 2 then map[]
    else PenaltyMap(FindSeqs(LastN(h, lastN), minLength, tolerance, maxMerge))
  }

  /** The entries after the penalty: position `i` is penalised when `i` is a key of `pm` below `bound`. */
  function PenaliseAt(s: seq<Logit>, pm: map<nat, nat>, bound: nat, flat: real, stacking: real): (r: seq<Logit>)
    ensures |r| == |s|
  {
    seq(|s|, i requires 0 <= i < |s| =>
      if i in pm && i < bound then s[i].(logit := s[i].logit - SeqPenalty(pm[i], stacking, flat)) else s[i])
  }

  /** Some key of the table is not a position of the buffer. */
  predicate OutOfRange(pm: map<nat, nat>, len: nat)
  {
    exists t :: t in pm && t >= len
  }

  /**
   * The sampler's effect. The table is indexed by token id but applied to
   * buffer positions; the keys are visited in ascending order (the source
   * visits a hash map), so every position in range is penalised before a
   * key past the end stops the loop with an error.
   */
  function SeqRepStep(flat: real, stacking: real, minLength: nat, tolerance: nat, maxMerge: nat, lastN: nat,
                      history: Option<seq<nat>>, b: Buf): Step
  {
    if b.entries == [] || (flat == 0.0 && stacking == 0.0) || minLength < 2 || lastN < minLength then Step(b, None)
    else match history
      case None => Step(b, Some(MissingResource("last_tokens")))
      case Some(h) =>
        var pm := RepetitionMap(h, minLength, tolerance, maxMerge, lastN);
        var nb := b.(entries := PenaliseAt(b.entries, pm, |b.entries|, flat, stacking));
        if OutOfRange(pm, |b.entries|) then Step(nb, Some(InternalError("TID out of range for logits")))
        else Step(nb, None)
  }

  /** The guards make the sampler a no-op, whatever the history. */
  lemma SeqRepNoop(flat: real, stacking: real, minLength: nat, tolerance: nat, maxMerge: nat, lastN: nat,
                   history: Option<seq<nat>>, b: Buf)
    requires b.entries == [] || (flat == 0.0 && stacking == 0.0) || minLength < 2 || lastN < minLength
    ensures SeqRepStep(flat, stacking, minLength, tolerance, maxMerge, lastN, history, b) == Step(b, None)
  {
  }

  /** Past the guards, a missing history is reported and the buffer is untouched. */
  lemma SeqRepMissingHistory(flat: real, stacking: real, minLength: nat, tolerance: nat, maxMerge: nat, lastN: nat, b: Buf)
    requires b.entries != [] && (flat != 0.0 || stacking != 0.0) && minLength >= 2 && lastN >= minLength
    ensures SeqRepStep(flat, stacking, minLength, tolerance, maxMerge, lastN, None, b)
      == Step(b, Some(MissingResource("last_tokens")))
  {
  }

  /** A history shorter than twice the minimum length changes nothing. */
  lemma SeqRepShortHistory(flat: real, stacking: real, minLength: nat, tolerance: nat, maxMerge: nat, lastN: nat,
                           h: seq<nat>, b: Buf)
    requires minLength >= 1 && |h| < minLength * 2
    ensures SeqRepStep(flat, stacking, minLength, tolerance, maxMerge, lastN, Some(h), b) == Step(b, None)
  {
    var pm := RepetitionMap(h, minLength, tolerance, maxMerge, lastN);
    assert pm == map[];
    assert PenaliseAt(b.entries, pm, |b.entries|, flat, stacking) == b.entries;
  }

  /**
   * With a history, each position `i` that is a key of the table loses
   * `SeqPenalty(pm[i])`; every other entry is unchanged; both flags are
   * kept; and the error is reported exactly when a key lies past the end.
   */
  lemma SeqRepEntries(flat: real, stacking: real, minLength: nat, tolerance: nat, maxMerge: nat, lastN: nat,
                      h: seq<nat>, b: Buf)
    requires b.entries != [] && (flat != 0.0 || stacking != 0.0) && minLength >= 2 && lastN >= minLength
    ensures var pm := RepetitionMap(h, minLength, tolerance, maxMerge, lastN);
      var r := SeqRepStep(flat, stacking, minLength, tolerance, maxMerge, lastN, Some(h), b);
      |r.buf.entries| == |b.entries| &&
      (forall i :: 0 <= i < |b.entries| ==>
        r.buf.entries[i] == if i in pm then b.entries[i].(logit := b.entries[i].logit - SeqPenalty(pm[i], stacking, flat))
                            else b.entries[i]) &&
      r.buf.sorted == b.sorted && r.buf.softmax == b.softmax &&
      (r.err.Some? <==> OutOfRange(pm, |b.entries|))
  {
    var pm := RepetitionMap(h, minLength, tolerance, maxMerge, lastN);
    var ps := PenaliseAt(b.entries, pm, |b.entries|, flat, stacking);
    assert SeqRepStep(flat, stacking, minLength, tolerance, maxMerge, lastN, Some(h), b).buf
      == b.(entries := ps);
  }

  /** Non-negative penalties never raise a logit, and longer stretches are penalised at least as much. */
  lemma SeqPenaltyMonotone(m: nat, n: nat, stacking: real, flat: real)
    requires stacking >= 0.0 && flat >= 0.0 && m <= n
    ensures 0.0 <= SeqPenalty(m, stacking, flat) <= SeqPenalty(n, stacking, flat)
  {
    assert m as real * stacking <= n as real * stacking by {
      assert n as real * stacking - m as real * stacking == (n - m) as real * stacking;
    }
  }

  // ---------------------------------------------------------------------
  // What gets penalised
  // ---------------------------------------------------------------------

  /**
   * Every key of the table is the token that followed an earlier stretch
   * of the window matching a suffix of it at least `minLength` long (up to
   * the tolerance), and maps to the length of such a stretch, which
   * includes the following token and so exceeds `minLength`.
   */
  lemma RepetitionMapContinues(h: seq<nat>, minLength: nat, tolerance: nat, maxMerge: nat, lastN: nat)
    requires minLength >= 1
    ensures var w := LastN(h, lastN);
      var pm := RepetitionMap(h, minLength, tolerance, maxMerge, lastN);
      forall t :: t in pm ==>
        pm[t] > minLength &&
        exists r :: r in FindSeqs(w, minLength, tolerance, maxMerge) && Continues(w, minLength, r) && Ends(r, t) && |r.s| == pm[t]
  {
    var w := LastN(h, lastN);
    if |h| >= minLength * 2 {
      var recs := FindSeqs(w, minLength, tolerance, maxMerge);
      var pm := RepetitionMap(h, minLength, tolerance, maxMerge, lastN);
      assert pm == PenaltyMap(recs);
      forall t | t in pm
        ensures pm[t] > minLength
        ensures exists r :: r in recs && Continues(w, minLength, r) && Ends(r, t) && |r.s| == pm[t]
      {
        var i := PenaltyMapWitness(recs, t);
        assert recs[i] in recs;
        FindSeqsContinues(w, minLength, tolerance, maxMerge);
      }
    }
  }

  /**
   * An exact earlier occurrence, at `o`, of the window's last `k` tokens,
   * followed by the token `t`.
   */
  predicate FollowedBy(w: seq<nat>, minLength: nat, o: nat, k: nat, t: nat)
  {
    Occurrence(w, minLength, o, k) && w[o + k] == t
  }

  /** The last token of an exact record is the one after the occurrence. */
  lemma ExactLast(w: seq<nat>, r: SeqMatch)
    requires ExactlyContinues(w, r)
    ensures |r.s| == r.nLen + 1 && r.s[r.nLen] == w[r.hOffs + r.nLen]
  {
  }

  /**
   * With tolerance 0, every key `t` of the window's table follows an exact
   * earlier occurrence of a suffix of length `k >= minLength`, and maps to
   * `k + 1` for one such occurrence.
   */
  lemma ExactKeysFollow(w: seq<nat>, minLength: nat, maxMerge: nat)
    requires minLength >= 1
    ensures var pm := PenaltyMap(FindSeqs(w, minLength, 0, maxMerge));
      forall t :: t in pm ==> exists o: nat, k: nat :: FollowedBy(w, minLength, o, k, t) && pm[t] == k + 1
  {
    var pm := PenaltyMap(FindSeqs(w, minLength, 0, maxMerge));
    forall t | t in pm
      ensures exists o: nat, k: nat :: FollowedBy(w, minLength, o, k, t) && pm[t] == k + 1
    {
      var o, k := ExactKeyFollows(w, minLength, maxMerge, t);
    }
  }

  /** The occurrence behind one key of the exact table. */
  lemma ExactKeyFollows(w: seq<nat>, minLength: nat, maxMerge: nat, t: nat) returns (o: nat, k: nat)
    requires minLength >= 1
    requires t in PenaltyMap(FindSeqs(w, minLength, 0, maxMerge))
    ensures FollowedBy(w, minLength, o, k, t) && PenaltyMap(FindSeqs(w, minLength, 0, maxMerge))[t] == k + 1
  {
    var recs := FindSeqs(w, minLength, 0, maxMerge);
    var i := PenaltyMapWitness(recs, t);
    ExactRecord(w, minLength, maxMerge, i);
    var r := recs[i];
    ExactLast(w, r);
    o, k := r.hOffs, r.nLen;
  }

  /** With tolerance 0, each record is an exact earlier occurrence of a suffix. */
  lemma ExactRecord(w: seq<nat>, minLength: nat, maxMerge: nat, i: nat)
    requires minLength >= 1 && i < |FindSeqs(w, minLength, 0, maxMerge)|
    ensures var r := FindSeqs(w, minLength, 0, maxMerge)[i];
      ExactlyContinues(w, r) && Occurrence(w, minLength, r.hOffs, r.nLen)
  {
    var recs := FindSeqs(w, minLength, 0, maxMerge);
    assert recs[i] in recs;
    FindSeqsExact(w, minLength, maxMerge);
  }

  /** With tolerance 0, each exact earlier occurrence of a suffix is recorded. */
  lemma ExactOccurrenceRecorded(w: seq<nat>, minLength: nat, maxMerge: nat, o: nat, k: nat) returns (i: nat)
    requires minLength >= 1 && Occurrence(w, minLength, o, k)
    ensures i < |FindSeqs(w, minLength, 0, maxMerge)|
    ensures FindSeqs(w, minLength, 0, maxMerge)[i] == SeqMatch(o, k + 1, k, w[o..o + k + 1])
  {
    var recs := FindSeqs(w, minLength, 0, maxMerge);
    FindSeqsExact(w, minLength, maxMerge);
    assert SeqMatch(o, k + 1, k, w[o..o + k + 1]) in recs;
    i :| 0 <= i < |recs| && recs[i] == SeqMatch(o, k + 1, k, w[o..o + k + 1]);
  }

  /**
   * With tolerance 0, the token after every exact earlier occurrence of a
   * suffix of length `k >= minLength` is a key, mapped to at least `k + 1`.
   */
  lemma ExactFollowIsKey(w: seq<nat>, minLength: nat, maxMerge: nat)
    requires minLength >= 1
    ensures var pm := PenaltyMap(FindSeqs(w, minLength, 0, maxMerge));
      forall t, o: nat, k: nat :: FollowedBy(w, minLength, o, k, t) ==> t in pm && k + 1 <= pm[t]
  {
    var recs := FindSeqs(w, minLength, 0, maxMerge);
    var pm := PenaltyMap(recs);
    forall t, o: nat, k: nat | FollowedBy(w, minLength, o, k, t)
      ensures t in pm && k + 1 <= pm[t]
    {
      var i := ExactOccurrenceRecorded(w, minLength, maxMerge, o, k);
      assert Ends(recs[i], t);
      PenaltyMapHas(recs, i, t);
    }
  }

  /**
   * With tolerance 0 the table is exact: `t` is a key iff for some
   * `k >= minLength` the window's last `k` tokens occurred earlier,
   * immediately followed by `t`; and `t` maps to one more than the longest
   * such `k`.
   */
  lemma RepetitionMapExact(h: seq<nat>, minLength: nat, maxMerge: nat, lastN: nat)
    requires minLength >= 1 && |h| >= minLength * 2
    ensures var w := LastN(h, lastN);
      var pm := RepetitionMap(h, minLength, 0, maxMerge, lastN);
      (forall t :: t in pm <==> exists o: nat, k: nat :: FollowedBy(w, minLength, o, k, t)) &&
      (forall t, o: nat, k: nat :: t in pm && FollowedBy(w, minLength, o, k, t) ==> k + 1 <= pm[t]) &&
      (forall t :: t in pm ==> exists o: nat, k: nat :: FollowedBy(w, minLength, o, k, t) && pm[t] == k + 1)
  {
    var w := LastN(h, lastN);
    var pm := RepetitionMap(h, minLength, 0, maxMerge, lastN);
    assert pm == PenaltyMap(FindSeqs(w, minLength, 0, maxMerge));
    ExactFollowIsKey(w, minLength, maxMerge);
    forall t | t in pm
      ensures exists o: nat, k: nat :: FollowedBy(w, minLength, o, k, t)
      ensures exists o: nat, k: nat :: FollowedBy(w, minLength, o, k, t) && pm[t] == k + 1
    {
      var o, k := ExactKeyFollows(w, minLength, maxMerge, t);
    }
  }

  // ---------------------------------------------------------------------
  // The documented example
  // ---------------------------------------------------------------------

  /**
   * After `1, 2, 3, 4, 1, 2, 3` with minimum length 3 and no tolerance,
   * the only token penalised is `4`, for a stretch of length 4.
   */
  lemma RepetitionExample(h: seq<nat>)
    requires h == [1, 2, 3, 4, 1, 2, 3]
    ensures RepetitionMap(h, 3, 0, 1, 64) == map[4 := 4]
  {
    var w := LastN(h, 64);
    assert w == h;
    var pm := RepetitionMap(h, 3, 0, 1, 64);
    RepetitionMapExact(h, 3, 1, 64);
    ExampleOccurrences(w);
    assert pm.Keys == {4};
  }

  /** In the example history the last three tokens recur exactly once earlier, followed by `4`. */
  lemma ExampleOccurrences(w: seq<nat>)
    requires w == [1, 2, 3, 4, 1, 2, 3]
    ensures FollowedBy(w, 3, 0, 3, 4)
    ensures forall t, o: nat, k: nat :: FollowedBy(w, 3, o, k, t) ==> o == 0 && k == 3 && t == 4
  {
    assert w[0..3] == w[7 - 3..];
    forall t, o: nat, k: nat | FollowedBy(w, 3, o, k, t)
      ensures o == 0 && k == 3 && t == 4
    {
      assert w[o..o + k][0] == w[o] && w[7 - k..][0] == w[7 - k];
      assert w[o] == w[7 - k];
    }
  }

  /** Defaults: no penalty, minimum length 4, no tolerance, merge 1, window 64. */
  // ---------------------------------------------------------------------
  // Tolerance and merging, on the documented examples
  // ---------------------------------------------------------------------

  /** A short history whose scan yields one record penalises that record's last token alone. */
  lemma RepetitionMapSingle(h: seq<nat>, minLength: nat, tolerance: nat, maxMerge: nat, r: SeqMatch)
    requires minLength >= 1 && minLength * 2 <= |h| <= 64 && r.s != []
    requires FindSeqs(h, minLength, tolerance, maxMerge) == [r]
    ensures RepetitionMap(h, minLength, tolerance, maxMerge, 64) == map[r.s[|r.s| - 1] := |r.s|]
  {
    assert LastN(h, 64) == h;
    assert [r][..0] == [] && [r][|[r]| - 1] == r;
    assert PenaltyMap([r][..0]) == map[];
  }

  /** With one skip allowed, the suffix 1, 2, 3 matches 1, 8, 3 at the start, which 4 follows. */
  lemma ToleranceExampleStart(w: seq<nat>)
    requires w == [1, 8, 3, 4, 1, 2, 3]
    ensures NeedleScan(w, 3, 1, 1, 0) == [SeqMatch(0, 4, 3, [1, 8, 3, 4])]
  {
    assert w[0..] == w && w[4..] == [1, 2, 3];
    assert FuzzyMatchOf([1, 8, 3, 4, 1, 2, 3], [1, 2, 3], 3, 1, 1) == [(3, 3)];
    RecordsSingle(w, 0, 3, 3, 3);
    assert w[0..4] == [1, 8, 3, 4];
    FoundMismatch(w, 1, 1, 0, 4);
    assert Needles(w, 3, 1, 1, 0, 3) == [];
    assert Needles(w, 3, 1, 1, 0, 4) == FoundRecords(w, 1, 1, 0, 3);
  }

  /** Every later hay start of the seven-token examples begins with a token no scanned suffix begins with. */
  lemma SevenTokensRest(w: seq<nat>, tol: nat, mergeLimit: nat, off: nat)
    requires |w| == 7 && 1 <= off <= 3
    requires w[off] != w[4] && (off < 3 ==> w[off] != w[3])
    ensures NeedleScan(w, 3, tol, mergeLimit, off) == []
  {
    assert NeedleEnd(w, 3, off) == if off == 3 then 4 else 5;
    FoundMismatch(w, tol, mergeLimit, off, 3);
    assert Needles(w, 3, tol, mergeLimit, off, 4) == [];
    if off < 3 {
      FoundMismatch(w, tol, mergeLimit, off, 4);
      assert Needles(w, 3, tol, mergeLimit, off, 5) == [];
    }
  }

  /** Only the record of the first hay start remains among the seven-token history's records. */
  lemma SevenTokensScan(w: seq<nat>, tol: nat, mergeLimit: nat)
    requires |w| == 7
    requires forall off :: 1 <= off <= 3 ==> w[off] != w[4] && (off < 3 ==> w[off] != w[3])
    ensures FindSeqs(w, 3, tol, mergeLimit) == NeedleScan(w, 3, tol, mergeLimit, 0)
  {
    SevenTokensRest(w, tol, mergeLimit, 1);
    SevenTokensRest(w, tol, mergeLimit, 2);
    SevenTokensRest(w, tol, mergeLimit, 3);
    assert HayScan(w, 3, tol, mergeLimit, 4) == [];
    assert HayScan(w, 3, tol, mergeLimit, 3) == [];
    assert HayScan(w, 3, tol, mergeLimit, 2) == [];
    assert HayScan(w, 3, tol, mergeLimit, 1) == [];
  }

  /**
   * With tolerance 1, the history 1, 8, 3, 4, 1, 2, 3 and minimum length 3
   * penalise exactly token 4, at length 4: the 8 is tolerated.
   */
  lemma ToleranceExample(h: seq<nat>)
    requires h == [1, 8, 3, 4, 1, 2, 3]
    ensures RepetitionMap(h, 3, 1, 1, 64) == map[4 := 4]
  {
    ToleranceExampleStart(h);
    SevenTokensScan(h, 1, 1);
    RepetitionMapSingle(h, 3, 1, 1, SeqMatch(0, 4, 3, [1, 8, 3, 4]));
  }

  /** The test history 0, 4, 2, 3, 0, 1, 2: the suffix 0, 1, 2 matches 0, 4, 2 at the start, which 3 follows. */
  lemma ToleranceTestStart(w: seq<nat>)
    requires w == [0, 4, 2, 3, 0, 1, 2]
    ensures NeedleScan(w, 3, 1, 1, 0) == [SeqMatch(0, 4, 3, [0, 4, 2, 3])]
  {
    assert w[0..] == w && w[4..] == [0, 1, 2];
    assert FuzzyMatchOf([0, 4, 2, 3, 0, 1, 2], [0, 1, 2], 3, 1, 1) == [(3, 3)];
    RecordsSingle(w, 0, 3, 3, 3);
    assert w[0..4] == [0, 4, 2, 3];
    FoundMismatch(w, 1, 1, 0, 4);
    assert Needles(w, 3, 1, 1, 0, 3) == [];
    assert Needles(w, 3, 1, 1, 0, 4) == FoundRecords(w, 1, 1, 0, 3);
  }

  /**
   * With tolerance 1 and minimum length 3, the history 0, 4, 2, 3, 0, 1, 2
   * penalises exactly token 3, at length 4.
   */
  lemma ToleranceTest(h: seq<nat>)
    requires h == [0, 4, 2, 3, 0, 1, 2]
    ensures RepetitionMap(h, 3, 1, 1, 64) == map[3 := 4]
  {
    ToleranceTestStart(h);
    SevenTokensScan(h, 1, 1);
    RepetitionMapSingle(h, 3, 1, 1, SeqMatch(0, 4, 3, [0, 4, 2, 3]));
  }

  /**
   * The suffix 1, 2, 3 against 1, 7, 8, 3, ...: with a merge limit of 1 or
   * 2 the 7 and the 8 are both skipped, with 0 only the 7 is.
   */
  lemma MergeExampleStart(w: seq<nat>, mergeLimit: nat)
    requires w == [1, 7, 8, 3, 4, 1, 2, 3] && mergeLimit <= 2
    ensures NeedleScan(w, 3, 1, mergeLimit, 0) ==
      if mergeLimit == 0 then [] else [SeqMatch(0, 5, 3, [1, 7, 8, 3, 4])]
  {
    assert w[0..] == w && w[5..] == [1, 2, 3];
    if mergeLimit == 0 {
      assert FuzzyMatchOf([1, 7, 8, 3, 4, 1, 2, 3], [1, 2, 3], 3, 1, 0) == [];
      assert Records([], w, 0, 3) == [];
    } else if mergeLimit == 1 {
      assert FuzzyMatchOf([1, 7, 8, 3, 4, 1, 2, 3], [1, 2, 3], 3, 1, 1) == [(4, 3)];
      RecordsSingle(w, 0, 3, 4, 3);
    } else {
      assert FuzzyMatchOf([1, 7, 8, 3, 4, 1, 2, 3], [1, 2, 3], 3, 1, 2) == [(4, 3)];
      RecordsSingle(w, 0, 3, 4, 3);
    }
    assert w[0..5] == [1, 7, 8, 3, 4];
    FoundMismatch(w, 1, mergeLimit, 0, 4);
    FoundMismatch(w, 1, mergeLimit, 0, 5);
    assert Needles(w, 3, 1, mergeLimit, 0, 3) == [];
    assert Needles(w, 3, 1, mergeLimit, 0, 4) == FoundRecords(w, 1, mergeLimit, 0, 3);
    assert Needles(w, 3, 1, mergeLimit, 0, 5) == FoundRecords(w, 1, mergeLimit, 0, 3);
  }

  /** The later hay starts of 1, 7, 8, 3, 4, 1, 2, 3 begin with no scanned suffix's first token. */
  lemma MergeExampleRest(w: seq<nat>, mergeLimit: nat, off: nat)
    requires w == [1, 7, 8, 3, 4, 1, 2, 3] && 1 <= off <= 4
    ensures NeedleScan(w, 3, 1, mergeLimit, off) == []
  {
    assert NeedleEnd(w, 3, off) == if off == 4 then 4 else if off == 3 then 5 else 6;
    FoundMismatch(w, 1, mergeLimit, off, 3);
    assert Needles(w, 3, 1, mergeLimit, off, 4) == [];
    if off < 4 {
      FoundMismatch(w, 1, mergeLimit, off, 4);
      assert Needles(w, 3, 1, mergeLimit, off, 5) == [];
    }
    if off < 3 {
      FoundMismatch(w, 1, mergeLimit, off, 5);
      assert Needles(w, 3, 1, mergeLimit, off, 6) == [];
    }
  }

  /**
   * With tolerance 1, the history 1, 7, 8, 3, 4, 1, 2, 3 and minimum
   * length 3 penalise token 4, at length 5, for a merge limit of 1 or 2;
   * with 0 nothing is penalised. The documentation says 0 and 1 both turn
   * merging off and 2 is needed here, but the code opens a window of one
   * more token than the limit after each skip.
   */
  lemma MergeExample(h: seq<nat>, mergeLimit: nat)
    requires h == [1, 7, 8, 3, 4, 1, 2, 3] && mergeLimit <= 2
    ensures RepetitionMap(h, 3, 1, mergeLimit, 64) == if mergeLimit == 0 then map[] else map[4 := 5]
  {
    MergeExampleStart(h, mergeLimit);
    MergeExampleRest(h, mergeLimit, 1);
    MergeExampleRest(h, mergeLimit, 2);
    MergeExampleRest(h, mergeLimit, 3);
    MergeExampleRest(h, mergeLimit, 4);
    assert HayScan(h, 3, 1, mergeLimit, 5) == [];
    assert HayScan(h, 3, 1, mergeLimit, 4) == [];
    assert HayScan(h, 3, 1, mergeLimit, 3) == [];
    assert HayScan(h, 3, 1, mergeLimit, 2) == [];
    assert HayScan(h, 3, 1, mergeLimit, 1) == [];
    if mergeLimit == 0 {
      assert LastN(h, 64) == h;
    } else {
      RepetitionMapSingle(h, 3, 1, mergeLimit, SeqMatch(0, 5, 3, [1, 7, 8, 3, 4]));
    }
  }

  function Default(): SampleSeqRepetition
  {
    SampleSeqRepetition(0.0, 0.0, 4, 0, 1, 64)
  }

  /** With its default penalties of zero the sampler changes nothing. */
  lemma DefaultNoop(history: Option<seq<nat>>, b: Buf)
    ensures var d := Default();
      SeqRepStep(d.flatPenalty, d.stackingPenalty, d.minLength, d.tolerance, d.maxMerge, d.lastN, history, b)
        == Step(b, None)
  {
  }

  function SeqRepMetadata(): SamplerMetadata
  {
    SamplerMetadata("sequence repetition", [
      OptionMetadata("flat_penalty", FloatType),
      OptionMetadata("stacking_penalty", FloatType),
      OptionMetadata("min_length", UIntType),
      OptionMetadata("tolerance", UIntType),
      OptionMetadata("max_merge", UIntType),
      OptionMetadata("last_n", UIntType)])
  }

  /** The option keys, in order. */
  lemma SeqRepKeys()
    ensures Keys(SeqRepMetadata().options)
      == ["flat_penalty", "stacking_penalty", "min_length", "tolerance", "max_merge", "last_n"]
  {
  }

  // ---------------------------------------------------------------------
  // The sampler's loops
  // ---------------------------------------------------------------------

  /** Builds the table from the records, keeping the longest length per token. */
  method PenaltyMapOf(recs: seq<SeqMatch>) returns (pm: map<nat, nat>)
    ensures pm == PenaltyMap(recs)
  {
    pm := map[];
    var i := 0;
    while i < |recs|
      invariant 0 <= i <= |recs|
      invariant pm == PenaltyMap(recs[..i])
    {
      assert recs[..i + 1][..i] == recs[..i];
      var r := recs[i];
      if |r.s| > 0 {
        var seqlen := |r.s|;
        var t := r.s[seqlen - 1];
        if t in pm {
          if pm[t] < seqlen {
            pm := pm[t := seqlen];
          }
        } else {
          pm := pm[t := seqlen];
        }
      }
      i := i + 1;
    }
    assert recs[..i] == recs;
  }

  /** A set of naturals holding `x` has a least element, found below `x`. */
  lemma {:induction false} HasLeast(s: set<nat>, x: nat)
    requires x in s
    ensures exists m :: m in s && forall y :: y in s ==> m <= y
    decreases x
  {
    if exists y :: y in s && y < x {
      var y :| y in s && y < x;
      HasLeast(s, y);
    } else {
      assert forall y :: y in s ==> x <= y;
    }
  }

  /** Raising the bound past the next key `tid` in range updates just that entry. */
  lemma PenaliseAtStep(s: seq<Logit>, pm: map<nat, nat>, next: nat, tid: nat, flat: real, stacking: real)
    requires tid in pm && next <= tid < |s|
    requires forall a :: a in pm && next <= a ==> tid <= a
    ensures var before := PenaliseAt(s, pm, next, flat, stacking);
      PenaliseAt(s, pm, tid + 1, flat, stacking)
        == before[tid := before[tid].(logit := before[tid].logit - SeqPenalty(pm[tid], stacking, flat))]
  {
    var before := PenaliseAt(s, pm, next, flat, stacking);
    var after := PenaliseAt(s, pm, tid + 1, flat, stacking);
    var upd := before[tid := before[tid].(logit := before[tid].logit - SeqPenalty(pm[tid], stacking, flat))];
    forall i | 0 <= i < |s|
      ensures after[i] == upd[i]
    {
      if i == tid {
        assert before[i] == s[i];
      }
    }
    assert after == upd;
  }

  /** Only the keys in range matter. */
  lemma PenaliseAtInRange(s: seq<Logit>, pm: map<nat, nat>, b1: nat, b2: nat, flat: real, stacking: real)
    requires forall i :: 0 <= i < |s| && i in pm ==> (i < b1 <==> i < b2)
    ensures PenaliseAt(s, pm, b1, flat, stacking) == PenaliseAt(s, pm, b2, flat, stacking)
  {
  }

  /** The least key not yet visited lies past the end: the rest are past it too. */
  lemma PenaliseAtStopped(s: seq<Logit>, pm: map<nat, nat>, next: nat, tid: nat, flat: real, stacking: real)
    requires tid in pm && next <= |s| <= tid
    requires forall a :: a in pm && next <= a ==> tid <= a
    ensures PenaliseAt(s, pm, next, flat, stacking) == PenaliseAt(s, pm, |s|, flat, stacking)
    ensures OutOfRange(pm, |s|)
  {
    PenaliseAtInRange(s, pm, next, |s|, flat, stacking);
  }

  /** Every key has been visited, and all of them were in range. */
  lemma PenaliseAtDone(s: seq<Logit>, pm: map<nat, nat>, next: nat, flat: real, stacking: real)
    requires next <= |s| && forall a :: a in pm ==> a < next
    ensures PenaliseAt(s, pm, next, flat, stacking) == PenaliseAt(s, pm, |s|, flat, stacking)
    ensures !OutOfRange(pm, |s|)
  {
    PenaliseAtInRange(s, pm, next, |s|, flat, stacking);
  }

  /** The least of a non-empty set of keys. */
  method LeastKey(keys: set<nat>) returns (tid: nat)
    requires keys != {}
    ensures tid in keys && forall y :: y in keys ==> tid <= y
  {
    var any :| any in keys;
    HasLeast(keys, any);
    tid :| tid in keys && forall y :: y in keys ==> tid <= y;
  }

  /**
   * The rewrite loop: visits the keys in ascending order, penalising the
   * entry at each key's position; stops with an error at the first key
   * past the end.
   */
  method ApplyPenalties(logits: Logits, pm: map<nat, nat>, flat: real, stacking: real) returns (err: Option<SamplerError>)
    modifies logits
    ensures logits.entries == PenaliseAt(old(logits.entries), pm, |old(logits.entries)|, flat, stacking)
    ensures logits.sorted == old(logits.sorted) && logits.softmax == old(logits.softmax)
    ensures err == if OutOfRange(pm, |old(logits.entries)|) then Some(InternalError("TID out of range for logits")) else None
  {
    ghost var s := logits.entries;
    var rest := pm.Keys;
    // Every key below `next` has been visited; every key left is at least `next`.
    ghost var next: nat := 0;
    while rest != {}
      invariant rest <= pm.Keys && next <= |s|
      invariant |logits.entries| == |s|
      invariant logits.sorted == old(logits.sorted) && logits.softmax == old(logits.softmax)
      invariant forall c :: c in rest ==> next <= c
      invariant forall a :: a in pm && next <= a ==> a in rest
      invariant logits.entries == PenaliseAt(s, pm, next, flat, stacking)
      decreases |rest|
    {
      var tid := LeastKey(rest);
      if |logits.entries| <= tid {
        PenaliseAtStopped(s, pm, next, tid, flat, stacking);
        return Some(InternalError("TID out of range for logits"));
      }
      var e := logits.entries;
      var l := e[tid];
      PenaliseAtStep(s, pm, next, tid, flat, stacking);
      logits.entries := e[tid := l.(logit := l.logit - SeqPenalty(pm[tid], stacking, flat))];
      rest := rest - {tid};
      next := tid + 1;
    }
    PenaliseAtDone(s, pm, next, flat, stacking);
    err := None;
  }

  datatype SampleSeqRepetition = SampleSeqRepetition(
    flatPenalty: real, stackingPenalty: real, minLength: nat, tolerance: nat, maxMerge: nat, lastN: nat)
  {
    method Sample(res: Resources, logits: Logits) returns (err: Option<SamplerError>)
      modifies logits
      ensures Step(logits.State(), err)
        == SeqRepStep(flatPenalty, stackingPenalty, minLength, tolerance, maxMerge, lastN, res.lastTokens, old(logits.State()))
    {
      if logits.entries == [] || (flatPenalty == 0.0 && stackingPenalty == 0.0) || minLength < 2 || lastN < minLength {
        return None;
      }
      if res.lastTokens.None? {
        return Some(MissingResource("last_tokens"));
      }
      var origTokens := res.lastTokens.value;
      var penalize: map<nat, nat> := map[];
      if |origTokens| >= minLength * 2 {
        var tokens := if lastN > |origTokens| then origTokens else origTokens[|origTokens| - lastN..];
        assert tokens == LastN(origTokens, lastN);
        var recs := FindSeqsLoop(tokens, minLength, tolerance, maxMerge);
        penalize := PenaltyMapOf(recs);
      }
      err := ApplyPenalties(logits, penalize, flatPenalty, stackingPenalty);
    }
  }
}
