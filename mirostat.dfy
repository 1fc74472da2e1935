/**
 * Mirostat V1 and V2: adaptive selectors that cut the buffer according to
 * a learning state `mu`, draw a token at random from what is left and move
 * `mu` towards the target surprise `tau` at rate `eta`.
 */
module Mirostat {
  import opened Types
  import TopK
  import opened Values
  import opened Metadata
  import opened Configurable

  /** The largest finite `f32`, the range a value must narrow into. */
  const F32_MAX: real := 340282346638528859811704183484516925440.0

  /** Surprise of a probability, in bits: `-log2(p)`. */
  function Surprise(m: Math, p: real): real
  {
    -m.log2(p)
  }

  /** The learning update after a token of surprise `s` was selected. */
  function MuAfter(mu: real, eta: real, tau: real, s: real): real
  {
    mu - eta * (s - tau)
  }

  /**
   * With a positive rate the update moves `mu` against the error: down
   * after a token more surprising than the target, up after a less
   * surprising one, and not at all on target.
   */
  lemma MuMovesAgainstError(mu: real, eta: real, tau: real, s: real)
    requires eta > 0.0
    ensures s > tau ==> MuAfter(mu, eta, tau, s) < mu
    ensures s < tau ==> MuAfter(mu, eta, tau, s) > mu
    ensures s == tau ==> MuAfter(mu, eta, tau, s) == mu
  {
    if s > tau {
      assert eta * (s - tau) > 0.0;
    } else if s < tau {
      assert eta * (tau - s) > 0.0;
    }
  }

  /** Position of the first entry with token id `tid` (`iter().find`). */
  function FindToken(s: seq<Logit>, tid: nat): (r: Option<nat>)
    ensures r.Some? ==> r.value < |s| && s[r.value].tokenId == tid
    ensures r.Some? ==> forall j :: 0 <= j < r.value ==> s[j].tokenId != tid
    ensures r.None? ==> forall j :: 0 <= j < |s| ==> s[j].tokenId != tid
  {
    if s == [] then None
    else if s[0].tokenId == tid then Some(0)
    else
      match FindToken(s[1..], tid)
      case None => None
      case Some(i) => Some(i + 1)
  }

  /** The learning state and reported token after the random selection. */
  datatype Pick = Pick(mu: real, token: Option<nat>, err: Option<SamplerError>)

  const NOT_IN_LOGITS: string := "Impossible: sample token not in logits?"

  /**
   * The random selection over the cut buffer and the `mu` update: a drawn
   * token is looked up in the buffer, and its surprise drives the update.
   * A failed draw, or a drawn id missing from the buffer, is an error and
   * leaves `mu` alone; a draw of nothing reports nothing.
   */
  function Select(m: Math, res: Resources, s: seq<Logit>, mu: real, eta: real, tau: real): (r: Pick)
    ensures r.token.None? ==> r.mu == mu
    ensures r.err.Some? ==> r.token.None?
    ensures res.draw(s).Err? ==> r == Pick(mu, None, Some(res.draw(s).error))
    ensures res.draw(s) == Ok(None) ==> r == Pick(mu, None, None)
    ensures res.draw(s).Ok? && res.draw(s).value.Some? ==>
      var tid := res.draw(s).value.value;
      ((forall j :: 0 <= j < |s| ==> s[j].tokenId != tid) <==> r.err == Some(InternalError(NOT_IN_LOGITS)))
    ensures r.token.Some? ==>
      r.err.None? && res.draw(s) == Ok(r.token) &&
      exists j :: 0 <= j < |s| && s[j].tokenId == r.token.value &&
        r.mu == MuAfter(mu, eta, tau, Surprise(m, s[j].prob))
  {
    match res.draw(s)
    case Err(e) => Pick(mu, None, Some(e))
    case Ok(None) => Pick(mu, None, None)
    case Ok(Some(tid)) =>
      match FindToken(s, tid)
      case None => Pick(mu, None, Some(InternalError(NOT_IN_LOGITS)))
      case Some(j) => Pick(MuAfter(mu, eta, tau, Surprise(m, s[j].prob)), Some(tid), None)
  }

  // ---------------------------------------------------------------------
  // Mirostat V1
  // ---------------------------------------------------------------------

  /** The fields of a V1 sampler. */
  datatype Mirostat1 = Mirostat1(nVocab: nat, m: nat, tau: real, eta: real, mu: real, token: Option<nat>)

  /**
   * Mirostat's estimate of how many entries to keep, from the softmaxed
   * buffer, `mu`, `m` and the vocabulary size. The Zipf-exponent estimate
   * and the closed-form size behind it are not part of this model: any
   * estimate may be supplied.
   */
  type KEstimate = (seq<Logit>, real, nat, nat) -> nat

  const NEEDS_N_VOCAB: string := "Mirostat v1 sampler requires n_vocab"

  /**
   * One V1 call: the token is cleared; an empty buffer or `m < 1` changes
   * nothing else; a zero vocabulary size is an error; otherwise softmax,
   * top-k with the estimated size (keeping at least one), then selection.
   */
  function Mirostat1Step(math: Math, res: Resources, estimateK: KEstimate, st: Mirostat1, b: Buf): (Mirostat1, Step)
    requires ExpPositive(math)
  {
    var cleared := st.(token := None);
    if b.entries == [] || st.m < 1 then (cleared, Step(b, None))
    else if st.nVocab == 0 then (cleared, Step(b, Some(InternalError(NEEDS_N_VOCAB))))
    else
      var b1 := SoftmaxBuf(b, math);
      var k := estimateK(b1.entries, st.mu, st.m, st.nVocab);
      var b2 := TopK.TopKBuf(k, 1, b1);
      var p := Select(math, res, b2.entries, st.mu, st.eta, st.tau);
      (cleared.(mu := p.mu, token := p.token), Step(b2, p.err))
  }

  /**
   * The guards of a V1 call: with an empty buffer or `m < 1` only the token
   * is cleared; with a zero vocabulary size the call fails and the buffer
   * is untouched. Otherwise at least one entry survives the cut, every
   * survivor is a softmaxed entry from the sorted prefix, `tau`, `eta`, `m`
   * and the vocabulary size never change, and a reported token comes with
   * the `mu` update for one of the survivors.
   */
  lemma Mirostat1Behaviour(math: Math, res: Resources, estimateK: KEstimate, st: Mirostat1, b: Buf)
    requires ExpPositive(math)
    ensures var (st1, out) := Mirostat1Step(math, res, estimateK, st, b);
      st1.nVocab == st.nVocab && st1.m == st.m && st1.tau == st.tau && st1.eta == st.eta &&
      (st1.token.None? ==> st1.mu == st.mu) &&
      ((b.entries == [] || st.m < 1) ==> st1 == st.(token := None) && out == Step(b, None)) &&
      (b.entries != [] && st.m >= 1 && st.nVocab == 0 ==>
        st1 == st.(token := None) && out == Step(b, Some(InternalError(NEEDS_N_VOCAB)))) &&
      (b.entries != [] && st.m >= 1 && st.nVocab > 0 ==>
        var b1 := SoftmaxBuf(b, math);
        1 <= |out.buf.entries| <= |b.entries| && out.buf.entries == b1.entries[..|out.buf.entries|] &&
        (st1.token.Some? ==>
          exists j :: 0 <= j < |out.buf.entries| &&
            out.buf.entries[j].tokenId == st1.token.value &&
            st1.mu == MuAfter(st.mu, st.eta, st.tau, Surprise(math, out.buf.entries[j].prob))))
  {
    if b.entries != [] && st.m >= 1 && st.nVocab > 0 {
      var b1 := SoftmaxBuf(b, math);
      assert SortedView(b1) == b1.entries;
    }
  }

  /** `new`: mu starts at twice the target, m at 100, no token yet. */
  function New1(nVocab: nat, tau: real, eta: real): Mirostat1
  {
    Mirostat1(nVocab, 100, tau, eta, tau * 2.0, None)
  }

  /** `Default`: tau 5, eta 0.1, mu 10, m 100 and no vocabulary size. */
  function Default1(): Mirostat1
  {
    Mirostat1(0, 100, 5.0, 0.1, 10.0, None)
  }

  /** The builders: each replaces one field; `tau` also resets mu to `2 * tau`. */
  function WithNVocab(st: Mirostat1, val: nat): Mirostat1 { st.(nVocab := val) }
  function WithM(st: Mirostat1, val: nat): Mirostat1 { st.(m := val) }
  function WithTau1(st: Mirostat1, val: real): Mirostat1 { st.(tau := val, mu := val * 2.0) }
  function WithEta1(st: Mirostat1, val: real): Mirostat1 { st.(eta := val) }
  function WithMu1(st: Mirostat1, val: real): Mirostat1 { st.(mu := val) }

  /**
   * The default is `new` with no vocabulary size, tau 5 and eta 0.1; `new`
   * is the default with its three arguments applied through the builders,
   * `tau` first; and `mu` set after `tau` overrides the reset while `tau`
   * set after `mu` does not keep it.
   */
  lemma Mirostat1Builders(st: Mirostat1, nVocab: nat, tau: real, eta: real, mu: real)
    ensures Default1() == New1(0, 5.0, 0.1)
    ensures New1(nVocab, tau, eta) == WithEta1(WithTau1(WithNVocab(Default1(), nVocab), tau), eta)
    ensures WithMu1(WithTau1(st, tau), mu) == st.(tau := tau, mu := mu)
    ensures WithTau1(WithMu1(st, mu), tau).mu == 2.0 * tau
  {
  }

  /** The option definitions of V1, in order. */
  function Mirostat1Options(): seq<OptionMetadata>
  {
    [OptionMetadata("tau", FloatType), OptionMetadata("eta", FloatType), OptionMetadata("mu", FloatType),
     OptionMetadata("m", UIntType), OptionMetadata("n_vocab", UIntType)]
  }

  /** The value of V1's option `i`, widened. */
  function Load1(st: Mirostat1, i: nat): OptionValue
  {
    if i == 0 then Float(Finite(st.tau))
    else if i == 1 then Float(Finite(st.eta))
    else if i == 2 then Float(Finite(st.mu))
    else if i == 3 then UInt(st.m)
    else UInt(st.nVocab)
  }

  /** A write through V1's accessor `i`. */
  function Store1(st: Mirostat1, i: nat, v: OptionValue): Mirostat1
  {
    match v
    case Float(Finite(r)) =>
      if i == 0 then st.(tau := r) else if i == 1 then st.(eta := r) else if i == 2 then st.(mu := r) else st
    case UInt(n) => if i == 3 then st.(m := n) else if i == 4 then st.(nVocab := n) else st
    case _ => st
  }

  /** Narrowing a 64-bit unsigned value to `usize` (64 bits wide). */
  function FitsUsize(n: nat): bool
  {
    n <= U64_MAX
  }

  /** Narrowing a 64-bit float to `f32`: finite values within its range. */
  function FitsF32(f: FloatValue): bool
  {
    f.Finite? && -F32_MAX <= f.r <= F32_MAX
  }

  /** `post_set_option`: writing `tau` resets mu to `2 * tau`. */
  function Post1(st: Mirostat1, md: OptionMetadata): Outcome<Mirostat1>
  {
    if md.key == "tau" then Outcome(st.(mu := st.tau * 2.0), None) else Outcome(st, None)
  }

  function Mirostat1Config(): ConfigImpl<Mirostat1>
  {
    ConfigImpl(Mirostat1Options(),
      [Some(FloatType), Some(FloatType), Some(FloatType), Some(UIntType), Some(UIntType)],
      Load1, Store1, FitsUsize, FitsF32, NoPre, Post1)
  }

  /**
   * Option keys are tau, eta, mu, m, n_vocab in that order, and since no key
   * is preferred for being spelled out in full, "m" is ambiguous (it starts
   * both "mu" and "m").
   */
  lemma Mirostat1Lookup()
    ensures Keys(Mirostat1Options()) == ["tau", "eta", "mu", "m", "n_vocab"]
    ensures FindOptionDefinition(Options(Mirostat1Config()), "m") == Err(AmbiguousKey("m"))
  {
    Mirostat1Keys();
    Mirostat1MStarts();
    TightTrim("m");
    FindOptionDefinitionAmbiguous(Options(Mirostat1Config()), "m", 2, 3);
  }

  /** The trimmed key "m" starts both "mu" and "m". */
  lemma Mirostat1MStarts()
    ensures 3 < |Options(Mirostat1Config())|
    ensures StartsWith(Options(Mirostat1Config())[2].0.key, Trim("m"))
    ensures StartsWith(Options(Mirostat1Config())[3].0.key, Trim("m"))
  {
    Mirostat1Keys();
    TightTrim("m");
    assert StartsWith("mu", "m") by { assert "mu"[..1] == "m"; }
    assert StartsWith("m", "m") by { assert "m"[..1] == "m"; }
  }

  lemma Mirostat1Keys()
    ensures Keys(Mirostat1Options()) == ["tau", "eta", "mu", "m", "n_vocab"]
    ensures |Options(Mirostat1Config())| == 5
    ensures forall j :: 0 <= j < 5 ==> Options(Mirostat1Config())[j].0 == Mirostat1Options()[j]
  {
  }

  /** Every float option of V1 takes a finite value in `f32` range. */
  lemma Mirostat1FloatFits(t: real, i: nat)
    requires -F32_MAX <= t <= F32_MAX && i < 3
    ensures Mirostat1Config().accessors[i] == Some(TypeOf(Float(Finite(t))))
    ensures Fits(Mirostat1Config(), Float(Finite(t)))
  {
  }

  /** V1's accessors read back what they store, and its hooks leave option `i` alone. */
  lemma Mirostat1Hooks(i: nat)
    requires i < 5
    ensures ReadsBack(Mirostat1Config(), i) && PreKeeps(Mirostat1Config(), i) && PostKeeps(Mirostat1Config(), i)
  {
    var c := Mirostat1Config();
    assert ReadsBack(c, i);
    assert PreKeeps(c, i);
    assert PostKeeps(c, i);
  }

  /** A write through a key that names V1's option `i` with a value of its kind that narrows. */
  lemma Mirostat1Write(st: Mirostat1, key: string, v: OptionValue, i: nat)
    requires i < 5 && UniqueMatch(Options(Mirostat1Config()), Trim(Trim(key)), i)
    requires Mirostat1Config().accessors[i] == Some(TypeOf(v)) && Fits(Mirostat1Config(), v)
    ensures SetOptionOf(Mirostat1Config(), st, key, v) == Post1(Store1(st, i, v), Mirostat1Options()[i])
  {
    var c := Mirostat1Config();
    assert c.pre(st, c.options[i], v) == (st, Ok(v));
    SetOptionWrite(c, st, key, v, i);
  }

  /** "tau" names the first option and no other. */
  lemma Mirostat1TauUnique()
    ensures UniqueMatch(Options(Mirostat1Config()), "tau", 0)
  {
    var opts := Options(Mirostat1Config());
    forall j | 0 <= j < |opts| && j != 0 ensures !StartsWith(opts[j].0.key, "tau") {
      NotStartsWith(opts[j].0.key, "tau");
    }
  }

  /** The keys "tau" and "mu" as `set_option` sees them, after trimming. */
  lemma Mirostat1TauKey()
    ensures UniqueMatch(Options(Mirostat1Config()), Trim(Trim("tau")), 0)
  {
    TightTrim("tau");
    Mirostat1TauUnique();
  }

  lemma Mirostat1MuKey()
    ensures UniqueMatch(Options(Mirostat1Config()), Trim(Trim("mu")), 2)
  {
    TightTrim("mu");
    Mirostat1MuUnique();
  }

  /** Storing `tau` and running the post hook. */
  lemma Mirostat1PostTau(st: Mirostat1, t: real)
    ensures Post1(Store1(st, 0, Float(Finite(t))), Mirostat1Options()[0]) == Outcome(st.(tau := t, mu := 2.0 * t), None)
  {
  }

  /** Setting `tau` through the option layer also resets mu to `2 * tau`. */
  lemma Mirostat1SetTau(st: Mirostat1, t: real)
    requires -F32_MAX <= t <= F32_MAX
    ensures SetOptionOf(Mirostat1Config(), st, "tau", Float(Finite(t)))
      == Outcome(st.(tau := t, mu := 2.0 * t), None)
  {
    Mirostat1TauKey();
    Mirostat1FloatFits(t, 0);
    Mirostat1Write(st, "tau", Float(Finite(t)), 0);
    Mirostat1PostTau(st, t);
  }

  /** "mu" names the third option and no other. */
  lemma Mirostat1MuUnique()
    ensures UniqueMatch(Options(Mirostat1Config()), "mu", 2)
  {
    var opts := Options(Mirostat1Config());
    forall j | 0 <= j < |opts| && j != 2 ensures !StartsWith(opts[j].0.key, "mu") {
      NotStartsWith(opts[j].0.key, "mu");
    }
  }

  /** Setting `mu` changes mu alone, so a `mu` set after `tau` overrides the reset. */
  lemma Mirostat1SetMu(st: Mirostat1, u: real)
    requires -F32_MAX <= u <= F32_MAX
    ensures SetOptionOf(Mirostat1Config(), st, "mu", Float(Finite(u))) == Outcome(st.(mu := u), None)
  {
    Mirostat1MuKey();
    Mirostat1FloatFits(u, 2);
    Mirostat1Write(st, "mu", Float(Finite(u)), 2);
  }

  /**
   * Any option written with a value of its kind that narrows reads back as
   * that value, including `tau` despite the mu reset.
   */
  lemma Mirostat1RoundTrip(st: Mirostat1, key: string, v: OptionValue, i: nat)
    requires i < 5 && UniqueMatch(Options(Mirostat1Config()), Trim(key), i)
    requires Mirostat1Config().accessors[i] == Some(TypeOf(v)) && Fits(Mirostat1Config(), v)
    ensures SetOptionOf(Mirostat1Config(), st, key, v).err == None
    ensures GetOptionOf(Mirostat1Config(), SetOptionOf(Mirostat1Config(), st, key, v).sampler, key) == Ok(v)
  {
    Mirostat1Hooks(i);
    SetGetRoundTrip(Mirostat1Config(), st, key, v, i);
  }

  class SampleMirostat1 {
    var nVocab: nat
    var m: nat
    var tau: real
    var eta: real
    var mu: real
    var token: Option<nat>

    function State(): Mirostat1
      reads this
    {
      Mirostat1(nVocab, m, tau, eta, mu, token)
    }

    /** A sampler with the given fields (from `new`, `default` and the builders). */
    constructor (init: Mirostat1)
      ensures State() == init
    {
      nVocab, m, tau, eta, mu, token := init.nVocab, init.m, init.tau, init.eta, init.mu, init.token;
    }

    function SampledTokenId(): Option<nat>
      reads this
    {
      token
    }

    method SetState(st: Mirostat1)
      modifies this
      ensures State() == st
    {
      nVocab, m, tau, eta, mu, token := st.nVocab, st.m, st.tau, st.eta, st.mu, st.token;
    }

    /** `post_set_option`. */
    method PostSetOption(md: OptionMetadata)
      modifies this
      ensures State() == Post1(old(State()), md).sampler
    {
      if md.key == "tau" {
        mu := tau * 2.0;
      }
    }

    /** `set_option` through the shared implementation. */
    method SetOption(key: string, val: OptionValue) returns (err: Option<Error>)
      modifies this
      ensures var r := SetOptionOf(Mirostat1Config(), old(State()), key, val);
        State() == r.sampler && err == r.err
    {
      var r := Configurable.SetOption(Mirostat1Config(), State(), key, val);
      SetState(r.sampler);
      err := r.err;
    }

    /** `configure` through the shared implementation. */
    method Configure(decimal: string -> Option<FloatValue>, text: string) returns (err: Option<Error>)
      modifies this
      ensures var r := ConfigureOf(Mirostat1Config(), decimal, old(State()), text);
        State() == r.sampler && err == r.err
    {
      var r := ConfigureFromText(Mirostat1Config(), decimal, State(), text);
      SetState(r.sampler);
      err := r.err;
    }

    method Sample(math: Math, res: Resources, estimateK: KEstimate, logits: Logits) returns (err: Option<SamplerError>)
      requires ExpPositive(math)
      modifies this, logits
      ensures var (st, out) := Mirostat1Step(math, res, estimateK, old(State()), old(logits.State()));
        State() == st && logits.State() == out.buf && err == out.err
    {
      ghost var st0 := State();
      ghost var b0 := logits.State();
      token := None;
      if |logits.entries| == 0 || m < 1 {
        return None;
      }
      if nVocab == 0 {
        return Some(InternalError(NEEDS_N_VOCAB));
      }
      logits.Softmax(math);
      var k := estimateK(logits.entries, mu, m, nVocab);
      var topK := TopK.SampleTopK(k, 1);
      topK.Sample(logits);
      ghost var p := Select(math, res, logits.entries, mu, eta, tau);
      assert Mirostat1Step(math, res, estimateK, st0, b0)
        == (st0.(mu := p.mu, token := p.token), Step(logits.State(), p.err));
      err := SelectToken(math, res, logits.entries);
    }

    /** The random selection over the cut buffer and the `mu` update. */
    method SelectToken(math: Math, res: Resources, entries: seq<Logit>) returns (err: Option<SamplerError>)
      modifies this
      ensures var p := Select(math, res, entries, old(mu), old(eta), old(tau));
        State() == old(State()).(mu := p.mu, token := if p.token.Some? then p.token else old(token)) &&
        err == p.err
    {
      var drawn := res.draw(entries);
      if drawn.Err? {
        return Some(drawn.error);
      }
      if drawn.value.Some? {
        var tid := drawn.value.value;
        var found := FindToken(entries, tid);
        if found.None? {
          return Some(InternalError(NOT_IN_LOGITS));
        }
        assert Select(math, res, entries, mu, eta, tau)
          == Pick(MuAfter(mu, eta, tau, Surprise(math, entries[found.value].prob)), Some(tid), None);
        mu := mu - eta * (-math.log2(entries[found.value].prob) - tau);
        token := Some(tid);
      }
      return None;
    }
  }

  // ---------------------------------------------------------------------
  // Mirostat V2
  // ---------------------------------------------------------------------

  /** The fields of a V2 sampler. */
  datatype Mirostat2 = Mirostat2(tau: real, eta: real, mu: real, token: Option<nat>)

  /** Position of the first entry whose surprise exceeds `mu`. */
  function FirstSurprising(m: Math, s: seq<Logit>, mu: real): (r: Option<nat>)
    ensures r.Some? ==> r.value < |s| && Surprise(m, s[r.value].prob) > mu
    ensures r.Some? ==> forall j :: 0 <= j < r.value ==> Surprise(m, s[j].prob) <= mu
    ensures r.None? ==> forall j :: 0 <= j < |s| ==> Surprise(m, s[j].prob) <= mu
  {
    if s == [] then None
    else if Surprise(m, s[0].prob) > mu then Some(0)
    else
      match FirstSurprising(m, s[1..], mu)
      case None => None
      case Some(i) => Some(i + 1)
  }

  /**
   * The V2 cut as written: the first surprising position, 0 when there is
   * none, raised to at least 1.
   */
  function V2NewSizeAsWritten(m: Math, s: seq<Logit>, mu: real): nat
  {
    var i := match FirstSurprising(m, s, mu) case None => 0 case Some(i) => i;
    if i < 1 then 1 else i
  }

  /**
   * The V2 cut as intended: the length of the prefix before the first
   * surprising entry (the whole buffer when there is none), at least 1.
   */
  function V2NewSize(m: Math, s: seq<Logit>, mu: real): nat
  {
    var i := match FirstSurprising(m, s, mu) case None => |s| case Some(i) => i;
    if i < 1 then 1 else i
  }

  /**
   * When no entry is more surprising than `mu`, the cut as written keeps a
   * single entry instead of the whole buffer.
   */
  lemma V2NewSizeAsWrittenDropsUnsurprising(m: Math, s: seq<Logit>, mu: real)
    requires |s| >= 2
    requires forall j :: 0 <= j < |s| ==> Surprise(m, s[j].prob) <= mu
    ensures V2NewSizeAsWritten(m, s, mu) == 1
    ensures V2NewSize(m, s, mu) == |s| > 1
  {
  }

  /**
   * The intended cut keeps between 1 and all entries; when the first entry
   * is not surprising, every kept entry is unsurprising; an entry just past
   * the cut is surprising unless the first one already was; and with no
   * surprising entry nothing is cut. Both cuts agree whenever some entry is
   * surprising.
   */
  lemma V2NewSizeKeepsUnsurprising(m: Math, s: seq<Logit>, mu: real)
    requires s != []
    ensures var n := V2NewSize(m, s, mu);
      1 <= n <= |s| &&
      (Surprise(m, s[0].prob) <= mu ==> forall j :: 0 <= j < n ==> Surprise(m, s[j].prob) <= mu) &&
      (n < |s| ==> Surprise(m, s[n].prob) > mu || Surprise(m, s[0].prob) > mu) &&
      ((forall j :: 0 <= j < |s| ==> Surprise(m, s[j].prob) <= mu) ==> n == |s|)
    ensures (exists j :: 0 <= j < |s| && Surprise(m, s[j].prob) > mu) ==>
      V2NewSizeAsWritten(m, s, mu) == V2NewSize(m, s, mu)
  {
    var f := FirstSurprising(m, s, mu);
    if f.Some? && f.value == 0 {
      assert Surprise(m, s[0].prob) > mu;
    }
  }

  /** The cut as written never keeps fewer than one entry or more than the buffer holds. */
  lemma V2NewSizeAsWrittenBounds(m: Math, s: seq<Logit>, mu: real)
    requires s != []
    ensures 1 <= V2NewSizeAsWritten(m, s, mu) <= |s|
  {
  }

  /**
   * What follows the first softmax in a V2 call, for a cut of `n` entries:
   * the prefix is softmaxed again and a token is selected from it.
   */
  function Mirostat2Cut(math: Math, res: Resources, st: Mirostat2, b1: Buf, n: nat): (Mirostat2, Step)
    requires ExpPositive(math)
  {
    var b2 := b1.(entries := Truncated(b1.entries, n));
    var b3 := SoftmaxBuf(b2, math);
    var p := Select(math, res, b3.entries, st.mu, st.eta, st.tau);
    (st.(mu := p.mu, token := p.token), Step(b3, p.err))
  }

  /**
   * One V2 call, with the cut as the source computes it: the token is
   * cleared; an empty buffer changes nothing else; otherwise softmax, cut
   * at the surprise threshold, softmax again over what is left, then
   * selection.
   */
  function Mirostat2Step(math: Math, res: Resources, st: Mirostat2, b: Buf): (Mirostat2, Step)
    requires ExpPositive(math)
  {
    var cleared := st.(token := None);
    if b.entries == [] then (cleared, Step(b, None))
    else
      var b1 := SoftmaxBuf(b, math);
      Mirostat2Cut(math, res, cleared, b1, V2NewSizeAsWritten(math, b1.entries, st.mu))
  }

  /** One V2 call with the intended cut, which keeps an unsurprising buffer whole. */
  function Mirostat2StepIntended(math: Math, res: Resources, st: Mirostat2, b: Buf): (Mirostat2, Step)
    requires ExpPositive(math)
  {
    var cleared := st.(token := None);
    if b.entries == [] then (cleared, Step(b, None))
    else
      var b1 := SoftmaxBuf(b, math);
      Mirostat2Cut(math, res, cleared, b1, V2NewSize(math, b1.entries, st.mu))
  }

  /**
   * A cut of `n` entries, between one and all of them, leaves the first `n`
   * softmaxed entries, same ids and logits in the same order, with
   * probabilities recomputed to sum to 1; `tau` and `eta` never change, and
   * a reported token comes with the `mu` update for one of the kept entries.
   */
  lemma Mirostat2CutBehaviour(math: Math, res: Resources, st: Mirostat2, b: Buf, n: nat)
    requires ExpPositive(math)
    requires b.entries != [] && 1 <= n <= |b.entries|
    ensures var b1 := SoftmaxBuf(b, math);
      var (st1, out) := Mirostat2Cut(math, res, st, b1, n);
      st1.tau == st.tau && st1.eta == st.eta && (st1.token.None? ==> st1.mu == st.mu) &&
      |out.buf.entries| == n &&
      (forall j :: 0 <= j < n ==>
        out.buf.entries[j].tokenId == b1.entries[j].tokenId && out.buf.entries[j].logit == b1.entries[j].logit) &&
      ProbSum(out.buf.entries, n) == 1.0 &&
      (st1.token.Some? ==>
        exists j :: 0 <= j < n && out.buf.entries[j].tokenId == st1.token.value &&
          st1.mu == MuAfter(st.mu, st.eta, st.tau, Surprise(math, out.buf.entries[j].prob)))
  {
    var b1 := SoftmaxBuf(b, math);
    var b2 := b1.(entries := Truncated(b1.entries, n));
    assert SortedView(b2) == b2.entries;
    SoftmaxSumsToOne(b2.entries, math);
  }

  /**
   * After a V2 call on a non-empty buffer, the buffer is the prefix, cut
   * as the source computes it, of the softmaxed buffer, same ids and logits
   * in the same order, with its probabilities recomputed so that they sum
   * to 1; `tau` and `eta` never change, and a reported token comes with the
   * `mu` update for one of the kept entries.
   */
  lemma Mirostat2Behaviour(math: Math, res: Resources, st: Mirostat2, b: Buf)
    requires ExpPositive(math)
    ensures var (st1, out) := Mirostat2Step(math, res, st, b);
      st1.tau == st.tau && st1.eta == st.eta && (st1.token.None? ==> st1.mu == st.mu) &&
      (b.entries == [] ==> st1 == st.(token := None) && out == Step(b, None)) &&
      (b.entries != [] ==>
        var b1 := SoftmaxBuf(b, math);
        var n := V2NewSizeAsWritten(math, b1.entries, st.mu);
        |out.buf.entries| == n && 1 <= n <= |b.entries| &&
        (forall j :: 0 <= j < n ==>
          out.buf.entries[j].tokenId == b1.entries[j].tokenId && out.buf.entries[j].logit == b1.entries[j].logit) &&
        ProbSum(out.buf.entries, n) == 1.0 &&
        (st1.token.Some? ==>
          exists j :: 0 <= j < n && out.buf.entries[j].tokenId == st1.token.value &&
            st1.mu == MuAfter(st.mu, st.eta, st.tau, Surprise(math, out.buf.entries[j].prob))))
  {
    if b.entries != [] {
      var b1 := SoftmaxBuf(b, math);
      V2NewSizeAsWrittenBounds(math, b1.entries, st.mu);
      Mirostat2CutBehaviour(math, res, st.(token := None), b, V2NewSizeAsWritten(math, b1.entries, st.mu));
    }
  }

  /**
   * As written, when no softmaxed entry is more surprising than `mu`, V2
   * keeps only the most probable entry, with probability 1, so any token it
   * reports is that entry's.
   */
  lemma Mirostat2DropsUnsurprising(math: Math, res: Resources, st: Mirostat2, b: Buf)
    requires ExpPositive(math) && b.entries != []
    requires forall j :: 0 <= j < |b.entries| ==> Surprise(math, SoftmaxBuf(b, math).entries[j].prob) <= st.mu
    ensures var (st1, out) := Mirostat2Step(math, res, st, b);
      |out.buf.entries| == 1 && out.buf.entries[0].tokenId == SoftmaxBuf(b, math).entries[0].tokenId &&
      out.buf.entries[0].prob == 1.0 &&
      (st1.token.Some? ==> st1.token.value == SoftmaxBuf(b, math).entries[0].tokenId)
  {
    var b1 := SoftmaxBuf(b, math);
    assert V2NewSizeAsWritten(math, b1.entries, st.mu) == 1 by {
      assert FirstSurprising(math, b1.entries, st.mu).None?;
    }
    Mirostat2Behaviour(math, res, st, b);
    var out := Mirostat2Step(math, res, st, b).1;
    assert ProbSum(out.buf.entries, 1) == out.buf.entries[0].prob;
  }

  /**
   * With the intended cut, when no softmaxed entry is more surprising than
   * `mu`, every entry is kept, in order, with probabilities summing to 1.
   */
  lemma Mirostat2IntendedKeepsUnsurprising(math: Math, res: Resources, st: Mirostat2, b: Buf)
    requires ExpPositive(math) && b.entries != []
    requires forall j :: 0 <= j < |b.entries| ==> Surprise(math, SoftmaxBuf(b, math).entries[j].prob) <= st.mu
    ensures var out := Mirostat2StepIntended(math, res, st, b).1;
      |out.buf.entries| == |b.entries| &&
      (forall j :: 0 <= j < |b.entries| ==> out.buf.entries[j].tokenId == SoftmaxBuf(b, math).entries[j].tokenId) &&
      ProbSum(out.buf.entries, |b.entries|) == 1.0
  {
    var b1 := SoftmaxBuf(b, math);
    V2NewSizeKeepsUnsurprising(math, b1.entries, st.mu);
    Mirostat2CutBehaviour(math, res, st.(token := None), b, |b.entries|);
  }

  /** V2's `new`, `Default` and builders, as for V1. */
  function New2(tau: real, eta: real): Mirostat2
  {
    Mirostat2(tau, eta, tau * 2.0, None)
  }

  function Default2(): Mirostat2
  {
    Mirostat2(5.0, 0.1, 10.0, None)
  }

  function WithTau2(st: Mirostat2, val: real): Mirostat2 { st.(tau := val, mu := val * 2.0) }
  function WithEta2(st: Mirostat2, val: real): Mirostat2 { st.(eta := val) }
  function WithMu2(st: Mirostat2, val: real): Mirostat2 { st.(mu := val) }

  lemma Mirostat2Builders(st: Mirostat2, tau: real, eta: real, mu: real)
    ensures Default2() == New2(5.0, 0.1)
    ensures New2(tau, eta) == WithEta2(WithTau2(Default2(), tau), eta)
    ensures WithMu2(WithTau2(st, tau), mu) == st.(tau := tau, mu := mu)
    ensures WithTau2(WithMu2(st, mu), tau).mu == 2.0 * tau
  {
  }

  function Mirostat2Options(): seq<OptionMetadata>
  {
    [OptionMetadata("tau", FloatType), OptionMetadata("eta", FloatType), OptionMetadata("mu", FloatType)]
  }

  function Load2(st: Mirostat2, i: nat): OptionValue
  {
    if i == 0 then Float(Finite(st.tau)) else if i == 1 then Float(Finite(st.eta)) else Float(Finite(st.mu))
  }

  function Store2(st: Mirostat2, i: nat, v: OptionValue): Mirostat2
  {
    match v
    case Float(Finite(r)) =>
      if i == 0 then st.(tau := r) else if i == 1 then st.(eta := r) else if i == 2 then st.(mu := r) else st
    case _ => st
  }

  function Post2(st: Mirostat2, md: OptionMetadata): Outcome<Mirostat2>
  {
    if md.key == "tau" then Outcome(st.(mu := st.tau * 2.0), None) else Outcome(st, None)
  }

  function Mirostat2Config(): ConfigImpl<Mirostat2>
  {
    ConfigImpl(Mirostat2Options(), [Some(FloatType), Some(FloatType), Some(FloatType)],
      Load2, Store2, FitsUsize, FitsF32, NoPre, Post2)
  }

  /** "t…" names only V2's first option and "m…" only its third. */
  lemma Mirostat2Unique(k: string, i: nat)
    requires (k == "tau" && i == 0) || (k == "m" && i == 2)
    ensures UniqueMatch(Options(Mirostat2Config()), k, i)
  {
    var opts := Options(Mirostat2Config());
    forall j | 0 <= j < |opts| && j != i ensures !StartsWith(opts[j].0.key, k) {
      NotStartsWith(opts[j].0.key, k);
    }
  }

  /** Setting `tau` resets mu to `2 * tau`, as in V1. */
  lemma Mirostat2SetTau(st: Mirostat2, t: real)
    requires -F32_MAX <= t <= F32_MAX
    ensures SetOptionOf(Mirostat2Config(), st, "tau", Float(Finite(t)))
      == Outcome(st.(tau := t, mu := 2.0 * t), None)
  {
    TightTrim("tau");
    Mirostat2Unique("tau", 0);
    SetOptionWrite(Mirostat2Config(), st, "tau", Float(Finite(t)), 0);
  }

  /** With V2's three keys a single letter is enough: "m" resolves to mu and sets it alone. */
  lemma Mirostat2SetMuByInitial(st: Mirostat2, u: real)
    requires -F32_MAX <= u <= F32_MAX
    ensures SetOptionOf(Mirostat2Config(), st, "m", Float(Finite(u))) == Outcome(st.(mu := u), None)
  {
    TightTrim("m");
    Mirostat2Unique("m", 2);
    SetOptionWrite(Mirostat2Config(), st, "m", Float(Finite(u)), 2);
  }

  class SampleMirostat2 {
    var tau: real
    var eta: real
    var mu: real
    var token: Option<nat>

    function State(): Mirostat2
      reads this
    {
      Mirostat2(tau, eta, mu, token)
    }

    constructor (init: Mirostat2)
      ensures State() == init
    {
      tau, eta, mu, token := init.tau, init.eta, init.mu, init.token;
    }

    function SampledTokenId(): Option<nat>
      reads this
    {
      token
    }

    method PostSetOption(md: OptionMetadata)
      modifies this
      ensures State() == Post2(old(State()), md).sampler
    {
      if md.key == "tau" {
        mu := tau * 2.0;
      }
    }

    method SetOption(key: string, val: OptionValue) returns (err: Option<Error>)
      modifies this
      ensures var r := SetOptionOf(Mirostat2Config(), old(State()), key, val);
        State() == r.sampler && err == r.err
    {
      var r := Configurable.SetOption(Mirostat2Config(), State(), key, val);
      tau, eta, mu, token := r.sampler.tau, r.sampler.eta, r.sampler.mu, r.sampler.token;
      err := r.err;
    }

    method Sample(math: Math, res: Resources, logits: Logits) returns (err: Option<SamplerError>)
      requires ExpPositive(math)
      modifies this, logits
      ensures var (st, out) := Mirostat2Step(math, res, old(State()), old(logits.State()));
        State() == st && logits.State() == out.buf && err == out.err
    {
      ghost var st0 := State();
      ghost var b0 := logits.State();
      token := None;
      if |logits.entries| == 0 {
        return None;
      }
      logits.Softmax(math);
      var newSize := V2NewSizeAsWritten(math, logits.entries, mu);
      logits.Truncate(newSize);
      logits.Softmax(math);
      ghost var p := Select(math, res, logits.entries, mu, eta, tau);
      assert Mirostat2Step(math, res, st0, b0)
        == (st0.(mu := p.mu, token := p.token), Step(logits.State(), p.err));
      err := SelectToken(math, res, logits.entries);
    }

    /** The random selection over the cut buffer and the `mu` update. */
    method SelectToken(math: Math, res: Resources, entries: seq<Logit>) returns (err: Option<SamplerError>)
      modifies this
      ensures var p := Select(math, res, entries, old(mu), old(eta), old(tau));
        State() == old(State()).(mu := p.mu, token := if p.token.Some? then p.token else old(token)) &&
        err == p.err
    {
      var drawn := res.draw(entries);
      if drawn.Err? {
        return Some(drawn.error);
      }
      if drawn.value.Some? {
        var tid := drawn.value.value;
        var found := FindToken(entries, tid);
        if found.None? {
          return Some(InternalError(NOT_IN_LOGITS));
        }
        assert Select(math, res, entries, mu, eta, tau)
          == Pick(MuAfter(mu, eta, tau, Surprise(math, entries[found.value].prob)), Some(tid), None);
        mu := mu - eta * (-math.log2(entries[found.value].prob) - tau);
        token := Some(tid);
      }
      return None;
    }
  }
}
