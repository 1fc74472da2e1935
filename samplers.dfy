/**
 * The built-in samplers as one closed set of chain stages, each with the
 * state it carries between calls, and their dispatch for the sampler chain.
 */
module Samplers {
  import opened Types
  import Chain
  import Greedy
  import TopK
  import TopP
  import MinP
  import TopA
  import TailFree
  import LocallyTypical
  import Temperature
  import FlatBias
  import FreqPresence
  import SequenceRepetition
  import Mirostat

  datatype Sampler =
    | GreedyStage(token: Option<nat>)
    | TopKStage(topK: TopK.SampleTopK)
    | TopPStage(topP: TopP.SampleTopP)
    | MinPStage(minP: MinP.SampleMinP)
    | TopAStage(topA: TopA.SampleTopA)
    | TailFreeStage(tailFree: TailFree.SampleTailFree)
    | TypicalStage(typical: LocallyTypical.SampleLocallyTypical)
    | TemperatureStage(temperature: Temperature.SampleTemperature)
    | FlatBiasStage(flatBias: FlatBias.SampleFlatBias)
    | FreqPresenceStage(freqPresence: FreqPresence.SampleFreqPresence)
    | SeqRepetitionStage(seqRepetition: SequenceRepetition.SampleSeqRepetition)
    | Mirostat1Stage(mirostat1: Mirostat.Mirostat1)
    | Mirostat2Stage(mirostat2: Mirostat.Mirostat2)

  /** The stages that select a token rather than filter or rewrite the buffer. */
  predicate Selects(s: Sampler)
  {
    s.GreedyStage? || s.Mirostat1Stage? || s.Mirostat2Stage?
  }

  /** `sampled_token_id`: only selecting stages ever report a token. */
  function TokenOf(s: Sampler): (r: Option<nat>)
    ensures r.Some? ==> Selects(s)
  {
    match s
    case GreedyStage(t) => t
    case Mirostat1Stage(st) => st.token
    case Mirostat2Stage(st) => st.token
    case _ => None
  }

  /**
   * One stage's `sample`: what each built-in does to the buffer, and the new
   * state of the stages that keep one. Stages without state come back as
   * they were, and no stage changes kind.
   */
  function Run(m: Math, res: Resources, estimateK: Mirostat.KEstimate, s: Sampler, b: Buf): (r: (Sampler, Step))
    requires ExpPositive(m)
    ensures !Selects(s) ==> r.0 == s
    ensures Selects(r.0) == Selects(s)
  {
    match s
    case GreedyStage(_) => (GreedyStage(Greedy.GreedyToken(b.entries)), Step(b, None))
    case TopKStage(x) => (s, Step(TopK.TopKBuf(x.k, x.minKeep, b), None))
    case TopPStage(x) => (s, Step(TopP.TopPBuf(x.p, x.minKeep, b, m), None))
    case MinPStage(x) => (s, Step(MinP.MinPBuf(x.p, x.minKeep, b, m), None))
    case TopAStage(x) => (s, Step(TopA.TopABuf(x.a1, x.a2, x.minKeep, b, m), None))
    case TailFreeStage(x) => (s, TailFree.TailFreeStep(x.z, x.minKeep, b, m))
    case TypicalStage(x) => (s, Step(LocallyTypical.TypicalBuf(x.p, x.minKeep, b, m), None))
    case TemperatureStage(x) => (s, Step(Temperature.TemperatureBuf(x.temperature, b), None))
    case FlatBiasStage(x) => (s, Step(FlatBias.FlatBiasBuf(x.bias, b), None))
    case FreqPresenceStage(x) =>
      (s, FreqPresence.FreqPresenceStep(x.frequencyPenalty, x.presencePenalty, x.lastN, res.lastTokens, b))
    case SeqRepetitionStage(x) =>
      (s, SequenceRepetition.SeqRepStep(x.flatPenalty, x.stackingPenalty, x.minLength, x.tolerance,
        x.maxMerge, x.lastN, res.lastTokens, b))
    case Mirostat1Stage(st) =>
      var out := Mirostat.Mirostat1Step(m, res, estimateK, st, b);
      (Mirostat1Stage(out.0), out.1)
    case Mirostat2Stage(st) =>
      var out := Mirostat.Mirostat2Step(m, res, st, b);
      (Mirostat2Stage(out.0), out.1)
  }

  /** The dispatch the chain uses for built-in stages. */
  function Builtins(m: Math, res: Resources, estimateK: Mirostat.KEstimate): Chain.Dispatch<Sampler>
    requires ExpPositive(m)
  {
    Chain.Dispatch((s, b) => Run(m, res, estimateK, s, b), TokenOf)
  }

  /**
   * A chain whose last stage does not select reports no token after a
   * successful run, whatever earlier stages picked.
   */
  lemma ChainEndingInFilterReportsNothing(m: Math, res: Resources, estimateK: Mirostat.KEstimate,
                                          ss: seq<Sampler>, b: Buf)
    requires ExpPositive(m)
    requires ss != [] && !Selects(ss[|ss| - 1])
    requires Chain.RunChain(Builtins(m, res, estimateK), ss, b).err.None?
    ensures Chain.RunChain(Builtins(m, res, estimateK), ss, b).token == None
  {
    var d := Builtins(m, res, estimateK);
    var n := |ss|;
    Chain.ChainTokenIsLast(d, ss, b);
    Chain.ChainLastStage(d, ss, b);
    var p := Chain.RunUpTo(d, ss, b, n - 1);
    assert d.run(ss[n - 1], p.buf) == Run(m, res, estimateK, ss[n - 1], p.buf);
  }

  /** The two biases bring tokens 3 and 2 below token 1, so greedy selection picks token 1. */
  lemma FlatBiasTwiceThenGreedy(bias3: real, bias2: real, b0: Buf)
    requires bias3 < -0.2 && bias2 < -0.1
    requires b0 == Buf(Enumerate([0.1, 0.2, 0.3, 0.4]), false, false)
    ensures Greedy.GreedyToken(FlatBias.FlatBiasBuf([(2, bias2)], FlatBias.FlatBiasBuf([(3, bias3)], b0)).entries) == Some(1)
  {
    var l0, l1, l2, l3 := Logit(0, 0.1, 0.0), Logit(1, 0.2, 0.0), Logit(2, 0.3, 0.0), Logit(3, 0.4, 0.0);
    assert b0.entries == [l0, l1, l2, l3];

    var b1 := FlatBias.FlatBiasBuf([(3, bias3)], b0);
    FlatBias.FlatBiasSingle(3, bias3, b0);
    FlatBias.FlatBiasEntries([(3, bias3)], b0);
    assert b1.entries == [l0, l1, l2, l3.(logit := 0.4 + bias3)];

    var b2 := FlatBias.FlatBiasBuf([(2, bias2)], b1);
    FlatBias.FlatBiasSingle(2, bias2, b1);
    FlatBias.FlatBiasEntries([(2, bias2)], b1);
    assert b2.entries == [l0, l1, l2.(logit := 0.3 + bias2), l3.(logit := 0.4 + bias3)];

    Greedy.FirstMaxIndexUnique(b2.entries, 1);
  }

  /**
   * Biasing token 3 and then token 2 far down, followed by greedy selection
   * over the scores 0.1, 0.2, 0.3, 0.4, selects token 1. The source biases by
   * negative infinity; any bias that brings both logits below 0.2 acts the
   * same.
   */
  lemma ChainFlatBiasThenGreedy(m: Math, res: Resources, estimateK: Mirostat.KEstimate, bias3: real, bias2: real)
    requires ExpPositive(m)
    requires bias3 < -0.2 && bias2 < -0.1
    ensures var ss := [FlatBiasStage(FlatBias.SampleFlatBias([(3, bias3)])),
                       FlatBiasStage(FlatBias.SampleFlatBias([(2, bias2)])),
                       GreedyStage(None)];
      var r := Chain.RunChain(Builtins(m, res, estimateK), ss, Buf(Enumerate([0.1, 0.2, 0.3, 0.4]), false, false));
      r.err == None && r.token == Some(1)
  {
    var d := Builtins(m, res, estimateK);
    var ss := [FlatBiasStage(FlatBias.SampleFlatBias([(3, bias3)])),
               FlatBiasStage(FlatBias.SampleFlatBias([(2, bias2)])),
               GreedyStage(None)];
    var b0 := Buf(Enumerate([0.1, 0.2, 0.3, 0.4]), false, false);
    var b1 := FlatBias.FlatBiasBuf([(3, bias3)], b0);
    var b2 := FlatBias.FlatBiasBuf([(2, bias2)], b1);
    FlatBiasTwiceThenGreedy(bias3, bias2, b0);
    assert Chain.RunUpTo(d, ss, b0, 1) == Chain.Progress(ss, b1, None, None);
    assert Chain.RunUpTo(d, ss, b0, 2) == Chain.Progress(ss, b2, None, None);
  }
}
