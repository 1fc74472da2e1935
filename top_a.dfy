/**
 * Top-A: like Min-P, but the threshold is `a1 * pow(top probability, a2)`.
 */
module TopA {
  import opened Types
  import opened Values
  import opened Metadata
  import MinP

  /** `a1 * pow(top probability, a2)`. */
  function Threshold(a1: real, a2: real, sb: Buf, m: Math): real
    requires sb.entries != []
  {
    m.powf(sb.entries[0].prob, a2) * a1
  }

  /** The Top-A cut of a buffer already through `ensure_softmax`. */
  function TopACutOf(a1: real, a2: real, minKeep: nat, sb: Buf, m: Math): Buf
    requires sb.entries != []
  {
    MinP.CutBelow(sb, Threshold(a1, a2, sb, m), minKeep)
  }

  /** The buffer after Top-A: no-op guards, `ensure_softmax`, then the cut. */
  function TopABuf(a1: real, a2: real, minKeep: nat, b: Buf, m: Math): Buf
    requires ExpPositive(m)
  {
    if b.entries == [] || a1 == 0.0 || a2 == 0.0 then b
    else TopACutOf(a1, a2, minKeep, EnsureSoftmaxBuf(b, m), m)
  }

  /** Top-A changes nothing on an empty buffer or when either coefficient is 0. */
  lemma TopANoop(a1: real, a2: real, minKeep: nat, b: Buf, m: Math)
    requires ExpPositive(m)
    requires b.entries == [] || a1 == 0.0 || a2 == 0.0
    ensures TopABuf(a1, a2, minKeep, b, m) == b
  {
  }

  /**
   * On a softmaxed buffer Top-A keeps a threshold prefix, with threshold
   * `a1 * pow(top probability, a2)`; a buffer of at most `minKeep` entries
   * is left as it is.
   */
  lemma TopACut(a1: real, a2: real, minKeep: nat, sb: Buf, m: Math)
    requires sb.entries != []
    ensures MinP.ThresholdPrefix(sb, TopACutOf(a1, a2, minKeep, sb, m), Threshold(a1, a2, sb, m), minKeep)
    ensures |sb.entries| <= minKeep ==> TopACutOf(a1, a2, minKeep, sb, m) == sb
  {
    var t := Threshold(a1, a2, sb, m);
    var r := TopACutOf(a1, a2, minKeep, sb, m);
    assert r == MinP.CutBelow(sb, t, minKeep);
    MinP.CutBelowKeepsPrefix(sb, t, minKeep);
    assert MinP.ThresholdPrefix(sb, r, t, minKeep);
  }

  /** The declared options; the sampler's name is declared as "top-p". */
  function TopAMetadata(): SamplerMetadata
  {
    SamplerMetadata("top-p", [
      OptionMetadata("a1", FloatType),
      OptionMetadata("a2", FloatType),
      OptionMetadata("min_keep", UIntType)])
  }

  /** The option keys are a1, a2 and min_keep, in that order. */
  lemma TopAKeys()
    ensures Keys(TopAMetadata().options) == ["a1", "a2", "min_keep"]
  {
    var ks := Keys(TopAMetadata().options);
    assert ks[0] == "a1" && ks[1] == "a2" && ks[2] == "min_keep";
  }

  /** How "min" and "a" compare with the option keys. */
  lemma TopAPrefixes()
    ensures Trim("min") == "min" && Trim("a") == "a"
    ensures !StartsWith("a1", "min") && !StartsWith("a2", "min") && StartsWith("min_keep", "min")
    ensures StartsWith("a1", "a") && StartsWith("a2", "a")
  {
    TightTrim("min");
    TightTrim("a");
  }

  /**
   * With every accessor present, "min" resolves to min_keep at position 2,
   * while "a" starts two keys and is ambiguous.
   */
  lemma TopAResolve<T>(acc: seq<Option<T>>, opts: seq<(OptionMetadata, Option<T>)>)
    requires |acc| == 3 && forall i :: 0 <= i < 3 ==> acc[i].Some?
    requires opts == BuildOptions(TopAMetadata().options, acc)
    ensures FindOptionDefinition(opts, "min") == Ok((OptionMetadata("min_keep", UIntType), Some(2)))
    ensures FindOptionDefinition(opts, "a") == Err(AmbiguousKey("a"))
  {
    TopAPrefixes();
    assert UniqueMatch(opts, "min", 2);
    FindOptionDefinitionUnique(opts, "min", 2);
    FindOptionDefinitionAmbiguous(opts, "a", 0, 1);
  }

  datatype SampleTopA = SampleTopA(a1: real, a2: real, minKeep: nat)
  {
    method Sample(m: Math, logits: Logits)
      requires ExpPositive(m)
      modifies logits
      ensures logits.State() == TopABuf(a1, a2, minKeep, old(logits.State()), m)
    {
      if logits.entries == [] || a1 == 0.0 || a2 == 0.0 {
        return;
      }
      logits.EnsureSoftmax(m);
      if |logits.entries| <= minKeep {
        return;
      }
      ghost var sb := logits.State();
      var threshold := m.powf(logits.entries[0].prob, a2) * a1;
      assert threshold == Threshold(a1, a2, sb, m);
      assert TopABuf(a1, a2, minKeep, old(logits.State()), m) == MinP.CutBelow(sb, threshold, minKeep);
      var lastIdx := MinP.FirstBelow(logits.entries, MinP.Max(1, minKeep), threshold);
      if lastIdx != |logits.entries| {
        logits.Truncate(lastIdx);
        logits.SetSoftmax(false);
      }
    }
  }
}
