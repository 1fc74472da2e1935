/**
 * The older typical sampler: the same scoring, ranking and cut as locally
 * typical sampling, without an error path.
 */
module TypicalOld {
  import opened Types
  import LocallyTypical

  datatype SampleTypical = SampleTypical(p: real, minKeep: nat)
  {
    method Sample(m: Math, logits: Logits)
      requires ExpPositive(m)
      modifies logits
      ensures logits.State() == LocallyTypical.TypicalBuf(p, minKeep, old(logits.State()), m)
    {
      var mk := if minKeep == 0 then 0 else minKeep - 1;
      logits.Softmax(m);
      ghost var sb := logits.State();
      var ent := LocallyTypical.EntropyOf(logits.entries, m);
      var shifted := LocallyTypical.ShiftedOf(logits.entries, ent, m);
      shifted := SortBy(shifted, LocallyTypical.ScoreOf);
      var lastIdx := LocallyTypical.CutIndex(shifted, p, mk);
      LocallyTypical.Refill(logits, shifted, lastIdx);
      assert logits.State() == LocallyTypical.TypicalCutOf(p, minKeep, sb, m);
    }
  }
}
