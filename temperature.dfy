/**
 * Temperature: every logit is divided by the temperature, unless the
 * temperature is zero, in which case nothing happens.
 */
module Temperature {
  import opened Types

  /** The entries with every logit divided by `t`. */
  function Scaled(s: seq<Logit>, t: real): seq<Logit>
    requires t != 0.0
  {
    seq(|s|, i requires 0 <= i < |s| => s[i].(logit := s[i].logit / t))
  }

  /** The buffer after temperature `t`; the flags are never touched. */
  function TemperatureBuf(t: real, b: Buf): Buf
  {
    if t == 0.0 then b else b.(entries := Scaled(b.entries, t))
  }

  /**
   * Length, order, token ids and probabilities are kept; each new logit
   * times the temperature gives back the old one.
   */
  lemma TemperatureKeeps(t: real, b: Buf)
    ensures |TemperatureBuf(t, b).entries| == |b.entries|
    ensures TemperatureBuf(t, b).sorted == b.sorted
    ensures TemperatureBuf(t, b).softmax == b.softmax
    ensures forall i :: 0 <= i < |b.entries| ==>
      TemperatureBuf(t, b).entries[i].tokenId == b.entries[i].tokenId &&
      TemperatureBuf(t, b).entries[i].prob == b.entries[i].prob
    ensures t != 0.0 ==> forall i :: 0 <= i < |b.entries| ==>
      TemperatureBuf(t, b).entries[i].logit * t == b.entries[i].logit
  {
  }

  /** Temperature `t` followed by temperature `1 / t` restores the buffer. */
  lemma TemperatureInverse(t: real, b: Buf)
    requires t != 0.0
    ensures TemperatureBuf(1.0 / t, TemperatureBuf(t, b)) == b
  {
    var r := TemperatureBuf(1.0 / t, TemperatureBuf(t, b));
    forall i | 0 <= i < |b.entries|
      ensures r.entries[i] == b.entries[i]
    {
      var x := b.entries[i].logit;
      calc {
        x / t / (1.0 / t);
        x / t * t;
        x;
      }
    }
  }

  /** The default temperature 1 and temperature 0 leave the buffer alone. */
  lemma TemperatureIdentity(b: Buf)
    ensures TemperatureBuf(Default().temperature, b) == b
    ensures TemperatureBuf(0.0, b) == b
  {
    assert Default().temperature == 1.0;
    assert Scaled(b.entries, 1.0) == b.entries;
  }

  function Default(): SampleTemperature
  {
    SampleTemperature(1.0)
  }

  datatype SampleTemperature = SampleTemperature(temperature: real)
  {
    /** Rewrites each logit in place; never fails. */
    method Sample(logits: Logits)
      modifies logits
      ensures logits.State() == TemperatureBuf(temperature, old(logits.State()))
    {
      var temp := temperature;
      if temp != 0.0 {
        ghost var s := logits.entries;
        var i := 0;
        while i < |logits.entries|
          invariant 0 <= i <= |logits.entries| == |s|
          invariant logits.sorted == old(logits.sorted) && logits.softmax == old(logits.softmax)
          invariant forall j :: 0 <= j < i ==> logits.entries[j] == s[j].(logit := s[j].logit / temp)
          invariant forall j :: i <= j < |s| ==> logits.entries[j] == s[j]
        {
          logits.entries := logits.entries[i := logits.entries[i].(logit := logits.entries[i].logit / temp)];
          i := i + 1;
        }
        assert logits.entries == Scaled(s, temp);
      }
    }
  }
}
