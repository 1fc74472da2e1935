/**
 * The slot-based chain builder: named slots, each either a fixed sampler,
 * an optional single sampler or a growing list of samplers of one kind,
 * configured by slot name from `key=value` text and finally flattened, in
 * slot order, into a sampler chain.
 */
module Build {
  import opened Types
  import opened Values
  import opened Configurable
  import Chain

  /**
   * A slot. `factory` is the instance the slot's factory produces; a Single
   * slot may hold a sampler, a Chain slot holds its samplers in the order
   * they were added.
   */
  datatype Slot<S> =
    | StaticSlot(factory: S)
    | SingleSlot(factory: S, sampler: Option<S>)
    | ChainSlot(factory: S, samplers: seq<S>)

  /** The same kind of slot with the same factory. */
  ghost predicate SameKind<S>(a: Slot<S>, b: Slot<S>)
  {
    a.factory == b.factory &&
    (a.StaticSlot? <==> b.StaticSlot?) && (a.SingleSlot? <==> b.SingleSlot?) && (a.ChainSlot? <==> b.ChainSlot?)
  }

  /** The position of the first slot named exactly `name`, if any. */
  function FindSlot<S>(slots: seq<(string, Slot<S>)>, name: string): (r: Option<nat>)
    ensures r.Some? ==> r.value < |slots| && slots[r.value].0 == name
    ensures r.Some? ==> forall j :: 0 <= j < r.value ==> slots[j].0 != name
    ensures r.None? ==> forall j :: 0 <= j < |slots| ==> slots[j].0 != name
  {
    if slots == [] then None
    else if slots[0].0 == name then Some(0)
    else match FindSlot(slots[1..], name)
      case None => None
      case Some(i) => Some(i + 1)
  }

  /** A sampler's configure error, reported against the slot's name. */
  function Failed(name: string, err: Option<Error>): Option<Error>
  {
    if err.Some? then Some(ConfigureFailed(name, err.value)) else None
  }

  /**
   * Configuring one slot with the text `text`, where `cfg` is the samplers'
   * own `configure`. A static slot refuses; a Single slot's sampler is
   * configured in place and keeps what was applied before a failure; an
   * empty Single slot and a Chain slot take a freshly configured instance
   * only when configuring it succeeds.
   */
  function ConfigureSlot<S>(cfg: (S, string) -> Outcome<S>, name: string, slot: Slot<S>, text: string)
    : (r: (Slot<S>, Option<Error>))
    ensures SameKind(r.0, slot)
  {
    match slot
    case StaticSlot(_) => (slot, Some(CannotConfigureStatic(name)))
    case SingleSlot(f, Some(x)) =>
      var o := cfg(x, text);
      (SingleSlot(f, Some(o.sampler)), Failed(name, o.err))
    case SingleSlot(f, None) =>
      var o := cfg(f, text);
      if o.err.Some? then (slot, Failed(name, o.err)) else (SingleSlot(f, Some(o.sampler)), None)
    case ChainSlot(f, ss) =>
      var o := cfg(f, text);
      if o.err.Some? then (slot, Failed(name, o.err)) else (ChainSlot(f, ss + [o.sampler]), None)
  }

  /**
   * `configure` on the builder's slots: the first slot named `name` is
   * configured; the names, the number of slots, every slot's kind and
   * factory and every other slot stay as they were; with no such slot
   * nothing changes and the error is UnknownSlot.
   */
  function ConfigureBuilder<S>(cfg: (S, string) -> Outcome<S>, slots: seq<(string, Slot<S>)>, name: string, text: string)
    : (r: (seq<(string, Slot<S>)>, Option<Error>))
    ensures |r.0| == |slots|
    ensures forall j :: 0 <= j < |slots| ==> r.0[j].0 == slots[j].0 && SameKind(r.0[j].1, slots[j].1)
    ensures forall j :: 0 <= j < |slots| && FindSlot(slots, name) != Some(j) ==> r.0[j] == slots[j]
    ensures FindSlot(slots, name).None? ==> r == (slots, Some(UnknownSlot(name)))
  {
    match FindSlot(slots, name)
    case None => (slots, Some(UnknownSlot(name)))
    case Some(i) =>
      var (slot, err) := ConfigureSlot(cfg, name, slots[i].1, text);
      (slots[i := (slots[i].0, slot)], err)
  }

  /** Configuring a static slot fails and changes nothing. */
  lemma ConfigureStaticRefused<S>(cfg: (S, string) -> Outcome<S>, slots: seq<(string, Slot<S>)>, name: string,
                                  text: string, i: nat)
    requires FindSlot(slots, name) == Some(i) && slots[i].1.StaticSlot?
    ensures ConfigureBuilder(cfg, slots, name, text) == (slots, Some(CannotConfigureStatic(name)))
  {
    assert slots[i := (slots[i].0, slots[i].1)] == slots;
  }

  /**
   * Every error names the slot: UnknownSlot, CannotConfigureStatic, or the
   * sampler's own error wrapped in ConfigureFailed.
   */
  lemma ConfigureErrorNamesSlot<S>(cfg: (S, string) -> Outcome<S>, slots: seq<(string, Slot<S>)>, name: string,
                                   text: string)
    requires ConfigureBuilder(cfg, slots, name, text).1.Some?
    ensures var e := ConfigureBuilder(cfg, slots, name, text).1.value;
      e == UnknownSlot(name) || e == CannotConfigureStatic(name) || (e.ConfigureFailed? && e.name == name)
  {
  }

  /**
   * A failed `configure` leaves the builder as it was, except that a
   * sampler already held by a Single slot keeps whatever the failing
   * configure text applied before its error.
   */
  lemma ConfigureFailureKeepsSlots<S>(cfg: (S, string) -> Outcome<S>, slots: seq<(string, Slot<S>)>, name: string,
                                      text: string)
    requires ConfigureBuilder(cfg, slots, name, text).1.Some?
    requires FindSlot(slots, name).Some? ==>
      !(slots[FindSlot(slots, name).value].1.SingleSlot? && slots[FindSlot(slots, name).value].1.sampler.Some?)
    ensures ConfigureBuilder(cfg, slots, name, text).0 == slots
  {
    var r := ConfigureBuilder(cfg, slots, name, text);
    if FindSlot(slots, name).Some? {
      var i := FindSlot(slots, name).value;
      assert r.0[i] == slots[i];
    }
  }

  /**
   * A successful `configure` of a Chain slot appends exactly one freshly
   * configured instance after the ones it held.
   */
  lemma ConfigureChainAppends<S>(cfg: (S, string) -> Outcome<S>, slots: seq<(string, Slot<S>)>, name: string,
                                 text: string, i: nat)
    requires FindSlot(slots, name) == Some(i) && slots[i].1.ChainSlot?
    requires ConfigureBuilder(cfg, slots, name, text).1.None?
    ensures ConfigureBuilder(cfg, slots, name, text).0[i].1.samplers
      == slots[i].1.samplers + [cfg(slots[i].1.factory, text).sampler]
  {
  }

  /**
   * A successful `configure` of a Single slot leaves it holding the
   * configured sampler: the one it held, or a fresh one if it was empty.
   */
  lemma ConfigureSingleHolds<S>(cfg: (S, string) -> Outcome<S>, slots: seq<(string, Slot<S>)>, name: string,
                                text: string, i: nat)
    requires FindSlot(slots, name) == Some(i) && slots[i].1.SingleSlot?
    requires ConfigureBuilder(cfg, slots, name, text).1.None?
    ensures var base := if slots[i].1.sampler.Some? then slots[i].1.sampler.value else slots[i].1.factory;
      ConfigureBuilder(cfg, slots, name, text).0[i].1.sampler == Some(cfg(base, text).sampler)
  {
  }

  // ---------------------------------------------------------------------
  // into_chain
  // ---------------------------------------------------------------------

  /** What one slot puts into the chain. */
  function Contribution<S>(slot: Slot<S>): seq<S>
  {
    match slot
    case StaticSlot(f) => [f]
    case SingleSlot(_, x) => if x.Some? then [x.value] else []
    case ChainSlot(_, ss) => ss
  }

  /** The samplers of all slots, slot by slot. */
  function Flatten<S>(slots: seq<(string, Slot<S>)>): seq<S>
  {
    if slots == [] then [] else Contribution(slots[0].1) + Flatten(slots[1..])
  }

  /** Flattening keeps slot order: the slots of a concatenation flatten to the concatenation. */
  lemma {:induction false} FlattenAppend<S>(a: seq<(string, Slot<S>)>, b: seq<(string, Slot<S>)>)
    ensures Flatten(a + b) == Flatten(a) + Flatten(b)
  {
    if a == [] {
      assert a + b == b;
    } else {
      assert (a + b)[1..] == a[1..] + b;
      FlattenAppend(a[1..], b);
    }
  }

  // ---------------------------------------------------------------------
  // The builder
  // ---------------------------------------------------------------------

  class SamplerChainBuilder<S> {
    var slots: seq<(string, Slot<S>)>

    /** `default`: no slots. */
    constructor ()
      ensures slots == []
    {
      slots := [];
    }

    /** `from`: the given named slots, in order. */
    constructor FromSlots(named: seq<(string, Slot<S>)>)
      ensures slots == named
    {
      slots := named;
    }

    /** `push_slot` (and `+`, `+=`): one named slot appended at the end. */
    method PushSlot(name: string, slot: Slot<S>)
      modifies this
      ensures slots == old(slots) + [(name, slot)]
    {
      slots := slots + [(name, slot)];
    }

    /** `configure`: finds the slot by name and configures it. */
    method Configure(cfg: (S, string) -> Outcome<S>, name: string, text: string) returns (err: Option<Error>)
      modifies this
      ensures (slots, err) == ConfigureBuilder(cfg, old(slots), name, text)
    {
      var i := 0;
      while i < |slots| && slots[i].0 != name
        invariant 0 <= i <= |slots|
        invariant forall j :: 0 <= j < i ==> slots[j].0 != name
      {
        i := i + 1;
      }
      if i == |slots| {
        return Some(UnknownSlot(name));
      }
      assert FindSlot(slots, name) == Some(i);
      var r := ConfigureSlot(cfg, name, slots[i].1, text);
      slots := slots[i := (slots[i].0, r.0)];
      err := r.1;
    }

    /** `into_chain`: every slot's samplers pushed onto a new chain, slot by slot. */
    method IntoChain() returns (chain: Chain.SamplerChain<S>)
      ensures fresh(chain)
      ensures chain.samplers == Flatten(slots) && chain.token == None
    {
      var named := slots;
      chain := new Chain.SamplerChain();
      var i := 0;
      while i < |named|
        invariant 0 <= i <= |named|
        invariant fresh(chain)
        invariant chain.samplers == Flatten(named[..i]) && chain.token == None
      {
        var before := chain.samplers;
        match named[i].1 {
          case StaticSlot(f) =>
            chain.PushSampler(f);
          case SingleSlot(_, x) =>
            if x.Some? {
              chain.PushSampler(x.value);
            }
          case ChainSlot(_, ss) =>
            var k := 0;
            while k < |ss|
              invariant 0 <= k <= |ss|
              invariant chain.samplers == before + ss[..k] && chain.token == None
            {
              chain.PushSampler(ss[k]);
              k := k + 1;
            }
            assert ss[..k] == ss;
        }
        assert chain.samplers == before + Contribution(named[i].1);
        FlattenAppend(named[..i], [named[i]]);
        assert named[..i + 1] == named[..i] + [named[i]];
        i := i + 1;
      }
      assert named[..i] == named;
    }
  }
}
