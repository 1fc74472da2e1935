/**
 * The later revision of the chain builder. Its slots, `push_slot`,
 * `configure` and `into_chain` are the same as in `Build`; what it adds is
 * `ensure_present`, which gives an optional slot its default content.
 */
module Building {
  import opened Types
  import opened Build

  /**
   * `ensure_present`: an empty Single slot takes the factory's instance, an
   * empty Chain slot gets it as its only sampler; every other slot is left
   * as it is.
   */
  function EnsurePresent<S>(slot: Slot<S>): (r: Slot<S>)
    ensures SameKind(r, slot)
    ensures r.SingleSlot? ==> r.sampler.Some?
    ensures r.ChainSlot? ==> r.samplers != []
    ensures Contribution(slot) != [] ==> r == slot
  {
    match slot
    case SingleSlot(f, None) => SingleSlot(f, Some(f))
    case ChainSlot(f, ss) => if ss == [] then ChainSlot(f, [f]) else slot
    case _ => slot
  }

  /** Ensuring presence twice is the same as once. */
  lemma EnsurePresentIdempotent<S>(slot: Slot<S>)
    ensures EnsurePresent(EnsurePresent(slot)) == EnsurePresent(slot)
  {
  }

  /** A slot that was empty contributes exactly the factory's instance afterwards. */
  lemma EnsurePresentFills<S>(slot: Slot<S>)
    ensures Contribution(EnsurePresent(slot)) != []
    ensures Contribution(slot) == [] ==> Contribution(EnsurePresent(slot)) == [slot.factory]
  {
  }

  /**
   * Every slot made present. The library has no such operation; this is a
   * caller applying `ensure_present` to each slot, defined so that
   * `EnsureAllChainLength` can say what that gives.
   */
  function EnsureAll<S>(slots: seq<(string, Slot<S>)>): (r: seq<(string, Slot<S>)>)
    ensures |r| == |slots|
    ensures forall j :: 0 <= j < |slots| ==> r[j] == (slots[j].0, EnsurePresent(slots[j].1))
  {
    if slots == [] then [] else [(slots[0].0, EnsurePresent(slots[0].1))] + EnsureAll(slots[1..])
  }

  /**
   * Once every slot is present, the chain built from the slots has at
   * least one sampler per slot.
   */
  lemma {:induction false} EnsureAllChainLength<S>(slots: seq<(string, Slot<S>)>)
    ensures |Flatten(EnsureAll(slots))| >= |slots|
  {
    if slots != [] {
      EnsureAllChainLength(slots[1..]);
      EnsurePresentFills(slots[0].1);
      assert EnsureAll(slots)[1..] == EnsureAll(slots[1..]);
    }
  }
}
