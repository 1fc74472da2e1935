/**
 * The older, single-file configuration layer. Its lookup does not trim and
 * has its own rule for the empty key, every option is writable, and the
 * hooks around a write are given the option's position rather than its
 * definition. Values are parsed exactly as in the newer layer.
 */
module ConfigureOld {
  import opened Types
  import opened Values
  import opened Metadata
  import opened Configurable

  /**
   * What a configurable sampler supplies to the older layer: its option
   * definitions, the kind of the mutable slot of each option (one per
   * option), widened reads, writes, the narrowing checks and the two hooks,
   * which receive the option's position.
   */
  datatype OldConfigImpl<!S> = OldConfigImpl(
    options: seq<OptionMetadata>,
    kinds: seq<OptionType>,
    load: (S, nat) -> OptionValue,
    store: (S, nat, OptionValue) -> S,
    fitsUInt: nat -> bool,
    fitsFloat: FloatValue -> bool,
    pre: (S, nat, OptionValue) -> (S, Result<OptionValue, Error>),
    post: (S, nat) -> Outcome<S>)

  /** The sampler hands out one mutable slot per option definition. */
  predicate WellFormed<S>(c: OldConfigImpl<S>)
  {
    |c.kinds| == |c.options|
  }

  /** The definitions as an option list in which every option is writable at its own position. */
  function Positions(md: seq<OptionMetadata>): (r: seq<(OptionMetadata, Option<nat>)>)
    ensures |r| == |md|
    ensures forall i: nat :: i < |md| ==> r[i] == (md[i], Some(i))
  {
    seq(|md|, (i: nat) requires i < |md| => (md[i], Some(i)))
  }

  // ---------------------------------------------------------------------
  // find_option_definition
  // ---------------------------------------------------------------------

  /**
   * The older lookup, on the key as given. The empty key resolves to the
   * only option when there is exactly one, and is otherwise ambiguous
   * (even with no options at all). Any other key must start exactly one
   * option key.
   */
  function FindOld(md: seq<OptionMetadata>, key: string): (r: Result<nat, ConfigureError>)
    ensures r.Ok? ==> r.value < |md| && StartsWith(md[r.value].key, key)
    ensures r.Ok? ==> forall j :: 0 <= j < |md| && j != r.value ==> !StartsWith(md[j].key, key)
  {
    if key == [] then
      if |md| == 1 then Ok(0) else Err(AmbiguousKey("<unspecified>"))
    else
      var ms := Matches(Positions(md), key);
      if ms == [] then Err(UnknownOrBadType(key))
      else if |ms| > 1 then Err(AmbiguousKey(key))
      else Ok(ms[0])
  }

  /** A key that starts exactly one option key resolves to that option. */
  lemma FindOldUnique(md: seq<OptionMetadata>, key: string, i: nat)
    requires i < |md| && StartsWith(md[i].key, key)
    requires forall j :: 0 <= j < |md| && j != i ==> !StartsWith(md[j].key, key)
    ensures FindOld(md, key) == Ok(i)
  {
    if key == [] {
      if |md| != 1 {
        var j := if i == 0 then 1 else 0;
        assert StartsWith(md[j].key, key);
      }
    } else {
      MatchesSingleton(Positions(md), key, i);
    }
  }

  /** A non-empty key that starts no option key is unknown. */
  lemma FindOldUnknown(md: seq<OptionMetadata>, key: string)
    requires key != []
    requires forall j :: 0 <= j < |md| ==> !StartsWith(md[j].key, key)
    ensures FindOld(md, key) == Err(UnknownOrBadType(key))
  {
    MatchesFromNone(Positions(md), key, 0);
  }

  /** Two options starting with the key make it ambiguous. */
  lemma FindOldAmbiguous(md: seq<OptionMetadata>, key: string, i: nat, j: nat)
    requires i < j < |md|
    requires StartsWith(md[i].key, key) && StartsWith(md[j].key, key)
    ensures FindOld(md, key) == Err(AmbiguousKey(if key == [] then "<unspecified>" else key))
  {
    if key != [] {
      var ms := Matches(Positions(md), key);
      assert i in ms && j in ms;
    }
  }

  /**
   * On trimmed keys the two lookups agree: a non-empty key gives the same
   * option or the same error in both, and the empty key resolves in one
   * exactly when it resolves in the other; only the error text for an
   * unresolved empty key differs.
   */
  lemma FindOldAgreesWithNew(md: seq<OptionMetadata>, key: string)
    requires Tight(key)
    ensures key != [] ==>
              FindOptionDefinition(Positions(md), key) ==
                match FindOld(md, key)
                case Ok(i) => Ok((md[i], Some(i)))
                case Err(e) => Err(e)
    ensures key == [] ==> (FindOld(md, key).Ok? <==> FindOptionDefinition(Positions(md), key).Ok?)
    ensures key == [] && FindOld(md, key).Ok? ==>
      FindOptionDefinition(Positions(md), key) == Ok((md[0], Some(0)))
  {
    TightTrim(key);
    if key == [] {
      FindOptionDefinitionEmptyKey(Positions(md));
      if |md| == 1 {
        FindOptionDefinitionUnique(Positions(md), key, 0);
      }
    }
  }

  // ---------------------------------------------------------------------
  // set_option / get_option
  // ---------------------------------------------------------------------

  /** The newer layer's view of the older one's slots, used for the write itself. */
  function Writer<S>(c: OldConfigImpl<S>): ConfigImpl<S>
  {
    ConfigImpl(c.options, seq(|c.kinds|, i requires 0 <= i < |c.kinds| => Some(c.kinds[i])),
      c.load, c.store, c.fitsUInt, c.fitsFloat,
      (s, md, v) => NoPre(s, md, v), (s, md) => NoPost(s, md))
  }

  /**
   * The older `set_option`: the key is trimmed and resolved; the pre hook
   * receives the option's position and may replace the value or fail; a
   * value of the slot's kind is narrowed and written; the post hook runs
   * only after a successful write.
   */
  function SetOptionOldOf<S>(c: OldConfigImpl<S>, s: S, key: string, val: OptionValue): Outcome<S>
    requires WellFormed(c)
  {
    var k := Trim(key);
    match FindOld(c.options, k)
    case Err(e) => Outcome(s, Some(Configure(e)))
    case Ok(i) =>
      var hooked := c.pre(s, i, val);
      match hooked.1
      case Err(e) => Outcome(hooked.0, Some(e))
      case Ok(v) =>
        var written := Assign(Writer(c), hooked.0, i, c.kinds[i], k, v);
        if written.err.Some? then written else c.post(written.sampler, i)
  }

  /** The older `get_option`: the key is trimmed (twice) and resolved, and the widened value read. */
  function GetOptionOldOf<S>(c: OldConfigImpl<S>, s: S, key: string): Result<OptionValue, Error>
  {
    var k := Trim(key);
    match FindOld(c.options, Trim(k))
    case Err(e) => Err(Configure(e))
    case Ok(i) => Ok(c.load(s, i))
  }

  /**
   * With the key resolved to option `i` and the pre hook passing the value
   * on: a value of the wrong kind is refused with UnknownOrBadType and the
   * post hook does not run; a value that does not narrow is refused with
   * ConversionFailure; a value that fits is written, then the post hook
   * runs with position `i`.
   */
  lemma SetOptionOldWrite<S>(c: OldConfigImpl<S>, s: S, key: string, val: OptionValue, i: nat)
    requires WellFormed(c)
    requires FindOld(c.options, Trim(key)) == Ok(i)
    requires c.pre(s, i, val).1.Ok?
    ensures var (s1, v) := (c.pre(s, i, val).0, c.pre(s, i, val).1.value);
      var r := SetOptionOldOf(c, s, key, val);
      (c.kinds[i] != TypeOf(v) ==> r == Outcome(s1, Some(Configure(UnknownOrBadType(Trim(key)))))) &&
      (c.kinds[i] == TypeOf(v) && !Fits(Writer(c), v) ==>
        r == Outcome(s1, Some(Configure(ConversionFailure(Trim(key)))))) &&
      (c.kinds[i] == TypeOf(v) && Fits(Writer(c), v) ==> r == c.post(c.store(s1, i, v), i))
  {
  }

  /** Option `i` reads back any value of its kind that narrows. */
  ghost predicate ReadsBackOld<S(!new)>(c: OldConfigImpl<S>, i: nat)
    requires i < |c.kinds|
  {
    forall s: S, v: OptionValue {:trigger c.store(s, i, v)} ::
      c.kinds[i] == TypeOf(v) && Fits(Writer(c), v) ==> c.load(c.store(s, i, v), i) == v
  }

  /** Both hooks leave writes of option `i` alone, and the post hook succeeds. */
  ghost predicate HooksKeepOld<S(!new)>(c: OldConfigImpl<S>, i: nat)
  {
    (forall s: S, v: OptionValue {:trigger c.pre(s, i, v)} :: c.pre(s, i, v) == (s, Ok(v))) &&
    (forall s: S {:trigger c.post(s, i)} ::
      c.post(s, i).err.None? && c.load(c.post(s, i).sampler, i) == c.load(s, i))
  }

  /**
   * Setting an option and reading it back through the older layer gives
   * the value that was set, when the key resolves and the hooks leave the
   * option alone.
   */
  lemma SetGetRoundTripOld<S(!new)>(c: OldConfigImpl<S>, s: S, key: string, v: OptionValue, i: nat)
    requires WellFormed(c) && i < |c.kinds|
    requires FindOld(c.options, Trim(key)) == Ok(i)
    requires c.kinds[i] == TypeOf(v) && Fits(Writer(c), v)
    requires ReadsBackOld(c, i) && HooksKeepOld(c, i)
    ensures SetOptionOldOf(c, s, key, v).err == None
    ensures GetOptionOldOf(c, SetOptionOldOf(c, s, key, v).sampler, key) == Ok(v)
  {
    TrimIdempotent(key);
    assert c.pre(s, i, v) == (s, Ok(v));
    SetOptionOldWrite(c, s, key, v, i);
    var w := c.store(s, i, v);
    assert c.load(w, i) == v;
    assert c.load(c.post(w, i).sampler, i) == c.load(w, i);
  }

  // ---------------------------------------------------------------------
  // configure
  // ---------------------------------------------------------------------

  /**
   * One segment of the older `configure`: the trimmed key is resolved, the
   * value parsed as that option's kind and set under the option's full key.
   */
  function ConfigureSegmentOld<S>(c: OldConfigImpl<S>, decimal: string -> Option<FloatValue>, s: S, seg: string): Outcome<S>
    requires WellFormed(c)
  {
    var kv := SplitKeyValue(seg);
    match FindOld(c.options, Trim(kv.0))
    case Err(e) => Outcome(s, Some(Configure(e)))
    case Ok(i) =>
      match ParseValue(c.options[i].optionType, Trim(kv.1), decimal)
      case Err(e) => Outcome(s, Some(e))
      case Ok(v) => SetOptionOldOf(c, s, c.options[i].key, v)
  }

  /** `ConfigureSegmentOld` as a step over segments. */
  function SegmentStepOld<S>(c: OldConfigImpl<S>, decimal: string -> Option<FloatValue>): (S, string) -> Outcome<S>
    requires WellFormed(c)
  {
    (x, seg) => ConfigureSegmentOld(c, decimal, x, seg)
  }

  /** The older `configure`: every segment of `text`, in order, up to the first failure. */
  function ConfigureOldOf<S>(c: OldConfigImpl<S>, decimal: string -> Option<FloatValue>, s: S, text: string): Outcome<S>
    requires WellFormed(c)
  {
    ApplySegments(SegmentStepOld(c, decimal), s, Segments(text), |Segments(text)|)
  }

  /**
   * A bare value configures the only option of a sampler with exactly one;
   * with any other number of options it fails as ambiguous and nothing
   * changes.
   */
  lemma ConfigureOldBareValue<S>(c: OldConfigImpl<S>, decimal: string -> Option<FloatValue>, s: S, seg: string)
    requires WellFormed(c)
    requires '=' !in seg
    ensures |c.options| == 1 ==>
              ConfigureSegmentOld(c, decimal, s, seg) ==
                match ParseValue(c.options[0].optionType, Trim(seg), decimal)
                case Err(e) => Outcome(s, Some(e))
                case Ok(v) => SetOptionOldOf(c, s, c.options[0].key, v)
    ensures |c.options| != 1 ==>
      ConfigureSegmentOld(c, decimal, s, seg) == Outcome(s, Some(Configure(AmbiguousKey("<unspecified>"))))
  {
    assert Trim("") == "" by { TightTrim(""); }
  }

  /**
   * The first failing segment ends the older `configure` with its error;
   * the segments before it stay applied and none after it is applied.
   */
  lemma ConfigureOldAbortsAtFirstFailure<S>(c: OldConfigImpl<S>, decimal: string -> Option<FloatValue>, s: S, text: string, k: nat)
    requires WellFormed(c)
    requires k < |Segments(text)|
    requires ApplySegments(SegmentStepOld(c, decimal), s, Segments(text), k).err.None?
    requires ConfigureSegmentOld(c, decimal,
      ApplySegments(SegmentStepOld(c, decimal), s, Segments(text), k).sampler,
      Segments(text)[k]).err.Some?
    ensures ConfigureOldOf(c, decimal, s, text) == ConfigureSegmentOld(c, decimal,
      ApplySegments(SegmentStepOld(c, decimal), s, Segments(text), k).sampler,
      Segments(text)[k])
  {
    ApplySegmentsStuck(SegmentStepOld(c, decimal), s, Segments(text), k + 1, |Segments(text)|);
  }

  // ---------------------------------------------------------------------
  // The steps as the source runs them
  // ---------------------------------------------------------------------

  /** The older `set_option`, step by step. */
  method SetOptionOld<S>(c: OldConfigImpl<S>, s: S, key: string, val: OptionValue) returns (r: Outcome<S>)
    requires WellFormed(c)
    ensures r == SetOptionOldOf(c, s, key, val)
  {
    var k := Trim(key);
    var found := FindOld(c.options, k);
    if found.Err? {
      return Outcome(s, Some(Configure(found.error)));
    }
    var i := found.value;
    var (s1, pv) := c.pre(s, i, val);
    if pv.Err? {
      return Outcome(s1, Some(pv.error));
    }
    r := Assign(Writer(c), s1, i, c.kinds[i], k, pv.value);
    if r.err.None? {
      r := c.post(r.sampler, i);
    }
  }

  /** The older `configure`: every segment of `text`, in order, up to the first failure. */
  method ConfigureFromTextOld<S>(c: OldConfigImpl<S>, decimal: string -> Option<FloatValue>, s: S, text: string)
    returns (r: Outcome<S>)
    requires WellFormed(c)
    ensures r == ConfigureOldOf(c, decimal, s, text)
  {
    r := ApplyInOrder(SegmentStepOld(c, decimal), s, Segments(text));
  }
}
