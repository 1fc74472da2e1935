/**
 * The default implementation shared by every configurable sampler: setting
 * and getting an option by (abbreviated) key through the sampler's option
 * accessors, with a hook before and after each write, and configuring a
 * sampler from `key=value:key=value` text.
 */
module Configurable {
  import opened Types
  import opened Values
  import opened Metadata

  /**
   * The sampler after an operation, and the error it ended with, if any.
   * A failing operation may still have changed the sampler (a hook may have
   * run, earlier segments of a configure string stay applied).
   */
  datatype Outcome<S> = Outcome(sampler: S, err: Option<Error>)

  /**
   * What a configurable sampler of type `S` supplies. `options` is its
   * metadata; `accessors[i]` says whether option `i` hands out an accessor
   * and of which kind; `load` reads option `i` (already widened to 64 bits),
   * `store` writes it through the accessor. `fitsUInt` and `fitsFloat` say
   * when narrowing a 64-bit value to the sampler's own numeric types
   * succeeds. `pre` and `post` are the hooks run around a write.
   */
  datatype ConfigImpl<!S> = ConfigImpl(
    options: seq<OptionMetadata>,
    accessors: seq<Option<OptionType>>,
    load: (S, nat) -> OptionValue,
    store: (S, nat, OptionValue) -> S,
    fitsUInt: nat -> bool,
    fitsFloat: FloatValue -> bool,
    pre: (S, OptionMetadata, OptionValue) -> (S, Result<OptionValue, Error>),
    post: (S, OptionMetadata) -> Outcome<S>)

  /** The option list: each definition paired with its accessor. */
  function Options<S>(c: ConfigImpl<S>): seq<(OptionMetadata, Option<OptionType>)>
  {
    BuildOptions(c.options, c.accessors)
  }

  /** The hooks of the default implementation: both do nothing. */
  function NoPre<S>(s: S, md: OptionMetadata, v: OptionValue): (S, Result<OptionValue, Error>)
  {
    (s, Ok(v))
  }

  function NoPost<S>(s: S, md: OptionMetadata): Outcome<S>
  {
    Outcome(s, None)
  }

  // ---------------------------------------------------------------------
  // set_option / get_option
  // ---------------------------------------------------------------------

  /** The narrowing of a numeric value to the sampler's own type succeeds. */
  predicate Fits<S>(c: ConfigImpl<S>, v: OptionValue)
  {
    match v
    case UInt(n) => c.fitsUInt(n)
    case Float(f) => c.fitsFloat(f)
    case _ => true
  }

  /**
   * The write through an accessor of kind `kind`: a value of that kind is
   * narrowed and stored; a value of another kind is refused and nothing is
   * written.
   */
  function Assign<S>(c: ConfigImpl<S>, s: S, i: nat, kind: OptionType, k: string, v: OptionValue): (r: Outcome<S>)
    ensures kind != TypeOf(v) ==> r == Outcome(s, Some(Configure(UnknownOrBadType(k))))
    ensures kind == TypeOf(v) && !Fits(c, v) ==> r == Outcome(s, Some(Configure(ConversionFailure(k))))
    ensures kind == TypeOf(v) && Fits(c, v) ==> r == Outcome(c.store(s, i, v), None)
  {
    match (kind, v)
    case (FloatType, Float(f)) =>
      if c.fitsFloat(f) then Outcome(c.store(s, i, v), None) else Outcome(s, Some(Configure(ConversionFailure(k))))
    case (UIntType, UInt(n)) =>
      if c.fitsUInt(n) then Outcome(c.store(s, i, v), None) else Outcome(s, Some(Configure(ConversionFailure(k))))
    case (BoolType, Bool(_)) => Outcome(c.store(s, i, v), None)
    case (StringType, Str(_)) => Outcome(c.store(s, i, v), None)
    case _ => Outcome(s, Some(Configure(UnknownOrBadType(k))))
  }

  /**
   * `set_option`: the key is trimmed and resolved; an option without an
   * accessor cannot be written; the pre hook may replace the value or fail;
   * the value is written when its kind matches the accessor's; the post
   * hook runs only after a successful write.
   */
  function SetOptionOf<S>(c: ConfigImpl<S>, s: S, key: string, val: OptionValue): Outcome<S>
  {
    var k := Trim(key);
    var opts := Options(c);
    match FindOptionDefinition(opts, k)
    case Err(e) => Outcome(s, Some(Configure(e)))
    case Ok((omd, idx)) =>
      if idx.None? then Outcome(s, Some(Configure(CannotAccessOptionValue(k))))
      else
        var hooked := c.pre(s, omd, val);
        match hooked.1
        case Err(e) => Outcome(hooked.0, Some(e))
        case Ok(v) =>
          var written := Assign(c, hooked.0, idx.value, opts[idx.value].1.value, k, v);
          if written.err.Some? then written else c.post(written.sampler, omd)
  }

  /** `get_option`: the current value of the option the trimmed key resolves to. */
  function GetOptionOf<S>(c: ConfigImpl<S>, s: S, key: string): Result<OptionValue, Error>
  {
    var k := Trim(key);
    match FindOptionDefinition(Options(c), k)
    case Err(e) => Err(Configure(e))
    case Ok((_, idx)) =>
      if idx.None? then Err(Configure(CannotAccessOptionValue(k))) else Ok(c.load(s, idx.value))
  }

  /** A key that resolves to no single option changes nothing. */
  lemma SetOptionUnresolved<S>(c: ConfigImpl<S>, s: S, key: string, val: OptionValue)
    requires FindOptionDefinition(Options(c), Trim(key)).Err?
    ensures SetOptionOf(c, s, key, val)
      == Outcome(s, Some(Configure(FindOptionDefinition(Options(c), Trim(key)).error)))
    ensures GetOptionOf(c, s, key) == Err(Configure(FindOptionDefinition(Options(c), Trim(key)).error))
  {
  }

  /**
   * With the key resolved to option `i`: a value of the wrong kind (after
   * the pre hook) is refused with UnknownOrBadType, the option is not
   * written and the post hook does not run; a value of the right kind that
   * narrows is written and then the post hook runs.
   */
  lemma SetOptionWrite<S>(c: ConfigImpl<S>, s: S, key: string, val: OptionValue, i: nat)
    requires UniqueMatch(Options(c), Trim(Trim(key)), i)
    requires c.accessors[i].Some?
    requires c.pre(s, c.options[i], val).1.Ok?
    ensures var (s1, v) := (c.pre(s, c.options[i], val).0, c.pre(s, c.options[i], val).1.value);
      var r := SetOptionOf(c, s, key, val);
      (c.accessors[i].value != TypeOf(v) ==> r == Outcome(s1, Some(Configure(UnknownOrBadType(Trim(key)))))) &&
      (c.accessors[i].value == TypeOf(v) && !Fits(c, v) ==>
        r == Outcome(s1, Some(Configure(ConversionFailure(Trim(key)))))) &&
      (c.accessors[i].value == TypeOf(v) && Fits(c, v) ==> r == c.post(c.store(s1, i, v), c.options[i]))
  {
    FindOptionDefinitionUnique(Options(c), Trim(key), i);
  }

  /**
   * Option `i` reads back any value of its kind that narrows, once written
   * through its accessor.
   */
  ghost predicate ReadsBack<S(!new)>(c: ConfigImpl<S>, i: nat)
    requires i < |c.accessors|
  {
    forall s: S, v: OptionValue {:trigger c.store(s, i, v)} ::
      c.accessors[i] == Some(TypeOf(v)) && Fits(c, v) ==> c.load(c.store(s, i, v), i) == v
  }

  /** The pre hook leaves option `i`'s writes alone. */
  ghost predicate PreKeeps<S(!new)>(c: ConfigImpl<S>, i: nat)
    requires i < |c.options|
  {
    forall s: S, v: OptionValue {:trigger c.pre(s, c.options[i], v)} :: c.pre(s, c.options[i], v) == (s, Ok(v))
  }

  /** The post hook after a write of option `i` succeeds and does not touch option `i`. */
  ghost predicate PostKeeps<S(!new)>(c: ConfigImpl<S>, i: nat)
    requires i < |c.options|
  {
    forall s: S {:trigger c.post(s, c.options[i])} ::
      c.post(s, c.options[i]).err.None? && c.load(c.post(s, c.options[i]).sampler, i) == c.load(s, i)
  }

  /**
   * Setting an option and reading it back gives the value that was set,
   * when the key resolves to it, the value has its kind and narrows, and
   * the hooks leave it alone.
   */
  lemma SetGetRoundTrip<S(!new)>(c: ConfigImpl<S>, s: S, key: string, v: OptionValue, i: nat)
    requires i < |c.options| == |c.accessors|
    requires UniqueMatch(Options(c), Trim(key), i)
    requires c.accessors[i] == Some(TypeOf(v)) && Fits(c, v)
    requires ReadsBack(c, i) && PreKeeps(c, i) && PostKeeps(c, i)
    ensures SetOptionOf(c, s, key, v).err == None
    ensures GetOptionOf(c, SetOptionOf(c, s, key, v).sampler, key) == Ok(v)
  {
    TrimIdempotent(key);
    SetOptionWrite(c, s, key, v, i);
    FindOptionDefinitionUnique(Options(c), Trim(key), i);
    var w := c.store(s, i, v);
    assert c.load(w, i) == v;
    assert c.load(c.post(w, c.options[i]).sampler, i) == c.load(w, i);
  }

  // ---------------------------------------------------------------------
  // Splitting configure text
  // ---------------------------------------------------------------------

  /** Position of the first `c` in `s`. */
  function IndexOf(s: string, c: char): (i: nat)
    requires c in s
    ensures i < |s| && s[i] == c && c !in s[..i]
  {
    if s[0] == c then 0
    else
      assert c in s[1..] by {
        var j :| 0 <= j < |s| && s[j] == c;
        assert s[1..][j - 1] == c;
      }
      var j := IndexOf(s[1..], c);
      assert s[..j + 1] == [s[0]] + s[1..][..j];
      j + 1
  }

  /** `str::split`: the pieces of `s` between occurrences of `sep`. */
  function Split(s: string, sep: char): (r: seq<string>)
    ensures r != []
    ensures forall i :: 0 <= i < |r| ==> sep !in r[i]
    decreases |s|
  {
    if sep !in s then [s]
    else
      var i := IndexOf(s, sep);
      [s[..i]] + Split(s[i + 1..], sep)
  }

  /** The pieces put back together with `sep` between them. */
  function Join(parts: seq<string>, sep: char): string
    requires parts != []
  {
    if |parts| == 1 then parts[0] else parts[0] + [sep] + Join(parts[1..], sep)
  }

  /** Splitting loses nothing: joining the pieces gives the text back. */
  lemma {:induction false} SplitJoin(s: string, sep: char)
    ensures Join(Split(s, sep), sep) == s
    decreases |s|
  {
    if sep in s {
      var i := IndexOf(s, sep);
      SplitJoin(s[i + 1..], sep);
      assert s == s[..i] + [sep] + s[i + 1..];
    }
  }

  /** Trims every piece and drops the empty ones. */
  function Cleaned(parts: seq<string>): (r: seq<string>)
    ensures forall i :: 0 <= i < |r| ==> r[i] != [] && Tight(r[i])
  {
    if parts == [] then []
    else (if Trim(parts[0]) == [] then [] else [Trim(parts[0])]) + Cleaned(parts[1..])
  }

  /** The `key=value` segments of configure text, trimmed, empty ones dropped. */
  function Segments(text: string): seq<string>
  {
    Cleaned(Split(Trim(text), ':'))
  }

  /**
   * `split_once('=')`, defaulting to an empty key: the key is what precedes
   * the first `=`, the value what follows it.
   */
  function SplitKeyValue(seg: string): (r: (string, string))
    ensures '=' !in r.0
    ensures '=' in seg ==> r.0 + "=" + r.1 == seg
    ensures '=' !in seg ==> r == ("", seg)
  {
    if '=' in seg then
      var i := IndexOf(seg, '=');
      assert seg == seg[..i] + "=" + seg[i + 1..];
      (seg[..i], seg[i + 1..])
    else ("", seg)
  }

  // ---------------------------------------------------------------------
  // configure
  // ---------------------------------------------------------------------

  /**
   * One segment: its key must resolve to an option with an accessor, its
   * value is parsed as that option's kind from the trimmed text, and the
   * option is then set under its full key.
   */
  function ConfigureSegment<S>(c: ConfigImpl<S>, decimal: string -> Option<FloatValue>, s: S, seg: string): Outcome<S>
  {
    var kv := SplitKeyValue(seg);
    match FindOptionDefinition(Options(c), kv.0)
    case Err(e) => Outcome(s, Some(Configure(e)))
    case Ok((omd, idx)) =>
      if idx.None? then Outcome(s, Some(Configure(UnknownOrBadType(kv.0))))
      else
        match ParseValue(omd.optionType, Trim(kv.1), decimal)
        case Err(e) => Outcome(s, Some(e))
        case Ok(v) => SetOptionOf(c, s, omd.key, v)
  }

  /**
   * The first `n` segments applied in order by `step`, stopping at the
   * first failure.
   */
  function ApplySegments<S>(step: (S, string) -> Outcome<S>, s: S, segs: seq<string>, n: nat): Outcome<S>
    requires n <= |segs|
  {
    if n == 0 then Outcome(s, None)
    else
      var p := ApplySegments(step, s, segs, n - 1);
      if p.err.Some? then p else step(p.sampler, segs[n - 1])
  }

  /** `ConfigureSegment` as a step over segments. */
  function SegmentStep<S>(c: ConfigImpl<S>, decimal: string -> Option<FloatValue>): (S, string) -> Outcome<S>
  {
    (x, seg) => ConfigureSegment(c, decimal, x, seg)
  }

  /** `configure`: every segment of `text`, in order. */
  function ConfigureOf<S>(c: ConfigImpl<S>, decimal: string -> Option<FloatValue>, s: S, text: string): Outcome<S>
  {
    ApplySegments(SegmentStep(c, decimal), s, Segments(text), |Segments(text)|)
  }

  lemma {:induction false} ApplySegmentsStuck<S>(step: (S, string) -> Outcome<S>, s: S, segs: seq<string>, k: nat, n: nat)
    requires k <= n <= |segs|
    requires ApplySegments(step, s, segs, k).err.Some?
    ensures ApplySegments(step, s, segs, n) == ApplySegments(step, s, segs, k)
    decreases n - k
  {
    if n > k {
      ApplySegmentsStuck(step, s, segs, k, n - 1);
    }
  }

  /** A segment is applied to what the segments before it left, when they succeeded. */
  lemma ApplySegmentsNext<S>(step: (S, string) -> Outcome<S>, s: S, segs: seq<string>, i: nat)
    requires i < |segs|
    requires ApplySegments(step, s, segs, i).err.None?
    ensures ApplySegments(step, s, segs, i + 1) == step(ApplySegments(step, s, segs, i).sampler, segs[i])
  {
  }

  /**
   * The first failing segment ends `configure` with its error; the
   * segments before it stay applied and none after it is applied.
   */
  lemma ConfigureAbortsAtFirstFailure<S>(c: ConfigImpl<S>, decimal: string -> Option<FloatValue>, s: S, text: string, k: nat)
    requires k < |Segments(text)|
    requires ApplySegments(SegmentStep(c, decimal), s, Segments(text), k).err.None?
    requires ConfigureSegment(c, decimal,
      ApplySegments(SegmentStep(c, decimal), s, Segments(text), k).sampler,
      Segments(text)[k]).err.Some?
    ensures ConfigureOf(c, decimal, s, text) == ConfigureSegment(c, decimal,
      ApplySegments(SegmentStep(c, decimal), s, Segments(text), k).sampler,
      Segments(text)[k])
  {
    var step := SegmentStep(c, decimal);
    ApplySegmentsStuck(step, s, Segments(text), k + 1, |Segments(text)|);
  }

  /**
   * A bare value (a segment without `=`) configures the only option of a
   * sampler that has exactly one, with an accessor.
   */
  lemma ConfigureBareValue<S>(c: ConfigImpl<S>, decimal: string -> Option<FloatValue>, s: S, seg: string)
    requires |c.options| == 1 && |c.accessors| == 1 && c.accessors[0].Some?
    requires '=' !in seg
    ensures ConfigureSegment(c, decimal, s, seg) ==
      match ParseValue(c.options[0].optionType, Trim(seg), decimal)
      case Err(e) => Outcome(s, Some(e))
      case Ok(v) => SetOptionOf(c, s, c.options[0].key, v)
  {
    assert Trim("") == "" by { TightTrim(""); }
    FindOptionDefinitionUnique(Options(c), "", 0);
  }

  // ---------------------------------------------------------------------
  // The loops
  // ---------------------------------------------------------------------

  /** `set_option` as the source runs it, step by step. */
  method SetOption<S>(c: ConfigImpl<S>, s: S, key: string, val: OptionValue) returns (r: Outcome<S>)
    ensures r == SetOptionOf(c, s, key, val)
  {
    var k := Trim(key);
    var opts := Options(c);
    var found := FindOptionDefinition(opts, k);
    if found.Err? {
      return Outcome(s, Some(Configure(found.error)));
    }
    var (omd, idx) := found.value;
    if idx.None? {
      return Outcome(s, Some(Configure(CannotAccessOptionValue(k))));
    }
    var (s1, pv) := c.pre(s, omd, val);
    if pv.Err? {
      return Outcome(s1, Some(pv.error));
    }
    r := Assign(c, s1, idx.value, opts[idx.value].1.value, k, pv.value);
    if r.err.None? {
      r := c.post(r.sampler, omd);
    }
  }

  /**
   * The `try_for_each` loop of `configure`: applies `step` to the segments
   * one by one and stops at the first failure.
   */
  method ApplyInOrder<S>(step: (S, string) -> Outcome<S>, s: S, segs: seq<string>) returns (r: Outcome<S>)
    ensures r == ApplySegments(step, s, segs, |segs|)
  {
    r := Outcome(s, None);
    var i := 0;
    while i < |segs| && r.err.None?
      invariant 0 <= i <= |segs|
      invariant r == ApplySegments(step, s, segs, i)
    {
      ApplySegmentsNext(step, s, segs, i);
      r := step(r.sampler, segs[i]);
      i := i + 1;
    }
    if i < |segs| {
      ApplySegmentsStuck(step, s, segs, i, |segs|);
    }
  }

  /** `configure`: every segment of `text`, in order, up to the first failure. */
  method ConfigureFromText<S>(c: ConfigImpl<S>, decimal: string -> Option<FloatValue>, s: S, text: string) returns (r: Outcome<S>)
    ensures r == ConfigureOf(c, decimal, s, text)
  {
    r := ApplyInOrder(SegmentStep(c, decimal), s, Segments(text));
  }
}
