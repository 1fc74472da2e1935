/**
 * Sampler metadata and option lookup: the option definitions a sampler
 * declares, the list pairing each definition with an optional accessor,
 * and resolution of a (possibly abbreviated) option key.
 */
module Metadata {
  import opened Types
  import opened Values

  datatype OptionMetadata = OptionMetadata(key: string, optionType: OptionType)

  datatype SamplerMetadata = SamplerMetadata(name: string, options: seq<OptionMetadata>)

  /** `key` starts with `prefix`; the empty prefix starts every key. */
  predicate StartsWith(key: string, prefix: string)
  {
    |prefix| <= |key| && key[..|prefix|] == prefix
  }

  /** The keys of a metadata list, in order. */
  function Keys(md: seq<OptionMetadata>): (r: seq<string>)
    ensures |r| == |md|
    ensures forall i :: 0 <= i < |md| ==> r[i] == md[i].key
  {
    if md == [] then [] else [md[0].key] + Keys(md[1..])
  }

  /**
   * Pairs the i-th definition with the i-th accessor; the list is as long
   * as the shorter of the two.
   */
  function BuildOptions<T>(md: seq<OptionMetadata>, acc: seq<Option<T>>): (r: seq<(OptionMetadata, Option<T>)>)
    ensures |r| == if |md| < |acc| then |md| else |acc|
    ensures forall i :: 0 <= i < |r| ==> r[i] == (md[i], acc[i])
  {
    if md == [] || acc == [] then [] else [(md[0], acc[0])] + BuildOptions(md[1..], acc[1..])
  }

  /** The positions, in increasing order, of the options whose key starts with `key`. */
  function MatchesFrom<T>(opts: seq<(OptionMetadata, Option<T>)>, key: string, from: nat): (r: seq<nat>)
    requires from <= |opts|
    ensures forall j :: 0 <= j < |r| ==> from <= r[j] < |opts| && StartsWith(opts[r[j]].0.key, key)
    ensures forall j, k :: 0 <= j < k < |r| ==> r[j] < r[k]
    ensures forall i :: from <= i < |opts| ==> (StartsWith(opts[i].0.key, key) <==> i in r)
    decreases |opts| - from
  {
    if from == |opts| then []
    else if StartsWith(opts[from].0.key, key) then [from] + MatchesFrom(opts, key, from + 1)
    else MatchesFrom(opts, key, from + 1)
  }

  function Matches<T>(opts: seq<(OptionMetadata, Option<T>)>, key: string): seq<nat>
  {
    MatchesFrom(opts, key, 0)
  }

  /**
   * Resolves a key against the options: the key is trimmed, and it must be
   * a prefix of exactly one option key. The index part is the option's
   * position when it has an accessor.
   */
  function FindOptionDefinition<T>(opts: seq<(OptionMetadata, Option<T>)>, key: string)
    : (r: Result<(OptionMetadata, Option<nat>), ConfigureError>)
    ensures r.Ok? && r.value.1.Some? ==>
      r.value.1.value < |opts| && opts[r.value.1.value].0 == r.value.0 && opts[r.value.1.value].1.Some?
    ensures r.Ok? ==> exists i :: 0 <= i < |opts| && opts[i].0 == r.value.0 && StartsWith(r.value.0.key, Trim(key))
  {
    var k := Trim(key);
    var ms := Matches(opts, k);
    if ms == [] then Err(UnknownOrBadType(if k == [] then "<unspecified>" else k))
    else if |ms| > 1 then Err(AmbiguousKey(k))
    else
      var i := ms[0];
      Ok((opts[i].0, if opts[i].1.Some? then Some(i) else None))
  }

  /** A key shorter than the prefix, or differing in its first letter, does not start with it. */
  lemma NotStartsWith(key: string, prefix: string)
    requires prefix != [] && (key == [] || |key| < |prefix| || key[0] != prefix[0])
    ensures !StartsWith(key, prefix)
  {
  }

  /** `i` is the only position whose key starts with `k`. */
  predicate UniqueMatch<T>(opts: seq<(OptionMetadata, Option<T>)>, k: string, i: nat)
  {
    i < |opts| && StartsWith(opts[i].0.key, k) &&
    forall j :: 0 <= j < |opts| && j != i ==> !StartsWith(opts[j].0.key, k)
  }

  lemma {:induction false} MatchesFromUnique<T>(opts: seq<(OptionMetadata, Option<T>)>, k: string, i: nat, from: nat)
    requires UniqueMatch(opts, k, i) && from <= |opts|
    ensures MatchesFrom(opts, k, from) == if from <= i then [i] else []
    decreases |opts| - from
  {
    if from < |opts| {
      MatchesFromUnique(opts, k, i, from + 1);
    }
  }

  lemma {:induction false} MatchesFromNone<T>(opts: seq<(OptionMetadata, Option<T>)>, k: string, from: nat)
    requires from <= |opts|
    requires forall j :: from <= j < |opts| ==> !StartsWith(opts[j].0.key, k)
    ensures MatchesFrom(opts, k, from) == []
    decreases |opts| - from
  {
    if from < |opts| {
      MatchesFromNone(opts, k, from + 1);
    }
  }

  lemma MatchesSingleton<T>(opts: seq<(OptionMetadata, Option<T>)>, k: string, i: nat)
    requires UniqueMatch(opts, k, i)
    ensures Matches(opts, k) == [i]
  {
    MatchesFromUnique(opts, k, i, 0);
  }

  /**
   * The lookup succeeds exactly when the trimmed key starts exactly one
   * option key, and then it returns that option, with its position iff it
   * has an accessor.
   */
  lemma FindOptionDefinitionUnique<T>(opts: seq<(OptionMetadata, Option<T>)>, key: string, i: nat)
    requires UniqueMatch(opts, Trim(key), i)
    ensures FindOptionDefinition(opts, key)
      == Ok((opts[i].0, if opts[i].1.Some? then Some(i) else None))
  {
    MatchesSingleton(opts, Trim(key), i);
  }

  /** With no matching option the lookup fails with UnknownOrBadType. */
  lemma FindOptionDefinitionUnknown<T>(opts: seq<(OptionMetadata, Option<T>)>, key: string)
    requires forall j :: 0 <= j < |opts| ==> !StartsWith(opts[j].0.key, Trim(key))
    ensures FindOptionDefinition(opts, key)
      == Err(UnknownOrBadType(if Trim(key) == [] then "<unspecified>" else Trim(key)))
  {
  }

  /**
   * With two matching options the lookup fails with AmbiguousKey, even
   * when one of them is spelled exactly like the key.
   */
  lemma FindOptionDefinitionAmbiguous<T>(opts: seq<(OptionMetadata, Option<T>)>, key: string, i: nat, j: nat)
    requires i < j < |opts|
    requires StartsWith(opts[i].0.key, Trim(key)) && StartsWith(opts[j].0.key, Trim(key))
    ensures FindOptionDefinition(opts, key) == Err(AmbiguousKey(Trim(key)))
  {
    var ms := Matches(opts, Trim(key));
    assert i in ms && j in ms;
    assert |ms| > 1;
  }

  /** The empty key resolves iff there is exactly one option. */
  lemma FindOptionDefinitionEmptyKey<T>(opts: seq<(OptionMetadata, Option<T>)>)
    ensures FindOptionDefinition(opts, "").Ok? <==> |opts| == 1
  {
    assert Trim("") == "";
    forall i | 0 <= i < |opts|
      ensures StartsWith(opts[i].0.key, "")
    {
    }
    if |opts| == 1 {
      FindOptionDefinitionUnique(opts, "", 0);
    } else if |opts| == 0 {
      FindOptionDefinitionUnknown(opts, "");
    } else {
      FindOptionDefinitionAmbiguous(opts, "", 0, 1);
    }
  }

  /** Every successful lookup names an option whose key starts with the trimmed key. */
  lemma FindOptionDefinitionSound<T>(opts: seq<(OptionMetadata, Option<T>)>, key: string)
    requires FindOptionDefinition(opts, key).Ok?
    ensures exists i: nat :: (UniqueMatch(opts, Trim(key), i) &&
      FindOptionDefinition(opts, key).value == (opts[i].0, if opts[i].1.Some? then Some(i) else None))
  {
    var k := Trim(key);
    var ms := Matches(opts, k);
    var i := ms[0];
    assert |ms| == 1;
    assert UniqueMatch(opts, k, i);
  }
}
