/**
 * The sampler chain: an ordered list of samplers run one after another over
 * the same buffer. The chain stops at the first failing stage and caches the
 * token reported by the most recent successful stage.
 */
module Chain {
  import opened Types

  /**
   * How a sampler of type `S` behaves. `run` gives the sampler's new state
   * and what its `sample` leaves behind (the buffer, and the error if it
   * failed); `tokenOf` is its `sampled_token_id`. The source's dynamic
   * dispatch over boxed samplers becomes these two functions; the resources
   * a call is given are captured in `run`.
   */
  datatype Dispatch<!S> = Dispatch(run: (S, Buf) -> (S, Step), tokenOf: S -> Option<nat>)

  /** The chain's samplers, the buffer, the cached token and the error so far. */
  datatype Progress<S> = Progress(samplers: seq<S>, buf: Buf, token: Option<nat>, err: Option<SamplerError>)

  /**
   * The state after the first `n` stages have been offered the buffer: a
   * stage runs only while no earlier stage failed, and a successful stage
   * overwrites the cached token with its own report.
   */
  function RunUpTo<S>(d: Dispatch<S>, ss: seq<S>, b: Buf, n: nat): (r: Progress<S>)
    requires n <= |ss|
    ensures |r.samplers| == |ss|
  {
    if n == 0 then Progress(ss, b, None, None)
    else
      var p := RunUpTo(d, ss, b, n - 1);
      if p.err.Some? then p
      else
        var out := d.run(p.samplers[n - 1], p.buf);
        Progress(p.samplers[n - 1 := out.0], out.1.buf,
          if out.1.err.None? then d.tokenOf(out.0) else p.token, out.1.err)
  }

  /** What `sample` on the whole chain does. */
  function RunChain<S>(d: Dispatch<S>, ss: seq<S>, b: Buf): Progress<S>
  {
    RunUpTo(d, ss, b, |ss|)
  }

  /** Stages beyond `n` have not run yet. */
  lemma {:induction false} RunUpToUntouched<S>(d: Dispatch<S>, ss: seq<S>, b: Buf, n: nat)
    requires n <= |ss|
    ensures forall j :: n <= j < |ss| ==> RunUpTo(d, ss, b, n).samplers[j] == ss[j]
  {
    if n > 0 {
      RunUpToUntouched(d, ss, b, n - 1);
    }
  }

  /** Once a stage has failed, no later stage changes anything. */
  lemma {:induction false} RunUpToStuck<S>(d: Dispatch<S>, ss: seq<S>, b: Buf, k: nat, n: nat)
    requires k <= n <= |ss|
    requires RunUpTo(d, ss, b, k).err.Some?
    ensures RunUpTo(d, ss, b, n) == RunUpTo(d, ss, b, k)
    decreases n - k
  {
    if n > k {
      RunUpToStuck(d, ss, b, k, n - 1);
    }
  }

  /** An empty chain leaves the buffer alone and reports no token. */
  lemma ChainEmpty<S>(d: Dispatch<S>, b: Buf)
    ensures RunChain(d, [], b) == Progress([], b, None, None)
  {
  }

  /**
   * The first failing stage ends the call: its error is returned, its
   * buffer is what the caller sees, the token is the one cached before it
   * (None if it was the first stage), and no later stage runs.
   */
  lemma ChainAborts<S>(d: Dispatch<S>, ss: seq<S>, b: Buf, k: nat)
    requires k < |ss|
    requires RunUpTo(d, ss, b, k).err.None?
    requires d.run(RunUpTo(d, ss, b, k).samplers[k], RunUpTo(d, ss, b, k).buf).1.err.Some?
    ensures var p := RunUpTo(d, ss, b, k);
      var out := d.run(p.samplers[k], p.buf);
      var r := RunChain(d, ss, b);
      r.err == out.1.err && r.buf == out.1.buf && r.token == p.token &&
      (k == 0 ==> r.token == None) &&
      (forall j :: k < j < |ss| ==> r.samplers[j] == ss[j])
  {
    RunUpToUntouched(d, ss, b, k);
    RunUpToStuck(d, ss, b, k + 1, |ss|);
  }

  /**
   * After a successful run of a non-empty chain the cached token is the
   * last stage's report, even when that report is None.
   */
  lemma ChainTokenIsLast<S>(d: Dispatch<S>, ss: seq<S>, b: Buf)
    requires ss != []
    requires RunChain(d, ss, b).err.None?
    ensures RunChain(d, ss, b).token == d.tokenOf(RunChain(d, ss, b).samplers[|ss| - 1])
  {
    var n := |ss|;
    var p := RunUpTo(d, ss, b, n - 1);
    if p.err.Some? {
      RunUpToStuck(d, ss, b, n - 1, n);
    }
  }

  /** After a successful run, the last stage holds the state its own run gave it. */
  lemma ChainLastStage<S>(d: Dispatch<S>, ss: seq<S>, b: Buf)
    requires ss != []
    requires RunChain(d, ss, b).err.None?
    ensures var p := RunUpTo(d, ss, b, |ss| - 1);
      p.err.None? && RunChain(d, ss, b).samplers[|ss| - 1] == d.run(ss[|ss| - 1], p.buf).0
  {
    RunUpToUntouched(d, ss, b, |ss| - 1);
  }

  /** The first `n` stages of `ss1 + ss2` behave as `ss1` alone does. */
  lemma {:induction false} RunUpToPrefix<S>(d: Dispatch<S>, ss1: seq<S>, ss2: seq<S>, b: Buf, n: nat)
    requires n <= |ss1|
    ensures var p := RunUpTo(d, ss1 + ss2, b, n);
      var q := RunUpTo(d, ss1, b, n);
      p.samplers == q.samplers + ss2 && p.buf == q.buf && p.token == q.token && p.err == q.err
  {
    if n > 0 {
      RunUpToPrefix(d, ss1, ss2, b, n - 1);
    }
  }

  /**
   * Once `ss1` has run without error, the stages of `ss2` see the buffer
   * `ss1` left behind; after a success the token of `ss1` survives only
   * when no stage of `ss2` has run.
   */
  lemma {:induction false} RunUpToSuffix<S>(d: Dispatch<S>, ss1: seq<S>, ss2: seq<S>, b: Buf, n: nat)
    requires n <= |ss2|
    requires RunChain(d, ss1, b).err.None?
    ensures var first := RunChain(d, ss1, b);
      var p := RunUpTo(d, ss1 + ss2, b, |ss1| + n);
      var q := RunUpTo(d, ss2, first.buf, n);
      p.samplers == first.samplers + q.samplers && p.buf == q.buf && p.err == q.err &&
      (q.err.None? ==> p.token == (if n == 0 then first.token else q.token))
  {
    if n == 0 {
      RunUpToPrefix(d, ss1, ss2, b, |ss1|);
    } else {
      RunUpToSuffix(d, ss1, ss2, b, n - 1);
      var first := RunChain(d, ss1, b);
      var q := RunUpTo(d, ss2, first.buf, n - 1);
      if q.err.None? {
        assert (ss1 + ss2)[|ss1| + n - 1] == ss2[n - 1];
        assert (first.samplers + q.samplers)[|ss1| + n - 1] == q.samplers[n - 1];
        assert (first.samplers + q.samplers)[|ss1| + n - 1 := d.run(q.samplers[n - 1], q.buf).0]
          == first.samplers + q.samplers[n - 1 := d.run(q.samplers[n - 1], q.buf).0];
      }
    }
  }

  /**
   * Stages run in list order, each on the previous stage's buffer: running
   * `ss1 + ss2` is running `ss1` and then `ss2` on what `ss1` produced.
   * The token after a successful run is the one `ss2` reports, or the one
   * of `ss1` when `ss2` is empty.
   */
  lemma ChainAppend<S>(d: Dispatch<S>, ss1: seq<S>, ss2: seq<S>, b: Buf)
    requires RunChain(d, ss1, b).err.None?
    ensures var first := RunChain(d, ss1, b);
      var second := RunChain(d, ss2, first.buf);
      var both := RunChain(d, ss1 + ss2, b);
      both.samplers == first.samplers + second.samplers && both.buf == second.buf &&
      both.err == second.err &&
      (both.err.None? ==> both.token == (if ss2 == [] then first.token else second.token))
  {
    RunUpToSuffix(d, ss1, ss2, b, |ss2|);
  }

  /** A chain of boxed samplers and the token the last stage reported. */
  class SamplerChain<S> {
    var samplers: seq<S>
    var token: Option<nat>

    constructor ()
      ensures samplers == [] && token == None
    {
      samplers := [];
      token := None;
    }

    /** Appends a sampler and forgets the cached token (also `+` and `+=`). */
    method PushSampler(s: S)
      modifies this
      ensures samplers == old(samplers) + [s] && token == None
    {
      token := None;
      samplers := samplers + [s];
    }

    function SampledTokenId(): Option<nat>
      reads this
    {
      token
    }

    /** Runs every stage in order until one fails. */
    method Sample(d: Dispatch<S>, logits: Logits) returns (err: Option<SamplerError>)
      modifies this, logits
      ensures var r := RunChain(d, old(samplers), old(logits.State()));
        samplers == r.samplers && logits.State() == r.buf && token == r.token && err == r.err
    {
      ghost var ss := samplers;
      ghost var b := logits.State();
      token := None;
      err := None;
      var i := 0;
      while i < |samplers| && err.None?
        invariant 0 <= i <= |ss| == |samplers|
        invariant Progress(samplers, logits.State(), token, err) == RunUpTo(d, ss, b, i)
      {
        var out := d.run(samplers[i], logits.State());
        samplers := samplers[i := out.0];
        logits.entries, logits.sorted, logits.softmax := out.1.buf.entries, out.1.buf.sorted, out.1.buf.softmax;
        err := out.1.err;
        if err.None? {
          token := d.tokenOf(out.0);
        }
        i := i + 1;
      }
      if i < |ss| {
        RunUpToStuck(d, ss, b, i, |ss|);
      }
    }
  }
}
