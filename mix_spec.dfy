/** What `SampleGenerator::getSamples` computes, as pure functions: every
    voice's run is added into a zeroed buffer in vector order, with the
    running sum narrowed back to 16 bits after each addition. */
module MixSpec {
  import opened Pcm
  import opened OscillatorSpec

  /** A value-initialised `std::vector<short>` of length n. */
  function Zeros(n: nat): (r: seq<Short>)
    ensures |r| == n && forall i :: 0 <= i < n ==> r[i] == 0
  {
    seq(n, i => 0)
  }

  /** One pass of the inner loop: `samples[i] = static_cast<short>(samples[i] + oscSamples[i])`
      for every i. */
  function AddWrapped(acc: seq<Short>, run: seq<Short>): (r: seq<Short>)
    requires |acc| == |run|
    ensures |r| == |acc|
  {
    seq(|acc|, i requires 0 <= i < |acc| => Wrap16(acc[i] as int + run[i] as int))
  }

  /** The buffer after the voices with the given states have been added in,
      in order. */
  function Mix(states: seq<OscState>, n: nat, wave: Waveform): (r: seq<Short>)
    ensures |r| == n
    decreases |states|
  {
    if states == [] then Zeros(n)
    else AddWrapped(Mix(states[..|states| - 1], n, wave), Samples(states[|states| - 1], n, wave))
  }

  /** Adding voice j into the mix of the voices before it gives the mix of
      the first j + 1 voices. */
  lemma MixAppend(states: seq<OscState>, j: nat, n: nat, wave: Waveform)
    requires j < |states|
    ensures Mix(states[..j + 1], n, wave) == AddWrapped(Mix(states[..j], n, wave), Samples(states[j], n, wave))
  {
    assert states[..j + 1][..j] == states[..j];
  }

  /** The exact, unnarrowed sum of the i-th samples of all the voices. */
  function ColumnSum(states: seq<OscState>, n: nat, wave: Waveform, i: nat): int
    requires i < n
    decreases |states|
  {
    if states == [] then 0
    else ColumnSum(states[..|states| - 1], n, wave, i) + Samples(states[|states| - 1], n, wave)[i]
  }

  /** The states of the voices after each has produced n samples. */
  function AfterAll(states: seq<OscState>, n: nat): (r: seq<OscState>)
    ensures |r| == |states|
  {
    seq(|states|, k requires 0 <= k < |states| => After(states[k], n))
  }

  /** Each mixed sample is the 16-bit two's-complement wrap of the exact sum
      of the voices' samples at that index: narrowing after every addition
      loses nothing beyond one final narrowing. */
  lemma {:induction false} MixIsWrappedSum(states: seq<OscState>, n: nat, wave: Waveform, i: nat)
    requires i < n
    ensures Mix(states, n, wave)[i] == Wrap16(ColumnSum(states, n, wave, i))
    decreases |states|
  {
    if states != [] {
      var front := states[..|states| - 1];
      MixIsWrappedSum(front, n, wave, i);
      WrapAbsorbs(ColumnSum(front, n, wave, i), Samples(states[|states| - 1], n, wave)[i]);
    }
  }

  /** When every voice is stopped the mix is silence. */
  lemma {:induction false} MixOfStoppedIsSilent(states: seq<OscState>, n: nat, wave: Waveform)
    requires forall k :: 0 <= k < |states| ==> !states[k].playing
    ensures Mix(states, n, wave) == Zeros(n)
    decreases |states|
  {
    if states != [] {
      MixOfStoppedIsSilent(states[..|states| - 1], n, wave);
    }
  }

  /** A single voice passes through the mixer unchanged. */
  lemma MixOfOne(s: OscState, n: nat, wave: Waveform)
    ensures Mix([s], n, wave) == Samples(s, n, wave)
  {
    assert [s][..0] == [];
  }

  /** Mixing m + n samples in one call gives the mix of m samples followed
      by the mix of n samples from the states the first call leaves: the
      mixed stream is continuous across chunk boundaries. */
  lemma {:induction false} MixSplitRun(states: seq<OscState>, m: nat, n: nat, wave: Waveform)
    ensures Mix(states, m + n, wave) == Mix(states, m, wave) + Mix(AfterAll(states, m), n, wave)
    decreases |states|
  {
    if states == [] {
      assert Zeros(m + n) == Zeros(m) + Zeros(n);
    } else {
      var front, last := states[..|states| - 1], states[|states| - 1];
      MixSplitRun(front, m, n, wave);
      assert AfterAll(states, m)[..|states| - 1] == AfterAll(front, m);
      SplitRun(last, m, n, wave);
      AddWrappedConcat(Mix(front, m, wave), Mix(AfterAll(front, m), n, wave),
                       Samples(last, m, wave), Samples(After(last, m), n, wave));
    }
  }

  lemma AddWrappedConcat(a1: seq<Short>, a2: seq<Short>, b1: seq<Short>, b2: seq<Short>)
    requires |a1| == |b1| && |a2| == |b2|
    ensures AddWrapped(a1 + a2, b1 + b2) == AddWrapped(a1, b1) + AddWrapped(a2, b2)
  {
    var left, right := AddWrapped(a1 + a2, b1 + b2), AddWrapped(a1, b1) + AddWrapped(a2, b2);
    forall i | 0 <= i < |left|
      ensures left[i] == right[i]
    {
      if i >= |a1| {
        assert (a1 + a2)[i] == a2[i - |a1|] && (b1 + b2)[i] == b2[i - |a1|];
      }
    }
  }
}
