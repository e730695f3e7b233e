/** The two classes of src/main.cpp that synthesise audio: `Oscillator`,
    one sine voice whose fields its methods update in place, and
    `SampleGenerator`, which owns a fixed number of oscillators and mixes
    their output. Each method is proved against the pure definitions in
    OscillatorSpec and MixSpec. */
module Synth {
  import opened Outcomes
  import opened Pcm
  import opened OscillatorSpec
  import opened MixSpec

  class Oscillator {
    var isPlaying: bool
    var frequency: real
    var phase: real
    var amplitude: real

    /** The abstract value of the oscillator. */
    function State(): OscState
      reads this
    {
      OscState(isPlaying, frequency, phase, amplitude)
    }

    /** `Oscillator() = default`: the in-class field initialisers. */
    constructor ()
      ensures State() == Default
    {
      isPlaying := true;
      frequency := 440.0;
      phase := 0.0;
      amplitude := 1.0;
    }

    /** Fills a buffer of numSamples samples. While playing, each sample is
        the waveform at the current phase, after which the phase advances
        by one increment and wraps once at 2pi; while stopped, each sample
        is 0 and the phase stays. */
    method GetSamples(numSamples: nat, wave: Waveform) returns (samples: array<Short>)
      modifies this
      ensures fresh(samples)
      ensures samples[..] == Samples(old(State()), numSamples, wave)
      ensures State() == After(old(State()), numSamples)
    {
      var phaseIncrement := Increment(frequency);
      samples := new Short[numSamples](i => 0);
      for i := 0 to numSamples
        invariant isPlaying == old(isPlaying) && frequency == old(frequency) && amplitude == old(amplitude)
        invariant phase == if isPlaying then Advance(old(phase), phaseIncrement, i) else old(phase)
        invariant forall k :: 0 <= k < i ==> samples[k] == Samples(old(State()), numSamples, wave)[k]
      {
        var sampleValue: Short;
        if isPlaying {
          sampleValue := wave(phase, amplitude);
          phase := phase + phaseIncrement;
          if phase >= TwoPi {
            phase := phase - TwoPi;
          }
        } else {
          sampleValue := 0;
        }
        samples[i] := sampleValue;
      }
    }

    method Stop()
      modifies this
      ensures State() == Stopped(old(State()))
    {
      isPlaying := false;
    }

    method Play()
      modifies this
      ensures State() == Played(old(State()))
    {
      isPlaying := true;
    }

    /** `setFrequency` as written: the guard tests the current field. */
    method SetFrequency(value: real) returns (outcome: Outcome)
      modifies this
      ensures (outcome, State()) == FrequencyUpdate(old(State()), value)
    {
      if frequency < MinFrequency || frequency > MaxFrequency {
        return Fail("Setting osc frequency out of range ");
      }
      frequency := value;
      outcome := Pass;
    }

    /** `setFrequency` with the guard on the candidate value. */
    method SetFrequencyChecked(value: real) returns (outcome: Outcome)
      modifies this
      ensures (outcome, State()) == CheckedFrequencyUpdate(old(State()), value)
    {
      if value < MinFrequency || value > MaxFrequency {
        return Fail("Setting osc frequency out of range ");
      }
      frequency := value;
      outcome := Pass;
    }

    method SetAmplitude(value: real) returns (outcome: Outcome)
      modifies this
      ensures (outcome, State()) == AmplitudeUpdate(old(State()), value)
    {
      if value < 0.0 || value > 1.0 {
        return Fail("Setting osc amplitude out of range ");
      }
      amplitude := value;
      outcome := Pass;
    }
  }

  class SampleGenerator {
    var oscillators: seq<Oscillator>

    /** The generator owns its oscillators exclusively: no two slots of
        the vector share an object. */
    ghost predicate Valid()
      reads this
    {
      forall j, k :: 0 <= j < |oscillators| && 0 <= k < |oscillators| && j != k ==> oscillators[j] != oscillators[k]
    }

    /** The states of the oscillators, in vector order. */
    function States(): seq<OscState>
      reads this, oscillators
    {
      seq(|oscillators|, k requires 0 <= k < |oscillators| reads this, oscillators => oscillators[k].State())
    }

    /** `oscillators.resize(polyphony)`: polyphony new oscillators, each in
        the default state. */
    constructor (polyphony: nat)
      ensures Valid() && |oscillators| == polyphony
      ensures forall k :: 0 <= k < polyphony ==> fresh(oscillators[k])
      ensures States() == seq(polyphony, k => Default)
    {
      var oscs: seq<Oscillator> := [];
      while |oscs| < polyphony
        invariant |oscs| <= polyphony
        invariant forall k :: 0 <= k < |oscs| ==> fresh(oscs[k]) && oscs[k].State() == Default
        invariant forall j, k :: 0 <= j < |oscs| && 0 <= k < |oscs| && j != k ==> oscs[j] != oscs[k]
      {
        var oscillator := new Oscillator();
        oscs := oscs + [oscillator];
      }
      oscillators := oscs;
    }

    /** Asks every oscillator, in vector order, for numSamples samples once,
        and adds each run into a zeroed buffer with a 16-bit narrowing after
        every addition. */
    method GetSamples(numSamples: nat, wave: Waveform) returns (samples: array<Short>)
      requires Valid()
      modifies oscillators
      ensures fresh(samples)
      ensures samples[..] == Mix(old(States()), numSamples, wave)
      ensures States() == AfterAll(old(States()), numSamples)
    {
      ghost var start := States();
      samples := new Short[numSamples](i => 0);
      for j := 0 to |oscillators|
        invariant samples[..] == Mix(start[..j], numSamples, wave)
        invariant forall k :: 0 <= k < |oscillators| ==>
                    oscillators[k].State() == if k < j then After(start[k], numSamples) else start[k]
      {
        assert forall k :: 0 <= k < |oscillators| && k != j ==> oscillators[k] != oscillators[j];
        AddVoice(oscillators[j], samples, numSamples, wave);
        MixAppend(start, j, numSamples, wave);
      }
      assert start[..|oscillators|] == start;
      assert forall k :: 0 <= k < |oscillators| ==> States()[k] == AfterAll(start, numSamples)[k];
    }

    /** One iteration of the outer loop: one oscillator's run, added in. */
    static method AddVoice(oscillator: Oscillator, samples: array<Short>, numSamples: nat, wave: Waveform)
      requires samples.Length == numSamples
      modifies oscillator, samples
      ensures oscillator.State() == After(old(oscillator.State()), numSamples)
      ensures samples[..] == AddWrapped(old(samples[..]), Samples(old(oscillator.State()), numSamples, wave))
    {
      var oscSamples := oscillator.GetSamples(numSamples, wave);
      AddInto(samples, oscSamples);
    }

    /** The inner loop of GetSamples: adds one run into the buffer, index by
        index, narrowing each sum to 16 bits. */
    static method AddInto(samples: array<Short>, run: array<Short>)
      requires samples.Length == run.Length && samples != run
      modifies samples
      ensures samples[..] == AddWrapped(old(samples[..]), run[..])
    {
      for i := 0 to run.Length
        invariant forall k :: 0 <= k < i ==> samples[k] == Wrap16(old(samples[k]) as int + run[k] as int)
        invariant forall k :: i <= k < samples.Length ==> samples[k] == old(samples[k])
      {
        samples[i] := Wrap16(samples[i] as int + run[i] as int);
      }
    }
  }
}
