# A verified model of a small sine-wave synthesiser

The program plays a mix of sine tones. An `Oscillator` is one voice. It
has four fields: a playing flag, a frequency, a phase meant to stay in
[0, 2pi) and an amplitude in [0, 1]. Each call to `getSamples(n)`
returns n 16-bit samples and, while playing, moves the phase on, so
consecutive calls produce a continuous tone. `play` and `stop` switch the voice on and off.
`setFrequency` and `setAmplitude` change a parameter after a range
check, and throw when the check fails.

A `SampleGenerator` owns a fixed number of oscillators. Its
`getSamples(n)` asks each of them, in order, for n samples. It adds the
runs index by index into one buffer and narrows every partial sum back
to 16 bits with wrap-around. The project also models the integer
instance of the 2-D vector template `Vector2<int>`: componentwise
arithmetic, division that truncates toward zero and throws on zero, the
dot product, the squared length, and the compound assignment operators.

Files:

- `outcomes.dfy` (`Outcomes`): `Outcome` (Pass, or Fail with the
  exception's message) and `Result<T>`. A thrown `std::runtime_error`
  becomes a `Fail` or `Failure` value.
- `pcm.dfy` (`Pcm`): the 16-bit sample type `Short` and `Wrap16`, the
  narrowing `static_cast<short>` of an `int`.
- `oscillator_spec.dfy` (`OscillatorSpec`): one voice as pure functions
  over its state. It covers the phase accumulator, the samples of one
  call, and the parameter updates.
- `mix_spec.dfy` (`MixSpec`): the mix of several voices as pure
  functions.
- `synth.dfy` (`Synth`): the classes `Oscillator` and `SampleGenerator`.
  Their fields are updated in place by methods with loops. Each method
  is proved against the functions above.
- `vector.dfy` (`Vectors`): the value type `Vector2i`, its laws, and the
  class `MutableVector2i` for the compound operators.

`std::sin` is not modelled. The sample a playing voice emits is
`wave(phase, amplitude)`, where `wave` is a parameter of type
`Waveform`: any function from a phase and an amplitude into the 16-bit
range. Each call to `getSamples` takes it as an argument. Every
property below therefore holds whatever the waveform is.

Float and double values are modelled as exact reals. `2pi` is the
double constant `M_PI * 2`, to 16 digits: 6.283185307179586.

Points where the code's behaviour may be surprising:

- The mix wraps around on overflow (`static_cast<short>` of the sum). It
  does not clamp.
- A new oscillator is already playing.
- A stopped oscillator emits zeros and keeps its phase.
- `setFrequency` range-checks the current frequency, not the new value
  (see Findings).

## Model

| member | source | states |
|---|---|---|
| Pcm.Wrap16 | src/main.cpp:73 | The narrowed value is a 16-bit value that differs from its argument by a multiple of 2^16. A value already in range is unchanged. |
| Pcm.WrapAbsorbs | src/main.cpp:70-75 | Narrowing a partial sum before adding the next term gives the same result as narrowing once at the end. |
| OscillatorSpec.Increment | src/main.cpp:18 | The per-sample phase increment 2pi*f/sampleRate. For a frequency in [0, sampleRate) it lies in [0, 2pi). |
| OscillatorSpec.Step | src/main.cpp:24-27 | One phase update adds the increment and subtracts at most one period. A phase in [0, 2pi) with an increment in [0, 2pi) stays in [0, 2pi). |
| OscillatorSpec.Advance | src/main.cpp:24-27 | The phase after n repetitions of the update. With a zero increment (0 Hz), a phase in [0, 2pi) never moves. Its range is stated in AdvanceInRange, its closed form in AdvanceIsModular, and its continuity in AdvanceAdditive. |
| OscillatorSpec.AdvanceInRange | src/main.cpp:20-32 | From a phase in [0, 2pi) with an increment in [0, 2pi), the phase stays in [0, 2pi) after any number of samples. |
| OscillatorSpec.AdvanceIsModular | src/main.cpp:20-32 | After n samples the phase equals phase + n*increment minus a whole number of periods: the number of times the wrap fired. |
| OscillatorSpec.PhaseIsReducedSum | src/main.cpp:20-32 | From a phase in [0, 2pi) with an increment in [0, 2pi), the phase after n samples is phase + n*increment reduced modulo 2pi: in [0, 2pi), and differing from the exact sum by whole periods. Increment's contract supplies the increment's range for every sane playing oscillator. |
| OscillatorSpec.AdvanceAdditive | src/main.cpp:20-32 | Advancing m samples and then n samples equals advancing m+n samples. |
| OscillatorSpec.Samples | src/main.cpp:17-35 | One call returns exactly n samples. |
| OscillatorSpec.After | src/main.cpp:20-32 | The state a call leaves: while playing, the phase advanced n times; while stopped, the state unchanged. No contract of its own: StoppedIsSilent, SplitRun and SaneIsPreserved state its laws. |
| OscillatorSpec.StoppedIsSilent | src/main.cpp:28-30 | A stopped voice returns all zeros and its state does not change. |
| OscillatorSpec.SplitRun | src/main.cpp:17-35 | One call for m+n samples returns the samples of a call for m followed by a call for n. It leaves the same final state. |
| OscillatorSpec.Played | src/main.cpp:41-43 | `play` sets the playing flag and changes nothing else. |
| OscillatorSpec.Stopped | src/main.cpp:37-39 | `stop` clears the playing flag and changes nothing else. |
| OscillatorSpec.PlayStopIdempotent | src/main.cpp:37-43 | play and stop are idempotent. Each of them, applied after the other, gives the same result as applying it alone. |
| OscillatorSpec.AmplitudeUpdate | src/main.cpp:52-57 | Fails exactly when value is outside [0, 1], and then the state is unchanged. Otherwise only the amplitude changes, to value. |
| OscillatorSpec.FrequencyUpdate | src/main.cpp:45-50 | As written: fails exactly when the CURRENT frequency is outside [1, sampleRate/2], and then the state is unchanged. Otherwise only the frequency changes, to value. |
| OscillatorSpec.CheckedFrequencyUpdate | src/main.cpp:45-50 | Corrected: fails exactly when value is outside [1, sampleRate/2], and then the state is unchanged. Otherwise only the frequency changes, to value. |
| OscillatorSpec.FirstFrequencyUpdateSucceeds | src/main.cpp:45-50 | From the default state, the as-written setFrequency accepts any value at all. |
| OscillatorSpec.FrequencyCheckIgnoresCandidate | src/main.cpp:45-50 | As written, 0 Hz is accepted from the default state, and then the valid 440 Hz is refused. An accepted 100 kHz puts the phase outside [0, 2pi) after one sample. |
| OscillatorSpec.SaneIsPreserved | src/main.cpp:10-57 | The default state is sane: phase in [0, 2pi), frequency in [1, sampleRate/2], amplitude in [0, 1]. play, stop, setAmplitude, the corrected setFrequency and getSamples all keep a sane state sane. |
| MixSpec.Zeros | src/main.cpp:69 | The value-initialised buffer: exactly n samples, every one 0. |
| MixSpec.AddWrapped | src/main.cpp:72-74 | Adding one run into the buffer keeps the buffer's length. |
| MixSpec.Mix | src/main.cpp:68-77 | The mix of any number of voices, including none, has exactly n samples. |
| MixSpec.AfterAll | src/main.cpp:70-71 | The states after the outer loop: one entry per voice, each voice advanced by n samples. MixSplitRun uses it. |
| MixSpec.MixIsWrappedSum | src/main.cpp:68-77 | Each mixed sample is the exact sum of the voices' samples at that index, wrapped once into 16 bits. |
| MixSpec.MixOfStoppedIsSilent | src/main.cpp:68-77 | If every voice is stopped, the mix is all zeros. |
| MixSpec.MixOfOne | src/main.cpp:68-77 | With a single voice, the mix is that voice's samples. |
| MixSpec.MixSplitRun | src/main.cpp:68-77 | Mixing m+n samples gives the mix of m samples followed by the mix of n samples from the advanced states. |
| Synth.Oscillator.constructor | src/main.cpp:10-15 | A new oscillator is playing, at 440 Hz, with phase 0 and amplitude 1. |
| Synth.Oscillator.GetSamples | src/main.cpp:17-35 | Returns a fresh array holding exactly Samples(old state, n). The new state is After(old state, n): only the phase moves, and only while playing. |
| Synth.Oscillator.Stop | src/main.cpp:37-39 | The new state is Stopped(old state). |
| Synth.Oscillator.Play | src/main.cpp:41-43 | The new state is Played(old state). |
| Synth.Oscillator.SetFrequency | src/main.cpp:45-50 | The outcome and the new state are FrequencyUpdate(old state, value). |
| Synth.Oscillator.SetFrequencyChecked | src/main.cpp:45-50 | The outcome and the new state are CheckedFrequencyUpdate(old state, value). |
| Synth.Oscillator.SetAmplitude | src/main.cpp:52-57 | The outcome and the new state are AmplitudeUpdate(old state, value). |
| Synth.SampleGenerator.constructor | src/main.cpp:64-66 | Holds exactly polyphony oscillators. They are fresh, pairwise distinct and all in the default state. |
| Synth.SampleGenerator.GetSamples | src/main.cpp:68-77 | Returns a fresh array equal to Mix(old states, n). Every oscillator advances by n samples. |
| Synth.SampleGenerator.AddVoice | src/main.cpp:70-75 | One pass of the outer loop: the voice advances by n samples, and its run is added into the buffer with wrap-around. |
| Synth.SampleGenerator.AddInto | src/main.cpp:72-74 | The inner loop: each buffer slot becomes the narrowed sum of its old value and the run's sample at that index. |
| Vectors.TruncDiv | src/modules/Vector.h:44 | C++ `int` division: the remainder is smaller than the divisor in magnitude, and it is zero or has the dividend's sign. |
| Vectors.TruncationDiffersFromEuclidean | src/modules/Vector.h:44 | -7/2 truncates to -3, where Euclidean division gives -4. 7/-2 gives -3 and -7/-2 gives 3. |
| Vectors.TruncDivOfMultiple | src/modules/Vector.h:44 | Dividing a*b by a non-zero b gives back a. |
| Vectors.FromCartesian | src/modules/Vector.h:14-16 | The vector's components are exactly the arguments. Both default to 0. |
| Vectors.Vector2i.Plus | src/modules/Vector.h:31-33 | `operator+`: subtracting other's components from the result gives back this vector. Further laws are in PlusMinusLaws and TimesDistributes. |
| Vectors.Vector2i.Minus | src/modules/Vector.h:27-29 | `operator-`: adding other back to the result gives this vector. |
| Vectors.Vector2i.Times | src/modules/Vector.h:35-37 | `operator*` by a scalar: 0 gives the zero vector, and 1 the vector itself. Distribution is in TimesDistributes, and inversion in DividedByUndoesTimes. |
| Vectors.Vector2i.DividedBy | src/modules/Vector.h:39-45 | Fails exactly when the scalar is 0. Otherwise each component is the truncated quotient. |
| Vectors.Vector2i.Dot | src/modules/Vector.h:47-49 | `dot`: a vector's dot product with itself is its squared length. Symmetry is in DotLaws. |
| Vectors.Vector2i.Magnitude2 | src/modules/Vector.h:55-57 | The squared length is non-negative, and it is zero exactly for the zero vector. |
| Vectors.PlusMinusLaws | src/modules/Vector.h:27-33 | a + b == b + a, and (a + b) - b == a. |
| Vectors.TimesDistributes | src/modules/Vector.h:31-37 | (a + b) * s == a * s + b * s. |
| Vectors.DividedByUndoesTimes | src/modules/Vector.h:35-45 | For s != 0, (v * s) / s succeeds and gives back v. |
| Vectors.DotLaws | src/modules/Vector.h:47-57 | The dot product is symmetric, and a vector dotted with itself is its magnitude2. |
| Vectors.MutableVector2i.constructor | src/modules/Vector.h:10 | The new object holds the given vector. |
| Vectors.MutableVector2i.AddAssign | src/modules/Vector.h:69-73 | The new value is old value + other. |
| Vectors.MutableVector2i.SubAssign | src/modules/Vector.h:76-80 | The new value is old value - other. |
| Vectors.MutableVector2i.DivAssign | src/modules/Vector.h:83-91 | Fails exactly when the scalar is 0, leaving the value untouched. Otherwise the new value is old value / scalar. |
| Vectors.MutableVector2i.MulAssign | src/modules/Vector.h:94-98 | The new value is old value * scalar. |

## Left out

- `MyStream`, with `onGetData` and `onSeek` (src/main.cpp:81-98), and `main` (src/main.cpp:100-113): audio-device I/O and program setup.
- The value of `std::sin(phase) * 32767 * amplitude` and its cast to `short`: the `wave` parameter stands for them.
- Floating-point rounding: frequency, phase and amplitude are exact reals. The float rounding of the increment and of `phase += phaseIncrement` is not modelled. Neither is the difference between the float `M_PI` used for the increment and the double `M_PI * 2` used for the wrap. NaN and the infinities are not modelled either, because reals cannot represent them. In the code, `setAmplitude` compares its argument at src/main.cpp:53, where a NaN makes both comparisons false and is accepted. `setFrequency` never compares its argument: a NaN argument is accepted whenever the current frequency passes line 46. Once the field holds NaN, both comparisons at line 46 are false, so every later `setFrequency` succeeds. The model's `FrequencyUpdate` refuses after an out-of-range value such as 0.0, and it has no NaN state.
- Negative `numSamples` or `polyphony`: in the code these make `std::vector` throw `length_error`. The model takes both as `nat`.
- The text `std::to_string(value)` appended to the exception messages: a `Fail` carries only the fixed prefix.
- `Vector2<int>` arithmetic overflow (undefined behaviour in C++): integers are unbounded.
- The `Vector2&` that the compound operators return, for chaining: the methods return nothing, or an `Outcome` for `DivAssign`.
- `fromPolar`, `magnitude`, `normalize` and `log`: they need `std::cos`, `std::sqrt` or printing. The `Vector2f` and `Vector2d` instances are floating-point. Angle.h is not part of this model.
- The private constructor `Vector2(x, y)` is modelled only through `FromCartesian` and `MutableVector2i.constructor`.
- Concurrency: parameter changes racing with the audio thread's `getSamples` are not modelled.
- Audio overflow: the mix wraps rather than clamps, because that is what the code does. The model proves no bound under which no wrap occurs, because the waveform's size is not tied to the amplitude.

## Findings

| source | as written | input that shows it | evidently intended | confidence | as-written member | corrected member |
|---|---|---|---|---|---|---|
| src/main.cpp:45-50 | `setFrequency` range-checks the current field `frequency`, not the argument `value` | A default oscillator accepts `setFrequency(0)`. The next `setFrequency(440)` then throws. A default oscillator also accepts `setFrequency(100000)`, which takes the phase out of [0, 2pi) after one sample. | Check `value` against [1, sampleRate/2] before assigning it. | high; not executed | OscillatorSpec.FrequencyCheckIgnoresCandidate | OscillatorSpec.CheckedFrequencyUpdate |

`OscillatorSpec.SaneIsPreserved` proves that the corrected update keeps
every state invariant. `Synth.Oscillator.SetFrequencyChecked` is the
class method that uses it.
