/** Signed 16-bit PCM samples (`short`) and the narrowing cast the mixer
    applies after every addition. */
module Pcm {

  const ShortMin: int := -32768
  const ShortMax: int := 32767
  /** Number of distinct 16-bit values. */
  const ShortRange: int := 65536

  predicate IsShort(v: int) {
    ShortMin <= v <= ShortMax
  }

  /** A C++ `short`. */
  type Short = v: int | IsShort(v) witness 0

  /** `static_cast<short>(v)` for an `int` v: two's-complement wrap-around
      into [-32768, 32767]. The result is the unique short congruent to v
      modulo 2^16. */
  function Wrap16(v: int): (r: Short)
    ensures (v - r) % ShortRange == 0
    ensures IsShort(v) ==> r == v
  {
    (v - ShortMin) % ShortRange + ShortMin
  }

  /** Narrowing a partial sum before adding the next term does not change
      the final narrowed value: the mixer's per-addition cast equals one
      cast of the exact sum. */
  lemma WrapAbsorbs(a: int, b: int)
    ensures Wrap16(Wrap16(a) + b) == Wrap16(a + b)
  {
    var w := Wrap16(a);
    var k := (a - w) / ShortRange;
    assert a - w == k * ShortRange;
    WrapShift(a + b, k);
    assert a + b - k * ShortRange == w + b;
  }

  /** Shifting by a multiple of 2^16 does not change the wrapped value. */
  lemma {:induction false} WrapShift(v: int, k: int)
    ensures Wrap16(v - k * ShortRange) == Wrap16(v)
    decreases if k < 0 then -k else k
  {
    if k > 0 {
      WrapShift(v, k - 1);
      assert v - k * ShortRange == (v - (k - 1) * ShortRange) - ShortRange;
      WrapPeriodic(v - k * ShortRange);
    } else if k < 0 {
      WrapShift(v, k + 1);
      assert v - k * ShortRange == (v - (k + 1) * ShortRange) + ShortRange;
      WrapPeriodic(v - (k + 1) * ShortRange);
    }
  }

  /** Wrapping has period 2^16. */
  lemma WrapPeriodic(v: int)
    ensures Wrap16(v + ShortRange) == Wrap16(v)
  {
  }
}
