/** The integer instance `Vector2i` of the `Vector2<T>` template in
    src/modules/Vector.h: a value type with componentwise arithmetic, and
    the compound assignment operators that update a vector's fields in
    place. `int` is modelled as an unbounded integer. */
module Vectors {
  import opened Outcomes

  function Abs(a: int): nat {
    if a < 0 then -a else a
  }

  /** C++ `int` division, which truncates toward zero (Dafny's `/` is
      Euclidean). The remainder `a - q * b` is smaller than the divisor in
      magnitude and is zero or has the sign of the dividend. */
  function TruncDiv(a: int, b: int): (q: int)
    requires b != 0
    ensures Abs(a - q * b) < Abs(b)
    ensures a - q * b == 0 || (a - q * b < 0 <==> a < 0)
  {
    var m := Abs(a) / Abs(b);
    TruncRemainder(a, b, m);
    if (a < 0) == (b < 0) then m else -m
  }

  /** The remainder left by the truncated quotient is the remainder of the
      magnitudes, carrying the sign of the dividend. */
  lemma TruncRemainder(a: int, b: int, m: int)
    requires b != 0 && m == Abs(a) / Abs(b)
    ensures var q := if (a < 0) == (b < 0) then m else -m;
            a - q * b == if a < 0 then -(Abs(a) % Abs(b)) else Abs(a) % Abs(b)
  {
    var n: int, d: int, r: int := Abs(a), Abs(b), Abs(a) % Abs(b);
    assert n == m * d + r;
    MulNeg(m, d);
    if a >= 0 && b > 0 {
      assert a - m * b == n - m * d;
    } else if a < 0 && b < 0 {
      assert b == -d && a == -n;
      assert a - m * b == -n + m * d;
    } else if a >= 0 {
      assert b == -d;
      assert (-m) * b == -(m * b);
      assert a - (-m) * b == n - m * d;
    } else {
      assert a == -n && b == d;
      assert a - (-m) * b == -n + m * d;
    }
  }

  lemma MulNeg(m: int, d: int)
    ensures m * (-d) == -(m * d) && (-m) * d == -(m * d)
  {
  }

  /** Multiplying by a non-zero integer never shrinks a magnitude. */
  lemma MulMagnitude(c: int, b: int)
    requires c != 0
    ensures Abs(c * b) >= Abs(b)
  {
    var u: int, v: int := Abs(c), Abs(b);
    assert u * v >= v by {
      NatMul(u - 1, v);
      assert u * v == (u - 1) * v + v;
    }
    assert Abs(c * b) == u * v by {
      NatMul(u, v);
      MulNeg(u, v);
      if c < 0 && b < 0 {
        assert c * b == (-u) * (-v);
        MulNeg(-u, v);
      }
    }
  }

  lemma NatMul(x: nat, y: nat)
    ensures x * y >= 0
  {
  }

  /** The two divisions differ on a negative dividend. */
  lemma TruncationDiffersFromEuclidean()
    ensures TruncDiv(-7, 2) == -3 && -7 / 2 == -4
    ensures TruncDiv(7, -2) == -3 && TruncDiv(-7, -2) == 3
  {
  }

  /** Dividing an exact multiple gives back the factor. */
  lemma TruncDivOfMultiple(a: int, b: int)
    requires b != 0
    ensures TruncDiv(a * b, b) == a
  {
    var q := TruncDiv(a * b, b);
    if q != a {
      SubMul(a, q, b);
      MulMagnitude(a - q, b);
    }
  }

  lemma SubMul(a: int, q: int, b: int)
    ensures a * b - q * b == (a - q) * b
  {
  }

  datatype Vector2i = Vector2i(x: int, y: int) {

    /** `operator+`: the componentwise sum; taking other's components back
        off gives this vector. */
    function Plus(other: Vector2i): (r: Vector2i)
      ensures r.x - other.x == x && r.y - other.y == y
    {
      Vector2i(x + other.x, y + other.y)
    }

    /** `operator-`: the componentwise difference, which adding other undoes. */
    function Minus(other: Vector2i): (r: Vector2i)
      ensures r.Plus(other) == this
    {
      Vector2i(x - other.x, y - other.y)
    }

    /** `operator*` by a scalar: each component scaled; 0 gives the zero
        vector and 1 the vector itself. */
    function Times(scalar: int): (r: Vector2i)
      ensures scalar == 0 ==> r == FromCartesian()
      ensures scalar == 1 ==> r == this
    {
      Vector2i(x * scalar, y * scalar)
    }

    /** `operator/` by a scalar: throws on zero, otherwise divides each
        component, truncating toward zero. */
    function DividedBy(scalar: int): (r: Result<Vector2i>)
      ensures r.Failure? <==> scalar == 0
      ensures r.Success? ==> r.value.x == TruncDiv(x, scalar) && r.value.y == TruncDiv(y, scalar)
    {
      if scalar == 0 then Failure("Trying to divide by 0 (/)")
      else Success(Vector2i(TruncDiv(x, scalar), TruncDiv(y, scalar)))
    }

    /** `dot`: a vector's dot product with itself is its squared length. */
    function Dot(other: Vector2i): (r: int)
      ensures other == this ==> r == Magnitude2()
    {
      x * other.x + y * other.y
    }

    /** Squared length. */
    function Magnitude2(): (r: int)
      ensures r >= 0
      ensures r == 0 <==> x == 0 && y == 0
    {
      SquareNonNegative(x);
      SquareNonNegative(y);
      x * x + y * y
    }
  }

  lemma SquareNonNegative(a: int)
    ensures a * a >= 0 && (a * a == 0 <==> a == 0)
  {
    if a < 0 {
      assert a * a == (-a) * (-a);
    }
  }

  /** `fromCartesian(x, y)`; both coordinates default to 0. */
  function FromCartesian(x: int := 0, y: int := 0): (v: Vector2i)
    ensures v.x == x && v.y == y
  {
    Vector2i(x, y)
  }

  /** Addition commutes, and subtraction undoes it. */
  lemma PlusMinusLaws(a: Vector2i, b: Vector2i)
    ensures a.Plus(b) == b.Plus(a)
    ensures a.Plus(b).Minus(b) == a
  {
  }

  /** Scaling distributes over addition. */
  lemma TimesDistributes(a: Vector2i, b: Vector2i, s: int)
    ensures a.Plus(b).Times(s) == a.Times(s).Plus(b.Times(s))
  {
    assert (a.x + b.x) * s == a.x * s + b.x * s;
    assert (a.y + b.y) * s == a.y * s + b.y * s;
  }

  /** Dividing by a non-zero scalar undoes scaling by it. */
  lemma DividedByUndoesTimes(v: Vector2i, s: int)
    requires s != 0
    ensures v.Times(s).DividedBy(s) == Success(v)
  {
    TruncDivOfMultiple(v.x, s);
    TruncDivOfMultiple(v.y, s);
  }

  /** The dot product is symmetric, and a vector's dot product with itself
      is its squared length. */
  lemma DotLaws(a: Vector2i, b: Vector2i)
    ensures a.Dot(b) == b.Dot(a)
    ensures a.Dot(a) == a.Magnitude2()
  {
    assert a.x * b.x == b.x * a.x;
    assert a.y * b.y == b.y * a.y;
  }

  /** A `Vector2i` object whose fields the compound operators update in
      place. Each operator takes its right operand by value; for the
      source's `const Vector2 &`, `v += v` and `v -= v` read each component
      of the operand before it is overwritten, so the results agree. */
  class MutableVector2i {
    var x: int
    var y: int

    function Value(): Vector2i
      reads this
    {
      Vector2i(x, y)
    }

    constructor (v: Vector2i)
      ensures Value() == v
    {
      x := v.x;
      y := v.y;
    }

    /** `operator+=`. */
    method AddAssign(other: Vector2i)
      modifies this
      ensures Value() == old(Value()).Plus(other)
    {
      x := x + other.x;
      y := y + other.y;
    }

    /** `operator-=`. */
    method SubAssign(other: Vector2i)
      modifies this
      ensures Value() == old(Value()).Minus(other)
    {
      x := x - other.x;
      y := y - other.y;
    }

    /** `operator*=`. */
    method MulAssign(scalar: int)
      modifies this
      ensures Value() == old(Value()).Times(scalar)
    {
      x := x * scalar;
      y := y * scalar;
    }

    /** `operator/=`: the zero test comes before either field is written,
        so a failed division leaves the vector as it was. */
    method DivAssign(scalar: int) returns (outcome: Outcome)
      modifies this
      ensures outcome.Fail? <==> scalar == 0
      ensures outcome.Fail? ==> Value() == old(Value())
      ensures outcome.Pass? ==> old(Value()).DividedBy(scalar) == Success(Value())
    {
      if scalar == 0 {
        return Fail("Trying to divide by 0 (/=)");
      }
      x := TruncDiv(x, scalar);
      y := TruncDiv(y, scalar);
      outcome := Pass;
    }
  }
}
