/** Three-dimensional vectors over the reals: the part of three.js's Vector3
    that the physics stepper uses (add, sub, multiplyScalar, divideScalar,
    lengthSq, length, normalize). Floating point is replaced by `real`. */
module Vectors {

  datatype Vec3 = Vec3(x: real, y: real, z: real)

  const Zero := Vec3(0.0, 0.0, 0.0)

  function Add(a: Vec3, b: Vec3): Vec3 {
    Vec3(a.x + b.x, a.y + b.y, a.z + b.z)
  }

  function Sub(a: Vec3, b: Vec3): Vec3 {
    Vec3(a.x - b.x, a.y - b.y, a.z - b.z)
  }

  /** multiplyScalar; divideScalar(s) is Scale(v, 1.0 / s) */
  function Scale(v: Vec3, k: real): Vec3 {
    Vec3(v.x * k, v.y * k, v.z * k)
  }

  function Dot(a: Vec3, b: Vec3): real {
    a.x * b.x + a.y * b.y + a.z * b.z
  }

  /** Squared Euclidean length (Vector3.lengthSq). */
  function LengthSq(v: Vec3): real {
    Dot(v, v)
  }

  /** The squared length is never negative, and it is zero exactly for the
      zero vector, so `lengthSq() == 0` holds just for coincident points. */
  lemma LengthSqNonNegative(v: Vec3)
    ensures 0.0 <= LengthSq(v)
    ensures v == Zero ==> LengthSq(v) == 0.0
    ensures LengthSq(v) == 0.0 ==> v == Zero
  {
    SquareNonNegative(v.x);
    SquareNonNegative(v.y);
    SquareNonNegative(v.z);
    ZeroSum(v.x * v.x, v.y * v.y, v.z * v.z);
    SquareZero(v.x);
    SquareZero(v.y);
    SquareZero(v.z);
  }

  lemma ZeroSum(p: real, q: real, r: real)
    requires 0.0 <= p && 0.0 <= q && 0.0 <= r
    ensures p + q + r == 0.0 ==> p == 0.0 && q == 0.0 && r == 0.0
  {
  }

  // The solver handles a square that equals another term poorly, so facts
  // about squares are proved on plain variables, one at a time.
  lemma SquareNonNegative(x: real)
    ensures 0.0 <= x * x
  {
    if x < 0.0 {
      SquarePositive(x);
    }
  }

  lemma SquarePositive(x: real)
    requires x != 0.0
    ensures 0.0 < x * x
  {
  }

  lemma SquareZero(x: real)
    ensures x * x == 0.0 ==> x == 0.0
  {
    if x != 0.0 {
      Cancel(x, x * x);
    }
  }

  lemma Cancel(x: real, s: real)
    requires x != 0.0
    ensures s == x * x ==> s / x == x
  {
  }

  /** JavaScript's Math.sqrt, which three.js calls inside Vector3.length, is
      a foreign function, so the model receives it as a parameter `sqrt`.
      RootAt(sqrt, s) says that at `s` it returns the non-negative square
      root; the properties that need a root assume it only where they use it. */
  predicate RootAt(sqrt: real -> real, s: real) {
    0.0 <= sqrt(s) && sqrt(s) * sqrt(s) == s
  }

  /** Euclidean length (Vector3.length). Where `sqrt` is a root it is the
      non-negative root of the squared length, strictly positive when the
      squared length is not zero. */
  function Length(v: Vec3, sqrt: real -> real): (r: real)
    ensures RootAt(sqrt, LengthSq(v)) ==> 0.0 <= r && r * r == LengthSq(v)
    ensures RootAt(sqrt, LengthSq(v)) && LengthSq(v) != 0.0 ==> 0.0 < r
  {
    var r := sqrt(LengthSq(v));
    RootOfNonZero(r, LengthSq(v));
    r
  }

  lemma RootOfNonZero(r: real, s: real)
    ensures 0.0 <= r && r * r == s && s != 0.0 ==> 0.0 < r
  {
    if r == 0.0 && r * r == s {
      assert s == 0.0 * 0.0;
    }
  }

  /** Scaling by a non-negative factor scales the length by that factor. */
  lemma LengthScale(v: Vec3, k: real, sqrt: real -> real)
    requires RootAt(sqrt, LengthSq(v)) && RootAt(sqrt, LengthSq(Scale(v, k))) && 0.0 <= k
    ensures Length(Scale(v, k), sqrt) == k * Length(v, sqrt)
  {
    var r := Length(v, sqrt);
    LengthSqScale(v, k);
    ProductSquare(k, r, LengthSq(v));
    RootUnique(Length(Scale(v, k), sqrt), k * r);
  }

  lemma ProductSquare(k: real, r: real, s: real)
    requires r * r == s
    ensures (k * r) * (k * r) == k * k * s
  {
  }

  /** Two non-negative reals with the same square are equal. */
  lemma RootUnique(a: real, b: real)
    requires 0.0 <= a && 0.0 <= b && a * a == b * b
    ensures a == b
  {
    if a != b {
      DifferenceOfSquares(a, b);
      NonZeroProduct(a - b, a + b);
    }
  }

  lemma DifferenceOfSquares(a: real, b: real)
    ensures a * a - b * b == (a - b) * (a + b)
  {
  }

  lemma NonZeroProduct(x: real, y: real)
    requires x != 0.0 && y != 0.0
    ensures x * y != 0.0
  {
  }

  /** Vector3.normalize: divide by the length, or by 1 when the length is 0.
      A vector of non-zero length is its length times the result, and where
      `sqrt` is a root the result is a unit vector; a vector of zero length
      is returned unchanged. */
  function Normalize(v: Vec3, sqrt: real -> real): (u: Vec3)
    ensures Length(v, sqrt) == 0.0 ==> u == v
    ensures Length(v, sqrt) != 0.0 ==> v == Scale(u, Length(v, sqrt))
    ensures RootAt(sqrt, LengthSq(v)) && LengthSq(v) != 0.0 ==> LengthSq(u) == 1.0
  {
    var len := Length(v, sqrt);
    var divisor := if len == 0.0 then 1.0 else len;
    UnitScale(v, len, 1.0 / divisor);
    Scale(v, 1.0 / divisor)
  }

  /** Dividing by `len` and multiplying back gives the vector again; when
      `len` is its length the quotient has unit length. */
  lemma UnitScale(v: Vec3, len: real, k: real)
    ensures k * len == 1.0 && len * len == LengthSq(v) ==> LengthSq(Scale(v, k)) == 1.0
    ensures k * len == 1.0 ==> Scale(Scale(v, k), len) == v
  {
    LengthSqScale(v, k);
    assert k * k * (len * len) == (k * len) * (k * len);
  }

  lemma LengthSqScale(v: Vec3, k: real)
    ensures LengthSq(Scale(v, k)) == k * k * LengthSq(v)
  {
  }

  lemma ScaleScale(v: Vec3, a: real, b: real)
    ensures Scale(Scale(v, a), b) == Scale(v, a * b)
  {
  }

  /** The dot product of two multiples of one vector is the product of the
      factors times the squared length. */
  lemma DotOfMultiples(u: Vec3, a: real, b: real)
    ensures Dot(Scale(u, a), Scale(u, b)) == a * b * LengthSq(u)
  {
  }
}
