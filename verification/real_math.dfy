/** Exact-real stand-ins for the numpy and Python rounding operations the tiler uses. */
module RealMath {

  /** numpy.floor followed by int(): the largest integer not above r. */
  function Floor(r: real): (f: int)
    ensures f as real <= r < f as real + 1.0
  {
    r.Floor
  }

  /** numpy.ceil followed by int(): the smallest integer not below r. */
  function Ceil(r: real): (c: int)
    ensures c as real - 1.0 < r <= c as real
  {
    -((-r).Floor)
  }

  /** Python's int() on a float, which truncates toward zero. */
  function Trunc(r: real): (t: int)
    ensures 0.0 <= r ==> 0 <= t && t as real <= r < t as real + 1.0
    ensures r < 0.0 ==> t <= 0 && t as real - 1.0 < r <= t as real
  {
    if r >= 0.0 then Floor(r) else -Floor(-r)
  }

  /** Clamps a count at zero, as numpy does for the length of an empty range. */
  function Max0(n: int): (m: nat)
    ensures n <= m && (0 < m ==> m == n)
  {
    if n < 0 then 0 else n
  }

  /** Multiplying by a positive factor keeps the order of two reals. */
  lemma ScaleOrder(a: real, b: real, c: real)
    requires c > 0.0
    ensures a <= b <==> a * c <= b * c
    ensures a < b <==> a * c < b * c
  {
    if a <= b {
      assert b * c - a * c == (b - a) * c;
    } else {
      assert a * c - b * c == (a - b) * c;
    }
  }

  /** Two reals at least one apart have distinct floors. */
  lemma FloorSeparated(a: real, b: real)
    requires a + 1.0 <= b
    ensures Floor(a) < Floor(b)
  {
  }

  /** The product of two reals. Lattice positions are products of an index and the cube size;
      writing them through Mul lets proofs treat a product as one term and bring in its
      arithmetic through the lemmas below. */
  function Mul(a: real, b: real): real {
    a * b
  }

  lemma MulLe(x: real, y: real, c: real)
    requires c > 0.0 && x <= y
    ensures Mul(x, c) <= Mul(y, c)
  {
    ScaleOrder(x, y, c);
  }

  lemma MulLt(x: real, y: real, c: real)
    requires c > 0.0 && x < y
    ensures Mul(x, c) < Mul(y, c)
  {
    ScaleOrder(x, y, c);
  }

  /** Products by the same positive factor compare as their first factors do. */
  lemma MulOrder(x: real, y: real, c: real)
    requires c > 0.0
    ensures Mul(x, c) <= Mul(y, c) <==> x <= y
    ensures Mul(x, c) < Mul(y, c) <==> x < y
  {
    ScaleOrder(x, y, c);
  }

  lemma MulSplit(a: real, b: real, s: real, c: real)
    requires a + b == s
    ensures Mul(s, c) == Mul(a, c) + Mul(b, c)
  {
    assert s * c == a * c + b * c;
  }

  lemma MulZero(c: real)
    ensures Mul(0.0, c) == 0.0
  {
  }

  /** The product of the (k + 1)-th multiple is one factor more than the k-th. */
  lemma MulSucc(k: int, c: real)
    ensures Mul((k + 1) as real, c) == Mul(k as real, c) + c
  {
    MulSplit(k as real, 1.0, (k + 1) as real, c);
  }

  lemma DivMul(v: real, c: real)
    requires c != 0.0
    ensures Mul(v / c, c) == v
  {
  }
}
