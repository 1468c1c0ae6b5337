/** Vectors of any dimension: dot products, lengths and directions. */
module Vectors {
  import opened Results
  import opened Geometry

  type Vector = seq<real>

  function Dot(v: Vector, w: Vector): real
    requires |v| == |w|
  {
    if v == [] then 0.0 else Product(v[0], w[0]) + Dot(v[1..], w[1..])
  }

  function Divided(v: Vector, d: real): (r: Vector)
    requires d != 0.0
    ensures |r| == |v| && forall i :: 0 <= i < |r| ==> r[i] == v[i] / d
  {
    if v == [] then [] else [v[0] / d] + Divided(v[1..], d)
  }

  function Scaled(k: real, v: Vector): (r: Vector)
    ensures |r| == |v| && forall i :: 0 <= i < |r| ==> r[i] == Product(k, v[i])
  {
    if v == [] then [] else [Product(k, v[0])] + Scaled(k, v[1..])
  }

  function Plus(v: Vector, w: Vector): (r: Vector)
    requires |v| == |w|
    ensures |r| == |v| && forall i :: 0 <= i < |r| ==> r[i] == v[i] + w[i]
  {
    if v == [] then [] else [v[0] + w[0]] + Plus(v[1..], w[1..])
  }

  function Zero(dimension: nat): (r: Vector)
    ensures |r| == dimension && forall i :: 0 <= i < |r| ==> r[i] == 0.0
  {
    if dimension == 0 then [] else [0.0] + Zero(dimension - 1)
  }

  // ---- Dot products ----

  lemma {:induction false} DotCommutes(v: Vector, w: Vector)
    requires |v| == |w|
    ensures Dot(v, w) == Dot(w, v)
  {
    if v != [] {
      ProductCommutes(v[0], w[0]);
      DotCommutes(v[1..], w[1..]);
    }
  }

  lemma ProductCommutes(x: real, y: real)
    ensures Product(x, y) == Product(y, x)
  {
  }

  lemma DividedStep(x: real, y: real, d: real, rest: real)
    requires d != 0.0
    ensures Product(x / d, y) + rest / d == (Product(x, y) + rest) / d
  {
    var q, s := x / d, rest / d;
    assert q * d == x && s * d == rest;
    assert d * (q * y + s) == x * y + rest;
    CancelFactor(d, q * y + s, (x * y + rest) / d);
  }

  lemma {:induction false} DotOfDivided(v: Vector, d: real, w: Vector)
    requires |v| == |w| && d != 0.0
    ensures Dot(Divided(v, d), w) == Dot(v, w) / d
  {
    if v != [] {
      DotOfDivided(v[1..], d, w[1..]);
      DividedStep(v[0], w[0], d, Dot(v[1..], w[1..]));
      assert Divided(v, d)[1..] == Divided(v[1..], d);
    }
  }

  lemma ScaledStep(k: real, x: real, y: real, rest: real)
    ensures Product(Product(k, x), y) + Product(k, rest) == Product(k, Product(x, y) + rest)
  {
  }

  lemma {:induction false} DotOfScaled(k: real, v: Vector, w: Vector)
    requires |v| == |w|
    ensures Dot(Scaled(k, v), w) == Product(k, Dot(v, w))
  {
    if v != [] {
      DotOfScaled(k, v[1..], w[1..]);
      ScaledStep(k, v[0], w[0], Dot(v[1..], w[1..]));
      assert Scaled(k, v)[1..] == Scaled(k, v[1..]);
    }
  }

  lemma PlusStep(x: real, y: real, z: real)
    ensures Product(x + y, z) == Product(x, z) + Product(y, z)
  {
  }

  lemma {:induction false} DotOfPlus(v: Vector, w: Vector, z: Vector)
    requires |v| == |w| == |z|
    ensures Dot(Plus(v, w), z) == Dot(v, z) + Dot(w, z)
  {
    if v != [] {
      DotOfPlus(v[1..], w[1..], z[1..]);
      PlusStep(v[0], w[0], z[0]);
      assert Plus(v, w)[1..] == Plus(v[1..], w[1..]);
    }
  }

  lemma {:induction false} DotOfZero(dimension: nat, w: Vector)
    requires |w| == dimension
    ensures Dot(Zero(dimension), w) == 0.0
  {
    if dimension > 0 {
      DotOfZero(dimension - 1, w[1..]);
      assert Zero(dimension)[1..] == Zero(dimension - 1);
    }
  }

  lemma {:induction false} DotWithItself(v: Vector)
    ensures Dot(v, v) >= 0.0
  {
    if v != [] {
      SquareIsPositive(v[0]);
      DotWithItself(v[1..]);
    }
  }

  lemma TwiceAProduct(x: real, y: real)
    ensures 2.0 * Product(x, y) <= Product(x, x) + Product(y, y)
  {
    SquareIsPositive(x - y);
    assert (x - y) * (x - y) == x * x + y * y - 2.0 * (x * y);
  }

  /** In any dimension, the dot product is at most the mean of the squared lengths. */
  lemma {:induction false} TwiceDot(v: Vector, w: Vector)
    requires |v| == |w|
    ensures 2.0 * Dot(v, w) <= Dot(v, v) + Dot(w, w)
  {
    if v != [] {
      TwiceAProduct(v[0], w[0]);
      TwiceDot(v[1..], w[1..]);
    }
  }

  // ---- Lengths ----

  /** The library's square root, by contract. */
  ghost predicate IsRoot(root: real -> real) {
    forall x :: RootFacts(root, x)
  }

  ghost predicate RootFacts(root: real -> real, x: real) {
    x >= 0.0 ==> root(x) >= 0.0 && Product(root(x), root(x)) == x
  }

  function Norm(root: real -> real, v: Vector): real {
    root(Dot(v, v))
  }

  lemma NormSquared(root: real -> real, v: Vector)
    requires IsRoot(root)
    ensures Norm(root, v) >= 0.0 && Product(Norm(root, v), Norm(root, v)) == Dot(v, v)
  {
    DotWithItself(v);
    assert RootFacts(root, Dot(v, v));
  }

  /** The vector over its length; a vector without one has no direction. */
  function Normalised(root: real -> real, v: Vector): Option<Vector> {
    if Norm(root, v) != 0.0 then Some(Divided(v, Norm(root, v))) else None
  }

  lemma QuotientOfSquare(n: real, q: real)
    requires n != 0.0 && Product(n, n) == q
    ensures q / n == n && n / n == 1.0
  {
    CancelFactor(n, q / n, n);
  }

  lemma TimesItsQuotient(n: real, x: real)
    requires n != 0.0
    ensures Product(n, x / n) == x
  {
  }

  lemma DotOfDirection(root: real -> real, v: Vector, w: Vector)
    requires |v| == |w| && Norm(root, v) != 0.0
    ensures Product(Norm(root, v), Dot(Divided(v, Norm(root, v)), w)) == Dot(v, w)
  {
    DotOfDivided(v, Norm(root, v), w);
    TimesItsQuotient(Norm(root, v), Dot(v, w));
  }

  lemma NormalisedIsUnit(root: real -> real, v: Vector)
    requires IsRoot(root) && Norm(root, v) != 0.0
    ensures Dot(Divided(v, Norm(root, v)), Divided(v, Norm(root, v))) == 1.0
  {
    var n := Norm(root, v);
    var u := Divided(v, n);
    NormSquared(root, v);
    DotOfDivided(v, n, u);
    DotCommutes(v, u);
    DotOfDivided(v, n, v);
    QuotientOfSquare(n, Dot(v, v));
  }

  lemma UnitsAgreeAtMostFully(v: Vector, w: Vector)
    requires |v| == |w| && Dot(v, v) == 1.0 && Dot(w, w) == 1.0
    ensures Dot(v, w) <= 1.0
  {
    TwiceDot(v, w);
  }

  lemma ScaledProduct(k: real, x: real)
    ensures Product(Product(k, x), Product(k, x)) == Product(k, Product(k, Product(x, x)))
  {
    assert (k * x) * (k * x) == k * (k * (x * x));
  }

  lemma NormOfScaled(root: real -> real, k: real, v: Vector)
    requires IsRoot(root) && k > 0.0
    ensures Norm(root, Scaled(k, v)) == Product(k, Norm(root, v))
  {
    var n, m := Norm(root, v), Norm(root, Scaled(k, v));
    NormSquared(root, v);
    NormSquared(root, Scaled(k, v));
    DotOfScaled(k, v, Scaled(k, v));
    DotCommutes(v, Scaled(k, v));
    DotOfScaled(k, v, v);
    ScaledProduct(k, n);
    ProductOfNonNegative(k, n);
    RootsAgree(m, Product(k, n));
  }

  lemma ProductOfNonNegative(k: real, n: real)
    requires k > 0.0 && n >= 0.0
    ensures Product(k, n) >= 0.0
    ensures n != 0.0 ==> Product(k, n) != 0.0
  {
  }

  lemma RootsAgree(x: real, y: real)
    requires x >= 0.0 && y >= 0.0 && Product(x, x) == Product(y, y)
    ensures x == y
  {
    SameSquareSameRoot(x, y);
  }

  lemma ScaledProductQuotient(k: real, x: real, n: real)
    requires k > 0.0 && n != 0.0 && Product(k, n) != 0.0
    ensures Product(k, x) / Product(k, n) == x / n
  {
    ScaledQuotient(k, x, n);
  }

  /** Lengthening or shortening a vector keeps its direction. */
  lemma NormalisedIgnoresScale(root: real -> real, k: real, v: Vector)
    requires IsRoot(root) && k > 0.0
    ensures Normalised(root, Scaled(k, v)) == Normalised(root, v)
  {
    var n := Norm(root, v);
    NormSquared(root, v);
    NormOfScaled(root, k, v);
    ProductOfNonNegative(k, n);
    if n != 0.0 {
      forall i | 0 <= i < |v| ensures Divided(Scaled(k, v), Product(k, n))[i] == Divided(v, n)[i] {
        ScaledProductQuotient(k, v[i], n);
      }
      assert Divided(Scaled(k, v), Product(k, n)) == Divided(v, n);
    } else {
      assert Product(k, 0.0) == 0.0;
    }
  }
}
