/** The two-dimensional Umeyama fit: among rotations with one scale and a shift, the one that
  * carries one set of points closest to another by squared distance. */
module Align {
  import opened Geometry

  // ---- Two-by-two matrices ----

  /** `(a b; c d)`. */
  datatype Matrix = Matrix(a: real, b: real, c: real, d: real)

  /** The row `(p q)` times the column `(x y)`. */
  function Dot(p: real, q: real, x: real, y: real): real {
    p * x + q * y
  }

  function Times(m: Matrix, n: Matrix): Matrix {
    Matrix(Dot(m.a, m.b, n.a, n.c), Dot(m.a, m.b, n.b, n.d), Dot(m.c, m.d, n.a, n.c), Dot(m.c, m.d, n.b, n.d))
  }

  function Transposed(m: Matrix): Matrix {
    Matrix(m.a, m.c, m.b, m.d)
  }

  function Determinant(m: Matrix): real {
    m.a * m.d - m.b * m.c
  }

  function Diagonal(x: real, y: real): Matrix {
    Matrix(x, 0.0, 0.0, y)
  }

  function Scaled(k: real, m: Matrix): Matrix {
    Matrix(Product(k, m.a), Product(k, m.b), Product(k, m.c), Product(k, m.d))
  }

  function MapPoint(m: Matrix, p: Point): Point {
    Point(m.a * p.x + m.b * p.y, m.c * p.x + m.d * p.y)
  }

  function Plus(m: Matrix, n: Matrix): Matrix {
    Matrix(m.a + n.a, m.b + n.b, m.c + n.c, m.d + n.d)
  }

  /** The column `t` times the row `s`. */
  function Outer(t: Point, s: Point): Matrix {
    Matrix(Product(t.x, s.x), Product(t.x, s.y), Product(t.y, s.x), Product(t.y, s.y))
  }

  const IDENTITY := Diagonal(1.0, 1.0)

  ghost predicate Orthogonal(m: Matrix) {
    Times(m, Transposed(m)) == IDENTITY && Times(Transposed(m), m) == IDENTITY
  }

  /** The singular value decomposition, by contract. */
  datatype Svd = Svd(u: Matrix, s1: real, s2: real, vt: Matrix)

  ghost predicate Decomposes(svd: Svd, m: Matrix) {
    && Orthogonal(svd.u) && Orthogonal(svd.vt)
    && svd.s1 >= svd.s2 >= 0.0
    && m == Times(svd.u, Times(Diagonal(svd.s1, svd.s2), svd.vt))
  }

  // ---- The fit ----

  function Shifted(points: seq<Point>, origin: Point): (r: seq<Point>)
    ensures |r| == |points|
    ensures forall i :: 0 <= i < |r| ==> r[i] == Minus(points[i], origin)
  {
    if points == [] then [] else [Minus(points[0], origin)] + Shifted(points[1..], origin)
  }

  function Centred(points: seq<Point>): (r: seq<Point>)
    requires points != []
    ensures |r| == |points|
  {
    Shifted(points, Mean(points))
  }

  /** `target.T @ source`, summed over the points. */
  function Products(target: seq<Point>, source: seq<Point>): Matrix
    requires |target| == |source|
  {
    if target == [] then Matrix(0.0, 0.0, 0.0, 0.0)
    else
      Plus(Outer(target[0], source[0]), Products(target[1..], source[1..]))
  }

  function SquaredLengths(points: seq<Point>): real {
    if points == [] then 0.0
    else Square(points[0].x) + Square(points[0].y) + SquaredLengths(points[1..])
  }

  /** The summed variance of the coordinates about their mean. */
  function Variance(points: seq<Point>): real
    requires points != []
  {
    SquaredLengths(Centred(points)) / |points| as real
  }

  function Covariance(source: seq<Point>, target: seq<Point>): Matrix
    requires source != [] && |source| == |target|
  {
    Scaled(1.0 / |source| as real, Products(Centred(target), Centred(source)))
  }

  /** `diag(1, -1)` when the decomposition mirrors, so that the product never does. */
  function Sign(svd: Svd): real {
    if Determinant(svd.u) * Determinant(svd.vt) < 0.0 then -1.0 else 1.0
  }

  function Rotation(svd: Svd): Matrix {
    Times(svd.u, Times(Diagonal(1.0, Sign(svd)), svd.vt))
  }

  /** The sum of the singular values, the second with its sign. */
  function SignedSum(svd: Svd): real {
    svd.s1 + svd.s2 * Sign(svd)
  }

  function Scale(svd: Svd, variance: real): real {
    if variance != 0.0 then SignedSum(svd) / variance else 1.0
  }

  /** A linear part and a shift: the 2 x 3 matrix the code returns. */
  datatype Affine = Affine(linear: Matrix, shift: Point) {
    function Apply(p: Point): Point {
      Point(linear.a * p.x + linear.b * p.y + shift.x, linear.c * p.x + linear.d * p.y + shift.y)
    }
  }

  function Fit(decompose: Matrix -> Svd, source: seq<Point>, target: seq<Point>): Affine
    requires source != [] && |source| == |target|
  {
    var svd := decompose(Covariance(source, target));
    var linear := Scaled(Scale(svd, Variance(Centred(source))), Rotation(svd));
    Affine(linear, Minus(Mean(target), MapPoint(linear, Mean(source))))
  }

  // ---- Never a reflection ----

  predicate IsUnit(x: real) {
    x == 1.0 || x == -1.0
  }

  lemma DeterminantOfProduct(m: Matrix, n: Matrix)
    ensures Determinant(Times(m, n)) == Product(Determinant(m), Determinant(n))
  {
  }

  lemma OrthogonalDeterminant(m: Matrix)
    requires Orthogonal(m)
    ensures IsUnit(Determinant(m))
  {
    DeterminantOfProduct(m, Transposed(m));
    TransposedDeterminant(m);
    DiagonalDeterminant(1.0);
    UnitRoot(Determinant(m), Determinant(Transposed(m)));
  }

  lemma TransposedDeterminant(m: Matrix)
    ensures Determinant(Transposed(m)) == Determinant(m)
  {
  }

  lemma UnitRoot(x: real, y: real)
    requires x == y && Product(x, y) == 1.0
    ensures IsUnit(x)
  {
    SquareOfOne(x);
  }

  lemma SquareOfOne(x: real)
    requires x * x == 1.0
    ensures x == 1.0 || x == -1.0
  {
    SquareAgainstOne(x);
  }

  lemma SquareAgainstOne(x: real)
    ensures x > 1.0 || x < -1.0 ==> x * x > 1.0
    ensures -1.0 < x < 1.0 ==> x * x < 1.0
  {
    if x > 1.0 {
      assert (x - 1.0) * (x + 1.0) > 0.0;
    } else if x < -1.0 {
      assert (-x - 1.0) * (-x + 1.0) > 0.0;
    } else if x != 1.0 && x != -1.0 {
      assert (1.0 - x) * (1.0 + x) > 0.0;
    }
  }

  /** A row times a matrix times a column, multiplied in either order. */
  lemma RowMatrixColumn(p: real, q: real, m: Matrix, x: real, y: real)
    ensures Dot(Dot(p, q, m.a, m.c), Dot(p, q, m.b, m.d), x, y) == Dot(p, q, Dot(m.a, m.b, x, y), Dot(m.c, m.d, x, y))
  {
    assert (p * m.a + q * m.c) * x == p * m.a * x + q * m.c * x;
    assert (p * m.b + q * m.d) * y == p * m.b * y + q * m.d * y;
    assert p * (m.a * x + m.b * y) == p * m.a * x + p * m.b * y;
    assert q * (m.c * x + m.d * y) == q * m.c * x + q * m.d * y;
  }

  lemma Associates(l: Matrix, m: Matrix, n: Matrix)
    ensures Times(Times(l, m), n) == Times(l, Times(m, n))
  {
    RowMatrixColumn(l.a, l.b, m, n.a, n.c);
    RowMatrixColumn(l.a, l.b, m, n.b, n.d);
    RowMatrixColumn(l.c, l.d, m, n.a, n.c);
    RowMatrixColumn(l.c, l.d, m, n.b, n.d);
  }

  lemma TransposedProduct(m: Matrix, n: Matrix)
    ensures Transposed(Times(m, n)) == Times(Transposed(n), Transposed(m))
  {
  }

  lemma IdentityTimes(m: Matrix)
    ensures Times(IDENTITY, m) == m && Times(m, IDENTITY) == m
  {
  }

  /** `(x y)(y^T x^T)` collapses from the middle. */
  lemma ProductTimesItsTranspose(x: Matrix, y: Matrix)
    requires Times(y, Transposed(y)) == IDENTITY
    ensures Times(Times(x, y), Transposed(Times(x, y))) == Times(x, Transposed(x))
  {
    TransposedProduct(x, y);
    Associates(x, y, Times(Transposed(y), Transposed(x)));
    Associates(y, Transposed(y), Transposed(x));
    IdentityTimes(Transposed(x));
  }

  lemma OrthogonalProduct(x: Matrix, y: Matrix)
    requires Orthogonal(x) && Orthogonal(y)
    ensures Orthogonal(Times(x, y))
  {
    ProductTimesItsTranspose(x, y);
    TransposedProduct(x, y);
    ProductTimesItsTranspose(Transposed(y), Transposed(x));
  }

  lemma SignIsOrthogonal(sign: real)
    requires sign == 1.0 || sign == -1.0
    ensures Orthogonal(Diagonal(1.0, sign)) && Determinant(Diagonal(1.0, sign)) == sign
  {
  }

  /** A rotation by some angle: orthogonal, and never a reflection. */
  ghost predicate ProperRotation(m: Matrix) {
    m.d == m.a && m.b == -m.c && m.a * m.a + m.c * m.c == 1.0
  }

  lemma OrthogonalWithUnitDeterminant(m: Matrix)
    requires Orthogonal(m) && Determinant(m) == 1.0
    ensures ProperRotation(m)
  {
    assert m.a * m.a + m.b * m.b == 1.0 && m.c * m.c + m.d * m.d == 1.0;
    assert (m.a - m.d) * (m.a - m.d) + (m.b + m.c) * (m.b + m.c) == 0.0;
    SumOfSquares(m.a - m.d, m.b + m.c);
  }

  lemma SumOfSquares(x: real, y: real)
    ensures x * x + y * y >= 0.0
    ensures x != 0.0 || y != 0.0 ==> x * x + y * y > 0.0
  {
    SquareIsPositive(x);
    SquareIsPositive(y);
    var p, q := x * x, y * y;
    assert p >= 0.0 && q >= 0.0;
  }

  lemma SignUndoesTheMirror(u: real, sign: real, vt: real)
    requires IsUnit(u) && IsUnit(vt) && sign == (if u * vt < 0.0 then -1.0 else 1.0)
    ensures Product(u, Product(sign, vt)) == 1.0
  {
  }

  lemma RotationDeterminant(svd: Svd)
    requires IsUnit(Determinant(svd.u)) && IsUnit(Determinant(svd.vt))
    ensures Determinant(Rotation(svd)) == 1.0
  {
    DiagonalDeterminant(Sign(svd));
    DeterminantOfProduct(Diagonal(1.0, Sign(svd)), svd.vt);
    DeterminantOfProduct(svd.u, Times(Diagonal(1.0, Sign(svd)), svd.vt));
    SignUndoesTheMirror(Determinant(svd.u), Sign(svd), Determinant(svd.vt));
  }

  lemma DiagonalDeterminant(sign: real)
    ensures Determinant(Diagonal(1.0, sign)) == sign
  {
  }

  /** Whatever decomposition the library returns, the rotation is a proper one. */
  lemma RotationIsProper(svd: Svd)
    requires Orthogonal(svd.u) && Orthogonal(svd.vt)
    ensures ProperRotation(Rotation(svd))
  {
    var sign := Diagonal(1.0, Sign(svd));
    SignIsOrthogonal(Sign(svd));
    OrthogonalProduct(sign, svd.vt);
    OrthogonalProduct(svd.u, Times(sign, svd.vt));
    OrthogonalDeterminant(svd.u);
    OrthogonalDeterminant(svd.vt);
    RotationDeterminant(svd);
    OrthogonalWithUnitDeterminant(Rotation(svd));
  }

  // ---- The rotation aligns the covariance ----

  /** `vt^T diag(x, y) vt` is symmetric with trace `x + y`. */
  lemma ConjugatedDiagonal(vt: Matrix, x: real, y: real)
    requires Orthogonal(vt)
    ensures var m := Times(Transposed(vt), Times(Diagonal(x, y), vt));
            m.b == m.c && m.a + m.d == x + y
  {
    var m := Times(Transposed(vt), Times(Diagonal(x, y), vt));
    assert m.a == x * (vt.a * vt.a) + y * (vt.c * vt.c);
    assert m.d == x * (vt.b * vt.b) + y * (vt.d * vt.d);
    assert x * (vt.a * vt.a) + x * (vt.b * vt.b) == x * (vt.a * vt.a + vt.b * vt.b);
    assert y * (vt.c * vt.c) + y * (vt.d * vt.d) == y * (vt.c * vt.c + vt.d * vt.d);
  }

  /** `R^T A = vt^T diag(s1, sign * s2) vt`. */
  lemma RotatedCovariance(svd: Svd, m: Matrix)
    requires Decomposes(svd, m)
    ensures Times(Transposed(Rotation(svd)), m)
         == Times(Transposed(svd.vt), Times(Diagonal(svd.s1, Sign(svd) * svd.s2), svd.vt))
  {
    var sign, sizes := Diagonal(1.0, Sign(svd)), Diagonal(svd.s1, svd.s2);
    var tail := Times(sizes, svd.vt);
    TransposedProduct(svd.u, Times(sign, svd.vt));
    TransposedProduct(sign, svd.vt);
    assert Transposed(sign) == sign;
    Associates(Times(Transposed(svd.vt), sign), Transposed(svd.u), m);
    Associates(Transposed(svd.u), svd.u, tail);
    IdentityTimes(tail);
    Associates(Transposed(svd.vt), sign, tail);
    Associates(sign, sizes, svd.vt);
    assert Times(sign, sizes) == Diagonal(svd.s1, Sign(svd) * svd.s2);
  }

  /** With `R = (p -q; q p)` and `A` the covariance, the trace and the skew part of `A` are
    * `p` and `q` times the sum of the signed singular values. */
  lemma RotationFollowsCovariance(svd: Svd, m: Matrix)
    requires Decomposes(svd, m)
    ensures m.a + m.d == Product(Rotation(svd).a, SignedSum(svd))
    ensures m.c - m.b == Product(Rotation(svd).c, SignedSum(svd))
  {
    RotationIsProper(svd);
    RotatedCovariance(svd, m);
    ConjugatedDiagonal(svd.vt, svd.s1, Sign(svd) * svd.s2);
    FromTraceAndSymmetry(Rotation(svd), m, SignedSum(svd));
  }

  lemma FromTraceAndSymmetry(r: Matrix, m: Matrix, t: real)
    requires ProperRotation(r)
    requires var n := Times(Transposed(r), m); n.b == n.c && n.a + n.d == t
    ensures m.a + m.d == r.a * t && m.c - m.b == r.c * t
  {
    var p, q, trace, skew := r.a, r.c, m.a + m.d, m.c - m.b;
    assert p * trace + q * skew == t;
    assert q * trace == p * skew;
    SolvePair(p, q, trace, skew, t);
  }

  lemma SolvePair(p: real, q: real, trace: real, skew: real, t: real)
    requires p * p + q * q == 1.0 && p * trace + q * skew == t && q * trace == p * skew
    ensures trace == p * t && skew == q * t
  {
    assert p * t == p * (p * trace) + q * (p * skew);
    assert q * t == p * (q * trace) + q * (q * skew);
    assert (p * p + q * q) * trace == trace && (p * p + q * q) * skew == skew;
  }

  /** The fitted matrix never mirrors and never turns inside out: a non-negative scale times
    * a proper rotation. */
  lemma FitIsAScaledRotation(decompose: Matrix -> Svd, source: seq<Point>, target: seq<Point>)
    requires source != [] && |source| == |target|
    requires Decomposes(decompose(Covariance(source, target)), Covariance(source, target))
    ensures var svd := decompose(Covariance(source, target));
            var scale := Scale(svd, Variance(Centred(source)));
            && scale >= 0.0 && ProperRotation(Rotation(svd))
            && Fit(decompose, source, target).linear == Scaled(scale, Rotation(svd))
  {
    var svd := decompose(Covariance(source, target));
    RotationIsProper(svd);
    SquaredLengthsAreNonNegative(Centred(Centred(source)));
    QuotientIsNonNegative(SquaredLengths(Centred(Centred(source))), |source| as real);
    if Variance(Centred(source)) != 0.0 {
      QuotientIsNonNegative(SignedSum(svd), Variance(Centred(source)));
    }
  }

  lemma QuotientIsNonNegative(x: real, y: real)
    requires x >= 0.0 && y > 0.0
    ensures x / y >= 0.0
  {
  }

  lemma {:induction false} SquaredLengthsAreNonNegative(points: seq<Point>)
    ensures SquaredLengths(points) >= 0.0
  {
    if points != [] {
      SquaredLengthsAreNonNegative(points[1..]);
    }
  }

  /** And it carries the centroid of the source to the centroid of the target. */
  lemma FitMapsCentroidToCentroid(decompose: Matrix -> Svd, source: seq<Point>, target: seq<Point>)
    requires source != [] && |source| == |target|
    ensures Fit(decompose, source, target).Apply(Mean(source)) == Mean(target)
  {
    ShiftedHome(Fit(decompose, source, target).linear, Mean(source), Mean(target));
  }

  lemma ShiftedHome(linear: Matrix, from: Point, to: Point)
    ensures Affine(linear, Minus(to, MapPoint(linear, from))).Apply(from) == to
  {
  }

  // ---- Least squares ----

  /** How badly a map misses, over all the points. */
  function Residual(g: Similarity, source: seq<Point>, target: seq<Point>): real
    requires |source| == |target|
  {
    if source == [] then 0.0
    else
      var miss := Minus(target[0], g.Apply(source[0]));
      Square(miss.x) + Square(miss.y) + Residual(g, source[1..], target[1..])
  }

  /** A residual in terms of the points' moments: their number, sums `(ux, uy)` and `(x, y)`,
    * squared lengths `t2` and `x2`, and dot and cross products `c` and `d`. */
  function Expanded(a: real, b: real, rx: real, ry: real, n: real, ux: real, uy: real, x: real, y: real,
                    t2: real, x2: real, c: real, d: real): real {
    t2 + (a * a + b * b) * x2 - 2.0 * a * c - 2.0 * b * d + n * (rx * rx + ry * ry)
    + 2.0 * rx * (ux - a * x + b * y) + 2.0 * ry * (uy - b * x - a * y)
  }

  lemma ExpandedAdds(a: real, b: real, rx: real, ry: real,
                     n: real, ux: real, uy: real, x: real, y: real, t2: real, x2: real, c: real, d: real,
                     n': real, ux': real, uy': real, x': real, y': real, t2': real, x2': real, c': real, d': real)
    ensures Expanded(a, b, rx, ry, n + n', ux + ux', uy + uy', x + x', y + y', t2 + t2', x2 + x2', c + c', d + d')
         == Expanded(a, b, rx, ry, n, ux, uy, x, y, t2, x2, c, d)
            + Expanded(a, b, rx, ry, n', ux', uy', x', y', t2', x2', c', d')
  {
  }

  /** What a residual depends on: the points' number, sums, squared lengths, and dot and cross products. */
  datatype Moments = Moments(n: real, u: Point, x: Point, t2: real, x2: real, c: real, d: real) {
    function And(m: Moments): Moments {
      Moments(n + m.n, Point(u.x + m.u.x, u.y + m.u.y), Point(x.x + m.x.x, x.y + m.x.y),
              t2 + m.t2, x2 + m.x2, c + m.c, d + m.d)
    }
  }

  function MomentsOfPair(x: Point, u: Point): Moments {
    Moments(1.0, u, x, Square(u.x) + Square(u.y), Square(x.x) + Square(x.y),
            Product(u.x, x.x) + Product(u.y, x.y), Product(u.y, x.x) - Product(u.x, x.y))
  }

  function MomentsOf(source: seq<Point>, target: seq<Point>): Moments
    requires |source| == |target|
  {
    if source == [] then Moments(0.0, Point(0.0, 0.0), Point(0.0, 0.0), 0.0, 0.0, 0.0, 0.0)
    else MomentsOfPair(source[0], target[0]).And(MomentsOf(source[1..], target[1..]))
  }

  lemma {:induction false} MomentsAreSums(source: seq<Point>, target: seq<Point>)
    requires |source| == |target|
    ensures var m := MomentsOf(source, target);
            && m.n == |source| as real && m.u == Sum(target) && m.x == Sum(source)
            && m.t2 == SquaredLengths(target) && m.x2 == SquaredLengths(source)
  {
    if source != [] {
      MomentsAreSums(source[1..], target[1..]);
    }
  }

  lemma {:induction false} MomentsAreProducts(source: seq<Point>, target: seq<Point>)
    requires |source| == |target|
    ensures var m, p := MomentsOf(source, target), Products(target, source);
            m.c == p.a + p.d && m.d == p.c - p.b
  {
    if source != [] {
      MomentsAreProducts(source[1..], target[1..]);
    }
  }

  function ByMoments(a: real, b: real, r: Point, m: Moments): real {
    Expanded(a, b, r.x, r.y, m.n, m.u.x, m.u.y, m.x.x, m.x.y, m.t2, m.x2, m.c, m.d)
  }

  lemma MomentsAdd(a: real, b: real, r: Point, p: Moments, q: Moments)
    ensures ByMoments(a, b, r, p.And(q)) == ByMoments(a, b, r, p) + ByMoments(a, b, r, q)
  {
    ExpandedAdds(a, b, r.x, r.y,
                 p.n, p.u.x, p.u.y, p.x.x, p.x.y, p.t2, p.x2, p.c, p.d,
                 q.n, q.u.x, q.u.y, q.x.x, q.x.y, q.t2, q.x2, q.c, q.d);
  }

  /** How far the map misses `ot` from `os`. */
  function Miss(g: Similarity, os: Point, ot: Point): Point {
    Minus(ot, g.Apply(os))
  }

  /** How far a map with coefficients `(a, b)` misses `u` from `x`, off by `r` already. */
  function MissFrom(a: real, b: real, r: Point, x: Point, u: Point): Point {
    Point(u.x - Product(a, x.x) + Product(b, x.y) + r.x, u.y - Product(b, x.x) - Product(a, x.y) + r.y)
  }

  lemma MissAcross(a: real, b: real, d: real, ox: real, oy: real, o: real, x: real, y: real, t: real, r: real)
    requires r == o - (Product(a, ox) - Product(b, oy) + d)
    ensures t - (Product(a, x) - Product(b, y) + d) == (t - o) - Product(a, x - ox) + Product(b, y - oy) + r
  {
  }

  lemma MissAlong(a: real, b: real, d: real, ox: real, oy: real, o: real, x: real, y: real, t: real, r: real)
    requires r == o - (Product(b, ox) + Product(a, oy) + d)
    ensures t - (Product(b, x) + Product(a, y) + d) == (t - o) - Product(b, x - ox) - Product(a, y - oy) + r
  {
  }

  lemma MissesAddUp(g: Similarity, os: Point, ot: Point, s: Point, t: Point)
    ensures Miss(g, s, t) == MissFrom(g.a, g.b, Miss(g, os, ot), Minus(s, os), Minus(t, ot))
  {
    var r := Miss(g, os, ot);
    MissAcross(g.a, g.b, g.dx, os.x, os.y, ot.x, s.x, s.y, t.x, r.x);
    assert Miss(g, s, t).x == MissFrom(g.a, g.b, r, Minus(s, os), Minus(t, ot)).x;
    MissAlong(g.a, g.b, g.dy, os.x, os.y, ot.y, s.x, s.y, t.y, r.y);
  }

  lemma OneResidual(a: real, b: real, rx: real, ry: real, ux: real, uy: real, x: real, y: real)
    ensures Square(ux - Product(a, x) + Product(b, y) + rx) + Square(uy - Product(b, x) - Product(a, y) + ry)
         == Expanded(a, b, rx, ry, 1.0, ux, uy, x, y, Square(ux) + Square(uy), Square(x) + Square(y),
                     Product(ux, x) + Product(uy, y), Product(uy, x) - Product(ux, y))
  {
    RawResidual(a, b, rx, ry, ux, uy, x, y);
    assert ux - Product(a, x) + Product(b, y) + rx == ux - a * x + b * y + rx;
    assert uy - Product(b, x) - Product(a, y) + ry == uy - b * x - a * y + ry;
  }

  lemma RawResidual(a: real, b: real, rx: real, ry: real, ux: real, uy: real, x: real, y: real)
    ensures Square(ux - a * x + b * y + rx) + Square(uy - b * x - a * y + ry)
         == Expanded(a, b, rx, ry, 1.0, ux, uy, x, y, Square(ux) + Square(uy), Square(x) + Square(y),
                     Product(ux, x) + Product(uy, y), Product(uy, x) - Product(ux, y))
  {
  }

  lemma ResidualOfPair(a: real, b: real, r: Point, x: Point, u: Point)
    ensures var miss := MissFrom(a, b, r, x, u);
            Square(miss.x) + Square(miss.y) == ByMoments(a, b, r, MomentsOfPair(x, u))
  {
    OneResidual(a, b, r.x, r.y, u.x, u.y, x.x, x.y);
  }

  lemma {:induction false} ResidualExpands(g: Similarity, source: seq<Point>, target: seq<Point>, os: Point, ot: Point)
    requires |source| == |target|
    ensures Residual(g, source, target)
         == ByMoments(g.a, g.b, Miss(g, os, ot), MomentsOf(Shifted(source, os), Shifted(target, ot)))
  {
    if source != [] {
      ResidualExpands(g, source[1..], target[1..], os, ot);
      MissesAddUp(g, os, ot, source[0], target[0]);
      ResidualOfPair(g.a, g.b, Miss(g, os, ot), Minus(source[0], os), Minus(target[0], ot));
      MomentsAdd(g.a, g.b, Miss(g, os, ot), MomentsOfPair(Minus(source[0], os), Minus(target[0], ot)),
                 MomentsOf(Shifted(source[1..], os), Shifted(target[1..], ot)));
    }
  }

  lemma {:induction false} SumOfShifted(points: seq<Point>, o: Point)
    ensures Sum(Shifted(points, o))
         == Point(Sum(points).x - |points| as real * o.x, Sum(points).y - |points| as real * o.y)
  {
    if points != [] {
      SumOfShifted(points[1..], o);
    }
  }

  lemma CentredSumsToZero(points: seq<Point>)
    requires points != []
    ensures Sum(Centred(points)) == Point(0.0, 0.0)
  {
    var n := |points| as real;
    SumOfShifted(points, Mean(points));
    assert n * (Sum(points).x / n) == Sum(points).x && n * (Sum(points).y / n) == Sum(points).y;
  }

  lemma {:induction false} ShiftByNothing(points: seq<Point>)
    ensures Shifted(points, Point(0.0, 0.0)) == points
  {
    if points != [] {
      ShiftByNothing(points[1..]);
    }
  }

  /** Points already centred have the mean square as their variance. */
  lemma VarianceOfCentred(points: seq<Point>)
    requires points != []
    ensures Variance(Centred(points)) == SquaredLengths(Centred(points)) / |points| as real
  {
    CentredSumsToZero(points);
    assert Mean(Centred(points)) == Point(0.0, 0.0);
    ShiftByNothing(Centred(points));
  }

  lemma {:induction false} NoSpreadNoProducts(source: seq<Point>, target: seq<Point>)
    requires |source| == |target| && SquaredLengths(source) == 0.0
    ensures Products(target, source) == Matrix(0.0, 0.0, 0.0, 0.0)
  {
    if source != [] {
      SquaredLengthsAreNonNegative(source[1..]);
      assert source[0] == Point(0.0, 0.0);
      NoSpreadNoProducts(source[1..], target[1..]);
    }
  }

  /** The fit's coefficients `(a, b)` are the dot and cross moments over the spread, so that
    * these moments are the spread times `(a, b)`; without spread all of them vanish. */
  lemma FitSolvesTheMoments(decompose: Matrix -> Svd, source: seq<Point>, target: seq<Point>)
    requires source != [] && |source| == |target|
    requires Decomposes(decompose(Covariance(source, target)), Covariance(source, target))
    ensures var p := Products(Centred(target), Centred(source));
            var x2 := SquaredLengths(Centred(source));
            var m := Fit(decompose, source, target).linear;
            p.a + p.d == Product(x2, m.a) && p.c - p.b == Product(x2, m.c)
  {
    var m := Covariance(source, target);
    var svd := decompose(m);
    var n := |source| as real;
    var p := Products(Centred(target), Centred(source));
    var x2 := SquaredLengths(Centred(source));
    VarianceOfCentred(source);
    if x2 == 0.0 {
      NoSpreadNoProducts(Centred(source), Centred(target));
    } else {
      RotationFollowsCovariance(svd, m);
      ScaledSums(1.0 / n, p);
      SpreadTimesCoefficient(n, p.a + p.d, x2, Rotation(svd).a, SignedSum(svd), Scale(svd, x2 / n));
      SpreadTimesCoefficient(n, p.c - p.b, x2, Rotation(svd).c, SignedSum(svd), Scale(svd, x2 / n));
    }
  }

  lemma ScaledSums(k: real, m: Matrix)
    ensures Scaled(k, m).a + Scaled(k, m).d == Product(k, m.a + m.d)
    ensures Scaled(k, m).c - Scaled(k, m).b == Product(k, m.c - m.b)
  {
  }

  lemma SpreadTimesCoefficient(n: real, p: real, x2: real, r: real, t: real, k: real)
    requires n > 0.0 && x2 != 0.0 && Product(1.0 / n, p) == Product(r, t)
    requires k == if x2 / n != 0.0 then t / (x2 / n) else 1.0
    ensures p == Product(x2, Product(k, r))
  {
    var v := x2 / n;
    assert x2 == v * n;
    assert n * ((1.0 / n) * p) == p by {
      assert n * (1.0 / n) == 1.0;
    }
    assert k * v == t;
    assert p == n * (r * (k * v));
    assert n * (r * (k * v)) == (v * n) * (k * r);
  }

  /** The fitted map as a similarity. */
  function FittedMap(decompose: Matrix -> Svd, source: seq<Point>, target: seq<Point>): Similarity
    requires source != [] && |source| == |target|
  {
    var f := Fit(decompose, source, target);
    Similarity(f.linear.a, f.linear.c, f.shift.x, f.shift.y)
  }

  /** How much more the coefficients `(a, b)` and the miss `r` cost than `(fa, fb)` without a miss. */
  function Penalty(x2: real, a: real, b: real, n: real, r: Point): real {
    Product(x2, Square(a) + Square(b)) + Product(n, Square(r.x) + Square(r.y))
  }

  lemma CompletedSquares(a: real, b: real, rx: real, ry: real, n: real, t2: real, x2: real, fa: real, fb: real)
    ensures Expanded(a, b, rx, ry, n, 0.0, 0.0, 0.0, 0.0, t2, x2, x2 * fa, x2 * fb)
         == Expanded(fa, fb, 0.0, 0.0, n, 0.0, 0.0, 0.0, 0.0, t2, x2, x2 * fa, x2 * fb)
            + x2 * ((a - fa) * (a - fa) + (b - fb) * (b - fb)) + n * (rx * rx + ry * ry)
  {
  }

  lemma CompletedMoments(a: real, b: real, fa: real, fb: real, r: Point, m: Moments)
    requires m.u == m.x == Point(0.0, 0.0) && m.c == Product(m.x2, fa) && m.d == Product(m.x2, fb)
    ensures ByMoments(a, b, r, m) == ByMoments(fa, fb, Point(0.0, 0.0), m) + Penalty(m.x2, a - fa, b - fb, m.n, r)
  {
    CompletedSquares(a, b, r.x, r.y, m.n, m.t2, m.x2, fa, fb);
  }

  lemma LinearPartIsARotation(decompose: Matrix -> Svd, source: seq<Point>, target: seq<Point>)
    requires source != [] && |source| == |target|
    requires Decomposes(decompose(Covariance(source, target)), Covariance(source, target))
    ensures var f := Fit(decompose, source, target).linear;
            f.d == f.a && f.b == -f.c
  {
    FitIsAScaledRotation(decompose, source, target);
    var svd := decompose(Covariance(source, target));
    NegatedProduct(Scale(svd, Variance(Centred(source))), Rotation(svd).c);
  }

  lemma NegatedProduct(x: real, y: real)
    ensures Product(x, -y) == -Product(x, y)
  {
  }

  lemma SameMap(f: Affine, p: Point)
    requires f.linear.d == f.linear.a && f.linear.b == -f.linear.c
    ensures Similarity(f.linear.a, f.linear.c, f.shift.x, f.shift.y).Apply(p) == f.Apply(p)
  {
    assert (-f.linear.c) * p.y == -(f.linear.c * p.y);
  }

  lemma FittedMapIsTheFit(decompose: Matrix -> Svd, source: seq<Point>, target: seq<Point>, p: Point)
    requires source != [] && |source| == |target|
    requires Decomposes(decompose(Covariance(source, target)), Covariance(source, target))
    ensures FittedMap(decompose, source, target).Apply(p) == Fit(decompose, source, target).Apply(p)
  {
    LinearPartIsARotation(decompose, source, target);
    SameMap(Fit(decompose, source, target), p);
  }

  /** By how much another similarity map misses more: its coefficients' distance from the
    * fit's, weighted by the spread, and its distance from the centroid, by the count. */
  function Excess(source: seq<Point>, target: seq<Point>, f: Similarity, g: Similarity): real
    requires source != [] && |source| == |target|
  {
    Penalty(SquaredLengths(Centred(source)), g.a - f.a, g.b - f.b, |source| as real,
            Miss(g, Mean(source), Mean(target)))
  }

  lemma FitMissesNothing(decompose: Matrix -> Svd, source: seq<Point>, target: seq<Point>)
    requires source != [] && |source| == |target|
    requires Decomposes(decompose(Covariance(source, target)), Covariance(source, target))
    ensures Miss(FittedMap(decompose, source, target), Mean(source), Mean(target)) == Point(0.0, 0.0)
  {
    FittedMapIsTheFit(decompose, source, target, Mean(source));
    FitMapsCentroidToCentroid(decompose, source, target);
  }

  lemma ExcessOfAnyOtherMap(decompose: Matrix -> Svd, source: seq<Point>, target: seq<Point>, g: Similarity)
    requires source != [] && |source| == |target|
    requires Decomposes(decompose(Covariance(source, target)), Covariance(source, target))
    ensures var f := FittedMap(decompose, source, target);
            Residual(g, source, target) == Residual(f, source, target) + Excess(source, target, f, g)
  {
    var f := FittedMap(decompose, source, target);
    FitSolvesTheMoments(decompose, source, target);
    ResidualExpands(g, source, target, Mean(source), Mean(target));
    ResidualExpands(f, source, target, Mean(source), Mean(target));
    FitMissesNothing(decompose, source, target);
    CentredSumsToZero(source);
    CentredSumsToZero(target);
    MomentsAreSums(Centred(source), Centred(target));
    MomentsAreProducts(Centred(source), Centred(target));
    CompletedMoments(g.a, g.b, f.a, f.b, Miss(g, Mean(source), Mean(target)),
                     MomentsOf(Centred(source), Centred(target)));
  }

  lemma ProductIsPositive(w: real, q: real)
    requires w >= 0.0 && q >= 0.0
    ensures Product(w, q) >= 0.0
    ensures w > 0.0 && q > 0.0 ==> Product(w, q) > 0.0
  {
  }

  lemma PenaltyIsNonNegative(x2: real, a: real, b: real, n: real, r: Point)
    requires x2 >= 0.0 && n > 0.0
    ensures Penalty(x2, a, b, n, r) >= 0.0
    ensures x2 > 0.0 && Penalty(x2, a, b, n, r) == 0.0 ==> a == b == r.x == r.y == 0.0
  {
    ProductIsPositive(x2, Square(a) + Square(b));
    ProductIsPositive(n, Square(r.x) + Square(r.y));
  }

  lemma SpreadFromVariance(points: seq<Point>)
    requires points != [] && Variance(points) != 0.0
    ensures SquaredLengths(Centred(points)) > 0.0
  {
    SquaredLengthsAreNonNegative(Centred(points));
  }

  lemma SameShift(f: Similarity, g: Similarity, p: Point, q: Point)
    requires f.a == g.a && f.b == g.b && Miss(f, p, q) == Miss(g, p, q)
    ensures f == g
  {
  }

  /** No similarity map misses by less; and where the points are spread, any map that misses
    * by as little is the fit itself. */
  lemma FitIsLeastSquares(decompose: Matrix -> Svd, source: seq<Point>, target: seq<Point>, g: Similarity)
    requires source != [] && |source| == |target|
    requires Decomposes(decompose(Covariance(source, target)), Covariance(source, target))
    ensures var f := FittedMap(decompose, source, target);
            && Residual(f, source, target) <= Residual(g, source, target)
            && (Variance(source) != 0.0 && Residual(g, source, target) == Residual(f, source, target) ==> g == f)
  {
    var f := FittedMap(decompose, source, target);
    ExcessOfAnyOtherMap(decompose, source, target, g);
    SquaredLengthsAreNonNegative(Centred(source));
    PenaltyIsNonNegative(SquaredLengths(Centred(source)), g.a - f.a, g.b - f.b, |source| as real,
                         Miss(g, Mean(source), Mean(target)));
    FitMissesNothing(decompose, source, target);
    if Variance(source) != 0.0 && Residual(g, source, target) == Residual(f, source, target) {
      SpreadFromVariance(source);
      SameShift(f, g, Mean(source), Mean(target));
    }
  }

  // ---- Points in one place ----

  lemma {:induction false} NoLengthsAllAtTheOrigin(points: seq<Point>)
    requires SquaredLengths(points) == 0.0
    ensures forall i :: 0 <= i < |points| ==> points[i] == Point(0.0, 0.0)
  {
    if points != [] {
      SquaredLengthsAreNonNegative(points[1..]);
      NoLengthsAllAtTheOrigin(points[1..]);
      forall i | 0 <= i < |points| ensures points[i] == Point(0.0, 0.0) {
        assert i > 0 ==> points[i] == points[1..][i - 1];
      }
    }
  }

  lemma {:induction false} AllAtTheOriginNoLengths(points: seq<Point>)
    requires forall i :: 0 <= i < |points| ==> points[i] == Point(0.0, 0.0)
    ensures SquaredLengths(points) == 0.0
  {
    if points != [] {
      AllAtTheOriginNoLengths(points[1..]);
      assert Square(0.0) == 0.0;
    }
  }

  lemma MoreOfTheSame(n: real, x: real)
    ensures x + n * x == (n + 1.0) * x
  {
  }

  lemma {:induction false} SumOfCopies(points: seq<Point>, p: Point)
    requires forall i :: 0 <= i < |points| ==> points[i] == p
    ensures Sum(points) == Point(|points| as real * p.x, |points| as real * p.y)
  {
    if points != [] {
      SumOfCopies(points[1..], p);
      MoreOfTheSame(|points[1..]| as real, p.x);
      MoreOfTheSame(|points[1..]| as real, p.y);
    }
  }

  lemma MeanOfCopies(points: seq<Point>, p: Point)
    requires points != [] && forall i :: 0 <= i < |points| ==> points[i] == p
    ensures Mean(points) == p
  {
    SumOfCopies(points, p);
    CopiesOver(|points| as real, p.x);
    CopiesOver(|points| as real, p.y);
  }

  lemma CopiesOver(n: real, x: real)
    requires n != 0.0
    ensures (n * x) / n == x
  {
  }

  /** There is spread exactly where two of the points differ. */
  lemma SpreadExactlyWhen(points: seq<Point>)
    requires points != []
    ensures Variance(points) != 0.0 <==> exists i :: 0 <= i < |points| && points[i] != points[0]
  {
    if forall i :: 0 <= i < |points| ==> points[i] == points[0] {
      MeanOfCopies(points, points[0]);
      AllAtTheOriginNoLengths(Centred(points));
    } else if Variance(points) == 0.0 {
      assert SquaredLengths(Centred(points)) == Variance(points) * |points| as real;
      NoLengthsAllAtTheOrigin(Centred(points));
    }
  }

  /** Without spread the fit keeps sizes: it only turns and shifts. */
  lemma WithoutSpreadSizesStay(decompose: Matrix -> Svd, source: seq<Point>, target: seq<Point>)
    requires source != [] && |source| == |target| && forall i :: 0 <= i < |source| ==> source[i] == source[0]
    requires Decomposes(decompose(Covariance(source, target)), Covariance(source, target))
    ensures ProperRotation(Fit(decompose, source, target).linear)
  {
    MeanOfCopies(source, source[0]);
    AllAtTheOriginNoLengths(Centred(source));
    VarianceOfCentred(source);
    FitIsAScaledRotation(decompose, source, target);
    ScaledByOne(Rotation(decompose(Covariance(source, target))));
  }

  lemma ScaledByOne(m: Matrix)
    ensures Scaled(1.0, m) == m
  {
  }
}
