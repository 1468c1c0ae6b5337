/** Points of the plane, the maps that keep shapes, and the arithmetic their proofs rest on. */
module Geometry {
  datatype Point = Point(x: real, y: real)

  /** `p -> (a -b; b a) p + (dx, dy)`: a rotation, a uniform scale and a shift. */
  datatype Similarity = Similarity(a: real, b: real, dx: real, dy: real) {
    function Apply(p: Point): Point {
      Point(Product(a, p.x) - Product(b, p.y) + dx, Product(b, p.x) + Product(a, p.y) + dy)
    }
  }

  function Minus(p: Point, q: Point): Point {
    Point(p.x - q.x, p.y - q.y)
  }

  function Midpoint(p: Point, q: Point): Point {
    Point((p.x + q.x) / 2.0, (p.y + q.y) / 2.0)
  }

  function Sum(points: seq<Point>): Point {
    if points == [] then Point(0.0, 0.0)
    else Point(points[0].x + Sum(points[1..]).x, points[0].y + Sum(points[1..]).y)
  }

  function Mean(points: seq<Point>): Point
    requires points != []
  {
    Point(Sum(points).x / |points| as real, Sum(points).y / |points| as real)
  }

  // ---- Products of real numbers ----

  lemma CancelFactor(k: real, x: real, y: real)
    requires k != 0.0 && k * x == k * y
    ensures x == y
  {
    assert k * (x - y) == 0.0;
  }

  lemma ScaledQuotient(k: real, x: real, y: real)
    requires k != 0.0 && y != 0.0
    ensures k * y != 0.0 && (k * x) / (k * y) == x / y
  {
    var q := x / y;
    assert q * y == x;
    assert (k * y) * q == k * x;
    if k * y == 0.0 {
      CancelFactor(k, y, 0.0);
    }
  }

  lemma SameSquareSameRoot(x: real, y: real)
    requires x >= 0.0 && y >= 0.0 && x * x == y * y
    ensures x == y
  {
    assert (x + y) * (x - y) == 0.0;
    if x + y != 0.0 {
      CancelFactor(x + y, x - y, 0.0);
    }
  }

  /** A product kept apart from its operator. */
  function Product(x: real, y: real): real {
    x * y
  }

  lemma SameSigns(x: real, y: real)
    requires (x > 0.0 && y > 0.0) || (x < 0.0 && y < 0.0)
    ensures Product(x, y) > 0.0
  {
  }

  lemma SquareIsPositive(x: real)
    ensures x * x >= 0.0
    ensures x != 0.0 ==> x * x > 0.0
    ensures Product(x, x) >= 0.0
    ensures x != 0.0 ==> Product(x, x) > 0.0
  {
    if x != 0.0 {
      SameSigns(x, x);
      assert Product(x, x) == x * x;
    }
  }

  /** A square, known by its sign alone. */
  function Square(x: real): (r: real)
    ensures r >= 0.0
    ensures x != 0.0 ==> r > 0.0
  {
    SquareIsPositive(x);
    Product(x, x)
  }
}
