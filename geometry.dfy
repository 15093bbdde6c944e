/**
 * Integer image geometry of the detector: points, squared distances, the
 * signed side test, and the intersection of two lines through corner points.
 * Image coordinates grow to the right (x) and downwards (y).
 */
module Geometry {

  datatype Point = Point(x: int, y: int)

  function Sub(p: Point, q: Point): Point
  {
    Point(p.x - q.x, p.y - q.y)
  }

  function Dot(u: Point, v: Point): int
  {
    u.x * v.x + u.y * v.y
  }

  lemma SquareSumZero(a: int, b: int)
    ensures a * a + b * b >= 0
    ensures a * a + b * b == 0 <==> a == 0 && b == 0
  {
    if a != 0 {
      assert a * a > 0 by {
        if a > 0 { assert a * a >= a; } else { assert a * a == (-a) * (-a); assert (-a) * (-a) >= -a; }
      }
    }
    if b != 0 {
      assert b * b > 0 by {
        if b > 0 { assert b * b >= b; } else { assert b * b == (-b) * (-b); assert (-b) * (-b) >= -b; }
      }
    }
  }

  /** Squared Euclidean distance of two points (distanceSQ). */
  function DistanceSQ(p0: Point, p1: Point): (d: int)
    ensures d >= 0
    ensures d == 0 <==> p0 == p1
  {
    var d := Sub(p1, p0);
    SquareSumZero(d.x, d.y);
    assert d == Point(0, 0) <==> p0 == p1;
    Dot(d, d)
  }

  lemma DistanceSQSymmetric(p0: Point, p1: Point)
    ensures DistanceSQ(p0, p1) == DistanceSQ(p1, p0)
  {
    var u, v := p1.x - p0.x, p1.y - p0.y;
    assert (-u) * (-u) == u * u && (-v) * (-v) == v * v;
  }

  /**
   * Side of q relative to the directed line p0 -> p1 (orientation): the dot
   * product of q - p0 with the normal (p1.y - p0.y, p0.x - p1.x). Negative
   * means that q lies on the right-hand side of the line as seen in the image.
   */
  function Orientation(p0: Point, p1: Point, q: Point): (r: int)
    ensures q == p0 || q == p1 ==> r == 0
  {
    Dot(Sub(q, p0), Point(p1.y - p0.y, p0.x - p1.x))
  }

  lemma OrientationSwap(p0: Point, p1: Point, q: Point)
    ensures Orientation(p1, p0, q) == -Orientation(p0, p1, q)
  {
    var a, b := q.x - p0.x, q.y - p0.y;
    var u, v := p1.x - p0.x, p1.y - p0.y;
    assert Orientation(p0, p1, q) == a * v - b * u;
    assert Orientation(p1, p0, q) == (a - u) * (-v) + (b - v) * u;
    assert (a - u) * (-v) == -(a * v) + u * v;
    assert (b - v) * u == b * u - v * u;
  }

  lemma OrientationCyclic(p0: Point, p1: Point, q: Point)
    ensures Orientation(p1, q, p0) == Orientation(p0, p1, q)
  {
    var a, b := q.x - p0.x, q.y - p0.y;
    var u, v := p1.x - p0.x, p1.y - p0.y;
    assert Orientation(p0, p1, q) == a * v - b * u;
    assert Orientation(p1, q, p0) == (-u) * (b - v) + (-v) * (u - a);
    assert (-u) * (b - v) == -(u * b) + u * v;
    assert (-v) * (u - a) == -(v * u) + v * a;
  }

  /**
   * The meaning of the sign: walking down the image (towards larger y), the
   * right-hand side is the side of smaller x, and that is where the
   * orientation is negative.
   */
  lemma OrientationRightOfDownwardLine(p0: Point, d: int, q: Point)
    requires d > 0
    ensures Orientation(p0, Point(p0.x, p0.y + d), q) < 0 <==> q.x < p0.x
    ensures Orientation(p0, Point(p0.x, p0.y + d), q) == 0 <==> q.x == p0.x
  {
    var o := Orientation(p0, Point(p0.x, p0.y + d), q);
    assert o == (q.x - p0.x) * d;
    if q.x < p0.x {
      assert (p0.x - q.x) * d > 0;
    } else if q.x > p0.x {
      assert (q.x - p0.x) * d > 0;
    }
  }

  /** A quarter turn of the image plane about the origin. */
  function Rotate(p: Point): Point
  {
    Point(-p.y, p.x)
  }

  lemma RotationKeepsDistance(p0: Point, p1: Point)
    ensures DistanceSQ(Rotate(p0), Rotate(p1)) == DistanceSQ(p0, p1)
  {
    var u, v := p1.x - p0.x, p1.y - p0.y;
    assert (-(p1.y) - -(p0.y)) == -v;
    assert (-v) * (-v) == v * v;
  }

  lemma RotationKeepsOrientation(p0: Point, p1: Point, q: Point)
    ensures Orientation(Rotate(p0), Rotate(p1), Rotate(q)) == Orientation(p0, p1, q)
  {
    var a, b := q.x - p0.x, q.y - p0.y;
    var u, v := p1.x - p0.x, p1.y - p0.y;
    assert Orientation(p0, p1, q) == a * v - b * u;
    assert Orientation(Rotate(p0), Rotate(p1), Rotate(q)) == (-b) * u + a * v;
  }

  // ---------------------------------------------------------------------
  // Line intersection (intersect). The source computes in double precision;
  // here the same formulas are evaluated over the reals.
  // ---------------------------------------------------------------------

  /** Conversion of a real to int as static_cast does it: towards zero. */
  function Trunc(r: real): (t: int)
    ensures r >= 0.0 ==> t as real <= r < t as real + 1.0
    ensures r < 0.0 ==> t as real - 1.0 < r <= t as real
  {
    if r >= 0.0 then r.Floor else -((-r).Floor)
  }

  /** (X, Y) lies on the line through p0 and p1 (or p0 == p1). */
  ghost predicate OnLine(p0: Point, p1: Point, X: real, Y: real)
  {
    (X - p0.x as real) * (p1.y - p0.y) as real == (Y - p0.y as real) * (p1.x - p0.x) as real
  }

  function Slope(p0: Point, p1: Point): (m: real)
    requires p1.x != p0.x
    ensures m * (p1.x - p0.x) as real == (p1.y - p0.y) as real
  {
    (p1.y - p0.y) as real / (p1.x - p0.x) as real
  }

  /**
   * The divisions the source performs are by non-zero values: two vertical
   * lines (one of them not horizontal) and two parallel sloped lines are
   * excluded.
   */
  predicate IntersectDefined(a0: Point, a1: Point, c0: Point, c1: Point)
  {
    if c1.x == c0.x then a1.y != a0.y ==> a1.x != a0.x
    else if a1.x == a0.x then true
    else Slope(a0, a1) != Slope(c0, c1)
  }

  /** Lines a0a1 and c0c1 are not parallel (their direction vectors are independent). */
  predicate NonParallel(a0: Point, a1: Point, c0: Point, c1: Point)
  {
    (a1.x - a0.x) * (c1.y - c0.y) != (a1.y - a0.y) * (c1.x - c0.x)
  }

  lemma OnSlopedLine(p0: Point, p1: Point, X: real, Y: real)
    requires p1.x != p0.x
    requires Y - p0.y as real == Slope(p0, p1) * (X - p0.x as real)
    ensures OnLine(p0, p1, X, Y)
  {
    var m, dx := Slope(p0, p1), (p1.x - p0.x) as real;
    calc {
      (Y - p0.y as real) * dx;
      m * (X - p0.x as real) * dx;
      (X - p0.x as real) * (m * dx);
    }
  }

  lemma OnVerticalLine(p0: Point, p1: Point, X: real, Y: real)
    requires p1.x == p0.x && X == p0.x as real
    ensures OnLine(p0, p1, X, Y)
  {
  }

  lemma OnHorizontalLine(p0: Point, p1: Point, X: real, Y: real)
    requires p1.y == p0.y && Y == p0.y as real
    ensures OnLine(p0, p1, X, Y)
  {
  }

  /** The point, before conversion to int, that each branch of intersect computes. */
  function Crossing(a0: Point, a1: Point, c0: Point, c1: Point): (r: (real, real))
    requires IntersectDefined(a0, a1, c0, c1)
    ensures OnLine(a0, a1, r.0, r.1) && OnLine(c0, c1, r.0, r.1)
  {
    if c1.x == c0.x then
      if a1.y != a0.y then
        var mA := Slope(a0, a1);
        var bA := a0.y as real - mA * a0.x as real;
        var y := mA * c1.x as real + bA;
        OnSlopedLine(a0, a1, c1.x as real, y);
        OnVerticalLine(c0, c1, c1.x as real, y);
        (c1.x as real, y)
      else
        OnHorizontalLine(a0, a1, c1.x as real, a1.y as real);
        OnVerticalLine(c0, c1, c1.x as real, a1.y as real);
        (c1.x as real, a1.y as real)
    else if a1.x == a0.x then
      if c1.y != c0.y then
        var mC := Slope(c0, c1);
        var bC := c0.y as real - mC * c0.x as real;
        var y := mC * a0.x as real + bC;
        OnSlopedLine(c0, c1, a1.x as real, y);
        OnVerticalLine(a0, a1, a1.x as real, y);
        (a1.x as real, y)
      else
        OnHorizontalLine(c0, c1, a1.x as real, c1.y as real);
        OnVerticalLine(a0, a1, a1.x as real, c1.y as real);
        (a1.x as real, c1.y as real)
    else
      var mA := Slope(a0, a1);
      var mC := Slope(c0, c1);
      var bA := a0.y as real - mA * a0.x as real;
      var bC := c0.y as real - mC * c0.x as real;
      var x := (bC - bA) / (mA - mC);
      var y := mC * x + bC;
      assert (mA - mC) * x == bC - bA;
      assert y == mA * x + bA;
      OnSlopedLine(a0, a1, x, y);
      OnSlopedLine(c0, c1, x, y);
      (x, y)
  }

  /**
   * intersect: the crossing of line a0a1 with line c0c1, each coordinate
   * converted to int. A vertical c0c1 fixes x to c1.x; otherwise a vertical
   * a0a1 fixes x to a1.x; a horizontal partner fixes y directly.
   */
  function Intersect(a0: Point, a1: Point, c0: Point, c1: Point): (r: Point)
    requires IntersectDefined(a0, a1, c0, c1)
    ensures c1.x == c0.x ==> r.x == c1.x
    ensures c1.x == c0.x && a1.y == a0.y ==> r == Point(c1.x, a1.y)
    ensures c1.x != c0.x && a1.x == a0.x ==> r.x == a1.x
    ensures c1.x != c0.x && a1.x == a0.x && c1.y == c0.y ==> r == Point(a1.x, c1.y)
  {
    var p := Crossing(a0, a1, c0, c1);
    Point(Trunc(p.0), Trunc(p.1))
  }

  lemma NonParallelIsDefined(a0: Point, a1: Point, c0: Point, c1: Point)
    requires NonParallel(a0, a1, c0, c1)
    ensures IntersectDefined(a0, a1, c0, c1)
  {
    if c1.x != c0.x && a1.x != a0.x {
      var mA, mC := Slope(a0, a1), Slope(c0, c1);
      var dax, day := (a1.x - a0.x) as real, (a1.y - a0.y) as real;
      var dcx, dcy := (c1.x - c0.x) as real, (c1.y - c0.y) as real;
      assert ((a1.x - a0.x) * (c1.y - c0.y)) as real == dax * dcy;
      assert ((a1.y - a0.y) * (c1.x - c0.x)) as real == day * dcx;
      calc {
        dax * dcy - day * dcx;
        dax * (mC * dcx) - (mA * dax) * dcx;
        dax * dcx * (mC - mA);
      }
    }
  }

  lemma NonParallelDeterminant(a0: Point, a1: Point, c0: Point, c1: Point)
    requires NonParallel(a0, a1, c0, c1)
    ensures (a1.x - a0.x) as real * (c1.y - c0.y) as real - (a1.y - a0.y) as real * (c1.x - c0.x) as real != 0.0
  {
    assert ((a1.x - a0.x) * (c1.y - c0.y)) as real == (a1.x - a0.x) as real * (c1.y - c0.y) as real;
    assert ((a1.y - a0.y) * (c1.x - c0.x)) as real == (a1.y - a0.y) as real * (c1.x - c0.x) as real;
  }

  lemma UniqueSolution(dax: real, day: real, dcx: real, dcy: real, dx: real, dy: real)
    requires dx * day == dy * dax && dx * dcy == dy * dcx
    requires dax * dcy - day * dcx != 0.0
    ensures dx == 0.0 && dy == 0.0
  {
    var det := dax * dcy - day * dcx;
    assert dx * det == 0.0 by {
      calc {
        dx * det;
        (dx * dcy) * dax - (dx * day) * dcx;
        (dy * dcx) * dax - (dy * dax) * dcx;
        0.0;
      }
    }
    assert dy * det == 0.0 by {
      calc {
        dy * det;
        (dy * dax) * dcy - (dy * dcx) * day;
        (dx * day) * dcy - (dx * dcy) * day;
        0.0;
      }
    }
  }

  lemma OnLineDifference(p0: Point, p1: Point, X: real, Y: real, U: real, V: real)
    requires OnLine(p0, p1, X, Y) && OnLine(p0, p1, U, V)
    ensures (X - U) * (p1.y - p0.y) as real == (Y - V) * (p1.x - p0.x) as real
  {
    var dx, dy := (p1.x - p0.x) as real, (p1.y - p0.y) as real;
    calc {
      (X - U) * dy;
      (X - p0.x as real) * dy - (U - p0.x as real) * dy;
      (Y - p0.y as real) * dx - (V - p0.y as real) * dx;
      (Y - V) * dx;
    }
  }

  /**
   * Two lines that are not parallel meet in one point only, so intersect
   * returns that point, truncated towards zero.
   */
  lemma {:induction false} IntersectIsTruncatedCrossing(a0: Point, a1: Point, c0: Point, c1: Point, X: real, Y: real)
    requires NonParallel(a0, a1, c0, c1)
    requires OnLine(a0, a1, X, Y) && OnLine(c0, c1, X, Y)
    ensures IntersectDefined(a0, a1, c0, c1)
    ensures Intersect(a0, a1, c0, c1) == Point(Trunc(X), Trunc(Y))
  {
    NonParallelIsDefined(a0, a1, c0, c1);
    var p := Crossing(a0, a1, c0, c1);
    assert X == p.0 && Y == p.1 by {
      OnLineDifference(a0, a1, X, Y, p.0, p.1);
      OnLineDifference(c0, c1, X, Y, p.0, p.1);
      NonParallelDeterminant(a0, a1, c0, c1);
      UniqueSolution((a1.x - a0.x) as real, (a1.y - a0.y) as real, (c1.x - c0.x) as real, (c1.y - c0.y) as real, X - p.0, Y - p.1);
    }
  }

  /** The two worked cases: crossing diagonals, and a vertical line against a sloped one. */
  lemma IntersectExamples()
    ensures Intersect(Point(0, 0), Point(2, 2), Point(0, 2), Point(2, 0)) == Point(1, 1)
    ensures Intersect(Point(5, 0), Point(5, 10), Point(0, 3), Point(10, 7)) == Point(5, 5)
  {
    assert Slope(Point(0, 0), Point(2, 2)) == 1.0;
    assert Slope(Point(0, 2), Point(2, 0)) == -1.0;
    assert Slope(Point(0, 3), Point(10, 7)) == 0.4;
  }
}
