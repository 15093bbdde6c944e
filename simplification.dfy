/**
 * simplifyContour: reduce a convex hull to at most numPoints vertices by
 * repeated polygon approximation (approxPolyDP) with a tolerance that starts
 * at 5 and grows by 1 per round.
 */
module Simplification {
  import opened Geometry

  /** SIMPLFIICATION_START_EPSILON: the first approximation tolerance. */
  const StartEpsilon: int := 5

  /** approxPolyDP applied to a closed polygon with a given tolerance (foreign code). */
  type Approx = (seq<Point>, int) -> seq<Point>

  /** The polygon after `rounds` approximation rounds with tolerances eps, eps + 1, ... */
  function Iterate(approx: Approx, s: seq<Point>, eps: int, rounds: nat): seq<Point>
    decreases rounds
  {
    if rounds == 0 then s else Iterate(approx, approx(s, eps), eps + 1, rounds - 1)
  }

  /** One more round extends the sequence of rounds at its end. */
  lemma {:induction false} IterateLast(approx: Approx, s: seq<Point>, eps: int, rounds: nat)
    ensures Iterate(approx, s, eps, rounds + 1) == approx(Iterate(approx, s, eps, rounds), eps + rounds)
    decreases rounds
  {
    if rounds > 0 {
      IterateLast(approx, approx(s, eps), eps + 1, rounds - 1);
    }
  }

  /**
   * From tolerance `bound` on, approxPolyDP leaves at most numPoints vertices
   * of any polygon. Without such a bound the source's loop need not end.
   */
  ghost predicate Settles(approx: Approx, numPoints: int, bound: int)
  {
    forall s, e :: bound <= e ==> |approx(s, e)| <= numPoints
  }

  /**
   * simple is the outcome of simplifyContour on `hull` and eps the tolerance it
   * reports: eps - 5 rounds were applied, the result has at most numPoints
   * vertices, and every earlier round still had more.
   */
  ghost predicate IsSimplification(approx: Approx, hull: seq<Point>, numPoints: int, simple: seq<Point>, eps: int)
  {
    && eps >= StartEpsilon
    && simple == Iterate(approx, hull, StartEpsilon, eps - StartEpsilon)
    && |simple| <= numPoints
    && forall n :: 0 <= n < eps - StartEpsilon ==> |Iterate(approx, hull, StartEpsilon, n)| > numPoints
  }

  /** Rounds simplifyContour applies to s from tolerance eps on, looking at most `fuel` rounds ahead. */
  ghost function Rounds(approx: Approx, s: seq<Point>, numPoints: int, eps: int, fuel: nat): nat
    decreases fuel
  {
    if |s| <= numPoints || fuel == 0 then 0
    else 1 + Rounds(approx, approx(s, eps), numPoints, eps + 1, fuel - 1)
  }

  /** Enough rounds for every hull: the round with tolerance `bound` is always the last. */
  function Fuel(bound: int): nat
  {
    if bound <= StartEpsilon then 1 else bound - StartEpsilon + 1
  }

  /** The tolerance simplifyContour reports when approxPolyDP settles from `bound` on. */
  ghost function SimplifiedEps(approx: Approx, hull: seq<Point>, numPoints: int, bound: int): int
  {
    StartEpsilon + Rounds(approx, hull, numPoints, StartEpsilon, Fuel(bound))
  }

  /** The polygon simplifyContour returns when approxPolyDP settles from `bound` on. */
  ghost function Simplified(approx: Approx, hull: seq<Point>, numPoints: int, bound: int): seq<Point>
  {
    Iterate(approx, hull, StartEpsilon, SimplifiedEps(approx, hull, numPoints, bound) - StartEpsilon)
  }

  /** Rounds counts up to the first round whose result is small enough. */
  lemma {:induction false} RoundsOfFirstSmall(approx: Approx, s: seq<Point>, numPoints: int, eps: int, fuel: nat, k: nat)
    requires k <= fuel
    requires forall j :: 0 <= j < k ==> |Iterate(approx, s, eps, j)| > numPoints
    requires |Iterate(approx, s, eps, k)| <= numPoints
    ensures Rounds(approx, s, numPoints, eps, fuel) == k
    decreases k
  {
    if k > 0 {
      assert |Iterate(approx, s, eps, 0)| > numPoints;
      var next, nextEps := approx(s, eps), eps + 1;
      forall j | 0 <= j < k - 1
        ensures |Iterate(approx, next, nextEps, j)| > numPoints
      {
        assert Iterate(approx, s, eps, j + 1) == Iterate(approx, next, nextEps, j);
      }
      assert Iterate(approx, s, eps, k) == Iterate(approx, next, nextEps, k - 1);
      RoundsOfFirstSmall(approx, next, numPoints, nextEps, fuel - 1, k - 1);
    }
  }

  /**
   * Once approxPolyDP settles, Rounds stops at a small enough polygon, and
   * every earlier round was still too large.
   */
  lemma {:induction false} RoundsReachSmall(approx: Approx, s: seq<Point>, numPoints: int, eps: int, fuel: nat, bound: int)
    requires Settles(approx, numPoints, bound)
    requires |s| <= numPoints || (fuel >= 1 && eps + fuel - 1 >= bound)
    ensures forall j :: 0 <= j < Rounds(approx, s, numPoints, eps, fuel) ==> |Iterate(approx, s, eps, j)| > numPoints
    ensures |Iterate(approx, s, eps, Rounds(approx, s, numPoints, eps, fuel))| <= numPoints
    decreases fuel
  {
    if |s| > numPoints {
      var next, nextEps := approx(s, eps), eps + 1;
      RoundsReachSmall(approx, next, numPoints, nextEps, fuel - 1, bound);
      var k := Rounds(approx, s, numPoints, eps, fuel);
      forall j | 0 <= j < k
        ensures |Iterate(approx, s, eps, j)| > numPoints
      {
        if j > 0 {
          assert Iterate(approx, s, eps, j) == Iterate(approx, next, nextEps, j - 1);
        }
      }
      assert Iterate(approx, s, eps, k) == Iterate(approx, next, nextEps, k - 1);
    }
  }

  /** Simplified and SimplifiedEps have the properties simplifyContour promises. */
  lemma SimplifiedIsSimplification(approx: Approx, hull: seq<Point>, numPoints: int, bound: int)
    requires Settles(approx, numPoints, bound)
    ensures IsSimplification(approx, hull, numPoints, Simplified(approx, hull, numPoints, bound),
                             SimplifiedEps(approx, hull, numPoints, bound))
  {
    RoundsReachSmall(approx, hull, numPoints, StartEpsilon, Fuel(bound), bound);
  }

  /**
   * The outcome of simplifyContour is determined by its input: any simple and
   * eps with the IsSimplification property are Simplified and SimplifiedEps.
   */
  lemma SimplificationIsDetermined(approx: Approx, hull: seq<Point>, numPoints: int, bound: int, simple: seq<Point>, eps: int)
    requires Settles(approx, numPoints, bound)
    requires IsSimplification(approx, hull, numPoints, simple, eps)
    ensures eps == SimplifiedEps(approx, hull, numPoints, bound)
    ensures simple == Simplified(approx, hull, numPoints, bound)
  {
    var j := Fuel(bound);
    IterateLast(approx, hull, StartEpsilon, j - 1);
    assert |Iterate(approx, hull, StartEpsilon, j)| <= numPoints;
    RoundsOfFirstSmall(approx, hull, numPoints, StartEpsilon, j, eps - StartEpsilon);
  }

  /**
   * The loop of simplifyContour on the convex hull of the contour. The
   * reported eps is the start tolerance plus the number of rounds, that is
   * one more than the last tolerance applied; it is exactly 5 when the hull
   * was already small enough.
   */
  method SimplifyContour(hull: seq<Point>, numPoints: int, approx: Approx, ghost bound: int)
    returns (simple: seq<Point>, eps: int)
    requires Settles(approx, numPoints, bound)
    ensures IsSimplification(approx, hull, numPoints, simple, eps)
    ensures simple == Simplified(approx, hull, numPoints, bound)
    ensures eps == SimplifiedEps(approx, hull, numPoints, bound)
    ensures eps == StartEpsilon <==> |hull| <= numPoints
    ensures eps > StartEpsilon ==> simple == approx(Iterate(approx, hull, StartEpsilon, eps - StartEpsilon - 1), eps - 1)
  {
    simple := hull;
    eps := StartEpsilon;
    ghost var limit := if bound < StartEpsilon then StartEpsilon else bound;
    while |simple| > numPoints
      invariant eps >= StartEpsilon
      invariant simple == Iterate(approx, hull, StartEpsilon, eps - StartEpsilon)
      invariant forall n :: 0 <= n < eps - StartEpsilon ==> |Iterate(approx, hull, StartEpsilon, n)| > numPoints
      invariant eps > StartEpsilon && eps - 1 >= bound ==> |simple| <= numPoints
      decreases (if |simple| > numPoints then 1 else 0) + (if eps < limit then limit - eps else 0)
    {
      IterateLast(approx, hull, StartEpsilon, eps - StartEpsilon);
      simple := approx(simple, eps);
      eps := eps + 1;
    }
    if eps > StartEpsilon {
      IterateLast(approx, hull, StartEpsilon, eps - StartEpsilon - 1);
    }
    SimplificationIsDetermined(approx, hull, numPoints, bound, simple, eps);
  }
}
