/**
 * The integer decisions of extractQRCode: which marker plays which role,
 * where on the simplified hull the corner sequence starts, and which hull
 * vertices become the code's corners.
 */
module Corners {
  import opened Geometry
  import opened Arithmetic

  // ---------------------------------------------------------------------
  // Role selection (idxC)
  // ---------------------------------------------------------------------

  /** The centroid pairs in the order the source compares them: (0,2), (0,1), (1,2). */
  function PairFirst(k: nat): nat
    requires k < 3
  {
    if k == 2 then 1 else 0
  }

  function PairSecond(k: nat): nat
    requires k < 3
  {
    if k == 1 then 1 else 2
  }

  /** The centroid that is not part of pair k. */
  function Third(k: nat): nat
    requires k < 3
  {
    if k == 0 then 1 else if k == 1 then 2 else 0
  }

  function PairDistance(m: seq<Point>, k: nat): int
    requires |m| == 3 && k < 3
  {
    DistanceSQ(m[PairFirst(k)], m[PairSecond(k)])
  }

  /**
   * Pair k has the largest squared distance, and every pair compared before
   * it is strictly shorter (the later comparisons are strict, so ties keep
   * the earlier pair).
   */
  predicate IsFarthestPair(m: seq<Point>, k: nat)
    requires |m| == 3
  {
    && k < 3
    && (forall l :: 0 <= l < 3 ==> PairDistance(m, l) <= PairDistance(m, k))
    && (forall l :: 0 <= l < k ==> PairDistance(m, l) < PairDistance(m, k))
  }

  function FarthestPair(m: seq<Point>): (k: nat)
    requires |m| == 3
    ensures IsFarthestPair(m, k)
  {
    var d02, d01, d12 := PairDistance(m, 0), PairDistance(m, 1), PairDistance(m, 2);
    if d12 > d02 && d12 > d01 then 2 else if d01 > d02 then 1 else 0
  }

  /**
   * idxC of extractQRCode, computed as the source does: the running maximum
   * starts with pair (0,2) and is replaced only by a strictly longer pair.
   * The result is an endpoint of the farthest pair; it is the pair's first
   * endpoint exactly when the remaining centroid has negative orientation
   * with respect to the pair.
   */
  function RoleIndex(m: seq<Point>): (idxC: nat)
    requires |m| == 3
    ensures idxC < 3
    ensures var k := FarthestPair(m);
      && (idxC == PairFirst(k) || idxC == PairSecond(k))
      && (idxC == PairFirst(k) <==> Orientation(m[PairFirst(k)], m[PairSecond(k)], m[Third(k)]) < 0)
  {
    var maxDist0 := DistanceSQ(m[0], m[2]);
    var idx0 := if Orientation(m[0], m[2], m[1]) < 0 then 0 else 2;
    var dist := DistanceSQ(m[0], m[1]);
    var maxDist1 := if dist > maxDist0 then dist else maxDist0;
    var idx1 := if dist > maxDist0 then (if Orientation(m[0], m[1], m[2]) < 0 then 0 else 1) else idx0;
    if DistanceSQ(m[1], m[2]) > maxDist1 then
      (if Orientation(m[1], m[2], m[0]) < 0 then 1 else 2)
    else idx1
  }

  /** The other endpoint of the farthest pair. */
  function Partner(m: seq<Point>): nat
    requires |m| == 3
  {
    var k := FarthestPair(m);
    if RoleIndex(m) == PairFirst(k) then PairSecond(k) else PairFirst(k)
  }

  predicate Collinear(m: seq<Point>)
    requires |m| == 3
  {
    Orientation(m[0], m[1], m[2]) == 0
  }

  lemma {:induction false} OrientationOfPairs(m: seq<Point>)
    requires |m| == 3
    ensures Orientation(m[0], m[2], m[1]) == -Orientation(m[0], m[1], m[2])
    ensures Orientation(m[1], m[2], m[0]) == Orientation(m[0], m[1], m[2])
  {
    OrientationCyclic(m[0], m[1], m[2]);
    OrientationCyclic(m[2], m[0], m[1]);
    OrientationSwap(m[2], m[0], m[1]);
  }

  /**
   * Seen from the selected marker towards the other end of the farthest pair,
   * the third marker lies on the right-hand side, whenever the three
   * centroids are not collinear.
   */
  lemma {:induction false} RoleFacesThirdOnRight(m: seq<Point>)
    requires |m| == 3 && !Collinear(m)
    ensures Orientation(m[RoleIndex(m)], m[Partner(m)], m[Third(FarthestPair(m))]) < 0
  {
    var k := FarthestPair(m);
    var p, q, o := PairFirst(k), PairSecond(k), Third(k);
    OrientationOfPairs(m);
    assert Orientation(m[p], m[q], m[o]) != 0;
    OrientationSwap(m[p], m[q], m[o]);
  }

  function RotateAll(m: seq<Point>): (r: seq<Point>)
    ensures |r| == |m|
    ensures forall i :: 0 <= i < |m| ==> r[i] == Rotate(m[i])
  {
    if m == [] then [] else [Rotate(m[0])] + RotateAll(m[1..])
  }

  /** Turning the image by a quarter turn does not change which marker is selected. */
  lemma {:induction false} RoleIndexUnderRotation(m: seq<Point>)
    requires |m| == 3
    ensures RoleIndex(RotateAll(m)) == RoleIndex(m)
  {
    var r := RotateAll(m);
    RotationKeepsDistance(m[0], m[2]);
    RotationKeepsDistance(m[0], m[1]);
    RotationKeepsDistance(m[1], m[2]);
    RotationKeepsOrientation(m[0], m[2], m[1]);
    RotationKeepsOrientation(m[0], m[1], m[2]);
    RotationKeepsOrientation(m[1], m[2], m[0]);
  }

  // ---------------------------------------------------------------------
  // Start anchor on the simplified hull
  // ---------------------------------------------------------------------

  /**
   * Vertex j of the marker is within eps of hull vertex i, and the marker's
   * next vertex lies strictly right of the hull edge from i to i + 1.
   */
  predicate MatchesAt(hull: seq<Point>, pattern: seq<Point>, eps: int, i: int, j: int)
    requires 0 <= i < |hull| && 0 <= j < |pattern|
  {
    && DistanceSQ(hull[i], pattern[j]) <= eps * eps
    && Orientation(hull[i], hull[(i + 1) % |hull|], pattern[(j + 1) % |pattern|]) < 0
  }

  predicate Anchors(hull: seq<Point>, pattern: seq<Point>, eps: int, i: int)
    requires 0 <= i < |hull|
  {
    exists j :: 0 <= j < |pattern| && MatchesAt(hull, pattern, eps, i, j)
  }

  /** start is the smallest anchoring hull index, or 0 when no index anchors. */
  predicate IsStart(hull: seq<Point>, pattern: seq<Point>, eps: int, start: int)
  {
    if exists i :: 0 <= i < |hull| && Anchors(hull, pattern, eps, i) then
      && 0 <= start < |hull|
      && Anchors(hull, pattern, eps, start)
      && forall i :: 0 <= i < start ==> !Anchors(hull, pattern, eps, i)
    else
      start == 0
  }

  /** The first anchoring hull index from i on, or 0 when there is none. */
  function FirstAnchor(hull: seq<Point>, pattern: seq<Point>, eps: int, i: nat): (start: nat)
    ensures |hull| >= 1 ==> start < |hull|
    decreases |hull| - i
  {
    if i >= |hull| then 0
    else if Anchors(hull, pattern, eps, i) then i
    else FirstAnchor(hull, pattern, eps, i + 1)
  }

  /** FirstAnchor finds the smallest anchoring index from i on, and falls back to 0. */
  lemma {:induction false} FirstAnchorIsSmallest(hull: seq<Point>, pattern: seq<Point>, eps: int, i: nat)
    requires i <= |hull|
    ensures (exists t :: i <= t < |hull| && Anchors(hull, pattern, eps, t)) ==>
              && i <= FirstAnchor(hull, pattern, eps, i) < |hull|
              && Anchors(hull, pattern, eps, FirstAnchor(hull, pattern, eps, i))
              && forall t :: i <= t < FirstAnchor(hull, pattern, eps, i) ==> !Anchors(hull, pattern, eps, t)
    ensures (forall t :: i <= t < |hull| ==> !Anchors(hull, pattern, eps, t)) ==> FirstAnchor(hull, pattern, eps, i) == 0
    decreases |hull| - i
  {
    if i < |hull| {
      FirstAnchorIsSmallest(hull, pattern, eps, i + 1);
    }
  }

  /** IsStart names exactly one index: the first anchor. */
  lemma StartIsFirstAnchor(hull: seq<Point>, pattern: seq<Point>, eps: int, start: int)
    ensures IsStart(hull, pattern, eps, start) <==> start == FirstAnchor(hull, pattern, eps, 0)
  {
    FirstAnchorIsSmallest(hull, pattern, eps, 0);
  }

  /** The nested search loop for `start`, with its fallback to 0. */
  method FindStart(hull: seq<Point>, pattern: seq<Point>, eps: int) returns (start: int)
    ensures IsStart(hull, pattern, eps, start)
    ensures start == FirstAnchor(hull, pattern, eps, 0)
  {
    start := -1;
    var i := 0;
    while start == -1 && i < |hull|
      invariant 0 <= i <= |hull|
      invariant start == -1 ==> forall i' :: 0 <= i' < i ==> !Anchors(hull, pattern, eps, i')
      invariant start != -1 ==> 0 <= start < i && Anchors(hull, pattern, eps, start)
                                && forall i' :: 0 <= i' < start ==> !Anchors(hull, pattern, eps, i')
    {
      var j := 0;
      while j < |pattern|
        invariant 0 <= j <= |pattern|
        invariant start == -1
        invariant forall j' :: 0 <= j' < j ==> !MatchesAt(hull, pattern, eps, i, j')
      {
        if DistanceSQ(hull[i], pattern[j]) <= eps * eps
           && Orientation(hull[i], hull[(i + 1) % |hull|], pattern[(j + 1) % |pattern|]) < 0
        {
          assert MatchesAt(hull, pattern, eps, i, j);
          start := i;
          break;
        }
        j := j + 1;
      }
      i := i + 1;
    }
    if start == -1 {
      start := 0;
    }
    StartIsFirstAnchor(hull, pattern, eps, start);
  }

  // ---------------------------------------------------------------------
  // Corners at fixed offsets from the anchor
  // ---------------------------------------------------------------------

  /** The hull position k steps after the anchor, wrapping around the hull. */
  function CornerIndex(n: nat, start: int, k: nat): (p: nat)
    requires n >= 1 && start >= 0
    ensures p < n
  {
    (start + k) % n
  }

  /** The five hull vertices read after the anchor: helper points and corners a, b, c. */
  datatype Picks = Picks(helpC: Point, helpA: Point, a: Point, b: Point, c: Point)

  predicate Distinct(s: seq<Point>)
  {
    forall i, j :: 0 <= i < j < |s| ==> s[i] != s[j]
  }

  function PickList(q: Picks): seq<Point>
  {
    [q.helpC, q.helpA, q.a, q.b, q.c]
  }

  /**
   * helpC, helpA, a, b and c are the hull vertices at offsets 0 .. 4 from the
   * anchor. A hull of at least five distinct vertices yields five distinct
   * points; on a hull of four, c wraps around onto helpC.
   */
  function PickCorners(hull: seq<Point>, start: int): (q: Picks)
    requires |hull| >= 1 && start >= 0
    ensures |hull| >= 5 && Distinct(hull) ==> Distinct(PickList(q))
    ensures |hull| == 4 ==> q.c == q.helpC
  {
    var n := |hull|;
    CornerPositionsDistinct(n, start);
    ModShift(start, n, n);
    ModUnique(start % n + n, n, 1, start % n);
    Picks(hull[CornerIndex(n, start, 0)], hull[CornerIndex(n, start, 1)],
          hull[CornerIndex(n, start, 2)], hull[CornerIndex(n, start, 3)], hull[CornerIndex(n, start, 4)])
  }

  /**
   * The five positions read after the anchor are pairwise different exactly
   * when the hull has at least five vertices; on a smaller hull they wrap
   * around onto each other.
   */
  lemma {:induction false} CornerPositionsDistinct(n: nat, start: nat)
    requires n >= 1
    ensures (forall k, l :: 0 <= k < l < 5 ==> CornerIndex(n, start, k) != CornerIndex(n, start, l)) <==> n >= 5
  {
    if n >= 5 {
      forall k, l | 0 <= k < l < 5
        ensures CornerIndex(n, start, k) != CornerIndex(n, start, l)
      {
        ModShift(start + k, l - k, n);
        ModStep((start + k) % n, l - k, n);
      }
    } else {
      ModShift(start, n, n);
      ModUnique(start % n + n, n, 1, start % n);
      assert CornerIndex(n, start, 0) == CornerIndex(n, start, n);
    }
  }
}
