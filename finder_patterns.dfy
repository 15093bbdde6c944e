/**
 * Finder-pattern candidates: the walk over the contour tree in detectQRCode.
 * A position marker (ISO/IEC 18004:2015, section 5.3.2) is three concentric
 * squares with module widths 1:1:3:1:1; in the edge map each ring edge is
 * seen twice, so the outermost contour of a marker has five nested levels
 * whose successive area ratios follow the table Ratios.
 */
module FinderPatterns {
  import opened Geometry

  type Contour = seq<Point>

  /**
   * The contour tree of findContours as an index arena: contour i has the
   * vertices contours[i], its first child firstChild[i] (negative: none) and
   * area[i], the area of its minimal bounding rectangle (minAreaRect).
   */
  datatype Forest = Forest(contours: seq<Contour>, firstChild: seq<int>, area: seq<real>)

  predicate WellFormed(f: Forest)
  {
    && |f.firstChild| == |f.contours|
    && |f.area| == |f.contours|
    && forall i :: 0 <= i < |f.firstChild| ==> f.firstChild[i] < |f.contours|
  }

  /** Expected outer/inner area ratio of each nested level (the ratios table). */
  const Ratios: seq<real> := [1.0, 7.0 / 5.0, 1.0, 5.0 / 3.0, 1.0]

  function Abs(r: real): (a: real)
    ensures a >= 0.0 && (a == r || a == -r)
  {
    if r < 0.0 then -r else r
  }

  /**
   * The tolerance test: |outer / inner - expected| is not above the
   * tolerance. With a zero inner area the quotient is infinite (no match)
   * unless the outer area is zero too; then it is NaN, and the `>`
   * comparison that would reject the level is false.
   */
  predicate RatioMatches(outer: real, inner: real, expected: real, tolerance: real)
  {
    if inner == 0.0 then outer == 0.0 else Abs(outer / inner - expected) <= tolerance
  }

  /** The contour reached from i after k first-child steps (negative once the chain ends). */
  function Follow(f: Forest, i: int, k: nat): (c: int)
    requires WellFormed(f) && i < |f.contours|
    ensures c < |f.contours|
  {
    if k == 0 then i
    else
      var p := Follow(f, i, k - 1);
      if p < 0 then p else f.firstChild[p]
  }

  /**
   * Level j of the walk from contour i is accepted: the (j+1)-th nested
   * contour exists, is not degenerate (at least 4 vertices), and its area
   * ratio to the level above matches Ratios[j].
   */
  predicate LevelMatches(f: Forest, tolerance: real, i: int, j: nat)
    requires WellFormed(f) && 0 <= i < |f.contours| && j < |Ratios|
  {
    var outer := Follow(f, i, j);
    var inner := Follow(f, i, j + 1);
    && 0 <= inner
    && |f.contours[inner]| >= 4
    && RatioMatches(f.area[outer], f.area[inner], Ratios[j], tolerance)
  }

  /** Contour i is a finder-pattern candidate: it has a child and all five levels match. */
  predicate IsFinderCandidate(f: Forest, tolerance: real, i: int)
    requires WellFormed(f) && 0 <= i < |f.contours|
  {
    f.firstChild[i] >= 0 && forall j :: 0 <= j < |Ratios| ==> LevelMatches(f, tolerance, i, j)
  }

  /** The candidates among contours 0 .. n-1, in the order the loop appends them. */
  function CandidatesBelow(f: Forest, tolerance: real, n: nat): seq<int>
    requires WellFormed(f) && n <= |f.contours|
  {
    if n == 0 then []
    else CandidatesBelow(f, tolerance, n - 1) + (if IsFinderCandidate(f, tolerance, n - 1) then [n - 1] else [])
  }

  function Candidates(f: Forest, tolerance: real): seq<int>
    requires WellFormed(f)
  {
    CandidatesBelow(f, tolerance, |f.contours|)
  }

  /** The candidate list holds each candidate index exactly once, in increasing order. */
  lemma {:induction false} CandidatesBelowOrdered(f: Forest, tolerance: real, n: nat)
    requires WellFormed(f) && n <= |f.contours|
    ensures forall k :: 0 <= k < |CandidatesBelow(f, tolerance, n)| ==> 0 <= CandidatesBelow(f, tolerance, n)[k] < n
    ensures forall k, l :: 0 <= k < l < |CandidatesBelow(f, tolerance, n)| ==>
              CandidatesBelow(f, tolerance, n)[k] < CandidatesBelow(f, tolerance, n)[l]
    ensures forall i :: 0 <= i < n ==> (i in CandidatesBelow(f, tolerance, n) <==> IsFinderCandidate(f, tolerance, i))
  {
    if n > 0 {
      CandidatesBelowOrdered(f, tolerance, n - 1);
    }
  }

  /**
   * The nested walk from contour i (the do-while loop), with the bound
   * `children < 5` on the table index. It returns how many consecutive levels
   * matched: every level below the count matched, and the walk stopped at the
   * first level that did not (missing child, degenerate child or ratio out of
   * tolerance), or after the fifth.
   */
  method CountNestedLevels(f: Forest, tolerance: real, i: int) returns (children: nat)
    requires WellFormed(f) && 0 <= i < |f.contours| && f.firstChild[i] >= 0
    ensures children <= |Ratios|
    ensures forall j :: 0 <= j < children ==> LevelMatches(f, tolerance, i, j)
    ensures children < |Ratios| ==> !LevelMatches(f, tolerance, i, children)
  {
    children := 0;
    var level := f.firstChild[i];
    var outerArea := f.area[i];
    while level >= 0 && children < |Ratios|
      invariant children <= |Ratios|
      invariant level == Follow(f, i, children + 1)
      invariant Follow(f, i, children) >= 0 && outerArea == f.area[Follow(f, i, children)]
      invariant forall j :: 0 <= j < children ==> LevelMatches(f, tolerance, i, j)
      decreases |Ratios| - children
    {
      // Discard degenerate contours.
      if |f.contours[level]| < 4 {
        break;
      }
      var innerArea := f.area[level];
      if !RatioMatches(outerArea, innerArea, Ratios[children], tolerance) {
        break;
      }
      outerArea := innerArea;
      children := children + 1;
      level := f.firstChild[level];
    }
  }

  /**
   * The candidate loop of detectQRCode: every contour with a first child is
   * walked, and it is appended when exactly five levels matched.
   */
  method FindCandidates(f: Forest, tolerance: real) returns (positionCandidates: seq<int>)
    requires WellFormed(f)
    ensures positionCandidates == Candidates(f, tolerance)
    ensures forall k :: 0 <= k < |positionCandidates| ==> 0 <= positionCandidates[k] < |f.contours|
    ensures forall k, l :: 0 <= k < l < |positionCandidates| ==> positionCandidates[k] < positionCandidates[l]
    ensures forall i :: 0 <= i < |f.contours| ==> (i in positionCandidates <==> IsFinderCandidate(f, tolerance, i))
  {
    positionCandidates := [];
    var i := 0;
    while i < |f.contours|
      invariant 0 <= i <= |f.contours|
      invariant positionCandidates == CandidatesBelow(f, tolerance, i)
    {
      var level := f.firstChild[i];
      if level >= 0 {
        var children := CountNestedLevels(f, tolerance, i);
        if children == |Ratios| {
          positionCandidates := positionCandidates + [i];
        }
      }
      i := i + 1;
    }
    CandidatesBelowOrdered(f, tolerance, |f.contours|);
  }

  // ---------------------------------------------------------------------
  // As written, the do-while loop has no bound on `children`.
  // ---------------------------------------------------------------------

  /**
   * The source's loop reads ratios[5], one past the five-entry table: after
   * five matched levels it goes round again when a sixth nested contour
   * exists, and that contour passes the degeneracy check.
   */
  predicate ReadsPastRatioTable(f: Forest, tolerance: real, i: int)
    requires WellFormed(f) && 0 <= i < |f.contours|
  {
    && IsFinderCandidate(f, tolerance, i)
    && Follow(f, i, |Ratios| + 1) >= 0
    && |f.contours[Follow(f, i, |Ratios| + 1)]| >= 4
  }

  /** The 4-vertex rectangle of the given width and height 1; its minimal bounding rectangle has area width. */
  function Strip(width: int): Contour
  {
    [Point(0, 0), Point(width, 0), Point(width, 1), Point(0, 1)]
  }

  /**
   * Seven nested strips 0 -> 1 -> ... -> 6 whose areas 7, 7, 5, 5, 3, 3, 3
   * follow the ratio table exactly and then go one level deeper.
   */
  function SevenNestedStrips(): (f: Forest)
    ensures WellFormed(f)
  {
    Forest([Strip(7), Strip(7), Strip(5), Strip(5), Strip(3), Strip(3), Strip(3)],
           [1, 2, 3, 4, 5, 6, -1],
           [7.0, 7.0, 5.0, 5.0, 3.0, 3.0, 3.0])
  }

  lemma SixthLevelReadsPastTable(tolerance: real)
    requires tolerance >= 0.0
    ensures ReadsPastRatioTable(SevenNestedStrips(), tolerance, 0)
  {
    var f := SevenNestedStrips();
    assert Follow(f, 0, 1) == 1;
    assert Follow(f, 0, 2) == 2;
    assert Follow(f, 0, 3) == 3;
    assert Follow(f, 0, 4) == 4;
    assert Follow(f, 0, 5) == 5;
    assert Follow(f, 0, 6) == 6;
    assert LevelMatches(f, tolerance, 0, 0);
    assert LevelMatches(f, tolerance, 0, 1);
    assert LevelMatches(f, tolerance, 0, 2);
    assert LevelMatches(f, tolerance, 0, 3);
    assert LevelMatches(f, tolerance, 0, 4);
  }
}
