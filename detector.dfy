/**
 * detectQRCode, extractQRCode and alignQRCode: the composition of the
 * candidate walk, the corner selection and the sampling. The OpenCV routines
 * they call (convexHull, approxPolyDP, moments, the perspective warp with the
 * binarisation, and minAreaRect of transformed marker vertices) are the
 * fields of a Vision record; the contour tree with its rectangle areas is
 * the input.
 */
module Detector {
  import opened Geometry
  import opened FinderPatterns
  import opened Simplification
  import opened Corners
  import opened Sampling

  /**
   * The foreign routines, as functions of their inputs:
   * convexHull and approxPolyDP on point lists; settle, a tolerance from
   * which approxPolyDP leaves at most four vertices; centroid, the centre of
   * mass of a contour rounded to a pixel; rectify, the binarised image warped
   * so that the quadrilateral a, b, c, d becomes an axis-parallel square;
   * boxSize, width plus height of the minimal rectangle around four marker
   * vertices after that warp.
   */
  datatype Vision = Vision(
    convexHull: seq<Point> -> seq<Point>,
    approxPolyDP: Approx,
    settle: int,
    centroid: seq<Point> -> Point,
    rectify: seq<Point> -> seq<seq<int>>,
    boxSize: (seq<Point>, seq<Point>) -> real)

  /** What the model relies on from the foreign routines. */
  ghost predicate Sound(v: Vision)
  {
    && Settles(v.approxPolyDP, 4, v.settle)
    && (forall quad :: IsImage(v.rectify(quad), |v.rectify(quad)|, |v.rectify(quad)|))
    && (forall quad, vertices :: v.boxSize(quad, vertices) >= 0.0)
  }

  /** The located code: corner a (top left marker side), b, c and the estimated fourth corner d. */
  datatype QRCode = QRCode(a: Point, b: Point, c: Point, d: Point, patterns: seq<Contour>)

  /** An extraction either yields a code or reaches undefined behaviour of the source. */
  datatype Extraction = Extracted(code: QRCode) | ExtractionUndefined

  /** All vertices of all markers, marker by marker. */
  function Flatten(patterns: seq<Contour>): seq<Point>
  {
    if patterns == [] then [] else Flatten(patterns[..|patterns| - 1]) + patterns[|patterns| - 1]
  }

  /** The three centres of mass. */
  function Markers(patterns: seq<Contour>, v: Vision): (m: seq<Point>)
    requires |patterns| == 3
    ensures |m| == 3
  {
    [v.centroid(patterns[0]), v.centroid(patterns[1]), v.centroid(patterns[2])]
  }

  // ---------------------------------------------------------------------
  // extractQRCode
  // ---------------------------------------------------------------------

  /**
   * What extractQRCode computes on three simplified markers. The hull of
   * all marker vertices is simplified to at most five vertices; the anchor
   * is the first hull vertex matching the marker at idxC; a, b, c are the
   * vertices two, three and four steps after it, and d is where the line
   * through a and the vertex after the anchor meets the line through c and
   * the anchor. An empty hull (a remainder by zero) and two lines whose
   * intersection divides by zero are undefined behaviour.
   */
  ghost function ExtractionOf(patterns: seq<Contour>, v: Vision): (r: Extraction)
    requires |patterns| == 3
    ensures r.Extracted? ==> r.code.patterns == patterns
  {
    var hull := Simplified(v.approxPolyDP, v.convexHull(Flatten(patterns)), 5, v.settle);
    var eps := SimplifiedEps(v.approxPolyDP, v.convexHull(Flatten(patterns)), 5, v.settle);
    var start := FirstAnchor(hull, patterns[RoleIndex(Markers(patterns, v))], eps, 0);
    if |hull| == 0 then ExtractionUndefined
    else
      var q := PickCorners(hull, start);
      if IntersectDefined(q.a, q.helpA, q.c, q.helpC)
      then Extracted(QRCode(q.a, q.b, q.c, Intersect(q.a, q.helpA, q.c, q.helpC), patterns))
      else ExtractionUndefined
  }

  /**
   * The hull extractQRCode works on is the outcome of the simplification
   * loop with at most five vertices, and its start is the anchor of the
   * marker at idxC. On a hull of five distinct vertices, the corners a, b, c
   * and the two helper points are five distinct points.
   */
  lemma ExtractionOfMeaning(patterns: seq<Contour>, v: Vision)
    requires |patterns| == 3 && Sound(v)
    ensures var hull := Simplified(v.approxPolyDP, v.convexHull(Flatten(patterns)), 5, v.settle);
            var eps := SimplifiedEps(v.approxPolyDP, v.convexHull(Flatten(patterns)), 5, v.settle);
            var start := FirstAnchor(hull, patterns[RoleIndex(Markers(patterns, v))], eps, 0);
            && IsSimplification(v.approxPolyDP, v.convexHull(Flatten(patterns)), 5, hull, eps)
            && |hull| <= 5
            && IsStart(hull, patterns[RoleIndex(Markers(patterns, v))], eps, start)
            && (ExtractionOf(patterns, v).Extracted? && |hull| == 5 && Distinct(hull) ==>
                  var code := ExtractionOf(patterns, v).code;
                  var q := PickCorners(hull, start);
                  Distinct([q.helpC, q.helpA, code.a, code.b, code.c]))
  {
    var hull := Simplified(v.approxPolyDP, v.convexHull(Flatten(patterns)), 5, v.settle);
    var eps := SimplifiedEps(v.approxPolyDP, v.convexHull(Flatten(patterns)), 5, v.settle);
    SimplifiedIsSimplification(v.approxPolyDP, v.convexHull(Flatten(patterns)), 5, v.settle);
    StartIsFirstAnchor(hull, patterns[RoleIndex(Markers(patterns, v))], eps,
                       FirstAnchor(hull, patterns[RoleIndex(Markers(patterns, v))], eps, 0));
  }

  /** The control flow of extractQRCode: centroids, idxC, simplification, anchor search, corners. */
  method ExtractQRCode(patterns: seq<Contour>, v: Vision) returns (result: Extraction)
    requires |patterns| == 3 && Sound(v)
    ensures result == ExtractionOf(patterns, v)
  {
    var idxC := RoleIndex(Markers(patterns, v));
    var hull, epsilon := SimplifyContour(v.convexHull(Flatten(patterns)), 5, v.approxPolyDP, v.settle);
    var start := FindStart(hull, patterns[idxC], epsilon);
    if |hull| == 0 {
      return ExtractionUndefined;
    }
    var q := PickCorners(hull, start);
    if !IntersectDefined(q.a, q.helpA, q.c, q.helpC) {
      return ExtractionUndefined;
    }
    result := Extracted(QRCode(q.a, q.b, q.c, Intersect(q.a, q.helpA, q.c, q.helpC), patterns));
  }

  // ---------------------------------------------------------------------
  // alignQRCode
  // ---------------------------------------------------------------------

  /** `count` copies of the origin. */
  function Origins(count: nat): (s: seq<Point>)
    ensures |s| == count && forall i :: 0 <= i < count ==> s[i] == Point(0, 0)
  {
    if count == 0 then [] else Origins(count - 1) + [Point(0, 0)]
  }

  /**
   * The four-entry vertex buffer of alignQRCode: a marker's vertices, the
   * unused entries left at the origin (they are transformed and measured too).
   */
  method LoadVertices(pattern: seq<Point>) returns (transformed: array<Point>)
    requires |pattern| <= 4
    ensures fresh(transformed) && transformed.Length == 4
    ensures transformed[..] == pattern + Origins(4 - |pattern|)
  {
    transformed := new Point[4](_ => Point(0, 0));
    var j := 0;
    while j < |pattern|
      invariant 0 <= j <= |pattern|
      invariant forall t :: 0 <= t < j ==> transformed[t] == pattern[t]
      invariant forall t :: j <= t < 4 ==> transformed[t] == Point(0, 0)
    {
      transformed[j] := pattern[j];
      j := j + 1;
    }
    assert transformed[..] == pattern + Origins(4 - |pattern|);
  }

  /** Every marker has at most four vertices, as after simplification to four. */
  predicate SmallMarkers(patterns: seq<Contour>)
  {
    forall i :: 0 <= i < |patterns| ==> |patterns[i]| <= 4
  }

  /** The corners in the order alignQRCode maps them onto the target square. */
  function Quad(code: QRCode): seq<Point>
  {
    [code.a, code.b, code.c, code.d]
  }

  /** Sum of width plus height over the markers' rectangles in the warped image. */
  function BoxSum(v: Vision, quad: seq<Point>, patterns: seq<Contour>): real
    requires SmallMarkers(patterns)
  {
    if patterns == [] then 0.0
    else
      var last := patterns[|patterns| - 1];
      BoxSum(v, quad, patterns[..|patterns| - 1]) + v.boxSize(quad, last + Origins(4 - |last|))
  }

  lemma {:induction false} BoxSumNonNegative(v: Vision, quad: seq<Point>, patterns: seq<Contour>)
    requires Sound(v) && SmallMarkers(patterns)
    ensures BoxSum(v, quad, patterns) >= 0.0
    decreases |patterns|
  {
    if patterns != [] {
      BoxSumNonNegative(v, quad, patterns[..|patterns| - 1]);
    }
  }

  /**
   * The module size of alignQRCode: the summed width plus height of the
   * marker rectangles, over 7 modules per marker side, 3 markers and 2 sides.
   */
  function ModuleSize(code: QRCode, v: Vision): real
    requires SmallMarkers(code.patterns)
  {
    BoxSum(v, Quad(code), code.patterns) / 42.0
  }

  /** alignQRCode: the rectified image and the module size, which is never negative. */
  method AlignQRCode(code: QRCode, v: Vision) returns (image: seq<seq<int>>, moduleSize: real)
    requires Sound(v) && SmallMarkers(code.patterns)
    ensures image == v.rectify(Quad(code))
    ensures moduleSize == ModuleSize(code, v)
    ensures moduleSize >= 0.0
  {
    var quad := [code.a, code.b, code.c, code.d];
    image := v.rectify(quad);
    var s := 0.0;
    var i := 0;
    while i < |code.patterns|
      invariant 0 <= i <= |code.patterns|
      invariant s == BoxSum(v, quad, code.patterns[..i])
    {
      var transformed := LoadVertices(code.patterns[i]);
      assert code.patterns[..i + 1][..i] == code.patterns[..i];
      s := s + v.boxSize(quad, transformed[..]);
      i := i + 1;
    }
    assert code.patterns[..i] == code.patterns;
    BoxSumNonNegative(v, quad, code.patterns);
    moduleSize := s / 42.0;
  }

  /**
   * Three markers, each seen as a square of side 7u (seven modules of size u),
   * give the module size u.
   */
  lemma ModuleSizeOfSquareMarkers(v: Vision, code: QRCode, u: real)
    requires |code.patterns| == 3 && SmallMarkers(code.patterns)
    requires forall i :: 0 <= i < 3 ==>
               v.boxSize(Quad(code), code.patterns[i] + Origins(4 - |code.patterns[i]|)) == 14.0 * u
    ensures ModuleSize(code, v) == u
  {
    var p := code.patterns;
    assert p[..2][..1][..0] == [];
    assert BoxSum(v, Quad(code), p[..2][..1]) == 14.0 * u;
    assert BoxSum(v, Quad(code), p[..2]) == 28.0 * u;
  }

  // ---------------------------------------------------------------------
  // detectQRCode
  // ---------------------------------------------------------------------

  /** The outcome of detectQRCode: no code (an empty Mat), undefined behaviour, or the module grid. */
  datatype Detection = NotFound | Undefined | Found(grid: array2<int>)

  /** Every simplification to four vertices leaves at most four. */
  lemma SimplifiedToFour(v: Vision)
    requires Sound(v)
    ensures forall hull :: |Simplified(v.approxPolyDP, hull, 4, v.settle)| <= 4
  {
    forall hull {
      SimplifiedIsSimplification(v.approxPolyDP, hull, 4, v.settle);
    }
  }

  /** The candidate contours after simplification to at most four vertices, in candidate order. */
  ghost function SimplifiedCandidates(f: Forest, tolerance: real, v: Vision): (s: seq<Contour>)
    requires WellFormed(f) && Sound(v)
    ensures |s| == |Candidates(f, tolerance)| && SmallMarkers(s)
  {
    var c := Candidates(f, tolerance);
    CandidatesBelowOrdered(f, tolerance, |f.contours|);
    SimplifiedToFour(v);
    seq(|c|, k requires 0 <= k < |c| => Simplified(v.approxPolyDP, v.convexHull(f.contours[c[k]]), 4, v.settle))
  }

  /**
   * grid is the sampled module grid of the code: its side is GridSide of the
   * rectified image and the module size, and each cell is the module value.
   */
  ghost predicate IsSampledGrid(code: QRCode, v: Vision, grid: array2<int>)
    requires Sound(v) && SmallMarkers(code.patterns)
    reads grid
  {
    var image := v.rectify(Quad(code));
    var moduleSize := ModuleSize(code, v);
    && moduleSize > 0.0 && |image| >= 1
    && grid.Length0 == GridSide(|image|, moduleSize) && grid.Length1 == grid.Length0
    && forall r, c :: 0 <= r < grid.Length0 && 0 <= c < grid.Length1 ==>
         grid[r, c] == Cell(image, grid.Length0, r, c)
  }

  /**
   * normalizeQRCode can sample the rectified image: the module size is
   * positive, the image is not empty, and the grid side fits the 32-bit
   * `int` it is computed in. Otherwise the source divides by zero, indexes
   * an empty image or overflows.
   */
  ghost predicate Samplable(code: QRCode, v: Vision)
    requires Sound(v) && SmallMarkers(code.patterns)
  {
    var image := v.rectify(Quad(code));
    var moduleSize := ModuleSize(code, v);
    moduleSize > 0.0 && |image| >= 1 && GridSide(|image|, moduleSize) <= MaxInt
  }

  /**
   * detectQRCode from the contour tree on: exactly three candidates go on
   * (fewer, and more after simplification, give the empty result); each is
   * simplified to at most four vertices; the code is extracted, aligned and
   * sampled. A zero module size, an empty rectified image or a grid side
   * past INT_MAX is undefined behaviour.
   */
  method DetectQRCode(f: Forest, tolerance: real, v: Vision) returns (result: Detection)
    requires WellFormed(f) && Sound(v)
    ensures result.NotFound? <==> |Candidates(f, tolerance)| != 3
    ensures result.Found? ==>
              var extraction := ExtractionOf(SimplifiedCandidates(f, tolerance, v), v);
              extraction.Extracted? && Samplable(extraction.code, v) && IsSampledGrid(extraction.code, v, result.grid)
    ensures result.Undefined? && ExtractionOf(SimplifiedCandidates(f, tolerance, v), v).Extracted? ==>
              !Samplable(ExtractionOf(SimplifiedCandidates(f, tolerance, v), v).code, v)
    ensures result.Found? ==> fresh(result.grid)
  {
    var positionCandidates := FindCandidates(f, tolerance);
    if |positionCandidates| < 3 {
      return NotFound;
    }
    ghost var expected := SimplifiedCandidates(f, tolerance, v);
    var contourCandidates: seq<Contour> := [];
    var k := 0;
    while k < |positionCandidates|
      invariant 0 <= k <= |positionCandidates|
      invariant contourCandidates == expected[..k]
    {
      var i := positionCandidates[k];
      var simple, _ := SimplifyContour(v.convexHull(f.contours[i]), 4, v.approxPolyDP, v.settle);
      contourCandidates := contourCandidates + [simple];
      k := k + 1;
    }
    assert contourCandidates == expected;
    if |contourCandidates| > 3 {
      return NotFound;
    }
    result := ReadCode(contourCandidates, v);
  }

  /**
   * The second half of detectQRCode on the three simplified markers:
   * extract, align and sample.
   */
  method ReadCode(contourCandidates: seq<Contour>, v: Vision) returns (result: Detection)
    requires |contourCandidates| == 3 && Sound(v) && SmallMarkers(contourCandidates)
    ensures !result.NotFound?
    ensures ExtractionOf(contourCandidates, v).ExtractionUndefined? ==> result.Undefined?
    ensures ExtractionOf(contourCandidates, v).Extracted? ==>
              var code := ExtractionOf(contourCandidates, v).code;
              && (result.Found? <==> Samplable(code, v))
              && (result.Found? ==> IsSampledGrid(code, v, result.grid))
    ensures result.Found? ==> fresh(result.grid)
  {
    var extraction := ExtractQRCode(contourCandidates, v);
    if extraction.ExtractionUndefined? {
      return Undefined;
    }
    result := SampleCode(extraction.code, v);
  }

  /** alignQRCode followed by normalizeQRCode on an extracted code. */
  method SampleCode(code: QRCode, v: Vision) returns (result: Detection)
    requires Sound(v) && SmallMarkers(code.patterns)
    ensures !result.NotFound?
    ensures result.Found? <==> Samplable(code, v)
    ensures result.Found? ==> IsSampledGrid(code, v, result.grid)
    ensures result.Found? ==> fresh(result.grid)
  {
    var imAligned, moduleSize := AlignQRCode(code, v);
    if moduleSize == 0.0 || |imAligned| == 0 || GridSide(|imAligned|, moduleSize) > MaxInt {
      return Undefined;
    }
    var grid := NormalizeQRCode(imAligned, moduleSize);
    result := Found(grid);
  }
}
