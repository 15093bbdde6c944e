# QRDetector decision logic in Dafny

This project models the integer and control decisions of QRDetector, a
QR-code locator built on OpenCV, and proves properties of them:

- the geometry primitives `distanceSQ`, `orientation` and `intersect`;
- the finder-pattern walk of `detectQRCode` over the contour tree. A
  position marker is three concentric squares with module widths 1:1:3:1:1
  (ISO/IEC 18004:2015, section 5.3.2). Its outermost contour must have five
  nested levels whose area ratios match the table {1, 7/5, 1, 5/3, 1};
- the gate that goes on only with exactly three markers;
- `extractQRCode`: which marker plays the corner role (`idxC`), where the
  corner sequence starts on the simplified hull, and which hull vertices
  become the corners;
- the `simplifyContour` loop;
- `alignQRCode`'s module-size estimate;
- `normalizeQRCode`'s grid size (17 + 4v modules for version v, ISO/IEC
  18004:2015, section 5.3.1), its sampling loop and `pickMeanPixel`;
- in `main`, the evaluation build: the retry on a resized image, the
  pixel-by-pixel comparison with a reference image and the exit status.

OpenCV routines are inputs to the model. The contour tree with its
rectangle areas is a value (`FinderPatterns.Forest`). `convexHull`,
`approxPolyDP`, `moments`, the perspective warp with the binarisation, and
`minAreaRect` after `perspectiveTransform` are the function-typed fields of
`Detector.Vision`. In `main`, the detector and `resizeImage` are function
parameters.

The source's floating-point arithmetic is evaluated over exact reals. This
covers the area ratios, the line intersection, the module size and `round`.
A conversion to `int` truncates towards zero (`Geometry.Trunc`). `std::round`
rounds halves away from zero (`Sampling.Round`). An area ratio of 0/0 is NaN
in the source, and the `>` comparison that would reject the level is then
false, so `FinderPatterns.RatioMatches` accepts it. Where the source reaches
undefined behaviour, the model returns an explicit outcome instead of
demanding a precondition: `Detector.Extraction.ExtractionUndefined` and
`Detector.Detection.Undefined`. The cases are:

- a remainder by the size of an empty hull;
- a division by zero in `intersect`;
- a zero module size;
- an empty rectified image;
- a grid side past INT_MAX in `normalizeQRCode` (`Sampling.GridSideOverflows`
  shows one).

One more case, the read of `ratios[5]` in the finder-pattern walk, is listed
under "## Findings": there the model uses the bounded walk instead.

An OpenCV `Mat` that the source fills in place (the grid of
`normalizeQRCode`, the diff image of `main`) is an `array2<int>`; every other
image is a value: `seq<seq<int>>` for the rectified image and `Evaluation.Mat`
for the detection result and the reference in `main`.

Modules: `Arithmetic` (division facts), `Geometry`, `FinderPatterns`,
`Simplification`, `Corners`, `Sampling`, `Detector`, `Evaluation`.

`simplifyContour` stops as soon as at most five vertices remain
(qrdetector.cpp:292-295), so the hull of the three markers can have fewer
than five; `Simplification.SimplifyContour` states "at most".

## Model

| member | source | states |
|---|---|---|
| Geometry.DistanceSQ | qrdetector.cpp:9-12 | the squared distance is non-negative, and zero exactly when the two points are equal |
| Geometry.DistanceSQSymmetric | qrdetector.cpp:9-12 | the squared distance does not depend on the order of the points |
| Geometry.Orientation | qrdetector.cpp:22-25 | the orientation is zero when q is one of the line's two points |
| Geometry.OrientationSwap | qrdetector.cpp:22-25 | reversing the line negates the orientation |
| Geometry.OrientationCyclic | qrdetector.cpp:22-25 | rotating the three arguments cyclically keeps the orientation |
| Geometry.OrientationRightOfDownwardLine | qrdetector.cpp:14-21 | negative means right of the line, as documented: for a line pointing down the image, the value is negative iff q has smaller x, and zero iff q is on the line |
| Geometry.RotationKeepsDistance | qrdetector.cpp:9-12 | a quarter turn of the image keeps every squared distance |
| Geometry.RotationKeepsOrientation | qrdetector.cpp:22-25 | a quarter turn of the image keeps every orientation |
| Geometry.Trunc | qrdetector.cpp:359 | static_cast to int rounds towards zero: the result is the floor for non-negative values and the ceiling for negative ones |
| Geometry.Slope | qrdetector.cpp:374-375 | the slope times the x-extent of the line gives its y-extent |
| Geometry.Crossing | qrdetector.cpp:352-386 | in every branch the computed real point lies on both lines |
| Geometry.Intersect | qrdetector.cpp:352-386 | if c0c1 is vertical, x is c1.x, and the result is (c1.x, a1.y) when a0a1 is horizontal. Otherwise, if a0a1 is vertical, x is a1.x, and the result is (a1.x, c1.y) when c0c1 is horizontal |
| Geometry.NonParallelIsDefined | qrdetector.cpp:352-386 | two non-parallel lines never reach either division by zero (two verticals, or equal slopes) |
| Geometry.IntersectIsTruncatedCrossing | qrdetector.cpp:352-386 | for non-parallel lines the result is the unique common point of the two lines, truncated towards zero |
| Geometry.IntersectExamples | qrdetector.cpp:374-385 | two concrete crossings: diagonals of a square, and a vertical against a sloped line |
| FinderPatterns.CountNestedLevels | qrdetector.cpp:50-72 | the nested walk, with the bound children < 5. Every level below the returned count matches. The walk stops at the first missing child, degenerate child (fewer than 4 vertices) or ratio out of tolerance, or after five levels |
| FinderPatterns.CandidatesBelowOrdered | qrdetector.cpp:49-79 | the candidate list is strictly increasing, and holds index i iff contour i has a first child and all five levels match |
| FinderPatterns.FindCandidates | qrdetector.cpp:48-79 | the candidate loop returns exactly the candidate list: increasing, and holding i iff contour i is a finder-pattern candidate |
| FinderPatterns.SixthLevelReadsPastTable | qrdetector.cpp:55-72 | a concrete tree of seven nested 4-vertex strips (w×1 rectangles), for which the unguarded loop goes round a sixth time and indexes the ratio table at 5 |
| Simplification.SimplifyContour | qrdetector.cpp:284-302 | at most numPoints vertices remain; every earlier round still had more; the result is eps - 5 rounds of approxPolyDP with tolerances 5, 6, and so on. The reported eps is one more than the last tolerance applied, and exactly 5 iff the hull was already small enough |
| Simplification.RoundsOfFirstSmall | qrdetector.cpp:292-295 | when round k is the first round whose contour is small enough, the loop runs exactly k rounds |
| Simplification.RoundsReachSmall | qrdetector.cpp:292-295 | under the settling bound, every round before the last still has too many vertices and the last has few enough |
| Simplification.SimplifiedIsSimplification | qrdetector.cpp:284-302 | the closed-form outcome of the loop satisfies the loop's characterisation |
| Simplification.SimplificationIsDetermined | qrdetector.cpp:284-302 | the characterisation fixes the result: any contour and tolerance meeting it are the closed-form outcome |
| Corners.FarthestPair | qrdetector.cpp:147-155 | the chosen pair has the largest squared distance, and every pair compared before it is strictly shorter, so ties keep (0,2), then (0,1) |
| Corners.RoleIndex | qrdetector.cpp:147-155 | idxC is in 0..2 and is an endpoint of the farthest pair. It is the pair's first endpoint iff the remaining centroid has negative orientation |
| Corners.RoleFacesThirdOnRight | qrdetector.cpp:146-155 | for non-collinear centroids, the third marker lies right of the line from the selected marker to its partner |
| Corners.RoleIndexUnderRotation | qrdetector.cpp:147-155 | a quarter turn of the image does not change which marker is selected |
| Corners.FindStart | qrdetector.cpp:164-180 | start is the smallest hull index at which some marker vertex is within eps² and the marker's next vertex lies strictly right of the hull edge; it is 0 when there is no such index |
| Corners.FirstAnchor | qrdetector.cpp:164-180 | on a non-empty hull, the anchor search result is a valid hull index |
| Corners.FirstAnchorIsSmallest | qrdetector.cpp:164-180 | the search from i returns the smallest anchor at or after i, or 0 when there is none |
| Corners.StartIsFirstAnchor | qrdetector.cpp:164-180 | a start index meets the anchor characterisation iff it is the result of the anchor search from 0 |
| Corners.CornerIndex | qrdetector.cpp:183-190 | the offset position wraps around to a valid hull index |
| Corners.PickCorners | qrdetector.cpp:182-190 | on a hull of at least five distinct vertices, helpC, helpA, a, b, c are five distinct points; on a hull of four, c falls back onto helpC |
| Corners.CornerPositionsDistinct | qrdetector.cpp:183-190 | the five positions start + 0 .. 4 modulo n are pairwise different iff n >= 5 |
| Sampling.Round | qrdetector.cpp:258 | std::round: the result is within 0.5 of the input, and halves go away from zero |
| Sampling.GridSide | qrdetector.cpp:257-258 | the side is congruent to 1 modulo 4 and at least 1 for every positive module size, and it is within 2 of the measured rows / moduleSize |
| Sampling.GridSideSnapsToVersion | qrdetector.cpp:257-258 | a measurement strictly within two modules of 17 + 4v gives exactly 17 + 4v |
| Sampling.GridSideOverflows | qrdetector.cpp:258 | 800 rows at module size 10^-7 give a grid side past INT_MAX, where the source's `* 4 + 17` overflows; the rounded quotient, 1999999996, still fits in int |
| Sampling.SampleInside | qrdetector.cpp:266-268 | every module centre lies inside the image |
| Sampling.SampleWindowInside | qrdetector.cpp:270-272 | when moduleSize > 3, the 3x3 window around every centre lies inside the image |
| Sampling.MeanPixel | qrdetector.cpp:336-350 | the value is 0 or 255: 255 iff the window sum over (k + 2)² exceeds 127 |
| Sampling.PickMeanPixel | qrdetector.cpp:336-350 | the accumulation loop returns MeanPixel of the window |
| Sampling.MeanPixelIsMajority | qrdetector.cpp:336-350 | on a binary image the 3x3 window is a majority vote: 255 iff at least five of the nine pixels are 255 |
| Sampling.Cell | qrdetector.cpp:264-277 | every module value is 0 or 255 |
| Sampling.NormalizeQRCode | qrdetector.cpp:250-282 | the grid is newly allocated, GridSide x GridSide, its side is 1 modulo 4, and each cell is the sampled module value, 0 or 255 |
| Detector.Markers | qrdetector.cpp:133-139 | the three centres of mass, one per marker |
| Detector.ExtractionOf | qrdetector.cpp:130-204 | an extracted code keeps the three markers it was built from; it is undefined on an empty hull and when `IntersectDefined` fails: both lines vertical, or equal slopes, where a zero-length c-line (c equal to helpC on a four-vertex hull) counts as vertical |
| Detector.ExtractionOfMeaning | qrdetector.cpp:158-190 | the hull is the outcome of the simplification loop with at most five vertices, the start is the anchor of marker idxC, and on a hull of five distinct vertices the corners a, b, c and the two helper points are distinct |
| Detector.ExtractQRCode | qrdetector.cpp:130-204 | the method returns exactly the extraction that `Detector.ExtractionOf` defines from the markers |
| Detector.LoadVertices | qrdetector.cpp:232-236 | the four-entry buffer holds the marker's vertices, then origins |
| Detector.BoxSumNonNegative | qrdetector.cpp:241-243 | the summed rectangle sides are non-negative |
| Detector.AlignQRCode | qrdetector.cpp:206-248 | the image is the warp of the corners a, b, c, d; the module size is the summed width plus height of the marker rectangles over 42, and is non-negative |
| Detector.ModuleSizeOfSquareMarkers | qrdetector.cpp:245 | three markers seen as squares of seven modules of size u give module size u |
| Detector.SimplifiedToFour | qrdetector.cpp:94 | simplifying a marker to four vertices leaves at most four |
| Detector.SimplifiedCandidates | qrdetector.cpp:90-101 | one simplified contour per candidate, each with at most four vertices |
| Detector.DetectQRCode | qrdetector.cpp:47-117 | the result is empty exactly when the candidate count is not 3. A found grid is newly allocated and is the sampled grid of the code extracted from the simplified candidates; undefined behaviour after a defined extraction means a zero module size, an empty rectified image or a grid side past INT_MAX |
| Detector.ReadCode | qrdetector.cpp:109-117 | never the empty result; an undefined extraction gives undefined behaviour; after a defined extraction the grid is found iff the module size is positive, the rectified image is non-empty and the grid side fits in int, and it is then a new grid sampled from that code |
| Detector.SampleCode | qrdetector.cpp:113-117 | a grid is found iff the module size is positive, the rectified image is non-empty and the grid side fits in int; it is then newly allocated, has side GridSide of the image and the module size, and each cell is the module value of the rectified image |
| Evaluation.Zeros | main.cpp:110 | Mat::zeros has the given size, type CV_8UC1 and every pixel 0 |
| Evaluation.RowMismatchesZero | main.cpp:135-139 | a row has no differing pixel iff the two rows agree on every column |
| Evaluation.MismatchesZero | main.cpp:134-141 | the error count is zero iff the images agree at every pixel |
| Evaluation.NoErrorsIsPerfectMatch | main.cpp:142-145 | zero errors iff the result equals the reference |
| Evaluation.CompareImages | main.cpp:132-141 | the diff is newly allocated, has the reference's size and is 255 exactly where the images differ, 0 elsewhere; errors is the number of differing pixels |
| Evaluation.FoundByEitherTry | main.cpp:100-106 | a code is found iff the first try or the try on the resized image finds one, and a non-empty first result is kept |
| Evaluation.RunRelease | main.cpp:98-162 | an unreadable input fails. Otherwise the exit status is success iff a code was found, whatever the mismatch count; the result written is the code or a 1x1 zero image. A diff, newly allocated, is written iff a reference was given, a code was found and the shapes differ or some pixel differs. It is the per-pixel diff for equal shapes, and a 1x1 image holding 255 otherwise |

## Left out

- OpenCV image processing is not modelled. This covers `cvtColor`, `medianBlur`, the Otsu `threshold`, `Canny` and `findContours`. The model starts from the contour tree with its `minAreaRect` areas.
- `convexHull`, `approxPolyDP`, `moments`, `getPerspectiveTransform`, `warpPerspective` and `perspectiveTransform` with `minAreaRect` are foreign routines. They are abstract functions in `Detector.Vision`. `approxPolyDP` is assumed to leave at most four vertices from some tolerance on (`Simplification.Settles`); without such a bound the loop of `simplifyContour` need not end.
- The output side `ceil(sqrt(max squared side))` of `alignQRCode` is part of the abstract warp. That function only has to return a square image.
- Detector.SampleCode: which pixels of the original image the warp samples is left to the abstract `rectify`; the grid is stated in terms of its output.
- The centre of mass divides by `m00`; this and its rounding to a pixel are part of the abstract `centroid`.
- Detector.ExtractQRCode: the float `epsilon*epsilon` comparison is made on integers. This is exact, because the tolerance takes whole values.
- Floating-point precision is not modelled: doubles and floats are exact reals, so results that differ by a rounding error in the source agree here.
- Sampling.SampleCoord computes `rows * (2r + 1) / (2 * side)` exactly. The source computes `(int)(rows / side * (r + 0.5))` in float.
- Sampling.GridSide: computed on unbounded integers, so "at least 1 for every positive module size" holds only here. The source's `int` holds it while the side stays at most INT_MAX (rows / moduleSize up to about 2^31); `Detector.SampleCode` returns undefined behaviour beyond that.
- Geometry.DistanceSQ and Geometry.Orientation compute on unbounded integers. The source's 32-bit `int` products agree with them while every coordinate difference is at most 23170 in magnitude (2 * 23170^2 < 2^31), that is, for images up to 23170 pixels a side.
- Geometry.Intersect: the truncation to `int` at qrdetector.cpp:359, 368 and 385 is taken on all reals. The source's cast is undefined when the crossing lies outside the 32-bit range, which can happen for nearly parallel lines; the model does not single that case out.
- FinderPatterns.FindCandidates uses the bounded walk (`FinderPatterns.CountNestedLevels`) in place of the source's undefined read of `ratios[5]`. On a contour with a sixth non-degenerate nested level it therefore accepts the contour after five matched levels, where the source's behaviour is undefined. The comment at qrdetector.cpp:74-75 ("exactly 5 inlying contours") also supports rejecting such deeper chains; the model does not take that reading.
- Sampling.PickMeanPixel does not model the 32-bit wrap-around of the unsigned sum. It cannot occur for the window size 1 that is used.
- Sampling.PickMeanPixel takes a non-negative half-width. Every call in the source passes 1 or 3.
- Debug rendering is left out: the `augmented` image, `drawContours`, `circle`, `imshow` and the console messages only produce output.
- `countColorSwitch` is dead code (its only call is commented out) and is not part of this model.
- In `main`, the following plumbing is not part of this model: argument parsing, `imread` and `imwrite` (write failures only print a message), the webcam and debug loop, and `resizeImage` (a parameter).
- imageTester.py is a file-system test driver and is not part of this model.
- qrdetector.h declares an interface that no longer matches the implementation. Only its constants `BINARY_THRESHOLD` and `SIMPLFIICATION_START_EPSILON` are used.
- `MAX_AREA_THRESHOLD` is not defined in the header; the tolerance is a parameter.

## Findings

| source | as written | input that shows it | evidently intended | confidence | as-written member | corrected member |
|---|---|---|---|---|---|---|
| qrdetector.cpp:62 | after five matched levels, the do-while loop goes round again whenever a sixth nested contour exists. If that contour has at least 4 vertices, `ratios[children]` is read with children = 5, one past the five-entry table | seven nested 4-vertex strips of widths 7, 7, 5, 5, 3, 3, 3 and height 1, so minAreaRect areas 7, 7, 5, 5, 3, 3, 3 (`FinderPatterns.SevenNestedStrips`) | the table index stays below five: the walk compares at most five levels (`children < 5`) and decides on the five it has, the outcome the source reaches whenever the out-of-range value fails the tolerance test. The comment at :74-75 also admits rejecting deeper chains (see "## Left out") | not executed | FinderPatterns.SixthLevelReadsPastTable | FinderPatterns.CountNestedLevels |
