/**
 * The evaluation build of main: detect the code (retrying once on a resized
 * image), write the result, compare it with a reference image pixel by
 * pixel, and set the exit status.
 */
module Evaluation {

  datatype Option<T> = None | Some(value: T)

  /** CV_8UC1, the type of the normalised code and of a greyscale reference. */
  const Gray8: int := 0

  /** An OpenCV matrix: its size, its element type and its pixels row by row. */
  datatype Mat = Mat(rows: nat, cols: nat, kind: int, px: seq<seq<int>>)

  predicate Valid(m: Mat)
  {
    |m.px| == m.rows && forall r :: 0 <= r < m.rows ==> |m.px[r]| == m.cols
  }

  /** Mat::empty: no elements. */
  predicate Empty(m: Mat)
  {
    m.rows == 0 || m.cols == 0
  }

  /** Mat::zeros(rows, cols, CV_8UC1). */
  function Zeros(rows: nat, cols: nat): (m: Mat)
    ensures Valid(m) && m.rows == rows && m.cols == cols && m.kind == Gray8
    ensures forall r, c :: 0 <= r < rows && 0 <= c < cols ==> m.px[r][c] == 0
  {
    Mat(rows, cols, Gray8, seq(rows, _ => seq(cols, _ => 0)))
  }

  /** Same number of rows and columns and the same element type. */
  predicate SameShape(a: Mat, b: Mat)
  {
    a.rows == b.rows && a.cols == b.cols && a.kind == b.kind
  }

  // ---------------------------------------------------------------------
  // Pixel comparison
  // ---------------------------------------------------------------------

  /** Number of columns c < n where row r of a and b differ. */
  function RowMismatches(a: Mat, b: Mat, r: nat, n: nat): nat
    requires Valid(a) && Valid(b) && SameShape(a, b) && r < a.rows && n <= a.cols
  {
    if n == 0 then 0
    else RowMismatches(a, b, r, n - 1) + (if a.px[r][n - 1] != b.px[r][n - 1] then 1 else 0)
  }

  /** Number of pixels in the rows r < n where a and b differ. */
  function Mismatches(a: Mat, b: Mat, n: nat): nat
    requires Valid(a) && Valid(b) && SameShape(a, b) && n <= a.rows
  {
    if n == 0 then 0 else Mismatches(a, b, n - 1) + RowMismatches(a, b, n - 1, a.cols)
  }

  /** The diff pixel: 255 where the images differ, 0 elsewhere. */
  function DiffPixel(a: Mat, b: Mat, r: nat, c: nat): int
    requires Valid(a) && Valid(b) && SameShape(a, b) && r < a.rows && c < a.cols
  {
    if a.px[r][c] != b.px[r][c] then 255 else 0
  }

  lemma {:induction false} RowMismatchesZero(a: Mat, b: Mat, r: nat, n: nat)
    requires Valid(a) && Valid(b) && SameShape(a, b) && r < a.rows && n <= a.cols
    ensures RowMismatches(a, b, r, n) == 0 <==> forall c :: 0 <= c < n ==> a.px[r][c] == b.px[r][c]
  {
    if n > 0 {
      RowMismatchesZero(a, b, r, n - 1);
    }
  }

  lemma {:induction false} MismatchesZero(a: Mat, b: Mat, n: nat)
    requires Valid(a) && Valid(b) && SameShape(a, b) && n <= a.rows
    ensures Mismatches(a, b, n) == 0 <==>
              forall r, c :: 0 <= r < n && 0 <= c < a.cols ==> a.px[r][c] == b.px[r][c]
  {
    if n > 0 {
      MismatchesZero(a, b, n - 1);
      RowMismatchesZero(a, b, n - 1, a.cols);
    }
  }

  /** Zero errors is a perfect match: two images of the same shape with no differing pixel are equal. */
  lemma NoErrorsIsPerfectMatch(a: Mat, b: Mat)
    requires Valid(a) && Valid(b) && SameShape(a, b)
    ensures Mismatches(a, b, a.rows) == 0 <==> a == b
  {
    MismatchesZero(a, b, a.rows);
    if Mismatches(a, b, a.rows) == 0 {
      forall r | 0 <= r < a.rows
        ensures a.px[r] == b.px[r]
      {
      }
    }
  }

  /**
   * The comparison loop: a zero-initialised diff image receives 255 at every
   * differing pixel, and errors counts those pixels.
   */
  method CompareImages(reference: Mat, qr: Mat) returns (errors: nat, diff: array2<int>)
    requires Valid(reference) && Valid(qr) && SameShape(reference, qr)
    ensures diff.Length0 == reference.rows && diff.Length1 == reference.cols
    ensures forall r, c :: 0 <= r < reference.rows && 0 <= c < reference.cols ==>
              diff[r, c] == DiffPixel(reference, qr, r, c)
    ensures errors == Mismatches(reference, qr, reference.rows)
    ensures fresh(diff)
  {
    diff := new int[reference.rows, reference.cols]((_, _) => 0);
    errors := 0;
    var r := 0;
    while r < reference.rows
      invariant 0 <= r <= reference.rows
      invariant errors == Mismatches(reference, qr, r)
      invariant forall r', c' :: 0 <= r' < r && 0 <= c' < reference.cols ==>
                  diff[r', c'] == DiffPixel(reference, qr, r', c')
      invariant forall r', c' :: r <= r' < reference.rows && 0 <= c' < reference.cols ==> diff[r', c'] == 0
    {
      var c := 0;
      while c < reference.cols
        invariant 0 <= c <= reference.cols
        invariant errors == Mismatches(reference, qr, r) + RowMismatches(reference, qr, r, c)
        invariant forall r', c' :: 0 <= r' < r && 0 <= c' < reference.cols ==>
                    diff[r', c'] == DiffPixel(reference, qr, r', c')
        invariant forall c' :: 0 <= c' < c ==> diff[r, c'] == DiffPixel(reference, qr, r, c')
        invariant forall r', c' :: r <= r' < reference.rows && 0 <= c' < reference.cols && (r' > r || c' >= c) ==>
                    diff[r', c'] == 0
      {
        if reference.px[r][c] != qr.px[r][c] {
          diff[r, c] := 255;
          errors := errors + 1;
        }
        c := c + 1;
      }
      r := r + 1;
    }
  }

  // ---------------------------------------------------------------------
  // The release path of main
  // ---------------------------------------------------------------------

  datatype ExitStatus = Success | Failure

  /** What a run leaves behind: its exit status, the written result and the written diff image. */
  datatype Run = Run(exit: ExitStatus, written: Option<Mat>, diff: Option<array2<int>>)

  /** The detection result main goes on with: the second try runs only when the first is empty. */
  function Detected(image: Mat, detect: Mat -> Mat, resize: Mat -> Mat): Mat
  {
    var first := detect(image);
    if !Empty(first) then first else detect(resize(image))
  }

  /** A code is found exactly when one of the two tries finds it. */
  lemma FoundByEitherTry(image: Mat, detect: Mat -> Mat, resize: Mat -> Mat)
    ensures !Empty(Detected(image, detect, resize)) <==>
              !Empty(detect(image)) || !Empty(detect(resize(image)))
    ensures !Empty(detect(image)) ==> Detected(image, detect, resize) == detect(image)
  {
  }

  /**
   * main in the evaluation build, from the loaded input image on. The
   * detector and the resize to the minimal dimension are parameters;
   * `reference` is the greyscale reference image when one was named.
   * The exit status is success exactly when a code was found; a mismatch
   * with the reference only leaves a diff image behind.
   */
  method RunRelease(image: Mat, reference: Option<Mat>, detect: Mat -> Mat, resize: Mat -> Mat) returns (run: Run)
    requires forall m :: Valid(detect(m))
    requires reference.Some? ==> Valid(reference.value)
    ensures Empty(image) ==> run.exit == Failure && run.written == None && run.diff == None
    ensures !Empty(image) ==>
              var qr := Detected(image, detect, resize);
              && (run.exit == Success <==> !Empty(qr))
              && run.written == Some(if Empty(qr) then Zeros(1, 1) else qr)
              && (run.diff.Some? <==>
                    reference.Some? && !Empty(qr) &&
                    (!SameShape(reference.value, qr) || Mismatches(reference.value, qr, qr.rows) > 0))
    ensures run.diff.Some? ==> fresh(run.diff.value)
    ensures !Empty(image) && run.diff.Some? ==>
              var qr := Detected(image, detect, resize);
              var ref := reference.value;
              if SameShape(ref, qr) then
                && run.diff.value.Length0 == ref.rows && run.diff.value.Length1 == ref.cols
                && forall r, c :: 0 <= r < ref.rows && 0 <= c < ref.cols ==>
                     run.diff.value[r, c] == DiffPixel(ref, qr, r, c)
              else
                run.diff.value.Length0 == 1 && run.diff.value.Length1 == 1 && run.diff.value[0, 0] == 255
  {
    if Empty(image) {
      return Run(Failure, None, None);
    }
    var codeFound := false;
    var qr := detect(image);
    if Empty(qr) {
      var resized := resize(image);
      qr := detect(resized);
    }
    if Empty(qr) {
      qr := Zeros(1, 1);
    } else {
      codeFound := true;
    }
    var written := Some(qr);
    if reference.Some? && codeFound {
      var ref := reference.value;
      if SameShape(ref, qr) {
        var errors, diff := CompareImages(ref, qr);
        if errors == 0 {
          return Run(Success, written, None);
        }
        return Run(Success, written, Some(diff));
      } else {
        var diff := new int[1, 1]((_, _) => 0);
        diff[0, 0] := 255;
        return Run(Success, written, Some(diff));
      }
    } else if !codeFound {
      return Run(Failure, written, None);
    }
    return Run(Success, written, None);
  }
}
