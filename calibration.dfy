/** calibration.py: the five screen targets, computing a homography from
    the five camera points clicked at them, and loading a stored one.
    The solver (`cv2.findHomography` with RANSAC) is a parameter that may
    find no matrix. */
module Calibration {
  import opened Common
  import opened Constants
  import opened Config

  /** The four screen corners, clockwise from the top left, then the centre. */
  const CALIB_POINTS: seq<Point> := [
    Point(0, 0),
    Point(SCREEN_WIDTH - 1, 0),
    Point(SCREEN_WIDTH - 1, SCREEN_HEIGHT - 1),
    Point(0, SCREEN_HEIGHT - 1),
    Point(SCREEN_WIDTH / 2, SCREEN_HEIGHT / 2)
  ]

  predicate OnScreen(p: Point) {
    0 <= p.x < SCREEN_WIDTH && 0 <= p.y < SCREEN_HEIGHT
  }

  /** Five pairwise distinct targets, all on the screen. */
  lemma CalibPointsDistinctOnScreen()
    ensures |CALIB_POINTS| == 5
    ensures forall i, j :: 0 <= i < j < |CALIB_POINTS| ==> CALIB_POINTS[i] != CALIB_POINTS[j]
    ensures forall i :: 0 <= i < |CALIB_POINTS| ==> OnScreen(CALIB_POINTS[i])
  {
  }

  datatype CalibrationData = CalibrationData(homography: Option<Matrix>, cameraPoints: seq<Point>, screenPoints: seq<Point>)

  /** What `load_homography` returns when there is no usable matrix. */
  const NO_CALIBRATION: CalibrationData := CalibrationData(None, [], CALIB_POINTS)

  /** `cv2.findHomography(src, dst, cv2.RANSAC)`: a matrix, or none. */
  type Solver = (seq<Point>, seq<Point>) -> Option<Matrix>

  /** The two exceptions `compute_homography` raises. */
  datatype CalibrationError = WrongPointCount | NoHomography

  datatype Computation =
    | Failed(error: CalibrationError)
    | Computed(data: CalibrationData, files: Files)

  /** `compute_homography`: the point count is checked before anything is
      solved, a missing matrix raises before anything is saved, and on
      success the saved triple is the returned one. */
  function ComputeHomography(cameraPoints: seq<Point>, solve: Solver, files: Files,
                             dump: CalibrationDict -> string): (r: Computation)
    ensures |cameraPoints| != |CALIB_POINTS| ==> r == Failed(WrongPointCount)
    ensures |cameraPoints| == |CALIB_POINTS| && solve(cameraPoints, CALIB_POINTS).None? ==> r == Failed(NoHomography)
    ensures r.Computed? <==> |cameraPoints| == |CALIB_POINTS| && solve(cameraPoints, CALIB_POINTS).Some?
    ensures r.Computed? ==>
              && r.data == CalibrationData(solve(cameraPoints, CALIB_POINTS), cameraPoints, CALIB_POINTS)
              && r.files == SaveCalibration(files, r.data.homography, cameraPoints, CALIB_POINTS, dump)
  {
    if |cameraPoints| != |CALIB_POINTS| then Failed(WrongPointCount)
    else
      var h := solve(cameraPoints, CALIB_POINTS);
      if h.None? then Failed(NoHomography)
      else
        var files' := SaveCalibration(files, h, cameraPoints, CALIB_POINTS, dump);
        Computed(CalibrationData(h, cameraPoints, CALIB_POINTS), files')
  }

  /** The part of `load_homography` after `load_calibration` has answered. */
  function FromStored(stored: Option<CalibrationDict>): (data: CalibrationData)
    ensures (stored.None? || stored.value.homography.None?) ==> data == NO_CALIBRATION
    ensures stored.Some? && stored.value.homography.Some? ==>
              && data.homography == stored.value.homography
              && data.cameraPoints == (if stored.value.cameraPoints.Some? then stored.value.cameraPoints.value else [])
              && data.screenPoints == (if stored.value.screenPoints.Some? then stored.value.screenPoints.value else CALIB_POINTS)
  {
    if stored.None? || stored.value.homography.None? then NO_CALIBRATION
    else
      var d := stored.value;
      CalibrationData(d.homography, d.cameraPoints.GetOr([]), d.screenPoints.GetOr(CALIB_POINTS))
  }

  /** `load_homography`: the stored calibration, or none when the file is
      missing, corrupt (it is then backed up) or holds a null matrix. */
  method LoadHomography(files: Files, parse: string -> Option<CalibrationDict>) returns (data: CalibrationData, files': Files)
    ensures CALIBRATION_FILE !in files ==> data == NO_CALIBRATION && files' == files
    ensures CALIBRATION_FILE in files && parse(files[CALIBRATION_FILE]).Some? ==>
              data == FromStored(parse(files[CALIBRATION_FILE])) && files' == files
    ensures CALIBRATION_FILE in files && parse(files[CALIBRATION_FILE]).None? ==>
              data == NO_CALIBRATION && BackedUp(files, CALIBRATION_FILE, files')
  {
    var stored;
    stored, files' := LoadCalibration(files, parse);
    data := FromStored(stored);
  }

  /** A successful computation is what the next start-up loads, provided the
      JSON encoder and decoder agree on the saved record. */
  lemma ComputedIsReloaded(cameraPoints: seq<Point>, solve: Solver, files: Files,
                           parse: string -> Option<CalibrationDict>, dump: CalibrationDict -> string)
    requires ComputeHomography(cameraPoints, solve, files, dump).Computed?
    requires var saved := CalibrationDict(solve(cameraPoints, CALIB_POINTS), Some(cameraPoints), Some(CALIB_POINTS));
             parse(dump(saved)) == Some(saved)
    ensures var r := ComputeHomography(cameraPoints, solve, files, dump);
            && CALIBRATION_FILE in r.files
            && parse(r.files[CALIBRATION_FILE]).Some?
            && FromStored(parse(r.files[CALIBRATION_FILE])) == r.data
  {
  }
}
