/** calibration_ui.py: collecting one camera point per screen target. */
module CalibrationUi {
  import opened Common
  import opened Config
  import opened Calibration

  const CLICK: string := "click"

  class CalibrationUI {
    /** The target the player is aiming at. */
    var index: int
    var cameraPoints: seq<Point>
    /** Every `on_done(data)` call, oldest first. */
    var completed: seq<CalibrationData>

    /** One point per target passed so far, and a target still to aim at. */
    ghost predicate Valid()
      reads this
    {
      0 <= index < |CALIB_POINTS| && index == |cameraPoints|
    }

    constructor ()
      ensures Valid()
      ensures index == 0 && cameraPoints == [] && completed == []
    {
      index := 0;
      cameraPoints := [];
      completed := [];
    }

    /** `target_point`: the screen point of the current target. */
    function TargetPoint(): (p: Point)
      requires Valid()
      reads this
      ensures p in CALIB_POINTS && OnScreen(p)
    {
      CalibPointsDistinctOnScreen();
      CALIB_POINTS[index]
    }

    /** `handle_pointer`. Only clicks count; the fifth one computes the
        homography from the five points in click order, reports it when the
        computation succeeds, and starts over either way. */
    method HandlePointer(eventType: string, pos: Point, solve: Solver, files: Files,
                         dump: CalibrationDict -> string) returns (files': Files)
      requires Valid()
      modifies this
      ensures Valid()
      ensures eventType != CLICK ==>
                index == old(index) && cameraPoints == old(cameraPoints) && completed == old(completed) && files' == files
      ensures eventType == CLICK && old(index) + 1 < |CALIB_POINTS| ==>
                && cameraPoints == old(cameraPoints) + [pos] && index == old(index) + 1
                && completed == old(completed) && files' == files
      ensures eventType == CLICK && old(index) + 1 == |CALIB_POINTS| ==>
                && index == 0 && cameraPoints == []
                && var r := ComputeHomography(old(cameraPoints) + [pos], solve, files, dump);
                   && (r.Computed? ==> completed == old(completed) + [r.data] && files' == r.files)
                   && (r.Failed? ==> completed == old(completed) && files' == files)
    {
      files' := files;
      if eventType == CLICK {
        cameraPoints := cameraPoints + [pos];
        index := index + 1;
        if index >= |CALIB_POINTS| {
          var r := ComputeHomography(cameraPoints, solve, files, dump);
          if r.Computed? {
            completed := completed + [r.data];
            files' := r.files;
            Reset();
          } else {
            cameraPoints := [];
            index := 0;
          }
        }
      }
    }

    /** `reset`: back to the first target with no points. */
    method Reset()
      modifies this
      ensures Valid()
      ensures index == 0 && cameraPoints == [] && completed == old(completed)
    {
      index := 0;
      cameraPoints := [];
    }
  }
}
