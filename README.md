# Laser Arcade, modelled in Dafny

Laser Arcade is a pygame arcade for a projector, a webcam and a laser
pointer. The camera finds the red laser dot, and a homography maps it onto
the screen from five calibration clicks. A dwell detector turns a dot held
still into a click. A menu starts five mini-games: cans, chickens, a ring
target, a reaction test and a paint canvas. A test screen lets the player
choose the camera, its format and the display resolution.

This project models the discrete logic of that pipeline:

- the dwell-click router, which turns laser points into `move` and `click`
  events and passes mouse events through;
- the choice of the best laser blob among the contours, its centroid, the
  exponential smoothing and the confidence;
- the five calibration targets, computing and loading a homography, and
  the five-click calibration screen;
- the settings records, their dictionary form, and the load-or-default
  rules with backups of corrupt files;
- the button grid, the launcher menu and the test screen's panel (labels,
  defaults, de-duplication, dispatch, and applying a selection);
- the rules of the five mini-games.

Each source file becomes one module: `Pointer`, `LaserTracker`,
`Calibration`, `CalibrationUi`, `Config`, `Ui`, `Launcher`, `TestMode`,
`Target`, `Cans`, `Paint`, `Reaction` and `Chickens`. `Common` holds the
shared pieces: optional values, points, pygame rectangles with their
half-open `collidepoint`, Python's `int()` on floats and `str()` on
integers. `Constants` holds the values of `constants.py`.

A Python object whose methods update its fields becomes a Dafny class with
`modifies` clauses. The methods are proved against pure step functions,
such as `Pointer.DwellUpdate`, `Paint.Step`, `Cans.Knock`,
`Chickens.UpdateAll` and `TestMode.ApplySelection`. The lemmas are proved
about those functions. Pure Python code becomes functions and lemmas.

The outside world is handled through parameters and logs:

- Clock and random values are parameters. Random values carry their
  ranges, e.g. `Reaction.WaitInRange` and `Chickens.DrawInRange`.
- The file system is a map from path to text.
- The JSON reader and writer, and OpenCV's homography solver, are function
  parameters that may fail.
- Callbacks are logged in a sequence field: `on_event`, `on_start_app`,
  `on_quit` and `on_done`.

## Model

| member | source | states |
|---|---|---|
| Common.Trunc | laser_arcade/laser_tracker.py:83-84 | Python's `int()` on a float rounds toward zero: the result is the largest integer not above a non-negative value, and the smallest not below a negative one |
| Common.CollidePoint | laser_arcade/ui.py:33-34 | `Rect.collidepoint` is half-open; a rectangle of zero width or height contains no point |
| Common.CollidePointHalfOpen | laser_arcade/ui.py:33-34 | a non-empty rectangle contains its top-left pixel and the pixel at (right - 1, bottom - 1), but no pixel on its right or bottom edge |
| Common.Decimal | laser_arcade/config.py:101 | `str(n)` of a natural number is a non-empty run of ASCII digits, one digit exactly below 10 |
| Common.DecimalInjective | laser_arcade/config.py:101 | distinct counters print as distinct digit strings |
| Common.IntString | laser_arcade/test_mode.py:30-56 | `str(i)` starts with a minus sign exactly for a negative number, and the rest is at least one digit |
| Common.IntStringPrefix | laser_arcade/test_mode.py:30-56 | a printed number followed by a non-digit can be read back: equal texts give the same number and the same remainder |
| Pointer.OutsideIsEuclidean | laser_arcade/pointer.py:40-42 | the integer test `dx²+dy² > r²` (and "always" for a negative radius) agrees with `sqrt(dx²+dy²) > r` |
| Pointer.DwellUpdate | laser_arcade/pointer.py:28-52 | no point clears the anchor without a click; a first point or one outside the radius re-anchors at `now` without a click; a point inside the radius keeps the anchor; a click is reported exactly when both the dwell and the debounce time have passed, and then stamps both times with `now` |
| Pointer.ClickSpacing | laser_arcade/pointer.py:47-51 | with non-decreasing time, consecutive clicks (and the first after the last recorded one) are at least `max(dwell_ms, debounce_ms)` apart |
| Pointer.MovementCancelsDwell | laser_arcade/pointer.py:40-45 | a point that keeps leaving the radius of the previous one never clicks, however much time passes |
| Pointer.PointEvents | laser_arcade/pointer.py:67-77 | a point emits a `move` and then at most one `click`, both at that point and from that source, with the click exactly when the detector reports one; no point emits nothing and drops the anchor |
| Pointer.DwellClickDetector.constructor | laser_arcade/pointer.py:20-26 | the given tuning with debounce 350 by default, no anchor, last click at 0 |
| Pointer.DwellClickDetector.Update | laser_arcade/pointer.py:28-52 | the new state and the click answer are those of `DwellUpdate`, and an anchor always carries its time stamp |
| Pointer.PointerRouter.constructor | laser_arcade/pointer.py:56-65 | a fresh detector with the given dwell time and radius, no last position, source `laser`, no events |
| Pointer.PointerRouter.FeedPoint | laser_arcade/pointer.py:67-77 | the emitted events are appended to the log in order, the detector moves to the state `PointEvents` gives (time in milliseconds), and the source and last position are recorded |
| Pointer.PointerRouter.FeedMouseEvent | laser_arcade/pointer.py:79-82 | exactly one event of the given type and position from `mouse` is logged, and the detector is untouched |
| LaserTracker.Scan | laser_arcade/laser_tracker.py:73-85 | the best area the contour loop leaves is never negative |
| LaserTracker.ScanBounds | laser_arcade/laser_tracker.py:74-85 | best_area is at least every qualifying area, and is itself a qualifying area unless it is 0; a reported centroid belongs to a qualifying contour with non-zero m00 |
| LaserTracker.ScanSettled | laser_arcade/laser_tracker.py:79-80 | contours that do not exceed the running best area change neither the area nor the centroid |
| LaserTracker.FirstMaximumWins | laser_arcade/laser_tracker.py:79-85 | of equal largest areas the first one scanned wins; if its m00 is 0 the centroid left by the earlier contours is kept |
| LaserTracker.SelectBlob | laser_arcade/laser_tracker.py:73-85 | the loop computes `Scan`: no contour outside the area bounds is chosen, and the area is the largest qualifying one |
| LaserTracker.EffectiveAlpha | laser_arcade/laser_tracker.py:93 | the alpha used is never 0: a zero `ema_alpha` gives exactly 0.35 and any other value is kept; a configured alpha in [0, 1] gives an alpha in (0, 1] |
| LaserTracker.BlendBetween | laser_arcade/laser_tracker.py:94 | for alpha in [0, 1] the smoothed coordinate lies between the previous smoothed value and the new raw one, and alpha 1 gives the raw value |
| LaserTracker.Smooth | laser_arcade/laser_tracker.py:87-95 | the first centroid seeds the smoothed position; later, with alpha in [0, 1], each coordinate lands between the previous smoothed value and the new centroid, and alpha 1 jumps onto the centroid |
| LaserTracker.Confidence | laser_arcade/laser_tracker.py:97 | the confidence lies in [0, 1], is 0 exactly when the best area is 0, and is 1 once the area reaches `max(min_area, 1)` |
| LaserTracker.LaserTracker.constructor | laser_arcade/laser_tracker.py:27-30 | the given settings and no smoothed position |
| LaserTracker.LaserTracker.Read | laser_arcade/laser_tracker.py:73-110 | the detection reports the best area, its confidence and the frame time; without a centroid the point is none and the smoothed position survives; with one the smoothed position is updated and the point is its truncation; with a configured alpha in [0, 1] the smoothed position moves toward the new centroid and never past it |
| Calibration.CalibPointsDistinctOnScreen | laser_arcade/calibration.py:16-22 | the five targets are pairwise distinct and all on the 1024x768 screen |
| Calibration.ComputeHomography | laser_arcade/calibration.py:32-43 | a count other than 5 fails before solving; a solver without a matrix fails before saving; otherwise the saved triple is the one returned, and it succeeds exactly in that case |
| Calibration.FromStored | laser_arcade/calibration.py:48-55 | nothing stored, or a null matrix, gives no calibration with the default targets; otherwise the stored matrix, with missing point lists defaulted to `[]` and to the targets |
| Calibration.LoadHomography | laser_arcade/calibration.py:46-55 | a missing file gives no calibration; a readable one gives `FromStored` of its contents; a corrupt one is backed up and gives no calibration |
| Calibration.ComputedIsReloaded | laser_arcade/calibration.py:42-55 | what a successful computation saves is what `load_homography` returns next, given a JSON reader that undoes the writer |
| CalibrationUi.CalibrationUI.constructor | laser_arcade/calibration_ui.py:15-21 | the first target, no points, nothing reported |
| CalibrationUi.CalibrationUI.TargetPoint | laser_arcade/calibration_ui.py:23-24 | the current target is one of the five and on screen, so it is always defined |
| CalibrationUi.CalibrationUI.HandlePointer | laser_arcade/calibration_ui.py:26-38 | non-clicks change nothing; a click before the fifth appends the position and advances; the fifth computes from the five positions in click order, reports the result only on success, and starts over either way; `index == len(camera_points) < 5` throughout |
| CalibrationUi.CalibrationUI.Reset | laser_arcade/calibration_ui.py:40-42 | back to the first target with no points |
| Config.FromDict | laser_arcade/config.py:57-70 | each of the eight keys, when present, gives its field; a missing one takes the default (1024x768, dwell 300 ms, radius 10, alpha 0.35, no overlay, default camera and laser); the nested camera and laser dictionaries are merged key by key; an empty dictionary gives `Settings()` |
| Config.CameraFromDict | laser_arcade/config.py:64 | `CameraConfig(**d)`: a present key gives its field, a missing one the default (device 0, 640x480, 30 fps) |
| Config.LaserFromDict | laser_arcade/config.py:65 | `LaserProfile(**d)`: a present key gives its field, a missing one the default HSV bounds, areas 12 and 4000, and kernel 3 |
| Config.ToDict | laser_arcade/config.py:45-55 | every key is written and `from_dict(to_dict(s)) == s` |
| Config.BackupName | laser_arcade/config.py:98-101 | every backup name extends the original path |
| Config.BackupNameInjective | laser_arcade/config.py:98-101 | distinct counters give distinct backup names |
| Config.BackupNamesCount | laser_arcade/config.py:100-102 | the first n backup names are n distinct paths |
| Config.TakenBackupsBound | laser_arcade/config.py:100-102 | n taken backup names need at least n files, so the search for a free name ends |
| Config.BackupCorruptFile | laser_arcade/config.py:94-106 | an absent file changes nothing; otherwise the file moves to the first free name of `.bak`, `.bak1`, …, no existing file is overwritten and its contents survive under the new name |
| Config.SaveSettings | laser_arcade/config.py:88-91 | the settings file holds the written dictionary and every other file is unchanged |
| Config.SaveThenLoad | laser_arcade/config.py:73-91 | settings written by `save_settings` read back as the same settings, given a JSON reader that undoes the writer |
| Config.LoadSettings | laser_arcade/config.py:73-85 | a readable file gives its settings and writes nothing; a missing file gives the defaults and writes them; a corrupt file is backed up first, then the defaults are written and returned |
| Config.LoadCalibration | laser_arcade/config.py:109-118 | a missing file gives none; a readable one gives its contents; a corrupt one is backed up and gives none |
| Config.SaveCalibration | laser_arcade/config.py:121-129 | the calibration file holds the matrix (null when absent) and both point lists as given; other files are untouched |
| Ui.LayoutGrid | laser_arcade/ui.py:37-57 | one `(label, rect)` per label in input order; item i sits in column `i mod columns` and row `i div columns`, of size `button_width x button_height` |
| Ui.RowsIsCeiling | laser_arcade/ui.py:46-52 | `rows` is the ceiling of `len(labels) / columns`, and every item's row is below `rows` |
| Ui.GridCentred | laser_arcade/ui.py:48-49 | the space above the block and the space below it differ by at most one pixel |
| Ui.CellsApart | laser_arcade/ui.py:54-56 | cells in different grid positions share no point when the padding is non-negative |
| Ui.GridDisjoint | laser_arcade/ui.py:51-56 | with non-negative padding, the rectangles of distinct items do not overlap |
| Launcher.HandleClick | laser_arcade/launcher.py:58-66 | an app name starts that app; "Kalibrierung" and "Testmodus" start `__calibrate__` and `__test__`; quit happens exactly for "Beenden"; exactly the labels outside the menu do nothing |
| Ui.Button.Contains | laser_arcade/ui.py:33-34 | a button of zero width or height can never be hit |
| Launcher.ActionsDistinct | laser_arcade/launcher.py:44-66 | every menu button has an action, and no two buttons have the same one |
| Launcher.ClickActions | laser_arcade/launcher.py:68-72 | a click fires at most one action per button |
| Launcher.ActionsFromHitButtons | laser_arcade/launcher.py:70-72 | every fired action is that of a button containing the click |
| Launcher.HitButtonsFire | laser_arcade/launcher.py:70-72 | every button containing the click whose label has an action fires that action |
| Launcher.NoHitNoAction | laser_arcade/launcher.py:70-72 | a click on no button fires nothing |
| Launcher.AtMostOneAction | laser_arcade/launcher.py:70-72 | with pairwise disjoint buttons a click fires at most one action |
| Launcher.Launcher.constructor | laser_arcade/launcher.py:30-56 | one button per label (the five apps in `APP_CLASSES` order, then calibration, test mode and quit), each in its cell of the two-column grid |
| Launcher.Launcher.ButtonsDisjoint | laser_arcade/launcher.py:43-56 | the menu's buttons never overlap |
| Launcher.Launcher.HandlePointer | laser_arcade/launcher.py:68-72 | non-clicks fire nothing; a click logs the actions of the buttons containing it, which is at most one |
| TestMode.Gcd | laser_arcade/test_mode.py:42-43 | the gcd is 0 exactly when both numbers are 0 |
| TestMode.PyGcd | laser_arcade/test_mode.py:42 | `math.gcd` on signed integers is 0 exactly when both are 0 |
| TestMode.GcdDividesBoth | laser_arcade/test_mode.py:42-43 | the gcd divides both sides |
| TestMode.GcdGreatest | laser_arcade/test_mode.py:42-43 | every common divisor divides the gcd |
| TestMode.RatioDivisor | laser_arcade/test_mode.py:41-44 | the shown ratio divides both sides exactly by their greatest common divisor |
| TestMode.Ratio | laser_arcade/test_mode.py:42-43 | the ratio is shown as "-" exactly for a 0x0 size |
| TestMode.RatioExamples | laser_arcade/test_mode.py:41-44 | 1024x768 shows 4:3 and a 0x0 size shows "-" |
| TestMode.CameraLabel | laser_arcade/test_mode.py:30-33 | the label starts with the device path, and ends with " (nicht verfügbar)" exactly when the camera is not available |
| TestMode.CameraLabelInjective | laser_arcade/test_mode.py:30-33 | equal labels mean the same device index and availability, and for available cameras the same size and rate |
| TestMode.ResolutionLabel | laser_arcade/test_mode.py:41-44 | the label ends with the bracketed ratio |
| TestMode.ResolutionLabelInjective | laser_arcade/test_mode.py:41-44 | different resolutions get different labels |
| TestMode.FormatLabel | laser_arcade/test_mode.py:53-56 | the label ends with the bracketed ratio |
| TestMode.FormatLabelInjective | laser_arcade/test_mode.py:53-56 | different formats get different labels |
| TestMode.ProbeCamera | laser_arcade/test_mode.py:174-193 | a probed width, height or rate is kept only when it is positive and the device is available; otherwise the configured value is used |
| TestMode.FirstMatch | laser_arcade/test_mode.py:196-198 | the index of the first element that matches, or the length when none does |
| TestMode.FirstOrDefault | laser_arcade/test_mode.py:195-199 | the first matching option, else the first option, and none exactly for an empty list |
| TestMode.FindSelectedOption | laser_arcade/test_mode.py:195-199 | the preselected camera is one of the options: the first one with the configured device index when there is one, else the first option; none only without options |
| TestMode.FindSelectedFormat | laser_arcade/test_mode.py:218-226 | the preselected format is one of the options: the configured format whenever that is offered, else the first option; none only without options |
| TestMode.FindSelectedResolution | laser_arcade/test_mode.py:228-232 | the preselected resolution is the configured screen size when it is offered, else the first option; none only without options |
| TestMode.Upsert | laser_arcade/test_mode.py:214-215 | storing under an existing key replaces the value at that key's place and leaves every other entry as it was; a new key is appended; unique keys stay unique |
| TestMode.FromList | laser_arcade/test_mode.py:214 | the dictionary's values have unique keys, and a list that already has them is kept as is |
| TestMode.BuildFormatOptions | laser_arcade/test_mode.py:201-216 | the defaults in order with unique `(w, h, fps)` keys, including the current format, which is appended only when it is new |
| TestMode.CurrentFormatOnce | laser_arcade/test_mode.py:208-216 | the current format occurs exactly once |
| TestMode.SelectedFormatIsCurrent | laser_arcade/test_mode.py:201-226 | on the built format list the preselected format is always the configured one |
| TestMode.BuildPanel | laser_arcade/test_mode.py:260-346 | one button per option in each section, all in one column of the panel's left edge and width, with heights 38, 44, 34, 36 and 44 per section, none above the top of the camera list |
| TestMode.PanelDisjoint | laser_arcade/test_mode.py:260-346 | the panel's buttons are stacked without overlap, whatever the metrics and option counts |
| TestMode.Dispatch | laser_arcade/test_mode.py:118-139 | the chosen button contains the click, and nothing is chosen exactly when no button contains it |
| TestMode.DispatchFinds | laser_arcade/test_mode.py:118-139 | when exactly one button contains the click, that button is the one dispatched |
| TestMode.DispatchUnique | laser_arcade/test_mode.py:118-139 | on the built panel, a click inside any button runs that button, so the order of the checks never matters |
| TestMode.ApplySelection | laser_arcade/test_mode.py:363-387 | no selection only sets a message; an unavailable device leaves the camera alone and sets the error; otherwise it sets the device, then width, height and fps to at least 1 from the format (else the camera), saves, and takes the callback's status |
| TestMode.ApplyResolution | laser_arcade/test_mode.py:389-401 | without a selection only the message is set; otherwise the selection becomes the screen size and is saved, nothing else changes but the status, and the status is the failure message if the rebuild raised, the callback's own non-empty message, or "Auflösung übernommen." when there is no callback or it returned nothing or "" |
| TestMode.TestMode.constructor | laser_arcade/test_mode.py:62-104 | the options, the preselections and the panel come from the settings; the camera is assumed fine and nothing is saved |
| TestMode.TestMode.HandlePointer | laser_arcade/test_mode.py:118-139 | a move only records the position; a click runs exactly the action of the dispatched button: a selection clears the message, and apply / reload apply their selections |
| Target.FirstRingValueIsFirstCovering | laser_arcade/apps/target.py:27-30 | the value scored is that of the first ring in list order covering the click, or nothing when none covers it |
| Target.AnyHitScoresFive | laser_arcade/apps/target.py:19-30 | as written, every click within radius 160 scores exactly 5 and any other click scores nothing |
| Target.BullseyeScoresFive | laser_arcade/apps/target.py:19-30 | the centre scores 5 as written, where the innermost-ring order scores 50 |
| Target.InnermostBands | laser_arcade/apps/target.py:19-30 | with the rings tested from the smallest, each band scores its ring's value (50, 20, 10, 5) and outside scores 0 |
| Target.TargetApp.constructor | laser_arcade/apps/target.py:14-20 | score 0, centred at `(w div 2, h div 2)` |
| Target.TargetApp.HandlePointer | laser_arcade/apps/target.py:22-30 | non-clicks leave the score; a click adds the value of the first covering ring; the score never falls and grows by at most 5 |
| Cans.InitialCans | laser_arcade/apps/cans.py:27-35 | six standing 80x120 cans at `x = 100 + 100 i`, `y = height - 170` |
| Cans.Knock | laser_arcade/apps/cans.py:39-42 | the cans keep their places, and a can is standing afterwards exactly when it stood and was not under the click |
| Cans.Hits | laser_arcade/apps/cans.py:39-42 | a click hits no more cans than there are |
| Cans.HitsZero | laser_arcade/apps/cans.py:39-42 | a click hits nothing exactly when no standing can is under it |
| Cans.DeadCount | laser_arcade/apps/cans.py:43 | no more cans are down than there are, and none is down exactly when every can stands |
| Cans.AllDeadCount | laser_arcade/apps/cans.py:43-44 | every can is down exactly when the dead count is the whole row |
| Cans.NoneDeadCount | laser_arcade/apps/cans.py:27-35 | a freshly set-up row has no fallen can |
| Cans.KnockCounts | laser_arcade/apps/cans.py:39-42 | a click adds to the dead count exactly the cans it hits |
| Cans.CansDisjoint | laser_arcade/apps/cans.py:31-35 | no two cans of the row overlap |
| Cans.HitsAtMostOne | laser_arcade/apps/cans.py:39-42 | with disjoint cans a click knocks over at most one |
| Cans.NoHits | laser_arcade/apps/cans.py:39-42 | a click under no can hits nothing |
| Cans.CansApp.constructor | laser_arcade/apps/cans.py:22-25 | a fresh row of standing cans with score 0 |
| Cans.CansApp.Reset | laser_arcade/apps/cans.py:27-35 | score 0 and a fresh row; keeps the invariant score = 10 x fallen cans with some can standing |
| Cans.CansApp.HandlePointer | laser_arcade/apps/cans.py:37-44 | non-clicks change nothing; a click knocks the cans under it for 10 points each, or sets the row up again with score 0 once all are down; score = 10 x fallen cans and some can standing is kept; a click adds at most 10 |
| Cans.CansApp.KnockDown | laser_arcade/apps/cans.py:39-42 | the click loop knocks over exactly `Knock` and adds 10 per hit |
| Paint.Next | laser_arcade/apps/paint.py:18-19 | the colour cycle stays on one of the five colours |
| Paint.Initial | laser_arcade/apps/paint.py:18-22 | the first colour, no lines and no last position |
| Paint.Step | laser_arcade/apps/paint.py:24-31 | the colour stays the cycle's; the old lines stay a prefix and at most one is added; other events change nothing |
| Paint.Run | laser_arcade/apps/paint.py:24-31 | the colour stays the cycle's over any sequence of events |
| Paint.RunCycle | laser_arcade/apps/paint.py:24-26 | the colour cycle after a run follows the clicks of the events |
| Paint.CyclePositionWraps | laser_arcade/apps/paint.py:18-19 | the cycle moves on one place per click and wraps after five |
| Paint.CycleAfter | laser_arcade/apps/paint.py:24-31 | after any events the cycle has moved on by the number of clicks, mod 5 |
| Paint.StepCycle | laser_arcade/apps/paint.py:24-31 | only a click moves the cycle, by one |
| Paint.ColorAfterClicks | laser_arcade/apps/paint.py:18-26 | after k clicks, however mixed with moves, the colour is `colors[k mod 5]` |
| Paint.LinesOnlyGrow | laser_arcade/apps/paint.py:28-31 | the drawn lines only grow; existing entries never change |
| Paint.MovesJoin | laser_arcade/apps/paint.py:28-31 | two moves draw joined segments in the current colour: the second starts where the first ends |
| Paint.ClickLiftsPen | laser_arcade/apps/paint.py:25-31 | after a click the next move draws nothing and starts a new line, in a different colour |
| Paint.PaintApp.constructor | laser_arcade/apps/paint.py:15-22 | the initial canvas |
| Paint.PaintApp.HandlePointer | laser_arcade/apps/paint.py:24-31 | the new state is `Step` of the old one |
| Reaction.NewTarget | laser_arcade/apps/reaction.py:27-35 | a new target is 80x80 and lies within `[50, width-50] x [80, height-50]` |
| Reaction.Min | laser_arcade/apps/reaction.py:39-40 | the minimum is one of the times and no larger than any |
| Reaction.BestAppend | laser_arcade/apps/reaction.py:39-40 | recording a time keeps the smaller of the old best and the new time, as the `min(...) if best_time else timer` update does |
| Reaction.BestNeverIncreases | laser_arcade/apps/reaction.py:39-40 | the best time never gets worse |
| Reaction.ReactionApp.constructor | laser_arcade/apps/reaction.py:15-18 | a reset app |
| Reaction.ReactionApp.Reset | laser_arcade/apps/reaction.py:20-25 | a new target, no best time, a new wait in [1.0, 2.5], an idle timer |
| Reaction.ReactionApp.HandlePointer | laser_arcade/apps/reaction.py:37-44 | a click while idle or off target changes nothing; a hit records a positive time, leaves `timer = 0`, inactive, with a new wait and target; the best time stays the minimum of the recorded times and never rises |
| Reaction.ReactionApp.Update | laser_arcade/apps/reaction.py:46-54 | the wait counts down; the target lights up and the timer runs only once it is over; a timer past 10 s ends the round; afterwards `timer <= 10` |
| Chickens.Digits | laser_arcade/apps/chickens.py:29 | only digits are kept, and no more characters than the stem has; `DigitsAppend`, `DigitsMembers` and `AllDigitsKept` show every digit of the stem is kept, in order |
| Chickens.DigitsAppend | laser_arcade/apps/chickens.py:29 | the filtered digits of a concatenation are those of its first part followed by those of its second, so the filter keeps the stem's order |
| Chickens.DigitsMembers | laser_arcade/apps/chickens.py:29 | a character survives the filter exactly when it is a digit of the stem |
| Chickens.AllDigitsKept | laser_arcade/apps/chickens.py:29 | a stem of digits only is kept whole |
| Chickens.KeyExamples | laser_arcade/apps/chickens.py:28-30 | the stem "frame12" sorts as 12 and "frame" as 0 |
| Chickens.Insert | laser_arcade/apps/chickens.py:32 | inserting into a sorted list keeps it sorted and adds exactly that path |
| Chickens.SortedByNumber | laser_arcade/apps/chickens.py:27-32 | the result is ordered by key and a permutation of the input |
| Chickens.InsertWithKey | laser_arcade/apps/chickens.py:32 | an inserted path goes behind the paths with its key, and other keys' paths keep their order |
| Chickens.SortIsStable | laser_arcade/apps/chickens.py:27-32 | for every key, the paths with that key keep their input order |
| Chickens.NoDigitsIsZero | laser_arcade/apps/chickens.py:28-30 | a stem without digits sorts as 0 |
| Chickens.UpdateSprite | laser_arcade/apps/chickens.py:68-85 | frame indices stay within the frame lists; a flying chicken only moves sideways and a falling one only drops; removal, once set, stays; a falling chicken is marked only after its last death frame, a flying one only beyond 120 pixels off screen |
| Chickens.ShootSprite | laser_arcade/apps/chickens.py:91-95 | alive becomes dead at death frame 0 with a zero timer; a dead one is left alone |
| Chickens.FallingTakesAllFrames | laser_arcade/apps/chickens.py:78-84 | a falling chicken is removed only after one update per remaining death frame |
| Chickens.RunSprite | laser_arcade/apps/chickens.py:68-85 | over any sequence of updates the frame counts and alive flag stay, and the indices stay in range |
| Chickens.UpdateAll | laser_arcade/apps/chickens.py:277-280 | no chicken left in the list is marked for removal, and the frame indices stay in range |
| Chickens.KeptWereUpdated | laser_arcade/apps/chickens.py:277-280 | every chicken kept is the update of one that was there |
| Chickens.UpdatedAreKept | laser_arcade/apps/chickens.py:277-280 | every updated chicken not marked for removal is kept |
| Chickens.UpdateEach | laser_arcade/apps/chickens.py:277-280 | the loop over a copy of the list computes `UpdateAll` |
| Chickens.Spawn | laser_arcade/apps/chickens.py:243-264 | a flying chicken of the drawn kind's size and points, 40 pixels off the side it enters from, at the drawn height and with the signed speed |
| Chickens.SpawnHeadsIn | laser_arcade/apps/chickens.py:252-262 | a new chicken starts off screen and flies toward it |
| Chickens.FirstHit | laser_arcade/apps/chickens.py:231-237 | the first flying chicken under the pointer, or none when no flying chicken is under it |
| Chickens.FirstHitIs | laser_arcade/apps/chickens.py:231-237 | the chicken where the loop stops is the first hit |
| Chickens.FirstHitNone | laser_arcade/apps/chickens.py:231-237 | a loop that finds nobody matches no hit |
| Chickens.ShotKillsAtMostOne | laser_arcade/apps/chickens.py:226-241 | a shot changes at most one chicken, and after a hit the best score is at least the score |
| Chickens.ChickenApp.constructor | laser_arcade/apps/chickens.py:101-128 | the menu: pointer at the centre, scores 0, 90 s, no chickens, no flash |
| Chickens.ChickenApp.HandlePointer | laser_arcade/apps/chickens.py:187-201 | the pointer always follows; a press starts a round from the menu, returns to the menu from game over with score 0, 90 s and no chickens, and shoots during play; other events change nothing else; the best score never falls |
| Chickens.ChickenApp.StartGame | laser_arcade/apps/chickens.py:203-211 | a fresh 90-second round: score 0, no chickens, no flash |
| Chickens.ChickenApp.Shoot | laser_arcade/apps/chickens.py:226-241 | nothing outside play; during play the first flying chicken under the pointer falls and adds its points, the best score catches up, and the crosshair flashes for 0.15 s |
| Chickens.ChickenApp.Update | laser_arcade/apps/chickens.py:266-289 | the menu changes nothing; during play the clock runs down to 0 and never below, a chicken is spawned every 1.4 s, no chicken left is marked for removal, and the round ends with the best score caught up when the clock reaches 0; the flash fades outside the menu |
| Chickens.ChickenApp.Advance | laser_arcade/apps/chickens.py:271-285 | the playing part of `update`: clock, spawning, the chickens' loop and game over |
| Chickens.ChickenApp.FadeFlash | laser_arcade/apps/chickens.py:286-289 | a flashing crosshair counts down, and stops once its timer reaches 0 |

## Left out

- OpenCV is not modelled: colour masks, morphology, `findContours`, `moments`, `findHomography`, `perspectiveTransform` and `apply_homography`. These are foreign floating-point routines. A contour is its area and moments, and the solver is a parameter.
- Camera I/O is not modelled: `LaserTracker.start/stop`, frame capture, `_discover_cameras`, `_silence_opencv_logs` and `VideoCapture` probing. `TestMode.ProbeCamera` takes what the capture reported as parameters.
- Rendering is not modelled: every `draw` and `_draw_*`, fonts, colours, the mask preview, `make_font` and `render_label`. Nothing there changes state.
- `_panel_metrics` depends on font line heights, so `TestMode.PanelMetrics` is a parameter of the constructor.
- `TestMode.set_detection`, `set_camera_status` and `update` are not modelled. They are plain field stores or feed only the drawing.
- TestMode.TestMode.constructor: the panel is laid out once, at construction, and stays fixed. `update_context` stores a new screen and lays the buttons out again for it, which changes which button a click reaches; that re-layout is not modelled, and no caller in the source passes a new screen.
- Sound, music, image loading and `_scale_frames` in the chicken game are left out, and so is `pygame.mouse.set_pos`. A sprite keeps only how many flight and death frames it has.
- `__main__.py` is not part of this model. It is the pygame event loop, and several of its calls do not match the current signatures.
- Wall-clock time is a parameter: `now`, `dt` and `frameTs`. `random.uniform`, `randint` and `choice` become parameters limited to their ranges.
- Pointer.PointEvents: the source reads `time.time()` twice, once for the events and once inside `detector.update`. The model uses one `now` for both, the detector's in milliseconds.
- Python floats are modelled as exact reals. float32 rounding in the smoothing, and floating-point error in timers and EMA values, are not modelled.
- Calibration.FromStored: the stored matrix is returned exactly. The source converts it to a float32 array, so `Calibration.ComputedIsReloaded` holds only up to that rounding.
- Calibration.ComputedIsReloaded: assumes a JSON reader that undoes the writer. Python's `json` writes the point tuples as arrays and reads them back as lists, so the reloaded point lists are lists of lists; the model does not tell a tuple from a list.
- JSON reading and writing are function parameters, over records whose fields are optional (absent key).
  - Unknown keys, which would make `CameraConfig(**d)` raise, are not modelled.
  - Values of the wrong JSON type are not modelled.
  - Exceptions other than a failed parse are not modelled.
- The file system is a map from path to text. OS errors, the failed-rename branch of `_backup_corrupt_file`, `mkdir` and write atomicity are not modelled. The home directory is the fixed string `~/.laser_arcade`.
- Callbacks become logs: `on_event`, `on_start_app`, `on_quit` and `on_done`. `save_settings` calls in the test screen become the `saved` list. `on_camera_change` and `on_resolution_change` are represented by their answers.
- CalibrationUi.CalibrationUI.HandlePointer: `on_done` cannot fail. In the source, an exception raised by `on_done` is caught with the solver's and also starts the calibration over.
- Config.SaveThenLoad: assumes a JSON reader that undoes the writer. Python's `json` writes the HSV tuples as arrays and reads them back as lists, so the reloaded `LaserProfile` holds lists and Python's `==` with the saved settings is false. The model does not tell a tuple from a list.
- The launcher's button actions are lambdas over the label. Here a button holds its caption, and `Launcher.HandleClick` maps the caption to its action.
- Chickens.Digits: keeps only the ASCII digits '0' to '9'. `str.isdigit` also accepts other Unicode digits, on some of which, such as '²', `int()` then raises.
- Chickens.ChickenApp.constructor: requires at least one flight frame and one death frame. With an empty flight folder the source raises IndexError in `ChickenSprite.draw` (apps/chickens.py:88), or ZeroDivisionError in `update` once the flap timer runs out. With an empty death folder `update` only marks a shot chicken for removal (apps/chickens.py:81-84), and `draw` raises IndexError if it reaches the chicken first.
- Reaction.ReactionApp.constructor: the drawn corner must satisfy `Reaction.CornerInRange`, so screens narrower than 180 or lower than 210 pixels are excluded. There `randint` raises ValueError.
- Ui.LayoutGrid: requires `columns >= 1`. Python raises on 0 columns and uses floor division for negative ones, which the menus never pass.
- Chicken sprites and cans are values in a `seq` field, not shared objects, so aliasing of the Python objects is not modelled.
  - `chickens.remove(c)` removes the first element equal to `c`. Two equal sprites after the update are both marked, so dropping the updated sprite itself gives the same list.
- TestMode.ApplySelection / TestMode.ApplyResolution: the settings are a value in `ModeState.settings`. The source changes the caller's `Settings` object in place (`cam_cfg = self.settings.camera`, test_mode.py:372-381 and 393-394), so every holder of that object sees the change; in the model the caller sees it only through the new `settings` and the `saved` list.
- The paint app's `itertools.cycle` becomes a `cycle` field: the index of the colour it yielded last.
- `Paint.Step`: leaves out the `lines[-2000:]` window, which only limits what is drawn.
- `Reaction.ReactionApp`: the recorded times are a ghost field, `times`. The source keeps only their minimum, in `best_time`.

## Findings

| source | as written | input that shows it | evidently intended | confidence | as-written member | corrected member |
|---|---|---|---|---|---|---|
| laser_arcade/apps/target.py:19-30 | the rings are tested widest first (160, 120, 80, 40) and the first covering ring wins, so every hit scores 5 | a click at the centre (`dist² = 0`) scores 5 | the innermost covering ring counts: 50 within 40, 20 within 80, 10 within 120, 5 within 160 | not executed | Target.AnyHitScoresFive, Target.BullseyeScoresFive | Target.InnermostRingValue, Target.InnermostBands |

`Target.TargetApp.HandlePointer` keeps the source's ring order.
`Target.InnermostRingValue` tests the same rings from the smallest.
