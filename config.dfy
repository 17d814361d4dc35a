/** Settings records, their dictionary form, and the file fallbacks of
    config.py. The file system is a map from path to text; JSON reading and
    writing are oracles passed in (`parse` may fail on a corrupt file). A
    dictionary field is `None` when its key is absent. */
module Config {
  import opened Common
  import opened Constants

  type Files = map<string, string>
  type Hsv = (int, int, int)

  datatype CameraConfig = CameraConfig(deviceIndex: int, width: int, height: int, fps: int)

  datatype LaserProfile = LaserProfile(
    lower1: Hsv, upper1: Hsv, lower2: Hsv, upper2: Hsv,
    minArea: int, maxArea: int, morphKernel: int)

  datatype Settings = Settings(
    screenWidth: int, screenHeight: int,
    camera: CameraConfig, laser: LaserProfile,
    dwellMs: int, dwellRadius: int, emaAlpha: real, debugOverlay: bool)

  const DEFAULT_CAMERA: CameraConfig := CameraConfig(0, 640, 480, 30)
  const DEFAULT_LASER: LaserProfile :=
    LaserProfile(LOWER1, UPPER1, LOWER2, UPPER2, MIN_AREA, MAX_AREA, MORPH_KERNEL)
  /** `Settings()`: every field at its declared default. */
  const DEFAULT_SETTINGS: Settings :=
    Settings(1024, 768, DEFAULT_CAMERA, DEFAULT_LASER, 300, 10, 0.35, false)

  datatype CameraDict = CameraDict(deviceIndex: Option<int>, width: Option<int>, height: Option<int>, fps: Option<int>)

  datatype LaserDict = LaserDict(
    lower1: Option<Hsv>, upper1: Option<Hsv>, lower2: Option<Hsv>, upper2: Option<Hsv>,
    minArea: Option<int>, maxArea: Option<int>, morphKernel: Option<int>)

  datatype SettingsDict = SettingsDict(
    screenWidth: Option<int>, screenHeight: Option<int>,
    camera: Option<CameraDict>, laser: Option<LaserDict>,
    dwellMs: Option<int>, dwellRadius: Option<int>, emaAlpha: Option<real>, debugOverlay: Option<bool>)

  const EMPTY_CAMERA_DICT: CameraDict := CameraDict(None, None, None, None)
  const EMPTY_LASER_DICT: LaserDict := LaserDict(None, None, None, None, None, None, None)
  const EMPTY_SETTINGS_DICT: SettingsDict := SettingsDict(None, None, None, None, None, None, None, None)

  /** `CameraConfig(**d)`: keys present in d win, the others take the defaults. */
  function CameraFromDict(d: CameraDict): (c: CameraConfig)
    ensures d.deviceIndex.Some? ==> c.deviceIndex == d.deviceIndex.value
    ensures d.deviceIndex.None? ==> c.deviceIndex == 0
    ensures d.width.Some? ==> c.width == d.width.value
    ensures d.width.None? ==> c.width == 640
    ensures d.height.Some? ==> c.height == d.height.value
    ensures d.height.None? ==> c.height == 480
    ensures d.fps.Some? ==> c.fps == d.fps.value
    ensures d.fps.None? ==> c.fps == 30
  {
    CameraConfig(d.deviceIndex.GetOr(DEFAULT_CAMERA.deviceIndex), d.width.GetOr(DEFAULT_CAMERA.width),
                 d.height.GetOr(DEFAULT_CAMERA.height), d.fps.GetOr(DEFAULT_CAMERA.fps))
  }

  /** `LaserProfile(**d)`: keys present in d win, the others take the
      defaults of constants.py. */
  function LaserFromDict(d: LaserDict): (l: LaserProfile)
    ensures d.lower1.Some? ==> l.lower1 == d.lower1.value
    ensures d.lower1.None? ==> l.lower1 == LOWER1
    ensures d.upper1.Some? ==> l.upper1 == d.upper1.value
    ensures d.upper1.None? ==> l.upper1 == UPPER1
    ensures d.lower2.Some? ==> l.lower2 == d.lower2.value
    ensures d.lower2.None? ==> l.lower2 == LOWER2
    ensures d.upper2.Some? ==> l.upper2 == d.upper2.value
    ensures d.upper2.None? ==> l.upper2 == UPPER2
    ensures d.minArea.Some? ==> l.minArea == d.minArea.value
    ensures d.minArea.None? ==> l.minArea == MIN_AREA
    ensures d.maxArea.Some? ==> l.maxArea == d.maxArea.value
    ensures d.maxArea.None? ==> l.maxArea == MAX_AREA
    ensures d.morphKernel.Some? ==> l.morphKernel == d.morphKernel.value
    ensures d.morphKernel.None? ==> l.morphKernel == MORPH_KERNEL
  {
    LaserProfile(d.lower1.GetOr(LOWER1), d.upper1.GetOr(UPPER1), d.lower2.GetOr(LOWER2), d.upper2.GetOr(UPPER2),
                 d.minArea.GetOr(MIN_AREA), d.maxArea.GetOr(MAX_AREA), d.morphKernel.GetOr(MORPH_KERNEL))
  }

  /** Settings.from_dict. */
  function FromDict(d: SettingsDict): (s: Settings)
    // a missing top-level key falls back to the default of that field
    ensures d.screenWidth.None? ==> s.screenWidth == 1024
    ensures d.screenHeight.None? ==> s.screenHeight == 768
    ensures d.camera.None? ==> s.camera == DEFAULT_CAMERA
    ensures d.laser.None? ==> s.laser == DEFAULT_LASER
    ensures d.dwellMs.None? ==> s.dwellMs == 300
    ensures d.dwellRadius.None? ==> s.dwellRadius == 10
    ensures d.emaAlpha.None? ==> s.emaAlpha == 0.35
    ensures d.debugOverlay.None? ==> !s.debugOverlay
    // a key that is present wins; the nested dictionaries are merged with
    // the defaults key by key
    ensures d.screenWidth.Some? ==> s.screenWidth == d.screenWidth.value
    ensures d.screenHeight.Some? ==> s.screenHeight == d.screenHeight.value
    ensures d.camera.Some? ==> s.camera == CameraFromDict(d.camera.value)
    ensures d.laser.Some? ==> s.laser == LaserFromDict(d.laser.value)
    ensures d.dwellMs.Some? ==> s.dwellMs == d.dwellMs.value
    ensures d.dwellRadius.Some? ==> s.dwellRadius == d.dwellRadius.value
    ensures d.emaAlpha.Some? ==> s.emaAlpha == d.emaAlpha.value
    ensures d.debugOverlay.Some? ==> s.debugOverlay == d.debugOverlay.value
    // an empty dictionary gives exactly Settings()
    ensures d == EMPTY_SETTINGS_DICT ==> s == DEFAULT_SETTINGS
  {
    Settings(
      d.screenWidth.GetOr(1024), d.screenHeight.GetOr(768),
      CameraFromDict(d.camera.GetOr(EMPTY_CAMERA_DICT)), LaserFromDict(d.laser.GetOr(EMPTY_LASER_DICT)),
      d.dwellMs.GetOr(300), d.dwellRadius.GetOr(10), d.emaAlpha.GetOr(0.35), d.debugOverlay.GetOr(false))
  }

  /** Settings.to_dict: every key is written, and reading it back reproduces
      the settings field by field. */
  function ToDict(s: Settings): (d: SettingsDict)
    ensures d.screenWidth.Some? && d.screenHeight.Some? && d.camera.Some? && d.laser.Some?
    ensures d.dwellMs.Some? && d.dwellRadius.Some? && d.emaAlpha.Some? && d.debugOverlay.Some?
    ensures FromDict(d) == s
  {
    var c := s.camera;
    var l := s.laser;
    SettingsDict(
      Some(s.screenWidth), Some(s.screenHeight),
      Some(CameraDict(Some(c.deviceIndex), Some(c.width), Some(c.height), Some(c.fps))),
      Some(LaserDict(Some(l.lower1), Some(l.upper1), Some(l.lower2), Some(l.upper2),
                     Some(l.minArea), Some(l.maxArea), Some(l.morphKernel))),
      Some(s.dwellMs), Some(s.dwellRadius), Some(s.emaAlpha), Some(s.debugOverlay))
  }

  /** The k-th backup name tried for `path`: `path.bak`, `path.bak1`, `path.bak2`, ... */
  function BackupName(path: string, k: nat): (name: string)
    ensures |name| > |path| && name[..|path|] == path
  {
    path + ".bak" + (if k == 0 then "" else Decimal(k))
  }

  lemma BackupNameInjective(path: string, a: nat, b: nat)
    requires BackupName(path, a) == BackupName(path, b)
    ensures a == b
  {
    var prefix := path + ".bak";
    var sa := if a == 0 then "" else Decimal(a);
    var sb := if b == 0 then "" else Decimal(b);
    assert BackupName(path, a)[|prefix|..] == sa;
    assert BackupName(path, b)[|prefix|..] == sb;
    if a != 0 && b != 0 {
      DecimalInjective(a, b);
    }
  }

  /** The first n backup names are n different paths. */
  lemma {:induction false} BackupNamesCount(path: string, n: nat)
    ensures |set k | 0 <= k < n :: BackupName(path, k)| == n
  {
    if n > 0 {
      var before := set k | 0 <= k < n - 1 :: BackupName(path, k);
      var all := set k | 0 <= k < n :: BackupName(path, k);
      BackupNamesCount(path, n - 1);
      assert all == before + {BackupName(path, n - 1)};
      if BackupName(path, n - 1) in before {
        var k :| 0 <= k < n - 1 && BackupName(path, k) == BackupName(path, n - 1);
        BackupNameInjective(path, k, n - 1);
      }
    }
  }

  /** If the first n backup names all exist, there are at least n files. */
  lemma TakenBackupsBound(files: Files, path: string, n: nat)
    requires forall k :: 0 <= k < n ==> BackupName(path, k) in files
    ensures n <= |files|
  {
    var taken := set k | 0 <= k < n :: BackupName(path, k);
    BackupNamesCount(path, n);
    SubsetCardinality(taken, files.Keys);
  }

  /** Candidate k is the first backup name that does not exist. */
  predicate FirstFree(files: Files, path: string, k: nat) {
    BackupName(path, k) !in files && forall j :: 0 <= j < k ==> BackupName(path, j) in files
  }

  /** `after` is `before` with the file at `path` moved to its first free backup name. */
  ghost predicate BackedUp(before: Files, path: string, after: Files) {
    if path !in before then after == before
    else exists k :: FirstFree(before, path, k) && after == (before - {path})[BackupName(path, k) := before[path]]
  }

  /** _backup_corrupt_file: renames an existing file to the first free backup name. */
  method BackupCorruptFile(files: Files, path: string) returns (files': Files, backup: Option<string>)
    ensures path !in files ==> files' == files && backup == None
    ensures path in files ==> backup.Some? && backup.value !in files && path !in files'
                              && exists k :: FirstFree(files, path, k) && backup.value == BackupName(path, k)
    // no existing file is overwritten and the contents survive under the new name
    ensures path in files ==> backup.value in files' && files'[backup.value] == files[path]
    ensures forall q :: q in files && q != path ==> q in files' && files'[q] == files[q]
    ensures BackedUp(files, path, files')
  {
    if path !in files {
      return files, None;
    }
    var name := BackupName(path, 0);
    var counter := 1;
    while name in files
      invariant counter >= 1 && name == BackupName(path, counter - 1)
      invariant forall j :: 0 <= j < counter - 1 ==> BackupName(path, j) in files
      decreases |files| - counter + 1
    {
      TakenBackupsBound(files, path, counter);
      name := BackupName(path, counter);
      counter := counter + 1;
    }
    assert FirstFree(files, path, counter - 1);
    assert name != path;
    files' := (files - {path})[name := files[path]];
    backup := Some(name);
  }

  /** save_settings. */
  function SaveSettings(files: Files, s: Settings, dump: SettingsDict -> string): (files': Files)
    ensures files'.Keys == files.Keys + {CONFIG_FILE}
    ensures files'[CONFIG_FILE] == dump(ToDict(s))
    ensures forall q :: q in files && q != CONFIG_FILE ==> files'[q] == files[q]
  {
    files[CONFIG_FILE := dump(ToDict(s))]
  }

  /** Settings written by save_settings read back as the same settings,
      provided the JSON reader undoes the writer on that dictionary. */
  lemma SaveThenLoad(files: Files, s: Settings, parse: string -> Option<SettingsDict>, dump: SettingsDict -> string)
    requires parse(dump(ToDict(s))) == Some(ToDict(s))
    ensures var saved := SaveSettings(files, s, dump);
            CONFIG_FILE in saved && parse(saved[CONFIG_FILE]).Some?
            && FromDict(parse(saved[CONFIG_FILE]).value) == s
  {
  }

  /** load_settings: the parsed settings when the file reads, otherwise the
      defaults, written back (after a backup of a corrupt file). */
  method LoadSettings(files: Files, parse: string -> Option<SettingsDict>, dump: SettingsDict -> string)
    returns (s: Settings, files': Files)
    ensures CONFIG_FILE in files && parse(files[CONFIG_FILE]).Some? ==>
              s == FromDict(parse(files[CONFIG_FILE]).value) && files' == files
    ensures CONFIG_FILE !in files ==>
              s == DEFAULT_SETTINGS && files' == SaveSettings(files, DEFAULT_SETTINGS, dump)
    ensures CONFIG_FILE in files && parse(files[CONFIG_FILE]).None? ==>
              s == DEFAULT_SETTINGS
              && exists moved :: BackedUp(files, CONFIG_FILE, moved) && files' == SaveSettings(moved, DEFAULT_SETTINGS, dump)
  {
    var current := files;
    if CONFIG_FILE in files {
      var data := parse(files[CONFIG_FILE]);
      if data.Some? {
        return FromDict(data.value), files;
      }
      var backup;
      current, backup := BackupCorruptFile(files, CONFIG_FILE);
    }
    s := DEFAULT_SETTINGS;
    files' := SaveSettings(current, s, dump);
  }

  /** The stored calibration dictionary. `homography` is `None` both when the
      key is absent and when it holds `null`, which the readers treat alike. */
  datatype CalibrationDict = CalibrationDict(
    homography: Option<Matrix>, cameraPoints: Option<seq<Point>>, screenPoints: Option<seq<Point>>)

  /** load_calibration: `None` when the file is missing or corrupt; a corrupt
      file is moved to its backup name first. */
  method LoadCalibration(files: Files, parse: string -> Option<CalibrationDict>)
    returns (stored: Option<CalibrationDict>, files': Files)
    ensures CALIBRATION_FILE !in files ==> stored == None && files' == files
    ensures CALIBRATION_FILE in files && parse(files[CALIBRATION_FILE]).Some? ==>
              stored == parse(files[CALIBRATION_FILE]) && files' == files
    ensures CALIBRATION_FILE in files && parse(files[CALIBRATION_FILE]).None? ==>
              stored == None && CALIBRATION_FILE !in files' && BackedUp(files, CALIBRATION_FILE, files')
  {
    if CALIBRATION_FILE !in files {
      return None, files;
    }
    stored := parse(files[CALIBRATION_FILE]);
    files' := files;
    if stored.None? {
      var backup;
      files', backup := BackupCorruptFile(files, CALIBRATION_FILE);
    }
  }

  /** save_calibration: `null` for a missing matrix, both point lists as given. */
  function SaveCalibration(files: Files, matrix: Option<Matrix>, cameraPoints: seq<Point>, screenPoints: seq<Point>,
                           dump: CalibrationDict -> string): (files': Files)
    ensures files'.Keys == files.Keys + {CALIBRATION_FILE}
    ensures files'[CALIBRATION_FILE] == dump(CalibrationDict(matrix, Some(cameraPoints), Some(screenPoints)))
    ensures forall q :: q in files && q != CALIBRATION_FILE ==> files'[q] == files[q]
  {
    files[CALIBRATION_FILE := dump(CalibrationDict(matrix, Some(cameraPoints), Some(screenPoints)))]
  }
}
