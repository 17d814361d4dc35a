/** The fixed values of constants.py that the modelled logic uses. */
module Constants {

  /** Display defaults for the 100" 4:3 setup. */
  const SCREEN_WIDTH: int := 1024
  const SCREEN_HEIGHT: int := 768
  const FPS: int := 60

  /** The home directory is fixed here; finding it is left to the host. */
  const APP_DIR: string := "~/.laser_arcade"
  const CONFIG_FILE: string := APP_DIR + "/settings.json"
  const CALIBRATION_FILE: string := APP_DIR + "/calibration.json"

  /** LASER_COLOR_PROFILE. */
  const LOWER1: (int, int, int) := (0, 120, 120)
  const UPPER1: (int, int, int) := (8, 255, 255)
  const LOWER2: (int, int, int) := (170, 120, 120)
  const UPPER2: (int, int, int) := (180, 255, 255)
  const MIN_AREA: int := 12
  const MAX_AREA: int := 4000
  const MORPH_KERNEL: int := 3

  const EMA_ALPHA: real := 0.35
  const DWELL_MS: int := 300
  const DWELL_RADIUS: int := 10
}
