/** test_mode.py: the camera / resolution panel of the test screen. The
    option labels with their aspect ratios, the probing fallback, choosing
    the preselected options, the de-duplicated format list, the layout of
    the panel's buttons below the font-dependent top, the click dispatch and
    the two "apply" actions. Device discovery, OpenCV probing and drawing are
    not modelled; the callbacks' answers are parameters. */
module TestMode {
  import opened Common
  import opened Config

  // ---------------------------------------------------------------- gcd

  function Mul(a: int, b: int): int {
    a * b
  }

  /** d divides n. */
  ghost predicate Divides(d: int, n: int) {
    exists k :: Mul(d, k) == n
  }

  /** Euclid's algorithm on natural numbers, as `math.gcd` computes it. */
  function Gcd(a: nat, b: nat): (g: nat)
    ensures g == 0 <==> a == 0 && b == 0
    decreases b
  {
    if b == 0 then a else Gcd(b, a % b)
  }

  /** `math.gcd` on integers: the gcd of the absolute values. */
  function PyGcd(a: int, b: int): (g: nat)
    ensures g == 0 <==> a == 0 && b == 0
  {
    Gcd(if a < 0 then -a else a, if b < 0 then -b else b)
  }

  /** The gcd divides both arguments. */
  lemma {:induction false} GcdDividesBoth(a: nat, b: nat)
    ensures Divides(Gcd(a, b), a) && Divides(Gcd(a, b), b)
    decreases b
  {
    var g := Gcd(a, b);
    if b == 0 {
      assert Mul(g, 1) == a;
      assert Mul(g, 0) == b;
    } else {
      GcdDividesBoth(b, a % b);
      var k1 :| Mul(g, k1) == b;
      var k2 :| Mul(g, k2) == a % b;
      var q := a / b;
      assert a == q * b + a % b;
      assert q * (g * k1) + g * k2 == g * (q * k1 + k2);
      assert Mul(g, q * k1 + k2) == a;
      assert Mul(g, k1) == b;
    }
  }

  /** Every common divisor divides the gcd, so it is the greatest one. */
  lemma {:induction false} GcdGreatest(a: nat, b: nat, d: int)
    requires Divides(d, a) && Divides(d, b)
    ensures Divides(d, Gcd(a, b))
    decreases b
  {
    if b != 0 {
      var ka :| Mul(d, ka) == a;
      var kb :| Mul(d, kb) == b;
      var q := a / b;
      assert a % b == a - q * b;
      assert d * ka - q * (d * kb) == d * (ka - q * kb);
      assert Mul(d, ka - q * kb) == a % b;
      GcdGreatest(b, a % b, d);
    }
  }

  /** The ratio part of the labels: `w//g:h//g`, or "-" when g is 0. */
  function Ratio(width: int, height: int): (r: string)
    ensures r == "-" <==> width == 0 && height == 0
  {
    var g := PyGcd(width, height);
    if g == 0 then "-" else
      var r := IntString(width / g) + ":" + IntString(height / g);
      assert |r| >= 3;
      r
  }

  /** The divisor of a shown ratio divides both sides exactly, and every
      common divisor of the sides divides it. */
  lemma RatioDivisor(width: int, height: int)
    requires PyGcd(width, height) != 0
    ensures var g := PyGcd(width, height);
            && (width / g) * g == width && (height / g) * g == height
            && (forall d :: Divides(d, width) && Divides(d, height) && d > 0 ==> d <= g)
  {
    var a := if width < 0 then -width else width;
    var b := if height < 0 then -height else height;
    var g := Gcd(a, b);
    GcdDividesBoth(a, b);
    var ka :| Mul(g, ka) == a;
    var kb :| Mul(g, kb) == b;
    ExactQuotient(width, g, if width < 0 then -ka else ka);
    ExactQuotient(height, g, if height < 0 then -kb else kb);
    forall d | Divides(d, width) && Divides(d, height) && d > 0
      ensures d <= g
    {
      var ja :| Mul(d, ja) == width;
      var jb :| Mul(d, jb) == height;
      assert Mul(d, if width < 0 then -ja else ja) == a;
      assert Mul(d, if height < 0 then -jb else jb) == b;
      GcdGreatest(a, b, d);
      var k :| Mul(d, k) == g;
      assert k >= 1;
      PositiveMultiple(d, k);
    }
  }

  lemma ExactQuotient(n: int, g: int, k: int)
    requires g > 0 && n == g * k
    ensures n / g == k && (n / g) * g == n
  {
    var q, r := n / g, n % g;
    assert n == g * q + r && 0 <= r < g;
    assert g * (k - q) == r;
    SmallMultiple(g, k - q);
  }

  /** A multiple of g strictly between -g and g is 0. */
  lemma SmallMultiple(g: int, t: int)
    requires g > 0 && -g < g * t < g
    ensures t == 0
  {
    if t >= 1 {
      PositiveMultiple(g, t);
      assert false;
    } else if t <= -1 {
      PositiveMultiple(g, -t);
      assert false;
    }
  }

  lemma PositiveMultiple(d: int, k: int)
    requires d > 0 && k >= 1
    ensures d <= d * k
  {
    assert d * k == d + d * (k - 1);
    assert d * (k - 1) >= 0;
  }

  // ---------------------------------------------------------------- options

  datatype CameraOption = CameraOption(index: int, path: string, available: bool, width: int, height: int, fps: int)
  datatype ResolutionOption = ResolutionOption(width: int, height: int)
  datatype CameraFormatOption = CameraFormatOption(width: int, height: int, fps: int)

  const UNAVAILABLE_SUFFIX: string := " (nicht verfügbar)"

  predicate EndsWith(s: string, suffix: string) {
    |suffix| <= |s| && s[|s| - |suffix|..] == suffix
  }

  lemma EndsWithAppend(p: string, s: string, suffix: string)
    requires EndsWith(s, suffix)
    ensures EndsWith(p + s, suffix)
  {
    assert (p + s)[|p + s| - |suffix|..] == s[|s| - |suffix|..];
  }

  lemma PrefixCancel(p: string, x: string, y: string)
    requires p + x == p + y
    ensures x == y
  {
    assert x == (p + x)[|p|..] && y == (p + y)[|p|..];
  }

  /** A label cannot end both in a frame rate and in the unavailable mark. */
  lemma EndingsDiffer(l: string)
    requires EndsWith(l, "fps)")
    ensures !EndsWith(l, UNAVAILABLE_SUFFIX)
  {
    assert l[|l| - 2] == 's';
  }

  // The labels below are built right to left, `a + (b + c)`, so that
  // reading them back peels one piece off the front at a time.

  /** `CameraOption.label`: the device path, then either its format or the
      mark that it is not available. */
  function CameraLabel(o: CameraOption): (l: string)
    ensures |l| > 10 && l[..10] == "/dev/video"
    ensures !o.available <==> EndsWith(l, UNAVAILABLE_SUFFIX)
  {
    var tail := if o.available then CameraDetails(o) else UNAVAILABLE_SUFFIX;
    var l := "/dev/video" + (IntString(o.index) + tail);
    var ending := if o.available then "fps)" else UNAVAILABLE_SUFFIX;
    EndsWithAppend(IntString(o.index), tail, ending);
    EndsWithAppend("/dev/video", IntString(o.index) + tail, ending);
    if o.available then EndingsDiffer(l); l else l
  }

  /** What follows the device path in the label of an available camera:
      ` (WxH @ Ffps)`. */
  function CameraDetails(o: CameraOption): (d: string)
    ensures EndsWith(d, "fps)")
  {
    var fps := IntString(o.fps) + "fps)";
    var rest := "x" + (IntString(o.height) + (" @ " + fps));
    EndsWithAppend(IntString(o.fps), "fps)", "fps)");
    EndsWithAppend(" @ ", fps, "fps)");
    EndsWithAppend(IntString(o.height), " @ " + fps, "fps)");
    EndsWithAppend("x", IntString(o.height) + (" @ " + fps), "fps)");
    EndsWithAppend(IntString(o.width), rest, "fps)");
    EndsWithAppend(" (", IntString(o.width) + rest, "fps)");
    " (" + (IntString(o.width) + rest)
  }

  /** ` (w:h)`, closing both labels below. */
  function RatioPart(width: int, height: int): (r: string)
    ensures EndsWith(r, ")")
  {
    " (" + Ratio(width, height) + ")"
  }

  /** `ResolutionOption.label`: `WxH (w:h)`. */
  function ResolutionLabel(o: ResolutionOption): (l: string)
    ensures EndsWith(l, RatioPart(o.width, o.height))
  {
    var ratio := RatioPart(o.width, o.height);
    EndsWithAppend(IntString(o.height), ratio, ratio);
    EndsWithAppend("x", IntString(o.height) + ratio, ratio);
    EndsWithAppend(IntString(o.width), "x" + (IntString(o.height) + ratio), ratio);
    IntString(o.width) + ("x" + (IntString(o.height) + ratio))
  }

  /** `CameraFormatOption.label`: `WxH @ Ffps (w:h)`. */
  function FormatLabel(o: CameraFormatOption): (l: string)
    ensures EndsWith(l, RatioPart(o.width, o.height))
  {
    var ratio := RatioPart(o.width, o.height);
    var fps := IntString(o.fps) + ("fps" + ratio);
    EndsWithAppend("fps", ratio, ratio);
    EndsWithAppend(IntString(o.fps), "fps" + ratio, ratio);
    EndsWithAppend(" @ ", fps, ratio);
    EndsWithAppend(IntString(o.height), " @ " + fps, ratio);
    EndsWithAppend("x", IntString(o.height) + (" @ " + fps), ratio);
    EndsWithAppend(IntString(o.width), "x" + (IntString(o.height) + (" @ " + fps)), ratio);
    IntString(o.width) + ("x" + (IntString(o.height) + (" @ " + fps)))
  }

  /** Different cameras get different labels: the label gives back the
      device index, whether it is available and, if so, its format. */
  lemma CameraLabelInjective(a: CameraOption, b: CameraOption)
    requires CameraLabel(a) == CameraLabel(b)
    ensures a.index == b.index && a.available == b.available
    ensures a.available ==> a.width == b.width && a.height == b.height && a.fps == b.fps
  {
    var ta := if a.available then CameraDetails(a) else UNAVAILABLE_SUFFIX;
    var tb := if b.available then CameraDetails(b) else UNAVAILABLE_SUFFIX;
    PrefixCancel("/dev/video", IntString(a.index) + ta, IntString(b.index) + tb);
    IntStringPrefix(a.index, b.index, ta, tb);
    if a.available {
      DetailsInjective(a, b);
    }
  }

  lemma DetailsInjective(a: CameraOption, b: CameraOption)
    requires CameraDetails(a) == CameraDetails(b)
    ensures a.width == b.width && a.height == b.height && a.fps == b.fps
  {
    var fa, fb := IntString(a.fps) + "fps)", IntString(b.fps) + "fps)";
    var ha, hb := IntString(a.height) + (" @ " + fa), IntString(b.height) + (" @ " + fb);
    PrefixCancel(" (", IntString(a.width) + ("x" + ha), IntString(b.width) + ("x" + hb));
    IntStringPrefix(a.width, b.width, "x" + ha, "x" + hb);
    PrefixCancel("x", ha, hb);
    IntStringPrefix(a.height, b.height, " @ " + fa, " @ " + fb);
    PrefixCancel(" @ ", fa, fb);
    IntStringPrefix(a.fps, b.fps, "fps)", "fps)");
  }

  /** Different resolutions get different labels. */
  lemma ResolutionLabelInjective(a: ResolutionOption, b: ResolutionOption)
    requires ResolutionLabel(a) == ResolutionLabel(b)
    ensures a == b
  {
    var ra, rb := RatioPart(a.width, a.height), RatioPart(b.width, b.height);
    IntStringPrefix(a.width, b.width, "x" + (IntString(a.height) + ra), "x" + (IntString(b.height) + rb));
    PrefixCancel("x", IntString(a.height) + ra, IntString(b.height) + rb);
    IntStringPrefix(a.height, b.height, ra, rb);
  }

  /** Different formats get different labels. */
  lemma FormatLabelInjective(a: CameraFormatOption, b: CameraFormatOption)
    requires FormatLabel(a) == FormatLabel(b)
    ensures a == b
  {
    var ra, rb := RatioPart(a.width, a.height), RatioPart(b.width, b.height);
    var fa, fb := IntString(a.fps) + ("fps" + ra), IntString(b.fps) + ("fps" + rb);
    var ha, hb := IntString(a.height) + (" @ " + fa), IntString(b.height) + (" @ " + fb);
    IntStringPrefix(a.width, b.width, "x" + ha, "x" + hb);
    PrefixCancel("x", ha, hb);
    IntStringPrefix(a.height, b.height, " @ " + fa, " @ " + fb);
    PrefixCancel(" @ ", fa, fb);
    IntStringPrefix(a.fps, b.fps, "fps" + ra, "fps" + rb);
  }

  /** 1024x768 is shown as 4:3; a 0x0 size shows no ratio. */
  lemma RatioExamples()
    ensures Ratio(1024, 768) == "4:3"
    ensures Ratio(0, 0) == "-"
  {
    assert Gcd(1024, 768) == 256;
    assert 1024 / 256 == 4 && 768 / 256 == 3;
    assert IntString(4) == "4" && IntString(3) == "3";
  }

  /** `_probe_camera` after the capture answered: a probed size or rate is
      kept only when positive, otherwise the configured one is used. An
      unavailable device reports nothing, so it gets the configured values. */
  function ProbeCamera(index: int, path: string, available: bool, probedWidth: int, probedHeight: int, probedFps: int,
                       camera: CameraConfig): (o: CameraOption)
    ensures o.index == index && o.path == path && o.available == available
    ensures o.width == if available && probedWidth > 0 then probedWidth else camera.width
    ensures o.height == if available && probedHeight > 0 then probedHeight else camera.height
    ensures o.fps == if available && probedFps > 0 then probedFps else camera.fps
  {
    var width := if available then probedWidth else 0;
    var height := if available then probedHeight else 0;
    var fps := if available then probedFps else 0;
    var width' := if width > 0 then width else camera.width;
    var height' := if height > 0 then height else camera.height;
    var fps' := if fps > 0 then fps else camera.fps;
    CameraOption(index, path, available,
                 if width' != 0 then width' else camera.width,
                 if height' != 0 then height' else camera.height,
                 if fps' != 0 then fps' else camera.fps)
  }

  /** The index of the first element satisfying `p`, or the length. */
  function FirstMatch<T>(s: seq<T>, p: T -> bool): (i: nat)
    ensures i <= |s|
    ensures i < |s| ==> p(s[i])
    ensures forall k :: 0 <= k < i ==> !p(s[k])
  {
    if s == [] then 0 else if p(s[0]) then 0 else 1 + FirstMatch(s[1..], p)
  }

  /** The `_find_selected_*` rule: the first matching option, else the
      first option, else nothing. */
  function FirstOrDefault<T>(s: seq<T>, p: T -> bool): (r: Option<T>)
    ensures r.None? <==> s == []
    ensures r.Some? ==> r.value in s
    ensures (exists k :: 0 <= k < |s| && p(s[k])) ==>
              r.Some? && p(r.value) && exists i :: 0 <= i < |s| && s[i] == r.value && forall k :: 0 <= k < i ==> !p(s[k])
    ensures s != [] && (forall k :: 0 <= k < |s| ==> !p(s[k])) ==> r == Some(s[0])
  {
    var i := FirstMatch(s, p);
    if i < |s| then Some(s[i]) else if s == [] then None else Some(s[0])
  }

  /** `_find_selected_option`: the camera with the configured device index. */
  function FindSelectedOption(options: seq<CameraOption>, camera: CameraConfig): (r: Option<CameraOption>)
    ensures r.None? <==> options == []
    ensures r.Some? ==> r.value in options
    ensures (exists k :: 0 <= k < |options| && options[k].index == camera.deviceIndex) ==>
              r.Some? && r.value.index == camera.deviceIndex &&
              exists i :: 0 <= i < |options| && r == Some(options[i]) &&
                forall k :: 0 <= k < i ==> options[k].index != camera.deviceIndex
    ensures options != [] && (forall k :: 0 <= k < |options| ==> options[k].index != camera.deviceIndex) ==>
              r == Some(options[0])
  {
    FirstOrDefault(options, (o: CameraOption) => o.index == camera.deviceIndex)
  }

  /** `_find_selected_format`: the format equal to the configured one. */
  function FindSelectedFormat(options: seq<CameraFormatOption>, camera: CameraConfig): (r: Option<CameraFormatOption>)
    ensures r.None? <==> options == []
    ensures r.Some? ==> r.value in options
    ensures CameraFormatOption(camera.width, camera.height, camera.fps) in options ==>
              r == Some(CameraFormatOption(camera.width, camera.height, camera.fps))
    ensures options != [] && CameraFormatOption(camera.width, camera.height, camera.fps) !in options ==> r == Some(options[0])
  {
    FirstOrDefault(options, (o: CameraFormatOption) => o.width == camera.width && o.height == camera.height && o.fps == camera.fps)
  }

  /** `_find_selected_resolution`: the resolution of the configured screen. */
  function FindSelectedResolution(options: seq<ResolutionOption>, s: Settings): (r: Option<ResolutionOption>)
    ensures r.None? <==> options == []
    ensures r.Some? ==> r.value in options
    ensures ResolutionOption(s.screenWidth, s.screenHeight) in options ==>
              r == Some(ResolutionOption(s.screenWidth, s.screenHeight))
    ensures options != [] && ResolutionOption(s.screenWidth, s.screenHeight) !in options ==> r == Some(options[0])
  {
    FirstOrDefault(options, (o: ResolutionOption) => o.width == s.screenWidth && o.height == s.screenHeight)
  }

  const DEFAULT_FORMATS: seq<CameraFormatOption> := [
    CameraFormatOption(640, 480, 30),
    CameraFormatOption(800, 600, 30),
    CameraFormatOption(1024, 768, 30),
    CameraFormatOption(1280, 720, 30)
  ]

  const RESOLUTIONS: seq<ResolutionOption> := [
    ResolutionOption(1024, 768),
    ResolutionOption(1280, 720),
    ResolutionOption(1600, 900),
    ResolutionOption(1920, 1080)
  ]

  /** The dictionary key of a format. */
  function Key(o: CameraFormatOption): (int, int, int) {
    (o.width, o.height, o.fps)
  }

  predicate DistinctKeys(s: seq<CameraFormatOption>) {
    forall i, j :: 0 <= i < j < |s| ==> Key(s[i]) != Key(s[j])
  }

  /** `d[key(o)] = o` on an insertion-ordered dict kept as its values: an
      existing key keeps its place and takes the new value, a new key goes
      last. */
  function Upsert(s: seq<CameraFormatOption>, o: CameraFormatOption): (r: seq<CameraFormatOption>)
    ensures DistinctKeys(s) ==> DistinctKeys(r)
    ensures o in r
    ensures (exists i :: 0 <= i < |s| && Key(s[i]) == Key(o)) ==>
              exists i :: 0 <= i < |s| && Key(s[i]) == Key(o) && r == s[i := o] &&
                forall k :: 0 <= k < i ==> Key(s[k]) != Key(o)
    ensures DistinctKeys(s) ==> forall i :: 0 <= i < |s| && Key(s[i]) == Key(o) ==> r == s[i := o]
    ensures (forall i :: 0 <= i < |s| ==> Key(s[i]) != Key(o)) ==> r == s + [o]
  {
    var i := FirstMatch(s, (x: CameraFormatOption) => Key(x) == Key(o));
    if i < |s| then
      assert s[i := o][i] == o;
      s[i := o]
    else s + [o]
  }

  /** `{key(o): o for o in options}` as the list of its values. */
  function FromList(options: seq<CameraFormatOption>): (r: seq<CameraFormatOption>)
    ensures DistinctKeys(r)
    ensures DistinctKeys(options) ==> r == options
  {
    if options == [] then []
    else
      var init := options[..|options| - 1];
      assert DistinctKeys(options) ==> DistinctKeys(init) by {
        if DistinctKeys(options) {
          forall i, j | 0 <= i < j < |init| ensures Key(init[i]) != Key(init[j]) {
            assert init[i] == options[i] && init[j] == options[j];
          }
        }
      }
      Upsert(FromList(init), options[|options| - 1])
  }

  /** `_build_format_options`: the defaults in order, each key once, and
      the configured format exactly once, appended only when it is new. */
  function BuildFormatOptions(camera: CameraConfig): (r: seq<CameraFormatOption>)
    ensures DistinctKeys(r)
    ensures var current := CameraFormatOption(camera.width, camera.height, camera.fps);
            && current in r
            && (current in DEFAULT_FORMATS ==> r == DEFAULT_FORMATS)
            && (current !in DEFAULT_FORMATS ==> r == DEFAULT_FORMATS + [current])
  {
    var current := CameraFormatOption(camera.width, camera.height, camera.fps);
    var options := FromList(DEFAULT_FORMATS);
    var r := Upsert(options, current);
    assert current in DEFAULT_FORMATS ==> r == DEFAULT_FORMATS by {
      if current in DEFAULT_FORMATS {
        var k :| 0 <= k < |DEFAULT_FORMATS| && DEFAULT_FORMATS[k] == current;
        assert options == DEFAULT_FORMATS;
        assert r == DEFAULT_FORMATS[k := current];
      }
    }
    r
  }

  /** The configured format occurs exactly once among the options. */
  lemma CurrentFormatOnce(camera: CameraConfig)
    ensures var r := BuildFormatOptions(camera);
            var current := CameraFormatOption(camera.width, camera.height, camera.fps);
            exists i :: 0 <= i < |r| && r[i] == current && forall j :: 0 <= j < |r| && j != i ==> r[j] != current
  {
    var r := BuildFormatOptions(camera);
    var current := CameraFormatOption(camera.width, camera.height, camera.fps);
    var i :| 0 <= i < |r| && r[i] == current;
    forall j | 0 <= j < |r| && j != i
      ensures r[j] != current
    {
      if j < i {
        assert Key(r[j]) != Key(r[i]);
      } else {
        assert Key(r[i]) != Key(r[j]);
      }
    }
  }

  /** The format the panel preselects is always the configured one. */
  lemma SelectedFormatIsCurrent(camera: CameraConfig)
    ensures FindSelectedFormat(BuildFormatOptions(camera), camera) == Some(CameraFormatOption(camera.width, camera.height, camera.fps))
  {
  }

  // ---------------------------------------------------------------- panel

  /** What `_panel_metrics` derives from the screen and font sizes: the
      buttons' left edge and width and the top of the camera list. */
  datatype PanelMetrics = PanelMetrics(buttonX: int, buttonWidth: int, cameraButtonsTop: int)

  datatype Panel = Panel(cameras: seq<Rect>, apply: Rect, formats: seq<Rect>, resolutions: seq<Rect>, reload: Rect)

  const SPACING: int := 8

  function Max1(n: int): int {
    if n > 1 then n else 1
  }

  /** `n` buttons of height `h` stacked from `top` with the panel's spacing. */
  function Stack(x: int, w: int, top: int, h: int, n: nat): (rs: seq<Rect>)
    ensures |rs| == n
    ensures forall i :: 0 <= i < n ==> rs[i] == Rect(x, top + i * (h + SPACING), w, h)
  {
    seq(n, i => Rect(x, top + i * (h + SPACING), w, h))
  }

  /** `_build_buttons`: camera buttons, apply, format buttons, resolution
      buttons and reload, top to bottom. */
  function BuildPanel(m: PanelMetrics, cameraCount: nat, formatCount: nat, resolutionCount: nat): (p: Panel)
    ensures |p.cameras| == cameraCount && |p.formats| == formatCount && |p.resolutions| == resolutionCount
    // one column: every button has the panel's left edge and width
    ensures var all := AllButtons(p); forall k :: 0 <= k < |all| ==> all[k].x == m.buttonX && all[k].w == m.buttonWidth
    // the section heights: 38 per camera, 34 per format, 36 per resolution, 44 for both apply buttons
    ensures (forall i :: 0 <= i < cameraCount ==> p.cameras[i].h == 38)
            && (forall i :: 0 <= i < formatCount ==> p.formats[i].h == 34)
            && (forall i :: 0 <= i < resolutionCount ==> p.resolutions[i].h == 36)
            && p.apply.h == 44 && p.reload.h == 44
    // nothing is placed above the top of the camera list
    ensures var all := AllButtons(p); forall k :: 0 <= k < |all| ==> all[k].y >= m.cameraButtonsTop
  {
    var x, w, y := m.buttonX, m.buttonWidth, m.cameraButtonsTop;
    var applyY := y + Max1(cameraCount) * (38 + SPACING) + 4;
    var formatTop := applyY + 44 + 12;
    var resolutionTop := formatTop + Max1(formatCount) * (34 + SPACING) + 16;
    var reloadY := resolutionTop + Max1(resolutionCount) * (36 + SPACING) + 4;
    Panel(Stack(x, w, y, 38, cameraCount), Rect(x, applyY, w, 44),
          Stack(x, w, formatTop, 34, formatCount), Stack(x, w, resolutionTop, 36, resolutionCount),
          Rect(x, reloadY, w, 44))
  }

  /** The panel's buttons from top to bottom. */
  function AllButtons(p: Panel): seq<Rect> {
    p.cameras + [p.apply] + p.formats + p.resolutions + [p.reload]
  }

  /** Each rectangle ends above the next one begins. */
  predicate Descending(rs: seq<Rect>) {
    (forall k :: 0 <= k < |rs| ==> rs[k].h >= 0)
    && forall k :: 0 <= k < |rs| - 1 ==> rs[k].y + rs[k].h <= rs[k + 1].y
  }

  lemma {:induction false} DescendingApart(rs: seq<Rect>, i: int, j: int)
    requires Descending(rs) && 0 <= i < j < |rs|
    ensures rs[i].y + rs[i].h <= rs[j].y
    decreases j - i
  {
    if i + 1 < j {
      DescendingApart(rs, i + 1, j);
    }
  }

  lemma DescendingConcat(a: seq<Rect>, b: seq<Rect>)
    requires Descending(a) && Descending(b)
    requires a != [] && b != [] ==> a[|a| - 1].y + a[|a| - 1].h <= b[0].y
    ensures Descending(a + b)
  {
    var c := a + b;
    forall k | 0 <= k < |c| - 1
      ensures c[k].y + c[k].h <= c[k + 1].y
    {
      if k + 1 < |a| {
        assert c[k] == a[k] && c[k + 1] == a[k + 1];
      } else if k + 1 == |a| {
        assert c[k] == a[|a| - 1] && c[k + 1] == b[0];
      } else {
        assert c[k] == b[k - |a|] && c[k + 1] == b[k - |a| + 1];
      }
    }
  }

  lemma StackDescending(x: int, w: int, top: int, h: int, n: nat)
    requires h >= 0
    ensures Descending(Stack(x, w, top, h, n))
  {
    var rs := Stack(x, w, top, h, n);
    forall k | 0 <= k < n - 1
      ensures rs[k].y + rs[k].h <= rs[k + 1].y
    {
      assert rs[k + 1].y == rs[k].y + (h + SPACING);
    }
  }

  /** The last button of a stack of n sits above the section that follows
      at `top + max(n, 1) * (h + spacing)`. */
  lemma StackEnd(x: int, w: int, top: int, h: int, n: nat)
    requires n > 0 && h >= 0
    ensures var rs := Stack(x, w, top, h, n);
            rs[n - 1].y + rs[n - 1].h <= top + Max1(n) * (h + SPACING)
  {
    assert top + (n - 1) * (h + SPACING) + h + SPACING == top + n * (h + SPACING);
  }

  /** The panel's buttons are stacked without overlap, so no point lies in
      two of them. */
  lemma PanelDisjoint(m: PanelMetrics, cameraCount: nat, formatCount: nat, resolutionCount: nat)
    ensures var all := AllButtons(BuildPanel(m, cameraCount, formatCount, resolutionCount));
            forall i, j :: 0 <= i < j < |all| ==> Disjoint(all[i], all[j])
  {
    var p := BuildPanel(m, cameraCount, formatCount, resolutionCount);
    var x, w, y := m.buttonX, m.buttonWidth, m.cameraButtonsTop;
    var applyY := y + Max1(cameraCount) * (38 + SPACING) + 4;
    var formatTop := applyY + 44 + 12;
    var resolutionTop := formatTop + Max1(formatCount) * (34 + SPACING) + 16;
    StackDescending(x, w, y, 38, cameraCount);
    StackDescending(x, w, formatTop, 34, formatCount);
    StackDescending(x, w, resolutionTop, 36, resolutionCount);
    if cameraCount > 0 { StackEnd(x, w, y, 38, cameraCount); }
    if formatCount > 0 { StackEnd(x, w, formatTop, 34, formatCount); }
    if resolutionCount > 0 { StackEnd(x, w, resolutionTop, 36, resolutionCount); }
    DescendingConcat(p.cameras, [p.apply]);
    DescendingConcat(p.cameras + [p.apply], p.formats);
    var upper := p.cameras + [p.apply] + p.formats;
    assert upper[|upper| - 1].y + upper[|upper| - 1].h <= resolutionTop;
    DescendingConcat(upper, p.resolutions);
    var lower := upper + p.resolutions;
    assert lower[|lower| - 1].y + lower[|lower| - 1].h <= p.reload.y;
    DescendingConcat(lower, [p.reload]);
    var all := lower + [p.reload];
    forall i, j | 0 <= i < j < |all|
      ensures Disjoint(all[i], all[j])
    {
      DescendingApart(all, i, j);
      SeparatedVertically(all[i], all[j]);
    }
  }

  /** Which button a click runs, in `handle_pointer`'s order of checks. */
  datatype Target = CameraButton(i: nat) | ApplyButton | FormatButton(i: nat) | ResolutionButton(i: nat) | ReloadButton | NoButton

  function Hit(pos: Point): Rect -> bool {
    (r: Rect) => CollidePoint(r, pos)
  }

  /** The click dispatch: the first camera button under the pointer, else
      apply, else the first format button, else the first resolution
      button, else reload. */
  function Dispatch(p: Panel, pos: Point): (t: Target)
    ensures t.CameraButton? ==> t.i < |p.cameras| && CollidePoint(p.cameras[t.i], pos)
    ensures t.FormatButton? ==> t.i < |p.formats| && CollidePoint(p.formats[t.i], pos)
    ensures t.ResolutionButton? ==> t.i < |p.resolutions| && CollidePoint(p.resolutions[t.i], pos)
    ensures t == ApplyButton ==> CollidePoint(p.apply, pos)
    ensures t == ReloadButton ==> CollidePoint(p.reload, pos)
    ensures t == NoButton <==> forall r :: r in AllButtons(p) ==> !CollidePoint(r, pos)
  {
    var c := FirstMatch(p.cameras, Hit(pos));
    var f := FirstMatch(p.formats, Hit(pos));
    var s := FirstMatch(p.resolutions, Hit(pos));
    if c < |p.cameras| then CameraButton(c)
    else if CollidePoint(p.apply, pos) then ApplyButton
    else if f < |p.formats| then FormatButton(f)
    else if s < |p.resolutions| then ResolutionButton(s)
    else if CollidePoint(p.reload, pos) then ReloadButton
    else NoButton
  }

  // ---------------------------------------------------------------- state

  /** The fields of TestMode the panel changes. `saved` holds the settings
      of every `save_settings` call, oldest first. */
  datatype ModeState = ModeState(
    settings: Settings,
    selectedOption: Option<CameraOption>,
    selectedFormat: Option<CameraFormatOption>,
    selectedResolution: Option<ResolutionOption>,
    lastMapped: Option<Point>,
    cameraOk: bool,
    cameraError: Option<string>,
    statusMessage: Option<string>,
    saved: seq<Settings>)

  const NO_DEVICE: string := "Kein Gerät ausgewählt."
  const UNAVAILABLE: string := "Gerät nicht verfügbar."
  const RESTARTED: string := "Gespeichert und Kamera neu gestartet."
  const NO_RESOLUTION: string := "Keine Auflösung ausgewählt."
  const RESOLUTION_APPLIED: string := "Auflösung übernommen."
  const RELOAD_FAILED: string := "Fehler beim Neuaufbau der Anzeige."

  /** What `on_resolution_change` does when called: absent, returning a
      message (or None), or raising. */
  datatype ReloadOutcome = NoReloadCallback | Reloaded(message: Option<string>) | ReloadRaised

  /** `_apply_selection`. `cameraChange` is what `on_camera_change`
      returns, or None when no callback is set. */
  function ApplySelection(s: ModeState, cameraChange: Option<(bool, Option<string>)>): (r: ModeState)
    ensures r.selectedOption == s.selectedOption && r.selectedFormat == s.selectedFormat
    ensures r.selectedResolution == s.selectedResolution && r.lastMapped == s.lastMapped
    ensures s.selectedOption.None? ==> r == s.(statusMessage := Some(NO_DEVICE))
    ensures s.selectedOption.Some? && !s.selectedOption.value.available ==>
              r == s.(statusMessage := Some(UNAVAILABLE), cameraOk := false, cameraError := Some(UNAVAILABLE))
    ensures s.selectedOption.Some? && s.selectedOption.value.available ==>
              var o := s.selectedOption.value;
              var cam := r.settings.camera;
              && r.settings == s.settings.(camera := cam)
              && cam.deviceIndex == o.index
              && cam.width >= 1 && cam.height >= 1 && cam.fps >= 1
              && (s.selectedFormat.Some? ==>
                    cam.width == Max1(s.selectedFormat.value.width) && cam.height == Max1(s.selectedFormat.value.height)
                    && cam.fps == Max1(s.selectedFormat.value.fps))
              && (s.selectedFormat.None? ==>
                    cam.width == Max1(o.width) && cam.height == Max1(o.height) && cam.fps == Max1(o.fps))
              && r.saved == s.saved + [r.settings]
              && (cameraChange.Some? ==> r.cameraOk == cameraChange.value.0 && r.cameraError == cameraChange.value.1)
              && (cameraChange.None? ==> r.cameraOk == s.cameraOk && r.cameraError == s.cameraError)
              && r.statusMessage == (if r.cameraOk then Some(RESTARTED) else r.cameraError)
  {
    if s.selectedOption.None? then s.(statusMessage := Some(NO_DEVICE))
    else if !s.selectedOption.value.available then
      s.(statusMessage := Some(UNAVAILABLE), cameraOk := false, cameraError := Some(UNAVAILABLE))
    else
      var o := s.selectedOption.value;
      var cam := s.settings.camera.(deviceIndex := o.index);
      var cam' := if s.selectedFormat.Some? then
                    var f := s.selectedFormat.value;
                    cam.(width := Max1(f.width), height := Max1(f.height), fps := Max1(f.fps))
                  else
                    cam.(width := Max1(o.width), height := Max1(o.height), fps := Max1(o.fps));
      var settings := s.settings.(camera := cam');
      var ok := if cameraChange.Some? then cameraChange.value.0 else s.cameraOk;
      var error := if cameraChange.Some? then cameraChange.value.1 else s.cameraError;
      s.(settings := settings, saved := s.saved + [settings], cameraOk := ok, cameraError := error,
         statusMessage := if ok then Some(RESTARTED) else error)
  }

  /** `_apply_resolution`: the selected resolution becomes the screen size
      and is saved before the display is rebuilt; the status says how that
      went. */
  function ApplyResolution(s: ModeState, reload: ReloadOutcome): (r: ModeState)
    ensures r.settings.camera == s.settings.camera
    ensures s.selectedResolution.None? ==> r == s.(statusMessage := Some(NO_RESOLUTION))
    ensures s.selectedResolution.Some? ==>
              var res := s.selectedResolution.value;
              var settings := s.settings.(screenWidth := res.width, screenHeight := res.height);
              && r.statusMessage.Some?
              && r == s.(settings := settings, saved := s.saved + [settings], statusMessage := r.statusMessage)
    // the status: the failure message if the rebuild raised, the callback's
    // own non-empty message, and otherwise the default
    ensures s.selectedResolution.Some? ==>
              && (reload.ReloadRaised? ==> r.statusMessage == Some(RELOAD_FAILED))
              && (reload.Reloaded? && reload.message.Some? && reload.message.value != "" ==>
                    r.statusMessage == reload.message)
              && (reload.Reloaded? && (reload.message.None? || reload.message.value == "") ==>
                    r.statusMessage == Some(RESOLUTION_APPLIED))
              && (reload.NoReloadCallback? ==> r.statusMessage == Some(RESOLUTION_APPLIED))
  {
    if s.selectedResolution.None? then s.(statusMessage := Some(NO_RESOLUTION))
    else
      var res := s.selectedResolution.value;
      var settings := s.settings.(screenWidth := res.width, screenHeight := res.height);
      var status := match reload
        case ReloadRaised => RELOAD_FAILED
        case NoReloadCallback => RESOLUTION_APPLIED
        case Reloaded(message) => if message.Some? && message.value != "" then message.value else RESOLUTION_APPLIED;
      s.(settings := settings, saved := s.saved + [settings], statusMessage := Some(status))
  }

  class TestMode {
    const cameraOptions: seq<CameraOption>
    const formatOptions: seq<CameraFormatOption>
    const resolutionOptions: seq<ResolutionOption>
    const panel: Panel

    var settings: Settings
    var selectedOption: Option<CameraOption>
    var selectedFormat: Option<CameraFormatOption>
    var selectedResolution: Option<ResolutionOption>
    var lastMapped: Option<Point>
    var cameraOk: bool
    var cameraError: Option<string>
    var statusMessage: Option<string>
    var saved: seq<Settings>

    function State(): ModeState
      reads this
    {
      ModeState(settings, selectedOption, selectedFormat, selectedResolution, lastMapped, cameraOk, cameraError,
                statusMessage, saved)
    }

    /** `__init__` with the discovered cameras and the panel metrics. */
    constructor (settings: Settings, cameraOptions: seq<CameraOption>, metrics: PanelMetrics)
      ensures Valid()
      ensures this.cameraOptions == cameraOptions
      ensures formatOptions == BuildFormatOptions(settings.camera) && resolutionOptions == RESOLUTIONS
      ensures panel == BuildPanel(metrics, |cameraOptions|, |formatOptions|, |resolutionOptions|)
      ensures State() == ModeState(settings, FindSelectedOption(cameraOptions, settings.camera),
                                   FindSelectedFormat(formatOptions, settings.camera),
                                   FindSelectedResolution(RESOLUTIONS, settings), None, true, None, None, [])
    {
      this.settings := settings;
      this.cameraOptions := cameraOptions;
      selectedOption := FindSelectedOption(cameraOptions, settings.camera);
      var formats := BuildFormatOptions(settings.camera);
      formatOptions := formats;
      selectedFormat := FindSelectedFormat(formats, settings.camera);
      resolutionOptions := RESOLUTIONS;
      selectedResolution := FindSelectedResolution(RESOLUTIONS, settings);
      panel := BuildPanel(metrics, |cameraOptions|, |formats|, |RESOLUTIONS|);
      lastMapped := None;
      cameraOk := true;
      cameraError := None;
      statusMessage := None;
      saved := [];
    }

    /** One panel button per option, laid out by `_build_buttons`. */
    ghost predicate Valid()
      reads this
    {
      && |panel.cameras| == |cameraOptions|
      && |panel.formats| == |formatOptions|
      && |panel.resolutions| == |resolutionOptions|
    }

    /** `handle_pointer`: a move only records the position; a click runs
        the action of the button `Dispatch` picks, and nothing else. */
    method HandlePointer(eventType: string, pos: Point, cameraChange: Option<(bool, Option<string>)>, reload: ReloadOutcome)
      requires Valid()
      modifies this
      ensures eventType == "move" ==> State() == old(State()).(lastMapped := Some(pos))
      ensures eventType != "move" && eventType != "click" ==> State() == old(State())
      ensures eventType == "click" ==>
                match Dispatch(panel, pos)
                case CameraButton(i) => State() == old(State()).(selectedOption := Some(cameraOptions[i]), statusMessage := None)
                case ApplyButton => State() == ApplySelection(old(State()), cameraChange)
                case FormatButton(i) => State() == old(State()).(selectedFormat := Some(formatOptions[i]), statusMessage := None)
                case ResolutionButton(i) =>
                  State() == old(State()).(selectedResolution := Some(resolutionOptions[i]), statusMessage := None)
                case ReloadButton => State() == ApplyResolution(old(State()), reload)
                case NoButton => State() == old(State())
    {
      if eventType == "move" {
        lastMapped := Some(pos);
        return;
      }
      if eventType == "click" {
        var target := Dispatch(panel, pos);
        match target
        case CameraButton(i) =>
          selectedOption := Some(cameraOptions[i]);
          statusMessage := None;
        case ApplyButton =>
          var r := ApplySelection(State(), cameraChange);
          settings, cameraOk, cameraError, statusMessage, saved := r.settings, r.cameraOk, r.cameraError, r.statusMessage, r.saved;
        case FormatButton(i) =>
          selectedFormat := Some(formatOptions[i]);
          statusMessage := None;
        case ResolutionButton(i) =>
          selectedResolution := Some(resolutionOptions[i]);
          statusMessage := None;
        case ReloadButton =>
          var r := ApplyResolution(State(), reload);
          settings, statusMessage, saved := r.settings, r.statusMessage, r.saved;
        case NoButton =>
      }
    }
  }

  lemma FirstMatchOnly<T>(s: seq<T>, p: T -> bool, k: int)
    requires 0 <= k < |s| && p(s[k])
    requires forall j :: 0 <= j < |s| && j != k ==> !p(s[j])
    ensures FirstMatch(s, p) == k
  {
  }

  /** Where each button sits in `AllButtons`. */
  lemma AllButtonsIndex(p: Panel)
    ensures var all := AllButtons(p);
            var a := |p.cameras|;
            var b := a + 1 + |p.formats|;
            var c := b + |p.resolutions|;
            && |all| == c + 1
            && (forall i :: 0 <= i < a ==> all[i] == p.cameras[i])
            && all[a] == p.apply
            && (forall i :: 0 <= i < |p.formats| ==> all[a + 1 + i] == p.formats[i])
            && (forall i :: 0 <= i < |p.resolutions| ==> all[b + i] == p.resolutions[i])
            && all[c] == p.reload
  {
  }

  /** The target of a click on button k of `AllButtons(p)`. */
  function TargetAt(p: Panel, k: int): Target {
    var a := |p.cameras|;
    var b := a + 1 + |p.formats|;
    var c := b + |p.resolutions|;
    if 0 <= k < a then CameraButton(k)
    else if k == a then ApplyButton
    else if a < k < b then FormatButton(k - a - 1)
    else if b <= k < c then ResolutionButton(k - b)
    else if k == c then ReloadButton
    else NoButton
  }

  /** Button k of `AllButtons(p)` is the only one under `pos`. */
  predicate OnlyHit(p: Panel, pos: Point, k: int) {
    var all := AllButtons(p);
    && 0 <= k < |all| && CollidePoint(all[k], pos)
    && forall j :: 0 <= j < |all| && j != k ==> !CollidePoint(all[j], pos)
  }

  /** Under `OnlyHit`, a button list of the panel, starting at `offset` in
      `AllButtons(p)`, has its first hit at k, or none when k is outside it. */
  lemma SectionHit(p: Panel, pos: Point, k: int, section: seq<Rect>, offset: int)
    requires OnlyHit(p, pos, k) && 0 <= offset && offset + |section| <= |AllButtons(p)|
    requires forall i :: 0 <= i < |section| ==> AllButtons(p)[offset + i] == section[i]
    ensures offset <= k < offset + |section| ==> FirstMatch(section, Hit(pos)) == k - offset
    ensures !(offset <= k < offset + |section|) ==> FirstMatch(section, Hit(pos)) == |section|
  {
    var all := AllButtons(p);
    forall j | 0 <= j < |section| && offset + j != k
      ensures !Hit(pos)(section[j])
    {
      assert section[j] == all[offset + j];
    }
    if offset <= k < offset + |section| {
      assert section[k - offset] == all[k];
      FirstMatchOnly(section, Hit(pos), k - offset);
    }
  }

  /** Under `OnlyHit`, where each of `Dispatch`'s checks finds its button. */
  lemma FirstHits(p: Panel, pos: Point, k: int)
    requires OnlyHit(p, pos, k)
    ensures var a := |p.cameras|;
            var b := a + 1 + |p.formats|;
            var c := b + |p.resolutions|;
            && FirstMatch(p.cameras, Hit(pos)) == (if k < a then k else a)
            && (CollidePoint(p.apply, pos) <==> k == a)
            && FirstMatch(p.formats, Hit(pos)) == (if a < k < b then k - a - 1 else |p.formats|)
            && FirstMatch(p.resolutions, Hit(pos)) == (if b <= k < c then k - b else |p.resolutions|)
            && (CollidePoint(p.reload, pos) <==> k == c)
  {
    AllButtonsIndex(p);
    var a := |p.cameras|;
    var b := a + 1 + |p.formats|;
    var c := b + |p.resolutions|;
    var all := AllButtons(p);
    SectionHit(p, pos, k, p.cameras, 0);
    SectionHit(p, pos, k, p.formats, a + 1);
    SectionHit(p, pos, k, p.resolutions, b);
    assert all[a] == p.apply && all[c] == p.reload;
    if k != a {
      assert !CollidePoint(all[a], pos);
    }
    if k != c {
      assert !CollidePoint(all[c], pos);
    }
  }

  /** On a panel whose buttons share no point, a click inside button k
      dispatches to button k. */
  lemma DispatchFinds(p: Panel, pos: Point, k: int)
    requires OnlyHit(p, pos, k)
    ensures Dispatch(p, pos) == TargetAt(p, k)
  {
    FirstHits(p, pos, k);
  }

  /** Since the panel's buttons never overlap, the order of the checks in
      `handle_pointer` does not matter: whichever button contains the
      click is the one dispatched. */
  lemma DispatchUnique(m: PanelMetrics, cameraCount: nat, formatCount: nat, resolutionCount: nat, pos: Point, k: int)
    requires var all := AllButtons(BuildPanel(m, cameraCount, formatCount, resolutionCount));
             0 <= k < |all| && CollidePoint(all[k], pos)
    ensures var p := BuildPanel(m, cameraCount, formatCount, resolutionCount);
            Dispatch(p, pos) == TargetAt(p, k) && TargetAt(p, k) != NoButton
  {
    var p := BuildPanel(m, cameraCount, formatCount, resolutionCount);
    var all := AllButtons(p);
    PanelDisjoint(m, cameraCount, formatCount, resolutionCount);
    forall j | 0 <= j < |all| && j != k
      ensures !CollidePoint(all[j], pos)
    {
      if j < k {
        assert Disjoint(all[j], all[k]);
      } else {
        assert Disjoint(all[k], all[j]);
      }
    }
    assert OnlyHit(p, pos, k);
    DispatchFinds(p, pos, k);
  }
}
