/** The part of LaserTracker.read that follows OpenCV: choosing the best
    contour within the area bounds, its centroid, the exponential moving
    average kept in `last_point`, and the confidence. Each contour is the
    record OpenCV would report for it (its area and its moments). */
module LaserTracker {
  import opened Common
  import opened Constants
  import opened Config

  /** `cv2.contourArea(c)` and the moments m00, m10, m01 of `cv2.moments(c)`. */
  datatype Contour = Contour(area: real, m00: real, m10: real, m01: real)

  /** A detection as returned by `read` (the mask preview is left out). */
  datatype LaserDetection = LaserDetection(point: Option<Point>, area: real, confidence: real, frameTs: real)

  /** A smoothed position as numpy keeps it: two floats. */
  datatype Smoothed = Smoothed(x: real, y: real)

  /** The area filter: the loop skips `area < min_area or area > max_area`. */
  predicate Qualifies(c: Contour, minArea: int, maxArea: int) {
    !(c.area < minArea as real || c.area > maxArea as real)
  }

  /** `(int(m10 / m00), int(m01 / m00))`. */
  function Centroid(c: Contour): Point
    requires c.m00 != 0.0
  {
    Point(Trunc(c.m10 / c.m00), Trunc(c.m01 / c.m00))
  }

  /** `(best, best_area)` after the loop has scanned `cs` in order. */
  function Scan(cs: seq<Contour>, minArea: int, maxArea: int): (r: (Option<Point>, real))
    ensures r.1 >= 0.0
    decreases |cs|
  {
    if cs == [] then (None, 0.0)
    else
      var (best, bestArea) := Scan(cs[..|cs| - 1], minArea, maxArea);
      var c := cs[|cs| - 1];
      if Qualifies(c, minArea, maxArea) && c.area > bestArea then
        (if c.m00 != 0.0 then Some(Centroid(c)) else best, c.area)
      else
        (best, bestArea)
  }

  /** best_area is the largest qualifying area, or 0 when no qualifying area
      is positive; a reported centroid is that of a qualifying contour. */
  lemma {:induction false} ScanBounds(cs: seq<Contour>, minArea: int, maxArea: int)
    ensures var (best, bestArea) := Scan(cs, minArea, maxArea);
            && bestArea >= 0.0
            && (forall i :: 0 <= i < |cs| && Qualifies(cs[i], minArea, maxArea) ==> cs[i].area <= bestArea)
            && (bestArea > 0.0 ==> exists i :: 0 <= i < |cs| && Qualifies(cs[i], minArea, maxArea) && cs[i].area == bestArea)
            && (best.Some? ==> exists i :: 0 <= i < |cs| && Qualifies(cs[i], minArea, maxArea)
                                           && cs[i].m00 != 0.0 && best.value == Centroid(cs[i]))
    decreases |cs|
  {
    if cs != [] {
      var init := cs[..|cs| - 1];
      ScanBounds(init, minArea, maxArea);
      forall i | 0 <= i < |init| ensures init[i] == cs[i] { }
    }
  }

  /** A later contour that does not exceed the running best changes nothing. */
  lemma {:induction false} ScanSettled(cs: seq<Contour>, j: nat, minArea: int, maxArea: int)
    requires j <= |cs|
    requires forall k :: j <= k < |cs| && Qualifies(cs[k], minArea, maxArea) ==> cs[k].area <= Scan(cs[..j], minArea, maxArea).1
    ensures Scan(cs, minArea, maxArea) == Scan(cs[..j], minArea, maxArea)
    decreases |cs| - j
  {
    if j < |cs| {
      var next := cs[..j + 1];
      assert next[..j] == cs[..j];
      assert Scan(next, minArea, maxArea) == Scan(cs[..j], minArea, maxArea);
      ScanSettled(cs, j + 1, minArea, maxArea);
    } else {
      assert cs[..j] == cs;
    }
  }

  /** Ties go to the first contour scanned: if j is the first qualifying
      contour of the largest area, the result is its centroid (or, when its
      m00 is 0, whatever centroid the contours before it left), and the area
      is its area. */
  lemma FirstMaximumWins(cs: seq<Contour>, j: nat, minArea: int, maxArea: int)
    requires j < |cs| && Qualifies(cs[j], minArea, maxArea) && cs[j].area > 0.0
    requires forall k :: 0 <= k < |cs| && Qualifies(cs[k], minArea, maxArea) ==> cs[k].area <= cs[j].area
    requires forall k :: 0 <= k < j && Qualifies(cs[k], minArea, maxArea) ==> cs[k].area < cs[j].area
    ensures Scan(cs, minArea, maxArea).1 == cs[j].area
    ensures Scan(cs, minArea, maxArea).0 == if cs[j].m00 != 0.0 then Some(Centroid(cs[j]))
                                            else Scan(cs[..j], minArea, maxArea).0
  {
    var before := cs[..j];
    ScanBounds(before, minArea, maxArea);
    var prevArea := Scan(before, minArea, maxArea).1;
    assert prevArea < cs[j].area by {
      if prevArea > 0.0 {
        var i :| 0 <= i < |before| && Qualifies(before[i], minArea, maxArea) && before[i].area == prevArea;
        assert before[i] == cs[i];
      }
    }
    var upto := cs[..j + 1];
    assert upto[..j] == before;
    ScanSettled(cs, j + 1, minArea, maxArea);
  }

  /** The contour loop of `read`: returns `(best, best_area)`. */
  method SelectBlob(contours: seq<Contour>, minArea: int, maxArea: int) returns (best: Option<Point>, bestArea: real)
    ensures (best, bestArea) == Scan(contours, minArea, maxArea)
    ensures bestArea >= 0.0
    ensures forall i :: 0 <= i < |contours| && Qualifies(contours[i], minArea, maxArea) ==> contours[i].area <= bestArea
    ensures best.Some? ==> exists i :: 0 <= i < |contours| && Qualifies(contours[i], minArea, maxArea)
                                       && contours[i].m00 != 0.0 && best.value == Centroid(contours[i])
  {
    best := None;
    bestArea := 0.0;
    for i := 0 to |contours|
      invariant (best, bestArea) == Scan(contours[..i], minArea, maxArea)
    {
      var c := contours[i];
      assert contours[..i + 1][..i] == contours[..i];
      if !Qualifies(c, minArea, maxArea) {
        continue;
      }
      if c.area > bestArea {
        bestArea := c.area;
        if c.m00 != 0.0 {
          best := Some(Centroid(c));
        }
      }
    }
    assert contours[..|contours|] == contours;
    ScanBounds(contours, minArea, maxArea);
  }

  /** `settings.ema_alpha or EMA_ALPHA`: a zero alpha falls back to 0.35. */
  function EffectiveAlpha(emaAlpha: real): (alpha: real)
    ensures alpha != 0.0
    ensures emaAlpha != 0.0 ==> alpha == emaAlpha
    ensures emaAlpha == 0.0 ==> alpha == EMA_ALPHA
    ensures 0.0 <= emaAlpha <= 1.0 ==> 0.0 < alpha <= 1.0
  {
    if emaAlpha != 0.0 then emaAlpha else EMA_ALPHA
  }

  /** One EMA step on one coordinate. */
  function Blend(alpha: real, raw: real, last: real): real {
    alpha * raw + (1.0 - alpha) * last
  }

  /** For alpha in [0, 1] the blended coordinate lies between the previous
      smoothed value and the new raw one. */
  lemma BlendBetween(alpha: real, raw: real, last: real)
    requires 0.0 <= alpha <= 1.0
    ensures raw <= last ==> raw <= Blend(alpha, raw, last) <= last
    ensures last <= raw ==> last <= Blend(alpha, raw, last) <= raw
    ensures alpha == 1.0 ==> Blend(alpha, raw, last) == raw
  {
    var d := raw - last;
    assert (1.0 - alpha) * last == last - alpha * last;
    assert alpha * raw - alpha * last == alpha * d;
    assert Blend(alpha, raw, last) == last + alpha * d;
    if raw <= last {
      ScaleBounds(alpha, -d);
      assert alpha * -d == -(alpha * d);
    } else {
      ScaleBounds(alpha, d);
    }
  }

  lemma ScaleBounds(alpha: real, d: real)
    requires 0.0 <= alpha <= 1.0 && d >= 0.0
    ensures 0.0 <= alpha * d <= d
  {
    assert d - alpha * d == (1.0 - alpha) * d;
  }

  /** v lies in the closed interval spanned by a and b. */
  predicate Between(v: real, a: real, b: real) {
    (a <= b ==> a <= v <= b) && (b <= a ==> b <= v <= a)
  }

  /** The new smoothed position: the first centroid seeds it; later ones
      pull the previous smoothed position toward the centroid, never past
      it, and alpha 1 jumps onto the centroid. */
  function Smooth(raw: Point, last: Option<Smoothed>, alpha: real): (s: Smoothed)
    ensures last.None? ==> s.x == raw.x as real && s.y == raw.y as real
    ensures last.Some? && 0.0 <= alpha <= 1.0 ==>
              Between(s.x, raw.x as real, last.value.x) && Between(s.y, raw.y as real, last.value.y)
    ensures last.Some? && alpha == 1.0 ==> s.x == raw.x as real && s.y == raw.y as real
  {
    match last
    case None => Smoothed(raw.x as real, raw.y as real)
    case Some(prev) =>
      var s := Smoothed(Blend(alpha, raw.x as real, prev.x), Blend(alpha, raw.y as real, prev.y));
      if 0.0 <= alpha <= 1.0 then
        BlendBetween(alpha, raw.x as real, prev.x);
        BlendBetween(alpha, raw.y as real, prev.y);
        s
      else s
  }

  /** `min(1.0, best_area / max(min_area, 1))`. */
  function Confidence(bestArea: real, minArea: int): (c: real)
    requires bestArea >= 0.0
    ensures 0.0 <= c <= 1.0
    ensures c == 0.0 <==> bestArea == 0.0
    ensures bestArea >= (if minArea > 1 then minArea else 1) as real ==> c == 1.0
  {
    var denominator := (if minArea > 1 then minArea else 1) as real;
    var ratio := bestArea / denominator;
    if 1.0 <= ratio then 1.0 else ratio
  }

  class LaserTracker {
    const settings: Settings
    /** The smoothed position of the last detection, kept across misses. */
    var lastPoint: Option<Smoothed>

    constructor (settings: Settings)
      ensures this.settings == settings && lastPoint == None
    {
      this.settings := settings;
      lastPoint := None;
    }

    /** `read` from the contour loop on; `frameTs` is the wall-clock time. */
    method Read(contours: seq<Contour>, frameTs: real) returns (d: LaserDetection)
      modifies this
      ensures var (best, bestArea) := Scan(contours, settings.laser.minArea, settings.laser.maxArea);
              && d.area == bestArea
              && d.confidence == Confidence(bestArea, settings.laser.minArea)
              && d.frameTs == frameTs
              && (best.None? ==> d.point.None? && lastPoint == old(lastPoint))
              && (best.Some? ==> lastPoint == Some(Smooth(best.value, old(lastPoint), EffectiveAlpha(settings.emaAlpha)))
                                 && d.point == Some(Point(Trunc(lastPoint.value.x), Trunc(lastPoint.value.y))))
      // with an alpha in [0, 1] the smoothed position moves toward the new
      // centroid and never beyond it
      ensures var (best, _) := Scan(contours, settings.laser.minArea, settings.laser.maxArea);
              best.Some? && old(lastPoint).Some? && 0.0 <= settings.emaAlpha <= 1.0 ==>
                lastPoint.Some?
                && Between(lastPoint.value.x, best.value.x as real, old(lastPoint).value.x)
                && Between(lastPoint.value.y, best.value.y as real, old(lastPoint).value.y)
    {
      var laser := settings.laser;
      var best, bestArea := SelectBlob(contours, laser.minArea, laser.maxArea);
      var point: Option<Point> := None;
      if best.Some? {
        var smoothed := Smooth(best.value, lastPoint, EffectiveAlpha(settings.emaAlpha));
        lastPoint := Some(smoothed);
        point := Some(Point(Trunc(smoothed.x), Trunc(smoothed.y)));
      }
      var confidence := Confidence(bestArea, laser.minArea);
      d := LaserDetection(point, bestArea, confidence, frameTs);
    }
  }
}
