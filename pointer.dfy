/** The dwell-click router: laser points become `move` events, a point held
    still long enough also becomes a `click`, and mouse events pass through.
    Wall-clock time is a parameter: `now` in seconds for the router, and
    `now * 1000` in milliseconds for the dwell detector. */
module Pointer {
  import opened Common

  const MOVE: string := "move"
  const CLICK: string := "click"
  const LASER: string := "laser"
  const MOUSE: string := "mouse"
  const DEFAULT_DEBOUNCE_MS: int := 350

  /** An event as delivered to the consumer's callback. */
  datatype PointerEvent = PointerEvent(kind: string, position: Point, source: string, timestamp: real)

  /** The tuning of a dwell detector; fixed once the detector exists. */
  datatype DwellParams = DwellParams(dwellMs: int, radiusPx: int, debounceMs: int)

  /** The changing part of a dwell detector. */
  datatype DwellState = DwellState(anchor: Option<Point>, anchorTs: Option<real>, lastClickTs: real)

  /** An anchor always carries the time it was set. */
  predicate WellFormed(s: DwellState) {
    s.anchor.Some? == s.anchorTs.Some?
  }

  const INITIAL_DWELL: DwellState := DwellState(None, None, 0.0)

  /** The detector's distance test `sqrt(dx*dx + dy*dy) > radius`, over the
      integers (a negative radius is exceeded by every distance). */
  predicate Outside(anchor: Point, p: Point, radius: int) {
    var dx := p.x - anchor.x;
    var dy := p.y - anchor.y;
    radius < 0 || dx * dx + dy * dy > radius * radius
  }

  /** The integer test agrees with the Euclidean one: `dist` is the real
      square root of dx*dx + dy*dy. */
  lemma OutsideIsEuclidean(anchor: Point, p: Point, radius: int, dist: real)
    requires dist >= 0.0
    requires dist * dist == ((p.x - anchor.x) * (p.x - anchor.x) + (p.y - anchor.y) * (p.y - anchor.y)) as real
    ensures Outside(anchor, p, radius) <==> dist > radius as real
  {
    var r := radius as real;
    var d2 := (p.x - anchor.x) * (p.x - anchor.x) + (p.y - anchor.y) * (p.y - anchor.y);
    if radius >= 0 {
      assert (radius * radius) as real == r * r;
      if dist > r {
        PositiveProduct(dist - r, dist + r);
        assert dist * dist - r * r == (dist - r) * (dist + r);
      } else {
        assert dist * dist <= r * dist <= r * r;
      }
    }
  }

  lemma PositiveProduct(a: real, b: real)
    requires a > 0.0 && b > 0.0
    ensures a * b > 0.0
  {
  }

  /** One call of DwellClickDetector.update: the new state and whether a
      click is reported. */
  function DwellUpdate(p: DwellParams, s: DwellState, point: Option<Point>, now: real): (r: (DwellState, bool))
    requires WellFormed(s)
    ensures WellFormed(r.0)
    // a click is reported exactly when a point stays within the radius of an
    // existing anchor, the dwell time has elapsed and the debounce time too
    ensures r.1 <==> point.Some? && s.anchor.Some? && !Outside(s.anchor.value, point.value, p.radiusPx)
                     && now - s.anchorTs.value >= p.dwellMs as real
                     && now - s.lastClickTs >= p.debounceMs as real
    // a click restarts both the dwell and the debounce period
    ensures r.1 ==> r.0.lastClickTs == now && r.0.anchorTs == Some(now)
    ensures !r.1 ==> r.0.lastClickTs == s.lastClickTs
    // the anchor moves only when the point is lost, is the first one, or leaves the radius
    ensures point.None? ==> r.0.anchor.None?
    ensures (point.Some? && (s.anchor.None? || Outside(s.anchor.value, point.value, p.radiusPx)))
              ==> r.0.anchor == point && r.0.anchorTs == Some(now)
    ensures (point.Some? && s.anchor.Some? && !Outside(s.anchor.value, point.value, p.radiusPx))
              ==> r.0.anchor == s.anchor && (r.1 || r.0.anchorTs == s.anchorTs)
  {
    if point.None? then
      (DwellState(None, None, s.lastClickTs), false)
    else if s.anchor.None? then
      (DwellState(point, Some(now), s.lastClickTs), false)
    else if Outside(s.anchor.value, point.value, p.radiusPx) then
      (DwellState(point, Some(now), s.lastClickTs), false)
    else if now - s.anchorTs.value >= p.dwellMs as real && now - s.lastClickTs >= p.debounceMs as real then
      (DwellState(s.anchor, Some(now), now), true)
    else
      (s, false)
  }

  /** A sequence of `update` calls: the point fed and the time of the call. */
  type Feed = seq<(Option<Point>, real)>

  /** The times of the clicks that a feed produces, in order. */
  function ClickTimes(p: DwellParams, s: DwellState, feed: Feed): seq<real>
    requires WellFormed(s)
    decreases |feed|
  {
    if feed == [] then []
    else
      var (s', click) := DwellUpdate(p, s, feed[0].0, feed[0].1);
      (if click then [feed[0].1] else []) + ClickTimes(p, s', feed[1..])
  }

  /** The anchor was set no earlier than the last click. */
  predicate AnchorAfterClick(s: DwellState) {
    s.anchorTs.Some? ==> s.anchorTs.value >= s.lastClickTs
  }

  predicate NonDecreasing(feed: Feed) {
    forall i, j :: 0 <= i < j < |feed| ==> feed[i].1 <= feed[j].1
  }

  function Max(a: int, b: int): int {
    if a >= b then a else b
  }

  /** Each time in `c` is at least `gap` after the one before it, the first
      at least `gap` after `start`. */
  predicate SpacedAfter(start: real, c: seq<real>, gap: real) {
    && (|c| > 0 ==> c[0] >= start + gap)
    && forall i :: 0 <= i < |c| - 1 ==> c[i + 1] >= c[i] + gap
  }

  lemma SpacedCons(start: real, x: real, rest: seq<real>, gap: real)
    requires x >= start + gap && SpacedAfter(x, rest, gap)
    ensures SpacedAfter(start, [x] + rest, gap)
  {
    var c := [x] + rest;
    forall i | 0 <= i < |c| - 1 ensures c[i + 1] >= c[i] + gap {
      if i > 0 {
        assert c[i + 1] == rest[i] && c[i] == rest[i - 1];
      }
    }
  }

  /** With time that never runs backwards, each click comes at least
      max(dwell, debounce) after the previous one (the first one after the
      detector's last click). */
  lemma {:induction false} ClickSpacing(p: DwellParams, s: DwellState, feed: Feed)
    requires WellFormed(s) && AnchorAfterClick(s)
    requires NonDecreasing(feed)
    requires forall i :: 0 <= i < |feed| ==> feed[i].1 >= s.lastClickTs
    ensures SpacedAfter(s.lastClickTs, ClickTimes(p, s, feed), Max(p.dwellMs, p.debounceMs) as real)
    decreases |feed|
  {
    if feed != [] {
      var (s', click) := DwellUpdate(p, s, feed[0].0, feed[0].1);
      var rest := ClickTimes(p, s', feed[1..]);
      assert AnchorAfterClick(s');
      assert forall i :: 0 <= i < |feed[1..]| ==> feed[1..][i].1 >= s'.lastClickTs by {
        forall i | 0 <= i < |feed[1..]| ensures feed[1..][i].1 >= s'.lastClickTs {
          assert feed[1..][i] == feed[i + 1];
          assert feed[0].1 <= feed[i + 1].1;
        }
      }
      ClickSpacing(p, s', feed[1..]);
      var gap := Max(p.dwellMs, p.debounceMs) as real;
      assert SpacedAfter(s'.lastClickTs, rest, gap);
      var c := ClickTimes(p, s, feed);
      assert c == (if click then [feed[0].1] else []) + rest;
      if click {
        assert s'.lastClickTs == feed[0].1;
        assert feed[0].1 >= s.lastClickTs + gap by {
          assert feed[0].1 - s.anchorTs.value >= p.dwellMs as real;
          assert feed[0].1 - s.lastClickTs >= p.debounceMs as real;
        }
        SpacedCons(s.lastClickTs, feed[0].1, rest, gap);
      } else {
        assert s'.lastClickTs == s.lastClickTs;
        assert c == rest;
      }
    }
  }

  /** A point that keeps leaving the radius of the previous point never
      clicks, however much time passes. */
  lemma {:induction false} MovementCancelsDwell(p: DwellParams, s: DwellState, feed: Feed)
    requires WellFormed(s)
    requires forall i :: 0 <= i < |feed| ==> feed[i].0.Some?
    requires |feed| > 0 && s.anchor.Some? ==> Outside(s.anchor.value, feed[0].0.value, p.radiusPx)
    requires forall i :: 0 < i < |feed| ==> Outside(feed[i - 1].0.value, feed[i].0.value, p.radiusPx)
    ensures ClickTimes(p, s, feed) == []
    decreases |feed|
  {
    if feed != [] {
      var (s', click) := DwellUpdate(p, s, feed[0].0, feed[0].1);
      assert !click && s'.anchor == feed[0].0;
      MovementCancelsDwell(p, s', feed[1..]);
    }
  }

  /** The events one `feed_point` emits, and the detector's new state. */
  function PointEvents(p: DwellParams, s: DwellState, point: Option<Point>, source: string, now: real)
    : (r: (DwellState, seq<PointerEvent>))
    requires WellFormed(s)
    ensures WellFormed(r.0)
    // no point: nothing is emitted and the dwell anchor is dropped
    ensures point.None? ==> r.1 == [] && r.0.anchor.None? && r.0.anchorTs.None?
    // a point: first a move, then at most one click, both at that point and from that source
    ensures point.Some? ==> 1 <= |r.1| <= 2
                            && r.1[0] == PointerEvent(MOVE, point.value, source, now)
                            && (|r.1| == 2 <==> DwellUpdate(p, s, point, now * 1000.0).1)
                            && (|r.1| == 2 ==> r.1[1] == PointerEvent(CLICK, point.value, source, now))
    ensures r.0 == DwellUpdate(p, s, point, now * 1000.0).0
  {
    var (s', click) := DwellUpdate(p, s, point, now * 1000.0);
    if point.None? then
      (s', [])
    else
      (s', [PointerEvent(MOVE, point.value, source, now)]
           + (if click then [PointerEvent(CLICK, point.value, source, now)] else []))
  }

  class DwellClickDetector {
    const dwellMs: int
    const radiusPx: int
    const debounceMs: int
    var anchor: Option<Point>
    var anchorTs: Option<real>
    var lastClickTs: real

    function Params(): DwellParams {
      DwellParams(dwellMs, radiusPx, debounceMs)
    }

    function State(): DwellState
      reads this
    {
      DwellState(anchor, anchorTs, lastClickTs)
    }

    ghost predicate Valid()
      reads this
    {
      WellFormed(State())
    }

    constructor (dwellMs: int, radiusPx: int, debounceMs: int := DEFAULT_DEBOUNCE_MS)
      ensures Valid()
      ensures Params() == DwellParams(dwellMs, radiusPx, debounceMs)
      ensures State() == INITIAL_DWELL
    {
      this.dwellMs := dwellMs;
      this.radiusPx := radiusPx;
      this.debounceMs := debounceMs;
      anchor := None;
      anchorTs := None;
      lastClickTs := 0.0;
    }

    /** `now` is the wall-clock time in milliseconds. */
    method Update(point: Option<Point>, now: real) returns (click: bool)
      requires Valid()
      modifies this
      ensures Valid()
      ensures (State(), click) == DwellUpdate(Params(), old(State()), point, now)
    {
      if point.None? {
        anchor := None;
        anchorTs := None;
        return false;
      }
      if anchor.None? {
        anchor := point;
        anchorTs := Some(now);
        return false;
      }
      if Outside(anchor.value, point.value, radiusPx) {
        anchor := point;
        anchorTs := Some(now);
        return false;
      }
      if now - anchorTs.value >= dwellMs as real && now - lastClickTs >= debounceMs as real {
        lastClickTs := now;
        anchorTs := Some(now);
        return true;
      }
      return false;
    }
  }

  class PointerRouter {
    const detector: DwellClickDetector
    var lastPos: Option<Point>
    var source: string
    /** Every event passed to `on_event`, in emission order. */
    var events: seq<PointerEvent>

    ghost predicate Valid()
      reads this, detector
    {
      detector.Valid()
    }

    constructor (dwellMs: int, dwellRadius: int)
      ensures Valid() && fresh(detector)
      ensures detector.Params() == DwellParams(dwellMs, dwellRadius, DEFAULT_DEBOUNCE_MS)
      ensures detector.State() == INITIAL_DWELL
      ensures lastPos == None && source == LASER && events == []
    {
      detector := new DwellClickDetector(dwellMs, dwellRadius);
      lastPos := None;
      source := LASER;
      events := [];
    }

    /** `now` is the wall-clock time in seconds. */
    method FeedPoint(point: Option<Point>, now: real, source: string := LASER)
      requires Valid()
      modifies this, detector
      ensures Valid()
      ensures var (s', emitted) := PointEvents(detector.Params(), old(detector.State()), point, source, now);
              detector.State() == s' && events == old(events) + emitted
      ensures this.source == source
      ensures lastPos == if point.Some? then point else old(lastPos)
    {
      ghost var before := detector.State();
      this.source := source;
      if point.Some? {
        lastPos := point;
        events := events + [PointerEvent(MOVE, point.value, source, now)];
        var click := detector.Update(point, now * 1000.0);
        if click {
          events := events + [PointerEvent(CLICK, point.value, source, now)];
        }
      } else {
        var _ := detector.Update(None, now * 1000.0);
      }
    }

    /** Mouse events carry their own button semantics and bypass the detector. */
    method FeedMouseEvent(kind: string, pos: Point, now: real)
      requires Valid()
      modifies this
      ensures Valid()
      ensures events == old(events) + [PointerEvent(kind, pos, MOUSE, now)]
      ensures lastPos == Some(pos) && source == old(source)
      ensures detector.State() == old(detector.State())
    {
      lastPos := Some(pos);
      events := events + [PointerEvent(kind, pos, MOUSE, now)];
    }
  }
}
