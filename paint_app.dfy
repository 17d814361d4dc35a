/** apps/paint.py: moving the pointer draws line segments in the current
    colour; a click switches to the next of five colours and lifts the pen. */
module Paint {
  import opened Common

  type Color = (int, int, int)

  const COLORS: seq<Color> := [(255, 0, 0), (0, 255, 0), (0, 120, 255), (255, 255, 0), (255, 255, 255)]
  const CLICK: string := "click"
  const MOVE: string := "move"

  /** One entry of `lines`: from the previous pointer position to the new one. */
  datatype Segment = Segment(start: Point, end: Point, color: Color)

  /** A pointer event as the app receives it. */
  datatype Input = Input(eventType: string, pos: Point)

  /** The app's state. `cycle` stands for `itertools.cycle(colors)`: it is the
      index of the colour it yielded last. */
  datatype Canvas = Canvas(cycle: int, currentColor: Color, lines: seq<Segment>, lastPos: Option<Point>)

  /** The colour cycle is in range and the current colour is the one it
      yielded last. */
  predicate Consistent(c: Canvas) {
    0 <= c.cycle < 5 && c.currentColor == COLORS[c.cycle]
  }

  /** `next(color_cycle)`: the cycle moves on by one position, wrapping
      after the last colour, and yields the colour there. */
  function Next(cycle: int): (r: (int, Color))
    requires 0 <= cycle < 5
    ensures 0 <= r.0 < 5 && r.1 == COLORS[r.0]
  {
    var n := Wrap(cycle + 1);
    (n, COLORS[n])
  }

  /** `__init__`: the first colour, no lines, no previous position. */
  function Initial(): (c: Canvas)
    ensures Consistent(c) && c.currentColor == COLORS[0] && c.lines == [] && c.lastPos == None
  {
    Canvas(0, COLORS[0], [], None)
  }

  /** `handle_pointer`. */
  function Step(c: Canvas, e: Input): (r: Canvas)
    requires Consistent(c)
    ensures Consistent(r)
    ensures c.lines <= r.lines && |r.lines| <= |c.lines| + 1
    ensures e.eventType != CLICK && e.eventType != MOVE ==> r == c
  {
    if e.eventType == CLICK then
      var (cycle, color) := Next(c.cycle);
      c.(cycle := cycle, currentColor := color, lastPos := None)
    else if e.eventType == MOVE then
      var lines := if c.lastPos.Some? then c.lines + [Segment(c.lastPos.value, e.pos, c.currentColor)] else c.lines;
      c.(lines := lines, lastPos := Some(e.pos))
    else c
  }

  /** The state after a sequence of events, oldest first. */
  function Run(c: Canvas, events: seq<Input>): (r: Canvas)
    requires Consistent(c)
    ensures Consistent(r)
    decreases events
  {
    if events == [] then c else Run(Step(c, events[0]), events[1..])
  }

  function Clicks(events: seq<Input>): nat {
    if events == [] then 0 else (if events[0].eventType == CLICK then 1 else 0) + Clicks(events[1..])
  }

  /** Where the colour cycle stands after the events, from position x. */
  function CyclePosition(x: int, events: seq<Input>): int
    decreases events
  {
    if events == [] then x
    else CyclePosition(if events[0].eventType == CLICK then Wrap(x + 1) else x, events[1..])
  }

  /** The state's colour cycle follows the events' clicks. */
  lemma {:induction false} RunCycle(c: Canvas, events: seq<Input>)
    requires Consistent(c)
    ensures Run(c, events).cycle == CyclePosition(c.cycle, events)
    decreases events
  {
    if events != [] {
      StepCycle(c, events[0]);
      RunCycle(Step(c, events[0]), events[1..]);
    }
  }

  /** From position x, the cycle moves on by one per click, wrapping. */
  lemma {:induction false} CyclePositionWraps(x: nat, events: seq<Input>)
    requires x < 5
    ensures CyclePosition(x, events) == Wrap(x + Clicks(events))
    decreases events
  {
    if events != [] {
      var b := if events[0].eventType == CLICK then 1 else 0;
      var rest := events[1..];
      CyclePositionWraps(Wrap(x + b), rest);
      WrapAdd(x, b, Clicks(rest), Clicks(events));
    }
  }

  /** Each click moves the colour cycle on by one and nothing else does. */
  lemma CycleAfter(c: Canvas, events: seq<Input>)
    requires Consistent(c)
    ensures Run(c, events).cycle == Wrap(c.cycle + Clicks(events))
  {
    RunCycle(c, events);
    CyclePositionWraps(c.cycle, events);
  }

  /** Only a click moves the colour cycle, by one. */
  lemma StepCycle(c: Canvas, e: Input)
    requires Consistent(c)
    ensures Step(c, e).cycle == Wrap(c.cycle + if e.eventType == CLICK then 1 else 0)
  {
  }

  /** Wrapping first and adding later wraps to the same place. */
  lemma WrapAdd(a: nat, b: nat, k: nat, total: nat)
    requires total == b + k
    ensures Wrap(Wrap(a + b) + k) == Wrap(a + total)
  {
  }

  /** A position on the five-colour cycle. */
  function Wrap(x: int): int {
    x % 5
  }

  /** After k clicks the colour is colors[k mod 5], however the clicks and
      moves are interleaved. */
  lemma ColorAfterClicks(events: seq<Input>)
    ensures Run(Initial(), events).currentColor == COLORS[Clicks(events) % 5]
  {
    CycleAfter(Initial(), events);
    assert Run(Initial(), events).cycle == Wrap(Clicks(events));
  }

  /** `lines` only grows: the segments drawn before stay, unchanged and in
      order. */
  lemma {:induction false} LinesOnlyGrow(c: Canvas, events: seq<Input>)
    requires Consistent(c)
    ensures c.lines <= Run(c, events).lines
    decreases events
  {
    if events != [] {
      LinesOnlyGrow(Step(c, events[0]), events[1..]);
    }
  }

  /** Two moves in a row draw joined segments: the second starts where the
      first ends, in the same colour. */
  lemma MovesJoin(c: Canvas, p: Point, q: Point, r: Point)
    requires Consistent(c) && c.lastPos == Some(p)
    ensures var d := Step(Step(c, Input(MOVE, q)), Input(MOVE, r));
            d.lines == c.lines + [Segment(p, q, c.currentColor), Segment(q, r, c.currentColor)] && d.lastPos == Some(r)
  {
  }

  /** A click lifts the pen: the next move draws nothing and only starts a
      new line there. */
  lemma ClickLiftsPen(c: Canvas, p: Point, q: Point)
    requires Consistent(c)
    ensures var d := Step(Step(c, Input(CLICK, p)), Input(MOVE, q));
            d.lines == c.lines && d.lastPos == Some(q) && d.currentColor != c.currentColor
  {
  }

  class PaintApp {
    var cycle: int
    var currentColor: Color
    var lines: seq<Segment>
    var lastPos: Option<Point>

    function State(): Canvas
      reads this
    {
      Canvas(cycle, currentColor, lines, lastPos)
    }

    /** `__init__`: the first `next()` of the cycle yields colour 0. */
    constructor ()
      ensures State() == Initial()
    {
      cycle := 0;
      currentColor := COLORS[0];
      lines := [];
      lastPos := None;
    }

    /** `handle_pointer`: a click takes the next colour and forgets the
        position; a move appends a segment from the previous position, if
        any, and remembers the new one. */
    method HandlePointer(eventType: string, pos: Point)
      requires Consistent(State())
      modifies this
      ensures State() == Step(old(State()), Input(eventType, pos))
    {
      if eventType == CLICK {
        var (c, color) := Next(cycle);
        cycle := c;
        currentColor := color;
        lastPos := None;
      } else if eventType == MOVE {
        if lastPos.Some? {
          lines := lines + [Segment(lastPos.value, pos, currentColor)];
        }
        lastPos := Some(pos);
      }
    }
  }
}
