/** apps/reaction.py: after a random wait a target lights up; clicking it
    records the reaction time, keeps the best one, and starts a new round.
    The values `random.uniform` and `random.randint` produce are parameters
    that carry their ranges. */
module Reaction {
  import opened Common

  const CLICK: string := "click"
  const TARGET_SIZE: int := 80
  const MIN_WAIT: real := 1.0
  const MAX_WAIT: real := 2.5
  const TIMEOUT: real := 10.0

  /** A value `random.uniform(1.0, 2.5)` can return. */
  predicate WaitInRange(w: real) {
    MIN_WAIT <= w <= MAX_WAIT
  }

  /** The corner `_new_target` may draw on a width x height screen:
      `randint(50, width - 50 - w)` and `randint(80, height - 50 - h)`. */
  predicate CornerInRange(width: int, height: int, x: int, y: int) {
    50 <= x <= width - 50 - TARGET_SIZE && 80 <= y <= height - 50 - TARGET_SIZE
  }

  /** `_new_target` with the drawn corner. */
  function NewTarget(width: int, height: int, x: int, y: int): (r: Rect)
    requires CornerInRange(width, height, x, y)
    ensures r.w == TARGET_SIZE && r.h == TARGET_SIZE
    ensures 50 <= r.x && r.x + r.w <= width - 50 && 80 <= r.y && r.y + r.h <= height - 50
  {
    Rect(x, y, TARGET_SIZE, TARGET_SIZE)
  }

  /** The smallest of a non-empty list of times. */
  function Min(times: seq<real>): (m: real)
    requires times != []
    ensures m in times && forall t :: t in times ==> m <= t
  {
    if |times| == 1 then times[0]
    else
      var rest := Min(times[1..]);
      assert forall t :: t in times[1..] ==> t in times;
      assert forall t :: t in times ==> t == times[0] || t in times[1..];
      if times[0] <= rest then times[0] else rest
  }

  /** The best time after the times so far: none before the first success. */
  function Best(times: seq<real>): Option<real> {
    if times == [] then None else Some(Min(times))
  }

  /** Recording one more reaction time keeps the smaller of the old best
      and the new time, which is what the `min(best_time, timer) if
      best_time else timer` update computes. */
  lemma BestAppend(times: seq<real>, t: real)
    ensures Best(times + [t]) == Some(if times == [] then t else if t < Min(times) then t else Min(times))
  {
    var all := times + [t];
    if times != [] {
      var m := Min(times);
      var n := Min(all);
      assert n in all && (n in times || n == t);
      assert forall u :: u in times ==> u in all;
      assert t in all;
    } else {
      assert all == [t];
    }
  }

  /** The best time never gets worse as times are added. */
  lemma BestNeverIncreases(times: seq<real>, t: real)
    requires times != []
    ensures Min(times + [t]) <= Min(times)
  {
    BestAppend(times, t);
  }

  class ReactionApp {
    const width: int
    const height: int
    var targetRect: Rect
    var bestTime: Option<real>
    var waitTime: real
    var timer: real
    var active: bool
    /** The positive reaction times of the successful clicks since the last
        `reset`, oldest first (not a field of the app). */
    ghost var times: seq<real>

    /** `best_time` is the minimum of the recorded times; the times are all
        positive, so `best_time` is never falsy once set. */
    ghost predicate Valid()
      reads this
    {
      && bestTime == Best(times)
      && (forall i :: 0 <= i < |times| ==> times[i] > 0.0)
    }

    /** `__init__`, which calls `reset`. */
    constructor (width: int, height: int, x: int, y: int, wait: real)
      requires CornerInRange(width, height, x, y) && WaitInRange(wait)
      ensures this.width == width && this.height == height
      ensures Valid() && times == []
      ensures targetRect == NewTarget(width, height, x, y) && bestTime == None
      ensures waitTime == wait && timer == 0.0 && !active
    {
      this.width := width;
      this.height := height;
      new;
      Reset(x, y, wait);
    }

    /** `reset`: a new target, no best time, a new wait, and an idle timer. */
    method Reset(x: int, y: int, wait: real)
      requires CornerInRange(width, height, x, y) && WaitInRange(wait)
      modifies this
      ensures Valid() && times == []
      ensures targetRect == NewTarget(width, height, x, y) && bestTime == None
      ensures waitTime == wait && timer == 0.0 && !active
    {
      targetRect := NewTarget(width, height, x, y);
      bestTime := None;
      waitTime := wait;
      timer := 0.0;
      active := false;
      times := [];
    }

    /** `handle_pointer`: only a click on the lit target counts. It records
        the reaction time when it is positive, then starts a new round with
        a new wait and a new target. */
    method HandlePointer(eventType: string, pos: Point, x: int, y: int, wait: real)
      requires Valid() && CornerInRange(width, height, x, y) && WaitInRange(wait)
      modifies this
      ensures Valid()
      ensures !(eventType == CLICK && old(active) && CollidePoint(old(targetRect), pos)) ==>
                && targetRect == old(targetRect) && bestTime == old(bestTime) && waitTime == old(waitTime)
                && timer == old(timer) && active == old(active) && times == old(times)
      ensures eventType == CLICK && old(active) && CollidePoint(old(targetRect), pos) ==>
                && times == old(times) + (if old(timer) > 0.0 then [old(timer)] else [])
                && timer == 0.0 && !active && waitTime == wait && WaitInRange(waitTime)
                && targetRect == NewTarget(width, height, x, y)
      ensures old(bestTime).Some? ==> bestTime.Some? && bestTime.value <= old(bestTime).value
    {
      if eventType == CLICK && active && CollidePoint(targetRect, pos) {
        if timer > 0.0 {
          BestAppend(times, timer);
          bestTime := if bestTime.Some? then Some(if timer < bestTime.value then timer else bestTime.value) else Some(timer);
          times := times + [timer];
        }
        timer := 0.0;
        waitTime := wait;
        active := false;
        targetRect := NewTarget(width, height, x, y);
      }
    }

    /** `update`: the wait counts down; once it is over the target is lit
        and the timer runs; a timer past 10 seconds ends the round with a
        new wait. */
    method Update(dt: real, wait: real)
      requires WaitInRange(wait)
      modifies this
      ensures targetRect == old(targetRect) && bestTime == old(bestTime) && times == old(times)
      ensures var w := old(waitTime) - dt;
              var t := if w <= 0.0 then old(timer) + dt else old(timer);
              var a := w <= 0.0 || old(active);
              if t > TIMEOUT then timer == 0.0 && !active && waitTime == wait
              else timer == t && active == a && waitTime == w
      ensures timer <= TIMEOUT
      ensures active && !old(active) ==> old(waitTime) - dt <= 0.0
      ensures timer != old(timer) && timer != 0.0 ==> old(waitTime) - dt <= 0.0 && timer == old(timer) + dt
    {
      waitTime := waitTime - dt;
      if waitTime <= 0.0 {
        active := true;
        timer := timer + dt;
      }
      if timer > TIMEOUT {
        timer := 0.0;
        active := false;
        waitTime := wait;
      }
    }
  }
}
