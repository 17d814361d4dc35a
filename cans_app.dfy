/** apps/cans.py: six cans in a row; a click knocks over every standing can
    under it for 10 points each, and knocking the last one sets the row up
    again with the score back at 0. */
module Cans {
  import opened Common

  const CLICK: string := "click"
  const CAN_COUNT: int := 6
  const CAN_WIDTH: int := 80
  const CAN_HEIGHT: int := 120
  const CAN_POINTS: int := 10

  datatype Can = Can(rect: Rect, alive: bool)

  /** The rectangle of can i on a screen `height` pixels high: 20 pixels
      between cans, 50 above the bottom edge. */
  function CanRect(i: int, height: int): Rect {
    Rect(100 + i * (CAN_WIDTH + 20), height - CAN_HEIGHT - 50, CAN_WIDTH, CAN_HEIGHT)
  }

  /** The row `reset` sets up: every can standing. */
  function InitialCans(height: int): (cans: seq<Can>)
    ensures |cans| == CAN_COUNT
    ensures forall i :: 0 <= i < |cans| ==> cans[i] == Can(CanRect(i, height), true)
  {
    seq(CAN_COUNT, i => Can(CanRect(i, height), true))
  }

  /** One can after a click at `pos`: a standing can under the pointer falls. */
  function KnockOne(c: Can, pos: Point): Can {
    if c.alive && CollidePoint(c.rect, pos) then c.(alive := false) else c
  }

  /** The row after the click loop of `handle_pointer`. */
  function Knock(cans: seq<Can>, pos: Point): (r: seq<Can>)
    ensures |r| == |cans|
    ensures forall i :: 0 <= i < |cans| ==> r[i].rect == cans[i].rect
    ensures forall i :: 0 <= i < |cans| ==> (r[i].alive <==> cans[i].alive && !CollidePoint(cans[i].rect, pos))
  {
    if cans == [] then []
    else Knock(cans[..|cans| - 1], pos) + [KnockOne(cans[|cans| - 1], pos)]
  }

  /** The number of standing cans under `pos`: the cans the click knocks over. */
  function Hits(cans: seq<Can>, pos: Point): (n: nat)
    ensures n <= |cans|
  {
    if cans == [] then 0
    else Hits(cans[..|cans| - 1], pos) + (if cans[|cans| - 1].alive && CollidePoint(cans[|cans| - 1].rect, pos) then 1 else 0)
  }

  /** A click hits nothing exactly when no standing can is under it. */
  lemma {:induction false} HitsZero(cans: seq<Can>, pos: Point)
    ensures Hits(cans, pos) == 0 <==> forall i :: 0 <= i < |cans| ==> !(cans[i].alive && CollidePoint(cans[i].rect, pos))
  {
    if cans != [] {
      var init := cans[..|cans| - 1];
      HitsZero(init, pos);
      assert forall i :: 0 <= i < |init| ==> init[i] == cans[i];
    }
  }

  /** The number of knocked-over cans; it is 0 exactly when every can stands. */
  function DeadCount(cans: seq<Can>): (n: nat)
    ensures n <= |cans|
    ensures n == 0 <==> forall i :: 0 <= i < |cans| ==> cans[i].alive
  {
    if cans == [] then 0
    else
      var init := cans[..|cans| - 1];
      assert forall i :: 0 <= i < |init| ==> init[i] == cans[i];
      DeadCount(init) + (if cans[|cans| - 1].alive then 0 else 1)
  }

  predicate AllDead(cans: seq<Can>) {
    forall i :: 0 <= i < |cans| ==> !cans[i].alive
  }

  /** Every can is down exactly when the dead count is the whole row. */
  lemma {:induction false} AllDeadCount(cans: seq<Can>)
    ensures AllDead(cans) <==> DeadCount(cans) == |cans|
  {
    if cans != [] {
      var init := cans[..|cans| - 1];
      AllDeadCount(init);
      assert forall i :: 0 <= i < |init| ==> init[i] == cans[i];
    }
  }

  /** A standing row has no dead can. */
  lemma {:induction false} NoneDeadCount(cans: seq<Can>)
    requires forall i :: 0 <= i < |cans| ==> cans[i].alive
    ensures DeadCount(cans) == 0
  {
    if cans != [] {
      NoneDeadCount(cans[..|cans| - 1]);
    }
  }

  /** A click adds to the dead count exactly the cans it hits. */
  lemma {:induction false} KnockCounts(cans: seq<Can>, pos: Point)
    ensures DeadCount(Knock(cans, pos)) == DeadCount(cans) + Hits(cans, pos)
  {
    if cans != [] {
      var init := cans[..|cans| - 1];
      KnockCounts(init, pos);
      var r := Knock(cans, pos);
      assert r[..|r| - 1] == Knock(init, pos);
    }
  }

  /** One more step of the click loop: can k is knocked or left, and the
      rest of the row is untouched. */
  lemma KnockPrefix(all: seq<Can>, k: int, pos: Point)
    requires 0 <= k < |all|
    ensures Knock(all[..k + 1], pos) == Knock(all[..k], pos) + [KnockOne(all[k], pos)]
    ensures Hits(all[..k + 1], pos) == Hits(all[..k], pos) + (if all[k].alive && CollidePoint(all[k].rect, pos) then 1 else 0)
    ensures (Knock(all[..k], pos) + all[k..])[k] == all[k]
    ensures (Knock(all[..k], pos) + all[k..])[k := KnockOne(all[k], pos)] == Knock(all[..k + 1], pos) + all[k + 1..]
  {
    assert all[..k + 1][..k] == all[..k];
  }

  /** The cans of the row never overlap. */
  lemma CansDisjoint(height: int, i: int, j: int)
    requires 0 <= i < j < CAN_COUNT
    ensures Disjoint(CanRect(i, height), CanRect(j, height))
  {
    SeparatedHorizontally(CanRect(i, height), CanRect(j, height));
  }

  /** With pairwise disjoint cans, a click knocks over at most one. */
  lemma {:induction false} HitsAtMostOne(cans: seq<Can>, pos: Point)
    requires forall i, j :: 0 <= i < j < |cans| ==> Disjoint(cans[i].rect, cans[j].rect)
    ensures Hits(cans, pos) <= 1
  {
    if cans != [] {
      var init := cans[..|cans| - 1];
      var last := cans[|cans| - 1];
      HitsAtMostOne(init, pos);
      if CollidePoint(last.rect, pos) {
        forall i | 0 <= i < |init|
          ensures !CollidePoint(init[i].rect, pos)
        {
          assert Disjoint(cans[i].rect, last.rect);
        }
        NoHits(init, pos);
      }
    }
  }

  /** A click under no can hits nothing. */
  lemma {:induction false} NoHits(cans: seq<Can>, pos: Point)
    requires forall i :: 0 <= i < |cans| ==> !CollidePoint(cans[i].rect, pos)
    ensures Hits(cans, pos) == 0
  {
    if cans != [] {
      NoHits(cans[..|cans| - 1], pos);
    }
  }

  class CansApp {
    const height: int
    var score: int
    var cans: seq<Can>

    /** The row stays in place, the score is 10 per fallen can, and some can
        is always standing. */
    ghost predicate Valid()
      reads this
    {
      && |cans| == CAN_COUNT
      && (forall i :: 0 <= i < |cans| ==> cans[i].rect == CanRect(i, height))
      && score == CAN_POINTS * DeadCount(cans)
      && !AllDead(cans)
    }

    /** `__init__` on a screen `height` pixels high. */
    constructor (height: int)
      ensures this.height == height
      ensures Valid() && score == 0 && cans == InitialCans(height)
    {
      this.height := height;
      new;
      Reset();
    }

    /** `reset`: score 0 and a fresh row of standing cans. */
    method Reset()
      modifies this
      ensures Valid()
      ensures score == 0 && cans == InitialCans(height)
    {
      score := 0;
      var row: seq<Can> := [];
      for i := 0 to CAN_COUNT
        invariant |row| == i
        invariant forall k :: 0 <= k < i ==> row[k] == Can(CanRect(k, height), true)
      {
        row := row + [Can(CanRect(i, height), true)];
      }
      cans := row;
      NoneDeadCount(cans);
      assert cans[0].alive;
    }

    /** `handle_pointer`: a click knocks over the standing cans under it, 10
        points each, and sets the row up again once every can is down. */
    method HandlePointer(eventType: string, pos: Point)
      requires Valid()
      modifies this
      ensures Valid()
      ensures eventType != CLICK ==> cans == old(cans) && score == old(score)
      ensures eventType == CLICK && !AllDead(Knock(old(cans), pos)) ==>
                cans == Knock(old(cans), pos) && score == old(score) + CAN_POINTS * Hits(old(cans), pos)
      ensures eventType == CLICK && AllDead(Knock(old(cans), pos)) ==> cans == InitialCans(height) && score == 0
      ensures score <= old(score) + CAN_POINTS
    {
      forall i, j | 0 <= i < j < |cans|
        ensures Disjoint(cans[i].rect, cans[j].rect)
      {
        CansDisjoint(height, i, j);
      }
      HitsAtMostOne(cans, pos);
      if eventType == CLICK {
        var before := cans;
        KnockDown(pos);
        KnockCounts(before, pos);
        AllDeadCount(cans);
        if AllDead(cans) {
          Reset();
        }
      }
    }

    /** The click loop of `handle_pointer`: every standing can under `pos`
        falls, for 10 points each. */
    method KnockDown(pos: Point)
      modifies this
      ensures cans == Knock(old(cans), pos) && score == old(score) + CAN_POINTS * Hits(old(cans), pos)
    {
      var all := cans;
      for k := 0 to |all|
        invariant cans == Knock(all[..k], pos) + all[k..]
        invariant score == old(score) + CAN_POINTS * Hits(all[..k], pos)
      {
        KnockPrefix(all, k, pos);
        if cans[k].alive && CollidePoint(cans[k].rect, pos) {
          cans := cans[k := cans[k].(alive := false)];
          score := score + CAN_POINTS;
        }
      }
      assert all[..|all|] == all;
    }
  }
}
