/** apps/target.py: a target of four rings around the screen centre; a
    click scores the value of the first ring, in list order, that covers it. */
module Target {
  import opened Common

  const RADII: seq<int> := [160, 120, 80, 40]
  const VALUES: seq<int> := [5, 10, 20, 50]
  const CLICK: string := "click"

  function Dist2(p: Point, c: Point): int {
    (p.x - c.x) * (p.x - c.x) + (p.y - c.y) * (p.y - c.y)
  }

  /** The ring loop of `handle_pointer` over `zip(radii, values)`: the value
      of the first ring whose radius covers the squared distance, or 0. */
  function FirstRingValue(radii: seq<int>, values: seq<int>, dist2: int): int {
    if radii == [] || values == [] then 0
    else if dist2 <= radii[0] * radii[0] then values[0]
    else FirstRingValue(radii[1..], values[1..], dist2)
  }

  /** The value scored is that of the first covering ring, and nothing
      when no ring covers the click. */
  lemma {:induction false} FirstRingValueIsFirstCovering(radii: seq<int>, values: seq<int>, dist2: int)
    ensures var v := FirstRingValue(radii, values, dist2);
            && ((forall i :: 0 <= i < |radii| && i < |values| ==> dist2 > radii[i] * radii[i]) ==> v == 0)
            && (forall i :: (0 <= i < |radii| && i < |values| && dist2 <= radii[i] * radii[i]
                             && forall k :: 0 <= k < i ==> dist2 > radii[k] * radii[k]) ==> v == values[i])
  {
    if radii != [] && values != [] && dist2 > radii[0] * radii[0] {
      FirstRingValueIsFirstCovering(radii[1..], values[1..], dist2);
      assert forall i :: 1 <= i < |radii| ==> radii[1..][i - 1] == radii[i];
      assert forall i :: 1 <= i < |values| ==> values[1..][i - 1] == values[i];
    }
  }

  /** As written, the widest ring is tested first, so every click inside the
      target scores 5 and the inner rings can never score. */
  lemma AnyHitScoresFive(dist2: int)
    ensures FirstRingValue(RADII, VALUES, dist2) == if dist2 <= 160 * 160 then 5 else 0
  {
    assert RADII[1..] == [120, 80, 40] && VALUES[1..] == [10, 20, 50];
    assert [120, 80, 40][1..] == [80, 40] && [10, 20, 50][1..] == [20, 50];
    assert [80, 40][1..] == [40] && [20, 50][1..] == [50];
    assert [40][1..] == [] && [50][1..] == [];
    if dist2 > 160 * 160 {
      assert FirstRingValue([40], [50], dist2) == 0;
      assert FirstRingValue([80, 40], [20, 50], dist2) == 0;
      assert FirstRingValue([120, 80, 40], [10, 20, 50], dist2) == 0;
    }
  }

  /** The centre of the target scores 5, not the 50 of the bullseye. */
  lemma BullseyeScoresFive()
    ensures FirstRingValue(RADII, VALUES, 0) == 5
    ensures InnermostRingValue(0) == 50
  {
    AnyHitScoresFive(0);
    InnermostBands(0);
  }

  /** The evident intent: the innermost ring covering the click counts, so
      the rings are tested from the smallest. */
  function InnermostRingValue(dist2: int): int {
    FirstRingValue([40, 80, 120, 160], [50, 20, 10, 5], dist2)
  }

  /** Each band between two rings scores that ring's value. */
  lemma InnermostBands(dist2: int)
    ensures dist2 <= 40 * 40 ==> InnermostRingValue(dist2) == 50
    ensures 40 * 40 < dist2 <= 80 * 80 ==> InnermostRingValue(dist2) == 20
    ensures 80 * 80 < dist2 <= 120 * 120 ==> InnermostRingValue(dist2) == 10
    ensures 120 * 120 < dist2 <= 160 * 160 ==> InnermostRingValue(dist2) == 5
    ensures 160 * 160 < dist2 ==> InnermostRingValue(dist2) == 0
  {
    var radii, values := [40, 80, 120, 160], [50, 20, 10, 5];
    assert radii[1..] == [80, 120, 160] && values[1..] == [20, 10, 5];
    assert [80, 120, 160][1..] == [120, 160] && [20, 10, 5][1..] == [10, 5];
    assert [120, 160][1..] == [160] && [10, 5][1..] == [5];
    assert [160][1..] == [] && [5][1..] == [];
    assert InnermostRingValue(dist2) == if dist2 <= 40 * 40 then 50 else FirstRingValue([80, 120, 160], [20, 10, 5], dist2);
    assert FirstRingValue([80, 120, 160], [20, 10, 5], dist2)
        == if dist2 <= 80 * 80 then 20 else FirstRingValue([120, 160], [10, 5], dist2);
    assert FirstRingValue([120, 160], [10, 5], dist2) == if dist2 <= 120 * 120 then 10 else FirstRingValue([160], [5], dist2);
    assert FirstRingValue([160], [5], dist2) == if dist2 <= 160 * 160 then 5 else 0;
  }

  class TargetApp {
    const center: Point
    var score: int

    /** `__init__` on a width x height screen. */
    constructor (width: int, height: int)
      ensures score == 0 && center == Point(width / 2, height / 2)
    {
      score := 0;
      center := Point(width / 2, height / 2);
    }

    /** `handle_pointer`: a click adds the value of the first ring covering
        it; other events change nothing. */
    method HandlePointer(eventType: string, pos: Point)
      modifies this
      ensures eventType != CLICK ==> score == old(score)
      ensures eventType == CLICK ==> score == old(score) + FirstRingValue(RADII, VALUES, Dist2(pos, center))
      ensures old(score) <= score <= old(score) + 5
    {
      if eventType == CLICK {
        var dx := pos.x - center.x;
        var dy := pos.y - center.y;
        var dist2 := dx * dx + dy * dy;
        var k := 0;
        while k < |RADII| && k < |VALUES|
          invariant 0 <= k <= |RADII|
          invariant score == old(score)
          invariant FirstRingValue(RADII[k..], VALUES[k..], dist2) == FirstRingValue(RADII, VALUES, dist2)
        {
          if dist2 <= RADII[k] * RADII[k] {
            score := score + VALUES[k];
            break;
          }
          assert RADII[k..][1..] == RADII[k + 1..] && VALUES[k..][1..] == VALUES[k + 1..];
          k := k + 1;
        }
        AnyHitScoresFive(dist2);
      }
    }
  }
}
