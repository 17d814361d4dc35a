/** apps/chickens.py: the chicken shooting game. Frame images are ordered by
    the number in their file names; chickens fly across the screen, fall
    when shot and are dropped once they leave the screen or finish falling;
    a round lasts 90 seconds and moves from the menu to play to game over.
    Images, sounds, music and drawing are not modelled: a sprite keeps only
    how many flight and death frames it has. */
module Chickens {
  import opened Common

  // ---------------------------------------------------------------------
  // `_sorted_by_number`
  // ---------------------------------------------------------------------

  /** A frame image's path, as far as the ordering looks at it. */
  datatype ImagePath = ImagePath(stem: string, suffix: string)

  /** `"".join(filter(str.isdigit, stem))` for ASCII digits. */
  function Digits(s: string): (d: string)
    ensures AllDigits(d) && |d| <= |s|
  {
    if s == [] then []
    else Digits(s[..|s| - 1]) + (if IsDigit(s[|s| - 1]) then [s[|s| - 1]] else [])
  }

  /** The sort key: the number all the stem's digits spell, or 0 when it has none. */
  function Key(p: ImagePath): nat {
    var d := Digits(p.stem);
    if d != [] then DigitsValue(d) else 0
  }

  predicate SortedByKey(s: seq<ImagePath>) {
    forall i, j :: 0 <= i < j < |s| ==> Key(s[i]) <= Key(s[j])
  }

  /** The paths with key k, in their order in s. */
  function WithKey(s: seq<ImagePath>, k: nat): seq<ImagePath> {
    if s == [] then []
    else WithKey(s[..|s| - 1], k) + (if Key(s[|s| - 1]) == k then [s[|s| - 1]] else [])
  }

  /** Puts x into the sorted list s after every path whose key is not
      larger: behind the paths with an equal key, which came first. */
  function Insert(x: ImagePath, s: seq<ImagePath>): (r: seq<ImagePath>)
    requires SortedByKey(s)
    ensures |r| == |s| + 1 && multiset(r) == multiset(s) + multiset{x}
    ensures SortedByKey(r)
  {
    if s == [] then [x]
    else
      var last := s[|s| - 1];
      var init := s[..|s| - 1];
      assert s == init + [last];
      if Key(last) <= Key(x) then
        SortedAppend(s, x);
        s + [x]
      else
        var r := Insert(x, init);
        InsertedBelow(x, init, last, r);
        SortedAppend(r, last);
        r + [last]
  }

  /** Appending a path whose key is not below any key of a sorted list
      keeps it sorted. */
  lemma SortedAppend(s: seq<ImagePath>, y: ImagePath)
    requires SortedByKey(s) && forall i :: 0 <= i < |s| ==> Key(s[i]) <= Key(y)
    ensures SortedByKey(s + [y])
  {
  }

  /** Every path of r, which holds init's paths and x, has a key no larger
      than last's when init's and x's keys are. */
  lemma InsertedBelow(x: ImagePath, init: seq<ImagePath>, last: ImagePath, r: seq<ImagePath>)
    requires multiset(r) == multiset(init) + multiset{x}
    requires Key(x) < Key(last) && forall i :: 0 <= i < |init| ==> Key(init[i]) <= Key(last)
    ensures forall i :: 0 <= i < |r| ==> Key(r[i]) <= Key(last)
  {
    forall i | 0 <= i < |r|
      ensures Key(r[i]) <= Key(last)
    {
      assert r[i] in multiset(r);
      if r[i] != x {
        assert r[i] in multiset(init);
        var j :| 0 <= j < |init| && init[j] == r[i];
      }
    }
  }

  /** `_sorted_by_number`: Python's stable `sorted` with `key`, built up by
      inserting the paths one after another. */
  function SortedByNumber(paths: seq<ImagePath>): (r: seq<ImagePath>)
    ensures SortedByKey(r)
    ensures |r| == |paths| && multiset(r) == multiset(paths)
  {
    if paths == [] then []
    else
      assert paths == paths[..|paths| - 1] + [paths[|paths| - 1]];
      Insert(paths[|paths| - 1], SortedByNumber(paths[..|paths| - 1]))
  }

  /** Inserting x adds it behind the paths of its own key and leaves the
      other keys' paths as they were. */
  lemma {:induction false} InsertWithKey(x: ImagePath, s: seq<ImagePath>, k: nat)
    requires SortedByKey(s)
    ensures WithKey(Insert(x, s), k) == WithKey(s, k) + (if Key(x) == k then [x] else [])
  {
    if s == [] {
      assert Insert(x, s) == [x];
      assert [x][..0] == [];
    } else if Key(s[|s| - 1]) <= Key(x) {
      InsertLastWithKey(x, s, k);
    } else {
      InsertWithKey(x, s[..|s| - 1], k);
      InsertBelowWithKey(x, s, k);
    }
  }

  /** The case where x goes last. */
  lemma InsertLastWithKey(x: ImagePath, s: seq<ImagePath>, k: nat)
    requires SortedByKey(s) && s != [] && Key(s[|s| - 1]) <= Key(x)
    ensures WithKey(Insert(x, s), k) == WithKey(s, k) + (if Key(x) == k then [x] else [])
  {
    assert Insert(x, s) == s + [x];
    WithKeySnoc(s, x, k);
  }

  /** The case where x goes before the last path, given the fact for the
      paths before it. */
  lemma InsertBelowWithKey(x: ImagePath, s: seq<ImagePath>, k: nat)
    requires SortedByKey(s) && s != [] && Key(x) < Key(s[|s| - 1])
    requires SortedByKey(s[..|s| - 1])
    requires WithKey(Insert(x, s[..|s| - 1]), k) ==
             WithKey(s[..|s| - 1], k) + (if Key(x) == k then [x] else [])
    ensures WithKey(Insert(x, s), k) == WithKey(s, k) + (if Key(x) == k then [x] else [])
  {
    var last := s[|s| - 1];
    var init := s[..|s| - 1];
    var r := Insert(x, init);
    assert Insert(x, s) == r + [last];
    WithKeySnoc(r, last, k);
    WithKeySnoc(init, last, k);
    assert s == init + [last];
    SwapTails(WithKey(init, k), x, last, k);
  }

  /** WithKey of a list with one more path at its end. */
  lemma WithKeySnoc(u: seq<ImagePath>, y: ImagePath, k: nat)
    ensures WithKey(u + [y], k) == WithKey(u, k) + (if Key(y) == k then [y] else [])
  {
    assert (u + [y])[..|u|] == u;
  }

  /** Two paths of different keys add at most one path to WithKey, so their
      order does not matter. */
  lemma SwapTails(a: seq<ImagePath>, x: ImagePath, y: ImagePath, k: nat)
    requires Key(x) != Key(y)
    ensures (a + (if Key(x) == k then [x] else [])) + (if Key(y) == k then [y] else []) ==
            (a + (if Key(y) == k then [y] else [])) + (if Key(x) == k then [x] else [])
  {
  }

  /** The sort is stable: for every key, the paths with that key keep their
      input order. */
  lemma {:induction false} SortIsStable(paths: seq<ImagePath>, k: nat)
    ensures WithKey(SortedByNumber(paths), k) == WithKey(paths, k)
  {
    if paths != [] {
      var init := paths[..|paths| - 1];
      SortIsStable(init, k);
      InsertWithKey(paths[|paths| - 1], SortedByNumber(init), k);
    }
  }

  /** A stem without digits sorts as frame 0. */
  lemma NoDigitsIsZero(p: ImagePath)
    requires forall i :: 0 <= i < |p.stem| ==> !IsDigit(p.stem[i])
    ensures Key(p) == 0
  {
    NoDigits(p.stem);
  }

  /** Filtering keeps every digit of the stem, in order: the digits of a
      concatenation are the digits of its parts, one after the other. */
  lemma {:induction false} DigitsAppend(a: string, b: string)
    ensures Digits(a + b) == Digits(a) + Digits(b)
  {
    if b == [] {
      assert a + b == a;
    } else {
      var init := b[..|b| - 1];
      assert (a + b)[..|a + b| - 1] == a + init;
      assert (a + b)[|a + b| - 1] == b[|b| - 1];
      DigitsAppend(a, init);
    }
  }

  /** A character survives the filter exactly when it is a digit of the stem. */
  lemma {:induction false} DigitsMembers(s: string)
    ensures forall c :: c in Digits(s) <==> c in s && IsDigit(c)
  {
    if s != [] {
      var init := s[..|s| - 1];
      assert s == init + [s[|s| - 1]];
      DigitsMembers(init);
    }
  }

  /** A stem made only of digits is kept whole. */
  lemma {:induction false} AllDigitsKept(s: string)
    requires AllDigits(s)
    ensures Digits(s) == s
  {
    if s != [] {
      var init := s[..|s| - 1];
      assert s == init + [s[|s| - 1]];
      AllDigitsKept(init);
    }
  }

  /** The digits of "frame12" spell 12, and "frame" sorts as 0. */
  lemma KeyExamples()
    ensures Key(ImagePath("frame12", ".png")) == 12
    ensures Key(ImagePath("frame", ".png")) == 0
  {
    NoDigits("frame");
    AllDigitsKept("12");
    DigitsAppend("frame", "12");
    assert "frame" + "12" == "frame12";
    assert Digits("frame12") == "12";
    assert "12"[..1] == "1";
    assert DigitsValue("1") == 1;
  }

  lemma {:induction false} NoDigits(s: string)
    requires forall i :: 0 <= i < |s| ==> !IsDigit(s[i])
    ensures Digits(s) == []
  {
    if s != [] {
      NoDigits(s[..|s| - 1]);
    }
  }

  // ---------------------------------------------------------------------
  // `ChickenSprite`
  // ---------------------------------------------------------------------

  const FRAME_TIME: real := 0.08
  const DEATH_FRAME_TIME: real := 0.1
  const OFFSCREEN_MARGIN: int := 120
  const FALL_SPEED: real := 120.0

  /** A chicken: its frame lists reduced to their lengths. */
  datatype Sprite = Sprite(frameCount: int, deathFrameCount: int, rect: Rect, speed: real, points: int,
                           alive: bool, frameIndex: int, frameTimer: real,
                           deathIndex: int, deathTimer: real, remove: bool)

  /** Both frame lists are non-empty and both indices point into them. */
  predicate WellFormed(s: Sprite) {
    && 0 <= s.frameIndex < s.frameCount
    && 0 <= s.deathIndex < s.deathFrameCount
  }

  /** `ChickenSprite.update`. A flying chicken flaps every 0.08 s, moves by
      `int(speed * dt)` and is marked for removal once it is more than 120
      pixels off either side; a falling one shows its next death frame every
      0.1 s, is marked after the last one, and drops by `int(120 * dt)`. */
  function UpdateSprite(s: Sprite, dt: real, boundsWidth: int): (r: Sprite)
    requires s.frameCount >= 1
    ensures r.alive == s.alive && r.points == s.points && r.speed == s.speed
    ensures r.frameCount == s.frameCount && r.deathFrameCount == s.deathFrameCount
    ensures r.rect.w == s.rect.w && r.rect.h == s.rect.h
    ensures s.alive ==> r.rect.y == s.rect.y && r.deathIndex == s.deathIndex
    ensures !s.alive ==> r.rect.x == s.rect.x && r.frameIndex == s.frameIndex
    ensures s.remove ==> r.remove
    ensures WellFormed(s) ==> WellFormed(r)
    ensures !s.alive && !s.remove && r.remove ==> s.deathIndex >= s.deathFrameCount - 1
    ensures s.alive && r.remove ==> s.remove || r.rect.x + r.rect.w < -OFFSCREEN_MARGIN || r.rect.x > boundsWidth + OFFSCREEN_MARGIN
  {
    if s.alive then
      var timer := s.frameTimer + dt;
      var flap := timer >= FRAME_TIME;
      var rect := s.rect.(x := s.rect.x + Trunc(s.speed * dt));
      s.(frameTimer := if flap then 0.0 else timer,
         frameIndex := if flap then (s.frameIndex + 1) % s.frameCount else s.frameIndex,
         rect := rect,
         remove := s.remove || rect.x + rect.w < -OFFSCREEN_MARGIN || rect.x > boundsWidth + OFFSCREEN_MARGIN)
    else
      var timer := s.deathTimer + dt;
      var rect := s.rect.(y := s.rect.y + Trunc(FALL_SPEED * dt));
      if timer < DEATH_FRAME_TIME then s.(deathTimer := timer, rect := rect)
      else if s.deathIndex < s.deathFrameCount - 1 then s.(deathTimer := 0.0, deathIndex := s.deathIndex + 1, rect := rect)
      else s.(deathTimer := 0.0, remove := true, rect := rect)
  }

  /** `ChickenSprite.shoot`: a flying chicken starts falling from its first
      death frame; a falling one is left alone. */
  function ShootSprite(s: Sprite): (r: Sprite)
    ensures !r.alive
    ensures s.alive ==> r == s.(alive := false, deathIndex := 0, deathTimer := 0.0)
    ensures !s.alive ==> r == s
    ensures WellFormed(s) ==> WellFormed(r)
  {
    if s.alive then s.(alive := false, deathIndex := 0, deathTimer := 0.0) else s
  }

  /** A falling chicken is removed only after it has shown every death frame:
      it needs one 0.1 s step per frame after the first. */
  lemma {:induction false} FallingTakesAllFrames(s: Sprite, dts: seq<real>, boundsWidth: int)
    requires s.frameCount >= 1 && !s.alive && !s.remove && WellFormed(s)
    requires RunSprite(s, dts, boundsWidth).remove
    ensures |dts| >= s.deathFrameCount - s.deathIndex
    decreases dts
  {
    if dts == [] {
    } else {
      var n := UpdateSprite(s, dts[0], boundsWidth);
      if !n.remove {
        FallingTakesAllFrames(n, dts[1..], boundsWidth);
      }
    }
  }

  /** A sprite after a sequence of frame updates. */
  function RunSprite(s: Sprite, dts: seq<real>, boundsWidth: int): (r: Sprite)
    requires s.frameCount >= 1
    ensures r.frameCount == s.frameCount && r.deathFrameCount == s.deathFrameCount && r.alive == s.alive
    ensures WellFormed(s) ==> WellFormed(r)
    decreases dts
  {
    if dts == [] then s else RunSprite(UpdateSprite(s, dts[0], boundsWidth), dts[1..], boundsWidth)
  }

  /** Every chicken of the list is well formed and worth no negative points. */
  predicate Flock(cs: seq<Sprite>) {
    forall i :: 0 <= i < |cs| ==> WellFormed(cs[i]) && cs[i].points >= 0
  }

  lemma FlockAppend(cs: seq<Sprite>, c: Sprite)
    requires Flock(cs) && WellFormed(c) && c.points >= 0
    ensures Flock(cs + [c])
  {
  }

  /** The update loop of `ChickenApp.update`: every chicken is updated, in
      order, and those marked for removal are dropped. */
  function UpdateAll(cs: seq<Sprite>, dt: real, boundsWidth: int): (r: seq<Sprite>)
    requires forall i :: 0 <= i < |cs| ==> cs[i].frameCount >= 1
    ensures |r| <= |cs|
    ensures forall i :: 0 <= i < |r| ==> !r[i].remove && r[i].frameCount >= 1
    ensures Flock(cs) ==> Flock(r)
  {
    if cs == [] then []
    else
      var u := UpdateSprite(cs[|cs| - 1], dt, boundsWidth);
      UpdateAll(cs[..|cs| - 1], dt, boundsWidth) + (if u.remove then [] else [u])
  }

  /** Every chicken that stays is the update of one that was there. */
  lemma {:induction false} KeptWereUpdated(cs: seq<Sprite>, dt: real, boundsWidth: int, c: Sprite)
    requires forall i :: 0 <= i < |cs| ==> cs[i].frameCount >= 1
    requires c in UpdateAll(cs, dt, boundsWidth)
    ensures exists i :: 0 <= i < |cs| && c == UpdateSprite(cs[i], dt, boundsWidth)
  {
    var init := cs[..|cs| - 1];
    if c in UpdateAll(init, dt, boundsWidth) {
      KeptWereUpdated(init, dt, boundsWidth, c);
      var i :| 0 <= i < |init| && c == UpdateSprite(init[i], dt, boundsWidth);
      assert cs[i] == init[i];
    } else {
      assert c == UpdateSprite(cs[|cs| - 1], dt, boundsWidth);
    }
  }

  /** Every updated chicken not marked for removal stays. */
  lemma {:induction false} UpdatedAreKept(cs: seq<Sprite>, dt: real, boundsWidth: int, i: int)
    requires forall k :: 0 <= k < |cs| ==> cs[k].frameCount >= 1
    requires 0 <= i < |cs| && !UpdateSprite(cs[i], dt, boundsWidth).remove
    ensures UpdateSprite(cs[i], dt, boundsWidth) in UpdateAll(cs, dt, boundsWidth)
  {
    var init := cs[..|cs| - 1];
    if i < |cs| - 1 {
      assert cs[i] == init[i];
      UpdatedAreKept(init, dt, boundsWidth, i);
    }
  }

  /** The update loop of `ChickenApp.update`, over a copy of the list. */
  method UpdateEach(pool: seq<Sprite>, dt: real, boundsWidth: int) returns (kept: seq<Sprite>)
    requires forall i :: 0 <= i < |pool| ==> pool[i].frameCount >= 1
    ensures kept == UpdateAll(pool, dt, boundsWidth)
  {
    kept := [];
    for k := 0 to |pool|
      invariant kept == UpdateAll(pool[..k], dt, boundsWidth)
    {
      assert pool[..k + 1][..k] == pool[..k];
      var c := UpdateSprite(pool[k], dt, boundsWidth);
      if !c.remove {
        kept := kept + [c];
      }
    }
    assert pool[..|pool|] == pool;
  }

  // ---------------------------------------------------------------------
  // `_spawn_chicken`
  // ---------------------------------------------------------------------

  /** One of the three chicken kinds: size, speed range and points. */
  datatype Kind = Kind(w: int, h: int, minSpeed: real, maxSpeed: real, points: int)

  const KINDS: seq<Kind> := [Kind(48, 36, 120.0, 170.0, 15), Kind(64, 50, 150.0, 210.0, 25), Kind(80, 64, 190.0, 260.0, 40)]

  /** The random values `_spawn_chicken` draws: the kind, its speed, the
      direction and the height. */
  datatype SpawnDraw = SpawnDraw(kind: int, speed: real, direction: int, y: int)

  /** What `random.choice`, `random.uniform` and `random.randint` can
      return on a screen `height` pixels high. */
  predicate DrawInRange(d: SpawnDraw, height: int) {
    && 0 <= d.kind < |KINDS|
    && KINDS[d.kind].minSpeed <= d.speed <= KINDS[d.kind].maxSpeed
    && (d.direction == -1 || d.direction == 1)
    && Trunc(height as real * 0.25) <= d.y <= Trunc(height as real * 0.75)
  }

  /** `_spawn_chicken`: a new flying chicken just off the side it enters
      from, heading into the screen. */
  function Spawn(d: SpawnDraw, width: int, flightFrames: int, deathFrames: int): (s: Sprite)
    requires 0 <= d.kind < |KINDS|
    requires flightFrames >= 1 && deathFrames >= 1
    ensures WellFormed(s) && s.alive && !s.remove && s.points == KINDS[d.kind].points && s.points > 0
    ensures s.rect.w == KINDS[d.kind].w && s.rect.h == KINDS[d.kind].h && s.rect.y == d.y
    ensures d.direction > 0 ==> s.rect.x + s.rect.w == -40
    ensures d.direction <= 0 ==> s.rect.x == width + 40
    ensures s.speed == d.speed * d.direction as real
  {
    var k := KINDS[d.kind];
    var x := if d.direction > 0 then -k.w - 40 else width + 40;
    Sprite(flightFrames, deathFrames, Rect(x, d.y, k.w, k.h), d.speed * d.direction as real, k.points,
           true, 0, 0.0, 0, 0.0, false)
  }

  /** A chicken flies towards the screen from the side it enters on. */
  lemma SpawnHeadsIn(d: SpawnDraw, height: int, width: int, flightFrames: int, deathFrames: int)
    requires DrawInRange(d, height) && flightFrames >= 1 && deathFrames >= 1
    ensures var s := Spawn(d, width, flightFrames, deathFrames);
            (s.rect.x + s.rect.w < 0 && s.speed > 0.0) || (s.rect.x > width && s.speed < 0.0)
  {
  }

  // ---------------------------------------------------------------------
  // Shooting
  // ---------------------------------------------------------------------

  /** A flying chicken under the crosshair. */
  predicate Hittable(c: Sprite, p: Point) {
    c.alive && CollidePoint(c.rect, p)
  }

  /** The index of the first flying chicken under `p`, if any. */
  function FirstHit(cs: seq<Sprite>, p: Point): (r: Option<int>)
    ensures r.Some? ==> 0 <= r.value < |cs| && Hittable(cs[r.value], p)
                        && forall j :: 0 <= j < r.value ==> !Hittable(cs[j], p)
    ensures r.None? ==> forall j :: 0 <= j < |cs| ==> !Hittable(cs[j], p)
  {
    if cs == [] then None
    else if Hittable(cs[0], p) then Some(0)
    else match FirstHit(cs[1..], p)
      case None => None
      case Some(i) => Some(i + 1)
  }

  // ---------------------------------------------------------------------
  // `ChickenApp`
  // ---------------------------------------------------------------------

  datatype GameState = Menu | Playing | GameOver

  const ROUND_TIME: real := 90.0
  const SPAWN_INTERVAL: real := 1.4
  const FLASH_TIME: real := 0.15
  const DOWN: string := "down"
  const CLICK: string := "click"

  function MaxInt(a: int, b: int): int {
    if a >= b then a else b
  }

  function MaxReal(a: real, b: real): real {
    if a >= b then a else b
  }

  class ChickenApp {
    const width: int
    const height: int
    /** How many frames the flight and death animations have. */
    const flightFrames: int
    const deathFrames: int
    var pointer: Point
    var state: GameState
    var score: int
    var bestScore: int
    var timeLeft: real
    var spawnTimer: real
    var chickens: seq<Sprite>
    var flashTimer: real
    var crosshairFlash: bool

    /** Scores are never negative and the best is at least the current one,
        the clock never runs below 0, and every chicken's frame indices
        point into its frame lists. */
    ghost predicate Valid()
      reads this
    {
      && flightFrames >= 1 && deathFrames >= 1
      && 0 <= score <= bestScore
      && timeLeft >= 0.0
      && Flock(chickens)
    }

    /** `__init__`: the menu, with the pointer at the screen centre. */
    constructor (width: int, height: int, flightFrames: int, deathFrames: int)
      requires flightFrames >= 1 && deathFrames >= 1
      ensures this.width == width && this.height == height
      ensures this.flightFrames == flightFrames && this.deathFrames == deathFrames
      ensures Valid()
      ensures pointer == Point(width / 2, height / 2) && state == Menu
      ensures score == 0 && bestScore == 0 && timeLeft == ROUND_TIME && spawnTimer == 0.0
      ensures chickens == [] && flashTimer == 0.0 && !crosshairFlash
    {
      this.width := width;
      this.height := height;
      this.flightFrames := flightFrames;
      this.deathFrames := deathFrames;
      pointer := Point(width / 2, height / 2);
      state := Menu;
      score := 0;
      bestScore := 0;
      timeLeft := ROUND_TIME;
      spawnTimer := 0.0;
      chickens := [];
      flashTimer := 0.0;
      crosshairFlash := false;
    }

    /** `handle_pointer`: the pointer always follows; a press starts a round
        from the menu, goes back to the menu from game over, and shoots
        during play. */
    method HandlePointer(eventType: string, pos: Point)
      requires Valid()
      modifies this
      ensures Valid() && pointer == pos && bestScore >= old(bestScore)
      ensures eventType != DOWN && eventType != CLICK ==>
                && state == old(state) && score == old(score) && bestScore == old(bestScore) && timeLeft == old(timeLeft)
                && spawnTimer == old(spawnTimer) && chickens == old(chickens)
                && flashTimer == old(flashTimer) && crosshairFlash == old(crosshairFlash)
      ensures (eventType == DOWN || eventType == CLICK) && old(state) == Menu ==>
                && state == Playing && score == 0 && timeLeft == ROUND_TIME && spawnTimer == 0.0 && chickens == []
                && !crosshairFlash && flashTimer == 0.0 && bestScore == old(bestScore)
      ensures (eventType == DOWN || eventType == CLICK) && old(state) == GameOver ==>
                && state == Menu && score == 0 && timeLeft == ROUND_TIME && chickens == []
                && spawnTimer == old(spawnTimer) && bestScore == old(bestScore)
                && flashTimer == old(flashTimer) && crosshairFlash == old(crosshairFlash)
      ensures (eventType == DOWN || eventType == CLICK) && old(state) == Playing ==>
                && state == Playing && timeLeft == old(timeLeft) && spawnTimer == old(spawnTimer)
                && ShotAt(old(chickens), pos, old(score), old(bestScore), chickens, score, bestScore)
                && crosshairFlash && flashTimer == FLASH_TIME
    {
      pointer := pos;
      if eventType == DOWN || eventType == CLICK {
        if state == Menu {
          StartGame();
        } else if state == GameOver {
          state := Menu;
          score := 0;
          timeLeft := ROUND_TIME;
          chickens := [];
        } else {
          Shoot();
        }
      }
    }

    /** `_start_game`: a fresh 90-second round with no chickens. */
    method StartGame()
      requires Valid()
      modifies this
      ensures Valid()
      ensures state == Playing && score == 0 && timeLeft == ROUND_TIME && spawnTimer == 0.0 && chickens == []
      ensures !crosshairFlash && flashTimer == 0.0
      ensures pointer == old(pointer) && bestScore == old(bestScore)
    {
      state := Playing;
      score := 0;
      timeLeft := ROUND_TIME;
      spawnTimer := 0.0;
      chickens := [];
      crosshairFlash := false;
      flashTimer := 0.0;
    }

    /** `_shoot`: only during play. The first flying chicken under the
        pointer falls and its points are added; the crosshair flashes
        either way. */
    method Shoot()
      requires Valid()
      modifies this
      ensures Valid()
      ensures old(state) != Playing ==>
                && chickens == old(chickens) && score == old(score) && bestScore == old(bestScore)
                && flashTimer == old(flashTimer) && crosshairFlash == old(crosshairFlash)
      ensures old(state) == Playing ==>
                && ShotAt(old(chickens), pointer, old(score), old(bestScore), chickens, score, bestScore)
                && crosshairFlash && flashTimer == FLASH_TIME
      ensures state == old(state) && pointer == old(pointer) && timeLeft == old(timeLeft) && spawnTimer == old(spawnTimer)
    {
      if state != Playing {
        return;
      }
      var hit := false;
      var all := chickens;
      var i := 0;
      while i < |all|
        invariant 0 <= i <= |all|
        invariant forall j :: 0 <= j < i ==> !Hittable(all[j], pointer)
        invariant !hit && chickens == all && score == old(score) && bestScore == old(bestScore)
      {
        if all[i].alive && CollidePoint(all[i].rect, pointer) {
          FirstHitIs(all, pointer, i);
          chickens := chickens[i := ShootSprite(chickens[i])];
          hit := true;
          score := score + all[i].points;
          break;
        }
        i := i + 1;
      }
      if !hit {
        FirstHitNone(all, pointer);
      }
      crosshairFlash := true;
      flashTimer := FLASH_TIME;
      if hit {
        bestScore := MaxInt(bestScore, score);
      }
    }

    /** `update`: nothing moves in the menu. During play the clock runs down
        to 0, a chicken is spawned every 1.4 s, every chicken is updated and
        those marked for removal are dropped, and the round ends when the
        clock reaches 0. The crosshair flash fades outside the menu. */
    method Update(dt: real, draw: SpawnDraw)
      requires Valid() && DrawInRange(draw, height)
      modifies this
      ensures Valid()
      ensures pointer == old(pointer) && score == old(score) && bestScore >= old(bestScore)
      ensures old(state) == Menu ==>
                && state == Menu && bestScore == old(bestScore) && timeLeft == old(timeLeft)
                && spawnTimer == old(spawnTimer) && chickens == old(chickens)
                && flashTimer == old(flashTimer) && crosshairFlash == old(crosshairFlash)
      ensures old(state) == GameOver ==>
                && state == GameOver && bestScore == old(bestScore) && timeLeft == old(timeLeft)
                && spawnTimer == old(spawnTimer) && chickens == old(chickens)
      ensures old(state) == Playing ==>
                && timeLeft == MaxReal(0.0, old(timeLeft) - dt)
                && (old(spawnTimer) + dt >= SPAWN_INTERVAL ==>
                      spawnTimer == 0.0 && chickens == UpdateAll(old(chickens) + [Spawn(draw, width, flightFrames, deathFrames)], dt, width))
                && (old(spawnTimer) + dt < SPAWN_INTERVAL ==>
                      spawnTimer == old(spawnTimer) + dt && chickens == UpdateAll(old(chickens), dt, width))
                && (timeLeft <= 0.0 ==> state == GameOver && bestScore == MaxInt(old(bestScore), score))
                && (timeLeft > 0.0 ==> state == Playing && bestScore == old(bestScore))
                && (forall i :: 0 <= i < |chickens| ==> !chickens[i].remove)
      ensures old(state) != Menu ==>
                && (old(crosshairFlash) ==> flashTimer == old(flashTimer) - dt && crosshairFlash == (flashTimer > 0.0))
                && (!old(crosshairFlash) ==> flashTimer == old(flashTimer) && !crosshairFlash)
    {
      if state == Menu {
        return;
      }
      if state == Playing {
        Advance(dt, draw);
      }
      FadeFlash(dt);
    }

    /** The playing part of `update`: clock, spawning, the chickens' update
        loop and the end of the round. */
    method Advance(dt: real, draw: SpawnDraw)
      requires Valid() && state == Playing && DrawInRange(draw, height)
      modifies this
      ensures Valid()
      ensures pointer == old(pointer) && score == old(score)
      ensures flashTimer == old(flashTimer) && crosshairFlash == old(crosshairFlash)
      ensures timeLeft == MaxReal(0.0, old(timeLeft) - dt)
      ensures old(spawnTimer) + dt >= SPAWN_INTERVAL ==>
                spawnTimer == 0.0 && chickens == UpdateAll(old(chickens) + [Spawn(draw, width, flightFrames, deathFrames)], dt, width)
      ensures old(spawnTimer) + dt < SPAWN_INTERVAL ==>
                spawnTimer == old(spawnTimer) + dt && chickens == UpdateAll(old(chickens), dt, width)
      ensures timeLeft <= 0.0 ==> state == GameOver && bestScore == MaxInt(old(bestScore), score)
      ensures timeLeft > 0.0 ==> state == Playing && bestScore == old(bestScore)
      ensures forall i :: 0 <= i < |chickens| ==> !chickens[i].remove
    {
      timeLeft := MaxReal(0.0, timeLeft - dt);
      spawnTimer := spawnTimer + dt;
      if spawnTimer >= SPAWN_INTERVAL {
        spawnTimer := 0.0;
        var born := Spawn(draw, width, flightFrames, deathFrames);
        FlockAppend(chickens, born);
        chickens := chickens + [born];
      }
      assert Flock(chickens);
      chickens := UpdateEach(chickens, dt, width);
      if timeLeft <= 0.0 {
        bestScore := MaxInt(bestScore, score);
        state := GameOver;
      }
    }

    /** The tail of `update`: a flashing crosshair counts down its flash. */
    method FadeFlash(dt: real)
      modifies this
      ensures old(crosshairFlash) ==> flashTimer == old(flashTimer) - dt && crosshairFlash == (flashTimer > 0.0)
      ensures !old(crosshairFlash) ==> flashTimer == old(flashTimer) && !crosshairFlash
      ensures pointer == old(pointer) && state == old(state) && score == old(score) && bestScore == old(bestScore)
      ensures timeLeft == old(timeLeft) && spawnTimer == old(spawnTimer) && chickens == old(chickens)
    {
      if crosshairFlash {
        flashTimer := flashTimer - dt;
        if flashTimer <= 0.0 {
          crosshairFlash := false;
        }
      }
    }
  }

  /** The effect of one shot during play, from the chickens, score and best
      score before it to those after it: the first flying chicken under `p`
      falls and scores, and the best score catches up; a miss changes none
      of them. */
  predicate ShotAt(cs: seq<Sprite>, p: Point, score: int, best: int, cs': seq<Sprite>, score': int, best': int) {
    match FirstHit(cs, p)
    case None => cs' == cs && score' == score && best' == best
    case Some(i) => cs' == cs[i := ShootSprite(cs[i])] && score' == score + cs[i].points && best' == MaxInt(best, score')
  }

  /** The loop of `_shoot` stops at the first flying chicken under the
      pointer. */
  lemma FirstHitIs(cs: seq<Sprite>, p: Point, i: int)
    requires 0 <= i < |cs| && Hittable(cs[i], p) && forall j :: 0 <= j < i ==> !Hittable(cs[j], p)
    ensures FirstHit(cs, p) == Some(i)
  {
  }

  /** A loop that found nobody under the pointer matches no first hit. */
  lemma FirstHitNone(cs: seq<Sprite>, p: Point)
    requires forall j :: 0 <= j < |cs| ==> !Hittable(cs[j], p)
    ensures FirstHit(cs, p) == None
  {
  }

  /** A shot kills at most one chicken: every other chicken is unchanged. */
  lemma ShotKillsAtMostOne(cs: seq<Sprite>, p: Point, score: int, best: int, cs': seq<Sprite>, score': int, best': int)
    requires ShotAt(cs, p, score, best, cs', score', best')
    ensures |cs'| == |cs|
    ensures forall i, j :: 0 <= i < j < |cs| && cs'[i] != cs[i] ==> cs'[j] == cs[j]
    ensures score' > score ==> best' >= score'
  {
  }
}
