/** launcher.py: the main menu. One button per app plus calibration, test
    mode and quit, on a two-column grid; clicking a button starts an app or
    quits. The `on_start_app` and `on_quit` callbacks are recorded as a log
    of actions. */
module Launcher {
  import opened Common
  import opened Ui

  /** The keys of APP_CLASSES, in insertion order (each app's `name`). */
  const APP_NAMES: seq<string> := ["Dosenschießen", "Moorhuhn", "Zielscheibe", "Reaktion", "Malen"]
  const CALIBRATE_LABEL: string := "Kalibrierung"
  const TEST_LABEL: string := "Testmodus"
  const QUIT_LABEL: string := "Beenden"
  const CALIBRATE_APP: string := "__calibrate__"
  const TEST_APP: string := "__test__"
  const COLUMNS: int := 2
  const CLICK: string := "click"

  /** The labels `_create_buttons` lays out, in order. */
  const LABELS: seq<string> := APP_NAMES + [CALIBRATE_LABEL, TEST_LABEL, QUIT_LABEL]

  /** A callback the menu fires. */
  datatype Action = StartApp(name: string) | Quit

  /** `_handle_click`: app names start that app, the two tool labels start
      their pseudo-apps, quit quits, and anything else does nothing. */
  function HandleClick(caption: string): (a: Option<Action>)
    ensures caption in APP_NAMES ==> a == Some(StartApp(caption))
    ensures caption == CALIBRATE_LABEL ==> a == Some(StartApp(CALIBRATE_APP))
    ensures caption == TEST_LABEL ==> a == Some(StartApp(TEST_APP))
    ensures a == Some(Quit) <==> caption == QUIT_LABEL
    ensures a.None? <==> caption !in LABELS
  {
    if caption in APP_NAMES then Some(StartApp(caption))
    else if caption == CALIBRATE_LABEL then Some(StartApp(CALIBRATE_APP))
    else if caption == TEST_LABEL then Some(StartApp(TEST_APP))
    else if caption == QUIT_LABEL then Some(Quit)
    else None
  }

  /** Every button of the menu has its own action: no two labels start the
      same thing. */
  lemma ActionsDistinct(i: int, j: int)
    requires 0 <= i < j < |LABELS|
    ensures HandleClick(LABELS[i]).Some? && HandleClick(LABELS[i]) != HandleClick(LABELS[j])
  {
  }

  /** What a click at `pos` fires: the action of every button containing
      it, in button order. */
  function ClickActions(buttons: seq<Button>, pos: Point): (acts: seq<Action>)
    ensures |acts| <= |buttons|
  {
    if buttons == [] then []
    else
      var last := buttons[|buttons| - 1];
      ClickActions(buttons[..|buttons| - 1], pos)
        + (if last.Contains(pos) && HandleClick(last.caption).Some? then [HandleClick(last.caption).value] else [])
  }

  /** Every fired action is that of a button under the pointer. */
  lemma {:induction false} ActionsFromHitButtons(buttons: seq<Button>, pos: Point)
    ensures forall a :: a in ClickActions(buttons, pos) ==>
              exists i :: 0 <= i < |buttons| && buttons[i].Contains(pos) && HandleClick(buttons[i].caption) == Some(a)
  {
    if buttons != [] {
      var init := buttons[..|buttons| - 1];
      ActionsFromHitButtons(init, pos);
      forall a | a in ClickActions(buttons, pos)
        ensures exists i :: 0 <= i < |buttons| && buttons[i].Contains(pos) && HandleClick(buttons[i].caption) == Some(a)
      {
        if a in ClickActions(init, pos) {
          var i :| 0 <= i < |init| && init[i].Contains(pos) && HandleClick(init[i].caption) == Some(a);
          assert buttons[i] == init[i];
        } else {
          assert buttons[|buttons| - 1].Contains(pos) && HandleClick(buttons[|buttons| - 1].caption) == Some(a);
        }
      }
    }
  }

  /** Every button under the pointer whose label has an action fires it. */
  lemma {:induction false} HitButtonsFire(buttons: seq<Button>, pos: Point)
    ensures forall i :: 0 <= i < |buttons| && buttons[i].Contains(pos) && HandleClick(buttons[i].caption).Some? ==>
              HandleClick(buttons[i].caption).value in ClickActions(buttons, pos)
  {
    if buttons != [] {
      var init := buttons[..|buttons| - 1];
      HitButtonsFire(init, pos);
      forall i | 0 <= i < |buttons| && buttons[i].Contains(pos) && HandleClick(buttons[i].caption).Some?
        ensures HandleClick(buttons[i].caption).value in ClickActions(buttons, pos)
      {
        if i < |init| {
          assert init[i] == buttons[i];
        }
      }
    }
  }

  /** A click that hits no button fires nothing. */
  lemma {:induction false} NoHitNoAction(buttons: seq<Button>, pos: Point)
    requires forall i :: 0 <= i < |buttons| ==> !buttons[i].Contains(pos)
    ensures ClickActions(buttons, pos) == []
  {
    if buttons != [] {
      NoHitNoAction(buttons[..|buttons| - 1], pos);
    }
  }

  /** With pairwise disjoint buttons, a click fires at most one action. */
  lemma {:induction false} AtMostOneAction(buttons: seq<Button>, pos: Point)
    requires forall i, j :: 0 <= i < j < |buttons| ==> Disjoint(buttons[i].rect, buttons[j].rect)
    ensures |ClickActions(buttons, pos)| <= 1
  {
    if buttons != [] {
      var init := buttons[..|buttons| - 1];
      var last := buttons[|buttons| - 1];
      AtMostOneAction(init, pos);
      if last.Contains(pos) {
        forall i | 0 <= i < |init|
          ensures !init[i].Contains(pos)
        {
          assert Disjoint(buttons[i].rect, last.rect);
          assert !(CollidePoint(buttons[i].rect, pos) && CollidePoint(last.rect, pos));
        }
        NoHitNoAction(init, pos);
      }
    }
  }

  class Launcher {
    const width: int
    const height: int
    var buttons: seq<Button>
    /** Every `on_start_app` / `on_quit` call, oldest first. */
    var actions: seq<Action>

    /** The buttons are the labels in order, each in its own grid cell. */
    ghost predicate Valid()
      reads this
    {
      && |buttons| == |LABELS|
      && forall i :: 0 <= i < |buttons| ==>
           buttons[i] == Button(Cell(i, |LABELS|, COLUMNS, width, height, DEFAULT_PADDING, DEFAULT_BUTTON_HEIGHT), LABELS[i])
    }

    /** `__init__` on a `width` x `height` screen with `_create_buttons`. */
    constructor (width: int, height: int)
      ensures this.width == width && this.height == height
      ensures Valid() && actions == []
    {
      this.width := width;
      this.height := height;
      var grid := LayoutGrid(width, height, LABELS, COLUMNS);
      var made: seq<Button> := [];
      for k := 0 to |grid|
        invariant |made| == k
        invariant forall i :: 0 <= i < k ==> made[i] == Button(grid[i].1, grid[i].0)
      {
        made := made + [Button(grid[k].1, grid[k].0)];
      }
      buttons := made;
      actions := [];
    }

    /** The menu's buttons never overlap. */
    lemma ButtonsDisjoint()
      requires Valid()
      ensures forall i, j :: 0 <= i < j < |buttons| ==> Disjoint(buttons[i].rect, buttons[j].rect)
    {
      forall i, j | 0 <= i < j < |buttons|
        ensures Disjoint(buttons[i].rect, buttons[j].rect)
      {
        GridDisjoint(i, j, |LABELS|, COLUMNS, width, height, DEFAULT_PADDING, DEFAULT_BUTTON_HEIGHT);
      }
    }

    /** `handle_pointer`: on a click, run the action of every button
        containing `pos`; which is at most one. */
    method HandlePointer(eventType: string, pos: Point)
      requires Valid()
      modifies this
      ensures Valid() && buttons == old(buttons)
      ensures eventType != CLICK ==> actions == old(actions)
      ensures eventType == CLICK ==> actions == old(actions) + ClickActions(buttons, pos)
      ensures |actions| <= |old(actions)| + 1
    {
      ButtonsDisjoint();
      AtMostOneAction(buttons, pos);
      if eventType == CLICK {
        var all := buttons;
        for k := 0 to |all|
          invariant buttons == all
          invariant actions == old(actions) + ClickActions(all[..k], pos)
        {
          assert all[..k + 1][..k] == all[..k];
          var btn := all[k];
          if btn.Contains(pos) {
            var action := HandleClick(btn.caption);
            if action.Some? {
              actions := actions + [action.value];
            }
          }
        }
        assert all[..|all|] == all;
      }
    }
  }
}
