/** ui.py: buttons and the centred grid the menus are laid out on. Fonts,
    colours and drawing are not modelled; a button is its rectangle and its
    caption (the launcher derives the action from the caption). */
module Ui {
  import opened Common

  const DEFAULT_PADDING: int := 20
  const DEFAULT_BUTTON_HEIGHT: int := 120

  datatype Button = Button(rect: Rect, caption: string) {
    /** `Button.contains`: pygame's half-open hit test on the rectangle; a
        button of zero width or height can never be hit. */
    predicate Contains(pos: Point)
      ensures Contains(pos) ==> rect.w > 0 && rect.h > 0
    {
      CollidePoint(rect, pos)
    }
  }

  /** `(len(labels) + columns - 1) // columns`. */
  function Rows(n: nat, columns: int): int
    requires columns >= 1
  {
    (n + columns - 1) / columns
  }

  /** `(width - (columns + 1) * padding) // columns`. */
  function ButtonWidth(width: int, columns: int, padding: int): int
    requires columns >= 1
  {
    (width - (columns + 1) * padding) / columns
  }

  /** `(height - total_height) // 2` with
      `total_height = rows * button_height + (rows + 1) * padding`. */
  function Top(height: int, rows: int, buttonHeight: int, padding: int): int {
    (height - (rows * buttonHeight + (rows + 1) * padding)) / 2
  }

  /** The rectangle of item `idx` of an `n`-item grid on a width x height surface. */
  function Cell(idx: nat, n: nat, columns: int, width: int, height: int, padding: int, buttonHeight: int): Rect
    requires columns >= 1
  {
    var bw := ButtonWidth(width, columns, padding);
    var top := Top(height, Rows(n, columns), buttonHeight, padding);
    Rect(padding + (idx % columns) * (bw + padding), top + (idx / columns) * (buttonHeight + padding), bw, buttonHeight)
  }

  /** `layout_grid`: one (label, rect) per label, in order; item i sits in
      column i mod columns and row i div columns. */
  method LayoutGrid(width: int, height: int, labels: seq<string>, columns: int,
                    padding: int := DEFAULT_PADDING, buttonHeight: int := DEFAULT_BUTTON_HEIGHT)
    returns (rects: seq<(string, Rect)>)
    requires columns >= 1
    ensures |rects| == |labels|
    ensures forall i :: 0 <= i < |rects| ==> rects[i].0 == labels[i]
    ensures forall i :: 0 <= i < |rects| ==>
              var bw := (width - (columns + 1) * padding) / columns;
              var rows := (|labels| + columns - 1) / columns;
              var top := (height - (rows * buttonHeight + (rows + 1) * padding)) / 2;
              rects[i].1 == Rect(padding + (i % columns) * (bw + padding), top + (i / columns) * (buttonHeight + padding),
                                 bw, buttonHeight)
    ensures forall i :: 0 <= i < |rects| ==> rects[i].1 == Cell(i, |labels|, columns, width, height, padding, buttonHeight)
  {
    var rows := (|labels| + columns - 1) / columns;
    var buttonWidth := (width - (columns + 1) * padding) / columns;
    var totalHeight := rows * buttonHeight + (rows + 1) * padding;
    var top := (height - totalHeight) / 2;
    rects := [];
    for idx := 0 to |labels|
      invariant |rects| == idx
      invariant forall i :: 0 <= i < idx ==> rects[i] == (labels[i], Cell(i, |labels|, columns, width, height, padding, buttonHeight))
    {
      var row := idx / columns;
      var col := idx % columns;
      var x := padding + col * (buttonWidth + padding);
      var y := top + row * (buttonHeight + padding);
      rects := rects + [(labels[idx], Rect(x, y, buttonWidth, buttonHeight))];
    }
  }

  /** `rows` is the ceiling of n / columns: every item has a row below it,
      and no row is empty. */
  lemma RowsIsCeiling(n: nat, columns: int)
    requires columns >= 1
    ensures Rows(n, columns) * columns >= n
    ensures n > 0 ==> (Rows(n, columns) - 1) * columns < n
    ensures n == 0 ==> Rows(n, columns) == 0
    ensures forall i :: 0 <= i < n ==> i / columns < Rows(n, columns)
  {
    var q := Rows(n, columns);
    var m := n + columns - 1;
    assert m == q * columns + m % columns;
    assert 0 <= m % columns < columns;
    forall i | 0 <= i < n
      ensures i / columns < q
    {
      assert i == (i / columns) * columns + i % columns;
      MulCancel(i / columns, q, columns);
    }
  }

  /** The block is centred: the space above it and the space below it
      differ by at most one pixel. */
  lemma GridCentred(n: nat, columns: int, height: int, padding: int, buttonHeight: int)
    requires columns >= 1
    ensures var rows := Rows(n, columns);
            var total := rows * buttonHeight + (rows + 1) * padding;
            var top := Top(height, rows, buttonHeight, padding);
            0 <= (height - total - top) - top <= 1
  {
  }

  lemma MulLeft(a: int, b: int, c: int)
    requires a <= b && c >= 0
    ensures a * c <= b * c
  {
    assert b * c - a * c == (b - a) * c;
  }

  lemma MulCancel(a: int, b: int, c: int)
    requires c > 0 && a * c < b * c
    ensures a < b
  {
    if a >= b {
      MulLeft(b, a, c);
      assert false;
    }
  }

  /** Each step of k >= 1 cells moves at least one cell's pitch. */
  lemma PitchStep(k: int, pitch: int)
    requires k >= 1 && pitch >= 0
    ensures k * pitch >= pitch
  {
    MulLeft(1, k, pitch);
  }

  /** Cells in distinct (row, column) positions of a grid with non-negative
      padding share no point. */
  lemma CellsApart(ra: int, ca: int, rb: int, cb: int, bw: int, bh: int, padding: int, top: int)
    requires padding >= 0 && (ra != rb || ca != cb)
    ensures Disjoint(Rect(padding + ca * (bw + padding), top + ra * (bh + padding), bw, bh),
                     Rect(padding + cb * (bw + padding), top + rb * (bh + padding), bw, bh))
  {
    var a := Rect(padding + ca * (bw + padding), top + ra * (bh + padding), bw, bh);
    var b := Rect(padding + cb * (bw + padding), top + rb * (bh + padding), bw, bh);
    if bw <= 0 || bh <= 0 {
      EmptyDisjoint(a, b);
    } else if ca < cb {
      PitchStep(cb - ca, bw + padding);
      assert b.x - a.x == (cb - ca) * (bw + padding);
      SeparatedHorizontally(a, b);
    } else if cb < ca {
      PitchStep(ca - cb, bw + padding);
      assert a.x - b.x == (ca - cb) * (bw + padding);
      SeparatedHorizontally(a, b);
    } else if ra < rb {
      PitchStep(rb - ra, bh + padding);
      assert b.y - a.y == (rb - ra) * (bh + padding);
      SeparatedVertically(a, b);
    } else {
      PitchStep(ra - rb, bh + padding);
      assert a.y - b.y == (ra - rb) * (bh + padding);
      SeparatedVertically(a, b);
    }
  }

  /** An empty rectangle shares no point with anything. */
  lemma EmptyDisjoint(a: Rect, b: Rect)
    requires a.w <= 0 || a.h <= 0
    ensures Disjoint(a, b)
  {
  }

  /** With non-negative padding, distinct grid items do not overlap. */
  lemma GridDisjoint(i: nat, j: nat, n: nat, columns: int, width: int, height: int, padding: int, buttonHeight: int)
    requires columns >= 1 && padding >= 0 && i != j
    ensures Disjoint(Cell(i, n, columns, width, height, padding, buttonHeight),
                     Cell(j, n, columns, width, height, padding, buttonHeight))
  {
    assert i == (i / columns) * columns + i % columns;
    assert j == (j / columns) * columns + j % columns;
    CellsApart(i / columns, i % columns, j / columns, j % columns,
               ButtonWidth(width, columns, padding), buttonHeight, padding,
               Top(height, Rows(n, columns), buttonHeight, padding));
  }
}
