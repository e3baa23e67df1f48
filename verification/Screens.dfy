/** From layout to diff: trees painted at the frames the layout gave them meet what the diff and the
    frame loop take for granted. */
module Screens {
  import opened Geometry
  import opened Pixels
  import opened Scene
  import opened Reconcile
  import opened Wrappers
  import Layout
  import VirtualList

  /** `n` is the view `v` as it is painted, at the frames the layout gave it. */
  ghost predicate Draws(n: Node, v: Layout.View, fs: seq<Layout.Frame>)
    decreases v
  {
    && v.id < |fs| && FrameOf(n) == fs[v.id]
    && n.kind == v.kind && (n.clip <==> n.kind == Scroll) && n.padding == v.padding
    && n.text == v.text && n.fontSize == v.fontSize
    && |n.children| == |v.children| && (v.kind == Stack || v.kind == Scroll || v.children == [])
    && (v.kind == Scroll ==> |v.children| <= 1)
    && forall i | 0 <= i < |v.children| :: Draws(n.children[i], v.children[i], fs)
  }

  function FrameOf(n: Node): Layout.Frame { Layout.Frame(n.x, n.y, n.w, n.h) }

  /** The layout measures text as the renderer draws it: no sample is further than the margin from the
      measured line. */
  ghost predicate Measures(m: Layout.Metrics, font: Font)
  {
    forall text, size, x, y :: LineHolds(m(text, size), x, y, font(text, size, x, y))
  }

  ghost predicate LineHolds(line: Layout.Size, x: real, y: real, ink: seq<Sample>)
  {
    forall s <- ink ::
      Trunc(x) - MARGIN <= s.x < Trunc(x + line.w) + MARGIN && Trunc(y) - MARGIN <= s.y < Trunc(y + line.h) + MARGIN
  }

  lemma {:induction false} DrawsWellFormed(n: Node, v: Layout.View, fs: seq<Layout.Frame>)
    requires Draws(n, v, fs)
    ensures WellFormed(n)
    decreases v
  {
    forall c | c in n.children
      ensures WellFormed(c)
    {
      var i :| 0 <= i < |n.children| && n.children[i] == c;
      DrawsWellFormed(c, v.children[i], fs);
    }
  }

  /** A text that has at least its desired size keeps its glyphs near its frame. */
  lemma TextNear(n: Node, v: Layout.View, fs: seq<Layout.Frame>, m: Layout.Metrics, font: Font)
    requires Draws(n, v, fs) && n.kind == Text && Measures(m, font)
    requires Layout.Plain(v) && Layout.Roomy(v, m) && n.w >= Layout.Want(v, m).w && n.h >= Layout.Want(v, m).h
    ensures GlyphsNear(n, font)
  {
    var line := m(v.text, v.fontSize);
    var x, y := n.x + n.padding, n.y + n.padding;
    assert LineHolds(line, x, y, font(n.text, n.fontSize, x, y));
    assert Layout.Content(v, m) == line;
    assert x + line.w <= n.x + n.w && y + line.h <= n.y + n.h;
    TruncMonotone(n.x, x);
    TruncMonotone(n.y, y);
    TruncMonotone(x + line.w, n.x + n.w);
    TruncMonotone(y + line.h, n.y + n.h);
    hide Trunc;
  }

  /** A plain subtree that was laid out well lies in any frame its own lies in. */
  lemma {:induction false} GoodWithin(n: Node, v: Layout.View, row: Node, fs: seq<Layout.Frame>, m: Layout.Metrics, font: Font)
    requires Draws(n, v, fs) && Layout.Good(v, fs, m) && Measures(m, font)
    requires Layout.Plain(v) && Layout.FitsIn(v, fs[v.id], m) && Layout.Inside(FrameOf(n), FrameOf(row))
    ensures Within(n, row, font)
    decreases v
  {
    hide Layout.Want;
    hide Layout.Chained;
    hide Measures;
    if n.kind == Text {
      TextNear(n, v, fs, m, font);
    }
    forall c | c in n.children
      ensures Within(c, row, font)
    {
      var i :| 0 <= i < |n.children| && n.children[i] == c;
      assert Draws(c, v.children[i], fs) && v.children[i] in v.children;
      GoodWithin(c, v.children[i], row, fs, m, font);
    }
  }

  /** A plain tree laid out well in a window no wider than the surface meets its columns everywhere. */
  lemma {:induction false} GoodOnColumns(n: Node, v: Layout.View, fs: seq<Layout.Frame>, m: Layout.Metrics, width: nat)
    requires Draws(n, v, fs) && Layout.Good(v, fs, m)
    requires Layout.Plain(v) && Layout.FitsIn(v, fs[v.id], m) && 0.0 <= n.x && n.x + n.w <= width as real
    ensures OnColumns(n, width)
    decreases v
  {
    Layout.WantNonNegative(v, m);
    hide Layout.Want;
    hide Layout.Chained;
    TruncMonotone(n.x, width as real);
    TruncMonotone(0.0, n.x + n.w);
    forall c | c in n.children
      ensures OnColumns(c, width)
    {
      var i :| 0 <= i < |n.children| && n.children[i] == c;
      assert Draws(c, v.children[i], fs) && v.children[i] in v.children;
      GoodOnColumns(c, v.children[i], fs, m, width);
    }
  }

  // ---------------------------------------------------------------- lists

  /** A viewport over a list: rows that are plain and fit, at ascending places. */
  ghost predicate IsList(n: Node, v: Layout.View, fs: seq<Layout.Frame>, m: Layout.Metrics)
  {
    && Draws(n, v, fs) && v.kind == Scroll && |v.children| == 1 && (forall i <- Layout.Ids(v) :: i < |fs|)
    && var c := v.children[0];
       && c.kind == Stack && c.absChildren && c.offX == 0.0 && c.offY == 0.0
       && (forall r <- c.children ::
             r.id < |fs| && Layout.Plain(r) && r.offX == 0.0 && r.offY == 0.0 && r.fixedH > 0.0 && Layout.FitsIn(r, fs[r.id], m))
       && (forall i, j :: 0 <= i < j < |c.children| ==> c.children[i].layoutY < c.children[j].layoutY)
  }

  /** The rows of a list, as the layout places them, are stacked and keep to their frames. */
  lemma ListRows(n: Node, v: Layout.View, b: Layout.Frame, fs: seq<Layout.Frame>, cs0: seq<Layout.Cell>, cs: seq<Layout.Cell>,
                 m: Layout.Metrics, font: Font)
    requires IsList(n, v, fs, m) && Layout.Placed(v, b, fs, cs0, cs, m) && Measures(m, font)
    ensures Ascending(n.children[0].children) && InOwnFrames(n.children[0].children, font)
  {
    hide Layout.Plain;
    hide Layout.FitsIn;
    hide Measures;
    hide Layout.Ids;
    hide Layout.Placed;
    var c, rows := v.children[0], n.children[0].children;
    assert Draws(n.children[0], c, fs);
    forall k | 0 <= k < |rows|
      ensures rows[k].y == fs[v.id].y - Layout.OffsetOf(v, cs) + c.children[k].layoutY
      ensures Within(rows[k], rows[k], font)
    {
      assert Draws(rows[k], c.children[k], fs) && c.children[k] in c.children;
      PlainIsNoScroll(c.children[k]);
      VirtualList.RowFrames(v, b, k, fs, cs0, cs, m);
      RowIsGood(v, b, k, fs, cs0, cs, m);
      GoodWithin(rows[k], c.children[k], rows[k], fs, m, font);
    }
  }

  lemma PlainIsNoScroll(v: Layout.View)
    requires Layout.Plain(v)
    ensures v.kind != Scroll
  {
  }

  /** A plain row that fits the frame it got is laid out well. */
  lemma RowIsGood(v: Layout.View, b: Layout.Frame, k: nat, fs: seq<Layout.Frame>, cs0: seq<Layout.Cell>, cs: seq<Layout.Cell>,
                  m: Layout.Metrics)
    requires Layout.Placed(v, b, fs, cs0, cs, m) && (forall i <- Layout.Ids(v) :: i < |fs|)
    requires v.kind == Scroll && v.children != [] && v.children[0].kind == Stack && k < |v.children[0].children|
    requires var r := v.children[0].children[k]; r.id < |fs| && Layout.Plain(r) && Layout.FitsIn(r, fs[r.id], m)
    ensures Layout.Good(v.children[0].children[k], fs, m)
  {
    hide Layout.Plain;
    hide Layout.FitsIn;
    hide Layout.Slot;
    var c := v.children[0];
    var r := c.children[k];
    var f := Layout.Shifted(v, b);
    var fc := Layout.Frame(f.x, f.y - Layout.OffsetOf(v, cs), f.w, Layout.ContentHeight(c, m));
    var slot := Layout.Slot(c, Layout.Shifted(c, fc), k, m);
    assert Layout.Placed(r, slot, fs, cs0, cs, m) && fs[r.id] == Layout.Shifted(r, slot);
    Layout.KidIn(v.children, 0);
    Layout.KidIn(c.children, k);
    assert Layout.Ids(r) <= Layout.Ids(c) <= Layout.Ids(v);
    Layout.PlacedIsGood(r, slot, fs, cs0, cs, m);
  }

  /** Whatever happens to the rows of a list with distinct keys between two builds, they settle. */
  lemma ListsOnScreenSettle(o: Node, n: Node, u: Layout.View, v: Layout.View, a: Layout.Frame, b: Layout.Frame,
                            es: seq<Layout.Frame>, fs: seq<Layout.Frame>, cs0: seq<Layout.Cell>, cs1: seq<Layout.Cell>,
                            cs2: seq<Layout.Cell>, m: Layout.Metrics, font: Font)
    requires IsList(o, u, es, m) && Layout.Placed(u, a, es, cs0, cs1, m)
    requires IsList(n, v, fs, m) && Layout.Placed(v, b, fs, cs1, cs2, m)
    requires Measures(m, font) && DistinctKeys(o.children[0].children) && DistinctKeys(n.children[0].children)
    ensures GoodRows(o.children[0].children, n.children[0].children, FrameRect(n), font)
  {
    hide GoodRows;
    ListRows(o, u, a, es, cs0, cs1, m, font);
    ListRows(n, v, b, fs, cs1, cs2, m, font);
    ListsSettle(o.children[0].children, n.children[0].children, FrameRect(n), font);
  }

  // ---------------------------------------------------------------- columns

  /** A viewport over a plain column that fits its frame; every row takes some room. */
  ghost predicate IsColumn(n: Node, v: Layout.View, fs: seq<Layout.Frame>, m: Layout.Metrics)
  {
    && Draws(n, v, fs) && v.kind == Scroll && |v.children| == 1 && (forall i <- Layout.Ids(v) :: i < |fs|)
    && var c := v.children[0];
       && c.kind == Stack && c.axis == Layout.Vertical && c.id < |fs| && Layout.Plain(c) && Layout.FitsIn(c, fs[c.id], m)
       && forall r <- c.children :: r.id < |fs| && fs[r.id].h + c.spacing > 0.0
  }

  /** The rows of a column are stacked and keep to their frames. */
  lemma ColumnRows(n: Node, v: Layout.View, b: Layout.Frame, fs: seq<Layout.Frame>, cs0: seq<Layout.Cell>, cs: seq<Layout.Cell>,
                   m: Layout.Metrics, font: Font)
    requires IsColumn(n, v, fs, m) && Layout.Placed(v, b, fs, cs0, cs, m) && Measures(m, font)
    ensures Ascending(n.children[0].children) && InOwnFrames(n.children[0].children, font)
  {
    var c, rows := v.children[0], n.children[0].children;
    ColumnIsGood(v, b, fs, cs0, cs, m);
    assert Draws(n.children[0], c, fs);
    hide Layout.Placed;
    hide Layout.Good;
    hide Layout.Plain;
    hide Layout.FitsIn;
    hide Measures;
    hide Within;
    forall k | 0 <= k < |rows|
      ensures rows[k].y == fs[c.children[k].id].y && Within(rows[k], rows[k], font)
    {
      KidWithin(n.children[0], c, k, fs, m, font);
    }
    forall i, j | 0 <= i < j < |rows|
      ensures rows[i].y < rows[j].y
    {
      ChainAscends(c, fs, m, i, j);
    }
  }

  /** Each child of a well laid out stack keeps to its own frame. */
  lemma KidWithin(n: Node, c: Layout.View, k: nat, fs: seq<Layout.Frame>, m: Layout.Metrics, font: Font)
    requires Draws(n, c, fs) && c.kind == Stack && Layout.Good(c, fs, m) && Measures(m, font)
    requires Layout.Plain(c) && Layout.FitsIn(c, fs[c.id], m) && k < |n.children|
    ensures Draws(n.children[k], c.children[k], fs) && Within(n.children[k], n.children[k], font)
  {
    hide Measures;
    hide Layout.Chained;
    hide Layout.Want;
    var r := c.children[k];
    assert Draws(n.children[k], r, fs) && r in c.children;
    GoodWithin(n.children[k], r, n.children[k], fs, m, font);
  }

  lemma ColumnIsGood(v: Layout.View, b: Layout.Frame, fs: seq<Layout.Frame>, cs0: seq<Layout.Cell>, cs: seq<Layout.Cell>, m: Layout.Metrics)
    requires Layout.Placed(v, b, fs, cs0, cs, m) && (forall i <- Layout.Ids(v) :: i < |fs|)
    requires v.kind == Scroll && v.children != []
    requires var c := v.children[0]; c.id < |fs| && Layout.Plain(c) && Layout.FitsIn(c, fs[c.id], m)
    ensures Layout.Good(v.children[0], fs, m)
  {
    hide Layout.Plain;
    hide Layout.FitsIn;
    var c := v.children[0];
    var f := Layout.Shifted(v, b);
    var fc := Layout.Frame(f.x, f.y - Layout.OffsetOf(v, cs), f.w, Layout.ContentHeight(c, m));
    assert Layout.Placed(c, fc, fs, cs0, cs, m) && fs[c.id] == Layout.Shifted(c, fc);
    Layout.KidIn(v.children, 0);
    assert Layout.Ids(c) <= Layout.Ids(v);
    Layout.PlacedIsGood(c, fc, fs, cs0, cs, m);
  }

  lemma {:induction false} ChainAscends(c: Layout.View, fs: seq<Layout.Frame>, m: Layout.Metrics, i: nat, j: nat)
    requires c.kind == Stack && c.axis == Layout.Vertical && Layout.Good(c, fs, m) && i < j < |c.children|
    requires forall r <- c.children :: r.id < |fs| && fs[r.id].h + c.spacing > 0.0
    ensures fs[c.children[i].id].y < fs[c.children[j].id].y
    decreases j
  {
    var slots := Layout.KidFrames(c, fs);
    assert slots[j - 1] == fs[c.children[j - 1].id] && c.children[j - 1] in c.children;
    assert Layout.Start(false, slots[j]) == Layout.Start(false, slots[j - 1]) + Layout.Extent(false, slots[j - 1]) + c.spacing;
    if i < j - 1 {
      ChainAscends(c, fs, m, i, j - 1);
    }
  }

  /** The rows of a column, which carry no keys of their own, settle if those there were are still
      there, in place. */
  lemma ColumnsOnScreenSettle(o: Node, n: Node, u: Layout.View, v: Layout.View, a: Layout.Frame, b: Layout.Frame,
                              es: seq<Layout.Frame>, fs: seq<Layout.Frame>, cs0: seq<Layout.Cell>, cs1: seq<Layout.Cell>,
                              cs2: seq<Layout.Cell>, m: Layout.Metrics, font: Font)
    requires IsColumn(o, u, es, m) && Layout.Placed(u, a, es, cs0, cs1, m)
    requires IsColumn(n, v, fs, m) && Layout.Placed(v, b, fs, cs1, cs2, m) && Measures(m, font)
    requires var os, ns := o.children[0].children, n.children[0].children;
             |os| <= |ns| && forall i | 0 <= i < |os| :: os[i].key == ns[i].key && !Moved(os[i], ns[i])
    ensures GoodRows(o.children[0].children, n.children[0].children, FrameRect(n), font)
  {
    hide GoodRows;
    ColumnRows(o, u, a, es, cs0, cs1, m, font);
    ColumnRows(n, v, b, fs, cs1, cs2, m, font);
    ColumnsSettle(o.children[0].children, n.children[0].children, FrameRect(n), font);
  }
}
