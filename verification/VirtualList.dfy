/** Scroll positions and the virtualised list: only the rows in and just around the viewport
    are built, yet the viewport shows what a list of all rows would show. */
module VirtualList {
  import opened Geometry
  import opened Pixels
  import opened Scene
  import opened Reconcile
  import opened Wrappers
  import Layout

  const MAX_CHILDREN: nat := 32

  /** A scroll position with the metrics the last layout recorded. */
  class ScrollCell {
    var offset: real
    var velocity: real
    var flinging: bool
    var viewportH: real
    var contentH: real

    constructor ()
      ensures offset == 0.0 && velocity == 0.0 && !flinging && viewportH == 0.0 && contentH == 0.0
    {
      offset, velocity, flinging, viewportH, contentH := 0.0, 0.0, false, 0.0, 0.0;
    }

    function Limit(): (m: real)
      reads this
      ensures m >= 0.0
    {
      if contentH - viewportH > 0.0 then contentH - viewportH else 0.0
    }

    method BeginDrag()
      modifies this
      ensures !flinging && velocity == 0.0 && offset == old(offset)
      ensures viewportH == old(viewportH) && contentH == old(contentH)
    {
      flinging := false;
      velocity := 0.0;
    }

    /** Move by a wheel or pan delta: as far as the content reaches, no further. */
    method DragBy(dy: real)
      modifies this`offset
      ensures 0.0 <= offset <= Limit()
      ensures 0.0 <= old(offset) + dy <= Limit() ==> offset == old(offset) + dy
      ensures old(offset) + dy < 0.0 ==> offset == 0.0
      ensures old(offset) + dy > Limit() ==> offset == Limit()
    {
      var max := Limit();
      offset := offset + dy;
      if offset < 0.0 {
        offset := 0.0;
      } else if offset > max {
        offset := max;
      }
    }

    /** Let go: a fast enough release flings. */
    method EndDrag(v: real)
      modifies this
      ensures velocity == v && (flinging <==> v < -40.0 || v > 40.0)
      ensures offset == old(offset) && viewportH == old(viewportH) && contentH == old(contentH)
    {
      velocity := v;
      flinging := v < -40.0 || v > 40.0;
    }
  }

  /** A built row: its view, its place in the content, its height, its identity. */
  datatype Row<T> = Row(view: T, layoutY: real, height: real, key: int)

  function RowHeight(requested: real): (rh: real)
    ensures rh > 1.0
  {
    if requested > 1.0 then requested else 44.0
  }

  function KeyOf(key: Option<int -> int>, i: int): int { if key.Some? then key.value(i) else i + 1 }

  function MakeRow<T>(row: int -> T, key: Option<int -> int>, rh: real, i: int): Row<T>
  {
    Row(row(i), i as real * rh, rh, KeyOf(key, i))
  }

  /** The first index the window considers. */
  function First(offset: real, rh: real): int
    requires rh > 0.0
  {
    Max(0, Trunc(offset / rh) - 1)
  }

  /** One past the last index the window considers. */
  function Last(offset: real, vp: real, rh: real, count: int): int
    requires rh > 0.0
  {
    Min(count, Trunc((offset + vp) / rh) + 1)
  }

  /** Row `i` overlaps the viewport. */
  predicate Visible(i: int, offset: real, vp: real, rh: real)
  {
    i as real * rh < offset + vp && (i + 1) as real * rh > offset
  }

  lemma DivisionBounds(a: real, b: real, k: int)
    requires b > 0.0
    ensures k as real * b <= a <==> k as real <= a / b
    ensures k as real * b < a <==> k as real < a / b
  {
    var q := a / b;
    assert q * b == a;
    if k as real <= q {
      MulOrder(k as real, q, b);
    }
    if q <= k as real {
      MulOrder(q, k as real, b);
    }
    if k as real < q {
      MulStrict(k as real, q, b);
    }
    if q < k as real {
      MulStrict(q, k as real, b);
    }
  }

  lemma MulOrder(x: real, y: real, b: real)
    requires x <= y && b > 0.0
    ensures x * b <= y * b
  {
  }

  lemma MulStrict(x: real, y: real, b: real)
    requires x < y && b > 0.0
    ensures x * b < y * b
  {
  }

  /** Every visible row lies in the window. */
  lemma VisibleInWindow(i: int, offset: real, vp: real, rh: real, count: int)
    requires rh > 0.0 && offset >= 0.0 && vp >= 0.0 && 0 <= i < count && Visible(i, offset, vp, rh)
    ensures First(offset, rh) <= i < Last(offset, vp, rh, count)
  {
    DivisionBounds(offset, rh, i + 1);
    DivisionBounds(offset + vp, rh, i);
    assert offset / rh >= 0.0 && (offset + vp) / rh >= 0.0;
  }

  /** A row the window leaves out ends a row's height above the viewport, or starts below it. */
  lemma OutsideWindow(i: int, offset: real, vp: real, rh: real, count: int)
    requires rh > 0.0 && offset >= 0.0 && vp >= 0.0 && 0 <= i < count
    requires !(First(offset, rh) <= i < Last(offset, vp, rh, count))
    ensures (i + 2) as real * rh <= offset || offset + vp <= i as real * rh
  {
    DivisionBounds(offset, rh, i + 2);
    DivisionBounds(offset + vp, rh, i);
    assert offset / rh >= 0.0 && (offset + vp) / rh >= 0.0;
  }

  /** A viewport of at most 30 rows never asks for more rows than a node can hold. */
  lemma WindowFits(offset: real, vp: real, rh: real, count: int)
    requires rh > 0.0 && offset >= 0.0 && 0.0 <= vp <= 30.0 * rh
    ensures Last(offset, vp, rh, count) - First(offset, rh) <= MAX_CHILDREN
  {
    var q := offset / rh;
    assert q * rh == offset;
    MulOrder(0.0, 1.0, rh);
    var p := (offset + vp) / rh;
    assert p == q + vp / rh;
    DivisionBounds(vp, rh, 30);
    assert vp / rh <= 30.0;
    assert q >= 0.0 && p <= q + 30.0;
  }

  /** An offset the layout's clamp can leave behind. */
  predicate InRange(offset: real, vp: real, rh: real, count: int)
  {
    0.0 <= offset && (offset == 0.0 || offset <= count as real * rh - vp)
  }

  /** For every list and every offset, no visible row falls beyond the rows a node can hold. */
  ghost predicate CapacitySuffices(vp: real, rh: real)
    requires rh > 0.0
  {
    forall offset: real, count: int, i: int | InRange(offset, vp, rh, count) && 0 <= i < count && Visible(i, offset, vp, rh) ::
      i < First(offset, rh) + MAX_CHILDREN
  }

  /** 32 children are enough exactly for viewports of up to 30 rows. */
  lemma CapacityIsThirtyRows(vp: real, rh: real)
    requires rh > 0.0 && vp >= 0.0
    ensures CapacitySuffices(vp, rh) <==> vp <= 30.0 * rh
  {
    if vp <= 30.0 * rh {
      forall offset: real, count: int, i: int | InRange(offset, vp, rh, count) && 0 <= i < count && Visible(i, offset, vp, rh)
        ensures i < First(offset, rh) + MAX_CHILDREN
      {
        VisibleInWindow(i, offset, vp, rh, count);
        WindowFits(offset, vp, rh, count);
      }
    } else {
      MulStrict(32.0, 33.0, rh);
      var offset := if vp > 32.0 * rh then 0.0 else 17.0 * rh - vp / 2.0;
      assert InRange(offset, vp, rh, 64);
      assert Visible(32, offset, vp, rh);
      DivisionBounds(offset, rh, 2);
      assert First(offset, rh) == 0;
    }
  }

  /** Build rows `first` to `last`, as many as a node can hold. */
  method FillRows<T>(first: int, last: int, rh: real, row: int -> T, key: Option<int -> int>) returns (built: seq<Row<T>>)
    ensures |built| == Max(0, Min(last - first, MAX_CHILDREN))
    ensures forall k | 0 <= k < |built| :: built[k] == MakeRow(row, key, rh, first + k)
  {
    hide MakeRow;
    built := [];
    var i := first;
    while i < last && |built| < MAX_CHILDREN
      invariant i == first + |built| && |built| <= MAX_CHILDREN
      invariant |built| > 0 ==> i <= last
      invariant forall k | 0 <= k < |built| :: built[k] == MakeRow(row, key, rh, first + k)
      decreases last - i
    {
      built := built + [MakeRow(row, key, rh, i)];
      i := i + 1;
    }
  }

  /** A built row shows its item at its place in the list, at the requested height if that is more than
      a pixel, under the caller's key or one of its own. */
  lemma RowIsMade<T>(row: int -> T, key: Option<int -> int>, requested: real, i: int)
    ensures var rh := if requested > 1.0 then requested else 44.0;
            var r := MakeRow(row, key, RowHeight(requested), i);
            && r.view == row(i) && r.height == rh && r.layoutY == i as real * rh
            && r.key == (match key case Some(f) => f(i) case None => i + 1)
  {
  }

  /** Build the rows of a list: those the window holds, up to what a node can hold. */
  method BuildRows<T>(cell: ScrollCell, requested: real, count0: int, row: int -> T, key: Option<int -> int>)
    returns (built: seq<Row<T>>)
    ensures |built| <= MAX_CHILDREN
    ensures var rh := RowHeight(requested);
            forall k | 0 <= k < |built| :: 0 <= First(cell.offset, rh) + k < count0 &&
                                          built[k] == MakeRow(row, key, rh, First(cell.offset, rh) + k)
    ensures var rh := RowHeight(requested);
            cell.offset >= 0.0 && 1.0 < cell.viewportH <= 30.0 * rh ==>
              |built| == Max(0, Last(cell.offset, cell.viewportH, rh, count0) - First(cell.offset, rh)) &&
              forall i | 0 <= i < count0 && Visible(i, cell.offset, cell.viewportH, rh) :: MakeRow(row, key, rh, i) in built
  {
    hide Trunc;
    hide Visible;
    hide MakeRow;
    var rh := if requested > 1.0 then requested else 44.0;
    var count := if count0 < 0 then 0 else count0;
    var vp := if cell.viewportH > 1.0 then cell.viewportH else 2048.0;
    var first := Trunc(cell.offset / rh) - 1;
    var last := Trunc((cell.offset + vp) / rh) + 1;
    if first < 0 {
      first := 0;
    }
    if last > count {
      last := count;
    }
    assert rh == RowHeight(requested) && first == First(cell.offset, rh);
    built := FillRows(first, last, rh, row, key);
    if cell.offset >= 0.0 && 1.0 < cell.viewportH <= 30.0 * rh {
      WindowFits(cell.offset, vp, rh, count);
      AllVisibleBuilt(cell.offset, vp, rh, count0, row, key, built);
    }
  }

  lemma AllVisibleBuilt<T>(offset: real, vp: real, rh: real, count: int, row: int -> T, key: Option<int -> int>, built: seq<Row<T>>)
    requires rh > 0.0 && offset >= 0.0 && vp >= 0.0
    requires |built| >= Last(offset, vp, rh, count) - First(offset, rh)
    requires forall k | 0 <= k < |built| :: built[k] == MakeRow(row, key, rh, First(offset, rh) + k)
    ensures forall i | 0 <= i < count && Visible(i, offset, vp, rh) :: MakeRow(row, key, rh, i) in built
  {
    forall i | 0 <= i < count && Visible(i, offset, vp, rh)
      ensures MakeRow(row, key, rh, i) in built
    {
      VisibleInWindow(i, offset, vp, rh, count);
      assert built[i - First(offset, rh)] == MakeRow(row, key, rh, i);
    }
  }

  // ---------------------------------------------------------------- what the viewport shows

  /** Rows `a` to `b` of a laid-out list. */
  function Rows(row: int -> Node, a: int, b: int): seq<Node>
    decreases b - a
  {
    if b <= a then [] else Rows(row, a, b - 1) + [row(b - 1)]
  }

  /** A viewport over a list content holding the given rows. */
  function ListView(viewport: Node, content: Node, rows: seq<Node>): Node
  {
    viewport.(children := [content.(children := rows)])
  }

  /** Row frames as the layout assigns them: `rh` apart, scrolled up by the offset. */
  ghost predicate LaidOut(row: int -> Node, viewport: Node, offset: real, rh: real, count: int)
  {
    forall i | 0 <= i < count :: row(i).y == viewport.y - offset + i as real * rh && row(i).h == rh
  }

  /** A row paints nothing above its own frame, rounded to pixels, and nothing further below it than
      the next row reaches. */
  ghost predicate InkInPlace(n: Node, rh: real, font: Font)
  {
    forall x, y | !(Trunc(n.y + 0.5) <= y < Trunc(n.y + n.h + rh)) :: Idle(n, font, x, y)
  }

  /** Everything in the tree is drawn within a band of pixel rows. */
  predicate DrawnWithin(n: Node, font: Font, top: int, bottom: int)
  {
    && (HasRing(n) ==> top <= RingPlate(n).Y0() && RingPlate(n).Y1() <= bottom)
    && (n.hasBg || n.kind == Solid ==> top <= FramePlate(n).Y0() && FramePlate(n).Y1() <= bottom)
    && (n.kind == Text ==> forall s <- Glyphs(n, font) :: top <= s.y < bottom)
    && forall c <- n.children :: DrawnWithin(c, font, top, bottom)
  }

  /** The frames of a tree lie between two heights, no node is focused and the glyphs stay in their
      frames. */
  predicate PlainWithin(n: Node, font: Font, top: real, bottom: real)
  {
    && top <= n.y && n.y + n.h <= bottom && !n.focused
    && (n.kind == Text ==> forall s <- Glyphs(n, font) :: FramePlate(n).Y0() <= s.y < FramePlate(n).Y1())
    && forall c <- n.children :: PlainWithin(c, font, top, bottom)
  }

  /** A tree drawn within a band touches nothing outside it. */
  lemma {:induction false} DrawnIdle(n: Node, font: Font, top: int, bottom: int, x: int, y: int)
    requires DrawnWithin(n, font, top, bottom) && !(top <= y < bottom)
    ensures Idle(n, font, x, y)
    decreases n, 1
  {
    hide Plate.Cut;
    hide CoverOver;
    forall p: Word
      ensures Px(n, font, x, y, p) == p
    {
      if n.kind == Text {
        InkElsewhere(Glyphs(n, font), n.fg, x, y, p);
      }
      KidsDrawnIdle(n.children, font, top, bottom, x, y, p);
    }
  }

  lemma {:induction false} KidsDrawnIdle(cs: seq<Node>, font: Font, top: int, bottom: int, x: int, y: int, p: Word)
    requires (forall c <- cs :: DrawnWithin(c, font, top, bottom)) && !(top <= y < bottom)
    ensures KidsPx(cs, font, x, y, p) == p
    decreases cs, 0
  {
    hide Px;
    if cs != [] {
      KidsDrawnIdle(cs[..|cs| - 1], font, top, bottom, x, y, p);
      DrawnIdle(cs[|cs| - 1], font, top, bottom, x, y);
    }
  }

  lemma {:induction false} PlainDrawn(n: Node, font: Font, top: real, bottom: real)
    requires PlainWithin(n, font, top, bottom)
    ensures DrawnWithin(n, font, Trunc(top + 0.5), Trunc(bottom + 0.5))
  {
    TruncMonotone(top + 0.5, n.y + 0.5);
    TruncMonotone(n.y + n.h + 0.5, bottom + 0.5);
    hide Trunc;
    forall c | c in n.children
      ensures DrawnWithin(c, font, Trunc(top + 0.5), Trunc(bottom + 0.5))
    {
      PlainDrawn(c, font, top, bottom);
    }
  }

  /** An unfocused row whose contents lie in its frame keeps its ink in place. */
  lemma PlainRowInPlace(n: Node, rh: real, font: Font)
    requires PlainWithin(n, font, n.y, n.y + n.h) && rh > 1.0
    ensures InkInPlace(n, rh, font)
  {
    hide Idle;
    PlainDrawn(n, font, n.y, n.y + n.h);
    TruncMonotone(n.y + n.h + 0.5, n.y + n.h + rh);
    forall x, y | !(Trunc(n.y + 0.5) <= y < Trunc(n.y + n.h + rh))
      ensures Idle(n, font, x, y)
    {
      DrawnIdle(n, font, Trunc(n.y + 0.5), Trunc(n.y + n.h + 0.5), x, y);
    }
  }

  lemma {:induction false} RowsSplit(row: int -> Node, a: int, k: int, b: int)
    requires a <= k <= b
    ensures Rows(row, a, b) == Rows(row, a, k) + Rows(row, k, b)
    decreases b - k
  {
    if k < b {
      RowsSplit(row, a, k, b - 1);
    }
  }

  lemma {:induction false} IdleRows(row: int -> Node, a: int, b: int, font: Font, x: int, y: int, p: Word)
    requires forall i | a <= i < b :: Idle(row(i), font, x, y)
    ensures KidsPx(Rows(row, a, b), font, x, y, p) == p
    decreases b - a
  {
    hide Px;
    if a < b {
      IdleRows(row, a, b - 1, font, x, y, p);
      assert Rows(row, a, b)[..b - 1 - a] == Rows(row, a, b - 1) by {
        RowsLength(row, a, b - 1);
      }
      RowsLength(row, a, b);
    }
  }

  lemma {:induction false} RowsLength(row: int -> Node, a: int, b: int)
    requires a <= b
    ensures |Rows(row, a, b)| == b - a
    decreases b - a
  {
    if a < b {
      RowsLength(row, a, b - 1);
    }
  }

  /** A row the window leaves out lies away from the viewport's pixels: above it by a row's height, or
      below it. */
  lemma LeftOutAway(n: Node, i: int, viewport: Node, offset: real, rh: real, count: int, x: int, y: int)
    requires rh > 0.0 && offset >= 0.0 && viewport.h >= 0.0 && 0 <= i < count
    requires n.y == viewport.y - offset + i as real * rh && n.h == rh
    requires !(First(offset, rh) <= i < Last(offset, viewport.h, rh, count))
    requires FrameRect(viewport).Has(x, y)
    ensures !(Trunc(n.y + 0.5) <= y < Trunc(n.y + n.h + rh)) && !FrameRect(n).Has(x, y)
  {
    OutsideWindow(i, offset, viewport.h, rh, count);
    assert n.y + n.h + rh == viewport.y - offset + (i + 2) as real * rh;
    if (i + 2) as real * rh <= offset {
      TruncMonotone(n.y + n.h + rh, viewport.y);
      TruncMonotone(n.y + n.h, n.y + n.h + rh);
    } else {
      TruncMonotone(viewport.y + viewport.h, n.y + 0.5);
      TruncMonotone(viewport.y + viewport.h, n.y);
    }
  }

  /** A row the window leaves out shows nothing in the viewport. */
  lemma LeftOutIsIdle(row: int -> Node, i: int, viewport: Node, offset: real, rh: real, count: int, font: Font, x: int, y: int)
    requires rh > 0.0 && offset >= 0.0 && viewport.h >= 0.0 && 0 <= i < count
    requires LaidOut(row, viewport, offset, rh, count) && InkInPlace(row(i), rh, font)
    requires !(First(offset, rh) <= i < Last(offset, viewport.h, rh, count))
    requires FrameRect(viewport).Has(x, y)
    ensures Idle(row(i), font, x, y)
  {
    hide Idle;
    LeftOutAway(row(i), i, viewport, offset, rh, count, x, y);
  }

  /** A left-out row with the focus shows in the viewport exactly where its ring does (a nested viewport
      clips its own ring away). */
  lemma LeftOutRingExactly(row: int -> Node, i: int, viewport: Node, offset: real, rh: real, count: int, font: Font, x: int, y: int)
    requires rh > 0.0 && offset >= 0.0 && viewport.h >= 0.0 && 0 <= i < count
    requires LaidOut(row, viewport, offset, rh, count) && InkInPlace(row(i).(focused := false), rh, font)
    requires !(First(offset, rh) <= i < Last(offset, viewport.h, rh, count))
    requires FrameRect(viewport).Has(x, y) && HasRing(row(i))
    ensures Idle(row(i), font, x, y) <==> row(i).clip || !RingPlate(row(i)).Covers(x, y)
  {
    var n := row(i);
    var dark := n.(focused := false);
    LeftOutAway(n, i, viewport, offset, rh, count, x, y);
    assert Idle(dark, font, x, y) && !FrameRect(n).Has(x, y);
    hide Idle;
    RingShows(n, font, x, y);
  }

  /** Where a row's contents show nothing, its ring shows wherever it reaches. */
  lemma RingShows(n: Node, font: Font, x: int, y: int)
    requires HasRing(n) && Idle(n.(focused := false), font, x, y) && !FrameRect(n).Has(x, y)
    ensures Idle(n, font, x, y) <==> n.clip || !RingPlate(n).Covers(x, y)
  {
    hide FrameRect;
    hide KidsPx;
    hide Plate.Covers;
    var dark := n.(focused := false);
    assert RingPlate(n) == RingPlate(dark) && FramePlate(n) == FramePlate(dark) && Glyphs(n, font) == Glyphs(dark, font);
    forall p: Word
      ensures Px(n, font, x, y, p) == if n.clip then p else FillPx(RingPlate(n), RING, x, y, p)
    {
      if !n.clip {
        var q := FillPx(RingPlate(n), RING, x, y, p);
        assert OwnPx(n, font, x, y, p) == OwnPx(dark, font, x, y, q);
        assert Px(n, font, x, y, p) == Px(dark, font, x, y, q) == q;
      }
    }
    hide Px;
    assert FillOver(0, RING) == Pack(255, RING.r, RING.g, RING.b) != 0;
    if !n.clip && RingPlate(n).Covers(x, y) {
      assert Px(n, font, x, y, 0) != 0;
    }
  }

  /** The virtualised list shows exactly what a list with every row built would show. */
  lemma WindowShowsTheList(row: int -> Node, viewport: Node, content: Node, offset: real, rh: real, count: nat,
                           font: Font, x: int, y: int, p: Word)
    requires rh > 0.0 && offset >= 0.0 && viewport.h >= 0.0 && viewport.clip && !content.clip
    requires LaidOut(row, viewport, offset, rh, count)
    requires forall i | 0 <= i < count && !(First(offset, rh) <= i < Last(offset, viewport.h, rh, count)) ::
               InkInPlace(row(i), rh, font)
    ensures var first, last := First(offset, rh), Last(offset, viewport.h, rh, count);
            Px(ListView(viewport, content, Rows(row, 0, count)), font, x, y, p) ==
            Px(ListView(viewport, content, Rows(row, first, last)), font, x, y, p)
  {
    hide OwnPx;
    hide LaidOut;
    hide InkInPlace;
    hide Trunc;
    hide Rows;
    hide Idle;
    var first, last := First(offset, rh), Last(offset, viewport.h, rh, count);
    var all, some := Rows(row, 0, count), Rows(row, first, last);
    var a, b := ListView(viewport, content, all), ListView(viewport, content, some);
    if FrameRect(viewport).Has(x, y) {
      forall i | 0 <= i < count && !(first <= i < last)
        ensures Idle(row(i), font, x, y)
      {
        LeftOutIsIdle(row, i, viewport, offset, rh, count, font, x, y);
      }
      OwnIgnoresChildren(viewport, a.children, font, x, y, p);
      OwnIgnoresChildren(viewport, b.children, font, x, y, p);
      var q := OwnPx(viewport, font, x, y, p);
      OwnIgnoresChildren(content, all, font, x, y, q);
      OwnIgnoresChildren(content, some, font, x, y, q);
      WindowKids(row, first, last, count, font, x, y, OwnPx(content, font, x, y, q));
      OnlyChild(a, font, x, y, q);
      OnlyChild(b, font, x, y, q);
    }
  }

  const GREY: Color := Color(128, 128, 128, 255)

  /** A plain box 10 px high. */
  function Bar(kind: Kind, y: real, focused: bool): Node
  {
    Node(kind, 0.0, y, 10.0, 10.0, 0.0, false, GREY, 0.0, GREY, "", 16.0, GREY, focused, 0, kind == Scroll, [])
  }

  /** The third of the rows has the focus and starts half a pixel below the viewport. */
  function BarRow(i: int): Node { Bar(Solid, 0.0 - 9.5 + i as real * 10.0, i == 2) }

  lemma BarPx(i: int, font: Font, p: Word)
    requires 1 <= i <= 2
    ensures Px(BarRow(i), font, 5, 6, p) == FillOver(p, if i == 1 then GREY else RING)
  {
    var n := BarRow(i);
    assert KidsPx([], font, 5, 6, OwnPx(n, font, 5, 6, p)) == OwnPx(n, font, 5, 6, p);
    BarOwnPx(i, font, p);
    hide OwnPx;
  }

  lemma BarOwnPx(i: int, font: Font, p: Word)
    requires 1 <= i <= 2
    ensures OwnPx(BarRow(i), font, 5, 6, p) == FillOver(p, if i == 1 then GREY else RING)
  {
    var n := BarRow(i);
    hide FillOver;
    if i == 1 {
      assert FramePlate(n) == Plate(0.0, 0.5, 10.0, 10.0, 0.0);
      assert FramePlate(n).Covers(5, 6) && !HasRing(n);
      assert OwnPx(n, font, 5, 6, p) == FillPx(FramePlate(n), GREY, 5, 6, p);
    } else {
      assert RingPlate(n) == Plate(-5.0, 5.5, 20.0, 20.0, 0.0) && FramePlate(n) == Plate(0.0, 10.5, 10.0, 10.0, 0.0);
      assert RingPlate(n).Covers(5, 6) && !FramePlate(n).Covers(5, 6) && HasRing(n);
      assert OwnPx(n, font, 5, 6, p) == FillPx(RingPlate(n), RING, 5, 6, p);
    }
  }

  /** A focused row just below the viewport is left out with the upper edge of its ring, which a list
      of all rows would show. */
  lemma RingIsCut(font: Font)
    ensures var v, c, o, rh := Bar(Scroll, 0.0, false), Bar(Stack, 0.0, false), 9.5, 10.0;
            LaidOut(BarRow, v, o, rh, 3) &&
            Picture(ListView(v, c, Rows(BarRow, 0, 3)), font, 5, 6) !=
            Picture(ListView(v, c, Rows(BarRow, First(o, rh), Last(o, v.h, rh, 3))), font, 5, 6)
  {
    assert First(9.5, 10.0) == 0 && Last(9.5, 10.0, 10.0, 3) == 2;
    var all, some := Rows(BarRow, 0, 3), Rows(BarRow, 0, 2);
    assert all[..2] == some && all[2] == BarRow(2);
    assert some[..1] == Rows(BarRow, 0, 1) && some[1] == BarRow(1);
    ListPx(all, font);
    ListPx(some, font);
    hide Px;
    var p := KidsPx(some, font, 5, 6, 0);
    BarPx(1, font, KidsPx(Rows(BarRow, 0, 1), font, 5, 6, 0));
    BarPx(2, font, p);
    assert FillOver(p, RING) == Pack(255, RING.r, RING.g, RING.b);
  }

  /** Viewport and content draw nothing of their own. */
  lemma ListPx(rows: seq<Node>, font: Font)
    ensures Picture(ListView(Bar(Scroll, 0.0, false), Bar(Stack, 0.0, false), rows), font, 5, 6) == KidsPx(rows, font, 5, 6, 0)
  {
    var l := ListView(Bar(Scroll, 0.0, false), Bar(Stack, 0.0, false), rows);
    assert FrameRect(l).Has(5, 6);
    OnlyChild(l, font, 5, 6, 0);
  }

  lemma OwnIgnoresChildren(n: Node, kids: seq<Node>, font: Font, x: int, y: int, p: Word)
    ensures OwnPx(n.(children := kids), font, x, y, p) == OwnPx(n, font, x, y, p)
  {
    hide FillPx;
    hide InkPx;
  }

  lemma WindowKids(row: int -> Node, first: int, last: int, count: nat, font: Font, x: int, y: int, p: Word)
    requires 0 <= first && last <= count
    requires forall i | 0 <= i < count && !(first <= i < last) :: Idle(row(i), font, x, y)
    ensures KidsPx(Rows(row, 0, count), font, x, y, p) == KidsPx(Rows(row, first, last), font, x, y, p)
  {
    hide Px;
    hide Idle;
    hide KidsPx;
    if first < last {
      RowsSplit(row, 0, first, count);
      RowsSplit(row, first, last, count);
      KidsSplit(Rows(row, 0, first), Rows(row, first, count), font, x, y, p);
      IdleRows(row, 0, first, font, x, y, p);
      KidsSplit(Rows(row, first, last), Rows(row, last, count), font, x, y, p);
      IdleRows(row, last, count, font, x, y, KidsPx(Rows(row, first, last), font, x, y, p));
    } else {
      IdleRows(row, 0, count, font, x, y, p);
      IdleRows(row, first, last, font, x, y, p);
    }
  }

  /** The layout puts a list's built rows where `LaidOut` says: `layoutY` below the content's
      top, which lies the clamped offset above the viewport's, each with its fixed height. */
  lemma RowFrames(v: Layout.View, b: Layout.Frame, k: nat, fs: seq<Layout.Frame>, cs0: seq<Layout.Cell>, cs: seq<Layout.Cell>, m: Layout.Metrics)
    requires v.kind == Scroll && v.children != []
    requires var c := v.children[0];
             c.kind == Stack && c.absChildren && c.offX == 0.0 && c.offY == 0.0 && k < |c.children| &&
             c.children[k].kind != Scroll && c.children[k].offX == 0.0 && c.children[k].offY == 0.0 &&
             c.children[k].fixedH > 0.0
    requires Layout.Placed(v, b, fs, cs0, cs, m)
    ensures var c := v.children[0]; var r := c.children[k];
            r.id < |fs| && v.id < |fs| &&
            fs[r.id].y == fs[v.id].y - Layout.OffsetOf(v, cs) + r.layoutY && fs[r.id].h == r.fixedH
  {
    hide Layout.Shifted;
    var c := v.children[0];
    var r := c.children[k];
    var f := Layout.Shifted(v, b);
    var fc := Layout.Frame(f.x, f.y - Layout.OffsetOf(v, cs), f.w, Layout.ContentHeight(c, m));
    assert Layout.Placed(c, fc, fs, cs0, cs, m);
    ShiftedPlain(c, fc);
    var slot := Layout.Slot(c, fc, k, m);
    assert Layout.Placed(r, slot, fs, cs0, cs, m);
    ShiftedPlain(r, slot);
  }

  lemma ShiftedPlain(v: Layout.View, b: Layout.Frame)
    requires v.offX == 0.0 && v.offY == 0.0
    ensures Layout.Shifted(v, b) == b
  {
  }
}
