/** The two-pass stack layout: `Measure` computes desired sizes bottom-up, `Arrange` assigns
    frames top-down. A node is named by its index in the build arena; the passes write each
    node's frame into a table in place. */
module Layout {
  import opened Scene
  import opened Wrappers

  datatype Axis = Vertical | Horizontal | Depth
  datatype Align = Leading | Center | Trailing

  datatype View = View(id: nat, kind: Kind, axis: Axis, align: Align, spacing: real, padding: real,
                       grow: real, fixedW: real, fixedH: real, text: string, fontSize: real,
                       offX: real, offY: real, fill: bool, absChildren: bool, layoutY: real,
                       contentH: real, scroll: Option<nat>, children: seq<View>)

  datatype Size = Size(w: real, h: real)
  datatype Frame = Frame(x: real, y: real, w: real, h: real)

  /** A persistent scroll position with the metrics the last layout recorded. */
  datatype Cell = Cell(offset: real, viewportH: real, contentH: real)

  /** Text measurement is foreign code: string and font size give a line's width and height. */
  type Metrics = (string, real) -> Size

  function MaxReal(a: real, b: real): real { if a > b then a else b }

  // ---------------------------------------------------------------- desired sizes

  function Main(horiz: bool, s: Size): real { if horiz then s.w else s.h }

  function Cross(horiz: bool, s: Size): real { if horiz then s.h else s.w }

  function SumMain(cs: seq<View>, horiz: bool, m: Metrics): real
    decreases cs, 0
  {
    if cs == [] then 0.0 else SumMain(cs[..|cs| - 1], horiz, m) + Main(horiz, Want(cs[|cs| - 1], m))
  }

  function MaxCross(cs: seq<View>, horiz: bool, m: Metrics): real
    decreases cs, 0
  {
    if cs == [] then 0.0 else MaxReal(MaxCross(cs[..|cs| - 1], horiz, m), Cross(horiz, Want(cs[|cs| - 1], m)))
  }

  function Gaps(v: View): real { if |v.children| > 1 then v.spacing * (|v.children| - 1) as real else 0.0 }

  /** What a node's content asks for, before fixed sizes and padding. */
  function Content(v: View, m: Metrics): Size
    decreases v, 0
  {
    match v.kind
    case Solid => Size(v.fixedW, v.fixedH)
    case Spacer => Size(v.fixedW, v.fixedH)
    case Scroll => Size(0.0, 0.0)
    case Text => m(v.text, v.fontSize)
    case Stack =>
      if v.absChildren then Size(0.0, v.contentH)
      else if v.axis == Depth then Size(MaxCross(v.children, false, m), MaxCross(v.children, true, m))
      else
        var horiz := v.axis == Horizontal;
        var main := SumMain(v.children, horiz, m) + Gaps(v);
        var cross := MaxCross(v.children, horiz, m);
        if horiz then Size(main, cross) else Size(cross, main)
  }

  /** A node's desired outer size. */
  function Want(v: View, m: Metrics): Size
    decreases v, 1
  {
    var c := Content(v, m);
    Size((if v.fixedW > 0.0 then v.fixedW else c.w) + 2.0 * v.padding,
         (if v.fixedH > 0.0 then v.fixedH else c.h) + 2.0 * v.padding)
  }

  // ---------------------------------------------------------------- trees over the tables

  ghost function Ids(v: View): set<nat>
  {
    {v.id} + KidIds(v.children)
  }

  ghost function KidIds(cs: seq<View>): set<nat>
  {
    if cs == [] then {} else KidIds(cs[..|cs| - 1]) + Ids(cs[|cs| - 1])
  }

  ghost function CellIds(v: View): set<nat>
  {
    (if v.scroll.Some? then {v.scroll.value} else {}) + KidCells(v.children)
  }

  ghost function KidCells(cs: seq<View>): set<nat>
  {
    if cs == [] then {} else KidCells(cs[..|cs| - 1]) + CellIds(cs[|cs| - 1])
  }

  /** Every node has its own slot in the arena, and its own scroll cell if it has one. */
  ghost predicate Tree(v: View)
  {
    v.id !in KidIds(v.children) && (v.scroll.Some? ==> v.scroll.value !in KidCells(v.children)) && Forest(v.children)
  }

  ghost predicate Forest(cs: seq<View>)
  {
    cs == [] ||
    var init, last := cs[..|cs| - 1], cs[|cs| - 1];
    Forest(init) && Tree(last) && KidIds(init) !! Ids(last) && KidCells(init) !! CellIds(last)
  }

  ghost predicate InTable(v: View, nodes: nat, cells: nat)
  {
    (forall i <- Ids(v) :: i < nodes) && (forall k <- CellIds(v) :: k < cells)
  }

  lemma {:induction false} KidIn(cs: seq<View>, i: nat)
    requires i < |cs|
    ensures Ids(cs[i]) <= KidIds(cs) && CellIds(cs[i]) <= KidCells(cs)
    ensures Forest(cs) ==> Tree(cs[i])
  {
    if i < |cs| - 1 {
      KidIn(cs[..|cs| - 1], i);
    }
  }

  lemma KidInTable(v: View, i: nat, nodes: nat, cells: nat)
    requires i < |v.children| && InTable(v, nodes, cells)
    ensures InTable(v.children[i], nodes, cells) && v.id < nodes
    ensures v.scroll.Some? ==> v.scroll.value < cells
    ensures Tree(v) ==> Tree(v.children[i])
  {
    KidIn(v.children, i);
    assert Ids(v.children[i]) <= Ids(v) && CellIds(v.children[i]) <= CellIds(v);
    assert v.id in Ids(v);
    assert v.scroll.Some? ==> v.scroll.value in CellIds(v);
  }

  lemma {:induction false} KidsApart(cs: seq<View>, i: nat, j: nat)
    requires i < j < |cs| && Forest(cs)
    ensures Ids(cs[i]) !! Ids(cs[j]) && CellIds(cs[i]) !! CellIds(cs[j])
  {
    if j < |cs| - 1 {
      KidsApart(cs[..|cs| - 1], i, j);
    } else {
      KidIn(cs[..|cs| - 1], i);
    }
  }

  lemma {:induction false} KidPrefix(cs: seq<View>, k: nat)
    requires k <= |cs|
    ensures KidIds(cs[..k]) <= KidIds(cs) && KidCells(cs[..k]) <= KidCells(cs)
    ensures Forest(cs) ==> Forest(cs[..k])
    decreases |cs| - k
  {
    if k < |cs| {
      KidPrefix(cs, k + 1);
      assert cs[..k + 1][..k] == cs[..k];
    } else {
      assert cs[..k] == cs;
    }
  }

  /** The frame table holds the desired size of every node of the tree. */
  ghost predicate Measured(v: View, fs: seq<Frame>, m: Metrics)
  {
    v.id < |fs| && fs[v.id].w == Want(v, m).w && fs[v.id].h == Want(v, m).h &&
    forall c <- v.children :: Measured(c, fs, m)
  }

  ghost predicate SameOn(ids: set<nat>, fs: seq<Frame>, gs: seq<Frame>)
  {
    |fs| == |gs| && forall i <- ids | i < |fs| :: fs[i] == gs[i]
  }

  lemma {:induction false} MeasuredFrame(v: View, fs: seq<Frame>, gs: seq<Frame>, m: Metrics)
    requires Measured(v, fs, m) && SameOn(Ids(v), fs, gs)
    ensures Measured(v, gs, m)
  {
    forall i | 0 <= i < |v.children|
      ensures Measured(v.children[i], gs, m)
    {
      KidIn(v.children, i);
      MeasuredFrame(v.children[i], fs, gs, m);
    }
  }

  /** One more child has been measured. */
  lemma KidsMeasuredMore(v: View, k: nat, fs0: seq<Frame>, fs: seq<Frame>, gs: seq<Frame>, m: Metrics)
    requires Tree(v) && k < |v.children| && SameOff(KidIds(v.children[..k]), fs0, fs) && SameOff(Ids(v.children[k]), fs, gs)
    requires (forall i | 0 <= i < k :: Measured(v.children[i], fs, m)) && Measured(v.children[k], gs, m)
    ensures SameOff(KidIds(v.children[..k + 1]), fs0, gs) && forall i | 0 <= i < k + 1 :: Measured(v.children[i], gs, m)
  {
    hide Measured;
    var kids := v.children;
    assert kids[..k + 1][..k] == kids[..k];
    assert KidIds(kids[..k + 1]) == KidIds(kids[..k]) + Ids(kids[k]);
    forall i | 0 <= i < k
      ensures Measured(kids[i], gs, m)
    {
      KidsApart(kids, i, k);
      MeasuredFrame(kids[i], fs, gs, m);
    }
  }

  // ---------------------------------------------------------------- final frames

  function AlignOffset(align: Align, free: real): real
  {
    match align
    case Center => free / 2.0
    case Trailing => free
    case Leading => 0.0
  }

  /** A frame without its padding. */
  function Inner(v: View, f: Frame): Frame
  {
    Frame(f.x + v.padding, f.y + v.padding, f.w - 2.0 * v.padding, f.h - 2.0 * v.padding)
  }

  function SumGrow(cs: seq<View>): real
  {
    if cs == [] then 0.0 else SumGrow(cs[..|cs| - 1]) + cs[|cs| - 1].grow
  }

  /** Main-axis space the children leave free. */
  function Freedom(v: View, f: Frame, m: Metrics): real
  {
    var horiz := v.axis == Horizontal;
    var free := Main(horiz, Size(Inner(v, f).w, Inner(v, f).h)) - (SumMain(v.children, horiz, m) + Gaps(v));
    if free < 0.0 then 0.0 else free
  }

  /** The part of the free space a flex weight earns. */
  function Share(free: real, weight: real, total: real): real
    requires total > 0.0
  {
    free * weight / total
  }

  /** The main-axis extent a linear stack gives a child. */
  function MainExtent(v: View, f: Frame, c: View, m: Metrics): real
  {
    var horiz := v.axis == Horizontal;
    if c.fill then Main(horiz, Size(Inner(v, f).w, Inner(v, f).h))
    else if SumGrow(v.children) > 0.0 then
      Main(horiz, Want(c, m)) + Share(Freedom(v, f, m), c.grow, SumGrow(v.children))
    else Main(horiz, Want(c, m))
  }

  /** The cross-axis extent a linear stack gives a child. */
  function CrossExtent(v: View, f: Frame, c: View, m: Metrics): real
  {
    var horiz := v.axis == Horizontal;
    var room := Cross(horiz, Size(Inner(v, f).w, Inner(v, f).h));
    var want := Cross(horiz, Want(c, m));
    var fixed := if horiz then c.fixedH > 0.0 else c.fixedW > 0.0;
    if c.fill || (c.kind == Stack && !fixed) || c.kind == Scroll || want <= 0.0 || want > room then room else want
  }

  /** How far along the main axis the children before `i` reach, gaps included. */
  function Advance(v: View, f: Frame, i: nat, m: Metrics): real
    requires i <= |v.children|
  {
    if i == 0 then 0.0 else Advance(v, f, i - 1, m) + MainExtent(v, f, v.children[i - 1], m) + v.spacing
  }

  /** The box a stack hands to its `i`-th child. */
  function Slot(v: View, f: Frame, i: nat, m: Metrics): Frame
    requires i < |v.children|
  {
    var c := v.children[i];
    var inner := Inner(v, f);
    var want := Want(c, m);
    if v.absChildren then
      Frame(inner.x, f.y + c.layoutY, if c.fixedW > 0.0 then c.fixedW else inner.w, if c.fixedH > 0.0 then c.fixedH else want.h)
    else if v.axis == Depth then
      var cw := if c.fill then inner.w else if want.w > 0.0 then want.w else inner.w;
      var ch := if c.fill then inner.h else if want.h > 0.0 then want.h else inner.h;
      Frame(inner.x + (inner.w - cw) / 2.0, inner.y + (inner.h - ch) / 2.0, cw, ch)
    else
      var along, across := MainExtent(v, f, c, m), CrossExtent(v, f, c, m);
      if v.axis == Horizontal then
        Frame(inner.x + Advance(v, f, i, m), inner.y + AlignOffset(v.align, inner.h - across), along, across)
      else
        Frame(inner.x + AlignOffset(v.align, inner.w - across), inner.y + Advance(v, f, i, m), across, along)
  }

  /** The content height of a viewport's child: declared for a list, measured otherwise. */
  function ContentHeight(c: View, m: Metrics): real { if c.contentH > 0.0 then c.contentH else Want(c, m).h }

  /** An offset kept between the content's ends. */
  function ClampOffset(offset: real, contentH: real, viewportH: real): (r: real)
    ensures 0.0 <= r && (r == 0.0 || r <= contentH - viewportH)
    ensures 0.0 <= offset <= contentH - viewportH ==> r == offset
    ensures contentH <= viewportH || offset <= 0.0 ==> r == 0.0
    ensures contentH > viewportH && offset > contentH - viewportH ==> r == contentH - viewportH
  {
    var max := if contentH - viewportH < 0.0 then 0.0 else contentH - viewportH;
    if offset < 0.0 then 0.0 else if offset > max then max else offset
  }

  /** The frame a node gets from a box: shifted by its own offset. */
  function Shifted(v: View, b: Frame): Frame { Frame(b.x + v.offX, b.y + v.offY, b.w, b.h) }

  /** The offset of a viewport's cell, if it has one. */
  function OffsetOf(v: View, cs: seq<Cell>): real
  {
    if v.scroll.Some? && v.scroll.value < |cs| then cs[v.scroll.value].offset else 0.0
  }

  /** The cell a viewport of frame `f` over content of height `ch` records. */
  predicate Recorded(v: View, f: Frame, ch: real, cs0: seq<Cell>, cs: seq<Cell>)
  {
    v.scroll.Some? ==>
      v.scroll.value < |cs| && v.scroll.value < |cs0| &&
      cs[v.scroll.value] == Cell(ClampOffset(cs0[v.scroll.value].offset, ch, f.h), f.h, ch)
  }

  /** The tables after laying `v` out in the box `b`, starting from the cells `cs0`. */
  ghost predicate Placed(v: View, b: Frame, fs: seq<Frame>, cs0: seq<Cell>, cs: seq<Cell>, m: Metrics)
    decreases v
  {
    var f := Shifted(v, b);
    v.id < |fs| && fs[v.id] == f &&
    if v.kind == Scroll then
      v.children != [] ==>
        var c := v.children[0];
        var ch := ContentHeight(c, m);
        Recorded(v, f, ch, cs0, cs) && Placed(c, Frame(f.x, f.y - OffsetOf(v, cs), f.w, ch), fs, cs0, cs, m)
    else
      v.kind == Stack ==> forall i | 0 <= i < |v.children| :: Placed(v.children[i], Slot(v, f, i, m), fs, cs0, cs, m)
  }

  ghost predicate SameCells(ids: set<nat>, cs: seq<Cell>, ds: seq<Cell>)
  {
    |cs| == |ds| && forall k <- ids | k < |cs| :: cs[k] == ds[k]
  }

  lemma {:induction false} PlacedFrame(v: View, b: Frame, fs: seq<Frame>, gs: seq<Frame>,
                                       cs0: seq<Cell>, ds0: seq<Cell>, cs: seq<Cell>, ds: seq<Cell>, m: Metrics)
    requires Placed(v, b, fs, cs0, cs, m) && SameOn(Ids(v), fs, gs)
    requires SameCells(CellIds(v), cs0, ds0) && SameCells(CellIds(v), cs, ds)
    ensures Placed(v, b, gs, ds0, ds, m)
    decreases v
  {
    hide Slot;
    hide ContentHeight;
    hide ClampOffset;
    var f := Shifted(v, b);
    if v.kind == Scroll && v.children != [] {
      var c := v.children[0];
      KidIn(v.children, 0);
      PlacedFrame(c, Frame(f.x, f.y - OffsetOf(v, cs), f.w, ContentHeight(c, m)), fs, gs, cs0, ds0, cs, ds, m);
    } else if v.kind == Stack {
      forall i | 0 <= i < |v.children|
        ensures Placed(v.children[i], Slot(v, f, i, m), gs, ds0, ds, m)
      {
        KidIn(v.children, i);
        PlacedFrame(v.children[i], Slot(v, f, i, m), fs, gs, cs0, ds0, cs, ds, m);
      }
    }
  }

  // ---------------------------------------------------------------- what a layout guarantees

  /** A stack/leaf tree the guarantees are about: no offsets, no viewports or virtual rows, no
      `Fill` in a linear stack, nothing negative. */
  ghost predicate Plain(v: View)
  {
    (v.kind != Scroll && !v.absChildren) &&
    v.padding >= 0.0 && v.spacing >= 0.0 && v.grow >= 0.0 && v.fixedW >= 0.0 && v.fixedH >= 0.0 &&
    forall c <- v.children ::
      Plain(c) && c.offX == 0.0 && c.offY == 0.0 && (c.fill ==> v.kind == Stack && v.axis == Depth)
  }

  /** No fixed size is smaller than the content it holds, and no text has a negative size. */
  ghost predicate Roomy(v: View, m: Metrics)
  {
    Content(v, m).w >= 0.0 && Content(v, m).h >= 0.0 &&
    (v.fixedW > 0.0 ==> v.fixedW >= Content(v, m).w) && (v.fixedH > 0.0 ==> v.fixedH >= Content(v, m).h) &&
    forall c <- v.children :: Roomy(c, m)
  }

  /** The frame is at least the node's desired size. */
  ghost predicate FitsIn(v: View, f: Frame, m: Metrics)
  {
    Roomy(v, m) && f.w >= Want(v, m).w && f.h >= Want(v, m).h
  }

  predicate Inside(inner: Frame, outer: Frame)
  {
    outer.x <= inner.x && outer.y <= inner.y &&
    inner.x + inner.w <= outer.x + outer.w && inner.y + inner.h <= outer.y + outer.h
  }

  function Start(horiz: bool, f: Frame): real { if horiz then f.x else f.y }

  function Extent(horiz: bool, f: Frame): real { if horiz then f.w else f.h }

  /** The extents of the first `k` frames and the gaps between and after them. */
  function Used(slots: seq<Frame>, k: nat, horiz: bool, spacing: real): real
    requires k <= |slots|
  {
    if k == 0 then 0.0 else Used(slots, k - 1, horiz, spacing) + Extent(horiz, slots[k - 1]) + spacing
  }

  /** A linear stack's children follow each other with exactly `spacing` between them; when one
      of them grows they use up the inner extent exactly. */
  ghost predicate Chained(v: View, f: Frame, slots: seq<Frame>)
  {
    var horiz := v.axis == Horizontal;
    (slots != [] ==> Start(horiz, slots[0]) == Start(horiz, Inner(v, f))) &&
    (forall i | 0 < i < |slots| ::
       Start(horiz, slots[i]) == Start(horiz, slots[i - 1]) + Extent(horiz, slots[i - 1]) + v.spacing) &&
    ((exists c <- v.children :: c.grow > 0.0) ==>
       Used(slots, |slots|, horiz, v.spacing) - v.spacing == Extent(horiz, Inner(v, f)))
  }

  /** The frames of a node's children, read from the table. */
  ghost function KidFrames(v: View, fs: seq<Frame>): seq<Frame>
    requires forall c <- v.children :: c.id < |fs|
  {
    seq(|v.children|, i requires 0 <= i < |v.children| => fs[v.children[i].id])
  }

  /** Every child has at least its desired size inside its parent's padded box, and linear
      stacks are chained; so on down the tree. */
  ghost predicate Good(v: View, fs: seq<Frame>, m: Metrics)
  {
    v.id < |fs| && (forall c <- v.children :: c.id < |fs|) &&
    (v.kind == Stack ==>
       (forall c <- v.children ::
          fs[c.id].w >= Want(c, m).w && fs[c.id].h >= Want(c, m).h &&
          Inside(fs[c.id], Inner(v, fs[v.id])) && Good(c, fs, m)) &&
       (v.axis != Depth ==> Chained(v, fs[v.id], KidFrames(v, fs))))
  }

  lemma {:induction false} MaxCrossBounds(cs: seq<View>, horiz: bool, m: Metrics, i: nat)
    requires i < |cs|
    ensures Cross(horiz, Want(cs[i], m)) <= MaxCross(cs, horiz, m)
  {
    hide Want;
    if i < |cs| - 1 {
      MaxCrossBounds(cs[..|cs| - 1], horiz, m, i);
    }
  }

  lemma WantNonNegative(v: View, m: Metrics)
    requires Plain(v) && Roomy(v, m)
    ensures Want(v, m).w >= 0.0 && Want(v, m).h >= 0.0
  {
    hide Content;
  }

  lemma SharesAdd(free: real, a: real, b: real, total: real)
    requires total > 0.0
    ensures Share(free, a, total) + Share(free, b, total) == Share(free, a + b, total)
    ensures Share(free, 0.0, total) == 0.0 && Share(free, total, total) == free
  {
    assert free * (a + b) == free * a + free * b;
  }

  lemma ShareNonNegative(free: real, a: real, total: real)
    requires total > 0.0 && free >= 0.0 && a >= 0.0
    ensures Share(free, a, total) >= 0.0
  {
    assert free * a >= 0.0;
  }

  lemma {:induction false} SumGrowPositive(cs: seq<View>)
    requires forall c <- cs :: c.grow >= 0.0
    ensures SumGrow(cs) >= 0.0
    ensures (exists c <- cs :: c.grow > 0.0) <==> SumGrow(cs) > 0.0
  {
    if cs != [] {
      SumGrowPositive(cs[..|cs| - 1]);
      assert cs == cs[..|cs| - 1] + [cs[|cs| - 1]];
    }
  }

  function Repeat(gap: real, k: nat): real { if k == 0 then 0.0 else Repeat(gap, k - 1) + gap }

  lemma {:induction false} RepeatIsProduct(gap: real, k: nat)
    ensures Repeat(gap, k) == gap * k as real
  {
    if k > 0 {
      RepeatIsProduct(gap, k - 1);
      assert gap * k as real == gap * (k - 1) as real + gap;
    }
  }

  /** Where the children before `k` end: their sizes, their shares of the free space, their gaps. */
  lemma {:induction false} AdvanceIs(v: View, f: Frame, k: nat, m: Metrics)
    requires k <= |v.children| && forall c <- v.children :: !c.fill
    ensures var cs, total := v.children, SumGrow(v.children);
            Advance(v, f, k, m) ==
              SumMain(cs[..k], v.axis == Horizontal, m) +
              (if total > 0.0 then Share(Freedom(v, f, m), SumGrow(cs[..k]), total) else 0.0) + Repeat(v.spacing, k)
  {
    hide Freedom;
    hide Want;
    hide Share;
    var cs, total, horiz := v.children, SumGrow(v.children), v.axis == Horizontal;
    if total > 0.0 {
      SharesAdd(Freedom(v, f, m), 0.0, 0.0, total);
    }
    if k > 0 {
      AdvanceIs(v, f, k - 1, m);
      assert cs[..k][..k - 1] == cs[..k - 1];
      assert SumMain(cs[..k], horiz, m) == SumMain(cs[..k - 1], horiz, m) + Main(horiz, Want(cs[k - 1], m));
      assert SumGrow(cs[..k]) == SumGrow(cs[..k - 1]) + cs[k - 1].grow;
      if total > 0.0 {
        SharesAdd(Freedom(v, f, m), SumGrow(cs[..k - 1]), cs[k - 1].grow, total);
      }
    }
  }

  /** All children together: at most the inner extent, and exactly that much if one grows. */
  lemma AdvanceEnd(v: View, f: Frame, m: Metrics)
    requires Plain(v) && FitsIn(v, f, m) && v.kind == Stack && v.axis != Depth && v.children != []
    ensures var end := Advance(v, f, |v.children|, m) - v.spacing;
            end <= Extent(v.axis == Horizontal, Inner(v, f)) &&
            (SumGrow(v.children) > 0.0 ==> end == Extent(v.axis == Horizontal, Inner(v, f)))
  {
    hide SumMain;
    hide SumGrow;
    hide MaxCross;
    hide Advance;
    hide Roomy;
    hide Share;
    var n := |v.children|;
    assert v.children[..n] == v.children;
    AdvanceIs(v, f, n, m);
    RoomyContent(v, m);
    if SumGrow(v.children) > 0.0 {
      SharesAdd(Freedom(v, f, m), 0.0, 0.0, SumGrow(v.children));
    }
    RepeatIsProduct(v.spacing, n - 1);
  }

  lemma RoomyContent(v: View, m: Metrics)
    requires Roomy(v, m)
    ensures Content(v, m).w >= 0.0 && Content(v, m).h >= 0.0
    ensures Want(v, m).w - 2.0 * v.padding >= Content(v, m).w && Want(v, m).h - 2.0 * v.padding >= Content(v, m).h
  {
    hide Content;
  }

  /** In a plain linear stack every child gets at least its size along the axis. */
  lemma MainFits(v: View, f: Frame, i: nat, m: Metrics)
    requires Plain(v) && Roomy(v, m) && v.kind == Stack && v.axis != Depth && i < |v.children|
    ensures MainExtent(v, f, v.children[i], m) >= Main(v.axis == Horizontal, Want(v.children[i], m)) >= 0.0
  {
    hide SumGrow;
    hide Want;
    hide Share;
    var c := v.children[i];
    WantNonNegative(c, m);
    if SumGrow(v.children) > 0.0 {
      ShareNonNegative(Freedom(v, f, m), c.grow, SumGrow(v.children));
    }
  }

  lemma {:induction false} AdvanceMonotone(v: View, f: Frame, i: nat, k: nat, m: Metrics)
    requires Plain(v) && Roomy(v, m) && v.kind == Stack && v.axis != Depth && i < k <= |v.children|
    ensures 0.0 <= Advance(v, f, i, m)
    ensures Advance(v, f, i, m) + MainExtent(v, f, v.children[i], m) <= Advance(v, f, k, m) - v.spacing
    decreases k
  {
    hide MainExtent;
    hide Roomy;
    MainFits(v, f, i, m);
    if i > 0 {
      MainFits(v, f, i - 1, m);
      AdvanceMonotone(v, f, i - 1, i, m);
    }
    if i < k - 1 {
      MainFits(v, f, k - 1, m);
      AdvanceMonotone(v, f, i, k - 1, m);
    }
  }

  lemma CrossFits(v: View, f: Frame, i: nat, m: Metrics)
    requires Plain(v) && FitsIn(v, f, m) && v.kind == Stack && v.axis != Depth && i < |v.children|
    ensures var room := Extent(v.axis != Horizontal, Inner(v, f));
            0.0 <= Cross(v.axis == Horizontal, Want(v.children[i], m)) <= CrossExtent(v, f, v.children[i], m) <= room
  {
    hide Roomy;
    RoomyKid(v, i, m);
    RoomyContent(v, m);
    WantNonNegative(v.children[i], m);
    MaxCrossBounds(v.children, v.axis == Horizontal, m, i);
    hide MaxCross;
    hide SumMain;
  }

  lemma RoomyKid(v: View, i: nat, m: Metrics)
    requires i < |v.children|
    ensures Roomy(v, m) ==> Roomy(v.children[i], m)
    ensures Plain(v) ==> Plain(v.children[i])
  {
  }

  lemma LinearSlot(v: View, f: Frame, i: nat, m: Metrics)
    requires i < |v.children| && !v.absChildren && v.axis != Depth
    ensures var along, across := MainExtent(v, f, v.children[i], m), CrossExtent(v, f, v.children[i], m);
            Slot(v, f, i, m) ==
              if v.axis == Horizontal then
                Frame(f.x + v.padding + Advance(v, f, i, m),
                      f.y + v.padding + AlignOffset(v.align, f.h - 2.0 * v.padding - across), along, across)
              else
                Frame(f.x + v.padding + AlignOffset(v.align, f.w - 2.0 * v.padding - across),
                      f.y + v.padding + Advance(v, f, i, m), across, along)
  {
  }

  lemma SlotFits(v: View, f: Frame, i: nat, m: Metrics)
    requires Plain(v) && FitsIn(v, f, m) && v.kind == Stack && i < |v.children|
    ensures var s := Slot(v, f, i, m); FitsIn(v.children[i], s, m) && Inside(s, Inner(v, f))
  {
    RoomyKid(v, i, m);
    if v.axis == Depth {
      DepthFits(v, f, i, m);
    } else {
      hide Roomy;
      hide Want;
      hide Slot;
      hide CrossExtent;
      hide MainExtent;
      hide Advance;
      AdvanceMonotone(v, f, i, |v.children|, m);
      AdvanceEnd(v, f, m);
      MainFits(v, f, i, m);
      CrossFits(v, f, i, m);
      LinearSlot(v, f, i, m);
    }
  }

  lemma DepthFits(v: View, f: Frame, i: nat, m: Metrics)
    requires Plain(v) && FitsIn(v, f, m) && v.kind == Stack && v.axis == Depth && i < |v.children|
    ensures var s, want := Slot(v, f, i, m), Want(v.children[i], m);
            s.w >= want.w && s.h >= want.h && Inside(s, Inner(v, f))
  {
    RoomyKid(v, i, m);
    RoomyContent(v, m);
    WantNonNegative(v.children[i], m);
    MaxCrossBounds(v.children, false, m, i);
    MaxCrossBounds(v.children, true, m, i);
    hide Roomy;
    hide MaxCross;
    hide SumMain;
  }

  lemma {:induction false} UsedIs(v: View, f: Frame, slots: seq<Frame>, k: nat, m: Metrics)
    requires Plain(v) && v.axis != Depth && |slots| == |v.children| && k <= |slots|
    requires forall i | 0 <= i < |slots| :: slots[i] == Slot(v, f, i, m)
    ensures Used(slots, k, v.axis == Horizontal, v.spacing) == Advance(v, f, k, m)
  {
    hide MainExtent;
    hide CrossExtent;
    if k > 0 {
      UsedIs(v, f, slots, k - 1, m);
    }
  }

  lemma SlotsChained(v: View, f: Frame, slots: seq<Frame>, m: Metrics)
    requires Plain(v) && FitsIn(v, f, m) && v.kind == Stack && v.axis != Depth && |slots| == |v.children|
    requires forall i | 0 <= i < |slots| :: slots[i] == Slot(v, f, i, m)
    ensures Chained(v, f, slots)
  {
    hide MainExtent;
    hide CrossExtent;
    hide Roomy;
    hide Want;
    if slots != [] {
      SumGrowPositive(v.children);
      AdvanceEnd(v, f, m);
      UsedIs(v, f, slots, |slots|, m);
    }
  }

  /** A plain tree laid out at no less than its measured size is laid out well. */
  lemma {:induction false} PlacedIsGood(v: View, b: Frame, fs: seq<Frame>, cs0: seq<Cell>, cs: seq<Cell>, m: Metrics)
    requires Plain(v) && FitsIn(v, Shifted(v, b), m) && Placed(v, b, fs, cs0, cs, m)
    requires forall i <- Ids(v) :: i < |fs|
    ensures Good(v, fs, m)
    decreases v
  {
    hide Slot;
    hide Want;
    hide Chained;
    hide Roomy;
    var f := Shifted(v, b);
    forall c | c in v.children
      ensures c.id < |fs|
    {
      var i :| 0 <= i < |v.children| && v.children[i] == c;
      KidIn(v.children, i);
      assert c.id in Ids(c) && Ids(c) <= Ids(v);
    }
    if v.kind == Stack {
      forall c | c in v.children
        ensures fs[c.id].w >= Want(c, m).w && fs[c.id].h >= Want(c, m).h
        ensures Inside(fs[c.id], Inner(v, f)) && Good(c, fs, m)
      {
        var i :| 0 <= i < |v.children| && v.children[i] == c;
        KidIn(v.children, i);
        assert Ids(c) <= Ids(v);
        SlotFits(v, f, i, m);
        assert Shifted(c, Slot(v, f, i, m)) == Slot(v, f, i, m);
        PlacedIsGood(c, Slot(v, f, i, m), fs, cs0, cs, m);
      }
      if v.axis != Depth {
        SlotsChained(v, f, KidFrames(v, fs), m);
      }
    }
  }

  // ---------------------------------------------------------------- where everything sits

  /** The frame of a node without the node's own offset. */
  function Box(c: View, fs: seq<Frame>): Frame
    requires c.id < |fs|
  {
    Frame(fs[c.id].x - c.offX, fs[c.id].y - c.offY, fs[c.id].w, fs[c.id].h)
  }

  /** A span sits in an extent as the alignment says. */
  predicate Sits(align: Align, start: real, end: real, from: real, to: real)
  {
    match align
    case Leading => start == from
    case Trailing => end == to
    case Center => start - from == to - end
  }

  /** Across a stack, nested stacks of no fixed size and viewports stretch, and so does what asks for
      nothing or for too much; everything else gets what it asks for. */
  predicate Spans(c: View, fixed: real, want: real, extent: real, room: real)
  {
    extent == if c.fill || (c.kind == Stack && fixed <= 0.0) || c.kind == Scroll || want <= 0.0 || want > room then room else want
  }

  /** A child's box `g` in a stack of frame `f`. */
  predicate SitsIn(v: View, f: Frame, c: View, g: Frame, m: Metrics)
  {
    var left, top, right, bottom := f.x + v.padding, f.y + v.padding, f.x + f.w - v.padding, f.y + f.h - v.padding;
    var want := Want(c, m);
    if v.absChildren then
      && g.x == left && g.y == f.y + c.layoutY
      && g.w == (if c.fixedW > 0.0 then c.fixedW else right - left) && g.h == (if c.fixedH > 0.0 then c.fixedH else want.h)
    else if v.axis == Depth then
      && Sits(Center, g.x, g.x + g.w, left, right) && Sits(Center, g.y, g.y + g.h, top, bottom)
      && g.w == (if c.fill || want.w <= 0.0 then right - left else want.w)
      && g.h == (if c.fill || want.h <= 0.0 then bottom - top else want.h)
    else if v.axis == Horizontal then
      && Sits(v.align, g.y, g.y + g.h, top, bottom) && Spans(c, c.fixedH, want.h, g.h, bottom - top)
      && (c.fill ==> g.w == right - left)
      && (!c.fill && (forall k <- v.children :: k.grow == 0.0) ==> g.w == want.w)
    else
      && Sits(v.align, g.x, g.x + g.w, left, right) && Spans(c, c.fixedW, want.w, g.w, right - left)
      && (c.fill ==> g.h == bottom - top)
      && (!c.fill && (forall k <- v.children :: k.grow == 0.0) ==> g.h == want.h)
  }

  /** What a child of a linear stack gets along the axis beyond what it asks for. */
  function Extra(v: View, c: View, fs: seq<Frame>, m: Metrics): real
    requires c.id < |fs|
  {
    if v.axis == Horizontal then Box(c, fs).w - Want(c, m).w else Box(c, fs).h - Want(c, m).h
  }

  /** Child `i` of a linear stack starts where the padded box starts, or `spacing` behind the child
      before it. */
  ghost predicate Follows(v: View, f: Frame, i: nat, fs: seq<Frame>)
    requires i < |v.children| && forall c <- v.children :: c.id < |fs|
  {
    var g := Box(v.children[i], fs);
    if i == 0 then if v.axis == Horizontal then g.x == f.x + v.padding else g.y == f.y + v.padding
    else
      var b := Box(v.children[i - 1], fs);
      if v.axis == Horizontal then g.x == b.x + b.w + v.spacing else g.y == b.y + b.h + v.spacing
  }

  ghost predicate StackArranged(v: View, fs: seq<Frame>, m: Metrics)
    requires v.id < |fs|
  {
    var f := fs[v.id];
    && (forall c <- v.children :: c.id < |fs|)
    && (forall c <- v.children :: SitsIn(v, f, c, Box(c, fs), m))
    && (!v.absChildren && v.axis != Depth ==>
          && (forall i | 0 <= i < |v.children| :: Follows(v, f, i, fs))
          && (forall b, c | b in v.children && c in v.children && !b.fill && !c.fill ::
                Extra(v, b, fs, m) * c.grow == Extra(v, c, fs, m) * b.grow))
  }

  /** A viewport's content is as wide as the viewport and lies above it by the scroll offset. */
  ghost predicate ContentArranged(v: View, c: View, fs: seq<Frame>, cs: seq<Cell>, m: Metrics)
    requires v.id < |fs|
  {
    c.id < |fs| &&
    var f, g := fs[v.id], Box(c, fs);
    && g.x == f.x && g.w == f.w
    && g.y == f.y - (if v.scroll.Some? && v.scroll.value < |cs| then cs[v.scroll.value].offset else 0.0)
    && g.h == if c.contentH > 0.0 then c.contentH else Want(c, m).h
  }

  /** Every node of a laid-out tree sits where its parent's alignment, axis, padding and spacing say,
      and children that grow share what is left in proportion to their weights. */
  ghost predicate Arranged(v: View, fs: seq<Frame>, cs: seq<Cell>, m: Metrics)
  {
    v.id < |fs| &&
    if v.kind == Scroll then v.children != [] ==> ContentArranged(v, v.children[0], fs, cs, m) && Arranged(v.children[0], fs, cs, m)
    else v.kind == Stack ==> StackArranged(v, fs, m) && forall c <- v.children :: Arranged(c, fs, cs, m)
  }

  lemma {:induction false} PlacedIsArranged(v: View, b: Frame, fs: seq<Frame>, cs0: seq<Cell>, cs: seq<Cell>, m: Metrics)
    requires Placed(v, b, fs, cs0, cs, m)
    ensures Arranged(v, fs, cs, m)
    decreases v
  {
    hide Want;
    hide StackArranged;
    var f := Shifted(v, b);
    if v.kind == Scroll {
      if v.children != [] {
        var c := v.children[0];
        PlacedIsArranged(c, Frame(f.x, f.y - OffsetOf(v, cs), f.w, ContentHeight(c, m)), fs, cs0, cs, m);
      }
    } else if v.kind == Stack {
      forall i | 0 <= i < |v.children|
        ensures v.children[i].id < |fs| && Box(v.children[i], fs) == Slot(v, f, i, m) && Arranged(v.children[i], fs, cs, m)
      {
        assert Placed(v.children[i], Slot(v, f, i, m), fs, cs0, cs, m);
        PlacedIsArranged(v.children[i], Slot(v, f, i, m), fs, cs0, cs, m);
      }
      SlotsArranged(v, fs, m);
    }
  }

  lemma SlotsArranged(v: View, fs: seq<Frame>, m: Metrics)
    requires v.id < |fs|
    requires forall i | 0 <= i < |v.children| :: v.children[i].id < |fs| && Box(v.children[i], fs) == Slot(v, fs[v.id], i, m)
    ensures StackArranged(v, fs, m)
  {
    hide Slot;
    hide Want;
    hide Box;
    hide Extra;
    hide SitsIn;
    hide Follows;
    AllSit(v, fs, m);
    if !v.absChildren && v.axis != Depth {
      AllFollow(v, fs, m);
      ExtrasShared(v, fs, m);
    }
  }

  lemma AllSit(v: View, fs: seq<Frame>, m: Metrics)
    requires v.id < |fs|
    requires forall i | 0 <= i < |v.children| :: v.children[i].id < |fs| && Box(v.children[i], fs) == Slot(v, fs[v.id], i, m)
    ensures forall c <- v.children :: c.id < |fs|
    ensures forall c <- v.children :: SitsIn(v, fs[v.id], c, Box(c, fs), m)
  {
    hide Slot;
    hide Want;
    hide Box;
    hide SitsIn;
    forall c | c in v.children
      ensures c.id < |fs| && SitsIn(v, fs[v.id], c, Box(c, fs), m)
    {
      var i :| 0 <= i < |v.children| && v.children[i] == c;
      SlotSits(v, fs[v.id], i, m);
    }
  }

  lemma AllFollow(v: View, fs: seq<Frame>, m: Metrics)
    requires v.id < |fs| && !v.absChildren && v.axis != Depth && forall c <- v.children :: c.id < |fs|
    requires forall i | 0 <= i < |v.children| :: Box(v.children[i], fs) == Slot(v, fs[v.id], i, m)
    ensures forall i | 0 <= i < |v.children| :: Follows(v, fs[v.id], i, fs)
  {
    hide Slot;
    hide Want;
    hide Box;
    forall i | 0 <= i < |v.children|
      ensures Follows(v, fs[v.id], i, fs)
    {
      SlotFollows(v, fs[v.id], i, m);
    }
  }

  lemma ExtrasShared(v: View, fs: seq<Frame>, m: Metrics)
    requires v.id < |fs| && !v.absChildren && v.axis != Depth
    requires forall i | 0 <= i < |v.children| :: v.children[i].id < |fs| && Box(v.children[i], fs) == Slot(v, fs[v.id], i, m)
    ensures forall c <- v.children :: c.id < |fs|
    ensures forall b, c | b in v.children && c in v.children && !b.fill && !c.fill ::
              Extra(v, b, fs, m) * c.grow == Extra(v, c, fs, m) * b.grow
  {
    hide Slot;
    hide Want;
    hide Box;
    forall b, c | b in v.children && c in v.children && !b.fill && !c.fill
      ensures Extra(v, b, fs, m) * c.grow == Extra(v, c, fs, m) * b.grow
    {
      var i :| 0 <= i < |v.children| && v.children[i] == b;
      var j :| 0 <= j < |v.children| && v.children[j] == c;
      SlotsShare(v, fs[v.id], i, j, m);
    }
  }

  lemma SlotSits(v: View, f: Frame, i: nat, m: Metrics)
    requires i < |v.children|
    ensures SitsIn(v, f, v.children[i], Slot(v, f, i, m), m)
  {
    hide Want;
    if forall k <- v.children :: k.grow == 0.0 {
      NoneGrows(v.children);
    }
  }

  lemma {:induction false} NoneGrows(cs: seq<View>)
    requires forall k <- cs :: k.grow == 0.0
    ensures SumGrow(cs) == 0.0
  {
    if cs != [] {
      NoneGrows(cs[..|cs| - 1]);
    }
  }

  lemma SlotFollows(v: View, f: Frame, i: nat, m: Metrics)
    requires i < |v.children| && !v.absChildren && v.axis != Depth
    ensures var g := Slot(v, f, i, m);
            if i == 0 then if v.axis == Horizontal then g.x == f.x + v.padding else g.y == f.y + v.padding
            else
              var b := Slot(v, f, i - 1, m);
              if v.axis == Horizontal then g.x == b.x + b.w + v.spacing else g.y == b.y + b.h + v.spacing
  {
    hide Want;
    hide MainExtent;
    hide CrossExtent;
  }

  lemma SlotsShare(v: View, f: Frame, i: nat, j: nat, m: Metrics)
    requires i < |v.children| && j < |v.children| && !v.absChildren && v.axis != Depth
    requires !v.children[i].fill && !v.children[j].fill
    ensures var b, c, x, y := v.children[i], v.children[j], Slot(v, f, i, m), Slot(v, f, j, m);
            if v.axis == Horizontal then (x.w - Want(b, m).w) * c.grow == (y.w - Want(c, m).w) * b.grow
            else (x.h - Want(b, m).h) * c.grow == (y.h - Want(c, m).h) * b.grow
  {
    hide Want;
    hide CrossExtent;
    hide Freedom;
    hide Advance;
    hide AlignOffset;
    var free, total := Freedom(v, f, m), SumGrow(v.children);
    if total > 0.0 {
      SharesCross(free, v.children[i].grow, v.children[j].grow, total);
    }
    hide SumGrow;
    hide Share;
  }

  /** The end of a stack's last child along its axis, and how far its widest child reaches across. */
  ghost predicate Tight(v: View, fs: seq<Frame>)
    requires v.id < |fs| && v.children != [] && forall c <- v.children :: c.id < |fs|
  {
    var f, last := fs[v.id], fs[v.children[|v.children| - 1].id];
    if v.axis == Horizontal then
      last.x + last.w == f.x + f.w - v.padding && exists c <- v.children :: fs[c.id].h == f.h - 2.0 * v.padding
    else
      last.y + last.h == f.y + f.h - v.padding && exists c <- v.children :: fs[c.id].w == f.w - 2.0 * v.padding
  }

  /** A plain linear stack that gets exactly the size it asks for is filled exactly: what it asks for is
      what its children, the gaps and the padding take. */
  lemma WantIsTight(v: View, b: Frame, fs: seq<Frame>, cs0: seq<Cell>, cs: seq<Cell>, m: Metrics)
    requires Plain(v) && FitsIn(v, Shifted(v, b), m) && Placed(v, b, fs, cs0, cs, m)
    requires v.kind == Stack && v.axis != Depth && v.children != [] && v.fixedW == 0.0 && v.fixedH == 0.0
    requires b.w == Want(v, m).w && b.h == Want(v, m).h
    ensures v.id < |fs| && (forall c <- v.children :: c.id < |fs|) && Tight(v, fs)
  {
    var f := Shifted(v, b);
    var n, horiz := |v.children|, v.axis == Horizontal;
    forall i | 0 <= i < n
      ensures v.children[i].id < |fs| && fs[v.children[i].id] == Slot(v, f, i, m)
    {
      KidAtSlot(v, b, i, fs, cs0, cs, m);
    }
    assert v.id < |fs| && fs[v.id] == f && forall c <- v.children :: c.id < |fs|;
    hide Placed;
    hide Slot;
    hide Want;
    TightEnd(v, f, m);
    forall c | c in v.children
      ensures Cross(horiz, Want(c, m)) >= 0.0
    {
      WantNonNegative(c, m);
    }
    var k := Widest(v.children, horiz, m);
    TightAcross(v, f, k, m);
    hide *;
    TightSlots(v, fs, f, k, m);
  }

  lemma TightSlots(v: View, fs: seq<Frame>, f: Frame, k: nat, m: Metrics)
    requires v.id < |fs| && fs[v.id] == f && k < |v.children| && forall c <- v.children :: c.id < |fs|
    requires forall i | 0 <= i < |v.children| :: fs[v.children[i].id] == Slot(v, f, i, m)
    requires var g := Slot(v, f, |v.children| - 1, m);
             if v.axis == Horizontal then g.x + g.w == f.x + f.w - v.padding else g.y + g.h == f.y + f.h - v.padding
    requires if v.axis == Horizontal then Slot(v, f, k, m).h == f.h - 2.0 * v.padding else Slot(v, f, k, m).w == f.w - 2.0 * v.padding
    ensures Tight(v, fs)
  {
    hide Slot;
    assert v.children[k] in v.children;
  }

  lemma KidAtSlot(v: View, b: Frame, i: nat, fs: seq<Frame>, cs0: seq<Cell>, cs: seq<Cell>, m: Metrics)
    requires Placed(v, b, fs, cs0, cs, m) && v.kind == Stack && i < |v.children| && Plain(v)
    ensures v.children[i].id < |fs| && fs[v.children[i].id] == Slot(v, Shifted(v, b), i, m)
  {
    hide Slot;
    assert Placed(v.children[i], Slot(v, Shifted(v, b), i, m), fs, cs0, cs, m) && v.children[i] in v.children;
  }

  /** Along the axis: the children's sizes and the gaps are all there is. */
  lemma TightEnd(v: View, f: Frame, m: Metrics)
    requires Plain(v) && FitsIn(v, f, m) && v.kind == Stack && v.axis != Depth && v.children != [] && v.fixedW == 0.0 && v.fixedH == 0.0
    requires f.w == Want(v, m).w && f.h == Want(v, m).h
    ensures var g := Slot(v, f, |v.children| - 1, m);
            if v.axis == Horizontal then g.x + g.w == f.x + f.w - v.padding else g.y + g.h == f.y + f.h - v.padding
  {
    WantIs(v, m);
    TightAdvance(v, f, m);
    hide Want;
    hide MainExtent;
    hide CrossExtent;
    hide Roomy;
    hide Plain;
  }

  /** The size of an unfixed linear stack. */
  lemma WantIs(v: View, m: Metrics)
    requires v.kind == Stack && !v.absChildren && v.axis != Depth && v.fixedW == 0.0 && v.fixedH == 0.0
    ensures var horiz := v.axis == Horizontal;
            && Main(horiz, Want(v, m)) == SumMain(v.children, horiz, m) + Gaps(v) + 2.0 * v.padding
            && Cross(horiz, Want(v, m)) == MaxCross(v.children, horiz, m) + 2.0 * v.padding
  {
    hide SumMain;
    hide MaxCross;
  }

  lemma TightAdvance(v: View, f: Frame, m: Metrics)
    requires Plain(v) && v.kind == Stack && v.axis != Depth && v.children != []
    requires var horiz := v.axis == Horizontal;
             Main(horiz, Size(f.w, f.h)) == SumMain(v.children, horiz, m) + Gaps(v) + 2.0 * v.padding
    ensures Advance(v, f, |v.children|, m) - v.spacing == Extent(v.axis == Horizontal, Inner(v, f))
  {
    var n := |v.children|;
    assert v.children[..n] == v.children;
    assert forall c <- v.children :: !c.fill && c.grow >= 0.0;
    hide Plain;
    hide SumMain;
    hide SumGrow;
    hide Advance;
    AdvanceIs(v, f, n, m);
    assert Freedom(v, f, m) == 0.0;
    hide Freedom;
    assert Repeat(v.spacing, n) == Repeat(v.spacing, n - 1) + v.spacing;
    RepeatIsProduct(v.spacing, n - 1);
    assert Repeat(v.spacing, n - 1) == Gaps(v);
    hide Repeat;
    hide Gaps;
    assert forall total: real | total > 0.0 :: Share(0.0, SumGrow(v.children), total) == 0.0;
    hide Share;
  }

  lemma {:induction false} Widest(cs: seq<View>, horiz: bool, m: Metrics) returns (k: nat)
    requires cs != [] && forall c <- cs :: Cross(horiz, Want(c, m)) >= 0.0
    ensures k < |cs| && Cross(horiz, Want(cs[k], m)) == MaxCross(cs, horiz, m)
  {
    hide Want;
    var n := |cs| - 1;
    if n == 0 {
      k := 0;
    } else {
      k := Widest(cs[..n], horiz, m);
      if Cross(horiz, Want(cs[n], m)) > MaxCross(cs[..n], horiz, m) {
        k := n;
      }
    }
  }

  lemma TightAcross(v: View, f: Frame, k: nat, m: Metrics)
    requires Plain(v) && Roomy(v, m) && v.kind == Stack && v.axis != Depth && v.fixedW == 0.0 && v.fixedH == 0.0
    requires k < |v.children| && Cross(v.axis == Horizontal, Want(v.children[k], m)) == MaxCross(v.children, v.axis == Horizontal, m)
    requires f.w == Want(v, m).w && f.h == Want(v, m).h
    ensures if v.axis == Horizontal then Slot(v, f, k, m).h == f.h - 2.0 * v.padding else Slot(v, f, k, m).w == f.w - 2.0 * v.padding
  {
    hide SumMain;
    hide MaxCross;
    hide MainExtent;
    hide Advance;
    hide AlignOffset;
  }

  /** A plain overlay that gets exactly the size it asks for has a child as wide as its padded box and one
      as high. */
  lemma OverlayIsTight(v: View, b: Frame, fs: seq<Frame>, cs0: seq<Cell>, cs: seq<Cell>, m: Metrics)
    requires Plain(v) && FitsIn(v, Shifted(v, b), m) && Placed(v, b, fs, cs0, cs, m)
    requires v.kind == Stack && v.axis == Depth && v.children != [] && v.fixedW == 0.0 && v.fixedH == 0.0
    requires b.w == Want(v, m).w && b.h == Want(v, m).h
    ensures v.id < |fs| && forall c <- v.children :: c.id < |fs|
    ensures exists c <- v.children :: fs[c.id].w == fs[v.id].w - 2.0 * v.padding
    ensures exists c <- v.children :: fs[c.id].h == fs[v.id].h - 2.0 * v.padding
  {
    var f := Shifted(v, b);
    forall i | 0 <= i < |v.children|
      ensures v.children[i].id < |fs| && fs[v.children[i].id] == Slot(v, f, i, m)
    {
      KidAtSlot(v, b, i, fs, cs0, cs, m);
    }
    assert v.id < |fs| && fs[v.id] == f && forall c <- v.children :: c.id < |fs|;
    forall c | c in v.children
      ensures Want(c, m).w >= 0.0 && Want(c, m).h >= 0.0
    {
      WantNonNegative(c, m);
    }
    hide Placed;
    var i := Widest(v.children, false, m);
    var j := Widest(v.children, true, m);
    assert v.children[i] in v.children && v.children[j] in v.children;
    hide MaxCross;
    hide Roomy;
    OverlayWant(v, m);
    hide Want;
    assert Slot(v, f, i, m).w == f.w - 2.0 * v.padding;
    assert Slot(v, f, j, m).h == f.h - 2.0 * v.padding;
  }

  lemma OverlayWant(v: View, m: Metrics)
    requires v.kind == Stack && !v.absChildren && v.axis == Depth && v.fixedW == 0.0 && v.fixedH == 0.0
    ensures Want(v, m).w == MaxCross(v.children, false, m) + 2.0 * v.padding
    ensures Want(v, m).h == MaxCross(v.children, true, m) + 2.0 * v.padding
  {
    hide MaxCross;
  }

  /** What leaves ask for. */
  lemma LeavesWant(v: View, m: Metrics)
    requires v.kind != Stack
    ensures var w, p := Want(v, m), 2.0 * v.padding;
            match v.kind
            case Text =>
              && w.w == (if v.fixedW > 0.0 then v.fixedW else m(v.text, v.fontSize).w) + p
              && w.h == (if v.fixedH > 0.0 then v.fixedH else m(v.text, v.fontSize).h) + p
            case Scroll => w.w == MaxReal(v.fixedW, 0.0) + p && w.h == MaxReal(v.fixedH, 0.0) + p
            case _ => w.w == v.fixedW + p && w.h == v.fixedH + p
  {
  }

  lemma SharesCross(free: real, a: real, b: real, total: real)
    requires total > 0.0
    ensures Share(free, a, total) * b == Share(free, b, total) * a
  {
    var p, q := free * a / total, free * b / total;
    assert p * total == free * a && q * total == free * b;
    assert (p * b) * total == (p * total) * b == free * a * b;
    assert (q * a) * total == (q * total) * a == free * b * a;
  }

  // ---------------------------------------------------------------- the passes

  ghost predicate SameOff(ids: set<nat>, fs: seq<Frame>, gs: seq<Frame>)
  {
    |fs| == |gs| && forall i | 0 <= i < |fs| && i !in ids :: fs[i] == gs[i]
  }

  ghost predicate SameCellsOff(ids: set<nat>, cs: seq<Cell>, ds: seq<Cell>)
  {
    |cs| == |ds| && forall k | 0 <= k < |cs| && k !in ids :: cs[k] == ds[k]
  }

  /** Half-way through a node's children: the first `k` are placed, the others still measured,
      and nothing but the first `k` subtrees was written. */
  ghost predicate Progress(v: View, f: Frame, k: nat, fs0: seq<Frame>, fs: seq<Frame>, cs0: seq<Cell>, cs: seq<Cell>, m: Metrics)
  {
    k <= |v.children| &&
    SameOff(KidIds(v.children[..k]), fs0, fs) && SameCellsOff(KidCells(v.children[..k]), cs0, cs) &&
    (forall i | 0 <= i < k :: Placed(v.children[i], Slot(v, f, i, m), fs, cs0, cs, m)) &&
    (forall i | k <= i < |v.children| :: Measured(v.children[i], fs, m))
  }

  lemma ProgressStart(v: View, f: Frame, fs: seq<Frame>, cs: seq<Cell>, m: Metrics)
    requires forall c <- v.children :: Measured(c, fs, m)
    ensures Progress(v, f, 0, fs, fs, cs, cs, m)
  {
  }

  /** Placing child `k` keeps what was done for the earlier children and leaves the later ones measured. */
  lemma ProgressStep(v: View, f: Frame, k: nat, fs0: seq<Frame>, fs: seq<Frame>, gs: seq<Frame>,
                     cs0: seq<Cell>, cs: seq<Cell>, ds: seq<Cell>, m: Metrics)
    requires k < |v.children| && Forest(v.children) && Progress(v, f, k, fs0, fs, cs0, cs, m)
    requires SameOff(Ids(v.children[k]), fs, gs) && SameCellsOff(CellIds(v.children[k]), cs, ds)
    requires Placed(v.children[k], Slot(v, f, k, m), gs, cs, ds, m)
    ensures Progress(v, f, k + 1, fs0, gs, cs0, ds, m)
  {
    hide Slot;
    hide Placed;
    hide Measured;
    var kids := v.children;
    assert kids[..k + 1][..k] == kids[..k];
    KidPrefix(kids, k + 1);
    forall i | 0 <= i < k
      ensures Placed(kids[i], Slot(v, f, i, m), gs, cs0, ds, m)
    {
      KidsApart(kids, i, k);
      PlacedFrame(kids[i], Slot(v, f, i, m), fs, gs, cs0, cs0, cs, ds, m);
    }
    assert SameCells(CellIds(kids[k]), cs, cs0);
    PlacedFrame(kids[k], Slot(v, f, k, m), gs, gs, cs, cs0, ds, ds, m);
    forall i | k + 1 <= i < |kids|
      ensures Measured(kids[i], gs, m)
    {
      KidsApart(kids, k, i);
      MeasuredFrame(kids[i], fs, gs, m);
    }
  }

  lemma ProgressNext(v: View, f: Frame, k: nat, fs0: seq<Frame>, fs: seq<Frame>, cs0: seq<Cell>, cs: seq<Cell>, m: Metrics)
    requires k < |v.children| && Progress(v, f, k, fs0, fs, cs0, cs, m)
    ensures Measured(v.children[k], fs, m)
  {
  }

  lemma KidsStillMeasured(v: View, fs: seq<Frame>, gs: seq<Frame>, m: Metrics)
    requires Tree(v) && (forall c <- v.children :: Measured(c, fs, m)) && SameOff({v.id}, fs, gs)
    ensures forall c <- v.children :: Measured(c, gs, m)
  {
    forall c | c in v.children
      ensures Measured(c, gs, m)
    {
      var i :| 0 <= i < |v.children| && v.children[i] == c;
      KidIn(v.children, i);
      MeasuredFrame(c, fs, gs, m);
    }
  }

  lemma PlacedScroll(v: View, b: Frame, fs: seq<Frame>, cs0: seq<Cell>, cs: seq<Cell>, m: Metrics)
    requires v.kind == Scroll && v.children != [] && v.id < |fs| && fs[v.id] == Shifted(v, b)
    requires var f, ch := Shifted(v, b), ContentHeight(v.children[0], m);
             Recorded(v, f, ch, cs0, cs) && Placed(v.children[0], Frame(f.x, f.y - OffsetOf(v, cs), f.w, ch), fs, cs0, cs, m)
    ensures Placed(v, b, fs, cs0, cs, m)
  {
  }

  /** A viewport has recorded its metrics, and then its content was placed. */
  lemma ScrollDone(v: View, b: Frame, fs0: seq<Frame>, fs: seq<Frame>, cs0: seq<Cell>, cs1: seq<Cell>, cs: seq<Cell>, m: Metrics)
    requires Tree(v) && InTable(v, |fs0|, |cs0|) && v.kind == Scroll && v.children != [] && v.id < |fs0| && fs0[v.id] == Shifted(v, b)
    requires var f, ch := Shifted(v, b), ContentHeight(v.children[0], m);
             && cs1 == (if v.scroll.None? || v.scroll.value >= |cs0| then cs0
                        else cs0[v.scroll.value := Cell(ClampOffset(cs0[v.scroll.value].offset, ch, f.h), f.h, ch)])
             && Placed(v.children[0], Frame(f.x, f.y - OffsetOf(v, cs1), f.w, ch), fs, cs1, cs, m)
             && SameOff(Ids(v.children[0]), fs0, fs) && SameCellsOff(CellIds(v.children[0]), cs1, cs)
    ensures Placed(v, b, fs, cs0, cs, m) && SameOff(KidIds(v.children), fs0, fs) && SameCellsOff(CellIds(v), cs0, cs)
  {
    hide Placed;
    hide Slot;
    hide ClampOffset;
    hide ContentHeight;
    var c, f := v.children[0], Shifted(v, b);
    KidIn(v.children, 0);
    KidInTable(v, 0, |fs0|, |cs0|);
    assert v.id in Ids(v) && v.id !in Ids(c);
    assert v.scroll.Some? ==> v.scroll.value in CellIds(v) && v.scroll.value !in CellIds(c);
    PlacedFrame(c, Frame(f.x, f.y - OffsetOf(v, cs1), f.w, ContentHeight(c, m)), fs, fs, cs1, cs0, cs, cs, m);
    PlacedScroll(v, b, fs, cs0, cs, m);
  }

  lemma PlacedLeaf(v: View, b: Frame, fs: seq<Frame>, cs0: seq<Cell>, cs: seq<Cell>, m: Metrics)
    requires v.id < |fs| && fs[v.id] == Shifted(v, b) && v.kind != Scroll && (v.kind != Stack || v.children == [])
    ensures Placed(v, b, fs, cs0, cs, m)
  {
  }

  lemma PlacedStack(v: View, b: Frame, fs: seq<Frame>, cs0: seq<Cell>, cs: seq<Cell>, m: Metrics)
    requires v.id < |fs| && fs[v.id] == Shifted(v, b) && v.kind == Stack
    requires forall i | 0 <= i < |v.children| :: Placed(v.children[i], Slot(v, Shifted(v, b), i, m), fs, cs0, cs, m)
    ensures Placed(v, b, fs, cs0, cs, m)
  {
  }

  /** A layout run over the tables of one build. */
  class Pass {
    var frames: seq<Frame>
    var cells: seq<Cell>
    const text: Metrics

    constructor (frames: seq<Frame>, cells: seq<Cell>, text: Metrics)
      ensures this.frames == frames && this.cells == cells && this.text == text
    {
      this.frames, this.cells, this.text := frames, cells, text;
    }

    /** Compute every node's desired size into its frame. */
    method Measure(v: View)
      requires Tree(v) && InTable(v, |frames|, |cells|)
      modifies this`frames
      ensures Measured(v, frames, text) && SameOff(Ids(v), old(frames), frames)
      decreases v, 1
    {
      hide SumMain;
      hide MaxCross;
      hide Tree;
      hide Gaps;
      assert v.id in Ids(v);
      MeasureKids(v);
      var pad2 := 2.0 * v.padding;
      var dw, dh := 0.0, 0.0;
      match v.kind {
        case Solid => dw, dh := v.fixedW, v.fixedH;
        case Spacer => dw, dh := v.fixedW, v.fixedH;
        case Scroll => dw, dh := 0.0, 0.0;
        case Text =>
          var s := text(v.text, v.fontSize);
          dw, dh := s.w, s.h;
        case Stack =>
          dw, dh := MeasureStack(v);
      }
      assert Size(dw, dh) == Content(v, text);
      hide Content;
      if v.fixedW > 0.0 { dw := v.fixedW; }
      if v.fixedH > 0.0 { dh := v.fixedH; }
      assert Size(dw + pad2, dh + pad2) == Want(v, text);
      hide Want;
      ghost var before := frames;
      frames := frames[v.id := frames[v.id].(w := dw + pad2, h := dh + pad2)];
      KidsStillMeasured(v, before, frames, text);
    }

    method MeasureKids(v: View)
      requires Tree(v) && InTable(v, |frames|, |cells|)
      modifies this`frames
      ensures forall c <- v.children :: Measured(c, frames, text)
      ensures SameOff(KidIds(v.children), old(frames), frames)
      decreases v, 0
    {
      hide Measured;
      var kids := v.children;
      for k := 0 to |kids|
        invariant SameOff(KidIds(kids[..k]), old(frames), frames)
        invariant forall i | 0 <= i < k :: Measured(kids[i], frames, text)
      {
        hide Tree;
        hide InTable;
        ghost var before := frames;
        KidInTable(v, k, |frames|, |cells|);
        Measure(kids[k]);
        KidsMeasuredMore(v, k, old(frames), before, frames, text);
      }
      assert kids[..|kids|] == kids;
    }

    /** The size of an overlay: the widest and the tallest child. */
    method MeasureDepth(kids: seq<View>) returns (dw: real, dh: real)
      requires forall c <- kids :: Measured(c, frames, text)
      ensures dw == MaxCross(kids, false, text) && dh == MaxCross(kids, true, text)
    {
      hide Measured;
      hide Want;
      dw, dh := 0.0, 0.0;
      for i := 0 to |kids|
        invariant dw == MaxCross(kids[..i], false, text) && dh == MaxCross(kids[..i], true, text)
      {
        assert kids[..i + 1][..i] == kids[..i];
        dw := MaxReal(dw, WidthOf(kids[i]));
        dh := MaxReal(dh, HeightOf(kids[i]));
      }
      assert kids[..|kids|] == kids;
    }

    /** What the children of a linear stack add up to along the axis, and the largest across it. */
    method MeasureLinear(kids: seq<View>, horiz: bool) returns (main: real, cross: real)
      requires forall c <- kids :: Measured(c, frames, text)
      ensures main == SumMain(kids, horiz, text) && cross == MaxCross(kids, horiz, text)
    {
      hide Measured;
      hide Want;
      main, cross := 0.0, 0.0;
      for i := 0 to |kids|
        invariant main == SumMain(kids[..i], horiz, text) && cross == MaxCross(kids[..i], horiz, text)
      {
        assert kids[..i + 1][..i] == kids[..i];
        var w, h := WidthOf(kids[i]), HeightOf(kids[i]);
        main := main + (if horiz then w else h);
        cross := MaxReal(cross, if horiz then h else w);
      }
      assert kids[..|kids|] == kids;
    }

    /** The content size of a stack, from its children's measured sizes. */
    method MeasureStack(v: View) returns (dw: real, dh: real)
      requires v.kind == Stack && forall c <- v.children :: Measured(c, frames, text)
      ensures Size(dw, dh) == Content(v, text)
    {
      hide Measured;
      hide Want;
      hide SumMain;
      hide MaxCross;
      if v.absChildren {
        return 0.0, v.contentH;
      }
      if v.axis == Depth {
        dw, dh := MeasureDepth(v.children);
      } else {
        var horiz := v.axis == Horizontal;
        var main, cross := MeasureLinear(v.children, horiz);
        if |v.children| > 1 {
          main := main + v.spacing * (|v.children| - 1) as real;
        }
        dw := if horiz then main else cross;
        dh := if horiz then cross else main;
      }
    }

    function WidthOf(c: View): (w: real)
      requires Measured(c, frames, text)
      reads this`frames
      ensures w == Want(c, text).w
    {
      frames[c.id].w
    }

    function HeightOf(c: View): (h: real)
      requires Measured(c, frames, text)
      reads this`frames
      ensures h == Want(c, text).h
    {
      frames[c.id].h
    }

    /** Place the `k`-th child in its slot. */
    method ArrangeKid(v: View, ghost f: Frame, k: nat, x: real, y: real, w: real, h: real, ghost fs0: seq<Frame>, ghost cs0: seq<Cell>)
      requires Tree(v) && InTable(v, |frames|, |cells|) && k < |v.children|
      requires Progress(v, f, k, fs0, frames, cs0, cells, text)
      requires Frame(x, y, w, h) == Slot(v, f, k, text)
      modifies this
      ensures Progress(v, f, k + 1, fs0, frames, cs0, cells, text)
      ensures SameOff(Ids(v.children[k]), old(frames), frames) && |cells| == |old(cells)|
      decreases v, 0
    {
      hide Slot;
      KidInTable(v, k, |frames|, |cells|);
      Arrange(v.children[k], x, y, w, h);
      ProgressStep(v, f, k, fs0, old(frames), frames, cs0, old(cells), cells, text);
    }

    /** Assign final frames, reading the children's desired sizes before overwriting them. */
    method Arrange(v: View, x: real, y: real, w: real, h: real)
      requires Tree(v) && InTable(v, |frames|, |cells|) && Measured(v, frames, text)
      modifies this
      ensures Placed(v, Frame(x, y, w, h), frames, old(cells), cells, text)
      ensures SameOff(Ids(v), old(frames), frames) && SameCellsOff(CellIds(v), old(cells), cells)
      decreases v, 3
    {
      hide Slot;
      hide Placed;
      assert v.id in Ids(v);
      ghost var f := Shifted(v, Frame(x, y, w, h));
      var fx, fy := x + v.offX, y + v.offY;
      ghost var before := frames;
      frames := frames[v.id := Frame(fx, fy, w, h)];
      KidsStillMeasured(v, before, frames, text);
      if v.kind == Scroll {
        ArrangeScroll(v, Frame(x, y, w, h), fx, fy, w, h);
        return;
      }
      if v.kind != Stack || |v.children| == 0 {
        PlacedLeaf(v, Frame(x, y, w, h), frames, old(cells), cells, text);
        return;
      }
      ArrangeStack(v, fx, fy, w, h);
      assert v.children[..|v.children|] == v.children;
      PlacedStack(v, Frame(x, y, w, h), frames, old(cells), cells, text);
    }

    /** Record a viewport's metrics in its scroll cell and clamp the offset to them. */
    method RecordScroll(v: View, h: real, contentH: real) returns (off: real)
      requires v.scroll.Some? ==> v.scroll.value < |cells|
      modifies this`cells
      ensures off == OffsetOf(v, cells)
      ensures cells == if v.scroll.None? then old(cells)
                       else var s := v.scroll.value; old(cells)[s := Cell(ClampOffset(old(cells)[s].offset, contentH, h), h, contentH)]
    {
      off := 0.0;
      if v.scroll.Some? {
        var s := v.scroll.value;
        var cell := cells[s].(viewportH := h, contentH := contentH);
        var max := contentH - h;
        if max < 0.0 { max := 0.0; }
        if cell.offset > max { cell := cell.(offset := max); }
        if cell.offset < 0.0 { cell := cell.(offset := 0.0); }
        cells := cells[s := cell];
        off := cell.offset;
      }
    }

    /** A viewport lays its content out at its natural height, moved up by the scroll offset,
        and records what clamping and flinging read back. */
    method ArrangeScroll(v: View, ghost b: Frame, x: real, y: real, w: real, h: real)
      requires Tree(v) && InTable(v, |frames|, |cells|) && forall c <- v.children :: Measured(c, frames, text)
      requires v.kind == Scroll && Shifted(v, b) == Frame(x, y, w, h) && v.id < |frames| && frames[v.id] == Frame(x, y, w, h)
      modifies this
      ensures Placed(v, b, frames, old(cells), cells, text)
      ensures SameOff(KidIds(v.children), old(frames), frames) && SameCellsOff(CellIds(v), old(cells), cells)
      decreases v, 0
    {
      if |v.children| == 0 {
        return;
      }
      hide Want;
      hide Slot;
      hide ClampOffset;
      var c := v.children[0];
      KidInTable(v, 0, |frames|, |cells|);
      var contentH := if c.contentH > 0.0 then c.contentH else HeightOf(c);
      assert contentH == ContentHeight(c, text);
      hide ContentHeight;
      hide Measured;
      hide Placed;
      hide Tree;
      hide Ids;
      hide CellIds;
      ghost var fs, cs := frames, cells;
      var off := RecordScroll(v, h, contentH);
      ghost var cs1 := cells;
      Arrange(c, x, y - off, w, contentH);
      ScrollDone(v, b, fs, frames, cs, cs1, cells, text);
    }

    /** The three ways a stack places its children: at declared rows, centred on top of each
        other, or one after the other along its axis. */
    method ArrangeStack(v: View, x: real, y: real, w: real, h: real)
      requires Tree(v) && InTable(v, |frames|, |cells|) && forall c <- v.children :: Measured(c, frames, text)
      requires v.kind == Stack && v.id < |frames| && frames[v.id] == Frame(x, y, w, h)
      modifies this
      ensures Progress(v, Frame(x, y, w, h), |v.children|, old(frames), frames, old(cells), cells, text)
      decreases v, 2
    {
      hide Tree;
      hide Placed;
      hide Measured;
      ghost var f := Frame(x, y, w, h);
      var pad := v.padding;
      var ix, iy := x + pad, y + pad;
      var iw, ih := w - 2.0 * pad, h - 2.0 * pad;
      ProgressStart(v, f, frames, cells, text);
      if v.absChildren {
        for i := 0 to |v.children|
          invariant InTable(v, |frames|, |cells|)
          invariant Progress(v, f, i, old(frames), frames, old(cells), cells, text)
        {
          var c := v.children[i];
          var cw := if c.fixedW > 0.0 then c.fixedW else iw;
          var ch := if c.fixedH > 0.0 then c.fixedH else HeightOf(c);
          ArrangeKid(v, f, i, ix, y + c.layoutY, cw, ch, old(frames), old(cells));
        }
        return;
      }
      if v.axis == Depth {
        for i := 0 to |v.children|
          invariant InTable(v, |frames|, |cells|)
          invariant Progress(v, f, i, old(frames), frames, old(cells), cells, text)
        {
          var c := v.children[i];
          var cw := if WidthOf(c) > 0.0 then WidthOf(c) else iw;
          var ch := if HeightOf(c) > 0.0 then HeightOf(c) else ih;
          if c.fill {
            cw, ch := iw, ih;
          }
          ArrangeKid(v, f, i, ix + (iw - cw) / 2.0, iy + (ih - ch) / 2.0, cw, ch, old(frames), old(cells));
        }
        return;
      }
      ArrangeLinear(v, x, y, w, h);
    }

    /** Sum up what the children of a linear stack ask for: their total flex weight, and the
        main-axis space they leave. */
    method FreeSpace(v: View, ghost f: Frame, innerMain: real) returns (totalGrow: real, freedom: real)
      requires forall c <- v.children :: Measured(c, frames, text)
      requires innerMain == Extent(v.axis == Horizontal, Inner(v, f))
      ensures totalGrow == SumGrow(v.children) && freedom == Freedom(v, f, text)
    {
      hide Measured;
      hide Want;
      var horiz := v.axis == Horizontal;
      var gaps := if |v.children| > 1 then v.spacing * (|v.children| - 1) as real else 0.0;
      assert gaps == Gaps(v);
      hide Gaps;
      var totalMain := 0.0;
      totalGrow := 0.0;
      for i := 0 to |v.children|
        invariant totalMain == SumMain(v.children[..i], horiz, text) && totalGrow == SumGrow(v.children[..i])
      {
        var c := v.children[i];
        assert v.children[..i + 1][..i] == v.children[..i];
        totalMain := totalMain + (if horiz then WidthOf(c) else HeightOf(c));
        totalGrow := totalGrow + c.grow;
      }
      assert v.children[..|v.children|] == v.children;
      freedom := innerMain - (totalMain + gaps);
      if freedom < 0.0 {
        freedom := 0.0;
      }
    }

    /** The extents a linear stack gives one child: its size and share of the free space along
        the axis; across it, its size or the whole room. */
    method Extents(v: View, ghost f: Frame, c: View, innerMain: real, innerCross: real, totalGrow: real, freedom: real)
      returns (main: real, cross: real)
      requires Measured(c, frames, text)
      requires innerMain == Extent(v.axis == Horizontal, Inner(v, f))
      requires innerCross == Extent(v.axis != Horizontal, Inner(v, f))
      requires totalGrow == SumGrow(v.children) && freedom == Freedom(v, f, text)
      ensures main == MainExtent(v, f, c, text) && cross == CrossExtent(v, f, c, text)
    {
      hide Measured;
      hide Freedom;
      var horiz := v.axis == Horizontal;
      main := if horiz then WidthOf(c) else HeightOf(c);
      if totalGrow > 0.0 {
        main := main + Share(freedom, c.grow, totalGrow);
      }
      cross := if horiz then HeightOf(c) else WidthOf(c);
      var fixedCross := if horiz then c.fixedH > 0.0 else c.fixedW > 0.0;
      if (c.kind == Stack && !fixedCross) || c.kind == Scroll || cross <= 0.0 || cross > innerCross {
        cross := innerCross;
      }
      if c.fill {
        main, cross := innerMain, innerCross;
      }
    }

    method ArrangeLinear(v: View, x: real, y: real, w: real, h: real)
      requires Tree(v) && InTable(v, |frames|, |cells|) && forall c <- v.children :: Measured(c, frames, text)
      requires v.kind == Stack && !v.absChildren && v.axis != Depth
      modifies this
      ensures Progress(v, Frame(x, y, w, h), |v.children|, old(frames), frames, old(cells), cells, text)
      decreases v, 1
    {
      hide Tree;
      hide Placed;
      hide Measured;
      hide MainExtent;
      hide CrossExtent;
      hide Freedom;
      hide Slot;
      hide Progress;
      hide SumGrow;
      hide AlignOffset;
      ghost var f := Frame(x, y, w, h);
      var pad := v.padding;
      var ix, iy := x + pad, y + pad;
      var iw, ih := w - 2.0 * pad, h - 2.0 * pad;
      ProgressStart(v, f, frames, cells, text);
      var horiz := v.axis == Horizontal;
      var innerMain := if horiz then iw else ih;
      var innerCross := if horiz then ih else iw;
      var totalGrow, freedom := FreeSpace(v, f, innerMain);
      var start := if horiz then ix else iy;
      var pos := start;
      for i := 0 to |v.children|
        invariant InTable(v, |frames|, |cells|)
        invariant Progress(v, f, i, old(frames), frames, old(cells), cells, text)
        invariant pos == start + Advance(v, f, i, text)
      {
        var c := v.children[i];
        ProgressNext(v, f, i, old(frames), frames, old(cells), cells, text);
        LinearSlot(v, f, i, text);
        var main, cross := Extents(v, f, c, innerMain, innerCross, totalGrow, freedom);
        var crossOff := AlignOffset(v.align, innerCross - cross);
        if horiz {
          ArrangeKid(v, f, i, pos, iy + crossOff, main, cross, old(frames), old(cells));
        } else {
          ArrangeKid(v, f, i, ix + crossOff, pos, cross, main, old(frames), old(cells));
        }
        pos := pos + main + v.spacing;
      }
    }

    /** Lay a tree out to fill a surface. */
    method Layout(root: View, w: real, h: real)
      requires Tree(root) && InTable(root, |frames|, |cells|)
      modifies this
      ensures Placed(root, Frame(0.0, 0.0, w, h), frames, old(cells), cells, text)
      ensures SameOff(Ids(root), old(frames), frames) && SameCellsOff(CellIds(root), old(cells), cells)
      ensures Plain(root) && FitsIn(root, Shifted(root, Frame(0.0, 0.0, w, h)), text) ==> Good(root, frames, text)
      ensures Arranged(root, frames, cells, text) && Box(root, frames) == Frame(0.0, 0.0, w, h)
    {
      Measure(root);
      Arrange(root, 0.0, 0.0, w, h);
      PlacedIsArranged(root, Frame(0.0, 0.0, w, h), frames, old(cells), cells, text);
      hide Arranged;
      if Plain(root) && FitsIn(root, Shifted(root, Frame(0.0, 0.0, w, h)), text) {
        PlacedIsGood(root, Frame(0.0, 0.0, w, h), frames, old(cells), cells, text);
      }
    }
  }
}
