/** The retained-tree diff: which pixels can differ between two builds. */
module Reconcile {
  import opened Geometry
  import opened Pixels
  import opened Scene
  import opened Wrappers

  const MAX_DAMAGE: nat := 64
  const MARGIN: int := 8

  // ---------------------------------------------------------------- damage

  /** The pixels that must be repainted: some rectangles, or everything. */
  datatype Damage = Damage(rects: seq<Rect>, full: bool) {
    ghost predicate Covers(x: int, y: int) { full || exists r <- rects :: r.Has(x, y) }

    /** Every rectangle meets the columns of a surface of the given width. */
    ghost predicate Meets(width: int) { forall r <- rects :: r.x0 <= r.x1 && r.x0 <= width && r.x1 >= 0 }
  }

  const NO_DAMAGE: Damage := Damage([], false)

  function Added(d: Damage, r: Rect): Damage
  {
    if d.full || r.Empty() then d
    else if |d.rects| >= MAX_DAMAGE then d.(full := true)
    else d.(rects := d.rects + [r])
  }

  function AddedAll(d: Damage, rs: seq<Rect>): Damage
  {
    if rs == [] then d else Added(AddedAll(d, rs[..|rs| - 1]), rs[|rs| - 1])
  }

  function Merged(d: Damage, src: Damage): Damage
  {
    if src.full then d.(full := true) else AddedAll(d, src.rects)
  }

  /** `e` covers at least what `d` covers. */
  ghost predicate Grows(d: Damage, e: Damage)
  {
    (d.full ==> e.full) && |d.rects| <= |e.rects| && (forall r <- d.rects :: r in e.rects) &&
    forall r <- e.rects :: r in d.rects || !r.Empty()
  }

  lemma AddedCovers(d: Damage, r: Rect)
    ensures Grows(d, Added(d, r))
    ensures forall x, y | r.Has(x, y) :: Added(d, r).Covers(x, y)
    ensures forall w: int | d.Meets(w) && (r.Empty() || (r.x0 <= w && r.x1 >= 0)) :: Added(d, r).Meets(w)
  {
    forall x, y | r.Has(x, y)
      ensures Added(d, r).Covers(x, y)
    {
      assert !r.Empty();
      if !d.full && |d.rects| < MAX_DAMAGE {
        assert Added(d, r).rects[|d.rects|] == r;
      }
    }
  }

  /** A merge covers exactly the pixels of both sets, unless it gave up and covers everything. */
  lemma {:induction false} MergedCovers(d: Damage, rs: seq<Rect>)
    ensures Grows(d, AddedAll(d, rs))
    ensures forall x, y :: d.Covers(x, y) || Damage(rs, false).Covers(x, y) ==> AddedAll(d, rs).Covers(x, y)
    ensures forall x, y | !AddedAll(d, rs).full && AddedAll(d, rs).Covers(x, y) ::
              d.Covers(x, y) || Damage(rs, false).Covers(x, y)
    ensures forall w: int | d.Meets(w) && Damage(rs, false).Meets(w) :: AddedAll(d, rs).Meets(w)
  {
    if rs != [] {
      var init, last := rs[..|rs| - 1], rs[|rs| - 1];
      MergedCovers(d, init);
      AddedCovers(AddedAll(d, init), last);
      assert rs == init + [last];
      forall x, y
        ensures Damage(rs, false).Covers(x, y) <==> Damage(init, false).Covers(x, y) || last.Has(x, y)
      {
        assert forall r <- rs :: r in init || r == last;
      }
    }
  }

  /** The diff's accumulator: appended to in place, giving up at `MAX_DAMAGE` rectangles. */
  class DamageSet {
    var rects: seq<Rect>
    var full: bool

    constructor ()
      ensures Value() == NO_DAMAGE
    {
      rects, full := [], false;
    }

    function Value(): Damage
      reads this
    {
      Damage(rects, full)
    }

    method Reset()
      modifies this
      ensures Value() == NO_DAMAGE
    {
      rects, full := [], false;
    }

    method Add(r: Rect)
      modifies this
      ensures Value() == Added(old(Value()), r)
    {
      if full {
        return;
      }
      if r.x1 <= r.x0 || r.y1 <= r.y0 {
        return;
      }
      if |rects| >= MAX_DAMAGE {
        full := true;
        return;
      }
      rects := rects + [r];
    }

    method Merge(src: DamageSet)
      requires src != this
      modifies this
      ensures Value() == Merged(old(Value()), src.Value())
    {
      if src.full {
        full := true;
        return;
      }
      for i := 0 to |src.rects|
        invariant unchanged(src)
        invariant Value() == AddedAll(old(Value()), src.rects[..i])
      {
        assert src.rects[..i + 1][..i] == src.rects[..i];
        Add(src.rects[i]);
      }
      assert src.rects[..|src.rects|] == src.rects;
    }

    /** Take over another set's contents, as a struct assignment does. */
    method CopyFrom(src: DamageSet)
      modifies this
      ensures Value() == src.Value()
    {
      rects, full := src.rects, src.full;
    }
  }

  // ---------------------------------------------------------------- node tests

  /** A node's frame with the margin its painting may spill into. */
  function NodeRect(n: Node): Rect
  {
    Rect(Trunc(n.x) - MARGIN, Trunc(n.y) - MARGIN, Trunc(n.x + n.w) + MARGIN, Trunc(n.y + n.h) + MARGIN)
  }

  function Intersect(r: Rect, v: Rect): Rect
  {
    Rect(Max(r.x0, v.x0), Max(r.y0, v.y0), Min(r.x1, v.x1), Min(r.y1, v.y1))
  }

  predicate Moved(a: Node, b: Node) { a.x != b.x || a.y != b.y || a.w != b.w || a.h != b.h }

  predicate NodeChanged(a: Node, b: Node)
  {
    Moved(a, b) ||
    a.hasBg != b.hasBg || a.radius != b.radius || a.focused != b.focused || a.fontSize != b.fontSize ||
    (a.hasBg && a.bg != b.bg) || a.color != b.color || a.fg != b.fg || a.text != b.text
  }

  // ---------------------------------------------------------------- what the trees must satisfy

  ghost predicate GlyphsNear(n: Node, font: Font)
  {
    forall s <- Glyphs(n, font) :: NodeRect(n).Has(s.x, s.y)
  }

  /** What the builders produce: only scroll viewports clip, and they hold at most one content child. */
  ghost predicate WellFormed(n: Node)
  {
    (n.clip <==> n.kind == Scroll) &&
    (n.kind == Scroll ==> |n.children| <= 1) &&
    forall c <- n.children :: WellFormed(c)
  }

  /** A pixel the node's own drawing may touch. */
  ghost predicate OwnReaches(n: Node, font: Font, x: int, y: int)
  {
    ((n.hasBg || n.kind == Solid) && NodeRect(n).Has(x, y)) ||
    (n.kind == Text && exists s <- Glyphs(n, font) :: s.x == x && s.y == y)
  }

  /** A pixel the subtree may touch. */
  ghost predicate Reaches(n: Node, font: Font, x: int, y: int)
  {
    (n.clip ==> FrameRect(n).Has(x, y)) && (OwnReaches(n, font, x, y) || exists c <- n.children :: Reaches(c, font, x, y))
  }

  /** Every descendant's frame lies in the frame of `row`, and its glyphs are near it (below a viewport
      nothing else can show). */
  ghost predicate Within(n: Node, row: Node, font: Font)
  {
    row.x <= n.x && row.y <= n.y && n.x + n.w <= row.x + row.w && n.y + n.h <= row.y + row.h &&
    (n.kind == Text ==> GlyphsNear(n, font)) &&
    (n.clip || forall c <- n.children :: Within(c, row, font))
  }

  /** The node paints nothing itself. */
  predicate Silent(n: Node) { !n.hasBg && n.kind != Solid && n.kind != Text }

  predicate SameOwn(a: Node, b: Node)
  {
    a.kind == b.kind && ((Silent(a) && Silent(b)) || (!NodeChanged(a, b) && a.padding == b.padding))
  }

  /** What a plain comparison takes for granted of text, whose padding it does not look at. */
  ghost predicate TextOk(o: Node, n: Node, font: Font)
  {
    n.kind == Text ==>
      if NodeChanged(o, n) then GlyphsNear(o, font) && GlyphsNear(n, font) else o.padding == n.padding
  }

  // ---------------------------------------------------------------- what the rows must satisfy

  /** Row `i` is the first of its key: the one the diff compares with. */
  ghost predicate FirstAt(rows: seq<Node>, key: int, i: int)
  {
    0 <= i < |rows| && rows[i].key == key && forall k | 0 <= k < i :: rows[k].key != key
  }

  ghost predicate HasKey(rows: seq<Node>, key: int) { exists r <- rows :: r.key == key }

  /** The walk damages the footprints of both nodes, whatever is below them. */
  predicate Redrawn(o: Node, n: Node)
  {
    o.kind != n.kind || if n.kind == Scroll then Moved(o, n) else |o.children| != |n.children| || NodeChanged(o, n)
  }

  /** The diff of the rows damages the pixel: a row that is redrawn, enters or leaves is there. */
  ghost predicate Stirred(os: seq<Node>, ns: seq<Node>, x: int, y: int)
  {
    || (exists i, j | 0 <= j < |ns| && FirstAt(os, ns[j].key, i) && Redrawn(os[i], ns[j]) ::
          NodeRect(os[i]).Has(x, y) || NodeRect(ns[j]).Has(x, y))
    || (exists r <- ns | !HasKey(os, r.key) :: NodeRect(r).Has(x, y))
    || (exists r <- os | !HasKey(ns, r.key) :: NodeRect(r).Has(x, y))
  }

  /** Only rows present in both builds reach the pixel: of the old ones the first of their keys, of the
      new ones one of each key, in the order of the old ones. */
  ghost predicate SettledAt(os: seq<Node>, ns: seq<Node>, font: Font, x: int, y: int)
  {
    && (forall r <- ns | Reaches(r, font, x, y) :: HasKey(os, r.key))
    && (forall i | 0 <= i < |os| && Reaches(os[i], font, x, y) :: HasKey(ns, os[i].key) && FirstAt(os, os[i].key, i))
    && (forall i, i', j, j' | Swapped(os, ns, i, i', j, j') :: !(Reaches(ns[j], font, x, y) && Reaches(ns[j'], font, x, y)))
  }

  /** Two new rows are compared with old ones that came in another order, or with one and the same. */
  ghost predicate Swapped(os: seq<Node>, ns: seq<Node>, i: int, i': int, j: int, j': int)
  {
    i <= i' && 0 <= j' < j < |ns| && FirstAt(os, ns[j].key, i) && FirstAt(os, ns[j'].key, i')
  }

  /** At every pixel of the viewport the rows' diff leaves alone, the rows have settled. */
  ghost predicate GoodRows(os: seq<Node>, ns: seq<Node>, vp: Rect, font: Font)
  {
    forall x, y | vp.Has(x, y) && !Stirred(os, ns, x, y) :: SettledAt(os, ns, font, x, y)
  }

  /** The diff only looks at row keys and row contents: a viewport whose content stays put. */
  predicate RowDiff(o: Node, n: Node)
  {
    o.kind == Scroll && n.kind == Scroll && !Moved(o, n) && o.children != [] && n.children != [] &&
    o.children[0].y == n.children[0].y
  }

  ghost predicate OwnAgrees(o: Node, n: Node, font: Font, x: int, y: int)
  {
    forall p: Word :: OwnPx(o, font, x, y, p) == OwnPx(n, font, x, y, p)
  }

  predicate Hides(n: Node, x: int, y: int) { n.clip && !FrameRect(n).Has(x, y) }

  /** At every pixel of the viewport the rows' diff leaves alone, the viewport and its content draw
      the same behind the rows. */
  ghost predicate GoodBackdrop(o: Node, n: Node, font: Font)
    requires RowDiff(o, n)
  {
    var oc, nc := o.children[0], n.children[0];
    forall x, y | FrameRect(n).Has(x, y) && !Stirred(oc.children, nc.children, x, y) ::
      OwnAgrees(o, n, font, x, y) && OwnAgrees(oc, nc, font, x, y) && Hides(oc, x, y) == Hides(nc, x, y)
  }

  /** What the diff takes for granted about a pair of builds, wherever it compares them. */
  ghost predicate Comparable(o: Node, n: Node, font: Font)
    decreases o
  {
    if o.kind != n.kind then true
    else if n.kind == Scroll then
      RowDiff(o, n) ==>
        var oc, nc := o.children[0], n.children[0];
        GoodRows(oc.children, nc.children, FrameRect(n), font) && GoodBackdrop(o, n, font) &&
        forall i, j | 0 <= j < |nc.children| && FirstAt(oc.children, nc.children[j].key, i) ::
          Comparable(oc.children[i], nc.children[j], font)
    else
      |o.children| == |n.children| ==>
        TextOk(o, n, font) &&
        forall i | 0 <= i < |o.children| :: Comparable(o.children[i], n.children[i], font)
  }

  // ---------------------------------------------------------------- what a pixel sees

  ghost predicate SamePx(o: Node, n: Node, font: Font, x: int, y: int)
  {
    forall p: Word :: Px(o, font, x, y, p) == Px(n, font, x, y, p)
  }

  ghost predicate Idle(n: Node, font: Font, x: int, y: int)
  {
    forall p: Word :: Px(n, font, x, y, p) == p
  }

  /** Outside the damage, painting the old or the new tree is the same on any background. */
  ghost predicate Sound(d: Damage, o: Node, n: Node, font: Font)
  {
    forall x, y | !d.Covers(x, y) :: SamePx(o, n, font, x, y)
  }

  lemma SoundGrows(d: Damage, e: Damage, o: Node, n: Node, font: Font)
    requires Grows(d, e) && Sound(d, o, n, font)
    ensures Sound(e, o, n, font)
  {
    forall x, y | !e.Covers(x, y)
      ensures SamePx(o, n, font, x, y)
    {
      assert !d.Covers(x, y);
    }
  }

  lemma {:induction false} InkElsewhere(ink: seq<Sample>, col: Color, x: int, y: int, p: Word)
    requires forall s <- ink :: !(s.x == x && s.y == y)
    ensures InkPx(ink, col, x, y, p) == p
  {
    if ink != [] {
      InkElsewhere(ink[..|ink| - 1], col, x, y, p);
    }
  }

  lemma PlatesNear(n: Node, x: int, y: int)
    requires !NodeRect(n).Has(x, y)
    ensures !FramePlate(n).Covers(x, y) && !RingPlate(n).Covers(x, y)
  {
    hide Plate.Cut;
    TruncShift(n.x, 0.5, 1);
    TruncShift(n.x, 4.5, 5);
    TruncShift(n.y, 4.5, 5);
    TruncShift(n.x + n.w, 5.5, 6);
    TruncShift(n.y + n.h, 5.5, 6);
    TruncShift(n.x + n.w, 0.5, 1);
    TruncShift(n.y + n.h, 0.5, 1);
    TruncMonotone(n.x, n.x + 0.5);
    TruncMonotone(n.y, n.y + 0.5);
    assert n.x - 5.0 + 0.5 == n.x - 4.5 && n.y - 5.0 + 0.5 == n.y - 4.5;
    assert n.x - 5.0 + (n.w + 10.0) + 0.5 == n.x + n.w + 5.5;
    assert n.y - 5.0 + (n.h + 10.0) + 0.5 == n.y + n.h + 5.5;
  }

  /** A node's own drawing touches only pixels it reaches. */
  lemma OwnUntouched(n: Node, font: Font, x: int, y: int, p: Word)
    requires !OwnReaches(n, font, x, y)
    ensures OwnPx(n, font, x, y, p) == p
  {
    hide Plate.Covers;
    hide FillOver;
    hide NodeRect;
    if n.hasBg || n.kind == Solid {
      PlatesNear(n, x, y);
    }
    if n.kind == Text {
      InkElsewhere(Glyphs(n, font), n.fg, x, y, p);
    }
  }

  /** Focus ring, fills and glyphs all stay inside the node's damage rectangle. */
  lemma OwnNear(n: Node, font: Font, x: int, y: int, p: Word)
    requires (n.kind == Text ==> GlyphsNear(n, font)) && !NodeRect(n).Has(x, y)
    ensures OwnPx(n, font, x, y, p) == p
  {
    OwnUntouched(n, font, x, y, p);
    hide OwnPx;
  }

  lemma OwnSame(a: Node, b: Node, font: Font, x: int, y: int, p: Word)
    requires SameOwn(a, b)
    ensures OwnPx(a, font, x, y, p) == OwnPx(b, font, x, y, p)
  {
    hide FillPx;
    hide InkPx;
    if Silent(a) && Silent(b) {
    } else {
      assert FramePlate(a) == FramePlate(b) && RingPlate(a) == RingPlate(b);
    }
  }

  /** A subtree touches only pixels it reaches. */
  lemma {:induction false} Untouched(n: Node, font: Font, x: int, y: int)
    requires !Reaches(n, font, x, y)
    ensures Idle(n, font, x, y)
    decreases n, 1
  {
    hide OwnPx;
    hide OwnReaches;
    hide FrameRect;
    forall p: Word
      ensures Px(n, font, x, y, p) == p
    {
      if !(n.clip && !FrameRect(n).Has(x, y)) {
        OwnUntouched(n, font, x, y, p);
        KidsUntouched(n.children, font, x, y, p);
      }
    }
  }

  lemma {:induction false} KidsUntouched(cs: seq<Node>, font: Font, x: int, y: int, p: Word)
    requires forall c <- cs :: !Reaches(c, font, x, y)
    ensures KidsPx(cs, font, x, y, p) == p
    decreases cs, 0
  {
    hide Px;
    if cs != [] {
      KidsUntouched(cs[..|cs| - 1], font, x, y, p);
      Untouched(cs[|cs| - 1], font, x, y);
    }
  }

  lemma WithinRect(n: Node, row: Node, font: Font, x: int, y: int)
    requires Within(n, row, font) && !NodeRect(row).Has(x, y)
    ensures !NodeRect(n).Has(x, y) && !FrameRect(n).Has(x, y)
  {
    TruncMonotone(row.x, n.x);
    TruncMonotone(row.y, n.y);
    TruncMonotone(n.x + n.w, row.x + row.w);
    TruncMonotone(n.y + n.h, row.y + row.h);
    hide Trunc;
  }

  /** A subtree whose frames lie in `row`'s frame reaches nothing outside `row`'s damage rectangle. */
  lemma {:induction false} WithinReach(n: Node, row: Node, font: Font, x: int, y: int)
    requires Within(n, row, font) && !NodeRect(row).Has(x, y)
    ensures !Reaches(n, font, x, y)
  {
    hide FrameRect;
    hide NodeRect;
    WithinRect(n, row, font, x, y);
    if !n.clip {
      forall c | c in n.children
        ensures !Reaches(c, font, x, y)
      {
        WithinReach(c, row, font, x, y);
      }
    }
  }

  // ---------------------------------------------------------------- when rows settle

  /** Viewports and contents that are themselves unchanged, or paint nothing, are a good backdrop. */
  lemma UnchangedBackdrop(o: Node, n: Node, font: Font)
    requires RowDiff(o, n) && SameOwn(o, n) && SameOwn(o.children[0], n.children[0])
    requires !o.children[0].clip && !n.children[0].clip
    ensures GoodBackdrop(o, n, font)
  {
    hide OwnPx;
    hide SameOwn;
    hide FrameRect;
    forall x, y, p: Word
      ensures OwnPx(o, font, x, y, p) == OwnPx(n, font, x, y, p)
      ensures OwnPx(o.children[0], font, x, y, p) == OwnPx(n.children[0], font, x, y, p)
    {
      OwnSame(o, n, font, x, y, p);
      OwnSame(o.children[0], n.children[0], font, x, y, p);
    }
  }

  ghost predicate DistinctKeys(rows: seq<Node>)
  {
    forall i, j | 0 <= i < j < |rows| :: rows[i].key != rows[j].key
  }

  /** Rows stacked one below the other, as a list or a column builds them. */
  ghost predicate Ascending(rows: seq<Node>)
  {
    forall i, j | 0 <= i < j < |rows| :: rows[i].y < rows[j].y
  }

  ghost predicate InOwnFrames(rows: seq<Node>, font: Font) { forall r <- rows :: Within(r, r, font) }

  /** Rows that keep to their frames and lie away from the damage reach no pixel unless they are
      present in both builds. */
  lemma BothBuilds(os: seq<Node>, ns: seq<Node>, font: Font, x: int, y: int)
    requires InOwnFrames(os, font) && InOwnFrames(ns, font) && !Stirred(os, ns, x, y)
    ensures forall r <- os | Reaches(r, font, x, y) :: NodeRect(r).Has(x, y) && HasKey(ns, r.key)
    ensures forall r <- ns | Reaches(r, font, x, y) :: NodeRect(r).Has(x, y) && HasKey(os, r.key)
  {
    hide NodeRect;
    hide Reaches;
    hide HasKey;
    forall r | (r in os || r in ns) && Reaches(r, font, x, y)
      ensures NodeRect(r).Has(x, y)
    {
      if !NodeRect(r).Has(x, y) {
        WithinReach(r, r, font, x, y);
      }
    }
  }

  /** Lists settle however their rows are reordered: rows that change places move. */
  lemma ListsSettle(os: seq<Node>, ns: seq<Node>, vp: Rect, font: Font)
    requires InOwnFrames(os, font) && InOwnFrames(ns, font)
    requires Ascending(os) && Ascending(ns) && DistinctKeys(os) && DistinctKeys(ns)
    ensures GoodRows(os, ns, vp, font)
  {
    hide NodeRect;
    hide Reaches;
    forall i, i', j, j' | Swapped(os, ns, i, i', j, j')
      ensures Redrawn(os[i], ns[j]) || Redrawn(os[i'], ns[j'])
    {
      assert Moved(os[i], ns[j]) || Moved(os[i'], ns[j']);
    }
    forall x, y | !Stirred(os, ns, x, y)
      ensures SettledAt(os, ns, font, x, y)
    {
      BothBuilds(os, ns, font, x, y);
      SwappedApart(os, ns, font, x, y);
    }
  }

  /** Swapped rows do not meet away from the damage if one of them is redrawn. */
  lemma SwappedApart(os: seq<Node>, ns: seq<Node>, font: Font, x: int, y: int)
    requires forall i, i', j, j' | Swapped(os, ns, i, i', j, j') :: Redrawn(os[i], ns[j]) || Redrawn(os[i'], ns[j'])
    requires forall r <- ns | Reaches(r, font, x, y) :: NodeRect(r).Has(x, y)
    requires !Stirred(os, ns, x, y)
    ensures forall i, i', j, j' | Swapped(os, ns, i, i', j, j') :: !(Reaches(ns[j], font, x, y) && Reaches(ns[j'], font, x, y))
  {
    hide NodeRect;
    hide Reaches;
    hide HasKey;
    hide Redrawn;
  }

  /** Rows in both builds at the same place. */
  ghost predicate InPlace(os: seq<Node>, ns: seq<Node>)
  {
    Ascending(ns) && |os| <= |ns| && forall i | 0 <= i < |os| :: os[i].key == ns[i].key && !Moved(os[i], ns[i])
  }

  /** Rows of any keys, even all of the same, settle if they are stacked, those there were stay in place,
      and others join below. */
  lemma ColumnsSettle(os: seq<Node>, ns: seq<Node>, vp: Rect, font: Font)
    requires InOwnFrames(os, font) && InOwnFrames(ns, font) && InPlace(os, ns)
    ensures GoodRows(os, ns, vp, font)
  {
    hide NodeRect;
    hide Reaches;
    hide InOwnFrames;
    forall x, y | !Stirred(os, ns, x, y)
      ensures SettledAt(os, ns, font, x, y)
    {
      BothBuilds(os, ns, font, x, y);
      hide Stirred;
      hide HasKey;
      InPlaceSettled(os, ns, font, x, y);
    }
  }

  lemma InPlaceSettled(os: seq<Node>, ns: seq<Node>, font: Font, x: int, y: int)
    requires InPlace(os, ns) && !Stirred(os, ns, x, y)
    requires forall r <- os | Reaches(r, font, x, y) :: NodeRect(r).Has(x, y) && HasKey(ns, r.key)
    requires forall r <- ns | Reaches(r, font, x, y) :: NodeRect(r).Has(x, y) && HasKey(os, r.key)
    ensures SettledAt(os, ns, font, x, y)
  {
    assert |os| <= |ns|;
    hide NodeRect;
    hide Reaches;
    hide HasKey;
    hide InPlace;
    hide Redrawn;
    forall i | 0 <= i < |os| && Reaches(os[i], font, x, y)
      ensures FirstAt(os, os[i].key, i)
    {
      FirstStays(os, ns, i);
    }
    forall i, i', j, j' | Swapped(os, ns, i, i', j, j')
      ensures Redrawn(os[i], ns[j]) || Redrawn(os[i'], ns[j'])
    {
      OneMoves(os, ns, i, i', j, j');
    }
    SwappedApart(os, ns, font, x, y);
    hide Stirred;
    hide Swapped;
    hide FirstAt;
  }

  /** A row in place that is not the first of its key is compared with a row elsewhere. */
  lemma FirstStays(os: seq<Node>, ns: seq<Node>, i: nat)
    requires InPlace(os, ns) && i < |os|
    ensures FirstAt(os, os[i].key, i) || exists k | FirstAt(os, ns[i].key, k) :: Redrawn(os[k], ns[i])
    ensures NodeRect(os[i]) == NodeRect(ns[i])
  {
    assert os[i] in os;
    var k := FirstOf(os, os[i].key);
    assert k < i ==> os[k].y < os[i].y;
  }

  lemma OneMoves(os: seq<Node>, ns: seq<Node>, i: nat, i': nat, j: nat, j': nat)
    requires InPlace(os, ns) && i <= i' < |os| && j' < j < |ns|
    ensures Redrawn(os[i], ns[j]) || Redrawn(os[i'], ns[j'])
  {
    assert ns[i].y == os[i].y && ns[i'].y == os[i'].y;
  }

  // ---------------------------------------------------------------- rows

  /** Row `n` shows nothing at the pixel, or is the row of the same key in `os`, unchanged there. */
  ghost predicate Kept(n: Node, os: seq<Node>, font: Font, x: int, y: int)
  {
    Idle(n, font, x, y) || exists o <- os :: o.key == n.key && SamePx(o, n, font, x, y)
  }

  /** No two rows touching the pixel were swapped. */
  ghost predicate InOrderAt(os: seq<Node>, ns: seq<Node>, font: Font, x: int, y: int)
  {
    forall i, i', j, j' | 0 <= i < i' < |os| && 0 <= j < |ns| && 0 <= j' < |ns| &&
                          os[i].key == ns[j].key && os[i'].key == ns[j'].key ::
      j < j' || Idle(os[i], font, x, y) || Idle(os[i'], font, x, y) || Idle(ns[j], font, x, y) || Idle(ns[j'], font, x, y)
  }

  /** Of the rows of one key at most one shows at the pixel. */
  ghost predicate AloneAt(rows: seq<Node>, font: Font, x: int, y: int)
  {
    forall i, j | 0 <= i < j < |rows| && rows[i].key == rows[j].key :: Idle(rows[i], font, x, y) || Idle(rows[j], font, x, y)
  }

  ghost predicate RowsAgree(os: seq<Node>, ns: seq<Node>, font: Font, x: int, y: int)
  {
    AloneAt(os, font, x, y) && AloneAt(ns, font, x, y) && InOrderAt(os, ns, font, x, y) &&
    (forall n <- ns :: Kept(n, os, font, x, y)) && (forall o <- os :: Kept(o, ns, font, x, y))
  }

  lemma SamePxSymmetric(a: Node, b: Node, font: Font, x: int, y: int)
    requires SamePx(a, b, font, x, y)
    ensures SamePx(b, a, font, x, y)
    ensures Idle(a, font, x, y) <==> Idle(b, font, x, y)
  {
    hide Px;
  }

  lemma KeptAfterDrop(n: Node, os: seq<Node>, font: Font, x: int, y: int)
    requires os != [] && Kept(n, os, font, x, y)
    requires Idle(os[|os| - 1], font, x, y) || os[|os| - 1].key != n.key || Idle(n, font, x, y)
    ensures Kept(n, os[..|os| - 1], font, x, y)
  {
    hide Px;
    if !Idle(n, font, x, y) {
      var o :| o in os && o.key == n.key && SamePx(o, n, font, x, y);
      SamePxSymmetric(o, n, font, x, y);
      assert o in os[..|os| - 1];
    }
  }

  lemma DropOld(os: seq<Node>, ns: seq<Node>, font: Font, x: int, y: int)
    requires os != [] && RowsAgree(os, ns, font, x, y) && Idle(os[|os| - 1], font, x, y)
    ensures RowsAgree(os[..|os| - 1], ns, font, x, y)
  {
    hide Idle;
    hide Kept;
    forall n | n in ns
      ensures Kept(n, os[..|os| - 1], font, x, y)
    {
      KeptAfterDrop(n, os, font, x, y);
    }
  }

  lemma DropNew(os: seq<Node>, ns: seq<Node>, font: Font, x: int, y: int)
    requires ns != [] && RowsAgree(os, ns, font, x, y) && Idle(ns[|ns| - 1], font, x, y)
    ensures RowsAgree(os, ns[..|ns| - 1], font, x, y)
  {
    hide Idle;
    hide Kept;
    forall o | o in os
      ensures Kept(o, ns[..|ns| - 1], font, x, y)
    {
      KeptAfterDrop(o, ns, font, x, y);
    }
  }

  /** Where in the other build a row that shows is kept. */
  lemma KeptAt(n: Node, os: seq<Node>, font: Font, x: int, y: int) returns (i: nat)
    requires Kept(n, os, font, x, y) && !Idle(n, font, x, y)
    ensures i < |os| && os[i].key == n.key && SamePx(os[i], n, font, x, y) && !Idle(os[i], font, x, y)
  {
    hide Px;
    hide Idle;
    var o :| o in os && o.key == n.key && SamePx(o, n, font, x, y);
    SamePxSymmetric(o, n, font, x, y);
    i :| i < |os| && os[i] == o;
  }

  /** When both last rows touch the pixel they are the same row. */
  lemma LastRowsMatch(os: seq<Node>, ns: seq<Node>, font: Font, x: int, y: int)
    requires os != [] && ns != [] && RowsAgree(os, ns, font, x, y)
    requires !Idle(os[|os| - 1], font, x, y) && !Idle(ns[|ns| - 1], font, x, y)
    ensures os[|os| - 1].key == ns[|ns| - 1].key
    ensures SamePx(os[|os| - 1], ns[|ns| - 1], font, x, y)
  {
    hide SamePx;
    hide Idle;
    hide Kept;
    var lo, ln := |os| - 1, |ns| - 1;
    var j := KeptAt(os[lo], ns, font, x, y);
    var i := KeptAt(ns[ln], os, font, x, y);
    assert i < lo ==> ln < j;
    assert i == lo;
  }

  lemma DropBoth(os: seq<Node>, ns: seq<Node>, font: Font, x: int, y: int)
    requires os != [] && ns != [] && RowsAgree(os, ns, font, x, y)
    requires !Idle(os[|os| - 1], font, x, y) && !Idle(ns[|ns| - 1], font, x, y)
    requires os[|os| - 1].key == ns[|ns| - 1].key
    ensures RowsAgree(os[..|os| - 1], ns[..|ns| - 1], font, x, y)
  {
    hide Idle;
    hide Kept;
    var os', ns' := os[..|os| - 1], ns[..|ns| - 1];
    forall n | n in ns'
      ensures Kept(n, os', font, x, y)
    {
      var j :| 0 <= j < |ns'| && ns'[j] == n;
      assert n == ns[j] && (n.key == ns[|ns| - 1].key ==> Idle(n, font, x, y));
      KeptAfterDrop(n, os, font, x, y);
    }
    forall o | o in os'
      ensures Kept(o, ns', font, x, y)
    {
      var i :| 0 <= i < |os'| && os'[i] == o;
      assert o == os[i] && (o.key == os[|os| - 1].key ==> Idle(o, font, x, y));
      KeptAfterDrop(o, ns, font, x, y);
    }
  }

  /** Rows entering or leaving where they do not show, and kept rows in order, paint alike. */
  lemma {:induction false} RowsSame(os: seq<Node>, ns: seq<Node>, font: Font, x: int, y: int, p: Word)
    requires RowsAgree(os, ns, font, x, y)
    ensures KidsPx(os, font, x, y, p) == KidsPx(ns, font, x, y, p)
    decreases |os| + |ns|
  {
    hide Px;
    hide RowsAgree;
    if os == [] && ns == [] {
    } else if os != [] && Idle(os[|os| - 1], font, x, y) {
      DropOld(os, ns, font, x, y);
      RowsSame(os[..|os| - 1], ns, font, x, y, p);
    } else if ns != [] && Idle(ns[|ns| - 1], font, x, y) {
      DropNew(os, ns, font, x, y);
      RowsSame(os, ns[..|ns| - 1], font, x, y, p);
    } else {
      NoneLeft(os, ns, font, x, y);
      LastRowsMatch(os, ns, font, x, y);
      DropBoth(os, ns, font, x, y);
      RowsSame(os[..|os| - 1], ns[..|ns| - 1], font, x, y, p);
    }
  }

  lemma NoneLeft(os: seq<Node>, ns: seq<Node>, font: Font, x: int, y: int)
    requires RowsAgree(os, ns, font, x, y)
    requires os != [] ==> !Idle(os[|os| - 1], font, x, y)
    requires ns != [] ==> !Idle(ns[|ns| - 1], font, x, y)
    ensures os == [] <==> ns == []
  {
    if os != [] {
      assert Kept(os[|os| - 1], ns, font, x, y);
    }
    if ns != [] {
      assert Kept(ns[|ns| - 1], os, font, x, y);
    }
  }

  /** Pairwise equal children paint alike. */
  lemma {:induction false} KidsSame(os: seq<Node>, ns: seq<Node>, font: Font, x: int, y: int, p: Word)
    requires |os| == |ns| && forall i | 0 <= i < |os| :: SamePx(os[i], ns[i], font, x, y)
    ensures KidsPx(os, font, x, y, p) == KidsPx(ns, font, x, y, p)
  {
    hide Px;
    if os != [] {
      var k := |os| - 1;
      KidsSame(os[..k], ns[..k], font, x, y, p);
      assert SamePx(os[k], ns[k], font, x, y);
    }
  }

  // ---------------------------------------------------------------- the two cases of the walk

  /** A plain node: sound once its own change is damaged and its children are sound. */
  lemma NodeSound(d: Damage, o: Node, n: Node, font: Font)
    requires Diffable(o, n, font)
    requires o.kind == n.kind && n.kind != Scroll && |o.children| == |n.children|
    requires NodeChanged(o, n) ==> d.full || forall x, y | NodeRect(o).Has(x, y) || NodeRect(n).Has(x, y) :: d.Covers(x, y)
    requires d.full || forall i | 0 <= i < |o.children| :: Sound(d, o.children[i], n.children[i], font)
    ensures Sound(d, o, n, font)
  {
    hide NodeChanged;
    hide OwnPx;
    hide NodeRect;
    forall x, y | !d.Covers(x, y)
      ensures SamePx(o, n, font, x, y)
    {
      forall p: Word
        ensures Px(o, font, x, y, p) == Px(n, font, x, y, p)
      {
        if NodeChanged(o, n) {
          OwnNear(o, font, x, y, p);
          OwnNear(n, font, x, y, p);
        } else {
          OwnUnchanged(o, n, font, x, y, p);
        }
        forall i | 0 <= i < |o.children|
          ensures SamePx(o.children[i], n.children[i], font, x, y)
        {
          assert Sound(d, o.children[i], n.children[i], font);
        }
        KidsSame(o.children, n.children, font, x, y, OwnPx(o, font, x, y, p));
      }
    }
  }

  lemma OwnUnchanged(o: Node, n: Node, font: Font, x: int, y: int, p: Word)
    requires o.kind == n.kind && !NodeChanged(o, n) && (n.kind == Text ==> o.padding == n.padding)
    ensures OwnPx(o, font, x, y, p) == OwnPx(n, font, x, y, p)
  {
    hide FillPx;
    hide InkPx;
    assert FramePlate(o) == FramePlate(n) && RingPlate(o) == RingPlate(n);
    if n.kind == Text {
      assert Glyphs(o, font) == Glyphs(n, font);
    }
  }

  /** A viewport whose whole old and new frames are damaged. */
  lemma ViewportDamaged(d: Damage, o: Node, n: Node, font: Font)
    requires Diffable(o, n, font) && n.kind == Scroll && o.kind == Scroll
    requires forall x, y | FrameRect(o).Has(x, y) || FrameRect(n).Has(x, y) :: d.Covers(x, y)
    ensures Sound(d, o, n, font)
  {
    hide FrameRect;
  }

  /** What the keyed diff leaves behind for one row that enters or leaves. */
  ghost predicate RowHandled(d: Damage, r: Node, others: seq<Node>, vp: Rect)
  {
    HasKey(others, r.key) || forall x, y | vp.Has(x, y) && NodeRect(r).Has(x, y) :: d.Covers(x, y)
  }

  /** Nodes that are redrawn are damaged where they were and where they are. */
  ghost predicate RedrawnCovered(d: Damage, o: Node, n: Node)
  {
    Redrawn(o, n) ==> forall x, y | NodeRect(o).Has(x, y) || NodeRect(n).Has(x, y) :: d.Covers(x, y)
  }

  ghost predicate RowsSoundSoFar(d: Damage, os: seq<Node>, ns: seq<Node>, font: Font)
  {
    forall i, j | 0 <= j < |ns| && FirstAt(os, ns[j].key, i) ::
      Sound(d, os[i], ns[j], font) && RedrawnCovered(d, os[i], ns[j])
  }

  lemma RedrawnCoveredGrows(d: Damage, e: Damage, o: Node, n: Node)
    requires Grows(d, e) && RedrawnCovered(d, o, n)
    ensures RedrawnCovered(e, o, n)
  {
    hide NodeRect;
    if Redrawn(o, n) {
      forall x, y | NodeRect(o).Has(x, y) || NodeRect(n).Has(x, y)
        ensures e.Covers(x, y)
      {
        assert d.Covers(x, y);
      }
    }
  }

  lemma RowsSoundGrow(d: Damage, e: Damage, os: seq<Node>, ns: seq<Node>, font: Font)
    requires Grows(d, e) && RowsSoundSoFar(d, os, ns, font)
    ensures RowsSoundSoFar(e, os, ns, font)
  {
    hide Sound;
    hide RedrawnCovered;
    forall i, j | 0 <= j < |ns| && FirstAt(os, ns[j].key, i)
      ensures Sound(e, os[i], ns[j], font) && RedrawnCovered(e, os[i], ns[j])
    {
      SoundGrows(d, e, os[i], ns[j], font);
      RedrawnCoveredGrows(d, e, os[i], ns[j]);
    }
  }

  /** The keyed diff of a viewport's rows is sound once entering and leaving rows are damaged
      inside the viewport and kept rows are sound. */
  lemma RowsSound(d: Damage, o: Node, n: Node, font: Font)
    requires Diffable(o, n, font) && RowDiff(o, n)
    requires forall r <- n.children[0].children :: RowHandled(d, r, o.children[0].children, FrameRect(n))
    requires forall r <- o.children[0].children :: RowHandled(d, r, n.children[0].children, FrameRect(n))
    requires RowsSoundSoFar(d, o.children[0].children, n.children[0].children, font)
    ensures Sound(d, o, n, font)
  {
    hide NodeChanged;
    hide Px;
    hide GoodRows;
    hide RowHandled;
    var oc, nc := o.children[0], n.children[0];
    assert WellFormed(oc) && WellFormed(nc);
    forall x, y | !d.Covers(x, y)
      ensures SamePx(o, n, font, x, y)
    {
      if FrameRect(n).Has(x, y) {
        RowsAgreeAt(d, oc.children, nc.children, FrameRect(n), font, x, y);
        NotStirred(d, oc.children, nc.children, FrameRect(n), font, x, y);
        ViewportSame(o, n, font, x, y);
      } else {
        ViewportHidden(o, n, font, x, y);
      }
    }
  }

  lemma ViewportHidden(o: Node, n: Node, font: Font, x: int, y: int)
    requires o.clip && n.clip && !FrameRect(o).Has(x, y) && !FrameRect(n).Has(x, y)
    ensures SamePx(o, n, font, x, y)
  {
    hide FrameRect;
  }

  lemma ViewportSame(o: Node, n: Node, font: Font, x: int, y: int)
    requires |o.children| == 1 && |n.children| == 1 && FrameRect(o).Has(x, y) && FrameRect(n).Has(x, y)
    requires OwnAgrees(o, n, font, x, y) && OwnAgrees(o.children[0], n.children[0], font, x, y)
    requires Hides(o.children[0], x, y) == Hides(n.children[0], x, y)
    requires RowsAgree(o.children[0].children, n.children[0].children, font, x, y)
    ensures SamePx(o, n, font, x, y)
  {
    hide OwnPx;
    hide SameOwn;
    hide RowsAgree;
    hide FrameRect;
    var oc, nc := o.children[0], n.children[0];
    forall p: Word
      ensures Px(o, font, x, y, p) == Px(n, font, x, y, p)
    {
      var q := OwnPx(o, font, x, y, p);
      RowsSame(oc.children, nc.children, font, x, y, OwnPx(oc, font, x, y, q));
      OnlyChild(o, font, x, y, q);
      OnlyChild(n, font, x, y, q);
    }
  }

  lemma OnlyChild(n: Node, font: Font, x: int, y: int, p: Word)
    requires |n.children| == 1
    ensures KidsPx(n.children, font, x, y, p) == Px(n.children[0], font, x, y, p)
  {
    hide Px;
    assert n.children[..0] == [];
  }

  /** Every key that is there is there first somewhere. */
  lemma FirstOf(rows: seq<Node>, key: int) returns (i: int)
    requires HasKey(rows, key)
    ensures FirstAt(rows, key, i)
  {
    i := 0;
    while rows[i].key != key
      invariant 0 <= i < |rows| && forall k | 0 <= k < i :: rows[k].key != key
      decreases |rows| - i
    {
      if i == |rows| - 1 {
        assert false;
      }
      i := i + 1;
    }
  }

  /** Where the damage does not reach, the diff leaves the rows alone. */
  lemma NotStirred(d: Damage, os: seq<Node>, ns: seq<Node>, vp: Rect, font: Font, x: int, y: int)
    requires (forall r <- ns :: RowHandled(d, r, os, vp)) && (forall r <- os :: RowHandled(d, r, ns, vp))
    requires RowsSoundSoFar(d, os, ns, font)
    requires !d.Covers(x, y) && vp.Has(x, y)
    ensures !Stirred(os, ns, x, y)
  {
    hide NodeRect;
    hide Redrawn;
    hide Sound;
    hide Damage.Covers;
    hide HasKey;
    forall i, j | 0 <= j < |ns| && FirstAt(os, ns[j].key, i) && Redrawn(os[i], ns[j])
      ensures !NodeRect(os[i]).Has(x, y) && !NodeRect(ns[j]).Has(x, y)
    {
      assert RedrawnCovered(d, os[i], ns[j]);
    }
  }

  lemma RowsAgreeAt(d: Damage, os: seq<Node>, ns: seq<Node>, vp: Rect, font: Font, x: int, y: int)
    requires GoodRows(os, ns, vp, font)
    requires (forall r <- ns :: RowHandled(d, r, os, vp)) && (forall r <- os :: RowHandled(d, r, ns, vp))
    requires RowsSoundSoFar(d, os, ns, font)
    requires !d.Covers(x, y) && vp.Has(x, y)
    ensures RowsAgree(os, ns, font, x, y)
  {
    NotStirred(d, os, ns, vp, font, x, y);
    assert SettledAt(os, ns, font, x, y);
    forall i, j | 0 <= j < |ns| && FirstAt(os, ns[j].key, i)
      ensures SamePx(os[i], ns[j], font, x, y)
    {
      assert Sound(d, os[i], ns[j], font);
    }
    hide *;
    SettledAgree(os, ns, font, x, y);
  }

  /** Settled rows that show the same, each like the first old one of its key, agree. */
  lemma SettledAgree(os: seq<Node>, ns: seq<Node>, font: Font, x: int, y: int)
    requires SettledAt(os, ns, font, x, y)
    requires forall i, j | 0 <= j < |ns| && FirstAt(os, ns[j].key, i) :: SamePx(os[i], ns[j], font, x, y)
    ensures RowsAgree(os, ns, font, x, y)
  {
    hide SamePx;
    hide Idle;
    hide Reaches;
    forall r | r in ns
      ensures Kept(r, os, font, x, y)
    {
      if Reaches(r, font, x, y) {
        var i := FirstOf(os, r.key);
        var j :| 0 <= j < |ns| && ns[j] == r;
        assert SamePx(os[i], ns[j], font, x, y) && os[i] in os;
      } else {
        Untouched(r, font, x, y);
      }
    }
    forall i | 0 <= i < |os|
      ensures Kept(os[i], ns, font, x, y)
    {
      if Reaches(os[i], font, x, y) {
        var m :| m in ns && m.key == os[i].key;
        var j :| 0 <= j < |ns| && ns[j] == m;
        assert FirstAt(os, ns[j].key, i);
        SamePxSymmetric(os[i], m, font, x, y);
      } else {
        Untouched(os[i], font, x, y);
      }
    }
    SettledAlone(os, ns, font, x, y);
    hide SettledAt;
    hide Kept;
  }

  lemma SettledAlone(os: seq<Node>, ns: seq<Node>, font: Font, x: int, y: int)
    requires SettledAt(os, ns, font, x, y)
    ensures AloneAt(os, font, x, y) && AloneAt(ns, font, x, y) && InOrderAt(os, ns, font, x, y)
  {
    hide Idle;
    hide Reaches;
    forall r | r in os || r in ns
      ensures Idle(r, font, x, y) || Reaches(r, font, x, y)
    {
      if !Reaches(r, font, x, y) {
        Untouched(r, font, x, y);
      }
    }
    forall i, j | 0 <= i < j < |ns| && ns[i].key == ns[j].key
      ensures Idle(ns[i], font, x, y) || Idle(ns[j], font, x, y)
    {
      if Reaches(ns[i], font, x, y) {
        var k := FirstOf(os, ns[i].key);
        assert Swapped(os, ns, k, k, j, i);
      }
    }
    forall i, i', j, j' | 0 <= i < i' < |os| && 0 <= j' <= j < |ns| && os[i].key == ns[j].key && os[i'].key == ns[j'].key
      ensures Idle(os[i], font, x, y) || Idle(os[i'], font, x, y) || Idle(ns[j], font, x, y) || Idle(ns[j'], font, x, y)
    {
      if Reaches(os[i], font, x, y) && Reaches(os[i'], font, x, y) {
        assert j' < j && Swapped(os, ns, i, i', j, j');
      }
    }
  }

  // ---------------------------------------------------------------- the walk

  /** A rectangle the damage takes up meets the columns `[0, width]` of the surface. */
  predicate RectMeets(r: Rect, width: int) { r.Empty() || (r.x0 <= width && r.x1 >= 0) }

  /** Every rectangle the walk damages meets the columns of the surface: whatever is not damaged may
      lie anywhere. */
  ghost predicate Clearable(o: Node, n: Node, width: int)
    decreases o, 2
  {
    if o.kind != n.kind then true
    else if n.kind == Scroll then
      if Moved(o, n) then RectMeets(NodeRect(o), width) && RectMeets(NodeRect(n), width)
      else if !RowDiff(o, n) then RectMeets(FrameRect(n), width)
      else
        (forall j | 0 <= j < |n.children[0].children| :: RowClearable(o, n, j, width)) &&
        forall r <- o.children[0].children | !HasKey(n.children[0].children, r.key) ::
          RectMeets(Intersect(NodeRect(r), FrameRect(n)), width)
    else
      |o.children| == |n.children| ==>
        (NodeChanged(o, n) ==> RectMeets(NodeRect(o), width) && RectMeets(NodeRect(n), width)) &&
        forall i | 0 <= i < |o.children| :: Clearable(o.children[i], n.children[i], width)
  }

  ghost predicate RowClearable(o: Node, n: Node, j: nat, width: int)
    requires RowDiff(o, n) && j < |n.children[0].children|
    decreases o, 1
  {
    var os, r := o.children[0].children, n.children[0].children[j];
    (forall i | 0 <= i < |os| && FirstAt(os, r.key, i) :: Clearable(os[i], r, width)) &&
    (!HasKey(os, r.key) ==> RectMeets(Intersect(NodeRect(r), FrameRect(n)), width))
  }

  /** Clearing keeps to the columns. */
  ghost predicate StaysOn(d: Damage, e: Damage, width: int) { d.Meets(width) ==> e.Meets(width) }

  ghost predicate StaysOnColumns(d: Damage, e: Damage, o: Node, n: Node)
  {
    forall w: int | Clearable(o, n, w) :: StaysOn(d, e, w)
  }

  /** The damage grew by `count` rectangles; it gives up exactly if the builds are structured differently
      (`changed`), or if those are more than 64 in all. */
  predicate GivesUp(d: Damage, e: Damage, changed: bool, count: nat)
  {
    && (e.full <==> d.full || changed || (count > 0 && |d.rects| + count > 64))
    && (!e.full ==> |e.rects| == |d.rects| + count)
  }

  predicate Confined(r: Rect, v: Rect)
  {
    v.x0 <= r.x0 && v.y0 <= r.y0 && r.x1 <= v.x1 && r.y1 <= v.y1
  }

  /** Whatever is new lies in the viewport. */
  ghost predicate NewInside(d: Damage, e: Damage, v: Rect)
  {
    forall r <- e.rects :: r in d.rects || Confined(r, v)
  }

  /** Every node's frame meets the columns `[0, width]` of the surface. */
  ghost predicate OnColumns(n: Node, width: int)
  {
    Trunc(n.x) <= width && Trunc(n.x + n.w) >= 0 && forall c <- n.children :: OnColumns(c, width)
  }

  /** Trees that meet the columns are clearable, whatever changed. */
  lemma {:induction false} OnColumnsClearable(o: Node, n: Node, width: int)
    requires OnColumns(o, width) && OnColumns(n, width)
    ensures Clearable(o, n, width)
    decreases o
  {
    assert forall r: Node | OnColumns(r, width) ::
      RectMeets(NodeRect(r), width) && RectMeets(FrameRect(r), width) && RectMeets(Intersect(NodeRect(r), FrameRect(n)), width);
    hide RectMeets;
    hide NodeRect;
    hide FrameRect;
    if o.kind == n.kind && n.kind == Scroll {
      if RowDiff(o, n) {
        var oc, nc := o.children[0], n.children[0];
        assert OnColumns(oc, width) && OnColumns(nc, width);
        forall j | 0 <= j < |nc.children|
          ensures RowClearable(o, n, j, width)
        {
          forall i | 0 <= i < |oc.children|
            ensures Clearable(oc.children[i], nc.children[j], width)
          {
            OnColumnsClearable(oc.children[i], nc.children[j], width);
          }
        }
      }
    } else if |o.children| == |n.children| {
      forall i | 0 <= i < |o.children|
        ensures Clearable(o.children[i], n.children[i], width)
      {
        OnColumnsClearable(o.children[i], n.children[i], width);
      }
    }
  }

  /** Damaging a changed node covers its old and new footprint. */
  lemma AddBoth(d: Damage, o: Node, n: Node)
    ensures var e := Added(Added(d, NodeRect(o)), NodeRect(n));
            Grows(d, e) && GivesUp(d, e, false, One((x, y) => Near(o, x, y)) + One((x, y) => Near(n, x, y))) && GrowsBy(d, e, (x, y) => Near(o, x, y) || Near(n, x, y)) &&
            (forall w: int | RectMeets(NodeRect(o), w) && RectMeets(NodeRect(n), w) :: StaysOn(d, e, w)) &&
            forall x, y | NodeRect(o).Has(x, y) || NodeRect(n).Has(x, y) :: e.Covers(x, y)
  {
    var e1 := Added(d, NodeRect(o));
    RectsArePixels(o, o);
    RectsArePixels(n, n);
    OneAdded(d, NodeRect(o), (x, y) => Near(o, x, y));
    OneAdded(e1, NodeRect(n), (x, y) => Near(n, x, y));
    hide One;
    hide Added;
    hide NodeRect;
    AddedCovers(d, NodeRect(o));
    AddedCovers(e1, NodeRect(n));
    AddedExactly(d, NodeRect(o), (x, y) => Near(o, x, y));
    AddedExactly(e1, NodeRect(n), (x, y) => Near(n, x, y));
    GrowsByBoth(d, e1, Added(e1, NodeRect(n)), (x, y) => Near(o, x, y), (x, y) => Near(n, x, y), (x, y) => Near(o, x, y) || Near(n, x, y));
  }

  /** Damaging one rectangle of a viewport: its frame, or a row clipped to it. */
  lemma AddInViewport(d: Damage, r: Rect, row: Node, n: Node)
    requires r == FrameRect(n) || r == Intersect(NodeRect(row), FrameRect(n))
    ensures Grows(d, Added(d, r)) && forall w: int | RectMeets(r, w) :: StaysOn(d, Added(d, r), w)
    ensures NewInside(d, Added(d, r), FrameRect(n))
    ensures r == FrameRect(n) ==> GivesUp(d, Added(d, r), false, One((x, y) => InFrame(n, x, y)))
    ensures r == Intersect(NodeRect(row), FrameRect(n)) ==>
              GivesUp(d, Added(d, r), false, One((x, y) => InFrame(n, x, y) && Near(row, x, y)))
    ensures forall x, y | r.Has(x, y) :: Added(d, r).Covers(x, y)
    ensures r == FrameRect(n) ==> GrowsBy(d, Added(d, r), (x, y) => InFrame(n, x, y))
    ensures r == Intersect(NodeRect(row), FrameRect(n)) ==> GrowsBy(d, Added(d, r), (x, y) => InFrame(n, x, y) && Near(row, x, y))
  {
    RectsArePixels(row, n);
    if r == FrameRect(n) {
      AddedExactly(d, r, (x, y) => InFrame(n, x, y));
      OneAdded(d, r, (x, y) => InFrame(n, x, y));
    }
    if r == Intersect(NodeRect(row), FrameRect(n)) {
      AddedExactly(d, r, (x, y) => InFrame(n, x, y) && Near(row, x, y));
      OneAdded(d, r, (x, y) => InFrame(n, x, y) && Near(row, x, y));
    }
    hide One;
    assert Confined(r, FrameRect(n));
    assert NewInside(d, Added(d, r), FrameRect(n));
    hide Added;
    hide NodeRect;
    hide Intersect;
    hide FrameRect;
    AddedCovers(d, r);
  }

  lemma FrameInNodeRect(n: Node, x: int, y: int)
    requires FrameRect(n).Has(x, y)
    ensures NodeRect(n).Has(x, y)
  {
  }

  ghost predicate Diffable(o: Node, n: Node, font: Font)
  {
    WellFormed(o) && WellFormed(n) && Comparable(o, n, font)
  }

  // ---------------------------------------------------------------- what is damaged, exactly

  /** A pixel of the node's frame or within 8 pixels of it. */
  predicate Near(n: Node, x: int, y: int)
  {
    Trunc(n.x) - 8 <= x < Trunc(n.x + n.w) + 8 && Trunc(n.y) - 8 <= y < Trunc(n.y + n.h) + 8
  }

  predicate InFrame(n: Node, x: int, y: int)
  {
    Trunc(n.x) <= x < Trunc(n.x + n.w) && Trunc(n.y) <= y < Trunc(n.y + n.h)
  }

  /** Two nodes are the same but for their children, their keys, a padding, and the colour of a background
      neither has. */
  predicate LooksSame(o: Node, n: Node)
  {
    n == o.(children := n.children, key := n.key, padding := n.padding, clip := n.clip, bg := if o.hasBg then o.bg else n.bg)
  }

  predicate SameFrame(o: Node, n: Node) { (n.x, n.y, n.w, n.h) == (o.x, o.y, o.w, o.h) }

  /** The pixels two builds of one structure differ for: those near a node that looks different or a
      viewport that moved, those of a viewport that scrolled or was or became empty, and those of a
      viewport near a row of it that entered or left. */
  ghost predicate Warranted(o: Node, n: Node, x: int, y: int)
    decreases o, 1
  {
    if n.kind == Scroll then
      if !SameFrame(o, n) then Near(o, x, y) || Near(n, x, y)
      else if o.children == [] || n.children == [] || o.children[0].y != n.children[0].y then InFrame(n, x, y)
      else
        var os, ns := o.children[0].children, n.children[0].children;
        || (exists r <- ns :: RowWarranted(o, r, x, y))
        || (InFrame(n, x, y) &&
            ((exists r <- ns | !HasKey(os, r.key) :: Near(r, x, y)) || exists r <- os | !HasKey(ns, r.key) :: Near(r, x, y)))
    else
      |o.children| == |n.children| &&
        ((!LooksSame(o, n) && (Near(o, x, y) || Near(n, x, y))) ||
         exists i | 0 <= i < |o.children| :: Warranted(o.children[i], n.children[i], x, y))
  }

  /** The pixel differs between a new row and the first old row of its key. */
  ghost predicate RowWarranted(o: Node, r: Node, x: int, y: int)
    requires o.children != []
    decreases o, 0
  {
    exists i | FirstAt(o.children[0].children, r.key, i) :: Warranted(o.children[0].children[i], r, x, y)
  }

  /** The pixel differs for one row of the new content. */
  ghost predicate RowSeen(o: Node, n: Node, r: Node, x: int, y: int)
    requires o.children != []
  {
    if HasKey(o.children[0].children, r.key) then RowWarranted(o, r, x, y) else InFrame(n, x, y) && Near(r, x, y)
  }

  /** The pixel differs for a row of the old content that is gone. */
  ghost predicate Left(n: Node, r: Node, x: int, y: int)
    requires n.children != []
  {
    !HasKey(n.children[0].children, r.key) && InFrame(n, x, y) && Near(r, x, y)
  }

  /** A rectangle is taken up if it has a pixel. */
  ghost function One(p: (int, int) -> bool): nat { if exists x, y :: p(x, y) then 1 else 0 }

  /** The rectangles two builds of one structure differ in. */
  ghost function Pieces(o: Node, n: Node): nat
    decreases o, 2
  {
    if o.kind != n.kind then 0
    else if n.kind == Scroll then
      if !SameFrame(o, n) then One((x, y) => Near(o, x, y)) + One((x, y) => Near(n, x, y))
      else if o.children == [] || n.children == [] || o.children[0].y != n.children[0].y then One((x, y) => InFrame(n, x, y))
      else RowPieces(o, n, |n.children[0].children|) + LeftPieces(o, n, |o.children[0].children|)
    else if |o.children| != |n.children| then 0
    else
      (if LooksSame(o, n) then 0 else One((x, y) => Near(o, x, y)) + One((x, y) => Near(n, x, y))) +
      KidPieces(o, n, |o.children|)
  }

  /** Those of the first `k` children. */
  ghost function KidPieces(o: Node, n: Node, k: nat): nat
    requires k <= |o.children| == |n.children|
    decreases o, 0, k
  {
    if k == 0 then 0 else KidPieces(o, n, k - 1) + Pieces(o.children[k - 1], n.children[k - 1])
  }

  /** Those of the first `k` rows of the new content. */
  ghost function RowPieces(o: Node, n: Node, k: nat): nat
    requires o.children != [] && n.children != [] && k <= |n.children[0].children|
    decreases o, 1, k
  {
    if k == 0 then 0 else RowPieces(o, n, k - 1) + OneRowPieces(o, n, k - 1)
  }

  ghost function OneRowPieces(o: Node, n: Node, j: nat): nat
    requires o.children != [] && n.children != [] && j < |n.children[0].children|
    decreases o, 0
  {
    var os, r := o.children[0].children, n.children[0].children[j];
    var i := FirstWhere(os, (m: Node) => m.key == r.key);
    if i < |os| then Pieces(os[i], r) else One((x, y) => InFrame(n, x, y) && Near(r, x, y))
  }

  /** Those of the first `k` rows of the old content, as far as they are gone. */
  ghost function LeftPieces(o: Node, n: Node, k: nat): nat
    requires o.children != [] && n.children != [] && k <= |o.children[0].children|
  {
    if k == 0 then 0
    else
      var r := o.children[0].children[k - 1];
      LeftPieces(o, n, k - 1) +
      if HasKey(n.children[0].children, r.key) then 0 else One((x, y) => InFrame(n, x, y) && Near(r, x, y))
  }

  lemma {:induction false} KidPiecesGrow(o: Node, n: Node, k: nat)
    requires k <= |o.children| == |n.children|
    ensures KidPieces(o, n, k) <= KidPieces(o, n, |o.children|)
    decreases |o.children| - k
  {
    hide Pieces;
    if k < |o.children| {
      KidPiecesGrow(o, n, k + 1);
      assert KidPieces(o, n, k + 1) == KidPieces(o, n, k) + Pieces(o.children[k], n.children[k]);
    }
  }

  lemma NodePieces(o: Node, n: Node)
    requires o.kind == n.kind && n.kind != Scroll && |o.children| == |n.children|
    ensures Pieces(o, n) == (if NodeChanged(o, n) then One((x, y) => Near(o, x, y)) + One((x, y) => Near(n, x, y)) else 0) +
                            KidPieces(o, n, |o.children|)
  {
    ChangedLooks(o, n);
    hide LooksSame;
    hide NodeChanged;
    hide Near;
    hide One;
    hide KidPieces;
  }

  lemma OneAdded(d: Damage, r: Rect, p: (int, int) -> bool)
    requires forall x, y :: p(x, y) <==> r.Has(x, y)
    ensures GivesUp(d, Added(d, r), false, One(p))
  {
    if !r.Empty() {
      assert p(r.x0, r.y0);
    }
  }

  /** The damage grew by exactly these pixels, unless it gave up. */
  ghost predicate GrowsBy(d: Damage, e: Damage, more: (int, int) -> bool)
  {
    e.full || forall x, y :: e.Covers(x, y) <==> d.Covers(x, y) || more(x, y)
  }

  lemma GrowsByNothing(d: Damage, p: (int, int) -> bool)
    requires forall x, y :: !p(x, y)
    ensures GrowsBy(d, d, p)
  {
  }

  lemma GrowsByBoth(d: Damage, e: Damage, f: Damage, p: (int, int) -> bool, q: (int, int) -> bool, r: (int, int) -> bool)
    requires GrowsBy(d, e, p) && GrowsBy(e, f, q) && (e.full ==> f.full)
    requires forall x, y :: r(x, y) <==> p(x, y) || q(x, y)
    ensures GrowsBy(d, f, r)
  {
    hide Damage.Covers;
  }

  lemma AddedExactly(d: Damage, r: Rect, p: (int, int) -> bool)
    requires forall x, y :: p(x, y) <==> r.Has(x, y)
    ensures GrowsBy(d, Added(d, r), p)
  {
    var e := Added(d, r);
    if !e.full && !r.Empty() {
      assert e.rects == d.rects + [r];
      forall x, y
        ensures e.Covers(x, y) <==> d.Covers(x, y) || r.Has(x, y)
      {
        if r.Has(x, y) { assert e.rects[|d.rects|] == r; }
        if q :| q in d.rects && q.Has(x, y) { assert q in e.rects; }
      }
    }
  }

  lemma RectsArePixels(r: Node, n: Node)
    ensures forall x, y :: NodeRect(n).Has(x, y) <==> Near(n, x, y)
    ensures forall x, y :: FrameRect(n).Has(x, y) <==> InFrame(n, x, y)
    ensures forall x, y :: Intersect(NodeRect(r), FrameRect(n)).Has(x, y) <==> InFrame(n, x, y) && Near(r, x, y)
  {
  }

  lemma ChangedLooks(o: Node, n: Node)
    ensures Moved(o, n) <==> !SameFrame(o, n)
    ensures o.kind == n.kind ==> (NodeChanged(o, n) <==> !LooksSame(o, n))
  {
  }

  lemma PlainWarranted(o: Node, n: Node)
    requires o.kind == n.kind && n.kind != Scroll && |o.children| == |n.children|
    ensures forall x, y :: Warranted(o, n, x, y) <==>
              (NodeChanged(o, n) && (Near(o, x, y) || Near(n, x, y))) ||
              exists i | 0 <= i < |o.children| :: Warranted(o.children[i], n.children[i], x, y)
  {
    ChangedLooks(o, n);
    hide LooksSame;
    hide NodeChanged;
    hide Near;
  }

  /** The damage grew by what differs in the first `k` children. */
  ghost predicate KidsGrow(d: Damage, e: Damage, os: seq<Node>, ns: seq<Node>, k: nat)
    requires k <= |os| == |ns|
  {
    GrowsBy(d, e, (x, y) => exists i | 0 <= i < k :: Warranted(os[i], ns[i], x, y))
  }

  lemma NoKidsGrow(d: Damage, os: seq<Node>, ns: seq<Node>)
    requires |os| == |ns|
    ensures KidsGrow(d, d, os, ns, 0)
  {
  }

  lemma KidsGrowMore(d: Damage, e: Damage, f: Damage, os: seq<Node>, ns: seq<Node>, k: nat)
    requires k < |os| == |ns| && (e.full ==> f.full)
    requires KidsGrow(d, e, os, ns, k) && GrowsBy(e, f, (x, y) => Warranted(os[k], ns[k], x, y))
    ensures KidsGrow(d, f, os, ns, k + 1)
  {
    hide Warranted;
    hide Damage.Covers;
  }

  lemma KidsGrowFull(d: Damage, e: Damage, os: seq<Node>, ns: seq<Node>)
    requires |os| == |ns| && e.full
    ensures KidsGrow(d, e, os, ns, |os|)
  {
  }

  /** The damage grew by what differs in the first `k` rows of the new content. */
  ghost predicate RowsGrow(d: Damage, e: Damage, o: Node, n: Node, k: nat)
    requires RowDiff(o, n) && k <= |n.children[0].children|
  {
    GrowsBy(d, e, (x, y) => exists j | 0 <= j < k :: RowSeen(o, n, n.children[0].children[j], x, y))
  }

  lemma NoRowsGrow(d: Damage, o: Node, n: Node)
    requires RowDiff(o, n)
    ensures RowsGrow(d, d, o, n, 0)
  {
  }

  lemma RowsGrowMore(d: Damage, e: Damage, f: Damage, o: Node, n: Node, k: nat)
    requires RowDiff(o, n) && k < |n.children[0].children| && (e.full ==> f.full)
    requires RowsGrow(d, e, o, n, k) && GrowsBy(e, f, (x, y) => RowSeen(o, n, n.children[0].children[k], x, y))
    ensures RowsGrow(d, f, o, n, k + 1)
  {
    hide RowSeen;
    hide Damage.Covers;
  }

  /** The damage grew by what the first `k` rows of the old content showed, as far as they are gone. */
  ghost predicate LeftGrow(d: Damage, e: Damage, o: Node, n: Node, k: nat)
    requires RowDiff(o, n) && k <= |o.children[0].children|
  {
    GrowsBy(d, e, (x, y) => exists j | 0 <= j < k :: Left(n, o.children[0].children[j], x, y))
  }

  lemma NoneLeftGrow(d: Damage, o: Node, n: Node)
    requires RowDiff(o, n)
    ensures LeftGrow(d, d, o, n, 0)
  {
  }

  lemma LeftGrowMore(d: Damage, e: Damage, f: Damage, o: Node, n: Node, k: nat)
    requires RowDiff(o, n) && k < |o.children[0].children| && (e.full ==> f.full)
    requires LeftGrow(d, e, o, n, k)
    requires if HasKey(n.children[0].children, o.children[0].children[k].key) then f == e
             else GrowsBy(e, f, (x, y) => InFrame(n, x, y) && Near(o.children[0].children[k], x, y))
    ensures LeftGrow(d, f, o, n, k + 1)
  {
    hide InFrame;
    hide Near;
    hide HasKey;
    hide Damage.Covers;
  }

  /** What one row's comparison damages. */
  lemma RowCompared(d: Damage, e: Damage, o: Node, n: Node, j: nat, at: nat)
    requires RowDiff(o, n) && j < |n.children[0].children| && FirstAt(o.children[0].children, n.children[0].children[j].key, at)
    requires GrowsBy(d, e, (x, y) => Warranted(o.children[0].children[at], n.children[0].children[j], x, y))
    ensures GrowsBy(d, e, (x, y) => RowSeen(o, n, n.children[0].children[j], x, y))
    ensures OneRowPieces(o, n, j) == Pieces(o.children[0].children[at], n.children[0].children[j])
  {
    var os, r := o.children[0].children, n.children[0].children[j];
    OnlyFirst(os, r.key, at);
    assert os[at] in os;
    assert FirstWhere(os, (m: Node) => m.key == r.key) == at;
    hide Pieces;
    hide Warranted;
    hide Damage.Covers;
  }

  lemma RowEntered(d: Damage, e: Damage, o: Node, n: Node, j: nat)
    requires RowDiff(o, n) && j < |n.children[0].children| && !HasKey(o.children[0].children, n.children[0].children[j].key)
    requires GrowsBy(d, e, (x, y) => InFrame(n, x, y) && Near(n.children[0].children[j], x, y))
    ensures GrowsBy(d, e, (x, y) => RowSeen(o, n, n.children[0].children[j], x, y))
    ensures OneRowPieces(o, n, j) == One((x, y) => InFrame(n, x, y) && Near(n.children[0].children[j], x, y))
  {
    var os, r := o.children[0].children, n.children[0].children[j];
    assert forall m <- os :: m.key != r.key;
    hide One;
    hide Damage.Covers;
    hide InFrame;
    hide Near;
  }

  /** All rows together. */
  lemma AllRowsGrow(d: Damage, e: Damage, f: Damage, o: Node, n: Node)
    requires RowDiff(o, n) && (e.full ==> f.full)
    requires RowsGrow(d, e, o, n, |n.children[0].children|) && LeftGrow(e, f, o, n, |o.children[0].children|)
    ensures GrowsBy(d, f, (x, y) => Warranted(o, n, x, y))
  {
    ScrollWarranted(o, n);
    hide Warranted;
    hide RowSeen;
    hide Left;
    hide Damage.Covers;
    var os, ns := o.children[0].children, n.children[0].children;
    forall x, y
      ensures Warranted(o, n, x, y) <==>
              (exists j | 0 <= j < |ns| :: RowSeen(o, n, ns[j], x, y)) || exists j | 0 <= j < |os| :: Left(n, os[j], x, y)
    {
      if r :| r in ns && RowSeen(o, n, r, x, y) {
        var j :| 0 <= j < |ns| && ns[j] == r;
      }
      if r :| r in os && Left(n, r, x, y) {
        var j :| 0 <= j < |os| && os[j] == r;
      }
    }
  }

  lemma ScrollWarranted(o: Node, n: Node)
    requires o.kind == n.kind == Scroll
    ensures Moved(o, n) ==> forall x, y :: Warranted(o, n, x, y) <==> Near(o, x, y) || Near(n, x, y)
    ensures !Moved(o, n) && !RowDiff(o, n) ==> forall x, y :: Warranted(o, n, x, y) <==> InFrame(n, x, y)
    ensures RowDiff(o, n) ==> forall x, y :: Warranted(o, n, x, y) <==>
              (exists r <- n.children[0].children :: RowSeen(o, n, r, x, y)) || exists r <- o.children[0].children :: Left(n, r, x, y)
  {
    ChangedLooks(o, n);
    hide Near;
    hide InFrame;
    if RowDiff(o, n) {
      forall x, y, r | RowWarranted(o, r, x, y)
        ensures HasKey(o.children[0].children, r.key)
      {
        var i :| FirstAt(o.children[0].children, r.key, i) && Warranted(o.children[0].children[i], r, x, y);
        assert o.children[0].children[i] in o.children[0].children;
      }
    }
  }

  /** Somewhere the walk compares nodes of different kinds or with different numbers of children. */
  ghost predicate Restructured(o: Node, n: Node)
    decreases o, 2
  {
    o.kind != n.kind ||
    if n.kind == Scroll then RowDiff(o, n) && RowsRestructured(o, n, |n.children[0].children|)
    else |o.children| != |n.children| || exists i | 0 <= i < |o.children| :: Restructured(o.children[i], n.children[i])
  }

  /** One of the first `k` rows was restructured. */
  ghost predicate RowsRestructured(o: Node, n: Node, k: nat)
    requires RowDiff(o, n) && k <= |n.children[0].children|
    decreases o, 1
  {
    exists j | 0 <= j < k :: RowRestructured(o, n, j)
  }

  ghost predicate RowRestructured(o: Node, n: Node, j: nat)
    requires RowDiff(o, n) && j < |n.children[0].children|
    decreases o, 0
  {
    var os, r := o.children[0].children, n.children[0].children[j];
    exists i | 0 <= i < |os| :: FirstAt(os, r.key, i) && Restructured(os[i], r)
  }

  /** No comparison the walk makes finds a difference. */
  ghost predicate Quiet(o: Node, n: Node)
    decreases o
  {
    o.kind == n.kind &&
    if n.kind == Scroll then
      RowDiff(o, n) &&
      var os, ns := o.children[0].children, n.children[0].children;
      (forall i, j | 0 <= i < |os| && 0 <= j < |ns| && FirstAt(os, ns[j].key, i) :: Quiet(os[i], ns[j])) &&
      (forall r <- ns :: HasKey(os, r.key)) && forall r <- os :: HasKey(ns, r.key)
    else
      |o.children| == |n.children| && !NodeChanged(o, n) &&
      forall i | 0 <= i < |o.children| :: Quiet(o.children[i], n.children[i])
  }

  lemma ChildrenDiffable(o: Node, n: Node, font: Font)
    requires o.kind == n.kind && n.kind != Scroll && |o.children| == |n.children|
    ensures Diffable(o, n, font) ==> forall i | 0 <= i < |o.children| :: Diffable(o.children[i], n.children[i], font)
  {
  }

  lemma ChildrenQuiet(o: Node, n: Node)
    requires o.kind == n.kind && n.kind != Scroll && |o.children| == |n.children|
    ensures Quiet(o, n) ==> forall i | 0 <= i < |o.children| :: Quiet(o.children[i], n.children[i])
  {
  }

  lemma ChildrenClearable(o: Node, n: Node)
    requires o.kind == n.kind && n.kind != Scroll && |o.children| == |n.children|
    ensures forall w: int, i | Clearable(o, n, w) && 0 <= i < |o.children| :: Clearable(o.children[i], n.children[i], w)
    ensures forall w: int | Clearable(o, n, w) && NodeChanged(o, n) :: RectMeets(NodeRect(o), w) && RectMeets(NodeRect(n), w)
  {
  }

  /** Compare two builds. Comparable trees are told apart at every pixel where they differ; a pair
      without a difference costs nothing; a node that moved is damaged; everything is damaged exactly
      when the structure differs or the rectangles run out. */
  method Walk(o: Node, n: Node, d: DamageSet, ghost font: Font)
    modifies d
    ensures Grows(old(d.Value()), d.Value())
    ensures Diffable(o, n, font) ==> Sound(d.Value(), o, n, font)
    ensures StaysOnColumns(old(d.Value()), d.Value(), o, n)
    ensures Quiet(o, n) ==> d.Value() == old(d.Value())
    ensures RedrawnCovered(d.Value(), o, n)
    ensures GivesUp(old(d.Value()), d.Value(), Restructured(o, n), Pieces(o, n))
    ensures GrowsBy(old(d.Value()), d.Value(), (x, y) => Warranted(o, n, x, y))
    decreases o, 1
  {
    hide Comparable;
    hide WellFormed;
    hide Px;
    hide NodeRect;
    if o.kind != n.kind {
      d.full := true;
      return;
    }
    if n.kind == Scroll {
      ReconcileScroll(o, n, d, font);
      return;
    }
    if |o.children| != |n.children| {
      d.full := true;
      return;
    }
    ghost var d0 := d.Value();
    if NodeChanged(o, n) {
      d.Add(NodeRect(o));
      d.Add(NodeRect(n));
      AddBoth(d0, o, n);
    }
    ChildrenClearable(o, n);
    hide Clearable;
    hide RectMeets;
    ghost var d1 := d.Value();
    NodePieces(o, n);
    hide Pieces;
    hide One;
    hide KidPieces;
    hide NodeChanged;
    WalkChildren(o, n, d, font);
    NodeAndChildren(d0, d1, d.Value(), o, n);
    if Diffable(o, n, font) {
      NodeSound(d.Value(), o, n, font);
    }
  }

  lemma NodeAndChildren(d: Damage, e: Damage, f: Damage, o: Node, n: Node)
    requires o.kind == n.kind && n.kind != Scroll && |o.children| == |n.children| && (e.full ==> f.full)
    requires if NodeChanged(o, n) then GrowsBy(d, e, (x, y) => Near(o, x, y) || Near(n, x, y)) else e == d
    requires KidsGrow(e, f, o.children, n.children, |o.children|)
    ensures GrowsBy(d, f, (x, y) => Warranted(o, n, x, y))
  {
    PlainWarranted(o, n);
    hide Warranted;
    hide NodeChanged;
    hide Near;
    hide Damage.Covers;
  }

  /** The first `k` children have been compared. */
  ghost predicate Compared(d: Damage, e: Damage, o: Node, n: Node, font: Font, k: nat)
    requires k <= |o.children| == |n.children|
  {
    && Grows(d, e) && StaysOnColumns(d, e, o, n)
    && (Diffable(o, n, font) ==> forall i | 0 <= i < k :: Sound(e, o.children[i], n.children[i], font))
    && (Quiet(o, n) ==> e == d)
    && GivesUp(d, e, exists i | 0 <= i < k :: Restructured(o.children[i], n.children[i]), KidPieces(o, n, k))
    && KidsGrow(d, e, o.children, n.children, k)
  }

  lemma NoneCompared(d: Damage, o: Node, n: Node, font: Font)
    requires |o.children| == |n.children|
    ensures Compared(d, d, o, n, font, 0)
  {
    NoKidsGrow(d, o.children, n.children);
    hide Clearable;
  }

  lemma ComparedMore(d: Damage, e: Damage, f: Damage, o: Node, n: Node, font: Font, k: nat)
    requires o.kind == n.kind && n.kind != Scroll && k < |o.children| == |n.children| && Compared(d, e, o, n, font, k)
    requires var a, b := o.children[k], n.children[k];
             && Grows(e, f) && (Diffable(a, b, font) ==> Sound(f, a, b, font)) && StaysOnColumns(e, f, a, b)
             && (Quiet(a, b) ==> f == e) && GivesUp(e, f, Restructured(a, b), Pieces(a, b)) && GrowsBy(e, f, (x, y) => Warranted(a, b, x, y))
    ensures Compared(d, f, o, n, font, k + 1)
  {
    KidsGrowMore(d, e, f, o.children, n.children, k);
    KidColumns(d, e, f, o, n, k);
    KidSound(e, f, o, n, font, k);
    KidGivesUp(d, e, f, o, n, k);
    ChildrenQuiet(o, n);
    hide Diffable;
    hide StaysOnColumns;
    hide KidsGrow;
    hide Quiet;
    hide Restructured;
    hide Pieces;
    hide KidPieces;
    hide Sound;
    hide GivesUp;
    hide GrowsBy;
  }

  lemma KidSound(e: Damage, f: Damage, o: Node, n: Node, font: Font, k: nat)
    requires o.kind == n.kind && n.kind != Scroll && k < |o.children| == |n.children| && Grows(e, f)
    requires Diffable(o, n, font) ==> forall i | 0 <= i < k :: Sound(e, o.children[i], n.children[i], font)
    requires Diffable(o.children[k], n.children[k], font) ==> Sound(f, o.children[k], n.children[k], font)
    ensures Diffable(o, n, font) ==> forall i | 0 <= i < k + 1 :: Sound(f, o.children[i], n.children[i], font)
  {
    ChildrenDiffable(o, n, font);
    hide Diffable;
    hide Sound;
    if Diffable(o, n, font) {
      forall i | 0 <= i < k
        ensures Sound(f, o.children[i], n.children[i], font)
      {
        SoundGrows(e, f, o.children[i], n.children[i], font);
      }
    }
  }

  lemma KidGivesUp(d: Damage, e: Damage, f: Damage, o: Node, n: Node, k: nat)
    requires k < |o.children| == |n.children|
    requires GivesUp(d, e, exists i | 0 <= i < k :: Restructured(o.children[i], n.children[i]), KidPieces(o, n, k))
    requires GivesUp(e, f, Restructured(o.children[k], n.children[k]), Pieces(o.children[k], n.children[k]))
    ensures GivesUp(d, f, exists i | 0 <= i < k + 1 :: Restructured(o.children[i], n.children[i]), KidPieces(o, n, k + 1))
  {
    hide Restructured;
    hide Pieces;
  }

  lemma KidColumns(d: Damage, e: Damage, f: Damage, o: Node, n: Node, k: nat)
    requires o.kind == n.kind && n.kind != Scroll && k < |o.children| == |n.children|
    requires StaysOnColumns(d, e, o, n) && StaysOnColumns(e, f, o.children[k], n.children[k])
    ensures StaysOnColumns(d, f, o, n)
  {
    ChildrenClearable(o, n);
    hide Clearable;
  }

  /** Compare the children one by one, until everything is damaged. */
  method WalkChildren(o: Node, n: Node, d: DamageSet, ghost font: Font)
    requires o.kind == n.kind && n.kind != Scroll && |o.children| == |n.children|
    modifies d
    ensures Grows(old(d.Value()), d.Value()) && StaysOnColumns(old(d.Value()), d.Value(), o, n)
    ensures d.full || (Diffable(o, n, font) ==> forall i | 0 <= i < |o.children| :: Sound(d.Value(), o.children[i], n.children[i], font))
    ensures Quiet(o, n) ==> d.Value() == old(d.Value())
    ensures GivesUp(old(d.Value()), d.Value(), exists i | 0 <= i < |o.children| :: Restructured(o.children[i], n.children[i]),
                    KidPieces(o, n, |o.children|))
    ensures KidsGrow(old(d.Value()), d.Value(), o.children, n.children, |o.children|)
    decreases o, 0
  {
    ghost var d0 := d.Value();
    NoneCompared(d0, o, n, font);
    var i := 0;
    while i < |n.children| && !d.full
      invariant 0 <= i <= |n.children| && Compared(d0, d.Value(), o, n, font, i)
      decreases |n.children| - i
    {
      hide *;
      ghost var before := d.Value();
      Walk(o.children[i], n.children[i], d, font);
      ComparedMore(d0, before, d.Value(), o, n, font, i);
      i := i + 1;
    }
    hide Diffable;
    hide Clearable;
    hide Quiet;
    hide Restructured;
    hide Sound;
    if d.full {
      KidsGrowFull(d0, d.Value(), o.children, n.children);
    }
    KidPiecesGrow(o, n, i);
    hide KidPieces;
    hide KidsGrow;
  }

  /** The first row with the given key, if any. */
  method FindRow(rows: seq<Node>, key: int) returns (at: int)
    ensures -1 <= at < |rows|
    ensures at >= 0 ==> rows[at].key == key && forall j | 0 <= j < at :: rows[j].key != key
    ensures at < 0 ==> forall r <- rows :: r.key != key
  {
    at := 0;
    while at < |rows|
      invariant 0 <= at <= |rows|
      invariant forall j | 0 <= j < at :: rows[j].key != key
    {
      if rows[at].key == key {
        return;
      }
      at := at + 1;
    }
    at := -1;
  }

  lemma StillFrame(o: Node, n: Node)
    requires !Moved(o, n)
    ensures FrameRect(o) == FrameRect(n)
  {
  }

  lemma CoveredRow(d: Damage, r: Node, others: seq<Node>, vp: Rect)
    requires forall x, y | Intersect(NodeRect(r), vp).Has(x, y) :: d.Covers(x, y)
    ensures RowHandled(d, r, others, vp)
  {
    hide NodeRect;
  }

  lemma KeyedRow(d: Damage, r: Node, others: seq<Node>, vp: Rect, at: nat)
    requires at < |others| && others[at].key == r.key
    ensures RowHandled(d, r, others, vp)
  {
    assert others[at] in others;
  }

  /** What the columns condition says about the rows. */
  lemma RowsClearable(o: Node, n: Node)
    requires RowDiff(o, n)
    ensures forall w: int | Clearable(o, n, w) ::
              (forall j | 0 <= j < |n.children[0].children| :: RowClearable(o, n, j, w)) &&
              forall r <- o.children[0].children | !HasKey(n.children[0].children, r.key) ::
                RectMeets(Intersect(NodeRect(r), FrameRect(n)), w)
  {
  }

  lemma HandledGrows(d: Damage, e: Damage, rows: seq<Node>, others: seq<Node>, vp: Rect)
    requires Grows(d, e) && forall r <- rows :: RowHandled(d, r, others, vp)
    ensures forall r <- rows :: RowHandled(e, r, others, vp)
  {
    hide NodeRect;
    forall r | r in rows
      ensures RowHandled(e, r, others, vp)
    {
      assert RowHandled(d, r, others, vp);
    }
  }

  lemma OnlyFirst(rows: seq<Node>, key: int, at: int)
    requires FirstAt(rows, key, at)
    ensures forall i | FirstAt(rows, key, i) :: i == at
  {
  }

  /** What a keyed diff may use about the rows of both builds. */
  lemma RowFacts(o: Node, n: Node, font: Font)
    requires RowDiff(o, n)
    ensures Diffable(o, n, font) ==>
            var os, ns := o.children[0].children, n.children[0].children;
            forall i, j | 0 <= j < |ns| && FirstAt(os, ns[j].key, i) :: Diffable(os[i], ns[j], font)
  {
    assert Diffable(o, n, font) ==> WellFormed(o.children[0]) && WellFormed(n.children[0]);
  }

  lemma QuietRows(o: Node, n: Node)
    requires RowDiff(o, n)
    ensures Quiet(o, n) ==>
            var os, ns := o.children[0].children, n.children[0].children;
            (forall i, j | 0 <= i < |os| && 0 <= j < |ns| && FirstAt(os, ns[j].key, i) :: Quiet(os[i], ns[j])) &&
            (forall r <- ns :: HasKey(os, r.key)) && forall r <- os :: HasKey(ns, r.key)
  {
  }

  /** Rows of the old content that are gone: repaint what they showed inside the viewport. */
  method DamageLeftRows(o: Node, n: Node, d: DamageSet)
    requires RowDiff(o, n)
    modifies d
    ensures Grows(old(d.Value()), d.Value()) && StaysOnColumns(old(d.Value()), d.Value(), o, n)
    ensures forall r <- o.children[0].children :: RowHandled(d.Value(), r, n.children[0].children, FrameRect(n))
    ensures (forall r <- o.children[0].children :: HasKey(n.children[0].children, r.key)) ==>
              d.Value() == old(d.Value())
    ensures GivesUp(old(d.Value()), d.Value(), false, LeftPieces(o, n, |o.children[0].children|))
    ensures NewInside(old(d.Value()), d.Value(), FrameRect(n))
    ensures LeftGrow(old(d.Value()), d.Value(), o, n, |o.children[0].children|)
  {
    hide NodeRect;
    hide FrameRect;
    hide Intersect;
    hide RowHandled;
    hide Added;
    RowsClearable(o, n);
    hide Clearable;
    hide RowClearable;
    hide RectMeets;
    hide GrowsBy;
    hide LeftGrow;
    hide InFrame;
    hide Near;
    ghost var d0 := d.Value();
    NoneLeftGrow(d0, o, n);
    var vp := FrameRect(n);
    var oc, nc := o.children[0], n.children[0];
    var j := 0;
    while j < |oc.children|
      invariant 0 <= j <= |oc.children|
      invariant Grows(d0, d.Value()) && StaysOnColumns(d0, d.Value(), o, n)
      invariant forall k | 0 <= k < j :: RowHandled(d.Value(), oc.children[k], nc.children, vp)
      invariant (forall r <- oc.children :: HasKey(nc.children, r.key)) ==> d.Value() == d0
      invariant GivesUp(d0, d.Value(), false, LeftPieces(o, n, j)) && NewInside(d0, d.Value(), vp)
      invariant LeftGrow(d0, d.Value(), o, n, j)
    {
      ghost var before := d.Value();
      var orow := oc.children[j];
      var still := FindRow(nc.children, orow.key);
      if still < 0 {
        d.Add(Intersect(NodeRect(orow), vp));
        AddInViewport(before, Intersect(NodeRect(orow), vp), orow, n);
        CoveredRow(d.Value(), orow, nc.children, vp);
      } else {
        KeyedRow(d.Value(), orow, nc.children, vp, still);
      }
      LeftGrowMore(d0, before, d.Value(), o, n, j);
      HandledGrows(before, d.Value(), oc.children[..j], nc.children, vp);
      j := j + 1;
    }
  }

  /** One visible row of the new content: repaint it if it entered, else compare it with the
      old row of the same key. */
  method DiffRow(o: Node, n: Node, i: nat, d: DamageSet, ghost font: Font)
    requires RowDiff(o, n) && i < |n.children[0].children|
    modifies d
    ensures Grows(old(d.Value()), d.Value()) && StaysOnColumns(old(d.Value()), d.Value(), o, n)
    ensures RowHandled(d.Value(), n.children[0].children[i], o.children[0].children, FrameRect(n))
    ensures Diffable(o, n, font) ==>
              RowsSoundSoFar(d.Value(), o.children[0].children, [n.children[0].children[i]], font)
    ensures Quiet(o, n) ==> d.Value() == old(d.Value())
    ensures GivesUp(old(d.Value()), d.Value(), RowRestructured(o, n, i), OneRowPieces(o, n, i))
    ensures (forall m <- o.children[0].children :: m.key != n.children[0].children[i].key) ==>
              NewInside(old(d.Value()), d.Value(), FrameRect(n))
    ensures GrowsBy(old(d.Value()), d.Value(), (x, y) => RowSeen(o, n, n.children[0].children[i], x, y))
    decreases o, 0, 0
  {
    hide Px;
    hide NodeRect;
    hide FrameRect;
    hide Intersect;
    hide Added;
    hide Comparable;
    hide WellFormed;
    hide RowHandled;
    hide Quiet;
    hide Sound;
    RowFacts(o, n, font);
    QuietRows(o, n);
    RowsClearable(o, n);
    hide Clearable;
    hide Pieces;
    hide OneRowPieces;
    hide One;
    hide RowRestructured;
    hide GrowsBy;
    hide InFrame;
    hide Near;
    hide Warranted;
    ghost var before := d.Value();
    var vp := FrameRect(n);
    var oc, nc := o.children[0], n.children[0];
    var nr := nc.children[i];
    assert forall w: int | Clearable(o, n, w) :: RowClearable(o, n, i, w);
    var found := FindRow(oc.children, nr.key);
    if found < 0 {
      d.Add(Intersect(NodeRect(nr), vp));
      AddInViewport(before, Intersect(NodeRect(nr), vp), nr, n);
      RowEntered(before, d.Value(), o, n, i);
      CoveredRow(d.Value(), nr, oc.children, vp);
    } else {
      assert FirstAt(oc.children, nr.key, found);
      OnlyFirst(oc.children, nr.key, found);
      assert forall w: int | Clearable(o, n, w) :: Clearable(oc.children[found], nr, w);
      Walk(oc.children[found], nr, d, font);
      RowCompared(before, d.Value(), o, n, i, found);
      assert oc.children[found] in oc.children;
      KeyedRow(d.Value(), nr, oc.children, vp, found);
    }
  }

  /** The rows of the new content, one after the other. */
  method DiffNewRows(o: Node, n: Node, d: DamageSet, ghost font: Font)
    requires RowDiff(o, n)
    modifies d
    ensures Grows(old(d.Value()), d.Value()) && StaysOnColumns(old(d.Value()), d.Value(), o, n)
    ensures forall r <- n.children[0].children :: RowHandled(d.Value(), r, o.children[0].children, FrameRect(n))
    ensures Diffable(o, n, font) ==> RowsSoundSoFar(d.Value(), o.children[0].children, n.children[0].children, font)
    ensures Quiet(o, n) ==> d.Value() == old(d.Value())
    ensures GivesUp(old(d.Value()), d.Value(), RowsRestructured(o, n, |n.children[0].children|), RowPieces(o, n, |n.children[0].children|))
    ensures RowsGrow(old(d.Value()), d.Value(), o, n, |n.children[0].children|)
    decreases o, 0, 1
  {
    hide FrameRect;
    hide Diffable;
    hide RowHandled;
    hide Quiet;
    hide RowsSoundSoFar;
    hide OneRowPieces;
    hide RowRestructured;
    ghost var d0 := d.Value();
    ghost var vp := FrameRect(n);
    var oc, nc := o.children[0], n.children[0];
    NoRowsSound(d0, oc.children, font);
    NoRowsGrow(d0, o, n);
    hide RowsGrow;
    hide GrowsBy;
    var i := 0;
    while i < |nc.children|
      invariant 0 <= i <= |nc.children|
      invariant Grows(d0, d.Value()) && StaysOnColumns(d0, d.Value(), o, n)
      invariant forall k | 0 <= k < i :: RowHandled(d.Value(), nc.children[k], oc.children, vp)
      invariant Diffable(o, n, font) ==> RowsSoundSoFar(d.Value(), oc.children, nc.children[..i], font)
      invariant Quiet(o, n) ==> d.Value() == d0
      invariant GivesUp(d0, d.Value(), RowsRestructured(o, n, i), RowPieces(o, n, i))
      invariant RowsGrow(d0, d.Value(), o, n, i)
    {
      ghost var before := d.Value();
      DiffRow(o, n, i, d, font);
      RowsGrowMore(d0, before, d.Value(), o, n, i);
      HandledGrows(before, d.Value(), nc.children[..i], oc.children, vp);
      if Diffable(o, n, font) {
        RowsSoundGrow(before, d.Value(), oc.children, nc.children[..i], font);
        OneMoreRowSound(d.Value(), oc.children, nc.children, i, font);
      }
      i := i + 1;
    }
    assert nc.children[..i] == nc.children;
  }

  lemma NoRowsSound(d: Damage, os: seq<Node>, font: Font)
    ensures forall ns: seq<Node> :: RowsSoundSoFar(d, os, ns[..0], font)
  {
  }

  lemma OneMoreRowSound(d: Damage, os: seq<Node>, ns: seq<Node>, i: nat, font: Font)
    requires i < |ns| && RowsSoundSoFar(d, os, ns[..i], font) && RowsSoundSoFar(d, os, [ns[i]], font)
    ensures RowsSoundSoFar(d, os, ns[..i + 1], font)
  {
    hide Sound;
    hide RedrawnCovered;
    assert ns[..i + 1] == ns[..i] + [ns[i]];
    assert [ns[i]][0] == ns[i];
  }

  /** The keyed diff of the visible rows: entering and leaving rows damage their part of the
      viewport, rows present in both builds are compared in place. */
  method DiffRows(o: Node, n: Node, d: DamageSet, ghost font: Font)
    requires RowDiff(o, n)
    modifies d
    ensures Grows(old(d.Value()), d.Value())
    ensures Diffable(o, n, font) ==> Sound(d.Value(), o, n, font)
    ensures StaysOnColumns(old(d.Value()), d.Value(), o, n)
    ensures Quiet(o, n) ==> d.Value() == old(d.Value())
    ensures GivesUp(old(d.Value()), d.Value(), RowsRestructured(o, n, |n.children[0].children|),
                    Pieces(o, n))
    ensures GrowsBy(old(d.Value()), d.Value(), (x, y) => Warranted(o, n, x, y))
    decreases o, 0, 2
  {
    hide FrameRect;
    hide Comparable;
    hide WellFormed;
    hide RowHandled;
    hide Quiet;
    hide Sound;
    hide RowsRestructured;
    hide RowsSoundSoFar;
    QuietRows(o, n);
    ghost var vp := FrameRect(n);
    var oc, nc := o.children[0], n.children[0];
    hide GrowsBy;
    hide RowsGrow;
    hide LeftGrow;
    ghost var d0 := d.Value();
    DiffNewRows(o, n, d, font);
    ghost var d1 := d.Value();
    DamageLeftRows(o, n, d);
    AllRowsGrow(d0, d1, d.Value(), o, n);
    HandledGrows(d1, d.Value(), nc.children, oc.children, vp);
    if Diffable(o, n, font) {
      RowsSoundGrow(d1, d.Value(), oc.children, nc.children, font);
      RowsSound(d.Value(), o, n, font);
    }
  }

  method ReconcileScroll(o: Node, n: Node, d: DamageSet, ghost font: Font)
    requires o.kind == Scroll && n.kind == Scroll
    modifies d
    ensures Grows(old(d.Value()), d.Value())
    ensures Diffable(o, n, font) ==> Sound(d.Value(), o, n, font)
    ensures StaysOnColumns(old(d.Value()), d.Value(), o, n)
    ensures Quiet(o, n) ==> d.Value() == old(d.Value())
    ensures RedrawnCovered(d.Value(), o, n)
    ensures GivesUp(old(d.Value()), d.Value(), Restructured(o, n), Pieces(o, n))
    ensures GrowsBy(old(d.Value()), d.Value(), (x, y) => Warranted(o, n, x, y))
    decreases o, 0, 3
  {
    hide Comparable;
    hide WellFormed;
    hide Px;
    hide NodeRect;
    hide FrameRect;
    hide Intersect;
    hide Added;
    ghost var d0 := d.Value();
    var vp := FrameRect(n);
    if o.x != n.x || o.y != n.y || o.w != n.w || o.h != n.h {
      d.Add(NodeRect(o));
      d.Add(NodeRect(n));
      AddBoth(d0, o, n);
      forall x, y | FrameRect(o).Has(x, y) || FrameRect(n).Has(x, y)
        ensures d.Value().Covers(x, y)
      {
        if FrameRect(o).Has(x, y) { FrameInNodeRect(o, x, y); } else { FrameInNodeRect(n, x, y); }
      }
      if Diffable(o, n, font) { ViewportDamaged(d.Value(), o, n, font); }
      return;
    }
    StillFrame(o, n);
    if |o.children| == 0 || |n.children| == 0 {
      d.Add(vp);
      AddInViewport(d0, vp, n, n);
      if Diffable(o, n, font) { ViewportDamaged(d.Value(), o, n, font); }
      return;
    }
    var oc, nc := o.children[0], n.children[0];
    if oc.y != nc.y {
      d.Add(vp);
      AddInViewport(d0, vp, n, n);
      if Diffable(o, n, font) { ViewportDamaged(d.Value(), o, n, font); }
      return;
    }
    DiffRows(o, n, d, font);
  }

  /** Diff two builds into `out`; without a previous build everything is damaged. */
  method Diff(previous: Option<Node>, current: Node, out: DamageSet, ghost font: Font)
    modifies out
    ensures previous.None? ==> out.full
    ensures previous.Some? && Diffable(previous.value, current, font) ==> Sound(out.Value(), previous.value, current, font)
    ensures forall w: int | previous.Some? ==> Clearable(previous.value, current, w) :: out.Value().Meets(w)
    ensures previous.Some? && Quiet(previous.value, current) ==> out.Value() == NO_DAMAGE
    ensures previous.Some? ==> GivesUp(NO_DAMAGE, out.Value(), Restructured(previous.value, current), Pieces(previous.value, current))
    ensures previous.Some? ==> Grows(NO_DAMAGE, out.Value())
    ensures previous.Some? ==> GrowsBy(NO_DAMAGE, out.Value(), (x, y) => Warranted(previous.value, current, x, y))
  {
    out.Reset();
    if previous.None? {
      out.full := true;
      return;
    }
    Walk(previous.value, current, out, font);
  }
}
