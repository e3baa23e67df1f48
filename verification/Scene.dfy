/** A laid-out view tree and what painting it means, pixel by pixel.
    `Px` never mentions a clip: it is the reference the clipped painter is proved against. */
module Scene {
  import opened Geometry
  import opened Pixels

  datatype Kind = Stack | Solid | Text | Spacer | Scroll

  /** The painted part of a node after layout. `clip` is set on scroll viewports. */
  datatype Node = Node(kind: Kind, x: real, y: real, w: real, h: real, padding: real,
                       hasBg: bool, bg: Color, radius: real, color: Color,
                       text: string, fontSize: real, fg: Color,
                       focused: bool, key: int, clip: bool, children: seq<Node>)

  /** One drawn glyph sample: a pixel and its coverage. */
  datatype Sample = Sample(x: int, y: int, cov: Byte)

  /** Shaping and rasterising are foreign code: text, size and pen position give the
      samples to blend, in drawing order. A missing font gives none. */
  type Font = (string, real, real, real) -> seq<Sample>

  /** The pixel's centre is further than `r` from `(cx, cy)`. */
  predicate BeyondArc(px: int, py: int, cx: real, cy: real, r: real)
  {
    var dx := px as real + 0.5 - cx;
    var dy := py as real + 0.5 - cy;
    dx * dx + dy * dy > r * r
  }

  /** A rounded rectangle to fill, in surface coordinates. */
  datatype Plate = Plate(x: real, y: real, w: real, h: real, radius: real) {
    function X0(): int { Trunc(x + 0.5) }
    function Y0(): int { Trunc(y + 0.5) }
    function X1(): int { Trunc(x + w + 0.5) }
    function Y1(): int { Trunc(y + h + 0.5) }

    /** The corner radius, limited to half of each side. */
    function R(): real
    {
      var rw := (X1() - X0()) as real;
      var rh := (Y1() - Y0()) as real;
      var r1 := if radius > rw / 2.0 then rw / 2.0 else radius;
      if r1 > rh / 2.0 then rh / 2.0 else r1
    }

    /** The pixel lies in a rounded corner, outside its arc. */
    predicate Cut(px: int, py: int)
    {
      var r := R();
      r > 0.5 &&
      var left := (px - X0()) as real < r;
      var right := (X1() - 1 - px) as real < r;
      var top := (py - Y0()) as real < r;
      var bottom := (Y1() - 1 - py) as real < r;
      (left || right) && (top || bottom) &&
      var cx := if left then X0() as real + r else X1() as real - r;
      var cy := if top then Y0() as real + r else Y1() as real - r;
      cx >= 0.0 && BeyondArc(px, py, cx, cy, r)
    }

    predicate Covers(px: int, py: int)
    {
      X0() <= px < X1() && Y0() <= py < Y1() && !Cut(px, py)
    }
  }

  const RING: Color := Color(0x2e, 0x9b, 0xff, 0xff)

  /** The node's frame as a plate. */
  function FramePlate(n: Node): Plate { Plate(n.x, n.y, n.w, n.h, n.radius) }

  /** The focus ring: a plate 5 px larger than the frame on every side. */
  function RingPlate(n: Node): Plate
  {
    Plate(n.x - 5.0, n.y - 5.0, n.w + 10.0, n.h + 10.0, if n.radius > 0.0 then n.radius + 5.0 else 0.0)
  }

  predicate HasRing(n: Node) { n.focused && (n.hasBg || n.kind == Solid) }

  /** The frame rounded to pixels, as viewports clip to it. */
  function FrameRect(n: Node): Rect
  {
    Rect(Trunc(n.x), Trunc(n.y), Trunc(n.x + n.w), Trunc(n.y + n.h))
  }

  function Glyphs(n: Node, font: Font): seq<Sample>
  {
    font(n.text, n.fontSize, n.x + n.padding, n.y + n.padding)
  }

  /** What filling a plate does to one pixel. */
  function FillPx(b: Plate, col: Color, x: int, y: int, p: Word): Word
  {
    if b.Covers(x, y) then FillOver(p, col) else p
  }

  /** What drawing glyph samples, in order, does to one pixel. */
  function InkPx(ink: seq<Sample>, col: Color, x: int, y: int, p: Word): Word
  {
    if ink == [] then p
    else
      var q := InkPx(ink[..|ink| - 1], col, x, y, p);
      var s := ink[|ink| - 1];
      if s.x == x && s.y == y then CoverOver(q, col, s.cov) else q
  }

  /** A node's own visuals (ring, background, content) at one pixel. */
  function OwnPx(n: Node, font: Font, x: int, y: int, p: Word): Word
  {
    var p1 := if HasRing(n) then FillPx(RingPlate(n), RING, x, y, p) else p;
    var p2 := if n.hasBg then FillPx(FramePlate(n), n.bg, x, y, p1) else p1;
    match n.kind
    case Solid => FillPx(FramePlate(n), n.color, x, y, p2)
    case Text => InkPx(Glyphs(n, font), n.fg, x, y, p2)
    case _ => p2
  }

  /** Painting a tree at one pixel whose value was `p`: a viewport hides everything outside
      its pixel frame; otherwise own visuals, then the children in order. */
  function Px(n: Node, font: Font, x: int, y: int, p: Word): Word
  {
    if n.clip && !FrameRect(n).Has(x, y) then p
    else KidsPx(n.children, font, x, y, OwnPx(n, font, x, y, p))
  }

  function KidsPx(cs: seq<Node>, font: Font, x: int, y: int, p: Word): Word
  {
    if cs == [] then p
    else Px(cs[|cs| - 1], font, x, y, KidsPx(cs[..|cs| - 1], font, x, y, p))
  }

  /** The picture of a tree: painted over a cleared surface. */
  function Picture(root: Node, font: Font, x: int, y: int): Word { Px(root, font, x, y, 0) }

  lemma {:induction false} KidsSplit(a: seq<Node>, b: seq<Node>, font: Font, x: int, y: int, p: Word)
    ensures KidsPx(a + b, font, x, y, p) == KidsPx(b, font, x, y, KidsPx(a, font, x, y, p))
    decreases |b|
  {
    if b == [] {
      assert a + b == a;
    } else {
      KidsSplit(a, b[..|b| - 1], font, x, y, p);
      assert (a + b)[..|a + b| - 1] == a + b[..|b| - 1];
    }
  }

  lemma {:induction false} InkPremultiplied(ink: seq<Sample>, col: Color, x: int, y: int, p: Word)
    requires Premultiplied(p)
    ensures Premultiplied(InkPx(ink, col, x, y, p))
    ensures AlphaOf(p) == 255 ==> AlphaOf(InkPx(ink, col, x, y, p)) == 255
  {
    hide CoverOver;
    hide Premultiplied;
    hide AlphaOf;
    if ink != [] {
      var rest := ink[..|ink| - 1];
      InkPremultiplied(rest, col, x, y, p);
      CoverOverPremultiplied(InkPx(rest, col, x, y, p), col, ink[|ink| - 1].cov);
    }
  }

  lemma FillPremultiplied(b: Plate, col: Color, x: int, y: int, p: Word)
    requires Premultiplied(p)
    ensures Premultiplied(FillPx(b, col, x, y, p))
    ensures AlphaOf(p) == 255 ==> AlphaOf(FillPx(b, col, x, y, p)) == 255
  {
    hide FillOver;
    FillOverPremultiplied(p, col);
  }

  lemma OwnPremultiplied(n: Node, font: Font, x: int, y: int, p: Word)
    requires Premultiplied(p)
    ensures Premultiplied(OwnPx(n, font, x, y, p))
    ensures AlphaOf(p) == 255 ==> AlphaOf(OwnPx(n, font, x, y, p)) == 255
  {
    hide FillPx;
    hide Premultiplied;
    hide AlphaOf;
    FillPremultiplied(RingPlate(n), RING, x, y, p);
    var p1 := if HasRing(n) then FillPx(RingPlate(n), RING, x, y, p) else p;
    FillPremultiplied(FramePlate(n), n.bg, x, y, p1);
    var p2 := if n.hasBg then FillPx(FramePlate(n), n.bg, x, y, p1) else p1;
    FillPremultiplied(FramePlate(n), n.color, x, y, p2);
    InkPremultiplied(Glyphs(n, font), n.fg, x, y, p2);
  }

  /** Painting any tree keeps every pixel valid premultiplied ARGB, and opaque pixels opaque. */
  lemma {:induction false} PaintPremultiplied(n: Node, font: Font, x: int, y: int, p: Word)
    requires Premultiplied(p)
    ensures Premultiplied(Px(n, font, x, y, p))
    ensures AlphaOf(p) == 255 ==> AlphaOf(Px(n, font, x, y, p)) == 255
    decreases n, 1
  {
    hide OwnPx;
    hide Premultiplied;
    hide AlphaOf;
    OwnPremultiplied(n, font, x, y, p);
    KidsPremultiplied(n.children, font, x, y, OwnPx(n, font, x, y, p));
  }

  lemma {:induction false} KidsPremultiplied(cs: seq<Node>, font: Font, x: int, y: int, p: Word)
    requires Premultiplied(p)
    ensures Premultiplied(KidsPx(cs, font, x, y, p))
    ensures AlphaOf(p) == 255 ==> AlphaOf(KidsPx(cs, font, x, y, p)) == 255
    decreases cs, 0
  {
    hide Premultiplied;
    hide AlphaOf;
    if cs != [] {
      KidsPremultiplied(cs[..|cs| - 1], font, x, y, p);
      PaintPremultiplied(cs[|cs| - 1], font, x, y, KidsPx(cs[..|cs| - 1], font, x, y, p));
    }
  }

  // ---------------------------------------------------------------- what is seen

  /** Which pixels of a plate without rounded corners are filled: those whose centres lie in its frame. */
  lemma FilledByCentres(b: Plate, px: int, py: int)
    requires b.x >= 0.0 && b.y >= 0.0 && b.w >= 0.0 && b.h >= 0.0 && b.radius <= 0.5
    ensures b.Covers(px, py) <==>
              b.x < px as real + 0.5 <= b.x + b.w && b.y < py as real + 0.5 <= b.y + b.h
  {
    var rw, rh := (b.X1() - b.X0()) as real, (b.Y1() - b.Y0()) as real;
    assert b.R() <= 0.5;
  }

  /** Rounding takes pixels away in the corners only: nothing in the two bands between them. */
  lemma BandsAreFilled(b: Plate, px: int, py: int)
    requires b.X0() <= px < b.X1() && b.Y0() <= py < b.Y1()
    requires (px >= b.X0() + 1 && (px - b.X0()) as real >= b.radius && (b.X1() - 1 - px) as real >= b.radius) ||
             (py >= b.Y0() + 1 && (py - b.Y0()) as real >= b.radius && (b.Y1() - 1 - py) as real >= b.radius)
    ensures b.Covers(px, py)
  {
    hide BeyondArc;
  }

  /** A place `p` of the span from `a` to `z` lies within `r` of one of its ends. */
  predicate NearEnd(a: int, z: int, p: int, r: real) { (p - a) as real < r || (z - 1 - p) as real < r }

  /** The middle of the rounding at that end. */
  function EndMiddle(a: int, z: int, p: int, r: real): real { if (p - a) as real < r then a as real + r else z as real - r }

  lemma CutIs(b: Plate, px: int, py: int)
    requires b.X0() >= 0
    requires b.X0() <= px < b.X1() && b.Y0() <= py < b.Y1()
    ensures var r := b.R();
            && r <= (b.X1() - b.X0()) as real / 2.0 && r <= (b.Y1() - b.Y0()) as real / 2.0
            && (b.radius <= (b.X1() - b.X0()) as real / 2.0 && b.radius <= (b.Y1() - b.Y0()) as real / 2.0 ==> r == b.radius)
            && (b.Cut(px, py) <==>
                  r > 0.5 && NearEnd(b.X0(), b.X1(), px, r) && NearEnd(b.Y0(), b.Y1(), py, r) &&
                  BeyondArc(px, py, EndMiddle(b.X0(), b.X1(), px, r), EndMiddle(b.Y0(), b.Y1(), py, r), r))
  {
    hide BeyondArc;
  }

  lemma EndsMirror(a: int, z: int, p: int, r: real)
    requires a <= p < z && 0.0 < r <= (z - a) as real / 2.0
    ensures var q := a + z - 1 - p;
            && (NearEnd(a, z, p, r) <==> NearEnd(a, z, q, r))
            && (NearEnd(a, z, p, r) && p != q ==> p as real + 0.5 - EndMiddle(a, z, p, r) == -(q as real + 0.5 - EndMiddle(a, z, q, r)))
  {
    var q := a + z - 1 - p;
    assert q - a == z - 1 - p && z - 1 - q == p - a;
    if (p - a) as real < r && (z - 1 - p) as real < r {
      assert ((p - a) + (z - 1 - p)) as real < 2.0 * r <= (z - a) as real;
      assert p - a == z - 1 - p;
    }
  }

  /** Rounded corners are mirror images of each other, left to right and top to bottom. */
  lemma CornersMirror(b: Plate, px: int, py: int)
    requires b.X0() >= 0 && b.X0() <= px < b.X1() && b.Y0() <= py < b.Y1()
    ensures b.Covers(px, py) <==> b.Covers(b.X0() + b.X1() - 1 - px, py)
    ensures b.Covers(px, py) <==> b.Covers(px, b.Y0() + b.Y1() - 1 - py)
  {
    var r := b.R();
    var qx, qy := b.X0() + b.X1() - 1 - px, b.Y0() + b.Y1() - 1 - py;
    CutIs(b, px, py);
    CutIs(b, qx, py);
    CutIs(b, px, qy);
    hide Plate.Cut;
    hide Plate.R;
    hide BeyondArc;
    if r > 0.5 {
      EndsMirror(b.X0(), b.X1(), px, r);
      EndsMirror(b.Y0(), b.Y1(), py, r);
      var cx, cy := EndMiddle(b.X0(), b.X1(), px, r), EndMiddle(b.Y0(), b.Y1(), py, r);
      if NearEnd(b.X0(), b.X1(), px, r) && px != qx {
        MirroredArc(px, qx, py, cx, EndMiddle(b.X0(), b.X1(), qx, r), cy, r);
      }
      if NearEnd(b.Y0(), b.Y1(), py, r) && py != qy {
        MirroredArcDown(px, py, qy, cx, cy, EndMiddle(b.Y0(), b.Y1(), qy, r), r);
      }
    }
    hide NearEnd;
    hide EndMiddle;
    hide Plate.X0;
    hide Plate.X1;
    hide Plate.Y0;
    hide Plate.Y1;
  }

  lemma MirroredArc(px: int, qx: int, py: int, cx: real, dx: real, cy: real, r: real)
    requires px as real + 0.5 - cx == -(qx as real + 0.5 - dx)
    ensures BeyondArc(px, py, cx, cy, r) <==> BeyondArc(qx, py, dx, cy, r)
  {
    SquareOfOpposite(qx as real + 0.5 - dx);
  }

  lemma MirroredArcDown(px: int, py: int, qy: int, cx: real, cy: real, dy: real, r: real)
    requires py as real + 0.5 - cy == -(qy as real + 0.5 - dy)
    ensures BeyondArc(px, py, cx, cy, r) <==> BeyondArc(px, qy, cx, dy, r)
  {
    SquareOfOpposite(qy as real + 0.5 - dy);
  }

  lemma SquareOfOpposite(x: real)
    ensures (-x) * (-x) == x * x
  {
  }

  /** A rounding of two pixels or more takes the corner pixel away. */
  lemma CornerIsEmpty(b: Plate)
    requires b.X0() >= 0 && b.radius >= 2.0 && b.X1() - b.X0() >= 4 && b.Y1() - b.Y0() >= 4
    ensures !b.Covers(b.X0(), b.Y0())
  {
    CutIs(b, b.X0(), b.Y0());
    var r := b.R();
    assert r >= 2.0;
    hide Plate.R;
    hide Plate.Cut;
    FarArc(b.X0(), b.Y0(), r);
    hide BeyondArc;
  }

  lemma FarArc(x: int, y: int, r: real)
    requires r >= 2.0
    ensures BeyondArc(x, y, x as real + r, y as real + r, r)
  {
    var d := 0.5 - r;
    assert x as real + 0.5 - (x as real + r) == d && y as real + 0.5 - (y as real + r) == d;
    FarCorner(r);
  }

  lemma FarCorner(r: real)
    requires r >= 2.0
    ensures (0.5 - r) * (0.5 - r) + (0.5 - r) * (0.5 - r) > r * r
  {
    assert (0.5 - r) * (0.5 - r) == r * r - r + 0.25;
    assert r * r >= 2.0 * r;
  }

  /** The focus ring reaches five pixels beyond the frame on every side. */
  lemma RingIsFive(n: Node)
    requires n.x >= 5.0 && n.y >= 5.0 && n.w >= 0.0 && n.h >= 0.0
    ensures var f, r := FramePlate(n), RingPlate(n);
            r.X0() == f.X0() - 5 && r.Y0() == f.Y0() - 5 && r.X1() == f.X1() + 5 && r.Y1() == f.Y1() + 5
  {
    assert n.x - 5.0 + 0.5 == n.x + 0.5 - 5.0 && n.y - 5.0 + 0.5 == n.y + 0.5 - 5.0;
    assert n.x - 5.0 + (n.w + 10.0) + 0.5 == n.x + n.w + 0.5 + 5.0;
    assert n.y - 5.0 + (n.h + 10.0) + 0.5 == n.y + n.h + 0.5 + 5.0;
  }

  /** A box without children: inside its frame its own opaque colour, in the ring beyond that the ring's
      blue if it has the focus, and elsewhere what was there. */
  lemma BoxIsSeen(n: Node, font: Font, x: int, y: int, p: Word)
    requires n.kind == Solid && n.children == [] && !n.clip && n.color.a == 255
    ensures Px(n, font, x, y, p) ==
            if FramePlate(n).Covers(x, y) then Pack(255, n.color.r, n.color.g, n.color.b)
            else if n.focused && RingPlate(n).Covers(x, y) then Pack(255, 46, 155, 255)
            else p
  {
    hide Plate.Covers;
    hide Pack;
  }

  /** A background covers its own ring, and the children cover both. */
  lemma BackgroundIsSeen(n: Node, font: Font, x: int, y: int, p: Word)
    requires n.kind == Stack && n.hasBg && n.bg.a == 255 && !n.clip
    ensures Px(n, font, x, y, p) ==
            KidsPx(n.children, font, x, y,
                   if FramePlate(n).Covers(x, y) then Pack(255, n.bg.r, n.bg.g, n.bg.b)
                   else if n.focused && RingPlate(n).Covers(x, y) then Pack(255, 46, 155, 255)
                   else p)
  {
    hide Plate.Covers;
    hide Pack;
    hide KidsPx;
  }

  /** Of overlapping siblings the last one is seen. */
  lemma LastIsSeen(cs: seq<Node>, n: Node, font: Font, x: int, y: int, p: Word)
    requires n.kind == Solid && n.children == [] && !n.clip && n.color.a == 255 && FramePlate(n).Covers(x, y)
    ensures KidsPx(cs + [n], font, x, y, p) == Pack(255, n.color.r, n.color.g, n.color.b)
  {
    BoxIsSeen(n, font, x, y, KidsPx(cs, font, x, y, p));
    assert (cs + [n])[..|cs|] == cs;
    hide Px;
    hide Plate.Covers;
  }

  /** A viewport shows nothing of itself or its content outside its frame, cut to whole pixels. */
  lemma ViewportHides(n: Node, font: Font, x: int, y: int, p: Word)
    requires n.clip && !(Trunc(n.x) <= x < Trunc(n.x + n.w) && Trunc(n.y) <= y < Trunc(n.y + n.h))
    ensures Px(n, font, x, y, p) == p
  {
  }

  /** Fully covered ink of an opaque colour hides what is below it, earlier ink included. */
  lemma LastInkIsSeen(ink: seq<Sample>, s: Sample, col: Color, p: Word)
    requires s.cov == 255 && col.a == 255
    ensures InkPx(ink + [s], col, s.x, s.y, p) == Pack(255, col.r, col.g, col.b)
  {
    assert (ink + [s])[..|ink|] == ink;
    var q := InkPx(ink, col, s.x, s.y, p);
    assert Coverage(255, 255) == 255;
    OpaqueInk(col.r, RedOf(q));
    OpaqueInk(col.g, GreenOf(q));
    OpaqueInk(col.b, BlueOf(q));
  }

  /** A text is its font's ink, from the padded corner of its frame on: a pixel of full coverage that is not
      inked again shows the text's opaque colour, and one without ink what is behind the text. */
  lemma TextIsSeen(n: Node, font: Font, k: nat, x: int, y: int, p: Word)
    requires n.kind == Text && n.children == [] && !n.clip && n.fg.a == 255
    ensures var ink := font(n.text, n.fontSize, n.x + n.padding, n.y + n.padding);
            && (k < |ink| && ink[k] == Sample(x, y, 255) && (forall j :: k < j < |ink| ==> ink[j].x != x || ink[j].y != y) ==>
                  Px(n, font, x, y, p) == Pack(255, n.fg.r, n.fg.g, n.fg.b))
            && ((forall j :: 0 <= j < |ink| ==> ink[j].x != x || ink[j].y != y) && !n.hasBg ==> Px(n, font, x, y, p) == p)
  {
    hide InkPx;
    hide Pack;
    hide OwnPx;
    var ink, q := Glyphs(n, font), OwnPx(n.(kind := Stack), font, x, y, p);
    TextPx(n, font, x, y, p);
    hide Px;
    NoInk(ink, n.fg, x, y, q);
    if k < |ink| && ink[k] == Sample(x, y, 255) && forall j :: k < j < |ink| ==> ink[j].x != x || ink[j].y != y {
      InkIsSeen(ink, k, n.fg, q);
    }
    if !n.hasBg {
      BareStack(n, font, x, y, p);
    }
  }

  /** A text inks over what is behind it. */
  lemma TextPx(n: Node, font: Font, x: int, y: int, p: Word)
    requires n.kind == Text && n.children == [] && !n.clip
    ensures Px(n, font, x, y, p) == InkPx(Glyphs(n, font), n.fg, x, y, OwnPx(n.(kind := Stack), font, x, y, p))
  {
    hide FillPx;
    hide InkPx;
    hide Glyphs;
  }

  lemma BareStack(n: Node, font: Font, x: int, y: int, p: Word)
    requires n.kind == Text && !n.hasBg
    ensures OwnPx(n.(kind := Stack), font, x, y, p) == p
  {
    hide FillPx;
  }

  lemma NoInk(ink: seq<Sample>, col: Color, x: int, y: int, p: Word)
    ensures (forall j :: 0 <= j < |ink| ==> ink[j].x != x || ink[j].y != y) ==> InkPx(ink, col, x, y, p) == p
  {
    NoInkKeeps(ink, 0, col, x, y, p);
  }

  lemma InkIsSeen(ink: seq<Sample>, k: nat, col: Color, p: Word)
    requires k < |ink| && ink[k].cov == 255 && col.a == 255
    requires forall j :: k < j < |ink| ==> ink[j].x != ink[k].x || ink[j].y != ink[k].y
    ensures InkPx(ink, col, ink[k].x, ink[k].y, p) == Pack(255, col.r, col.g, col.b)
  {
    hide InkPx;
    hide Pack;
    assert ink[..k + 1] == ink[..k] + [ink[k]];
    LastInkIsSeen(ink[..k], ink[k], col, p);
    NoInkKeeps(ink, k + 1, col, ink[k].x, ink[k].y, p);
  }

  lemma {:induction false} NoInkKeeps(ink: seq<Sample>, k: nat, col: Color, x: int, y: int, p: Word)
    requires k <= |ink|
    ensures (forall j :: k <= j < |ink| ==> ink[j].x != x || ink[j].y != y) ==>
              InkPx(ink, col, x, y, p) == InkPx(ink[..k], col, x, y, p)
    decreases |ink|
  {
    hide CoverOver;
    if k < |ink| {
      NoInkKeeps(ink[..|ink| - 1], k, col, x, y, p);
      assert ink[..|ink| - 1][..k] == ink[..k];
    } else {
      assert ink[..k] == ink;
    }
  }

  lemma OpaqueInk(s: Byte, d: Byte)
    ensures Lerp(s, d, 255) == s
  {
  }
}
