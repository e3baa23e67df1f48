/** The software renderer: draws a laid-out tree into a pixel buffer, inside a clip. */
module Painter {
  import opened Geometry
  import opened Pixels
  import opened Scene

  lemma RowsDoNotOverlap(stride: nat, x: nat, y: nat, u: nat, v: nat)
    requires x < stride && u < stride
    ensures y * stride + x == v * stride + u <==> x == u && y == v
  {
    if y < v {
      RowApart(stride, y, v);
    } else if v < y {
      RowApart(stride, v, y);
    }
  }

  lemma {:induction false} RowApart(stride: nat, y: nat, v: nat)
    requires y < v
    ensures y * stride + stride <= v * stride
  {
    if y < v - 1 {
      RowApart(stride, y, v - 1);
    }
    assert v * stride == (v - 1) * stride + stride;
  }

  lemma RowsFit(stride: nat, height: nat, x: nat, y: nat)
    requires x < stride && y < height
    ensures y * stride + x < height * stride
  {
    RowApart(stride, y, height);
  }

  lemma KidsNone(font: Font)
    ensures forall x, y, p :: KidsPx([], font, x, y, p) == p
  {
  }

  lemma KidsNext(cs: seq<Node>, i: nat, font: Font)
    requires i < |cs|
    ensures forall x, y, p :: KidsPx(cs[..i + 1], font, x, y, p) == Px(cs[i], font, x, y, KidsPx(cs[..i], font, x, y, p))
  {
    hide Px;
    assert cs[..i + 1][..i] == cs[..i];
  }

  class Canvas {
    const width: nat
    const height: nat
    const strideP: nat
    const pixels: array<Word>
    const font: Font
    var clipX0: int
    var clipY0: int
    var clipX1: int
    var clipY1: int

    constructor (pixels: array<Word>, width: nat, height: nat, strideP: nat, font: Font)
      requires width <= strideP && pixels.Length == height * strideP
      ensures this.pixels == pixels && this.width == width && this.height == height
      ensures this.strideP == strideP && this.font == font && Shaped()
      ensures Clip() == Rect(0, 0, 0, 0)
    {
      this.pixels, this.width, this.height, this.strideP, this.font := pixels, width, height, strideP, font;
      clipX0, clipY0, clipX1, clipY1 := 0, 0, 0, 0;
    }

    ghost predicate Shaped() { width <= strideP && pixels.Length == height * strideP }

    function Clip(): Rect
      reads this
    {
      Rect(clipX0, clipY0, clipX1, clipY1)
    }

    /** The clip never reaches outside the surface. */
    ghost predicate Clipped()
      reads this
    {
      0 <= clipX0 && 0 <= clipY0 && clipX1 <= width && clipY1 <= height
    }

    predicate On(x: int, y: int) { 0 <= x < width && 0 <= y < height }

    ghost function Get(x: int, y: int): Word
      requires Shaped() && On(x, y)
      reads pixels
    {
      RowsFit(strideP, height, x, y);
      pixels[y * strideP + x]
    }

    method Load(x: int, y: int) returns (w: Word)
      requires Shaped() && On(x, y)
      ensures w == Get(x, y)
    {
      RowsFit(strideP, height, x, y);
      w := pixels[y * strideP + x];
    }

    method Store(x: int, y: int, w: Word)
      requires Shaped() && On(x, y)
      modifies pixels
      ensures forall u, v | On(u, v) :: Get(u, v) == if u == x && v == y then w else old(Get(u, v))
    {
      RowsFit(strideP, height, x, y);
      pixels[y * strideP + x] := w;
      forall u, v | On(u, v)
        ensures Get(u, v) == if u == x && v == y then w else old(Get(u, v))
      {
        RowsFit(strideP, height, u, v);
        RowsDoNotOverlap(strideP, x, y, u, v);
      }
    }

    /** Restrict drawing to a rectangle, clamped to the surface. */
    method SetClip(x0: int, y0: int, x1: int, y1: int)
      modifies this
      ensures Clip() == Rect(Max(x0, 0), Max(y0, 0), Min(x1, width), Min(y1, height))
    {
      clipX0 := if x0 < 0 then 0 else x0;
      clipY0 := if y0 < 0 then 0 else y0;
      clipX1 := if x1 > width then width else x1;
      clipY1 := if y1 > height then height else y1;
    }

    /** Clear the clip to transparent. The row length handed to `memset` must not be negative. */
    method ClearClip()
      requires Shaped() && Clipped()
      requires clipY0 < clipY1 ==> clipX0 <= clipX1
      modifies pixels
      ensures forall u, v | On(u, v) :: Get(u, v) == if Clip().Has(u, v) then 0 else old(Get(u, v))
    {
      var y := clipY0;
      while y < clipY1
        invariant clipY0 <= y
        invariant clipY0 <= clipY1 ==> y <= clipY1
        invariant forall u, v | On(u, v) ::
          Get(u, v) == if Clip().Has(u, v) && v < y then 0 else old(Get(u, v))
      {
        var x := clipX0;
        while x < clipX1
          invariant clipX0 <= x <= clipX1
          invariant forall u, v | On(u, v) ::
            Get(u, v) == if Clip().Has(u, v) && (v < y || (v == y && u < x)) then 0 else old(Get(u, v))
        {
          Store(x, y, 0);
          x := x + 1;
        }
        y := y + 1;
      }
    }

    /** Fill a rounded plate inside the clip. */
    method FillRoundRect(b: Plate, col: Color)
      requires Shaped() && Clipped()
      modifies pixels
      ensures forall u, v | On(u, v) ::
        Get(u, v) == if Clip().Has(u, v) then FillPx(b, col, u, v, old(Get(u, v))) else old(Get(u, v))
    {
      hide FillOver;
      hide Plate.Cut;
      var rx0, ry0 := b.X0(), b.Y0();
      var rx1, ry1 := b.X1(), b.Y1();
      var r := b.radius;
      var rw, rh := (rx1 - rx0) as real, (ry1 - ry0) as real;
      if r > rw / 2.0 { r := rw / 2.0; }
      if r > rh / 2.0 { r := rh / 2.0; }
      assert r == b.R();
      var x0 := if rx0 < clipX0 then clipX0 else rx0;
      var y0 := if ry0 < clipY0 then clipY0 else ry0;
      var x1 := if rx1 > clipX1 then clipX1 else rx1;
      var y1 := if ry1 > clipY1 then clipY1 else ry1;
      ghost var todo := Rect(x0, y0, x1, y1);

      var y := y0;
      while y < y1
        invariant y0 <= y
        invariant forall u, v | On(u, v) ::
          Get(u, v) == if todo.Has(u, v) && v < y then FillPx(b, col, u, v, old(Get(u, v))) else old(Get(u, v))
      {
        var x := x0;
        while x < x1
          invariant x0 <= x
          invariant forall u, v | On(u, v) ::
            Get(u, v) == if todo.Has(u, v) && (v < y || (v == y && u < x))
                         then FillPx(b, col, u, v, old(Get(u, v))) else old(Get(u, v))
        {
          var skip := OutsideCorner(b, r, x, y);
          if !skip {
            var d := Load(x, y);
            Store(x, y, FillOver(d, col));
          }
          x := x + 1;
        }
        y := y + 1;
      }
    }

    /** The rounded-corner test of the fill loop: picks the corner the pixel belongs to and
        compares its distance to that corner's centre with the radius. */
    method OutsideCorner(b: Plate, r: real, x: int, y: int) returns (skip: bool)
      requires r == b.R()
      ensures skip == b.Cut(x, y)
    {
      hide BeyondArc;
      hide b.R;
      skip := false;
      if r > 0.5 {
        var rx0, ry0, rx1, ry1 := b.X0(), b.Y0(), b.X1(), b.Y1();
        var cx, cy := -1.0, -1.0;
        if (x - rx0) as real < r && (y - ry0) as real < r {
          cx, cy := rx0 as real + r, ry0 as real + r;
        } else if (x - rx0) as real < r && (ry1 - 1 - y) as real < r {
          cx, cy := rx0 as real + r, ry1 as real - r;
        } else if (rx1 - 1 - x) as real < r && (y - ry0) as real < r {
          cx, cy := rx1 as real - r, ry0 as real + r;
        } else if (rx1 - 1 - x) as real < r && (ry1 - 1 - y) as real < r {
          cx, cy := rx1 as real - r, ry1 as real - r;
        }
        if cx >= 0.0 {
          skip := BeyondArc(x, y, cx, cy, r);
        }
      }
    }

    /** Blend one glyph sample, unless it is clipped away or empty. */
    method BlendCover(s: Sample, col: Color)
      requires Shaped() && Clipped()
      modifies pixels
      ensures forall u, v | On(u, v) ::
        Get(u, v) == if Clip().Has(u, v) && u == s.x && v == s.y
                     then CoverOver(old(Get(u, v)), col, s.cov) else old(Get(u, v))
    {
      if s.x < clipX0 || s.y < clipY0 || s.x >= clipX1 || s.y >= clipY1 || s.cov == 0 {
        return;
      }
      var d := Load(s.x, s.y);
      Store(s.x, s.y, CoverOver(d, col, s.cov));
    }

    /** Draw a shaped line: blend its samples in order. */
    method DrawText(ink: seq<Sample>, col: Color)
      requires Shaped() && Clipped()
      modifies pixels
      ensures forall u, v | On(u, v) ::
        Get(u, v) == if Clip().Has(u, v) then InkPx(ink, col, u, v, old(Get(u, v))) else old(Get(u, v))
    {
      hide CoverOver;
      for i := 0 to |ink|
        invariant forall u, v | On(u, v) ::
          Get(u, v) == if Clip().Has(u, v) then InkPx(ink[..i], col, u, v, old(Get(u, v))) else old(Get(u, v))
      {
        assert ink[..i + 1][..i] == ink[..i];
        BlendCover(ink[i], col);
      }
      assert ink[..|ink|] == ink;
    }

    /** Draw a node's own visuals: focus ring, background, content. */
    method DrawOwn(n: Node)
      requires Shaped() && Clipped()
      modifies pixels
      ensures forall u, v | On(u, v) ::
        Get(u, v) == if Clip().Has(u, v) then OwnPx(n, font, u, v, old(Get(u, v))) else old(Get(u, v))
    {
      hide FillPx;
      hide InkPx;
      if n.focused && (n.hasBg || n.kind == Solid) {
        FillRoundRect(RingPlate(n), RING);
      }
      if n.hasBg {
        FillRoundRect(FramePlate(n), n.bg);
      }
      match n.kind {
        case Solid => FillRoundRect(FramePlate(n), n.color);
        case Text => DrawText(Glyphs(n, font), n.fg);
        case _ =>
      }
    }

    /** Narrow the clip to a viewport's frame. When nothing stays visible the clip is put back. */
    method EnterViewport(n: Node) returns (visible: bool)
      requires Clipped()
      modifies this
      ensures Clipped()
      ensures !visible ==> Clip() == old(Clip()) && forall u, v :: !(Clip().Has(u, v) && FrameRect(n).Has(u, v))
      ensures visible ==> forall u, v :: Clip().Has(u, v) <==> old(Clip()).Has(u, v) && FrameRect(n).Has(u, v)
    {
      hide Trunc;
      var saveX0, saveY0, saveX1, saveY1 := clipX0, clipY0, clipX1, clipY1;
      var cx0, cy0 := Trunc(n.x), Trunc(n.y);
      var cx1, cy1 := Trunc(n.x + n.w), Trunc(n.y + n.h);
      if cx0 < saveX0 { cx0 := saveX0; }
      if cy0 < saveY0 { cy0 := saveY0; }
      if cx1 > saveX1 { cx1 := saveX1; }
      if cy1 > saveY1 { cy1 := saveY1; }
      SetClip(cx0, cy0, cx1, cy1);
      visible := true;
      if clipX1 <= clipX0 || clipY1 <= clipY0 {
        clipX0, clipY0, clipX1, clipY1 := saveX0, saveY0, saveX1, saveY1;
        visible := false;
      }
    }

    /** Paint a tree. Inside the clip every pixel becomes what the clip-free semantics says;
        outside it nothing changes, and the clip is as it was. */
    method Paint(n: Node)
      requires Shaped() && Clipped()
      modifies this, pixels
      ensures Clip() == old(Clip())
      ensures forall u, v | On(u, v) ::
        Get(u, v) == if Clip().Has(u, v) then Px(n, font, u, v, old(Get(u, v))) else old(Get(u, v))
      decreases n
    {
      hide OwnPx;
      hide KidsPx;
      hide FrameRect;
      var saveX0, saveY0, saveX1, saveY1 := clipX0, clipY0, clipX1, clipY1;
      if n.clip {
        var visible := EnterViewport(n);
        if !visible {
          return;
        }
      }
      ghost var inner := Clip();
      DrawOwn(n);
      KidsNone(font);
      for i := 0 to |n.children|
        invariant Clip() == inner
        invariant forall u, v | On(u, v) ::
          Get(u, v) == if inner.Has(u, v)
                       then KidsPx(n.children[..i], font, u, v, OwnPx(n, font, u, v, old(Get(u, v))))
                       else old(Get(u, v))
      {
        KidsNext(n.children, i, font);
        Paint(n.children[i]);
      }
      assert n.children[..|n.children|] == n.children;
      if n.clip {
        clipX0, clipY0, clipX1, clipY1 := saveX0, saveY0, saveX1, saveY1;
      }
    }

    /** Clear one rectangle and paint the tree into it: the rectangle shows the tree's
        picture, the rest of the surface is untouched. */
    method Repaint(root: Node, r: Rect)
      requires Shaped()
      requires r.y0 < r.y1 ==> Max(r.x0, 0) <= Min(r.x1, width)
      modifies this, pixels
      ensures forall u, v | On(u, v) ::
        Get(u, v) == if r.Has(u, v) then Picture(root, font, u, v) else old(Get(u, v))
    {
      hide Px;
      SetClip(r.x0, r.y0, r.x1, r.y1);
      ClearClip();
      Paint(root);
    }
  }
}
