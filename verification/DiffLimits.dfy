/** Pairs of builds the diff takes for equal although their pictures differ: why the diff's
    soundness needs rows that settle and equal text padding. */
module DiffLimits {
  import opened Geometry
  import opened Pixels
  import opened Scene
  import opened Reconcile

  const RED: Color := Color(255, 0, 0, 255)
  const BLUE: Color := Color(0, 0, 255, 255)

  function Box(kind: Kind, color: Color, clip: bool, children: seq<Node>): Node
  {
    Node(kind, 0.0, 0.0, 10.0, 10.0, 0.0, false, color, 0.0, color, "", 16.0, color, false, 0, clip, children)
  }

  function Square(color: Color): Node { Box(Solid, color, false, []) }

  /** A viewport over an overlay of two squares that carry no keys. */
  function Overlay(bottom: Color, top: Color): Node
  {
    Box(Scroll, RED, true, [Box(Stack, RED, false, [Square(bottom), Square(top)])])
  }

  lemma SquarePx(color: Color, font: Font, p: Word)
    requires color.a == 255
    ensures Px(Square(color), font, 0, 0, p) == Pack(255, color.r, color.g, color.b)
  {
    var n := Square(color);
    assert FramePlate(n).Covers(0, 0);
    assert OwnPx(n, font, 0, 0, p) == FillOver(p, color);
  }

  lemma OverlayPx(bottom: Color, top: Color, font: Font)
    requires bottom.a == 255 && top.a == 255
    ensures Picture(Overlay(bottom, top), font, 0, 0) == Pack(255, top.r, top.g, top.b)
  {
    hide FillPx;
    var v := Overlay(bottom, top);
    var c := v.children[0];
    var a, b := Square(bottom), Square(top);
    assert FrameRect(v).Has(0, 0);
    OnlyChild(v, font, 0, 0, 0);
    assert [a, b][..1] == [a];
    assert [a][..0] == [];
    SquarePx(bottom, font, 0);
    SquarePx(top, font, Px(a, font, 0, 0, 0));
    assert KidsPx([a], font, 0, 0, 0) == Px(a, font, 0, 0, 0);
    assert KidsPx([a, b], font, 0, 0, 0) == Px(b, font, 0, 0, Px(a, font, 0, 0, 0));
    assert Px(c, font, 0, 0, 0) == KidsPx([a, b], font, 0, 0, 0);
  }

  /** Rows without distinct keys: the recoloured top square is compared with the bottom one,
      so the change goes unnoticed. */
  lemma SharedKeysHideAChange(font: Font)
    ensures var o, n := Overlay(RED, BLUE), Overlay(RED, RED);
            WellFormed(o) && WellFormed(n) && Quiet(o, n) &&
            Picture(o, font, 0, 0) != Picture(n, font, 0, 0)
  {
    OverlayPx(RED, BLUE, font);
    OverlayPx(RED, RED, font);
    var o, n := Overlay(RED, BLUE), Overlay(RED, RED);
    var os, ns := o.children[0].children, n.children[0].children;
    forall i, j | 0 <= i < |os| && 0 <= j < |ns| && FirstAt(os, ns[j].key, i)
      ensures Quiet(os[i], ns[j])
    {
      assert os[0].key == ns[j].key;
    }
    assert os[0] in os && ns[0] in ns;
  }

  /** A 10 px square at a height, in a row without a key. */
  function SquareAt(y: real, color: Color): Node { Square(color).(y := y) }

  /** A viewport 40 px high over a column of rows without keys. */
  function Column(rows: seq<Node>): Node
  {
    Box(Scroll, RED, true, [Box(Stack, RED, false, rows).(h := 40.0)]).(h := 40.0)
  }

  lemma ColumnPx(rows: seq<Node>, font: Font)
    ensures Picture(Column(rows), font, 0, 25) == KidsPx(rows, font, 0, 25, 0)
  {
    var v := Column(rows);
    assert FrameRect(v).Has(0, 25);
    OnlyChild(v, font, 0, 25, 0);
  }

  /** Rows without keys are diffed soundly as long as they stay where they are. */
  lemma RowsWithoutKeysStay(font: Font)
    ensures var c := Column([SquareAt(0.0, RED), SquareAt(20.0, BLUE)]); Diffable(c, c, font)
  {
    var rows := [SquareAt(0.0, RED), SquareAt(20.0, BLUE)];
    var c := Column(rows);
    ColumnsSettle(rows, rows, FrameRect(c), font);
    UnchangedBackdrop(c, c, font);
    hide GoodRows;
    hide GoodBackdrop;
    hide NodeRect;
    assert WellFormed(rows[0]) && WellFormed(rows[1]) && WellFormed(c.children[0]) && WellFormed(c);
    assert forall i, j | 0 <= i < 2 && 0 <= j < 2 :: Comparable(rows[i], rows[j], font);
    assert Comparable(c, c, font) by {
      assert c.children[0].children == rows;
    }
  }

  lemma RowPx(y: real, color: Color, font: Font)
    requires color.a == 255 && (y == 0.0 || y == 20.0)
    ensures Px(SquareAt(y, color), font, 0, 25, 0) == if y == 20.0 then Pack(255, color.r, color.g, color.b) else 0
  {
    var n := SquareAt(y, color);
    assert FramePlate(n) == Plate(0.0, y, 10.0, 10.0, 0.0);
    assert FramePlate(n).Covers(0, 25) <==> y == 20.0;
    assert Px(n, font, 0, 25, 0) == OwnPx(n, font, 0, 25, 0);
    hide FillOver;
  }

  /** Of two rows without keys the second is removed: it has the key of the first, which is still
      there, so its place is not damaged and it stays on the screen. */
  lemma RemovedRowStays(font: Font)
    ensures var o, n := Column([SquareAt(0.0, RED), SquareAt(20.0, BLUE)]), Column([SquareAt(0.0, RED)]);
            WellFormed(o) && WellFormed(n) && Quiet(o, n) &&
            Picture(o, font, 0, 25) != Picture(n, font, 0, 25)
  {
    var red, blue := SquareAt(0.0, RED), SquareAt(20.0, BLUE);
    assert [red, blue][..1] == [red] && [red][..0] == [];
    ColumnPx([red, blue], font);
    ColumnPx([red], font);
    RowPx(0.0, RED, font);
    RowPx(20.0, BLUE, font);
    RemovedRowQuiet();
    hide Px;
  }

  lemma RemovedRowQuiet()
    ensures var o, n := Column([SquareAt(0.0, RED), SquareAt(20.0, BLUE)]), Column([SquareAt(0.0, RED)]);
            WellFormed(o) && WellFormed(n) && Quiet(o, n)
  {
    var os, ns := [SquareAt(0.0, RED), SquareAt(20.0, BLUE)], [SquareAt(0.0, RED)];
    assert os[0] in os && ns[0] in ns;
    forall i, j | 0 <= i < |os| && 0 <= j < |ns| && FirstAt(os, ns[j].key, i)
      ensures Quiet(os[i], ns[j])
    {
      assert os[0].key == ns[j].key;
    }
  }

  function Label(padding: real): Node
  {
    Node(Text, 0.0, 0.0, 10.0, 10.0, padding, false, RED, 0.0, RED, "i", 16.0, RED, false, 0, false, [])
  }

  /** A face whose every string is a dot at the pen. */
  function Dot(text: string, size: real, x: real, y: real): seq<Sample>
  {
    [Sample(Trunc(x), Trunc(y), 255)]
  }

  /** A label whose padding alone changed moves its glyphs, but is taken for unchanged. */
  lemma PaddingHidesAChange()
    ensures var o, n := Label(0.0), Label(2.0);
            WellFormed(o) && WellFormed(n) && Quiet(o, n) &&
            Picture(o, Dot, 0, 0) != Picture(n, Dot, 0, 0)
  {
    hide CoverOver;
    hide InkPx;
    var o, n := Label(0.0), Label(2.0);
    DotPx();
    assert Glyphs(o, Dot) == [Sample(0, 0, 255)];
    assert Glyphs(n, Dot) == [Sample(2, 2, 255)];
    InkElsewhere(Glyphs(n, Dot), RED, 0, 0, 0);
  }

  lemma DotPx()
    ensures InkPx([Sample(0, 0, 255)], RED, 0, 0, 0) != 0
  {
    hide CoverOver;
    var ink := [Sample(0, 0, 255)];
    CoverOverPremultiplied(0, RED, 255);
    assert ink[..0] == [];
    assert InkPx(ink, RED, 0, 0, 0) == CoverOver(InkPx([], RED, 0, 0, 0), RED, 255);
  }
}
