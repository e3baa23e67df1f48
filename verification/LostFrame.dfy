/** A run in which a lost frame is never made up for: the compositor is handed a buffer that does not
    show the build it was committed for. */
module LostFrame {
  import opened Geometry
  import opened Pixels
  import opened Scene
  import opened Wrappers
  import opened Reconcile
  import opened Frames
  import opened DiffLimits

  lemma SquaresDiffable(a: Color, b: Color, font: Font)
    ensures Diffable(Square(a), Square(b), font) && RectsUsable(Some(Square(a)), Square(b), false, 1)
    ensures a == b ==> Quiet(Square(a), Square(b))
  {
  }

  /** The one pixel of a square. */
  ghost function Dab(color: Color, font: Font): seq<Word> { [Picture(Square(color), font, 0, 0)] }

  /** The compositor reads both buffers of a surface of one pixel, and the second is the newer, red. */
  ghost predicate BothOut(app: App, current: Color)
    reads app, app.bufs, set b <- app.bufs :: b.px, set b <- app.bufs :: b.pending
  {
    app.Steady() && app.root == Some(Square(current)) && app.width == app.height == app.rootW == 1 &&
    app.bufs[0].busy && app.bufs[1].busy && !app.WhollyStale(app.bufs[1]) && app.Sized(app.bufs[1]) &&
    app.bufs[1].px[..] == Dab(RED, app.font)
  }

  lemma OnePixel(app: App, b: Buffer, color: Color)
    requires b.Shaped() && b.w == b.h == 1 && app.Shows(b, Square(color))
    ensures b.px[..] == Dab(color, app.font)
  {
    hide Px;
    assert b.On(0, 0) && b.At(0, 0) == b.px[0];
  }

  /** A red frame goes to the first free buffer. */
  method RenderRed(app: App, i: nat)
    requires app.Coherent() && app.width == app.height == 1
    requires app.root == None || (app.root == Some(Square(RED)) && app.rootW == 1)
    requires i < 2 && app.bufs[0].busy == (i == 1) && !app.bufs[1].busy
    modifies app`root, app`rootW, app`rootH, app.bufs, set b <- app.bufs :: b.pending, set b <- app.bufs :: b.px
    ensures app.Coherent() && app.root == Some(Square(RED)) && app.rootW == 1
    ensures app.bufs[0].busy && app.bufs[1].busy == (i == 1) && !app.WhollyStale(app.bufs[i]) && app.Sized(app.bufs[i])
    ensures app.Shows(app.bufs[i], Square(RED)) && app.SameOrFresh(app.bufs[0]) && app.SameOrFresh(app.bufs[1])
  {
    SquaresDiffable(RED, RED, app.font);
    hide Px;
    hide Quiet;
    hide Diffable;
    hide RectsUsable;
    hide Restructured;
    hide App.AllHarmless;
    hide App.Shows;
    hide Merged;
    hide Damage.Covers;
    hide Premultiplied;
    hide SamePicture;
    assert app.Steady() && app.bufs == [app.bufs[0], app.bufs[1]];
    hide App.Coherent;
    var at, due := app.Render(Square(RED), false, [true, true]);
  }

  /** Two red frames fill both buffers. */
  method TwoReds(app: App)
    requires app.Coherent() && app.root == None && app.width == app.height == 1
    requires !app.bufs[0].busy && !app.bufs[1].busy
    modifies app, app.bufs, set b <- app.bufs :: b.pending, set b <- app.bufs :: b.px
    ensures BothOut(app, RED) && app.SameOrFresh(app.bufs[0]) && app.SameOrFresh(app.bufs[1])
  {
    hide Px;
    hide App.Shows;
    hide App.Agrees;
    hide Premultiplied;
    RenderRed(app, 0);
    RenderRed(app, 1);
    OnePixel(app, app.bufs[1], RED);
    hide App.Coherent;
  }

  /** A blue frame finds no buffer: both stay as they are, but blue is the current build now. */
  method LoseBlue(app: App)
    requires BothOut(app, RED)
    modifies app, app.bufs, set b <- app.bufs :: b.pending, set b <- app.bufs :: b.px
    ensures BothOut(app, BLUE) && app.SameOrFresh(app.bufs[0]) && app.SameOrFresh(app.bufs[1])
  {
    SquaresDiffable(RED, BLUE, app.font);
    hide Px;
    hide Quiet;
    hide Diffable;
    hide RectsUsable;
    hide Restructured;
    hide App.Coherent;
    hide App.AllHarmless;
    hide Merged;
    hide Damage.Covers;
    hide Premultiplied;
    hide SamePicture;
    hide Buffer.At;
    hide App.Shows;
    hide App.Repainted;
    hide App.Faultless;
    hide Dab;
    assert app.bufs == [app.bufs[0], app.bufs[1]];
    var at, due := app.Render(Square(BLUE), false, [true, true]);
    assert at == -1;
  }

  /** The blue build, now without damage, is committed in the newer buffer as that is. */
  method RenderBlue(app: App)
    requires app.Steady() && app.root == Some(Square(BLUE)) && app.width == app.height == app.rootW == 1
    requires app.bufs[0].busy && !app.bufs[1].busy && !app.WhollyStale(app.bufs[1]) && app.Sized(app.bufs[1])
    modifies app, app.bufs, set b <- app.bufs :: b.pending, set b <- app.bufs :: b.px
    ensures |app.bufs| == 2 && app.bufs[1].Shaped() && app.bufs[1].w == app.bufs[1].h == 1
    ensures app.bufs[1].px[..] == old(app.bufs[1].px[..])
  {
    SquaresDiffable(BLUE, BLUE, app.font);
    NothingCovered();
    hide Px;
    hide Quiet;
    hide Diffable;
    hide RectsUsable;
    hide Restructured;
    hide App.Coherent;
    hide App.AllHarmless;
    hide Merged;
    hide Damage.Covers;
    hide Premultiplied;
    hide SamePicture;
    hide Buffer.At;
    hide App.Shows;
    hide App.Faultless;
    hide App.Served;
    assert app.bufs == [app.bufs[0], app.bufs[1]];
    ghost var was := app.bufs[1].px[..];
    var at, due := app.Render(Square(BLUE), false, [true, true]);
    assert at == 1 && due == NO_DAMAGE;
    SamePixel(app.bufs[1], was);
  }

  lemma SamePixel(b: Buffer, was: seq<Word>)
    requires b.Shaped() && b.w == b.h == 1 && |was| == 1
    requires b.On(0, 0) ==> b.At(0, 0) == PixelOf(was, 1, 1, 0, 0)
    ensures b.px[..] == was
  {
    assert b.On(0, 0) && b.At(0, 0) == b.px[0];
  }

  /** The compositor gives the newer buffer back, and gets it again. */
  method ShowStale(app: App) returns (s: Shown)
    requires BothOut(app, BLUE)
    modifies app, app.bufs, set b <- app.bufs :: b.pending, set b <- app.bufs :: b.px
    ensures s.tree == Square(BLUE) && s.w == s.h == 1 && s.pixels == Dab(RED, app.font)
  {
    hide Px;
    hide App.Coherent;
    hide Premultiplied;
    hide App.Shows;
    hide Dab;
    app.GiveBack(1);
    RenderBlue(app);
    s := app.Snapshot(app.bufs[1], Square(BLUE));
  }

  lemma NothingCovered()
    ensures !NO_DAMAGE.Covers(0, 0)
  {
  }

  lemma RedIsNotBlue(s: Shown, font: Font)
    requires s.tree == Square(BLUE) && s.w == s.h == 1 && s.pixels == Dab(RED, font)
    ensures !Faithful(s, font)
  {
    assert Faithful(s, font) ==> PixelOf(s.pixels, 1, 1, 0, 0) == s.pixels[0];
    SquarePx(RED, font, 0);
    SquarePx(BLUE, font, 0);
    hide Px;
  }

  method FourFrames(app: App) returns (s: Shown)
    requires app.Coherent() && app.root == None && app.width == app.height == 1
    requires !app.bufs[0].busy && !app.bufs[1].busy
    modifies app, app.bufs, set b <- app.bufs :: b.pending, set b <- app.bufs :: b.px
    ensures s.tree == Square(BLUE) && !Faithful(s, app.font)
  {
    assert app.bufs == [app.bufs[0], app.bufs[1]];
    hide Px;
    hide Faithful;
    hide Dab;
    hide BothOut;
    TwoReds(app);
    hide App.Coherent;
    LoseBlue(app);
    s := ShowStale(app);
    RedIsNotBlue(s, app.font);
  }

  /** After these frames the committed buffer is still red. */
  method LostFrameStaysStale(font: Font) returns (s: Shown)
    ensures s.tree == Square(BLUE) && !Faithful(s, font)
  {
    var app := new App(1, 1, font);
    assert app.bufs == [app.bufs[0], app.bufs[1]];
    hide Faithful;
    hide App.Coherent;
    s := FourFrames(app);
  }
}
