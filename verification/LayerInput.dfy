/** What a layer surface takes from the user: its input region and keyboard mode, requested by every
    build and sent only when they change. */
module LayerInput {

  /** The part of a surface that takes pointer input. */
  datatype Region = Everything | Nothing | Part(box: Box)

  datatype Box = Box(x: int, y: int, w: int, h: int)
  {
    /** A box without width or height asks for the whole surface. */
    predicate Whole() { w <= 0 || h <= 0 }

    function Asked(): Region { if Whole() then Everything else Part(this) }
  }

  /** The caches that suppress repeated requests, and what the surface has actually been told.
      `commits` counts the requests sent. */
  datatype Layer = Layer(irValid: bool, irNone: bool, irWhole: bool, irBox: Box,
                         kbdValid: bool, kbdExclusive: bool,
                         region: Region, keyboard: bool, commits: nat)
  {
    /** Valid caches tell what the surface was told. */
    predicate Mirrors()
    {
      && (irValid ==> region == if irNone then Nothing else if irWhole then Everything else Part(irBox))
      && (irValid && !irNone ==> irWhole == irBox.Whole())
      && (kbdValid ==> keyboard == kbdExclusive)
    }

    function WithRegion(b: Box): Layer
    {
      if irValid && !irNone && irWhole == b.Whole() && (b.Whole() || irBox == b) then this
      else
        this.(irValid := true, irNone := false, irWhole := b.Whole(), irBox := b, region := b.Asked(), commits := commits + 1)
    }

    function WithNone(): Layer
    {
      if irValid && irNone then this
      else this.(irValid := true, irNone := true, irWhole := false, region := Nothing, commits := commits + 1)
    }

    function WithKeyboard(exclusive: bool): Layer
    {
      if kbdValid && kbdExclusive == exclusive then this
      else this.(kbdValid := true, kbdExclusive := exclusive, keyboard := exclusive, commits := commits + 1)
    }
  }

  /** Whatever came before, the surface ends up as asked; nothing is sent exactly when the last
      request already said so. */
  lemma RequestsTakeEffect(l: Layer, b: Box, exclusive: bool)
    requires l.Mirrors()
    ensures var r := l.WithRegion(b);
            r.Mirrors() && r.irValid && r.region == b.Asked() && r.keyboard == l.keyboard &&
            (r.commits == l.commits <==> l.irValid && l.region == b.Asked())
    ensures var r := l.WithNone();
            r.Mirrors() && r.irValid && r.region == Nothing && r.keyboard == l.keyboard &&
            (r.commits == l.commits <==> l.irValid && l.region == Nothing)
    ensures var r := l.WithKeyboard(exclusive);
            r.Mirrors() && r.kbdValid && r.keyboard == exclusive && r.region == l.region &&
            (r.commits == l.commits <==> l.kbdValid && l.keyboard == exclusive)
  {
    if l.irValid && !l.irNone {
      assert l.irWhole == l.irBox.Whole();
    }
  }

  /** The app's side of its layer surface. */
  class LayerApp {
    var irValid: bool
    var irNone: bool
    var irWhole: bool
    var irBox: Box
    var kbdValid: bool
    var kbdExclusive: bool
    /** What the surface has been told. */
    var region: Region
    var keyboard: bool
    var commits: nat

    function Snapshot(): Layer
      reads this
    {
      Layer(irValid, irNone, irWhole, irBox, kbdValid, kbdExclusive, region, keyboard, commits)
    }

    /** A new surface takes all pointer input and no keyboard, and nothing has been asked yet. */
    constructor ()
      ensures Snapshot() == NEW_LAYER
    {
      irValid, irNone, irWhole := false, false, false;
      irBox := Box(0, 0, 0, 0);
      kbdValid, kbdExclusive := false, false;
      region, keyboard, commits := Everything, false, 0;
    }

    method SetInputRegion(b: Box)
      modifies this
      ensures Snapshot() == old(Snapshot()).WithRegion(b)
    {
      var whole := b.Whole();
      if irValid && !irNone && irWhole == whole && (whole || irBox == b) {
        return;
      }
      irValid, irNone, irWhole, irBox := true, false, whole, b;
      if whole {
        region := Everything;
      } else {
        region := Part(b);
      }
      commits := commits + 1;
    }

    method SetInputNone()
      modifies this
      ensures Snapshot() == old(Snapshot()).WithNone()
    {
      if irValid && irNone {
        return;
      }
      irValid, irNone, irWhole := true, true, false;
      region := Nothing;
      commits := commits + 1;
    }

    method SetKeyboard(exclusive: bool)
      modifies this
      ensures Snapshot() == old(Snapshot()).WithKeyboard(exclusive)
    {
      if kbdValid && kbdExclusive == exclusive {
        return;
      }
      kbdValid, kbdExclusive := true, exclusive;
      keyboard := exclusive;
      commits := commits + 1;
    }
  }

  const NEW_LAYER := Layer(false, false, false, Box(0, 0, 0, 0), false, false, Everything, false, 0)
}
