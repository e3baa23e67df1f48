/** The pointer recognizer: a press becomes a tap, a long press or a drag, and nothing else. */
module Gestures {
  import opened Wrappers

  const SLOP: real := 8.0
  const LONG_PRESS: real := 0.45
  const EDGE: real := 32.0

  // ---------------------------------------------------------------- targets

  datatype Target = TapTarget | PanTarget | HoldTarget | ScrollTarget

  /** A laid-out view: its frame, its children, and its handlers by id. */
  datatype View = View(x: real, y: real, w: real, h: real, children: seq<View>,
                       tap: Option<nat>, pan: Option<nat>, hold: Option<nat>, scroll: Option<nat>)
  {
    predicate Contains(px: real, py: real)
    {
      x <= px < x + w && y <= py < y + h
    }

    function Handler(what: Target): Option<nat>
    {
      match what
      case TapTarget => tap
      case PanTarget => pan
      case HoldTarget => hold
      case ScrollTarget => scroll
    }

    /** The handler of the deepest node under a point; later children are in front. */
    function Find(what: Target, px: real, py: real): Option<nat>
    {
      if !Contains(px, py) then None
      else
        var inner := FindAmong(children, what, px, py);
        if inner.Some? then inner else Handler(what)
    }
  }

  function FindAmong(views: seq<View>, what: Target, px: real, py: real): Option<nat>
  {
    if views == [] then None
    else
      var last := views[|views| - 1].Find(what, px, py);
      if last.Some? then last else FindAmong(views[..|views| - 1], what, px, py)
  }

  /** A way down the tree, child by child, along views that are all under the point. */
  predicate Under(v: View, path: seq<nat>, px: real, py: real)
    decreases |path|
  {
    && v.x <= px < v.x + v.w && v.y <= py < v.y + v.h
    && (path == [] || (path[0] < |v.children| && Under(v.children[path[0]], path[1..], px, py)))
  }

  /** The view at the end of a way down offers a handler. */
  predicate Offers(v: View, path: seq<nat>, what: Target, h: nat)
    decreases |path|
  {
    if path != [] then path[0] < |v.children| && Offers(v.children[path[0]], path[1..], what, h)
    else
      Some(h) == match what case TapTarget => v.tap case PanTarget => v.pan case HoldTarget => v.hold case ScrollTarget => v.scroll
  }

  /** `q` leads further to the front than `p`: deeper down the same way, or to a later child. */
  predicate Before(q: seq<nat>, p: seq<nat>)
    decreases |q|
  {
    q != [] && (p == [] || q[0] > p[0] || (q[0] == p[0] && Before(q[1..], p[1..])))
  }

  /** The handler found is that of the foremost view under the point that offers one. */
  ghost predicate Foremost(v: View, what: Target, px: real, py: real, path: seq<nat>, h: nat)
  {
    && Under(v, path, px, py) && Offers(v, path, what, h)
    && forall q, k | Under(v, q, px, py) && Offers(v, q, what, k) :: q == path || Before(path, q)
  }

  lemma {:induction false} FindsForemost(v: View, what: Target, px: real, py: real) returns (path: seq<nat>)
    ensures var r := v.Find(what, px, py);
            if r.Some? then Foremost(v, what, px, py, path, r.value)
            else forall q, k | Under(v, q, px, py) :: !Offers(v, q, what, k)
    decreases v, 1
  {
    path := [];
    if v.Contains(px, py) {
      var k, p := FindsAmong(v.children, what, px, py);
      var inner := FindAmong(v.children, what, px, py);
      if inner.Some? {
        path := [k] + p;
        assert path[1..] == p;
        forall q, j | Under(v, q, px, py) && Offers(v, q, what, j)
          ensures q == path || Before(path, q)
        {
          if q != [] {
            assert Under(v.children[q[0]], q[1..], px, py) && Offers(v.children[q[0]], q[1..], what, j);
            assert q[0] <= k;
            if q[0] == k && q[1..] == p {
              assert q == [q[0]] + q[1..];
            }
          }
        }
      } else {
        forall q, j | Under(v, q, px, py) && Offers(v, q, what, j)
          ensures q == []
        {
          if q != [] {
            assert !Offers(v.children[q[0]], q[1..], what, j);
          }
        }
      }
    }
  }

  lemma {:induction false} FindsAmong(views: seq<View>, what: Target, px: real, py: real) returns (k: nat, path: seq<nat>)
    ensures var r := FindAmong(views, what, px, py);
            if r.Some? then
              && k < |views| && Foremost(views[k], what, px, py, path, r.value)
              && forall i, q, j | k < i < |views| && Under(views[i], q, px, py) :: !Offers(views[i], q, what, j)
            else forall i, q, j | 0 <= i < |views| && Under(views[i], q, px, py) :: !Offers(views[i], q, what, j)
    decreases views, 0
  {
    k, path := 0, [];
    if views != [] {
      var n := |views| - 1;
      var p := FindsForemost(views[n], what, px, py);
      if views[n].Find(what, px, py).Some? {
        k, path := n, p;
      } else {
        k, path := FindsAmong(views[..n], what, px, py);
        assert forall i | 0 <= i < n :: views[..n][i] == views[i];
      }
    }
  }

  // ---------------------------------------------------------------- the recognizer

  datatype Phase = Begin | Changed | End

  datatype PanEvent = PanEvent(x: real, y: real, dx: real, dy: real, vy: real, phase: Phase)

  /** What a gesture does to the outside. */
  datatype Effect =
    | Tap(handler: nat)
    | Hold(handler: nat, x: real, y: real)
    | Pan(handler: nat, event: PanEvent)
    | ScrollBegin(scroll: nat)
    | ScrollBy(scroll: nat, dy: real)
    | ScrollEnd(scroll: nat, vy: real)
    | PopScreen

  datatype Input =
    | Press(now: real)
    | Release
    | Motion(x: real, y: real, now: real)
    | Timer(now: real)
    | Rebuild(root: View)
    | Enter(x: real, y: real)

  /** A press: where, when, and the long press under it. */
  datatype PressPoint = PressPoint(x: real, y: real, time: real, target: Option<nat>)

  /** The latest sample of a drag and the finger's vertical velocity there. */
  datatype Sample = Sample(x: real, y: real, time: real, velocity: real)

  datatype Finger = Finger(
    root: View, width: real, x: real, y: real,
    down: bool, panning: bool, press: PressPoint, last: Sample,
    scroll: Option<nat>, handler: Option<nat>,
    armed: bool, held: bool, out: seq<Effect>)
  {
    function Emit(e: seq<Effect>): Finger { this.(out := out + e) }

    function Pan(phase: Phase): seq<Effect>
    {
      if handler.None? then []
      else [Effect.Pan(handler.value, PanEvent(x, y, x - press.x, y - press.y, last.velocity, phase))]
    }

    /** Arm the recognizer. */
    function Pressed(now: real): Finger
    {
      var t := root.Find(HoldTarget, x, y);
      this.(down := true, panning := false, scroll := None, handler := None,
            last := Sample(x, y, now, 0.0), press := PressPoint(x, y, now, t), held := false, armed := t.Some?)
    }

    predicate PastSlop()
    {
      (x - press.x) * (x - press.x) + (y - press.y) * (y - press.y) > SLOP * SLOP
    }

    /** The slop is crossed: pick what the drag moves, once and for all. */
    function Begun(): Finger
    {
      var h := root.Find(PanTarget, press.x, press.y);
      var sc := if h.None? then root.Find(ScrollTarget, press.x, press.y) else scroll;
      var r := this.(armed := false, panning := true, handler := h, scroll := sc);
      r.Emit((if h.None? && sc.Some? then [ScrollBegin(sc.value)] else []) + r.Pan(Begin))
    }

    function Dragged(now: real): Finger
    {
      var elapsed := if now - last.time < 0.001 then 0.001 else now - last.time;
      var r := this.(last := Sample(x, y, now, (y - last.y) / elapsed));
      r.Emit((if scroll.Some? then [ScrollBy(scroll.value, -(y - last.y))] else []) + r.Pan(Changed))
    }

    function Moved(toX: real, toY: real, now: real): Finger
    {
      var r := this.(x := toX, y := toY);
      if !down || held then r
      else
        var s := if !panning && r.PastSlop() then r.Begun() else r;
        if s.panning then s.Dragged(now) else s
    }

    /** The app loop after an event: a still finger held long enough fires the long press. */
    function Waited(now: real): Finger
    {
      if armed && down && !panning && now - press.time >= LONG_PRESS
      then this.(armed := false, held := true).Emit(if press.target.Some? then [Hold(press.target.value, press.x, press.y)] else [])
      else this
    }

    function Released(): Finger
    {
      if !down then this
      else
        var r := this.(down := false, armed := false);
        if held then r.(held := false, panning := false)
        else if !panning then
          var hit := root.Find(TapTarget, x, y);
          r.Emit(if hit.Some? then [Tap(hit.value)] else [])
        else
          r.(panning := false).Emit(
            (if press.x < EDGE && x - press.x > width * 0.30 then [PopScreen]
             else if scroll.Some? then [ScrollEnd(scroll.value, -last.velocity)] else [])
            + Pan(End))
    }

    function Next(i: Input): Finger
    {
      match i
      case Press(now) => Pressed(now)
      case Release => Released()
      case Motion(toX, toY, now) => Moved(toX, toY, now)
      case Timer(now) => Waited(now)
      case Rebuild(r) => this.(root := r)
      case Enter(toX, toY) => this.(x := toX, y := toY)
    }

    /** Between gestures. */
    predicate Idle() { !down && !panning && !held && !armed }
  }

  function Run(f: Finger, inputs: seq<Input>): Finger
    decreases |inputs|
  {
    if inputs == [] then f else Run(f.Next(inputs[0]), inputs[1..])
  }

  // ---------------------------------------------------------------- one gesture

  /** Everything that can happen between a press and its release. */
  predicate Between(inputs: seq<Input>)
  {
    forall i <- inputs :: !i.Press? && !i.Release?
  }

  /** An input that decides a gesture pressed at `f`: a sample beyond the slop, or time enough on a
      node with a long press. */
  predicate Decides(f: Finger, i: Input)
  {
    match i
    case Motion(x, y, _) => f.(x := x, y := y).PastSlop()
    case Timer(now) => f.press.target.Some? && now - f.press.time >= LONG_PRESS
    case _ => false
  }

  /** A press no input has decided yet. */
  predicate Pending(f: Finger)
  {
    f.down && !f.panning && !f.held && f.armed == f.press.target.Some? && f.scroll == None && f.handler == None
  }

  /** The same press, perhaps with the finger or the tree elsewhere. */
  predicate SamePress(f: Finger, g: Finger)
  {
    f.press == g.press && f.last == g.last && f.width == g.width
  }

  /** The tree and where the finger is. */
  datatype Spot = Spot(root: View, x: real, y: real)
  {
    function After(i: Input): Spot
    {
      match i
      case Motion(toX, toY, _) => Spot(root, toX, toY)
      case Enter(toX, toY) => Spot(root, toX, toY)
      case Rebuild(r) => Spot(r, x, y)
      case _ => this
    }

    function AfterAll(inputs: seq<Input>): Spot
      decreases |inputs|
    {
      if inputs == [] then this else After(inputs[0]).AfterAll(inputs[1..])
    }
  }

  function Where(f: Finger): Spot { Spot(f.root, f.x, f.y) }

  lemma {:induction false} Undecided(f: Finger, inputs: seq<Input>)
    requires Pending(f) && Between(inputs) && forall i <- inputs :: !Decides(f, i)
    ensures var r := Run(f, inputs);
            Pending(r) && SamePress(f, r) && r.out == f.out && Where(r) == Where(f).AfterAll(inputs)
    decreases |inputs|
  {
    if inputs != [] {
      var n := f.Next(inputs[0]);
      assert inputs[0] in inputs;
      forall j <- inputs[1..]
        ensures !Decides(n, j) && !j.Press? && !j.Release?
      {
        assert j in inputs;
      }
      Undecided(n, inputs[1..]);
    }
  }

  /** Once a long press has fired, nothing more comes out until the release. */
  lemma {:induction false} HeldStill(f: Finger, inputs: seq<Input>)
    requires f.down && f.held && !f.armed && Between(inputs)
    ensures var r := Run(f, inputs); r.down && r.held && !r.armed && r.out == f.out
    decreases |inputs|
  {
    if inputs != [] {
      assert inputs[0] in inputs;
      assert forall j <- inputs[1..] :: j in inputs;
      HeldStill(f.Next(inputs[0]), inputs[1..]);
    }
  }

  /** What a drag puts out per motion sample. */
  predicate Drags(e: Effect, handler: Option<nat>, scroll: Option<nat>)
  {
    match e
    case Pan(h, event) => handler == Some(h) && event.phase == Changed
    case ScrollBy(s, _) => scroll == Some(s)
    case _ => false
  }

  function Scrolled(out: seq<Effect>): real
  {
    if out == [] then 0.0
    else Scrolled(out[..|out| - 1]) + if out[|out| - 1].ScrollBy? then out[|out| - 1].dy else 0.0
  }

  lemma {:induction false} ScrolledJoin(a: seq<Effect>, b: seq<Effect>)
    ensures Scrolled(a + b) == Scrolled(a) + Scrolled(b)
    decreases |b|
  {
    if b == [] {
      assert a + b == a;
    } else {
      ScrolledJoin(a, b[..|b| - 1]);
      assert (a + b)[..|a + b| - 1] == a + b[..|b| - 1];
    }
  }

  /** A drag with at most one of a pan handler and a scroll view. */
  predicate Dragging(f: Finger)
  {
    f.down && f.panning && !f.held && !f.armed && (f.handler.None? || f.scroll.None?)
  }

  /** The height of the last motion sample. */
  function LastSample(y: real, inputs: seq<Input>): real
    decreases |inputs|
  {
    if inputs == [] then y else LastSample(if inputs[0].Motion? then inputs[0].y else y, inputs[1..])
  }

  /** While dragging, only motion puts anything out, all of it to the targets chosen at the start,
      and a scrolled view moves by exactly what the finger has moved. */
  lemma {:induction false} DragRun(f: Finger, inputs: seq<Input>) returns (t: seq<Effect>)
    requires Dragging(f) && Between(inputs)
    ensures var r := Run(f, inputs);
            && Dragging(r) && r.handler == f.handler && r.scroll == f.scroll
            && r.press == f.press && r.width == f.width && r.out == f.out + t
            && (f.scroll.Some? ==> Scrolled(t) == f.last.y - r.last.y)
            && r.last.y == LastSample(f.last.y, inputs) && r.x == Where(f).AfterAll(inputs).x
    ensures forall e <- t :: Drags(e, f.handler, f.scroll)
    decreases |inputs|
  {
    t := [];
    if inputs != [] {
      var n := f.Next(inputs[0]);
      assert inputs[0] in inputs && forall j <- inputs[1..] :: j in inputs;
      var first := DragStep(f, inputs[0]);
      var rest := DragRun(n, inputs[1..]);
      t := first + rest;
      ScrolledJoin(first, rest);
      assert f.out + first + rest == f.out + (first + rest);
    } else {
      assert f.out + [] == f.out;
    }
  }

  lemma DragStep(f: Finger, i: Input) returns (t: seq<Effect>)
    requires Dragging(f) && !i.Press? && !i.Release?
    ensures var r := f.Next(i);
            && Dragging(r) && r.handler == f.handler && r.scroll == f.scroll
            && r.press == f.press && r.width == f.width && r.out == f.out + t
            && (f.scroll.Some? ==> Scrolled(t) == f.last.y - r.last.y)
            && Where(r) == Where(f).After(i) && r.last.y == if i.Motion? then i.y else f.last.y
    ensures forall e <- t :: Drags(e, f.handler, f.scroll)
    ensures i.Motion? && (f.handler.Some? || f.scroll.Some?) ==> t != []
  {
    if i.Motion? {
      t := DragSample(f.(x := i.x, y := i.y), i.now);
    } else {
      t := [];
      assert f.out + t == f.out;
    }
  }

  lemma DragSample(f: Finger, now: real) returns (t: seq<Effect>)
    requires f.handler.None? || f.scroll.None?
    ensures var r := f.Dragged(now);
            && r == f.(last := Sample(f.x, f.y, now, r.last.velocity), out := f.out + t)
            && (f.scroll.Some? ==> Scrolled(t) == f.last.y - f.y)
    ensures forall e <- t :: Drags(e, f.handler, f.scroll)
    ensures f.handler.Some? || f.scroll.Some? ==> t != []
  {
    var r := f.Dragged(now);
    var b := if f.scroll.Some? then [ScrollBy(f.scroll.value, -(f.y - f.last.y))] else [];
    var e := f.(last := r.last).Pan(Changed);
    t := b + e;
    if f.scroll.Some? {
      assert t == [ScrollBy(f.scroll.value, -(f.y - f.last.y))];
      assert t[..0] == [];
    }
  }

  /** What the effects of one input tell: where the finger is, how far it has come since the press, how
      fast it was; a scrolled view is let go at the opposite speed. */
  predicate Tells(e: Effect, r: Finger)
  {
    match e
    case Pan(h, ev) =>
      r.handler == Some(h) && ev.x == r.x && ev.y == r.y && ev.dx == r.x - r.press.x && ev.dy == r.y - r.press.y &&
      (ev.phase == Begin || ev.vy == r.last.velocity)
    case ScrollEnd(s, vy) => r.scroll == Some(s) && vy == -r.last.velocity
    case Hold(_, x, y) => x == r.press.x && y == r.press.y
    case _ => true
  }

  lemma EffectsTell(f: Finger, i: Input)
    ensures AllTell(f, f.Next(i))
  {
    match i
    case Motion(x, y, now) => MotionTells(f.(x := x, y := y), now);
    case Release => ReleasedTells(f);
    case Timer(now) => WaitedTells(f, now);
    case _ => NothingTold(f, f.Next(i));
  }

  lemma NothingTold(f: Finger, r: Finger)
    requires r.out == f.out
    ensures AllTell(f, r)
  {
    assert r.out[|f.out|..] == [];
  }

  lemma ReleasedTells(f: Finger)
    ensures AllTell(f, f.Released())
  {
    var r := f.Released();
    if r.out == f.out {
      NothingTold(f, r);
    } else if !f.panning {
      assert r.out[|f.out|..] == [r.out[|f.out|]];
    } else {
      var more := (if f.press.x < EDGE && f.x - f.press.x > f.width * 0.30 then [PopScreen]
                   else if f.scroll.Some? then [ScrollEnd(f.scroll.value, -f.last.velocity)] else []) + f.Pan(End);
      assert r.out == f.out + more && r.out[|f.out|..] == more;
    }
  }

  lemma WaitedTells(f: Finger, now: real)
    ensures AllTell(f, f.Waited(now))
  {
    var r := f.Waited(now);
    if r.out == f.out {
      NothingTold(f, r);
    } else {
      assert r.out[|f.out|..] == [Hold(f.press.target.value, f.press.x, f.press.y)];
    }
  }

  /** All that is put out on the way from `f` to `r` tells. */
  predicate AllTell(f: Finger, r: Finger)
  {
    |f.out| <= |r.out| && r.out[..|f.out|] == f.out && forall e <- r.out[|f.out|..] :: Tells(e, r)
  }

  lemma MotionTells(f: Finger, now: real)
    ensures AllTell(f, f.Moved(f.x, f.y, now))
  {
    var m := f.(x := f.x, y := f.y);
    hide Finger.PastSlop;
    if f.down && !f.held {
      BegunTells(f);
      var s := if !m.panning && m.PastSlop() then m.Begun() else m;
      DraggedTells(s, now);
      var r := s.Dragged(now);
      hide Finger.Begun;
      hide Finger.Dragged;
      if s.panning {
        BothTell(f, s, r);
      }
    }
  }

  /** A beginning tells nothing about the speed yet. */
  lemma BegunTells(f: Finger)
    ensures var r := f.Begun();
            && |f.out| <= |r.out| && r.out[..|f.out|] == f.out && r.x == f.x && r.y == f.y && r.press == f.press && r.last == f.last
            && forall e <- r.out[|f.out|..] :: Tells(e, r) && !e.ScrollEnd? && (e.Pan? ==> e.event.phase == Begin)
  {
    var r := f.Begun();
    var h := f.root.Find(PanTarget, f.press.x, f.press.y);
    var sc := if h.None? then f.root.Find(ScrollTarget, f.press.x, f.press.y) else f.scroll;
    var more := (if h.None? && sc.Some? then [ScrollBegin(sc.value)] else []) + f.(handler := h).Pan(Begin);
    assert r.out == f.out + more;
    assert r.out[|f.out|..] == more;
  }

  lemma DraggedTells(f: Finger, now: real)
    ensures var r := f.Dragged(now);
            AllTell(f, r) && r.x == f.x && r.y == f.y && r.press == f.press && r.handler == f.handler && r.scroll == f.scroll
  {
    var r := f.Dragged(now);
    var more := (if f.scroll.Some? then [ScrollBy(f.scroll.value, -(f.y - f.last.y))] else []) + f.(last := r.last).Pan(Changed);
    assert r.out == f.out + more;
    assert r.out[|f.out|..] == more;
  }

  lemma BothTell(f: Finger, s: Finger, r: Finger)
    requires |f.out| <= |s.out| && s.out[..|f.out|] == f.out
    requires forall e <- s.out[|f.out|..] :: Tells(e, s) && !e.ScrollEnd? && (e.Pan? ==> e.event.phase == Begin)
    requires AllTell(s, r) && r.x == s.x && r.y == s.y && r.press == s.press && r.handler == s.handler && r.scroll == s.scroll
    ensures AllTell(f, r)
  {
    assert r.out[|f.out|..] == s.out[|f.out|..] + r.out[|s.out|..];
  }

  /** A drag's speed is the way the finger went since the sample before, over the time it took (at least
      a millisecond). */
  lemma SpeedIs(f: Finger, x: real, y: real, now: real)
    requires f.down && !f.held
    ensures var r := f.Next(Motion(x, y, now));
            r.panning ==>
              && r.last.x == x && r.last.y == y && r.last.time == now
              && r.last.velocity * (if now - f.last.time < 0.001 then 0.001 else now - f.last.time) == y - f.last.y
  {
    hide Finger.PastSlop;
  }

  /** A press is decided by a sample more than 8 pixels away, or by 0.45 s on a node with a long press. */
  lemma DecidesMeans(f: Finger, i: Input)
    ensures Decides(f, i) <==>
            match i
            case Motion(x, y, _) => (x - f.press.x) * (x - f.press.x) + (y - f.press.y) * (y - f.press.y) > 64.0
            case Timer(now) => f.press.target.Some? && now >= f.press.time + 0.45
            case _ => false
  {
  }

  // ---------------------------------------------------------------- the verdict

  /** The first input that decides a press, or the length. */
  function First(p: Finger, inputs: seq<Input>): (k: nat)
    ensures k <= |inputs| && (k < |inputs| ==> Decides(p, inputs[k]))
    ensures forall i :: 0 <= i < k ==> !Decides(p, inputs[i])
  {
    if inputs == [] || Decides(p, inputs[0]) then 0 else 1 + First(p, inputs[1..])
  }

  datatype Verdict =
    | Tapped(hit: Option<nat>)
    | LongPressed(view: nat)
    | Dragged(pan: Option<nat>, scroll: Option<nat>)

  /** What a gesture is: the first deciding input makes it a long press or a drag, none a tap. The tap
      goes to what is under the finger at the release, the others to what is under the press. */
  function Judge(p: Finger, inputs: seq<Input>): Verdict
  {
    var k := First(p, inputs);
    if k == |inputs| then
      var spot := Where(p).AfterAll(inputs);
      Tapped(spot.root.Find(TapTarget, spot.x, spot.y))
    else if inputs[k].Timer? then LongPressed(p.press.target.value)
    else
      var root := Where(p).AfterAll(inputs[..k]).root;
      var h := root.Find(PanTarget, p.press.x, p.press.y);
      Dragged(h, if h.None? then root.Find(ScrollTarget, p.press.x, p.press.y) else None)
  }

  /** The drag begins. */
  predicate Starts(s: seq<Effect>, v: Verdict)
    requires v.Dragged?
  {
    if v.pan.Some? then |s| == 1 && s[0].Pan? && s[0].handler == v.pan.value && s[0].event.phase == Begin
    else s == if v.scroll.Some? then [ScrollBegin(v.scroll.value)] else []
  }

  /** The drag ends: an edge swipe pops a screen, else a scrolled view is let go; a pan handler is told. */
  predicate Finishes(s: seq<Effect>, v: Verdict, pops: bool)
    requires v.Dragged?
  {
    var n := if pops || v.scroll.Some? then 1 else 0;
    && |s| == n + (if v.pan.Some? then 1 else 0)
    && (pops ==> s[0] == PopScreen)
    && (!pops && v.scroll.Some? ==> s[0].ScrollEnd? && s[0].scroll == v.scroll.value)
    && (v.pan.Some? ==> s[n].Pan? && s[n].handler == v.pan.value && s[n].event.phase == End)
  }

  predicate EdgeSwipe(p: Finger, inputs: seq<Input>)
  {
    p.press.x < 32.0 && Where(p).AfterAll(inputs).x - p.press.x > 0.3 * p.width
  }

  predicate Parts(g: seq<Effect>, start: seq<Effect>, middle: seq<Effect>, finish: seq<Effect>,
                  p: Finger, inputs: seq<Input>, v: Verdict)
    requires v.Dragged?
  {
    && g == start + middle + finish
    && Starts(start, v) && Finishes(finish, v, EdgeSwipe(p, inputs))
    && (forall e <- middle :: Drags(e, v.pan, v.scroll))
    && (v.pan.Some? || v.scroll.Some? ==> middle != [])
    && (v.scroll.Some? ==> Scrolled(middle) == p.press.y - LastSample(p.press.y, inputs))
  }

  /** What a gesture puts out. */
  ghost predicate Gives(g: seq<Effect>, p: Finger, inputs: seq<Input>)
  {
    match Judge(p, inputs)
    case Tapped(hit) => g == if hit.Some? then [Tap(hit.value)] else []
    case LongPressed(h) => g == [Hold(h, p.press.x, p.press.y)]
    case Dragged(h, sc) => exists start, middle, finish :: Parts(g, start, middle, finish, p, inputs, Dragged(h, sc))
  }

  lemma {:induction false} RunJoin(f: Finger, a: seq<Input>, b: seq<Input>)
    ensures Run(f, a + b) == Run(Run(f, a), b)
    decreases |a|
  {
    if a == [] {
      assert a + b == b;
    } else {
      RunJoin(f.Next(a[0]), a[1..], b);
      assert (a + b)[1..] == a[1..] + b;
    }
  }

  lemma {:induction false} AfterAllJoin(s: Spot, a: seq<Input>, b: seq<Input>)
    ensures s.AfterAll(a + b) == s.AfterAll(a).AfterAll(b)
    decreases |a|
  {
    if a == [] {
      assert a + b == b;
    } else {
      AfterAllJoin(s.After(a[0]), a[1..], b);
      assert (a + b)[1..] == a[1..] + b;
    }
  }

  lemma {:induction false} LastSampleJoin(y: real, a: seq<Input>, b: seq<Input>)
    ensures LastSample(y, a + b) == LastSample(LastSample(y, a), b)
    decreases |a|
  {
    if a == [] {
      assert a + b == b;
    } else {
      LastSampleJoin(if a[0].Motion? then a[0].y else y, a[1..], b);
      assert (a + b)[1..] == a[1..] + b;
    }
  }

  /** Every gesture puts out exactly what its first deciding input says: one tap, one long press, or
      a whole drag to one target; and it leaves the recognizer idle. */
  lemma Gesture(f: Finger, now: real, inputs: seq<Input>) returns (g: seq<Effect>)
    requires f.Idle() && Between(inputs)
    ensures var z := Run(f.Pressed(now), inputs).Released();
            z.Idle() && z.out == f.out + g && Gives(g, f.Pressed(now), inputs)
  {
    var p := f.Pressed(now);
    var k := First(p, inputs);
    var before, rest := inputs[..k], inputs[k..];
    assert inputs == before + rest;
    assert forall i <- before :: !Decides(p, i);
    Undecided(p, before);
    var q := Run(p, before);
    RunJoin(p, before, rest);
    AfterAllJoin(Where(p), before, rest);
    if k == |inputs| {
      assert before == inputs;
      g := TapGesture(p, inputs);
    } else {
      assert inputs[k] in inputs && forall i <- inputs[k + 1..] :: i in inputs;
      assert rest[0] == inputs[k] && rest[1..] == inputs[k + 1..];
      if inputs[k].Timer? {
        HeldStill(q.Next(inputs[k]), rest[1..]);
        g := [Hold(p.press.target.value, p.press.x, p.press.y)];
      } else {
        g := DragGesture(p, inputs, k);
      }
    }
  }

  lemma TapGesture(p: Finger, inputs: seq<Input>) returns (g: seq<Effect>)
    requires Pending(p) && Between(inputs) && forall i <- inputs :: !Decides(p, i)
    ensures var z := Run(p, inputs).Released();
            z.Idle() && z.out == p.out + g && Gives(g, p, inputs)
  {
    Undecided(p, inputs);
    var hit := Where(Run(p, inputs)).root.Find(TapTarget, Run(p, inputs).x, Run(p, inputs).y);
    g := if hit.Some? then [Tap(hit.value)] else [];
  }

  /** The sample that crosses the slop begins the drag and is its first sample. */
  lemma DragBegins(q: Finger, i: Input, v: Verdict) returns (start: seq<Effect>, first: seq<Effect>)
    requires Pending(q) && i.Motion? && Decides(q, i)
    requires v == (var h := q.root.Find(PanTarget, q.press.x, q.press.y);
                   Dragged(h, if h.None? then q.root.Find(ScrollTarget, q.press.x, q.press.y) else None))
    ensures var d := q.Next(i);
            && Dragging(d) && d.handler == v.pan && d.scroll == v.scroll && d.out == q.out + start + first
            && d.press == q.press && d.width == q.width && d.last.y == i.y && Where(d) == Where(q).After(i)
            && (v.scroll.Some? ==> Scrolled(first) == q.last.y - i.y)
    ensures Starts(start, v) && forall e <- first :: Drags(e, v.pan, v.scroll)
    ensures v.pan.Some? || v.scroll.Some? ==> first != []
  {
    var m := q.(x := i.x, y := i.y);
    var b := m.Begun();
    start := (if v.scroll.Some? then [ScrollBegin(v.scroll.value)] else []) + b.Pan(Begin);
    assert v.scroll.Some? ==> v.pan.None?;
    assert Starts(start, v);
    assert b.out == q.out + start;
    first := DragSample(b, i.now);
    hide Finger.Begun;
    hide Finger.Dragged;
  }

  lemma DragEnds(r: Finger, v: Verdict) returns (finish: seq<Effect>)
    requires Dragging(r) && v == Dragged(r.handler, r.scroll)
    ensures var z := r.Released();
            z.Idle() && z.out == r.out + finish && Finishes(finish, v, r.press.x < EDGE && r.x - r.press.x > r.width * 0.30)
  {
    var pops := r.press.x < EDGE && r.x - r.press.x > r.width * 0.30;
    finish := (if pops then [PopScreen] else if r.scroll.Some? then [ScrollEnd(r.scroll.value, -r.last.velocity)] else []) + r.Pan(End);
  }

  /** A drag from the sample that begins it to the release. */
  lemma DragWhole(q: Finger, i: Input, after: seq<Input>, v: Verdict)
    returns (start: seq<Effect>, middle: seq<Effect>, finish: seq<Effect>)
    requires Pending(q) && i.Motion? && Decides(q, i) && Between(after)
    requires v == (var h := q.root.Find(PanTarget, q.press.x, q.press.y);
                   Dragged(h, if h.None? then q.root.Find(ScrollTarget, q.press.x, q.press.y) else None))
    ensures var z := Run(q.Next(i), after).Released();
            z.Idle() && z.out == q.out + (start + middle + finish)
    ensures Starts(start, v) && forall e <- middle :: Drags(e, v.pan, v.scroll)
    ensures v.pan.Some? || v.scroll.Some? ==> middle != []
    ensures v.scroll.Some? ==> Scrolled(middle) == q.last.y - LastSample(i.y, after)
    ensures var x := Where(q).After(i).AfterAll(after).x;
            Finishes(finish, v, q.press.x < EDGE && x - q.press.x > q.width * 0.30)
  {
    var first, more;
    start, first := DragBegins(q, i, v);
    var d := q.Next(i);
    hide Finger.Next;
    more := DragRun(d, after);
    var r := Run(d, after);
    hide Run;
    finish := DragEnds(r, v);
    ScrolledJoin(first, more);
    middle := first + more;
    Regroup(q.out, start, first, more, finish);
  }

  lemma Regroup<T>(o: seq<T>, a: seq<T>, b: seq<T>, c: seq<T>, d: seq<T>)
    ensures o + a + b + c + d == o + (a + (b + c) + d)
  {
  }

  lemma DragGesture(p: Finger, inputs: seq<Input>, k: nat) returns (g: seq<Effect>)
    requires Pending(p) && p.last.y == p.press.y && Between(inputs)
    requires k == First(p, inputs) < |inputs| && inputs[k].Motion?
    ensures var z := Run(p, inputs).Released();
            z.Idle() && z.out == p.out + g && Gives(g, p, inputs)
  {
    var before, i, after := inputs[..k], inputs[k], inputs[k + 1..];
    DragFacts(p, inputs, k);
    AfterInput(p, before, i, after);
    hide *;
    var q, v := Run(p, before), Judge(p, inputs);
    var start, middle, finish := DragWhole(q, i, after, v);
    g := start + middle + finish;
    DragGives(g, start, middle, finish, p, inputs, k);
  }

  /** What is known when the sample that crosses the slop arrives. */
  lemma DragFacts(p: Finger, inputs: seq<Input>, k: nat)
    requires Pending(p) && p.last.y == p.press.y && Between(inputs)
    requires k == First(p, inputs) < |inputs| && inputs[k].Motion?
    ensures var before, i, after := inputs[..k], inputs[k], inputs[k + 1..];
            var q, v := Run(p, before), Judge(p, inputs);
            && inputs == before + ([i] + after) && Between(after)
            && Pending(q) && SamePress(p, q) && q.out == p.out && Decides(q, i) && Where(q) == Where(p).AfterAll(before)
            && v == (var h := q.root.Find(PanTarget, q.press.x, q.press.y);
                     Dragged(h, if h.None? then q.root.Find(ScrollTarget, q.press.x, q.press.y) else None))
  {
    var before := inputs[..k];
    assert forall j <- before :: !Decides(p, j);
    assert forall j <- inputs[k + 1..] :: j in inputs;
    Undecided(p, before);
    hide Run;
    hide View.Find;
  }

  lemma DragGives(g: seq<Effect>, start: seq<Effect>, middle: seq<Effect>, finish: seq<Effect>, p: Finger, inputs: seq<Input>, k: nat)
    requires k == First(p, inputs) < |inputs| && inputs[k].Motion?
    requires Parts(g, start, middle, finish, p, inputs, Judge(p, inputs))
    ensures Gives(g, p, inputs)
  {
    hide Parts;
  }

  lemma AfterInput(p: Finger, before: seq<Input>, i: Input, after: seq<Input>)
    ensures var all := before + ([i] + after);
            && Run(p, all) == Run(Run(p, before).Next(i), after)
            && Where(p).AfterAll(all) == Where(p).AfterAll(before).After(i).AfterAll(after)
            && (i.Motion? ==> LastSample(p.press.y, all) == LastSample(i.y, after))
  {
    var rest := [i] + after;
    assert rest[1..] == after;
    RunJoin(p, before, rest);
    AfterAllJoin(Where(p), before, rest);
    LastSampleJoin(p.press.y, before, rest);
  }

  /** It is a tap exactly when no motion sample left the slop and the finger was not held long enough
      on a node with a long press; otherwise the first of the two decides. */
  lemma TapExactlyWhenStill(p: Finger, inputs: seq<Input>)
    ensures Judge(p, inputs).Tapped? <==> forall i <- inputs :: !Decides(p, i)
    ensures Judge(p, inputs).LongPressed? <==>
            exists k :: 0 <= k < |inputs| && Decides(p, inputs[k]) && inputs[k].Timer? && forall j :: 0 <= j < k ==> !Decides(p, inputs[j])
  {
    var k := First(p, inputs);
    if k < |inputs| {
      assert Decides(p, inputs[k]) && inputs[k] in inputs;
    } else {
      forall i <- inputs
        ensures !Decides(p, i)
      {
        var j :| 0 <= j < |inputs| && inputs[j] == i;
      }
    }
  }

  // ---------------------------------------------------------------- streams of gestures

  /** A press with what came before it and what happens until its release. */
  datatype Touch = Touch(before: seq<Input>, now: real, during: seq<Input>)
  {
    function Inputs(): seq<Input> { before + [Press(now)] + during + [Release] }
  }

  lemma {:induction false} NothingWhileUp(f: Finger, inputs: seq<Input>)
    requires f.Idle() && Between(inputs)
    ensures Run(f, inputs).Idle() && Run(f, inputs).out == f.out
    decreases |inputs|
  {
    if inputs != [] {
      assert inputs[0] in inputs && forall j <- inputs[1..] :: j in inputs;
      NothingWhileUp(f.Next(inputs[0]), inputs[1..]);
    }
  }

  lemma OneTouch(f: Finger, t: Touch) returns (g: seq<Effect>)
    requires f.Idle() && Between(t.before) && Between(t.during)
    ensures var z := Run(f, t.Inputs());
            z.Idle() && z.out == f.out + g && Gives(g, Run(f, t.before).Pressed(t.now), t.during)
  {
    NothingWhileUp(f, t.before);
    var u := Run(f, t.before);
    g := Gesture(u, t.now, t.during);
    hide Finger.Pressed;
    hide Finger.Released;
    hide Gives;
    assert t.Inputs() == t.before + ([Press(t.now)] + (t.during + [Release]));
    RunJoin(f, t.before, [Press(t.now)] + (t.during + [Release]));
    RunOne(u, Press(t.now), t.during + [Release]);
    RunJoin(u.Pressed(t.now), t.during, [Release]);
    RunOne(Run(u.Pressed(t.now), t.during), Release, []);
    assert [Release] + [] == [Release];
  }

  lemma RunOne(f: Finger, i: Input, rest: seq<Input>)
    ensures Run(f, [i] + rest) == Run(f.Next(i), rest)
  {
    assert ([i] + rest)[1..] == rest;
  }

  function AllInputs(ts: seq<Touch>): seq<Input>
  {
    if ts == [] then [] else ts[0].Inputs() + AllInputs(ts[1..])
  }

  function Flat(gs: seq<seq<Effect>>): seq<Effect>
  {
    if gs == [] then [] else gs[0] + Flat(gs[1..])
  }

  /** Each touch of a stream gives its part of the output, whatever the touches before it left. */
  ghost predicate Explained(f: Finger, ts: seq<Touch>, gs: seq<seq<Effect>>)
    decreases |ts|
  {
    |ts| == |gs| && (ts != [] ==>
      Gives(gs[0], Run(f, ts[0].before).Pressed(ts[0].now), ts[0].during) && Explained(Run(f, ts[0].Inputs()), ts[1..], gs[1..]))
  }

  /** Over any alternating stream of presses and releases, the output is that of the gestures, one
      after the other, and nothing in between. */
  lemma {:induction false} Stream(f: Finger, ts: seq<Touch>) returns (gs: seq<seq<Effect>>)
    requires f.Idle() && forall t <- ts :: Between(t.before) && Between(t.during)
    ensures Explained(f, ts, gs)
    ensures var z := Run(f, AllInputs(ts)); z.Idle() && z.out == f.out + Flat(gs)
    decreases |ts|
  {
    if ts == [] {
      gs := [];
      assert f.out + [] == f.out;
    } else {
      var t, rest := ts[0], ts[1..];
      assert t in ts && forall x <- rest :: x in ts;
      hide *;
      var g := OneTouch(f, t);
      var more := Stream(Run(f, t.Inputs()), rest);
      gs := [g] + more;
      assert ts == [t] + rest;
      StreamStep(f, t, rest, g, more);
    }
  }

  lemma StreamStep(f: Finger, t: Touch, rest: seq<Touch>, g: seq<Effect>, more: seq<seq<Effect>>)
    requires var n := Run(f, t.Inputs());
             n.out == f.out + g && Explained(n, rest, more) && Run(n, AllInputs(rest)).out == n.out + Flat(more)
    requires Gives(g, Run(f, t.before).Pressed(t.now), t.during)
    ensures Explained(f, [t] + rest, [g] + more)
    ensures Run(f, AllInputs([t] + rest)) == Run(Run(f, t.Inputs()), AllInputs(rest))
    ensures Run(f, AllInputs([t] + rest)).out == f.out + Flat([g] + more)
  {
    hide Gives;
    hide Run;
    hide Finger.Pressed;
    assert ([t] + rest)[1..] == rest && ([g] + more)[1..] == more;
    RunJoin(f, t.Inputs(), AllInputs(rest));
    hide AllInputs;
    assert f.out + g + Flat(more) == f.out + (g + Flat(more));
  }

  // ---------------------------------------------------------------- the app's fields

  /** The recognizer as the app keeps it. */
  class Recognizer {
    var root: View
    var width: real
    var ptrX: real
    var ptrY: real
    var ptrDown: bool
    var panning: bool
    var press: PressPoint
    var last: Sample
    var dragScroll: Option<nat>
    var panHandler: Option<nat>
    var longPressArmed: bool
    var longPressed: bool
    /** Everything the recognizer has put out. */
    var out: seq<Effect>

    function Snapshot(): Finger
      reads this
    {
      Finger(root, width, ptrX, ptrY, ptrDown, panning, press, last, dragScroll, panHandler, longPressArmed, longPressed, out)
    }

    constructor (r: View, w: real)
      ensures Snapshot().Idle() && out == [] && root == r && width == w
    {
      root, width, out := r, w, [];
      ptrX, ptrY := 0.0, 0.0;
      press, last := PressPoint(0.0, 0.0, 0.0, None), Sample(0.0, 0.0, 0.0, 0.0);
      ptrDown, panning, longPressArmed, longPressed := false, false, false, false;
      dragScroll, panHandler := None, None;
    }

    method DispatchPan(phase: Phase)
      modifies this`out
      ensures out == old(out) + Snapshot().Pan(phase)
    {
      if panHandler.None? {
        return;
      }
      out := out + [Pan(panHandler.value, PanEvent(ptrX, ptrY, ptrX - press.x, ptrY - press.y, last.velocity, phase))];
    }

    /** The slop is crossed: pick the target of the drag. */
    method BeginDrag()
      modifies this`longPressArmed, this`panning, this`panHandler, this`dragScroll, this`out
      ensures Snapshot() == old(Snapshot()).Begun()
    {
      hide View.Find;
      longPressArmed := false;
      panning := true;
      panHandler := root.Find(PanTarget, press.x, press.y);
      if panHandler.None? {
        dragScroll := root.Find(ScrollTarget, press.x, press.y);
        if dragScroll.Some? {
          out := out + [ScrollBegin(dragScroll.value)];
        }
      }
      DispatchPan(Begin);
    }

    /** One motion sample of a drag. */
    method DragBy(now: real)
      modifies this`last, this`out
      ensures Snapshot() == old(Snapshot()).Dragged(now)
    {
      var elapsed := now - last.time;
      if elapsed < 0.001 {
        elapsed := 0.001;
      }
      var dy := ptrY - last.y;
      last := Sample(ptrX, ptrY, now, dy / elapsed);
      if dragScroll.Some? {
        out := out + [ScrollBy(dragScroll.value, -dy)];
      }
      DispatchPan(Changed);
    }

    method PointerMotion(x: real, y: real, now: real)
      modifies this
      ensures Snapshot() == old(Snapshot()).Moved(x, y, now)
    {
      hide Finger.Begun;
      hide Finger.Dragged;
      ptrX, ptrY := x, y;
      if !ptrDown || longPressed {
        return;
      }
      var dx, dy := ptrX - press.x, ptrY - press.y;
      var crossed := dx * dx + dy * dy > SLOP * SLOP;
      assert crossed == Snapshot().PastSlop();
      hide Finger.PastSlop;
      if !panning && crossed {
        BeginDrag();
      }
      if panning {
        DragBy(now);
      }
    }

    method PointerPress(now: real)
      modifies this
      ensures Snapshot() == old(Snapshot()).Pressed(now)
    {
      hide View.Find;
      ptrDown, panning := true, false;
      dragScroll, panHandler := None, None;
      last := Sample(ptrX, ptrY, now, 0.0);
      longPressed := false;
      var target := root.Find(HoldTarget, ptrX, ptrY);
      press := PressPoint(ptrX, ptrY, now, target);
      longPressArmed := target.Some?;
    }

    method PointerRelease()
      modifies this`ptrDown, this`longPressArmed, this`longPressed, this`panning, this`out
      ensures Snapshot() == old(Snapshot()).Released()
    {
      hide View.Find;
      if !ptrDown {
        return;
      }
      ptrDown, longPressArmed := false, false;
      if longPressed {
        longPressed, panning := false, false;
        return;
      }
      if !panning {
        var hit := root.Find(TapTarget, ptrX, ptrY);
        if hit.Some? {
          out := out + [Tap(hit.value)];
        }
        return;
      }
      if press.x < EDGE && ptrX - press.x > width * 0.30 {
        out := out + [PopScreen];
      } else if dragScroll.Some? {
        out := out + [ScrollEnd(dragScroll.value, -last.velocity)];
      }
      DispatchPan(End);
      panning := false;
    }

    /** The app loop's check of the long-press timer. */
    method LoopTurn(now: real)
      modifies this`longPressArmed, this`longPressed, this`out
      ensures Snapshot() == old(Snapshot()).Waited(now)
    {
      if longPressArmed && ptrDown && !panning && now - press.time >= LONG_PRESS {
        longPressArmed, longPressed := false, true;
        if press.target.Some? {
          out := out + [Hold(press.target.value, press.x, press.y)];
        }
      }
    }

    method Handle(i: Input)
      modifies this
      ensures Snapshot() == old(Snapshot()).Next(i)
    {
      hide Finger.Pressed;
      hide Finger.Released;
      hide Finger.Moved;
      hide Finger.Waited;
      match i {
        case Press(now) => PointerPress(now);
        case Release => PointerRelease();
        case Motion(x, y, now) => PointerMotion(x, y, now);
        case Timer(now) => LoopTurn(now);
        case Rebuild(r) => root := r;
        case Enter(x, y) => ptrX, ptrY := x, y;
      }
    }
  }
}
