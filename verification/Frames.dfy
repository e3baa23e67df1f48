/** The frame loop's retained double buffer: two pixel buffers holding different old frames,
    each with the damage it has missed, repainted incrementally. */
module Frames {
  import opened Geometry
  import opened Pixels
  import opened Scene
  import opened Wrappers
  import opened Reconcile
  import Painter

  /** More rectangles than this are repainted as a whole. */
  const MAX_PARTIAL: nat := 8

  /** One buffer of the pool. `live` says it has storage; `busy` that the compositor reads it;
      `valid` that it holds some earlier frame. */
  class Buffer {
    var live: bool
    var px: array<Word>
    var w: nat
    var h: nat
    var busy: bool
    var valid: bool
    const pending: DamageSet

    constructor ()
      ensures !live && !busy && !valid && pending.Value() == NO_DAMAGE
      ensures fresh(pending) && fresh(px) && Shaped() && AllPremultiplied()
    {
      live, busy, valid, w, h := false, false, false, 0, 0;
      px := new Word[0];
      pending := new DamageSet();
    }

    ghost predicate Shaped()
      reads this
    {
      px.Length == h * w
    }

    ghost predicate On(x: int, y: int)
      reads this
    {
      0 <= x < w && 0 <= y < h
    }

    ghost function At(x: int, y: int): Word
      requires Shaped() && On(x, y)
      reads this, px
    {
      Painter.RowsFit(w, h, x, y);
      px[y * w + x]
    }

    /** Outside the damage the buffer shows the picture of `t`. */
    ghost predicate Shows(t: Node, font: Font, d: Damage)
      requires Shaped()
      reads this, px
    {
      forall x, y | On(x, y) && !d.Covers(x, y) :: At(x, y) == Picture(t, font, x, y)
    }

    ghost predicate AllPremultiplied()
      reads this, px
    {
      forall i | 0 <= i < px.Length :: Premultiplied(px[i])
    }

    /** (Re)allocate at a size. The kernel hands out zeroed memory. */
    method Alloc(w: nat, h: nat)
      modifies this, pending
      ensures live && !busy && !valid && this.w == w && this.h == h
      ensures pending.Value() == NO_DAMAGE
      ensures fresh(px) && Shaped() && forall i | 0 <= i < px.Length :: px[i] == 0
    {
      this.w, this.h := w, h;
      px := new Word[h * w](_ => 0);
      live, busy, valid := true, false, false;
      pending.Reset();
    }

    method Free()
      modifies this, pending
      ensures !live && !busy && !valid && w == 0 && h == 0
      ensures pending.Value() == NO_DAMAGE && fresh(px) && Shaped()
    {
      live, busy, valid, w, h := false, false, false, 0, 0;
      px := new Word[0];
      pending.Reset();
    }
  }

  /** Merging a frame's damage keeps it sound, and keeps it on the surface. */
  lemma MergedSound(missed: Damage, dmg: Damage, o: Node, n: Node, font: Font)
    requires Sound(dmg, o, n, font)
    ensures Sound(Merged(missed, dmg), o, n, font)
  {
    hide Px;
    MergedCovers(missed, dmg.rects);
    forall x, y | !Merged(missed, dmg).Covers(x, y)
      ensures SamePx(o, n, font, x, y)
    {
      assert !dmg.Covers(x, y) by {
        assert !dmg.full && !Damage(dmg.rects, false).Covers(x, y);
      }
    }
  }

  lemma MergedMeets(missed: Damage, dmg: Damage, w: int)
    requires missed.Meets(w) && dmg.Meets(w)
    ensures Merged(missed, dmg).Meets(w)
  {
    MergedCovers(missed, dmg.rects);
    assert Damage(dmg.rects, false).Meets(w);
  }

  lemma MergedKeepsFull(missed: Damage, dmg: Damage)
    ensures missed.full ==> Merged(missed, dmg).full
  {
    MergedCovers(missed, dmg.rects);
  }

  /** What the diff of two builds finds. */
  ghost predicate Measured(d: Damage, o: Node, n: Node)
  {
    && Grows(NO_DAMAGE, d) && GivesUp(NO_DAMAGE, d, Restructured(o, n), Pieces(o, n))
    && GrowsBy(NO_DAMAGE, d, (x, y) => Warranted(o, n, x, y))
  }

  /** The damage is everything if the builds are structured differently or differ in more than 64 pieces;
      else it is those pieces, and exactly the pixels they differ for. */
  ghost predicate Exactly(d: Damage, o: Node, n: Node)
  {
    if Restructured(o, n) || Pieces(o, n) > 64 then d.full
    else !d.full && |d.rects| == Pieces(o, n) && forall x, y :: d.Covers(x, y) <==> Warranted(o, n, x, y)
  }

  /** Two trees have the same picture on a surface of a size. */
  ghost predicate SamePicture(o: Node, n: Node, font: Font, w: nat, h: nat)
  {
    forall x, y | 0 <= x < w && 0 <= y < h :: Picture(o, font, x, y) == Picture(n, font, x, y)
  }

  /** Builds the diff finds equal have the same picture. */
  lemma QuietSamePicture(o: Node, n: Node, font: Font, dmg: Damage, w: nat, h: nat)
    requires Sound(dmg, o, n, font) && dmg == NO_DAMAGE
    ensures SamePicture(o, n, font, w, h)
  {
    hide Px;
    forall x, y | 0 <= x < w && 0 <= y < h
      ensures Picture(o, font, x, y) == Picture(n, font, x, y)
    {
      assert !dmg.Covers(x, y);
      assert SamePx(o, n, font, x, y);
    }
  }

  /** What reaches the frame loop: a build to show (with the request for a full repaint and
      which allocations succeed), the compositor releasing a buffer, a new surface size. */
  datatype Event =
    | Frame(tree: Node, sliding: bool, memory: seq<bool>)
    | Release(at: nat)
    | Resize(w: nat, h: nat)

  /** A committed frame: the build it was made for and the pixels handed over. */
  datatype Shown = Shown(tree: Node, w: nat, h: nat, pixels: seq<Word>)

  /** The pixel of a surface in a row-by-row copy of it. */
  ghost function PixelOf(pixels: seq<Word>, w: nat, h: nat, x: int, y: int): (p: Word)
    requires |pixels| == h * w && 0 <= x < w && 0 <= y < h
    ensures p in pixels
  {
    Painter.RowsFit(w, h, x, y);
    pixels[y * w + x]
  }

  /** The pixels are those of a full clear and paint. */
  ghost predicate Faithful(s: Shown, font: Font)
  {
    |s.pixels| == s.h * s.w &&
    forall x, y | 0 <= x < s.w && 0 <= y < s.h :: PixelOf(s.pixels, s.w, s.h, x, y) == Picture(s.tree, font, x, y)
  }

  /** Damage rectangles are cleared one by one only for a frame that neither slides nor is
      restructured, on a surface of unchanged size: then they meet its columns. */
  ghost predicate RectsUsable(root: Option<Node>, t: Node, sliding: bool, width: nat)
  {
    root.Some? && !sliding && !Restructured(root.value, t) ==> Clearable(root.value, t, width)
  }

  /** What the damage of the next frame depends on: the current build, the size it was laid out at,
      the size of the surface now. */
  datatype Stage = Stage(root: Option<Node>, rootW: nat, rootH: nat, width: nat, height: nat) {
    function After(ev: Event): Stage {
      match ev
      case Frame(t, _, _) => Stage(Some(t), width, height, width, height)
      case Release(_) => this
      case Resize(w, h) => this.(width := w, height := h)
    }

    /** A build that changes nothing at an unchanged size. */
    ghost predicate Same(t: Node) {
      root.Some? && rootW == width && rootH == height && Quiet(root.value, t)
    }

    /** A build that is repainted as a whole. */
    ghost predicate Anew(t: Node, sliding: bool) {
      sliding || root.None? || Restructured(root.value, t) || Pieces(root.value, t) > 8
    }
  }

  function StageAt(st: Stage, evs: seq<Event>): Stage {
    if evs == [] then st else StageAt(st, evs[..|evs| - 1]).After(evs[|evs| - 1])
  }

  /** Every build can be diffed against the one before it. */
  ghost predicate RunOk(st: Stage, font: Font, evs: seq<Event>) {
    forall i | 0 <= i < |evs| :: EventOk(StageAt(st, evs[..i]), font, evs[i])
  }

  ghost predicate EventOk(st: Stage, font: Font, ev: Event) {
    ev.Frame? ==>
      && |ev.memory| == 2
      && (st.root.Some? ==> Diffable(st.root.value, ev.tree, font))
      && (st.rootW == st.width ==> RectsUsable(st.root, ev.tree, ev.sliding, st.width))
  }

  /** What came of an event: a frame committed in a buffer, a frame that found none, or nothing. */
  datatype Outcome = Committed(at: nat, frame: Shown) | Lost | Nothing

  /** What came of an event, and whether the pool was coherent before and after it. In a coherent
      pool a frame is committed as the full picture of its build, and a frame painted anew is so in
      any pool and makes it coherent. Only a lost frame can end coherence, and only if it changes
      something. */
  ghost predicate Explains(st: Stage, ev: Event, out: Outcome, fine: bool, after: bool, font: Font)
  {
    match out
    case Committed(at, s) =>
      && ev.Frame? && at < 2 && s.tree == ev.tree
      && (fine || st.Anew(ev.tree, ev.sliding) ==> after && Faithful(s, font))
    case Lost => ev.Frame? && (fine && st.Same(ev.tree) ==> after)
    case Nothing => !ev.Frame? && after == fine
  }

  /** The log of a run explains its events one by one. */
  ghost predicate Told(st: Stage, evs: seq<Event>, log: seq<Outcome>, fine: seq<bool>, font: Font)
  {
    && |log| <= |evs| && |fine| == |log| + 1 && fine[0]
    && forall i | 0 <= i < |log| :: Explains(StageAt(st, evs[..i]), evs[i], log[i], fine[i], fine[i + 1], font)
  }

  lemma ToldMore(st: Stage, evs: seq<Event>, log: seq<Outcome>, fine: seq<bool>, out: Outcome, after: bool, font: Font)
    requires Told(st, evs, log, fine, font) && |log| < |evs|
    requires Explains(StageAt(st, evs[..|log|]), evs[|log|], out, fine[|log|], after, font)
    ensures Told(st, evs, log + [out], fine + [after], font)
    ensures StageAt(st, evs[..|log| + 1]) == StageAt(st, evs[..|log|]).After(evs[|log|])
  {
    hide Explains;
    assert evs[..|log| + 1][..|log|] == evs[..|log|];
  }

  lemma OnlyLossHarms(st: Stage, ev: Event, out: Outcome, fine: bool, after: bool, font: Font)
    requires Explains(st, ev, out, fine, after, font)
    ensures fine && !after ==> out.Lost?
    ensures out.Lost? ==> st.After(ev).rootW == st.After(ev).width
  {
    hide Faithful;
  }

  /** A run that loses no frame shows every build in full. */
  lemma {:induction false} NoLossAllFaithful(st: Stage, evs: seq<Event>, log: seq<Outcome>, fine: seq<bool>, font: Font, k: nat)
    requires Told(st, evs, log, fine, font) && k <= |log| && Lost !in log
    ensures fine[k]
    ensures forall i | 0 <= i < k && evs[i].Frame? ::
              log[i].Committed? && log[i].frame.tree == evs[i].tree && Faithful(log[i].frame, font)
  {
    hide Faithful;
    if k > 0 {
      NoLossAllFaithful(st, evs, log, fine, font, k - 1);
      assert Explains(StageAt(st, evs[..k - 1]), evs[k - 1], log[k - 1], fine[k - 1], fine[k], font);
    }
  }

  /** The frame a buffer has been handed over with and not been given back since. */
  function Held(evs: seq<Event>, log: seq<Outcome>, i: nat): Option<Shown>
    requires |evs| == |log|
  {
    if log == [] then None
    else
      var k := |log| - 1;
      if log[k].Committed? && log[k].at == i then Some(log[k].frame)
      else if evs[k] == Release(i) then None
      else Held(evs[..k], log[..k], i)
  }

  lemma HeldMore(evs: seq<Event>, log: seq<Outcome>, out: Outcome, i: nat)
    requires |log| < |evs|
    ensures Held(evs[..|log| + 1], log + [out], i) ==
            if out.Committed? && out.at == i then Some(out.frame)
            else if evs[|log|] == Release(i) then None
            else Held(evs[..|log|], log, i)
  {
    assert evs[..|log| + 1][..|log|] == evs[..|log|] && (log + [out])[..|log|] == log;
  }

  /** What a buffer was like at some moment: its fields, its pixels, and whether it could only be
      repainted as a whole. */
  datatype Moment = Moment(live: bool, px: array<Word>, pixels: seq<Word>, w: nat, h: nat, busy: bool, valid: bool, stale: bool)
  {
    /** Taken for a frame of a size, it must be repainted as a whole. */
    predicate SpoiltAt(width: nat, height: nat) { stale || !live || w != width || h != height }

    /** Losing a frame does it no harm: the compositor does not read it, or it can only be repainted as
        a whole, or it has the size and the picture of the new build. */
    ghost predicate Harmless(o: Option<Node>, t: Node, font: Font, width: nat, height: nat)
    {
      busy && !stale ==> o.Some? && w == width && h == height && SamePicture(o.value, t, font, width, height)
    }
  }

  class App {
    var width: nat
    var height: nat
    var root: Option<Node>
    const font: Font
    const bufs: seq<Buffer>
    /** The surface size `root` was laid out at. */
    ghost var rootW: nat
    ghost var rootH: nat

    ghost predicate Separate()
      reads bufs
    {
      |bufs| == 2 && bufs[0] != bufs[1] && bufs[0].pending != bufs[1].pending && bufs[0].px != bufs[1].px
    }

    /** The pool itself is in order, whatever its buffers show. */
    ghost predicate Pool()
      reads bufs, set b <- bufs :: b.px, set b <- bufs :: b.pending
    {
      Separate() &&
      forall b <- bufs :: b.Shaped() && b.AllPremultiplied() && (b.valid ==> b.live) && (b.busy ==> b.live)
    }

    /** The buffer can only be repainted as a whole. */
    ghost predicate WhollyStale(b: Buffer)
      reads b, b.pending
    {
      !b.valid || b.pending.full
    }

    /** At most one buffer can be repainted in part, and that one has missed nothing. */
    ghost predicate Steady()
      reads bufs, set b <- bufs :: b.px, set b <- bufs :: b.pending
    {
      && Pool()
      && (WhollyStale(bufs[0]) || WhollyStale(bufs[1]))
      && forall b <- bufs :: !WhollyStale(b) ==> b.pending.Value() == NO_DAMAGE
    }

    /** A buffer that can be repainted in part agrees with the current tree outside what it missed. */
    ghost predicate Agrees(b: Buffer)
      requires b.Shaped()
      reads this, b, b.px, b.pending
    {
      !WhollyStale(b) ==>
        root.Some? && b.w == rootW && b.h == rootH && b.Shows(root.value, font, b.pending.Value())
    }

    ghost predicate Coherent()
      reads this, bufs, set b <- bufs :: b.px, set b <- bufs :: b.pending
    {
      Steady() && forall b <- bufs :: Agrees(b)
    }

    constructor (width: nat, height: nat, font: Font)
      ensures Coherent() && root == None && this.width == width && this.height == height && this.font == font
      ensures fresh(bufs) && forall b <- bufs :: fresh(b.px) && fresh(b.pending) && !b.valid && !b.busy
    {
      this.width, this.height, this.font := width, height, font;
      root := None;
      rootW, rootH := 0, 0;
      var b0 := new Buffer();
      var b1 := new Buffer();
      bufs := [b0, b1];
    }

    /** Some buffer of the current size can be repainted in part. */
    ghost predicate Reusable()
      reads this`width, this`height, bufs, set b <- bufs :: b.pending
    {
      exists b <- bufs :: !WhollyStale(b) && b.w == width && b.h == height
    }

    /** What the builders and the layout give the renderer. */
    ghost predicate FrameOk(t: Node, sliding: bool)
      reads this, bufs, set b <- bufs :: b.pending
    {
      (root.Some? ==> Diffable(root.value, t, font)) && (Reusable() ==> RectsUsable(root, t, sliding, width))
    }

    ghost predicate Sized(b: Buffer)
      reads this`width, this`height, b
    {
      b.live && b.w == width && b.h == height
    }

    /** A buffer can be had: nobody reads it, and it has the right size or memory can be found. */
    ghost predicate Available(b: Buffer, memory: bool)
      reads this`width, this`height, b
    {
      !b.busy && (Sized(b) || memory)
    }

    /** The buffer a frame gets: the first available one, or none. */
    ghost function Choice(memory: seq<bool>): int
      requires |bufs| == |memory| == 2
      reads this`width, this`height, bufs
    {
      if Available(bufs[0], memory[0]) then 0 else if Available(bufs[1], memory[1]) then 1 else -1
    }

    /** Make one buffer usable at the current size, if that is possible. */
    method Prepare(b: Buffer, memory: bool) returns (usable: bool)
      requires Pool() && b in bufs
      modifies b, b.pending
      ensures Pool()
      ensures usable <==> old(Available(b, memory))
      ensures usable ==> Sized(b) && !b.busy
      ensures old(b.busy) || old(Sized(b)) ==> unchanged(b) && unchanged(b.pending)
      ensures !old(b.busy) && !old(Sized(b)) ==> !b.valid && !b.busy && (unchanged(b) || fresh(b.px))
    {
      usable := false;
      if b.live && (b.w != width || b.h != height) {
        if !b.busy {
          b.Free();
        } else {
          return;
        }
      }
      if !b.live {
        if !memory {
          return;
        }
        b.Alloc(width, height);
      }
      usable := !b.busy;
    }

    /** Pick a free, correctly sized buffer. `memory[i]` says whether allocating buffer `i` succeeds. */
    method Acquire(memory: seq<bool>) returns (at: int)
      requires Steady() && |memory| == 2
      modifies bufs, set b <- bufs :: b.pending
      ensures Steady() && at == old(Choice(memory)) && -1 <= at < 2
      ensures at >= 0 ==> Sized(bufs[at]) && !bufs[at].busy
      ensures forall b <- bufs :: Dropped(b) && (at < 0 && !old(b.busy) ==> WhollyStale(b))
    {
      hide Premultiplied;
      hide Buffer.Shaped;
      assert bufs == [bufs[0], bufs[1]];
      var usable := Prepare(bufs[0], memory[0]);
      if usable {
        return 0;
      }
      usable := Prepare(bufs[1], memory[1]);
      if usable {
        return 1;
      }
      return -1;
    }

    /** Acquiring leaves a buffer as it was, or, if nobody reads it and its size is wrong, drops its
        contents. */
    twostate predicate Dropped(b: Buffer)
      reads this`width, this`height, b, b.pending
    {
      if old(b.busy) || old(Sized(b)) then unchanged(b) && unchanged(b.pending)
      else (unchanged(b) && unchanged(b.pending)) || (!b.valid && !b.busy && (unchanged(b) || fresh(b.px)))
    }

    /** Clear and repaint rectangles one after another; they may overlap. */
    method PaintRects(canvas: Painter.Canvas, t: Node, rects: seq<Rect>)
      requires canvas.Shaped() && canvas.font == font && Damage(rects, false).Meets(canvas.width)
      modifies canvas, canvas.pixels
      ensures forall u, v | canvas.On(u, v) ::
        canvas.Get(u, v) == if Damage(rects, false).Covers(u, v) then Picture(t, font, u, v) else old(canvas.Get(u, v))
    {
      hide Px;
      for i := 0 to |rects|
        invariant forall u, v | canvas.On(u, v) ::
          canvas.Get(u, v) == if Damage(rects[..i], false).Covers(u, v)
                              then Picture(t, font, u, v) else old(canvas.Get(u, v))
      {
        canvas.Repaint(t, rects[i]);
        OneMore(rects, i);
      }
      assert rects[..|rects|] == rects;
    }

    /** Repaint a buffer: everything, or each damaged rectangle in turn and nothing else. */
    method PaintOver(b: Buffer, t: Node, repaint: DamageSet)
      requires b.Shaped() && b.w == width && b.h == height
      requires repaint != b.pending
      requires !repaint.full ==> repaint.Value().Meets(width)
      modifies b`valid, b.px
      ensures b.valid == (old(b.valid) || repaint.full)
      ensures forall x, y | b.On(x, y) ::
        b.At(x, y) == if repaint.Value().Covers(x, y) then Picture(t, font, x, y) else old(b.At(x, y))
    {
      hide Px;
      var canvas := new Painter.Canvas(b.px, width, height, b.w, font);
      assert forall x, y | b.On(x, y) :: canvas.On(x, y) && canvas.Get(x, y) == b.At(x, y);
      if repaint.full {
        canvas.Repaint(t, Rect(0, 0, width, height));
        b.valid := true;
      } else {
        PaintRects(canvas, t, repaint.rects);
      }
    }

    /** Repainting leaves a buffer premultiplied. */
    method PaintBuffer(b: Buffer, t: Node, repaint: DamageSet)
      requires b.Shaped() && b.w == width && b.h == height && b.AllPremultiplied()
      requires repaint != b.pending
      requires !repaint.full ==> repaint.Value().Meets(width)
      modifies b`valid, b.px
      ensures b.valid == (old(b.valid) || repaint.full)
      ensures b.AllPremultiplied()
      ensures forall x, y | b.On(x, y) ::
        b.At(x, y) == if repaint.Value().Covers(x, y) then Picture(t, font, x, y) else old(b.At(x, y))
    {
      hide Px;
      hide Premultiplied;
      hide Damage.Covers;
      hide Damage.Meets;
      hide PixelOf;
      hide Buffer.At;
      ghost var was := b.px[..];
      AtIsPixel(b);
      PaintOver(b, t, repaint);
      StaysPremultiplied(b, was, t, font, repaint.Value());
    }

    /** Diff the new build against the current one and make it current. */
    method Advance(t: Node, sliding: bool) returns (dmg: DamageSet)
      requires Steady() && FrameOk(t, sliding)
      modifies this`root, this`rootW, this`rootH
      ensures fresh(dmg) && root == Some(t) && rootW == width && rootH == height
      ensures old(root).Some? ==> Sound(dmg.Value(), old(root).value, t, font)
      ensures if old(root).None? then dmg.full else Measured(dmg.Value(), old(root).value, t)
      ensures old(root).Some? && Quiet(old(root).value, t) ==>
                dmg.Value() == NO_DAMAGE && SamePicture(old(root).value, t, font, width, height)
      ensures Reusable() && !sliding && !dmg.full ==> dmg.Value().Meets(width)
    {
      hide Px;
      hide Clearable;
      dmg := new DamageSet();
      Diff(root, t, dmg, font);
      if root.Some? && Quiet(root.value, t) {
        QuietSamePicture(root.value, t, font, dmg.Value(), width, height);
      }
      hide SamePicture;
      hide Quiet;
      hide Pieces;
      hide Warranted;
      root := Some(t);
      rootW, rootH := width, height;
    }

    /** What the buffer must repaint: the frame's damage and what it missed, and everything exactly
        when the buffer holds no frame, a screen slides, or that damage is full or many rectangles. */
    method Plan(b: Buffer, dmg: DamageSet, sliding: bool) returns (repaint: DamageSet)
      requires dmg != b.pending
      ensures fresh(repaint)
      ensures var due := Merged(b.pending.Value(), dmg.Value());
              repaint.rects == due.rects && (repaint.full <==> due.full || !b.valid || sliding || |due.rects| > 8)
    {
      repaint := new DamageSet();
      repaint.CopyFrom(b.pending);
      repaint.Merge(dmg);
      if !b.valid {
        repaint.full := true;
      }
      if sliding || |repaint.rects| > MAX_PARTIAL {
        repaint.full := true;
      }
    }

    /** The painted buffer has missed nothing and goes to the compositor; the other one remembers
        this frame's damage, or that it missed a whole repaint. */
    method HandOver(at: nat, dmg: DamageSet, full: bool)
      requires Pool() && at < 2 && bufs[at].live && bufs[at].valid
      requires dmg != bufs[0].pending && dmg != bufs[1].pending
      requires !full ==> WhollyStale(bufs[1 - at])
      modifies (bufs[at] as Buffer)`busy, bufs[0].pending, bufs[1].pending
      ensures Steady() && bufs[at].busy && !WhollyStale(bufs[at]) && WhollyStale(bufs[1 - at])
    {
      hide Merged;
      hide Premultiplied;
      var b, other := bufs[at], bufs[1 - at];
      b.pending.Reset();
      if full {
        other.pending.full := true;
      } else {
        MergedKeepsFull(other.pending.Value(), dmg.Value());
        other.pending.Merge(dmg);
      }
      b.busy := true;
      assert bufs == if at == 0 then [b, other] else [other, b];
    }

    /** What a frame repaints of a buffer: `due`, or everything. */
    predicate Whole(stale: bool, sliding: bool, due: Damage)
    {
      stale || sliding || due.full || |due.rects| > 8
    }

    /** Plan and do the repaint of the acquired buffer. */
    method PaintDue(b: Buffer, t: Node, dmg: DamageSet, sliding: bool) returns (full: bool)
      requires b.Shaped() && b.w == width && b.h == height && b.AllPremultiplied()
      requires dmg != b.pending && (!WhollyStale(b) ==> b.pending.Value() == NO_DAMAGE)
      requires !WhollyStale(b) && !sliding && !dmg.full ==> dmg.Value().Meets(width)
      modifies b`valid, b.px
      ensures b.AllPremultiplied() && b.valid
      ensures full == Whole(old(WhollyStale(b)), sliding, Merged(NO_DAMAGE, dmg.Value())) && (!full ==> !old(WhollyStale(b)))
      ensures forall x, y | b.On(x, y) ::
        b.At(x, y) == if full || Merged(NO_DAMAGE, dmg.Value()).Covers(x, y) then Picture(t, font, x, y) else old(b.At(x, y))
    {
      hide Px;
      hide Premultiplied;
      hide Damage.Meets;
      hide Buffer.At;
      var repaint := Plan(b, dmg, sliding);
      DueFacts(dmg.Value(), width);
      MergedKeepsFull(b.pending.Value(), dmg.Value());
      hide Merged;
      full := repaint.full;
      PaintBuffer(b, t, repaint);
    }

    /** Repaint the acquired buffer and commit it. */
    method Commit(at: nat, t: Node, dmg: DamageSet, sliding: bool)
      requires Steady() && at < 2 && Sized(bufs[at]) && !bufs[at].busy
      requires dmg != bufs[0].pending && dmg != bufs[1].pending
      requires !WhollyStale(bufs[at]) && !sliding && !dmg.full ==> dmg.Value().Meets(width)
      modifies bufs, set b <- bufs :: b.pending, bufs[at].px
      ensures Steady() && !WhollyStale(bufs[at]) && WhollyStale(bufs[1 - at])
      ensures bufs[at].busy && Sized(bufs[at]) && bufs[at].px == old(bufs[at].px)
      ensures bufs[1 - at].px == old(bufs[1 - at].px) && Spared(bufs[1 - at]) && bufs[1 - at].busy == old(bufs[1 - at].busy)
      ensures var due := Merged(NO_DAMAGE, dmg.Value());
              var whole := Whole(old(WhollyStale(bufs[at])), sliding, due);
              forall x, y | bufs[at].On(x, y) ::
                bufs[at].At(x, y) == if whole || due.Covers(x, y) then Picture(t, font, x, y) else old(bufs[at].At(x, y))
    {
      hide Px;
      hide Premultiplied;
      hide Damage.Meets;
      hide Damage.Covers;
      hide Merged;
      hide Whole;
      var b := bufs[at];
      assert b in bufs;
      var full := PaintDue(b, t, dmg, sliding);
      hide Buffer.At;
      HandOver(at, dmg, full);
    }

    /** A buffer the compositor was reading is as it was, and holds the same pixels. */
    twostate predicate Spared(b: Buffer)
      reads b, b.px, b.pending
    {
      old(b.busy) ==> Before(b).(stale := old(WhollyStale(b))) == old(Before(b))
    }

    twostate predicate SameOrFresh(b: Buffer)
      reads b
    {
      b.px == old(b.px) || fresh(b.px)
    }

    /** The whole buffer shows the picture of a tree. */
    ghost predicate Shows(b: Buffer, t: Node)
      requires b.Shaped()
      reads b, b.px
    {
      forall x, y | b.On(x, y) :: b.At(x, y) == Picture(t, font, x, y)
    }

    /** A buffer that can be repainted in part shows the build `o` it was last painted with. */
    ghost predicate Remains(b: Buffer, o: Option<Node>, w: nat, h: nat)
      requires b.Shaped()
      reads b, b.px, b.pending
    {
      !WhollyStale(b) ==> o.Some? && b.w == w && b.h == h && Shows(b, o.value)
    }

    /** Acquire a buffer for the build just made current; what no frame takes stays as it was. */
    method Take(memory: seq<bool>, ghost o: Option<Node>, ghost w: nat, ghost h: nat) returns (at: int)
      requires Steady() && |memory| == 2
      modifies bufs, set b <- bufs :: b.pending
      ensures Steady() && at == old(Choice(memory)) && -1 <= at < 2
      ensures at >= 0 ==>
                var b := bufs[at];
                && Sized(b) && !b.busy && !old(b.busy) && (WhollyStale(b) <==> old(WhollyStale(b)) || !old(Sized(b)))
                && (!WhollyStale(b) ==> b.px == old(b.px))
      ensures SameOrFresh(bufs[0]) && SameOrFresh(bufs[1]) && Spared(bufs[0]) && Spared(bufs[1])
      ensures bufs[0].busy == old(bufs[0].busy) && bufs[1].busy == old(bufs[1].busy)
      ensures at < 0 ==> forall b <- bufs ::
                && (WhollyStale(b) <==> !old(b.busy) || old(WhollyStale(b)))
                && (!WhollyStale(b) ==> b.w == old(b.w) && b.h == old(b.h))
      ensures old(forall b <- bufs :: Remains(b, o, w, h)) ==> forall b <- bufs :: Remains(b, o, w, h)
    {
      hide Px;
      assert bufs[0] in bufs && bufs[1] in bufs;
      at := Acquire(memory);
      assert Dropped(bufs[0]) && Dropped(bufs[1]) && bufs == [bufs[0], bufs[1]];
    }

    /** Whether the pool is coherent after a frame that found no buffer. */
    lemma LossDecided(t: Node, o: Option<Node>, w: nat, h: nat)
      requires Steady() && root == Some(t) && rootW == width && rootH == height
      requires forall b <- bufs :: Remains(b, o, w, h)
      ensures Coherent() <==>
              forall b <- bufs :: !WhollyStale(b) ==> o.Some? && b.w == width && b.h == height && SamePicture(o.value, t, font, width, height)
    {
      hide Px;
      forall b | b in bufs
        ensures Agrees(b) <==>
                (!WhollyStale(b) ==> o.Some? && b.w == width && b.h == height && SamePicture(o.value, t, font, width, height))
      {
        if !WhollyStale(b) {
          assert Remains(b, o, w, h);
          ShowsNothingMissed(b, t);
          ShowsOther(b, o.value, t);
        }
      }
    }

    lemma ShowsNothingMissed(b: Buffer, t: Node)
      requires b.Shaped()
      ensures b.Shows(t, font, NO_DAMAGE) <==> Shows(b, t)
    {
      hide Px;
    }

    lemma ShowsOther(b: Buffer, o: Node, t: Node)
      requires b.Shaped() && Shows(b, o)
      ensures Shows(b, t) <==> SamePicture(o, t, font, b.w, b.h)
    {
      hide Px;
      if SamePicture(o, t, font, b.w, b.h) {
      } else {
        var x, y :| 0 <= x < b.w && 0 <= y < b.h && Picture(o, font, x, y) != Picture(t, font, x, y);
        assert b.On(x, y);
      }
    }

    /** A partial repaint of a buffer that showed the old build leaves it showing the new one. */
    lemma PartialShows(b: Buffer, was: seq<Word>, o: Node, t: Node, due: Damage)
      requires b.Shaped() && |was| == b.h * b.w && Sound(due, o, t, font)
      requires forall x, y | b.On(x, y) :: PixelOf(was, b.w, b.h, x, y) == Picture(o, font, x, y)
      requires forall x, y | b.On(x, y) ::
        b.At(x, y) == if due.Covers(x, y) then Picture(t, font, x, y) else PixelOf(was, b.w, b.h, x, y)
      ensures Shows(b, t)
    {
      hide Px;
      hide PixelOf;
      hide Buffer.At;
      hide Damage.Covers;
      forall x, y | b.On(x, y)
        ensures b.At(x, y) == Picture(t, font, x, y)
      {
        if !due.Covers(x, y) {
          assert SamePx(o, t, font, x, y);
        }
      }
    }

    /** Commit a frame: a whole repaint makes the pool coherent, and a partial one keeps it so. */
    method Finish(at: nat, t: Node, dmg: DamageSet, sliding: bool, ghost o: Option<Node>, ghost w: nat, ghost h: nat)
      requires Steady() && at < 2 && Sized(bufs[at]) && !bufs[at].busy
      requires root == Some(t) && rootW == width && rootH == height
      requires dmg != bufs[0].pending && dmg != bufs[1].pending
      requires !WhollyStale(bufs[at]) && !sliding && !dmg.full ==> dmg.Value().Meets(width)
      requires o.Some? ==> Sound(dmg.Value(), o.value, t, font)
      modifies bufs, set b <- bufs :: b.pending, bufs[at].px
      ensures Steady() && !WhollyStale(bufs[at]) && WhollyStale(bufs[1 - at])
      ensures bufs[at].busy && Sized(bufs[at]) && bufs[at].px == old(bufs[at].px)
      ensures bufs[1 - at].px == old(bufs[1 - at].px) && Spared(bufs[1 - at]) && bufs[1 - at].busy == old(bufs[1 - at].busy)
      ensures var due := Merged(NO_DAMAGE, dmg.Value());
              var whole := Whole(old(WhollyStale(bufs[at])), sliding, due);
              var was := old(bufs[at].px[..]);
              |was| == bufs[at].h * bufs[at].w && forall x, y | bufs[at].On(x, y) ::
                bufs[at].At(x, y) == if whole || due.Covers(x, y) then Picture(t, font, x, y)
                                     else PixelOf(was, bufs[at].w, bufs[at].h, x, y)
      ensures Whole(old(WhollyStale(bufs[at])), sliding, Merged(NO_DAMAGE, dmg.Value())) || old(Remains(bufs[at], o, w, h)) ==>
                Shows(bufs[at], t) && Coherent()
    {
      hide Px;
      hide Premultiplied;
      hide Damage.Meets;
      hide Damage.Covers;
      hide PixelOf;
      ghost var b, due := bufs[at], Merged(NO_DAMAGE, dmg.Value());
      ghost var was, whole := b.px[..], Whole(WhollyStale(b), sliding, due);
      ghost var showed := Remains(b, o, w, h);
      AtIsPixel(b);
      if o.Some? {
        MergedSound(NO_DAMAGE, dmg.Value(), o.value, t, font);
      }
      hide Sound;
      hide Merged;
      hide Buffer.At;
      Commit(at, t, dmg, sliding);
      if !whole && showed {
        PartialShows(b, was, o.value, t, due);
      }
      if whole || showed {
        ShowsNothingMissed(b, t);
        assert bufs == if at == 0 then [b, bufs[1]] else [bufs[0], b];
      }
    }

    /** What a buffer was like at some moment. */
    ghost function Before(b: Buffer): Moment
      reads b, b.px, b.pending
    {
      Moment(b.live, b.px, b.px[..], b.w, b.h, b.busy, b.valid, WhollyStale(b))
    }

    ghost function Befores(): (ms: seq<Moment>)
      requires |bufs| == 2
      reads bufs, set b <- bufs :: b.px, set b <- bufs :: b.pending
      ensures |ms| == 2
    {
      [Before(bufs[0]), Before(bufs[1])]
    }

    ghost predicate AllHarmless(ms: seq<Moment>, o: Option<Node>, t: Node)
      requires |ms| == 2
      reads this`width, this`height
    {
      ms[0].Harmless(o, t, font, width, height) && ms[1].Harmless(o, t, font, width, height)
    }

    /** The buffer taken for a frame: free, of the current size, and with its pixels if it need not be
        repainted as a whole. */
    ghost predicate Taken(m: Moment, b: Buffer)
      reads this`width, this`height, b, b.px, b.pending
    {
      && Sized(b) && !b.busy && !m.busy && (WhollyStale(b) <==> m.SpoiltAt(width, height))
      && (!WhollyStale(b) ==> b.px == m.px && b.w == m.w && b.h == m.h && b.px[..] == m.pixels)
    }

    /** Take a buffer for the new build, or lose the frame. */
    method TakeOrLose(t: Node, memory: seq<bool>, ghost o: Option<Node>, ghost w: nat, ghost h: nat) returns (at: int)
      requires Steady() && |memory| == 2 && root == Some(t) && rootW == width && rootH == height
      modifies bufs, set b <- bufs :: b.pending
      ensures Steady() && at == old(Choice(memory)) && -1 <= at < 2
      ensures at >= 0 ==> Taken(old(Befores())[at], bufs[at])
      ensures old(Remains(bufs[0], o, w, h) && Remains(bufs[1], o, w, h)) ==>
                if at >= 0 then Remains(bufs[at], o, w, h) else Coherent() <==> AllHarmless(old(Befores()), o, t)
      ensures Left(old(Befores())[0], bufs[0], false, at < 0) && Left(old(Befores())[1], bufs[1], false, at < 0)
      ensures SameOrFresh(bufs[0]) && SameOrFresh(bufs[1])
    {
      hide Px;
      hide SamePicture;
      hide App.Shows;
      hide Premultiplied;
      assert bufs == [bufs[0], bufs[1]];
      at := Take(memory, o, w, h);
      if at < 0 && old(forall b <- bufs :: Remains(b, o, w, h)) {
        LossDecided(t, o, w, h);
      }
    }

    /** Only the committed buffer changes hands; buffers the compositor reads are as they were. After a
        lost frame only those can be repainted in part. */
    ghost predicate Served(ms: seq<Moment>, at: int)
      reads bufs, set b <- bufs :: b.px, set b <- bufs :: b.pending
    {
      |bufs| == |ms| == 2 && Left(ms[0], bufs[0], at == 0, at < 0) && Left(ms[1], bufs[1], at == 1, at < 0)
    }

    ghost predicate Left(m: Moment, b: Buffer, taken: bool, lost: bool)
      reads b, b.px, b.pending
    {
      && b.busy == (m.busy || taken) && (m.busy ==> !taken && Before(b).(stale := m.stale) == m)
      && (lost ==> (WhollyStale(b) <==> !m.busy || m.stale))
    }

    /** A committed buffer: repainted in the damage it had to repaint and nowhere else, or as a whole. */
    ghost predicate Repainted(ms: seq<Moment>, at: int, t: Node, sliding: bool, due: Damage)
      reads this, bufs, set b <- bufs :: b.px, set b <- bufs :: b.pending
    {
      Steady() && |ms| == 2 && 0 <= at < 2 &&
      var b, m := bufs[at], ms[at];
      && b.busy && Sized(b) && !WhollyStale(b) && WhollyStale(bufs[1 - at])
      && (Whole(m.SpoiltAt(width, height), sliding, due) ==> Shows(b, t) && Coherent())
      && (!Whole(m.SpoiltAt(width, height), sliding, due) ==>
            b.px == m.px && b.w == m.w && b.h == m.h && |m.pixels| == b.h * b.w &&
            forall x, y | b.On(x, y) ::
              b.At(x, y) == if due.Covers(x, y) then Picture(t, font, x, y) else PixelOf(m.pixels, b.w, b.h, x, y))
    }

    /** A committed frame is the picture of its build and leaves the pool coherent; a lost one does so
        exactly if it does no harm. */
    ghost predicate Faultless(ms: seq<Moment>, at: int, o: Option<Node>, t: Node)
      requires |ms| == 2
      reads this, bufs, set b <- bufs :: b.px, set b <- bufs :: b.pending
    {
      if at >= 0 then Coherent() && at < 2 && Shows(bufs[at], t)
      else Coherent() <==> AllHarmless(ms, o, t)
    }

    /** Repaint and commit the build just made current, in the first buffer available. */
    method Deliver(t: Node, dmg: DamageSet, sliding: bool, memory: seq<bool>, ghost o: Option<Node>, ghost w: nat, ghost h: nat)
      returns (at: int)
      requires Steady() && |memory| == 2 && root == Some(t) && rootW == width && rootH == height
      requires dmg != bufs[0].pending && dmg != bufs[1].pending
      requires Reusable() && !sliding && !dmg.full ==> dmg.Value().Meets(width)
      requires o.Some? ==> Sound(dmg.Value(), o.value, t, font)
      modifies bufs, set b <- bufs :: b.pending, set b <- bufs :: b.px
      ensures Steady() && at == old(Choice(memory)) && -1 <= at < 2 && dmg.Value() == old(dmg.Value())
      ensures at >= 0 ==> Repainted(old(Befores()), at, t, sliding, Merged(NO_DAMAGE, dmg.Value()))
      ensures old(Remains(bufs[0], o, w, h) && Remains(bufs[1], o, w, h)) ==> Faultless(old(Befores()), at, o, t)
      ensures Served(old(Befores()), at) && SameOrFresh(bufs[0]) && SameOrFresh(bufs[1])
    {
      hide Px;
      hide Premultiplied;
      hide Damage.Covers;
      hide Damage.Meets;
      hide App.Shows;
      hide Buffer.At;
      hide Sound;
      hide App.Remains;
      hide App.Coherent;
      hide SamePicture;
      hide Merged;
      hide PixelOf;
      assert bufs == [bufs[0], bufs[1]];
      at := TakeOrLose(t, memory, o, w, h);
      if at >= 0 {
        Finish(at, t, dmg, sliding, o, w, h);
      }
    }

    /** Build, diff, repaint and commit one frame. `sliding` is the request for a full repaint.
        Returns the committed buffer's index, or -1 when no buffer was free, and the damage a buffer
        that has missed nothing has to repaint. */
    method Render(t: Node, sliding: bool, memory: seq<bool>) returns (at: int, ghost due: Damage)
      requires Steady() && FrameOk(t, sliding) && |memory| == 2
      modifies this`root, this`rootW, this`rootH, bufs, set b <- bufs :: b.pending, set b <- bufs :: b.px
      ensures Steady() && root == Some(t) && rootW == width && rootH == height
      ensures at == old(Choice(memory)) && -1 <= at < 2
      ensures old(root).Some? && Quiet(old(root).value, t) ==>
                due == NO_DAMAGE && SamePicture(old(root).value, t, font, width, height)
      ensures if old(root).None? then due.full else Exactly(due, old(root).value, t)
      ensures at >= 0 ==> Repainted(old(Befores()), at, t, sliding, due)
      ensures old(Coherent()) ==> Faultless(old(Befores()), at, old(root), t)
      ensures Served(old(Befores()), at) && SameOrFresh(bufs[0]) && SameOrFresh(bufs[1])
    {
      hide Px;
      hide Damage.Covers;
      hide Damage.Meets;
      hide Quiet;
      hide SamePicture;
      hide Restructured;
      hide App.Shows;
      hide Sound;
      hide Buffer.At;
      hide App.Remains;
      hide App.Coherent;
      hide Premultiplied;
      hide App.FrameOk;
      hide App.Reusable;
      hide App.Choice;
      hide App.Before;
      hide App.Served;
      hide App.Repainted;
      hide App.Faultless;
      hide Whole;
      ghost var o, w, h, whole, ms := root, rootW, rootH, Coherent(), Befores();
      CoherentRemains();
      assert bufs == [bufs[0], bufs[1]];
      var dmg := Advance(t, sliding);
      due := Merged(NO_DAMAGE, dmg.Value());
      DueFacts(dmg.Value(), width);
      if o.Some? {
        DueExactly(dmg.Value(), o.value, t);
      }
      hide Merged;
      hide Exactly;
      hide Measured;
      assert Befores() == ms;
      assert whole ==> Remains(bufs[0], o, w, h) && Remains(bufs[1], o, w, h);
      at := Deliver(t, dmg, sliding, memory, o, w, h);
    }

    lemma CoherentRemains()
      ensures Coherent() ==> forall b <- bufs :: Remains(b, root, rootW, rootH)
    {
      hide Px;
      if Coherent() {
        forall b | b in bufs
          ensures Remains(b, root, rootW, rootH)
        {
          assert Agrees(b);
          if root.Some? {
            ShowsNothingMissed(b, root.value);
          }
        }
      }
    }

    ghost function Now(): Stage
      reads this
    {
      Stage(root, rootW, rootH, width, height)
    }

    /** What the compositor gets to see when the buffer is committed. */
    method Snapshot(b: Buffer, t: Node) returns (s: Shown)
      requires b.Shaped()
      ensures s.tree == t && s.w == b.w && s.h == b.h && s.pixels == b.px[..] && (Shows(b, t) ==> Faithful(s, font))
    {
      hide Px;
      s := Shown(t, b.w, b.h, b.px[..]);
      if Shows(b, t) {
        forall x, y | 0 <= x < s.w && 0 <= y < s.h
          ensures PixelOf(s.pixels, s.w, s.h, x, y) == Picture(t, font, x, y)
        {
          Painter.RowsFit(b.w, b.h, x, y);
          assert b.On(x, y);
        }
      }
    }

    /** The buffer of a committed frame is busy and has the frame's pixels. */
    ghost predicate Carries(out: Outcome)
      reads bufs, set b <- bufs :: b.px
    {
      out.Committed? ==> out.at < |bufs| && bufs[out.at].busy && bufs[out.at].px[..] == out.frame.pixels
    }

    /** One frame: committed, or lost. */
    method Show(t: Node, sliding: bool, memory: seq<bool>) returns (out: Outcome)
      requires Steady() && FrameOk(t, sliding) && |memory| == 2
      modifies this`root, this`rootW, this`rootH, bufs, set b <- bufs :: b.pending, set b <- bufs :: b.px
      ensures Steady() && Carries(out) && Now() == old(Now().After(Frame(t, sliding, memory)))
      ensures Explains(old(Now()), Frame(t, sliding, memory), out, old(Coherent()), Coherent(), font)
      ensures out.Lost? <==> old(Choice(memory)) < 0
      ensures out.Lost? && old(Coherent()) ==> (Coherent() <==> AllHarmless(old(Befores()), old(root), t))
      ensures SameOrFresh(bufs[0]) && SameOrFresh(bufs[1]) && Spared(bufs[0]) && Spared(bufs[1])
    {
      hide Px;
      hide Premultiplied;
      hide Faithful;
      hide App.Shows;
      hide App.AllHarmless;
      hide App.FrameOk;
      hide App.Coherent;
      hide App.Choice;
      hide Stage.Anew;
      hide Stage.Same;
      hide Buffer.At;
      out := Lost;
      var at := Paint(t, sliding, memory);
      if at >= 0 {
        var s := Snapshot(bufs[at], t);
        out := Committed(at, s);
      }
    }

    /** A frame rendered in a coherent pool, or painted anew, shows its build and leaves a coherent
        pool. One that changes nothing, or finds nothing to be repainted in part, is lost without harm. */
    method Paint(t: Node, sliding: bool, memory: seq<bool>) returns (at: int)
      requires Steady() && FrameOk(t, sliding) && |memory| == 2
      modifies this`root, this`rootW, this`rootH, bufs, set b <- bufs :: b.pending, set b <- bufs :: b.px
      ensures Steady() && root == Some(t) && rootW == width && rootH == height
      ensures at == old(Choice(memory)) && -1 <= at < 2 && (at >= 0 ==> bufs[at].busy)
      ensures at >= 0 && (old(Coherent()) || old(Now()).Anew(t, sliding)) ==> Coherent() && Shows(bufs[at], t)
      ensures at < 0 && old(Coherent()) ==> (Coherent() <==> AllHarmless(old(Befores()), old(root), t))
      ensures at < 0 && old(Coherent()) && (old(Now()).Same(t) || old(WhollyStale(bufs[0]) && WhollyStale(bufs[1]))) ==>
                Coherent()
      ensures SameOrFresh(bufs[0]) && SameOrFresh(bufs[1]) && Spared(bufs[0]) && Spared(bufs[1])
    {
      hide Px;
      hide Premultiplied;
      hide App.Shows;
      hide App.AllHarmless;
      hide App.FrameOk;
      hide App.Coherent;
      hide Restructured;
      hide Quiet;
      hide SamePicture;
      hide Merged;
      hide Damage.Covers;
      hide Buffer.At;
      SameHarmless(t);
      Chosen(memory);
      hide App.Choice;
      ghost var due;
      at, due := Render(t, sliding, memory);
    }

    lemma Chosen(memory: seq<bool>)
      requires |bufs| == |memory| == 2
      ensures Choice(memory) >= 0 ==> !bufs[Choice(memory)].busy
    {
    }

    /** Losing a frame that changes nothing does no harm, nor does losing any while no buffer can be
        repainted in part. */
    lemma SameHarmless(t: Node)
      requires Pool()
      ensures (Now().Same(t) && SamePicture(root.value, t, font, width, height) && Coherent()) || (WhollyStale(bufs[0]) && WhollyStale(bufs[1])) ==>
                AllHarmless(Befores(), root, t)
    {
      hide Px;
      hide Quiet;
      hide SamePicture;
      assert bufs == [bufs[0], bufs[1]];
      assert Coherent() ==> Agrees(bufs[0]) && Agrees(bufs[1]);
    }

    lemma EventFrameOk(t: Node, sliding: bool, memory: seq<bool>)
      requires Steady() && (Coherent() || rootW == width) && EventOk(Now(), font, Frame(t, sliding, memory))
      ensures FrameOk(t, sliding) && |memory| == 2
    {
      hide RectsUsable;
      hide Diffable;
      if b :| b in bufs && !WhollyStale(b) && b.w == width && b.h == height {
        assert Coherent() ==> Agrees(b);
      }
    }

    /** The compositor is done with a buffer. */
    method GiveBack(at: nat)
      requires Steady() && at < 2
      modifies (bufs[at] as Buffer)`busy
      ensures Steady() && (Coherent() <==> old(Coherent())) && !bufs[at].busy
    {
      hide Px;
      hide Premultiplied;
      bufs[at].busy := false;
    }

    /** One event. */
    method Step(ev: Event) returns (out: Outcome)
      requires Steady() && (Coherent() || rootW == width) && EventOk(Now(), font, ev)
      modifies this, bufs, set b <- bufs :: b.pending, set b <- bufs :: b.px
      ensures Steady() && Carries(out) && Now() == old(Now()).After(ev)
      ensures Explains(old(Now()), ev, out, old(Coherent()), Coherent(), font)
      ensures out.Lost? ==> old(Choice(ev.memory)) < 0
      ensures out.Lost? && old(Coherent()) ==> (Coherent() <==> AllHarmless(old(Befores()), old(root), ev.tree))
      ensures SameOrFresh(bufs[0]) && SameOrFresh(bufs[1])
      ensures forall i | 0 <= i < 2 && ev != Release(i) :: Spared(bufs[i])
    {
      hide Px;
      hide Faithful;
      hide Restructured;
      hide Quiet;
      hide App.Choice;
      hide RectsUsable;
      hide Diffable;
      hide Premultiplied;
      hide App.AllHarmless;
      hide App.FrameOk;
      hide Buffer.At;
      out := Nothing;
      match ev {
        case Frame(t, sliding, memory) =>
          EventFrameOk(t, sliding, memory);
          out := Show(t, sliding, memory);
        case Release(at) =>
          if at < 2 {
            GiveBack(at);
          }
        case Resize(w, h) =>
          width, height := w, h;
      }
    }

    /** The log of a run so far explains what the pool holds and how it came about. */
    ghost predicate Logged(st: Stage, evs: seq<Event>, log: seq<Outcome>, fine: seq<bool>)
      reads this, bufs, set b <- bufs :: b.px, set b <- bufs :: b.pending
    {
      && Told(st, evs, log, fine, font) && (fine[|log|] <==> Coherent())
      && Steady() && Now() == StageAt(st, evs[..|log|])
      && (Coherent() || (Lost in log && rootW == width))
      && Intact(bufs[0], Held(evs[..|log|], log, 0)) && Intact(bufs[1], Held(evs[..|log|], log, 1))
    }

    /** One more event of a run; after a lost frame not a new size. */
    method LogOne(ghost st: Stage, evs: seq<Event>, log: seq<Outcome>, ghost fine: seq<bool>) returns (out: Outcome)
      requires Logged(st, evs, log, fine) && |log| < |evs| && RunOk(st, font, evs)
      requires Lost in log ==> !evs[|log|].Resize?
      modifies this, bufs, set b <- bufs :: b.pending, set b <- bufs :: b.px
      ensures Logged(st, evs, log + [out], fine + [Coherent()])
      ensures SameOrFresh(bufs[0]) && SameOrFresh(bufs[1])
    {
      hide Px;
      hide Explains;
      hide EventOk;
      hide App.Coherent;
      hide App.Choice;
      hide App.AllHarmless;
      hide Held;
      hide Premultiplied;
      assert bufs == [bufs[0], bufs[1]] && |fine| == |log| + 1;
      out := Step(evs[|log|]);
      OnlyLossHarms(old(Now()), evs[|log|], out, fine[|log|], Coherent(), font);
      ToldMore(st, evs, log, fine, out, Coherent(), font);
      HeldMore(evs, log, out, 0);
      HeldMore(evs, log, out, 1);
      hide Told;
      hide StageAt;
    }

    /** A whole run. Every frame is committed or finds no buffer, and a buffer keeps the frame it was
        handed over with until it is given back. `fine` says when the pool is coherent. The run goes
        on through lost frames, up to a new size after one. */
    method Run(evs: seq<Event>) returns (log: seq<Outcome>, ghost fine: seq<bool>)
      requires Coherent() && RunOk(Now(), font, evs)
      modifies this, bufs, set b <- bufs :: b.pending, set b <- bufs :: b.px
      ensures Told(old(Now()), evs, log, fine, font) && (fine[|log|] <==> Coherent())
      ensures Intact(bufs[0], Held(evs[..|log|], log, 0)) && Intact(bufs[1], Held(evs[..|log|], log, 1))
      ensures |log| < |evs| ==> evs[|log|].Resize? && Lost in log
    {
      ghost var st := Now();
      log, fine := [], [true];
      var lossy := false;
      assert evs[..0] == [] && bufs == [bufs[0], bufs[1]];
      hide Px;
      hide RunOk;
      assert Logged(st, evs, log, fine);
      hide App.Coherent;
      hide App.Steady;
      hide StageAt;
      hide Held;
      hide Explains;
      hide Faithful;
      while |log| < |evs| && !(lossy && evs[|log|].Resize?)
        invariant Logged(st, evs, log, fine) && (lossy <==> Lost in log)
        invariant (bufs[0].px == old(bufs[0].px) || fresh(bufs[0].px)) && (bufs[1].px == old(bufs[1].px) || fresh(bufs[1].px))
      {
        hide App.Logged;
        assert |log| < |evs|;
        var out := LogOne(st, evs, log, fine);
        lossy := lossy || out.Lost?;
        log, fine := log + [out], fine + [Coherent()];
      }
    }

    /** A buffer that holds a frame is the compositor's and has that frame's pixels. */
    ghost predicate Intact(b: Buffer, held: Option<Shown>)
      reads b, b.px
    {
      held.Some? ==> b.busy && b.px[..] == held.value.pixels
    }
  }

  lemma OneMore(rects: seq<Rect>, i: nat)
    requires i < |rects|
    ensures forall u, v :: Damage(rects[..i + 1], false).Covers(u, v) <==>
                           Damage(rects[..i], false).Covers(u, v) || rects[i].Has(u, v)
  {
    assert rects[..i + 1] == rects[..i] + [rects[i]];
  }

  lemma AtIsPixel(b: Buffer)
    requires b.Shaped()
    ensures forall x, y | b.On(x, y) :: b.At(x, y) == PixelOf(b.px[..], b.w, b.h, x, y)
  {
    forall x, y | b.On(x, y)
      ensures b.At(x, y) == PixelOf(b.px[..], b.w, b.h, x, y)
    {
      Painter.RowsFit(b.w, b.h, x, y);
      var k := y * b.w + x;
      assert b.px[..][k] == b.px[k];
    }
  }

  /** Repainted pixels are premultiplied, the others were. */
  lemma StaysPremultiplied(b: Buffer, was: seq<Word>, t: Node, font: Font, d: Damage)
    requires b.Shaped() && |was| == b.h * b.w && forall p <- was :: Premultiplied(p)
    requires forall x, y | b.On(x, y) ::
      b.At(x, y) == if d.Covers(x, y) then Picture(t, font, x, y) else PixelOf(was, b.w, b.h, x, y)
    ensures b.AllPremultiplied()
  {
    hide Px;
    hide Premultiplied;
    hide Damage.Covers;
    hide PixelOf;
    hide Buffer.At;
    forall x, y | b.On(x, y)
      ensures Premultiplied(b.At(x, y))
    {
      PicturePremultiplied(t, font, x, y);
    }
    AllAt(b);
  }

  lemma PicturePremultiplied(t: Node, font: Font, x: int, y: int)
    ensures Premultiplied(Picture(t, font, x, y))
  {
    PaintPremultiplied(t, font, x, y, 0);
  }

  /** A buffer is premultiplied when every pixel of its surface is. */
  lemma AllAt(b: Buffer)
    requires b.Shaped() && forall x, y | b.On(x, y) :: Premultiplied(b.At(x, y))
    ensures b.AllPremultiplied()
  {
    hide Premultiplied;
    forall i | 0 <= i < b.px.Length
      ensures Premultiplied(b.px[i])
    {
      var x, y := RowOf(b.w, b.h, i);
      assert b.On(x, y) && Premultiplied(b.At(x, y));
    }
  }

  lemma {:induction false} AllAdded(rs: seq<Rect>)
    requires |rs| <= 64 && forall r <- rs :: !r.Empty()
    ensures AddedAll(NO_DAMAGE, rs) == Damage(rs, false)
  {
    if rs != [] {
      AllAdded(rs[..|rs| - 1]);
    }
  }

  lemma DueExactly(dmg: Damage, o: Node, n: Node)
    requires Measured(dmg, o, n)
    ensures Exactly(Merged(NO_DAMAGE, dmg), o, n)
  {
    hide Warranted;
    hide Pieces;
    hide Restructured;
    if !dmg.full {
      AllAdded(dmg.rects);
      assert forall x, y :: !NO_DAMAGE.Covers(x, y);
    }
  }

  /** What a buffer that has missed nothing must repaint is the frame's damage. */
  lemma DueFacts(dmg: Damage, width: int)
    ensures dmg.Meets(width) ==> Merged(NO_DAMAGE, dmg).Meets(width)
    ensures dmg.full ==> Merged(NO_DAMAGE, dmg).full
    ensures dmg == NO_DAMAGE ==> Merged(NO_DAMAGE, dmg) == NO_DAMAGE
  {
    if dmg.Meets(width) {
      MergedMeets(NO_DAMAGE, dmg, width);
    }
  }

  lemma {:induction false} RowOf(w: nat, h: nat, i: nat) returns (x: nat, y: nat)
    requires i < h * w
    ensures x < w && y < h && i == y * w + x
  {
    if i < (h - 1) * w {
      x, y := RowOf(w, h - 1, i);
    } else {
      x, y := i - (h - 1) * w, h - 1;
      assert h * w == (h - 1) * w + w;
    }
  }
}
