/** The stack of screens: push and pop slide a screen on a spring, and a popped screen leaves the
    stack once its slide is over. */
module Navigation {
  import opened Springs

  const MAX_SCREENS: nat := 8

  datatype Op = Present | Entering | Exiting

  /** One retained screen slot. */
  class Screen {
    const trans: Animated
    var fn: nat
    var op: Op
    ghost var profile: Profile

    constructor ()
      ensures fresh(this) && fresh(trans)
    {
      trans := new Animated(0.0);
      fn, op, profile := 0, Present, Standard;
    }
  }

  /** What a slot holds: the screen, its pending operation, where its slide heads and how it moves. */
  datatype Entry = Entry(fn: nat, op: Op, target: real, motion: Motion)
  {
    /** Slide progress: 0 is off to the right, 1 is fully on screen. */
    function Value(): real { target + motion.e }

    predicate Gone() { op == Exiting && !motion.animating && Value() <= 0.001 }
  }

  /** The time step of a frame, from the clock difference. */
  function FrameStep(elapsed: real): (dt: real)
    ensures FrameTime(dt)
  {
    if elapsed < 0.001 then 0.001 else if elapsed > 0.25 then 0.25 else elapsed
  }

  function Ticked(es: seq<Entry>, dt: real): (r: seq<Entry>)
    ensures |r| == |es|
  {
    seq(|es|, i requires 0 <= i < |es| => es[i].(motion := Tick(es[i].motion, dt)))
  }

  function Retired(es: seq<Entry>): seq<Entry>
  {
    if |es| > 1 && es[|es| - 1].Gone() then es[..|es| - 1] else es
  }

  /** A frame: every slide advances, then the navigator builds. */
  function Framed(es: seq<Entry>, elapsed: real): seq<Entry>
  {
    Retired(Ticked(es, FrameStep(elapsed)))
  }

  function Pushed(es: seq<Entry>, fn: nat, p: Profile): seq<Entry>
  {
    if |es| >= MAX_SCREENS then es else es + [Entry(fn, Entering, 1.0, Motion(p, -1.0, 0.0, true))]
  }

  function Popped(es: seq<Entry>, p: Profile): seq<Entry>
  {
    if |es| <= 1 then es
    else
      var top := es[|es| - 1];
      es[..|es| - 1] + [Entry(top.fn, Exiting, 0.0, Motion(p, top.Value(), top.motion.v, true))]
  }

  /** A push puts a screen on top that slides in from the side, from rest; a stack of eight ignores it. */
  lemma PushSlidesIn(es: seq<Entry>, fn: nat, p: Profile)
    ensures var r := Pushed(es, fn, p);
            if |es| >= 8 then r == es
            else
              && |r| == |es| + 1 && r[..|es|] == es
              && var top := r[|es|];
                 top.fn == fn && top.op == Entering && top.Value() == 0.0 && top.target == 1.0 && top.motion == Motion(p, -1.0, 0.0, true)
  {
  }

  /** A frame drops a screen exactly if there is another one below and it was popped, its slide is over
      and has taken it off the side; the frame's time step is the clock difference between 1 and
      250 ms. Every other screen stays in its slot. */
  lemma LeavesExactlyWhen(es: seq<Entry>, elapsed: real)
    requires es != []
    ensures var dt := if elapsed < 0.001 then 0.001 else if elapsed > 0.25 then 0.25 else elapsed;
            var top := es[|es| - 1];
            var slide := Tick(top.motion, dt);
            var r := Framed(es, elapsed);
            && |r| == (if |es| > 1 && top.op == Exiting && !slide.animating && top.target + slide.e <= 0.001 then |es| - 1 else |es|)
            && forall i :: 0 <= i < |r| ==> r[i] == es[i].(motion := Tick(es[i].motion, dt))
  {
    hide Tick;
  }

  class Nav {
    const stack: seq<Screen>
    var depth: nat

    ghost predicate Shape()
      reads this
    {
      && |stack| == MAX_SCREENS
      && 1 <= depth <= MAX_SCREENS
      && (forall i, j :: 0 <= i < j < MAX_SCREENS ==> stack[i] != stack[j] && stack[i].trans != stack[j].trans)
    }

    ghost function Slides(): set<object>
    {
      set s <- stack :: s.trans
    }

    ghost predicate Valid()
      reads this, stack, Slides()
    {
      && Shape()
      && forall i :: 0 <= i < depth ==> stack[i].trans.animating ==> stack[i].trans.Tuned(stack[i].profile)
    }

    ghost function Slot(i: nat): Entry
      requires i < |stack|
      reads stack[i], stack[i].trans
    {
      var s := stack[i];
      Entry(s.fn, s.op, s.trans.target, s.trans.State(s.profile))
    }

    ghost function Entries(): (r: seq<Entry>)
      requires Shape()
      reads this, stack, Slides()
      ensures |r| == depth
    {
      seq(depth, i requires 0 <= i < depth && depth <= |stack| reads this, stack, Slides() => Slot(i))
    }

    /** The navigator's first build: the root screen alone, fully present. */
    constructor (root: nat)
      ensures Valid() && Entries() == [Entry(root, Present, 1.0, Motion(Standard, 0.0, 0.0, false))]
      ensures fresh(this) && fresh(set s <- stack) && fresh(Slides())
    {
      var screens: seq<Screen> := [];
      while |screens| < MAX_SCREENS
        invariant |screens| <= MAX_SCREENS
        invariant forall i :: 0 <= i < |screens| ==> fresh(screens[i]) && fresh(screens[i].trans)
        invariant forall i, j :: 0 <= i < j < |screens| ==> screens[i] != screens[j] && screens[i].trans != screens[j].trans
      {
        var s := new Screen();
        screens := screens + [s];
      }
      var bottom := screens[0];
      assert fresh(bottom) && fresh(bottom.trans);
      bottom.fn, bottom.op, bottom.profile := root, Present, Standard;
      bottom.trans.Set(1.0);
      stack, depth := screens, 1;
    }

    /** Slide a new screen in from the right; a full stack ignores it. */
    method Push(fn: nat, p: Profile)
      requires Valid()
      modifies this, stack, Slides()
      ensures Valid() && Entries() == Pushed(old(Entries()), fn, p)
    {
      if depth >= MAX_SCREENS {
        return;
      }
      var s := stack[depth];
      depth := depth + 1;
      s.fn, s.op, s.profile := fn, Entering, p;
      s.trans.Set(0.0);
      s.trans.Spring(p, 1.0);
      assert Slot(depth - 1) == Entry(fn, Entering, 1.0, Motion(p, -1.0, 0.0, true));
      assert forall i :: 0 <= i < depth - 1 ==> Slot(i) == old(Slot(i));
    }

    /** Slide the top screen out; the root stays. */
    method Pop(p: Profile)
      requires Valid()
      modifies this, stack, Slides()
      ensures Valid() && Entries() == Popped(old(Entries()), p)
    {
      if depth <= 1 {
        return;
      }
      var top := stack[depth - 1];
      top.op, top.profile := Exiting, p;
      top.trans.Spring(p, 0.0);
    }

    method Tick(dt: real)
      requires Valid()
      modifies Slides()
      ensures Valid() && Entries() == Ticked(old(Entries()), dt)
    {
      for i := 0 to depth
        invariant Valid()
        invariant forall j :: 0 <= j < i ==> Slot(j) == old(Slot(j)).(motion := Springs.Tick(old(Slot(j)).motion, dt))
        invariant forall j :: i <= j < depth ==> Slot(j) == old(Slot(j))
      {
        var _ := stack[i].trans.Advance(dt, stack[i].profile);
      }
    }

    /** Drop a popped screen that has slid off. */
    method Retire()
      requires Valid()
      modifies this, stack, Slides()
      ensures Valid() && Entries() == Retired(old(Entries()))
    {
      var top := stack[depth - 1];
      if depth > 1 && top.op == Exiting && !top.trans.animating && top.trans.value <= 0.001 {
        top.fn, top.op := 0, Present;
        top.trans.Set(0.0);
        depth := depth - 1;
      }
    }

    method Frame(elapsed: real)
      requires Valid()
      modifies this, stack, Slides()
      ensures Valid() && Entries() == Framed(old(Entries()), elapsed)
    {
      Tick(FrameStep(elapsed));
      Retire();
    }
  }

  // ---------------------------------------------------------------- runs of frames

  function Steps(clock: seq<real>): (r: seq<real>)
    ensures |r| == |clock| && forall dt <- r :: FrameTime(dt)
  {
    seq(|clock|, i requires 0 <= i < |clock| => FrameStep(clock[i]))
  }

  /** The stack after a run of frames, given the clock difference of each. */
  function Run(es: seq<Entry>, clock: seq<real>): seq<Entry>
  {
    if clock == [] then es else Framed(Run(es, clock[..|clock| - 1]), clock[|clock| - 1])
  }

  /** Every slide advanced by the same frames, with nothing retired. */
  function Moved(es: seq<Entry>, clock: seq<real>): (r: seq<Entry>)
    ensures |r| == |es|
  {
    seq(|es|, i requires 0 <= i < |es| => es[i].(motion := Frames(es[i].motion, Steps(clock))))
  }

  lemma MovedByOne(es: seq<Entry>, clock: seq<real>, elapsed: real)
    ensures Moved(es, clock + [elapsed]) == Ticked(Moved(es, clock), FrameStep(elapsed))
  {
    hide Frames;
    hide Springs.Tick;
    forall i | 0 <= i < |es|
      ensures Moved(es, clock + [elapsed])[i] == Ticked(Moved(es, clock), FrameStep(elapsed))[i]
    {
      FramesByOne(es[i].motion, clock, elapsed);
    }
  }

  lemma FramesByOne(m: Motion, clock: seq<real>, elapsed: real)
    ensures Frames(m, Steps(clock + [elapsed])) == Springs.Tick(Frames(m, Steps(clock)), FrameStep(elapsed))
  {
    var all := Steps(clock + [elapsed]);
    assert all[..|clock|] == Steps(clock);
    assert all[|clock|] == FrameStep(elapsed);
  }

  /** A screen sliding out with nothing above it. */
  predicate SlidingOut(es: seq<Entry>)
  {
    |es| > 1 && var top := es[|es| - 1]; top.op == Exiting && top.target == 0.0 && top.motion.animating
  }

  /** A popped screen slides out from where it is and at the speed it has; the root cannot be popped. */
  lemma PoppedSlidesOut(es: seq<Entry>, p: Profile)
    ensures |Popped(es, p)| == |es|
    ensures if |es| <= 1 then Popped(es, p) == es
            else
              var was, top := es[|es| - 1], Popped(es, p)[|es| - 1];
              && SlidingOut(Popped(es, p)) && Popped(es, p)[..|es| - 1] == es[..|es| - 1]
              && top.fn == was.fn && top.Value() == was.target + was.motion.e && top.motion.v == was.motion.v && top.motion.profile == p
  {
  }

  /** The stack is whole after every frame before the `k`-th, which removes exactly the top screen. */
  ghost predicate RetiredAt(es: seq<Entry>, clock: seq<real>, k: nat)
    requires |es| > 0
  {
    && 1 <= k <= |clock|
    && (forall j :: 0 <= j < k ==> Run(es, clock[..j]) == Moved(es, clock[..j]))
    && Run(es, clock[..k]) == Moved(es[..|es| - 1], clock[..k])
  }

  /** Whatever the clock does, a popped screen left on top is retired within a number of frames
      computed from the energy of its slide, and only it. */
  lemma {:induction false} PopRetires(es: seq<Entry>, clock: seq<real>, energy: real)
    requires SlidingOut(es) && Energy(es[|es| - 1].motion) <= energy
    requires |clock| >= FramesNeeded(energy)
    ensures exists k: nat :: k <= FramesNeeded(energy) && RetiredAt(es, clock, k)
  {
    hide Energy;
    assert clock[..0] == [];
    RetiresAfter(es, clock, energy, 0);
  }

  lemma {:induction false} RetiresAfter(es: seq<Entry>, clock: seq<real>, energy: real, k: nat)
    requires SlidingOut(es) && Energy(es[|es| - 1].motion) <= energy
    requires k <= FramesNeeded(energy) <= |clock|
    requires forall j :: 0 <= j <= k ==> Run(es, clock[..j]) == Moved(es, clock[..j])
    requires Frames(es[|es| - 1].motion, Steps(clock[..k])).animating
    ensures exists n: nat :: n <= FramesNeeded(energy) && RetiredAt(es, clock, n)
    decreases FramesNeeded(energy) - k
  {
    hide Energy;
    hide Frames;
    hide FramesNeeded;
    hide Springs.Tick;
    var n := |es| - 1;
    var top := es[n].motion;
    if k == FramesNeeded(energy) {
      Settles(top, Steps(clock[..k]), energy);
      assert false;
    } else {
      FrameFrom(es, clock, k);
      var next := Frames(top, Steps(clock[..k + 1]));
      FramesDecay(top, Steps(clock[..k + 1]));
      if next.animating {
        RetiresAfter(es, clock, energy, k + 1);
      } else {
        assert Moved(es, clock[..k + 1])[n].Gone();
        assert Moved(es, clock[..k + 1])[..n] == Moved(es[..n], clock[..k + 1]);
        assert RetiredAt(es, clock, k + 1);
      }
    }
  }

  /** One more frame of a run in which nothing has been retired yet. */
  lemma FrameFrom(es: seq<Entry>, clock: seq<real>, k: nat)
    requires k < |clock| && Run(es, clock[..k]) == Moved(es, clock[..k])
    ensures Run(es, clock[..k + 1]) == Retired(Moved(es, clock[..k + 1]))
  {
    hide Ticked;
    hide Moved;
    hide Retired;
    assert clock[..k + 1] == clock[..k] + [clock[k]];
    MovedByOne(es, clock[..k], clock[k]);
  }

  /** A pushed screen is never retired: the stack stays whole, and within a number of frames computed
      from the energy of its slide the screen is exactly in place. */
  lemma {:induction false} PushSettles(es: seq<Entry>, fn: nat, p: Profile, clock: seq<real>)
    requires 0 < |es| < MAX_SCREENS
    ensures var all := Pushed(es, fn, p);
            && Run(all, clock) == Moved(all, clock)
            && (|clock| >= FramesNeeded(Energy(all[|es|].motion)) ==>
                  Run(all, clock)[|es|].Value() == 1.0 && !Run(all, clock)[|es|].motion.animating)
  {
    hide Energy;
    hide FramesNeeded;
    var all := Pushed(es, fn, p);
    EnteringStays(all, clock);
    if |clock| >= FramesNeeded(Energy(all[|es|].motion)) {
      Settles(all[|es|].motion, Steps(clock), Energy(all[|es|].motion));
    }
  }

  lemma {:induction false} EnteringStays(es: seq<Entry>, clock: seq<real>)
    requires es != [] && es[|es| - 1].op != Exiting
    ensures Run(es, clock) == Moved(es, clock)
  {
    if clock == [] {
      assert Moved(es, []) == es;
    } else {
      var k := |clock| - 1;
      EnteringStays(es, clock[..k]);
      assert clock[..k + 1] == clock;
      FrameFrom(es, clock, k);
    }
  }
}
