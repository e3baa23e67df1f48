/** Spring-backed values: semi-implicit Euler with sub-steps, and why every spring settles. */
module Springs {

  datatype Profile = Standard | Snappy

  function Stiffness(p: Profile): real { if p == Snappy then 300.0 else 170.0 }

  function Damping(p: Profile): real { if p == Snappy then 30.0 else 26.0 }

  /** A spring in flight: distance to the target, velocity, and whether it is animating. */
  datatype Motion = Motion(profile: Profile, e: real, v: real, animating: bool)

  function Abs(x: real): real { if x < 0.0 then -x else x }

  function Ceil(x: real): int { -((-x).Floor) }

  /** Sub-steps of a frame: none longer than 8 ms, at least one. */
  function SubSteps(dt: real): (n: nat)
    ensures n >= 1
  {
    var n := Ceil(dt / 0.008);
    if n < 1 then 1 else n
  }

  function StepV(p: Profile, e: real, v: real, h: real): real
  {
    v + (-Stiffness(p) * e - Damping(p) * v) * h
  }

  /** One sub-step: velocity first, then position with the new velocity. */
  function Step(s: Motion, h: real): Motion
  {
    var v := StepV(s.profile, s.e, s.v, h);
    s.(e := s.e + v * h, v := v)
  }

  /** `n` sub-steps of length `h`. */
  function Integrate(s: Motion, h: real, n: nat): Motion
  {
    if n == 0 then s else Step(Integrate(s, h, n - 1), h)
  }

  predicate AtRest(s: Motion) { Abs(s.e) < 0.25 && Abs(s.v) < 0.5 }

  /** One frame of an animating spring: integrate, then snap to the target when close and slow. */
  function Tick(s: Motion, dt: real): Motion
  {
    if !s.animating then s
    else
      var n := SubSteps(dt);
      var r := Integrate(s, dt / n as real, n);
      if AtRest(r) then Motion(s.profile, 0.0, 0.0, false) else r
  }

  function Frames(s: Motion, dts: seq<real>): Motion
  {
    if dts == [] then s else Tick(Frames(s, dts[..|dts| - 1]), dts[|dts| - 1])
  }

  /** The retained cell the frame loop advances. */
  class Animated {
    var value: real
    var target: real
    var velocity: real
    var stiffness: real
    var damping: real
    var mass: real
    var animating: bool

    constructor (initial: real)
      ensures value == initial && target == initial && velocity == 0.0 && !animating && Tuned(Standard)
    {
      value, target, velocity, animating := initial, initial, 0.0, false;
      stiffness, damping, mass := 170.0, 26.0, 1.0;
    }

    predicate Tuned(p: Profile)
      reads this
    {
      stiffness == Stiffness(p) && damping == Damping(p) && mass == 1.0
    }

    function State(p: Profile): Motion
      reads this
    {
      Motion(p, value - target, velocity, animating)
    }

    /** Jump: no animation. */
    method Set(to: real)
      modifies this`value, this`target, this`velocity, this`animating
      ensures value == to && target == to && velocity == 0.0 && !animating
    {
      value, target := to, to;
      velocity, animating := 0.0, false;
    }

    /** Head for a new target under a profile, keeping position and speed. */
    method Spring(p: Profile, to: real)
      modifies this
      ensures Tuned(p) && State(p) == Motion(p, old(value) - to, old(velocity), true)
      ensures target == to && value == old(value)
    {
      match p {
        case Snappy => stiffness, damping, mass := 300.0, 30.0, 1.0;
        case Standard => stiffness, damping, mass := 170.0, 26.0, 1.0;
      }
      target := to;
      animating := true;
    }

    /** One sub-step of semi-implicit Euler: velocity first, then position with the new velocity. */
    method SubStep(h: real, ghost p: Profile)
      requires Tuned(p)
      modifies this`velocity, this`value
      ensures Tuned(p) && target == old(target) && animating == old(animating)
      ensures velocity == StepV(p, old(value - target), old(velocity), h)
      ensures value == old(value) + velocity * h
    {
      var a := (-stiffness * (value - target) - damping * velocity) / mass;
      DivideByOne(-stiffness * (value - target) - damping * velocity);
      velocity := velocity + a * h;
      value := value + velocity * h;
    }

    /** The sub-steps of one frame. */
    method SubStepAll(h: real, steps: nat, ghost p: Profile)
      requires Tuned(p)
      modifies this`velocity, this`value
      ensures Tuned(p) && target == old(target) && animating == old(animating)
      ensures State(p) == Integrate(old(State(p)), h, steps)
    {
      hide StepV;
      ghost var s0 := State(p);
      for i := 0 to steps
        invariant Tuned(p) && target == old(target) && animating == old(animating)
        invariant State(p) == Integrate(s0, h, i)
      {
        SubStep(h, p);
      }
    }

    /** Advance one frame; true while still in motion. */
    method Advance(dt: real, ghost p: Profile) returns (moving: bool)
      requires animating ==> Tuned(p)
      modifies this
      ensures (animating ==> Tuned(p)) && target == old(target)
      ensures State(p) == Tick(old(State(p)), dt)
      ensures moving == animating && (!old(animating) ==> !moving && State(p) == old(State(p)))
      ensures old(animating) ==>
                var n := SubSteps(dt); var r := Integrate(old(State(p)), dt / n as real, n);
                if -0.25 < r.e < 0.25 && -0.5 < r.v < 0.5 then !moving && value == target && velocity == 0.0
                else moving && value == target + r.e && velocity == r.v
    {
      hide StepV;
      hide Integrate;
      if !animating {
        return false;
      }
      var steps := SubSteps(dt);
      hide SubSteps;
      var h := dt / steps as real;
      SubStepAll(h, steps, p);
      if Abs(value - target) < 0.25 && Abs(velocity) < 0.5 {
        value := target;
        velocity := 0.0;
        animating := false;
        return false;
      }
      return true;
    }
  }

  /** A frame ends an animation exactly if its sub-steps came within a quarter of a pixel of the target
      at less than half a pixel a second; it then stands on the target. Until then it is where they
      left it. */
  lemma EndsExactlyWhen(s: Motion, dt: real)
    requires s.animating
    ensures var n := SubSteps(dt); var r := Integrate(s, dt / n as real, n);
            && (!Tick(s, dt).animating <==> -0.25 < r.e < 0.25 && -0.5 < r.v < 0.5)
            && (Tick(s, dt).animating ==> Tick(s, dt) == r)
            && (!Tick(s, dt).animating ==> Tick(s, dt).e == 0.0 && Tick(s, dt).v == 0.0)
  {
    IntegrateKeeps(s, dt / SubSteps(dt) as real, SubSteps(dt));
    hide Integrate;
    hide SubSteps;
  }

  lemma {:induction false} IntegrateKeeps(s: Motion, h: real, n: nat)
    ensures Integrate(s, h, n).profile == s.profile && Integrate(s, h, n).animating == s.animating
  {
    hide StepV;
    if n > 0 {
      IntegrateKeeps(s, h, n - 1);
    }
  }

  /** A frame is cut into as few sub-steps of at most 8 ms as will do. */
  lemma FewestSubSteps(dt: real, n: nat)
    requires n >= 1
    ensures dt <= 0.008 * n as real <==> SubSteps(dt) <= n
  {
    var q := dt / 0.008;
    assert q * 0.008 == dt;
  }

  /** A sub-step is a force step: stiffness pulls to the target, damping against the motion, and the
      position moves with the new velocity. */
  lemma ForceStep(s: Motion, h: real)
    ensures var r := Step(s, h);
            && r.v - s.v == (if s.profile == Standard then -170.0 * s.e - 26.0 * s.v else -300.0 * s.e - 30.0 * s.v) * h
            && r.e - s.e == r.v * h && r.profile == s.profile
  {
  }

  lemma DivideByOne(x: real)
    ensures x / 1.0 == x
  {
  }

  // ---------------------------------------------------------------- the energy

  /** A quadratic energy that every sub-step shrinks, for both profiles. */
  function Energy(s: Motion): real
  {
    Stiffness(s.profile) * (s.e * s.e) + 20.0 * (s.e * s.v) + s.v * s.v
  }

  lemma ProductNonNegative(x: real, y: real)
    requires x >= 0.0 && y >= 0.0
    ensures x * y >= 0.0
  {
  }

  lemma SquareNonNegative(x: real)
    ensures x * x >= 0.0
  {
  }

  lemma SquareOfSum(x: real, y: real)
    ensures (x + y) * (x + y) == x * x + 2.0 * (x * y) + y * y
  {
  }

  lemma ProductOfSums(x: real, y: real, z: real, w: real)
    ensures (x + y) * (z + w) == x * z + x * w + y * z + y * w
  {
  }

  lemma Regroup(a: real, b: real, x: real, y: real)
    ensures (a * x) * (b * y) == (a * b) * (x * y)
  {
  }

  lemma Distribute(k: real, x: real, y: real, z: real)
    ensures k * (x + y + z) == k * x + k * y + k * z
  {
  }

  /** The energy after a linear map of `(e, v)`, collected by `e*e`, `e*v` and `v*v`. */
  lemma EnergyOfLinear(k: real, a: real, b: real, g: real, d: real, e: real, v: real)
    ensures var e1, v1 := a * e + b * v, g * e + d * v;
            k * (e1 * e1) + 20.0 * (e1 * v1) + v1 * v1 ==
              (k * (a * a) + 20.0 * (a * g) + g * g) * (e * e)
              + 2.0 * (k * (a * b) + 10.0 * (a * d + b * g) + g * d) * (e * v)
              + (k * (b * b) + 20.0 * (b * d) + d * d) * (v * v)
  {
    var e1, v1 := a * e + b * v, g * e + d * v;
    var ee, ev, vv := e * e, e * v, v * v;
    SquareOfSum(a * e, b * v);
    SquareOfSum(g * e, d * v);
    ProductOfSums(a * e, b * v, g * e, d * v);
    Regroup(a, a, e, e); Regroup(a, b, e, v); Regroup(b, b, v, v);
    Regroup(g, g, e, e); Regroup(g, d, e, v); Regroup(d, d, v, v);
    Regroup(a, g, e, e); Regroup(a, d, e, v); Regroup(b, g, v, e); Regroup(b, d, v, v);
    assert v * e == ev;
    assert e1 * e1 == (a * a) * ee + 2.0 * ((a * b) * ev) + (b * b) * vv;
    assert v1 * v1 == (g * g) * ee + 2.0 * ((g * d) * ev) + (d * d) * vv;
    assert e1 * v1 == (a * g) * ee + (a * d) * ev + (b * g) * ev + (b * d) * vv;
    Distribute(k, (a * a) * ee, 2.0 * ((a * b) * ev), (b * b) * vv);
    Collect(k, a * a, a * g, g * g, ee);
    Collect(k, b * b, b * d, d * d, vv);
    CollectCross(k, a * b, a * d, b * g, g * d, ev);
  }

  lemma Collect(k: real, p: real, q: real, r: real, x: real)
    ensures (k * p + 20.0 * q + r) * x == k * (p * x) + 20.0 * (q * x) + r * x
  {
  }

  lemma CollectCross(k: real, p: real, q: real, r: real, t: real, x: real)
    ensures 2.0 * (k * p + 10.0 * (q + r) + t) * x == k * (2.0 * (p * x)) + 20.0 * (q * x + r * x) + 2.0 * (t * x)
  {
  }

  /** A step length a frame can produce. */
  predicate StepLength(h: real) { 0.001 <= h <= 0.008 }

  /** The coefficients of `e*e`, `e*v` and `v*v` in the energy after a sub-step of length `h`. */
  function KeepE(p: Profile, h: real): real
  {
    var k := Stiffness(p);
    var a, g := 1.0 - k * h * h, -k * h;
    k * (a * a) + 20.0 * (a * g) + g * g
  }

  function KeepX(p: Profile, h: real): real
  {
    var k, c := Stiffness(p), Damping(p);
    var a, g, d := 1.0 - k * h * h, -k * h, 1.0 - c * h;
    var b := h * d;
    k * (a * b) + 10.0 * (a * d + b * g) + g * d
  }

  function KeepV(p: Profile, h: real): real
  {
    var k, c := Stiffness(p), Damping(p);
    var d := 1.0 - c * h;
    var b := h * d;
    k * (b * b) + 20.0 * (b * d) + d * d
  }

  /** What a sub-step removes of each part beyond the fraction `8h`. */
  function LossE(p: Profile, h: real): real { (1.0 - 8.0 * h) * Stiffness(p) - KeepE(p, h) }

  function LossX(p: Profile, h: real): real { (1.0 - 8.0 * h) * 10.0 - KeepX(p, h) }

  function LossV(p: Profile, h: real): real { (1.0 - 8.0 * h) - KeepV(p, h) }

  lemma Shrinks(h: real, x: real)
    requires 0.0 <= h <= 0.008 && x >= 0.0
    ensures 0.0 <= x * h <= 0.008 * x
  {
    ProductNonNegative(x, h);
    ProductNonNegative(x, 0.008 - h);
  }

  lemma StandardBound(h: real, h2: real, h3: real, h4: real)
    requires 0.0 <= h && 0.0 <= h2 <= 0.008 * h && 0.0 <= h3 <= 0.008 * h2 && 0.0 <= h4 <= 0.008 * h3
    ensures 0.0 <= 180.0 * h + 3400.0 * h2 - 59500.0 * h3 - 751400.0 * h4 <= 210.0 * h
  {
  }

  lemma SnappyBound(h: real, h2: real, h3: real, h4: real)
    requires 0.0 <= h && 0.0 <= h2 <= 0.008 * h && 0.0 <= h3 <= 0.008 * h2 && 0.0 <= h4 <= 0.008 * h3
    ensures 0.0 <= 220.0 * h + 6000.0 * h2 - 90000.0 * h3 - 2700000.0 * h4 <= 270.0 * h
  {
  }

  lemma StandardLosses(h: real)
    requires StepLength(h)
    ensures LossE(Standard, h) >= 2040.0 * h
    ensures 0.0 <= LossX(Standard, h) <= 210.0 * h
    ensures LossV(Standard, h) >= 24.0 * h
  {
    var h2 := h * h;
    var h3 := h2 * h;
    var h4 := h3 * h;
    Shrinks(h, h);
    Shrinks(h, h2);
    Shrinks(h, h3);
    StandardBound(h, h2, h3, h4);
    assert LossE(Standard, h) == 2040.0 * h + 28900.0 * h2 - 578000.0 * h3 - 4913000.0 * h4;
    assert LossX(Standard, h) == 180.0 * h + 3400.0 * h2 - 59500.0 * h3 - 751400.0 * h4;
    assert LossV(Standard, h) == 24.0 * h + 194.0 * h2 - 4680.0 * h3 - 114920.0 * h4;
  }

  lemma SnappyLosses(h: real)
    requires StepLength(h)
    ensures LossE(Snappy, h) >= 3600.0 * h
    ensures 0.0 <= LossX(Snappy, h) <= 270.0 * h
    ensures LossV(Snappy, h) >= 30.0 * h
  {
    var h2 := h * h;
    var h3 := h2 * h;
    var h4 := h3 * h;
    Shrinks(h, h);
    Shrinks(h, h2);
    Shrinks(h, h3);
    SnappyBound(h, h2, h3, h4);
    assert LossE(Snappy, h) == 3600.0 * h + 90000.0 * h2 - 1800000.0 * h3 - 27000000.0 * h4;
    assert LossX(Snappy, h) == 220.0 * h + 6000.0 * h2 - 90000.0 * h3 - 2700000.0 * h4;
    assert LossV(Snappy, h) == 32.0 * h - 270000.0 * h4;
  }

  lemma AtLeast(x: real, y: real, w: real)
    requires x >= y && w >= 0.0
    ensures x * w >= y * w
  {
    ProductNonNegative(x - y, w);
  }

  /** A quadratic form with a dominating diagonal is not negative. */
  lemma FormNonNegative(a: real, b: real, d: real, e: real, v: real)
    requires d > 0.0 && a * d >= b * b
    ensures a * (e * e) + 2.0 * b * (e * v) + d * (v * v) >= 0.0
  {
    var ee, ev, vv := e * e, e * v, v * v;
    var q := a * ee + 2.0 * b * ev + d * vv;
    SquareNonNegative(e);
    SquareNonNegative(b * e + d * v);
    SquareOfSum(b * e, d * v);
    Regroup(b, b, e, e);
    Regroup(b, d, e, v);
    Regroup(d, d, v, v);
    ProductNonNegative(a * d - b * b, ee);
    FormTimes(a, b, d, ee, ev, vv);
    if q < 0.0 {
      NegativeTimes(d, q);
    }
  }

  lemma FormTimes(a: real, b: real, d: real, ee: real, ev: real, vv: real)
    ensures d * (a * ee + 2.0 * b * ev + d * vv) == (a * d - b * b) * ee + ((b * b) * ee + 2.0 * ((b * d) * ev) + (d * d) * vv)
  {
  }

  lemma NegativeTimes(d: real, q: real)
    requires d > 0.0 && q < 0.0
    ensures d * q < 0.0
  {
  }

  /** A form whose diagonal coefficients are at least `a*h`, `d*h` and whose cross coefficient
      lies between 0 and `b*h` is not negative when `a*d >= b*b`. */
  lemma LossNonNegative(le: real, lx: real, lv: real, h: real, a: real, b: real, d: real, e: real, v: real)
    requires h > 0.0 && a > 0.0 && d > 0.0 && a * d >= b * b
    requires le >= a * h && 0.0 <= lx <= b * h && lv >= d * h
    ensures le * (e * e) + 2.0 * lx * (e * v) + lv * (v * v) >= 0.0
  {
    var ee, ev, vv := e * e, e * v, v * v;
    SquareNonNegative(e);
    SquareNonNegative(v);
    AtLeast(le, a * h, ee);
    AtLeast(lv, d * h, vv);
    ProductNonNegative(a * h, ee);
    ProductNonNegative(d * h, vv);
    if ev >= 0.0 {
      ProductNonNegative(lx, ev);
    } else {
      AtLeast(b * h, lx, -ev);
      FormNonNegative(a, b, d, e, v);
      ProductNonNegative(h, a * ee + 2.0 * b * ev + d * vv);
      FormByStep(h, a, b, d, ee, ev, vv);
    }
    assert 2.0 * lx * ev == 2.0 * (lx * ev);
  }

  lemma FormByStep(h: real, a: real, b: real, d: real, ee: real, ev: real, vv: real)
    ensures h * (a * ee + 2.0 * b * ev + d * vv) == (a * h) * ee + 2.0 * ((b * h) * ev) + (d * h) * vv
  {
  }

  /** One sub-step keeps at most `1 - 8h` of the energy. */
  lemma StepShrinks(s: Motion, h: real)
    requires StepLength(h)
    ensures Energy(Step(s, h)) <= (1.0 - 8.0 * h) * Energy(s)
  {
    hide Energy;
    hide Step;
    hide LossE;
    hide LossX;
    hide LossV;
    var p := s.profile;
    var le, lx, lv := LossE(p, h), LossX(p, h), LossV(p, h);
    if p == Standard {
      StandardLosses(h);
      LossNonNegative(le, lx, lv, h, 2040.0, 210.0, 24.0, s.e, s.v);
    } else {
      SnappyLosses(h);
      LossNonNegative(le, lx, lv, h, 3600.0, 270.0, 30.0, s.e, s.v);
    }
    StepLoss(s, h);
  }

  /** The energy a sub-step removes beyond `8h` of it. */
  lemma StepLoss(s: Motion, h: real)
    ensures (1.0 - 8.0 * h) * Energy(s) - Energy(Step(s, h)) ==
              LossE(s.profile, h) * (s.e * s.e) + 2.0 * LossX(s.profile, h) * (s.e * s.v) + LossV(s.profile, h) * (s.v * s.v)
  {
    hide KeepE;
    hide KeepX;
    hide KeepV;
    hide Step;
    var p, e, v := s.profile, s.e, s.v;
    StepEnergy(s, h);
    LossTimes(1.0 - 8.0 * h, Stiffness(p), e * e, e * v, v * v, KeepE(p, h), KeepX(p, h), KeepV(p, h));
  }

  lemma StepEnergy(s: Motion, h: real)
    ensures Energy(Step(s, h)) ==
              KeepE(s.profile, h) * (s.e * s.e) + 2.0 * KeepX(s.profile, h) * (s.e * s.v) + KeepV(s.profile, h) * (s.v * s.v)
  {
    var k, c, e, v := Stiffness(s.profile), Damping(s.profile), s.e, s.v;
    var a, g, d := 1.0 - k * h * h, -k * h, 1.0 - c * h;
    var b := h * d;
    StepIsLinear(k, c, e, v, h);
    StepIs(s, h, a * e + b * v, g * e + d * v);
    EnergyOfLinear(k, a, b, g, d, e, v);
  }

  lemma StepIs(s: Motion, h: real, e1: real, v1: real)
    requires v1 == StepV(s.profile, s.e, s.v, h) && e1 == s.e + v1 * h
    ensures Energy(Step(s, h)) == Stiffness(s.profile) * (e1 * e1) + 20.0 * (e1 * v1) + v1 * v1
  {
  }

  lemma StepIsLinear(k: real, c: real, e: real, v: real, h: real)
    ensures var v1 := v + (-k * e - c * v) * h;
            v1 == (-k * h) * e + (1.0 - c * h) * v &&
            e + v1 * h == (1.0 - k * h * h) * e + (h * (1.0 - c * h)) * v
  {
    var v1 := v + (-k * e - c * v) * h;
    assert v1 == (-k * h) * e + (1.0 - c * h) * v;
    assert v1 * h == (-k * h * h) * e + (h * (1.0 - c * h)) * v;
  }

  lemma LossTimes(r: real, k: real, ee: real, ev: real, vv: real, m11: real, m12: real, m22: real)
    ensures r * (k * ee + 20.0 * ev + vv) - (m11 * ee + 2.0 * m12 * ev + m22 * vv) ==
            (r * k - m11) * ee + 2.0 * (r * 10.0 - m12) * ev + (r - m22) * vv
  {
  }

  // ---------------------------------------------------------------- settling

  function Square(x: real): (r: real)
    ensures r == x * x && r >= 0.0
    ensures x < 0.0 || x > 0.0 ==> r > 0.0
  {
    var r := x * x;
    SquareSign(x, r);
    r
  }

  lemma SquareSign(x: real, r: real)
    requires r == x * x
    ensures r >= 0.0
    ensures x < 0.0 || x > 0.0 ==> r > 0.0
  {
    ProductSign(x, x, r);
  }

  lemma ProductSign(x: real, y: real, r: real)
    requires r == x * y
    ensures (x > 0.0 && y > 0.0) || (x < 0.0 && y < 0.0) ==> r > 0.0
  {
  }

  lemma EnergyBounds(s: Motion)
    ensures Energy(s) >= 70.0 * Square(s.e)
    ensures 170.0 * Energy(s) >= 70.0 * Square(s.v)
  {
    var k, e, v := Stiffness(s.profile), s.e, s.v;
    SquareOfSum(v, 10.0 * e);
    SquareNonNegative(v + 10.0 * e);
    SquareOfSum(17.0 * e, v);
    SquareNonNegative(17.0 * e + v);
    SquareNonNegative(e);
  }

  lemma EnergyPositive(s: Motion)
    ensures Energy(s) >= 0.0
    ensures s.e != 0.0 || s.v != 0.0 ==> Energy(s) > 0.0
  {
    hide Energy;
    hide Square;
    EnergyBounds(s);
  }

  /** Every sub-step of every frame strictly shrinks the energy of a spring off its target. */
  lemma StepStrictlyShrinks(s: Motion, h: real)
    requires StepLength(h) && (s.e != 0.0 || s.v != 0.0)
    ensures Energy(Step(s, h)) < Energy(s)
  {
    hide Energy;
    hide Step;
    StepShrinks(s, h);
    EnergyPositive(s);
    assert (1.0 - 8.0 * h) * Energy(s) == Energy(s) - 8.0 * (h * Energy(s));
    assert h * Energy(s) > 0.0;
  }

  lemma SquareBelow(x: real, y: real)
    requires y > 0.0 && x * x < y * y
    ensures Abs(x) < y
  {
    var a := Abs(x);
    assert a * a == x * x;
    if a >= y {
      AtLeast(a, y, y);
      AtLeast(a, y, a);
    }
  }

  /** Little energy means close and slow. */
  lemma LowEnergyIsRest(s: Motion)
    requires Energy(s) < 0.1
    ensures AtRest(s)
  {
    hide Energy;
    EnergyBounds(s);
    assert Square(s.v) < 0.25;
    assert Square(s.e) < 0.0625;
    SquareBelow(s.v, 0.5);
    SquareBelow(s.e, 0.25);
  }

  predicate FrameTime(dt: real) { 0.001 <= dt <= 0.25 }

  /** The sub-steps of a frame have an admissible length and add up to the frame. */
  lemma SubStepLength(dt: real)
    requires FrameTime(dt)
    ensures var n := SubSteps(dt); StepLength(dt / n as real) && n as real * (dt / n as real) == dt
  {
    var q := dt / 0.008;
    assert q * 0.008 == dt;
    var n := SubSteps(dt);
    var h := dt / n as real;
    assert h * n as real == dt;
    assert q <= n as real < q + 1.0 || n == 1;
    if h > 0.008 {
      StrictProduct(h - 0.008, n as real);
    }
    if h < 0.001 {
      StrictProduct(0.001 - h, n as real);
    }
  }

  lemma StrictProduct(x: real, y: real)
    requires x > 0.0 && y > 0.0
    ensures x * y > 0.0
  {
  }

  /** `e1 * (1 + 8t) <= e0` survives a sub-step: the energy falls at least like `1 / (1 + 8t)`. */
  lemma DecayStep(e0: real, e1: real, e2: real, t: real, h: real)
    requires 0.0 <= e1 && 0.0 <= t && StepLength(h)
    requires e1 * (1.0 + 8.0 * t) <= e0 && e2 <= (1.0 - 8.0 * h) * e1
    ensures e2 * (1.0 + 8.0 * (t + h)) <= e0
  {
    var f := 1.0 + 8.0 * (t + h);
    AtLeast((1.0 - 8.0 * h) * e1, e2, f);
    ProductNonNegative(t, h);
    ProductNonNegative(h, h);
    assert (1.0 - 8.0 * h) * f == 1.0 + 8.0 * t - 64.0 * (t * h) - 64.0 * (h * h);
    AtLeast(1.0 + 8.0 * t, (1.0 - 8.0 * h) * f, e1);
    assert (1.0 - 8.0 * h) * e1 * f == (1.0 - 8.0 * h) * f * e1;
  }

  lemma {:induction false} IntegrateDecays(s: Motion, h: real, n: nat, e0: real, t: real)
    requires StepLength(h) && t >= 0.0 && Energy(s) * (1.0 + 8.0 * t) <= e0
    ensures Energy(Integrate(s, h, n)) * (1.0 + 8.0 * (t + n as real * h)) <= e0
    ensures Integrate(s, h, n).animating == s.animating && Integrate(s, h, n).profile == s.profile
  {
    hide Energy;
    if n > 0 {
      IntegrateDecays(s, h, n - 1, e0, t);
      var r := Integrate(s, h, n - 1);
      StepShrinks(r, h);
      EnergyPositive(r);
      ProductNonNegative((n - 1) as real, h);
      DecayStep(e0, Energy(r), Energy(Step(r, h)), t + (n - 1) as real * h, h);
      assert t + (n - 1) as real * h + h == t + n as real * h;
    }
  }

  function Sum(dts: seq<real>): real
  {
    if dts == [] then 0.0 else Sum(dts[..|dts| - 1]) + dts[|dts| - 1]
  }

  /** While a spring is still moving its energy has fallen by `1 + 8` times the elapsed seconds. */
  lemma {:induction false} FramesDecay(s: Motion, dts: seq<real>)
    requires s.animating && forall dt <- dts :: FrameTime(dt)
    ensures Sum(dts) >= 0.001 * |dts| as real
    ensures var r := Frames(s, dts);
            r.profile == s.profile &&
            if r.animating then Energy(r) * (1.0 + 8.0 * Sum(dts)) <= Energy(s) && (dts != [] ==> !AtRest(r))
            else r.e == 0.0 && r.v == 0.0
  {
    hide Energy;
    hide AtRest;
    hide Tick;
    if dts != [] {
      var init, dt := dts[..|dts| - 1], dts[|dts| - 1];
      FramesDecay(s, init);
      assert FrameTime(dt);
      assert |dts| as real == |init| as real + 1.0;
      assert Sum(dts) == Sum(init) + dt;
      var r := Frames(s, init);
      if r.animating {
        TickDecays(r, dt, Energy(s), Sum(init));
      } else {
        TickStill(r, dt);
      }
    }
  }

  lemma TickStill(s: Motion, dt: real)
    requires !s.animating
    ensures Tick(s, dt) == s
  {
  }

  lemma TickDecays(s: Motion, dt: real, e0: real, t: real)
    requires s.animating && FrameTime(dt) && t >= 0.0 && Energy(s) * (1.0 + 8.0 * t) <= e0
    ensures var r := Tick(s, dt);
            r.profile == s.profile &&
            if r.animating then Energy(r) * (1.0 + 8.0 * (t + dt)) <= e0 && !AtRest(r) else r.e == 0.0 && r.v == 0.0
  {
    hide Energy;
    hide AtRest;
    hide SubSteps;
    SubStepLength(dt);
    var n := SubSteps(dt);
    IntegrateDecays(s, dt / n as real, n, e0, t);
  }

  lemma {:induction false} FramesJoin(s: Motion, a: seq<real>, b: seq<real>)
    ensures Frames(s, a + b) == Frames(Frames(s, a), b)
    decreases |b|
  {
    hide Tick;
    if b == [] {
      assert a + b == a;
    } else {
      FramesJoin(s, a, b[..|b| - 1]);
      assert (a + b)[..|a + b| - 1] == a + b[..|b| - 1];
    }
  }

  lemma {:induction false} FramesStill(s: Motion, dts: seq<real>)
    requires !s.animating
    ensures Frames(s, dts) == s
  {
    if dts != [] {
      FramesStill(s, dts[..|dts| - 1]);
    }
  }

  /** Frames enough to settle from a given energy: 125 for each halving down to 0.1, and one more. */
  function FramesNeeded(energy: real): nat
    decreases (10.0 * energy).Floor
  {
    if energy < 0.1 then 1 else 125 + FramesNeeded(energy / 2.0)
  }

  /** However long the frames, a spring left alone stops exactly on its target within a number
      of frames computed from its energy, and stays there. */
  lemma {:induction false} Settles(s: Motion, dts: seq<real>, energy: real)
    requires s.animating && Energy(s) <= energy
    requires |dts| >= FramesNeeded(energy) && forall dt <- dts :: FrameTime(dt)
    ensures Frames(s, dts) == Motion(s.profile, 0.0, 0.0, false)
    decreases FramesNeeded(energy)
  {
    hide Energy;
    hide AtRest;
    hide Tick;
    var k := if energy < 0.1 then 1 else 125;
    var a, b := dts[..k], dts[k..];
    assert dts == a + b;
    FramesJoin(s, a, b);
    FramesDecay(s, a);
    var r := Frames(s, a);
    EnergyPositive(r);
    if r.animating {
      HalvedOrRest(Energy(r), Energy(s), Sum(a), energy);
      if energy < 0.1 {
        LowEnergyIsRest(r);
      } else {
        Settles(r, b, energy / 2.0);
      }
    } else {
      FramesStill(r, b);
    }
  }

  lemma HalvedOrRest(e1: real, e0: real, t: real, energy: real)
    requires e1 >= 0.0 && t >= 0.0 && e1 * (1.0 + 8.0 * t) <= e0 <= energy
    ensures e1 <= energy
    ensures t >= 0.125 ==> e1 <= energy / 2.0
  {
    ProductNonNegative(e1, t);
    if t >= 0.125 {
      AtLeast(t, 0.125, e1);
    }
  }
}
