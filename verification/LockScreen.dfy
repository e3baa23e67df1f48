/** The idle and lock lifecycle: dim, lock, screen off, wake and unlock, driven by idle notifications. */
module LockScreen {
  import opened Wrappers
  import opened LayerInput

  const MAX_PASS: nat := 15
  const UNLOCK_SWIPE: real := 150.0

  datatype Phase = Active | Dimmed | Locked | Off

  datatype Kind = DimTimer | LockTimer | OffTimer

  /** A registered idle notification. */
  datatype Reg = Reg(kind: Kind, ms: int)

  datatype Config = Config(enabled: bool, dim: int, lock: int, off: int, passcode: string, lockNow: int)
  {
    /** Seconds of inactivity before the screen dims, locks, and goes off. */
    function DimAfter(): int { if dim > 0 then dim else 1 }

    function LockAfter(): int { if lock > DimAfter() then lock else DimAfter() + 1 }

    function OffAfter(): int { if off > lock then off else lock + 1 }

    function Stored(): Config { this.(passcode := Clipped(passcode)) }
  }

  function Clipped(code: string): string { if |code| > MAX_PASS then code[..MAX_PASS] else code }

  /** A 32-bit conversion. */
  function Int32(x: int): int { (x + 0x8000_0000) % 0x1_0000_0000 - 0x8000_0000 }

  /** The idle notifications: those held, those alive in the session, the next id, whether the session
      has an idle notifier at all, and the off timeout in seconds that was last asked for. */
  datatype Timers = Timers(nDim: Option<nat>, nLock: Option<nat>, nOff: Option<nat>, live: map<nat, Reg>, next: nat, idle: bool,
                           offAsked: int)
  {
    /** The session's idle notifier takes a timeout of at least zero. */
    predicate Accepts(seconds: int) { idle && Int32(seconds * 1000) >= 0 }

    function Registered(kind: Kind, seconds: int): Timers
    {
      if Accepts(seconds) then this.(live := live[next := Reg(kind, Int32(seconds * 1000))], next := next + 1) else this
    }

    function Handle(seconds: int): Option<nat> { if Accepts(seconds) then Some(next) else None }

    function Cancelled(h: Option<nat>): Timers { if h.None? then this else this.(live := live - {h.value}) }

    function UnlockedDisarmed(): Timers { Cancelled(nDim).Cancelled(nLock).(nDim := None, nLock := None) }

    function LockedDisarmed(): Timers { Cancelled(nOff).(nOff := None) }

    function UnlockedArmed(c: Config): Timers
    {
      var r := UnlockedDisarmed();
      var s := r.Registered(DimTimer, c.DimAfter()).(nDim := r.Handle(c.DimAfter()));
      s.Registered(LockTimer, c.LockAfter()).(nLock := s.Handle(c.LockAfter()))
    }

    function LockedArmed(c: Config): Timers
    {
      var r := LockedDisarmed();
      r.Registered(OffTimer, c.OffAfter()).(nOff := r.Handle(c.OffAfter()), offAsked := c.OffAfter())
    }

    /** A handle names a live notification of its kind. */
    predicate Holds(h: Option<nat>, kind: Kind)
    {
      h.Some? ==> h.value in live && live[h.value].kind == kind
    }

    /** Every live notification is held: none has leaked. */
    predicate NoneLeaked()
    {
      && Holds(nDim, DimTimer) && Holds(nLock, LockTimer) && Holds(nOff, OffTimer)
      && (forall h <- live :: h < next && Some(h) == match live[h].kind case DimTimer => nDim case LockTimer => nLock case OffTimer => nOff)
    }

    /** The off notification exists and carries the timeout asked for. */
    predicate OffTimed()
      requires NoneLeaked()
    {
      (nOff.Some? <==> Accepts(offAsked)) && (nOff.Some? ==> live[nOff.value].ms == Int32(offAsked * 1000))
    }

    /** The dim and lock notifications exist and carry the thresholds. */
    predicate Timed(c: Config)
      requires NoneLeaked()
    {
      && (nDim.Some? <==> Accepts(c.DimAfter()))
      && (nLock.Some? <==> Accepts(c.LockAfter()))
      && (nDim.Some? ==> live[nDim.value].ms == Int32(c.DimAfter() * 1000))
      && (nLock.Some? ==> live[nLock.value].ms == Int32(c.LockAfter() * 1000))
    }
  }

  datatype Event =
    | Build(config: Config)
    | DimIdled
    | LockIdled
    | Resumed
    | OffIdled
    | OffResumed
    | SetEnabled(on: bool)
    | SetDim(seconds: int)
    | SetLock(seconds: int)
    | SetOff(seconds: int)
    | SetPasscode(code: string)
    | SetLockNow(count: int)
    | SwipeEnd(dy: real)
    | Digit(d: char)

  datatype State = State(
    ready: bool, config: Config, phase: Phase, locked: bool,
    entering: bool, entry: string, wrong: bool,
    timers: Timers, dirty: bool, layer: Layer)
  {
    function Armed(): State { this.(timers := timers.UnlockedArmed(config)) }

    // -------------------------------------------------------------- transitions

    function Entered(): State
    {
      this.(locked := true, phase := Locked, entering := false, entry := "", wrong := false, dirty := true,
            timers := timers.UnlockedDisarmed().LockedArmed(config))
    }

    function Unlocked(): State
    {
      var r := this.(locked := false, phase := Active, entering := false, entry := "", wrong := false, dirty := true,
                     timers := timers.UnlockedDisarmed().LockedDisarmed());
      if config.enabled then r.Armed() else r
    }

    function Enabled(on: bool): State
    {
      if on == config.enabled then this
      else
        var r := this.(config := config.(enabled := on), phase := Active, locked := false, dirty := true);
        if on then r.Armed() else r.(timers := timers.UnlockedDisarmed().LockedDisarmed())
    }

    function Typed(d: char): State
    {
      var code := if |entry| < 4 then entry + [d] else entry;
      var r := this.(entry := code, wrong := if |entry| < 4 then false else wrong);
      if |code| == 4 then
        if code == config.passcode then r.Unlocked() else r.(wrong := true, entry := "", dirty := true)
      else r.(dirty := true)
    }

    function Swiped(dy: real): State
    {
      if !locked || entering || dy >= -UNLOCK_SWIPE then this
      else if config.passcode != "" then this.(entering := true, entry := "", wrong := false, dirty := true)
      else Unlocked()
    }

    /** A build: the first one loads the configuration and arms; every one states what the surface
        takes from the user. */
    function Built(c: Config): State
    {
      var r := if ready then this
               else
                 var s := this.(ready := true, config := c.Stored());
                 if c.enabled then s.Armed() else s;
      r.(dirty := false, layer := r.Shown())
    }

    function Shown(): Layer
    {
      match phase
      case Locked => layer.WithKeyboard(true).WithRegion(Box(0, 0, 0, 0))
      case Off => layer.WithKeyboard(locked).WithRegion(Box(0, 0, 0, 0))
      case _ => layer.WithKeyboard(false).WithNone()
    }

    /** Timeouts reach a lock screen only through the notification it holds, everything else but a
        build only once it has started. */
    predicate Can(e: Event)
    {
      match e
      case Build(_) => true
      case DimIdled => ready && timers.nDim.Some?
      case Resumed => ready && timers.nDim.Some?
      case LockIdled => ready && timers.nLock.Some?
      case OffIdled => ready && timers.nOff.Some?
      case OffResumed => ready && timers.nOff.Some?
      case _ => ready
    }

    function Next(e: Event): State
    {
      match e
      case Build(c) => Built(c)
      case DimIdled => if config.enabled && !locked && phase == Active then this.(phase := Dimmed, dirty := true) else this
      case LockIdled => if config.enabled && !locked then Entered() else this
      case Resumed => if locked || phase == Active then this else this.(phase := Active, dirty := true)
      case OffIdled => if locked && phase != Off then this.(phase := Off, dirty := true) else this
      case OffResumed =>
        if locked && phase != Locked then this.(phase := Locked, entering := false, entry := "", dirty := true) else this
      case SetEnabled(on) => Enabled(on)
      case SetDim(x) =>
        var r := this.(config := config.(dim := x));
        if config.enabled && !locked then r.Armed() else r
      case SetLock(x) =>
        var r := this.(config := config.(lock := x));
        if config.enabled && !locked then r.Armed() else r
      case SetOff(x) =>
        var r := this.(config := config.(off := x));
        if locked then r.(timers := timers.LockedArmed(r.config)) else r
      case SetPasscode(code) => this.(config := config.(passcode := Clipped(code)))
      case SetLockNow(count) =>
        var r := this.(config := config.(lockNow := count));
        if count != config.lockNow && config.enabled && !locked then r.Entered() else r
      case SwipeEnd(dy) => Swiped(dy)
      case Digit(d) => Typed(d)
    }

    // -------------------------------------------------------------- what always holds

    /** The notifications are those of the regime: dim and lock while unlocked, off while locked,
        none while disabled. Dim and lock carry the current thresholds, off the one it was armed with. */
    predicate RightRegime()
      requires timers.NoneLeaked()
    {
      && (ready && config.enabled && !locked ==> timers.Timed(config))
      && (!ready || !config.enabled || locked ==> timers.nDim == None && timers.nLock == None)
      && (if locked then timers.OffTimed() else timers.nOff == None)
    }

    /** The off timeout asked for is that of the current configuration. */
    predicate OffCurrent() { timers.offAsked == config.OffAfter() }

    /** Locked is being in a locked phase, and only happens while enabled. */
    predicate PhaseMatches()
    {
      (locked <==> phase == Locked || phase == Off) && (locked ==> ready && config.enabled)
    }

    /** The surface blocks the app beneath: all pointer input and the keyboard. */
    predicate Blocks() { layer.region == Everything && layer.keyboard }

    /** The surface lets everything through. */
    predicate Transparent() { layer.region == Nothing && !layer.keyboard }

    /** With no build due, the surface blocks the app exactly when locked. */
    predicate Gated()
    {
      layer.Mirrors() && (ready && !dirty ==> if locked then Blocks() else Transparent())
    }

    predicate Good()
    {
      PhaseMatches() && timers.NoneLeaked() && RightRegime() && Gated() && |entry| < 4
    }
  }

  // ---------------------------------------------------------------- notifications

  lemma UnlockedDisarmedKeeps(t: Timers)
    requires t.NoneLeaked()
    ensures var r := t.UnlockedDisarmed();
            r.NoneLeaked() && r == t.(nDim := None, nLock := None, live := r.live)
  {
  }

  lemma LockedDisarmedKeeps(t: Timers)
    requires t.NoneLeaked()
    ensures var r := t.LockedDisarmed();
            r.NoneLeaked() && r == t.(nOff := None, live := r.live)
  {
  }

  lemma UnlockedArmedKeeps(t: Timers, c: Config)
    requires t.NoneLeaked()
    ensures var r := t.UnlockedArmed(c);
            r.NoneLeaked() && r.Timed(c) && r.nOff == t.nOff && r.offAsked == t.offAsked
            && (r.nOff.Some? ==> t.live[t.nOff.value] == r.live[r.nOff.value])
  {
    UnlockedDisarmedKeeps(t);
    hide Timers.UnlockedDisarmed;
  }

  lemma LockedArmedKeeps(t: Timers, c: Config)
    requires t.NoneLeaked()
    ensures var r := t.LockedArmed(c);
            r.NoneLeaked() && r.nDim == t.nDim && r.nLock == t.nLock &&
            r.OffTimed() && r.offAsked == c.OffAfter()
  {
    LockedDisarmedKeeps(t);
    hide Timers.LockedDisarmed;
  }

  // ---------------------------------------------------------------- what every event keeps

  lemma ShownGated(s: State)
    requires s.PhaseMatches() && s.layer.Mirrors()
    ensures var r := s.(dirty := false, layer := s.Shown());
            r.layer.Mirrors() && (if s.locked then r.Blocks() else r.Transparent())
  {
    var l := s.layer;
    RequestsTakeEffect(l, Box(0, 0, 0, 0), s.locked);
    RequestsTakeEffect(l.WithKeyboard(s.locked), Box(0, 0, 0, 0), s.locked);
  }

  lemma BuiltGood(s: State, c: Config)
    requires s.Good()
    ensures s.Built(c).Good()
  {
    var r := s;
    if !s.ready {
      r := s.(ready := true, config := c.Stored());
      UnlockedArmedKeeps(s.timers, c.Stored());
      if c.enabled {
        r := r.Armed();
      }
    }
    hide Timers.UnlockedArmed;
    ShownGated(r);
    hide State.Shown;
  }

  lemma EnteredGood(s: State)
    requires s.Good() && s.ready && s.config.enabled && !s.locked
    ensures s.Entered().Good()
  {
    UnlockedDisarmedKeeps(s.timers);
    LockedArmedKeeps(s.timers.UnlockedDisarmed(), s.config);
    hide Timers.UnlockedDisarmed;
    hide Timers.LockedArmed;
  }

  lemma UnlockedGood(s: State)
    requires s.Good() && s.ready
    ensures s.Unlocked().Good()
  {
    var t := s.timers.UnlockedDisarmed();
    UnlockedDisarmedKeeps(s.timers);
    LockedDisarmedKeeps(t);
    UnlockedArmedKeeps(t.LockedDisarmed(), s.config);
    hide Timers.UnlockedDisarmed;
    hide Timers.LockedDisarmed;
    hide Timers.UnlockedArmed;
  }

  lemma EnabledGood(s: State, on: bool)
    requires s.Good() && s.ready
    ensures s.Enabled(on).Good()
  {
    var t := s.timers.UnlockedDisarmed();
    UnlockedDisarmedKeeps(s.timers);
    LockedDisarmedKeeps(t);
    UnlockedArmedKeeps(s.timers, s.config.(enabled := on));
    hide Timers.UnlockedDisarmed;
    hide Timers.LockedDisarmed;
    hide Timers.UnlockedArmed;
  }

  lemma RearmedGood(s: State, c: Config)
    requires s.Good() && s.ready && c.enabled == s.config.enabled
    requires s.config.enabled && !s.locked
    ensures s.(config := c).Armed().Good()
  {
    UnlockedArmedKeeps(s.timers, c);
    hide Timers.UnlockedArmed;
  }

  lemma NextGood(s: State, e: Event)
    requires s.Good() && s.Can(e)
    ensures s.Next(e).Good()
  {
    hide Timers.UnlockedArmed;
    hide Timers.LockedArmed;
    hide State.Built;
    hide State.Entered;
    hide State.Unlocked;
    hide State.Enabled;
    match e
    case Build(c) => BuiltGood(s, c);
    case LockIdled =>
      if s.config.enabled && !s.locked {
        EnteredGood(s);
      }
    case SetEnabled(on) => EnabledGood(s, on);
    case SetDim(x) =>
      if s.config.enabled && !s.locked {
        RearmedGood(s, s.config.(dim := x));
      }
    case SetLock(x) =>
      if s.config.enabled && !s.locked {
        RearmedGood(s, s.config.(lock := x));
      }
    case SetOff(x) => LockedArmedKeeps(s.timers, s.config.(off := x));
    case SetLockNow(count) =>
      if s.config.enabled && !s.locked {
        EnteredGood(s.(config := s.config.(lockNow := count)));
      }
    case SwipeEnd(dy) => UnlockedGood(s);
    case Digit(d) => TypedGood(s, d);
    case _ =>
  }

  lemma TypedGood(s: State, d: char)
    requires s.Good() && s.ready
    ensures s.Typed(d).Good()
  {
    var r := s.(entry := s.entry + [d], wrong := false);
    hide State.Unlocked;
    if s.entry + [d] == s.config.passcode {
      UnlockedSame(s, r);
      UnlockedGood(s);
    }
  }

  /** Unlocking forgets what was typed. */
  lemma UnlockedSame(s: State, r: State)
    requires r == s.(entry := r.entry, wrong := r.wrong)
    ensures r.Unlocked() == s.Unlocked()
  {
  }

  /** The three ways out of a locked session, and no other: a long enough swipe up when no code is
      set, the fourth digit of the right code, or turning the lock off. */
  predicate Releases(s: State, e: Event)
  {
    match e
    case SwipeEnd(dy) => dy < -150.0 && !s.entering && s.config.passcode == ""
    case Digit(d) => s.entry + [d] == s.config.passcode && |s.config.passcode| == 4
    case SetEnabled(on) => !on
    case _ => false
  }

  lemma UnlocksExactlyWhen(s: State, e: Event)
    requires s.Good() && s.Can(e) && s.locked
    ensures !s.Next(e).locked <==> Releases(s, e)
    ensures s.Next(e).locked ==> s.Next(e).phase in {Locked, Off}
  {
    hide Timers.UnlockedArmed;
    hide Timers.LockedArmed;
    hide Timers.UnlockedDisarmed;
    hide Timers.LockedDisarmed;
  }

  /** An unlocked session locks exactly when it is enabled and either the lock timeout fires or the
      lock-now counter changes; it is then on the lock screen with nothing typed. */
  lemma LocksExactlyWhen(s: State, e: Event)
    requires s.Good() && s.Can(e) && !s.locked
    ensures s.Next(e).locked <==>
            s.config.enabled && s.ready && (e == LockIdled || (e.SetLockNow? && e.count != s.config.lockNow))
    ensures s.Next(e).locked ==> s.Next(e).phase == Locked && s.Next(e).entry == "" && !s.Next(e).entering
  {
    hide Timers.UnlockedArmed;
    hide Timers.LockedArmed;
    hide Timers.UnlockedDisarmed;
    hide Timers.LockedDisarmed;
  }

  /** The screen dims only by the dim timeout of an enabled, unlocked, active session, and goes off
      only by the off timeout of a locked one. Input wakes either: dimmed to active, off to locked. */
  lemma DimsAndBlanksExactlyWhen(s: State, e: Event)
    requires s.Good() && s.Can(e)
    ensures s.phase != Dimmed ==> (s.Next(e).phase == Dimmed <==> e == DimIdled && s.config.enabled && s.phase == Active)
    ensures s.phase != Off ==> (s.Next(e).phase == Off <==> e == OffIdled && s.phase == Locked)
    ensures s.phase == Dimmed ==> s.Next(Resumed).phase == Active
    ensures s.phase == Off ==> s.Next(OffResumed).phase == Locked && s.Next(OffResumed).locked
  {
    hide Timers.UnlockedArmed;
    hide Timers.LockedArmed;
    hide Timers.UnlockedDisarmed;
    hide Timers.LockedDisarmed;
  }

  /** Typing the four digits of the code one after the other on a fresh keypad unlocks, and a wrong
      fourth digit starts over. */
  lemma TypingTheCode(s: State, a: char, b: char, c: char, d: char)
    requires s.Good() && s.ready && s.locked && s.entry == ""
    ensures var r := s.Next(Digit(a)).Next(Digit(b)).Next(Digit(c)).Next(Digit(d));
            (!r.locked <==> s.config.passcode == [a, b, c, d]) && r.entry == "" && (r.locked ==> r.wrong)
  {
    hide Timers.UnlockedArmed;
    hide Timers.UnlockedDisarmed;
    hide Timers.LockedDisarmed;
    var s1 := s.Typed(a);
    assert s1 == s.(entry := [a], wrong := false, dirty := true);
    var s2 := s1.Typed(b);
    assert s2 == s.(entry := [a, b], wrong := false, dirty := true);
    var s3 := s2.Typed(c);
    assert s3 == s.(entry := [a, b, c], wrong := false, dirty := true);
  }

  /** A new code takes effect at once, for the session that is locked too: it unlocks by the new digits
      and by no others. */
  lemma NewCodeCounts(s: State, code: string, a: char, b: char, c: char, d: char)
    requires s.Good() && s.ready && s.locked && s.entry == "" && |code| <= 15
    ensures var n := s.Next(SetPasscode(code));
            var r := n.Next(Digit(a)).Next(Digit(b)).Next(Digit(c)).Next(Digit(d));
            n.locked && (!r.locked <==> code == [a, b, c, d])
  {
    var n := s.Next(SetPasscode(code));
    NextGood(s, SetPasscode(code));
    assert n == s.(config := n.config) && n.config.passcode == code;
    TypingTheCode(n, a, b, c, d);
    hide State.Good;
    hide State.Typed;
  }

  /** A code is cut to its first fifteen characters. */
  lemma CodeIsCut(s: State, code: string)
    requires s.ready
    ensures var p := s.Next(SetPasscode(code)).config.passcode;
            |p| == (if |code| < 15 then |code| else 15) && p == code[..|p|]
  {
  }

  /** Thresholds in ascending order are used as they are. */
  lemma ThresholdsTaken(c: Config)
    requires 0 < c.dim < c.lock < c.off
    ensures c.DimAfter() == c.dim && c.LockAfter() == c.lock && c.OffAfter() == c.off
  {
  }

  /** Whatever the configuration says, the session dims after at least a second, and locks after that. */
  lemma ThresholdsOrdered(c: Config)
    ensures 1 <= c.DimAfter() < c.LockAfter() && c.lock < c.OffAfter()
    ensures c.dim <= 0 ==> c.DimAfter() == 1
    ensures c.lock <= c.DimAfter() ==> c.LockAfter() == c.DimAfter() + 1
    ensures c.off <= c.lock ==> c.OffAfter() == c.lock + 1
  {
  }

  /** While unlocked and enabled the screen dims strictly before it locks, unless a threshold does
      not fit 32 bits of milliseconds. */
  lemma DimsBeforeLocking(s: State)
    requires s.Good() && s.ready && s.config.enabled && !s.locked
    requires s.config.DimAfter() * 1000 < 0x8000_0000 && s.config.LockAfter() * 1000 < 0x8000_0000 && s.timers.idle
    ensures var t := s.timers;
            t.nDim.Some? && t.nLock.Some? && 0 < t.live[t.nDim.value].ms < t.live[t.nLock.value].ms
  {
  }

  /** The lock timeout registered is the threshold exactly up to 2147483 seconds. Beyond, the
      milliseconds wrap to 32 bits, and exactly a wrap to a negative number registers nothing. */
  lemma LockTimeoutExactly(s: State)
    requires s.Good() && s.ready && s.config.enabled && !s.locked && s.timers.idle
    ensures var t, ms := s.timers, s.config.LockAfter() * 1000;
            && (t.nLock.Some? && t.live[t.nLock.value].ms == ms <==> s.config.LockAfter() <= 2147483)
            && (t.nLock == None <==> ms % 0x1_0000_0000 >= 0x8000_0000)
  {
    var ms := s.config.LockAfter() * 1000;
    assert ms > 0;
    if ms >= 0x8000_0000 {
      assert Int32(ms) < 0x8000_0000;
    }
  }

  /** A threshold of fifty days locks after 704 milliseconds. */
  lemma FiftyDaysLockAtOnce(s: State)
    requires s.Good() && s.ready && s.config.enabled && !s.locked && s.timers.idle
    requires s.config.LockAfter() == 4294968
    ensures var t := s.timers; t.nLock.Some? && t.live[t.nLock.value].ms == 704
  {
  }

  // ---------------------------------------------------------------- every run

  ghost predicate Reaches(s: State, es: seq<Event>, r: State)
    decreases |es|
  {
    if es == [] then r == s else s.Can(es[0]) && Reaches(s.Next(es[0]), es[1..], r)
  }

  function Boot(idle: bool): State
  {
    State(false, Config(false, 8, 20, 120, "", 0), Active, false, false, "", false,
          Timers(None, None, None, map[], 0, idle, 0), true, NEW_LAYER)
  }

  lemma BootGood(idle: bool)
    ensures Boot(idle).Good()
  {
  }

  /** Over every run: phase and lock agree, no notification leaks, and with no build due the surface
      blocks the app exactly when the session is locked. */
  lemma {:induction false} RunGood(s: State, es: seq<Event>, r: State)
    requires s.Good() && Reaches(s, es, r)
    ensures r.Good()
    decreases |es|
  {
    hide State.Good;
    hide State.Next;
    if es != [] {
      NextGood(s, es[0]);
      RunGood(s.Next(es[0]), es[1..], r);
    }
  }

  /** A locked session stays locked through any run without one of the three ways out. */
  lemma {:induction false} StaysLocked(s: State, es: seq<Event>, r: State)
    requires s.Good() && s.locked && Reaches(s, es, r)
    requires forall k :: 0 <= k < |es| ==> NoWayOut(s, es, k)
    ensures r.locked
    decreases |es|
  {
    hide State.Good;
    hide State.Next;
    hide Releases;
    if es != [] {
      assert NoWayOut(s, es, 0);
      NextGood(s, es[0]);
      UnlocksExactlyWhen(s, es[0]);
      forall k | 0 <= k < |es| - 1
        ensures NoWayOut(s.Next(es[0]), es[1..], k)
      {
        assert NoWayOut(s, es, k + 1);
      }
      StaysLocked(s.Next(es[0]), es[1..], r);
    }
  }

  /** The `k`-th event of a run does not release the lock in the state it meets. */
  predicate NoWayOut(s: State, es: seq<Event>, k: nat)
    requires k < |es|
    decreases k
  {
    if k == 0 then !Releases(s, es[0]) else NoWayOut(s.Next(es[0]), es[1..], k - 1)
  }

  /** In the state the `k`-th event of a run meets, the lock timeout was refused, and the event is no
      request to lock now. */
  predicate NoWayIn(s: State, es: seq<Event>, k: nat)
    requires k < |es|
    decreases k
  {
    if k == 0 then
      !s.timers.Accepts(s.config.LockAfter()) && (es[0].SetLockNow? ==> es[0].count == s.config.lockNow)
    else NoWayIn(s.Next(es[0]), es[1..], k - 1)
  }

  /** Nothing locks an unlocked session through any run in which the lock timeout is refused and the
      lock-now counter keeps its value. */
  lemma {:induction false} StaysUnlocked(s: State, es: seq<Event>, r: State)
    requires s.Good() && !s.locked && Reaches(s, es, r)
    requires forall k :: 0 <= k < |es| ==> NoWayIn(s, es, k)
    ensures !r.locked
    decreases |es|
  {
    hide State.Next;
    if es != [] {
      assert NoWayIn(s, es, 0);
      NextGood(s, es[0]);
      LocksExactlyWhen(s, es[0]);
      forall k | 0 <= k < |es| - 1
        ensures NoWayIn(s.Next(es[0]), es[1..], k)
      {
        assert NoWayIn(s, es, k + 1);
      }
      assert !s.Next(es[0]).locked;
      hide State.Good;
      StaysUnlocked(s.Next(es[0]), es[1..], r);
    }
  }

  /** After an event that leaves the session locked, the off timeout is the configured one exactly if
      the event locked the session, set the off threshold, or kept it so: a new lock threshold can
      change the off timeout but does not register it anew. */
  lemma OffCurrentExactlyWhen(s: State, e: Event)
    requires s.Good() && s.Can(e) && s.Next(e).locked
    ensures s.Next(e).OffCurrent() <==>
            || !s.locked || e.SetOff?
            || s.timers.offAsked == (if e.SetLock? then s.config.(lock := e.seconds) else s.config).OffAfter()
  {
    hide Timers.UnlockedArmed;
    hide Timers.UnlockedDisarmed;
    hide Timers.LockedDisarmed;
    hide Timers.Registered;
    hide Timers.Handle;
    hide State.Gated;
    hide State.RightRegime;
    hide Timers.NoneLeaked;
    hide State.Shown;
  }

  /** Raising the lock threshold past the off threshold of a locked session leaves the old timeout. */
  lemma OffTimeoutGoesStale(s: State)
    requires s.Good() && s.ready && s.locked && s.OffCurrent()
    ensures var r := s.Next(SetLock(s.config.OffAfter()));
            s.Can(SetLock(s.config.OffAfter())) && r.locked && !r.OffCurrent() && r.timers == s.timers
  {
  }

  // ---------------------------------------------------------------- the process

  /** The idle notifications the lock screen holds, and those alive in the session. */
  class IdleClock {
    /** The session has an idle notifier. */
    const idle: bool
    var nDim: Option<nat>
    var nLock: Option<nat>
    var nOff: Option<nat>
    var live: map<nat, Reg>
    var next: nat
    /** The off timeout last asked for. */
    ghost var offAsked: int

    ghost function Snapshot(): Timers
      reads this
    {
      Timers(nDim, nLock, nOff, live, next, idle, offAsked)
    }

    constructor (notifier: bool)
      ensures Snapshot() == Timers(None, None, None, map[], 0, notifier, 0)
    {
      idle := notifier;
      nDim, nLock, nOff, live, next, offAsked := None, None, None, map[], 0, 0;
    }

    /** Register for a timeout in milliseconds, after its conversion to 32 bits. */
    method IdleNotify(seconds: int, kind: Kind) returns (h: Option<nat>)
      modifies this`live, this`next
      ensures h == old(Snapshot()).Handle(seconds) && Snapshot() == old(Snapshot()).Registered(kind, seconds)
    {
      var ms := Int32(seconds * 1000);
      if !idle || ms < 0 {
        return None;
      }
      h := Some(next);
      live := live[next := Reg(kind, ms)];
      next := next + 1;
    }

    method IdleCancel(h: Option<nat>)
      modifies this`live
      ensures Snapshot() == old(Snapshot()).Cancelled(h)
    {
      if h.None? {
        return;
      }
      live := live - {h.value};
    }

    method DisarmUnlocked()
      modifies this`live, this`nDim, this`nLock
      ensures Snapshot() == old(Snapshot()).UnlockedDisarmed()
    {
      IdleCancel(nDim);
      IdleCancel(nLock);
      nDim, nLock := None, None;
    }

    method DisarmLocked()
      modifies this`live, this`nOff
      ensures Snapshot() == old(Snapshot()).LockedDisarmed()
    {
      IdleCancel(nOff);
      nOff := None;
    }

    method ArmUnlocked(c: Config)
      modifies this`live, this`next, this`nDim, this`nLock
      ensures Snapshot() == old(Snapshot()).UnlockedArmed(c)
    {
      DisarmUnlocked();
      hide Timers.UnlockedDisarmed;
      var dim := if c.dim > 0 then c.dim else 1;
      var lock := if c.lock > dim then c.lock else dim + 1;
      nDim := IdleNotify(dim, DimTimer);
      nLock := IdleNotify(lock, LockTimer);
    }

    method ArmLocked(c: Config)
      modifies this`live, this`next, this`nOff, this`offAsked
      ensures Snapshot() == old(Snapshot()).LockedArmed(c)
    {
      DisarmLocked();
      var off := if c.off > c.lock then c.off else c.lock + 1;
      nOff := IdleNotify(off, OffTimer);
      offAsked := off;
    }
  }

  /** The lock screen's state, its idle notifications and its layer surface. */
  class LockApp {
    const app: LayerApp
    const clock: IdleClock
    var ready: bool
    var config: Config
    var phase: Phase
    var locked: bool
    var entering: bool
    var entry: string
    var wrong: bool
    /** A build is due. */
    var dirty: bool

    ghost function Snapshot(): State
      reads this, app, clock
    {
      State(ready, config, phase, locked, entering, entry, wrong, clock.Snapshot(), dirty, app.Snapshot())
    }

    constructor (notifier: bool)
      ensures Snapshot() == Boot(notifier) && fresh(app) && fresh(clock)
    {
      app := new LayerApp();
      clock := new IdleClock(notifier);
      ready, phase, locked := false, Active, false;
      config := Config(false, 8, 20, 120, "", 0);
      entering, entry, wrong, dirty := false, "", false, true;
    }

    method EnterLocked()
      modifies this, clock
      ensures Snapshot() == old(Snapshot()).Entered()
    {
      hide Timers.UnlockedDisarmed;
      hide Timers.LockedArmed;
      clock.DisarmUnlocked();
      locked, phase := true, Locked;
      entering, entry, wrong := false, "", false;
      clock.ArmLocked(config);
      dirty := true;
    }

    method DoUnlock()
      modifies this, clock
      ensures Snapshot() == old(Snapshot()).Unlocked()
    {
      hide Timers.UnlockedDisarmed;
      hide Timers.LockedDisarmed;
      hide Timers.UnlockedArmed;
      clock.DisarmUnlocked();
      clock.DisarmLocked();
      locked, phase := false, Active;
      entering, entry, wrong := false, "", false;
      if config.enabled {
        clock.ArmUnlocked(config);
      }
      dirty := true;
    }

    method OnDimIdled()
      modifies this`phase, this`dirty
      ensures Snapshot() == old(Snapshot()).Next(DimIdled)
    {
      if !config.enabled || locked {
        return;
      }
      if phase == Active {
        phase, dirty := Dimmed, true;
      }
    }

    method OnLockIdled()
      modifies this, clock
      ensures Snapshot() == old(Snapshot()).Next(LockIdled)
    {
      hide State.Entered;
      if !config.enabled || locked {
        return;
      }
      EnterLocked();
    }

    method OnResumed()
      modifies this`phase, this`dirty
      ensures Snapshot() == old(Snapshot()).Next(Resumed)
    {
      if locked || phase == Active {
        return;
      }
      phase, dirty := Active, true;
    }

    method OnOffIdled()
      modifies this`phase, this`dirty
      ensures Snapshot() == old(Snapshot()).Next(OffIdled)
    {
      if !locked || phase == Off {
        return;
      }
      phase, dirty := Off, true;
    }

    /** Input wakes the screen to the lock screen: still locked. */
    method OnOffResumed()
      modifies this`phase, this`entering, this`entry, this`dirty
      ensures Snapshot() == old(Snapshot()).Next(OffResumed)
    {
      if !locked || phase == Locked {
        return;
      }
      phase, entering, entry, dirty := Locked, false, "", true;
    }

    /** The lock is switched on or off in the settings. */
    method OnEnabled(on: bool)
      modifies this, clock
      ensures Snapshot() == old(Snapshot()).Enabled(on)
    {
      hide Timers.UnlockedDisarmed;
      hide Timers.LockedDisarmed;
      hide Timers.UnlockedArmed;
      if on == config.enabled {
        return;
      }
      config := config.(enabled := on);
      phase, locked := Active, false;
      if on {
        clock.ArmUnlocked(config);
      } else {
        clock.DisarmUnlocked();
        clock.DisarmLocked();
      }
      dirty := true;
    }

    /** The dim or the lock threshold changes. */
    method OnThresholds(c: Config)
      modifies this`config, clock
      ensures var r := old(Snapshot()).(config := c);
              Snapshot() == if c.enabled && !locked then r.Armed() else r
    {
      hide Timers.UnlockedArmed;
      config := c;
      if config.enabled && !locked {
        clock.ArmUnlocked(config);
      }
    }

    method OnOffThreshold(seconds: int)
      modifies this`config, clock
      ensures Snapshot() == old(Snapshot()).Next(SetOff(seconds))
    {
      hide Timers.LockedArmed;
      config := config.(off := seconds);
      if locked {
        clock.ArmLocked(config);
      }
    }

    /** The lock-now counter changes: lock at once. */
    method OnLockNow(count: int)
      modifies this, clock
      ensures Snapshot() == old(Snapshot()).Next(SetLockNow(count))
    {
      hide State.Entered;
      if count != config.lockNow {
        config := config.(lockNow := count);
        if config.enabled && !locked {
          EnterLocked();
        }
      }
    }

    /** A swipe on the lock screen ends. */
    method OnSwipe(dy: real)
      modifies this, clock
      ensures Snapshot() == old(Snapshot()).Swiped(dy)
    {
      hide State.Unlocked;
      if !locked || entering {
        return;
      }
      if dy < -UNLOCK_SWIPE {
        if config.passcode != "" {
          entering, entry, wrong := true, "", false;
          dirty := true;
        } else {
          DoUnlock();
        }
      }
    }

    /** A keypad digit: at four, the code is compared. */
    method OnDigit(d: char)
      modifies this, clock
      ensures Snapshot() == old(Snapshot()).Typed(d)
    {
      hide State.Unlocked;
      if |entry| < 4 {
        entry := entry + [d];
        wrong := false;
      }
      if |entry| == 4 {
        if entry == config.passcode {
          DoUnlock();
          return;
        }
        wrong := true;
        entry := "";
      }
      dirty := true;
    }

    /** State what the surface takes from the user. */
    method Show()
      modifies app
      ensures Snapshot() == old(Snapshot()).(layer := old(Snapshot()).Shown())
    {
      hide Layer.WithKeyboard;
      hide Layer.WithRegion;
      hide Layer.WithNone;
      match phase {
        case Locked =>
          app.SetKeyboard(true);
          app.SetInputRegion(Box(0, 0, 0, 0));
        case Off =>
          app.SetKeyboard(locked);
          app.SetInputRegion(Box(0, 0, 0, 0));
        case _ =>
          app.SetKeyboard(false);
          app.SetInputNone();
      }
    }

    /** Build the view; the first time, load the configuration and arm. */
    method Body(c: Config)
      modifies this, app, clock
      ensures Snapshot() == old(Snapshot()).Built(c)
    {
      hide Timers.UnlockedArmed;
      hide Layer.WithKeyboard;
      hide Layer.WithRegion;
      hide Layer.WithNone;
      if !ready {
        ready := true;
        config := c.Stored();
        if config.enabled {
          clock.ArmUnlocked(config);
        }
      }
      Show();
      dirty := false;
    }

    method OnEvent(e: Event)
      requires Snapshot().Good() && Snapshot().Can(e)
      modifies this, app, clock
      ensures Snapshot() == old(Snapshot()).Next(e) && Snapshot().Good()
    {
      NextGood(Snapshot(), e);
      hide State.Good;
      hide State.Entered;
      hide State.Built;
      hide State.Unlocked;
      hide State.Enabled;
      hide State.Armed;
      match e {
        case Build(c) => Body(c);
        case DimIdled => OnDimIdled();
        case LockIdled => OnLockIdled();
        case Resumed => OnResumed();
        case OffIdled => OnOffIdled();
        case OffResumed => OnOffResumed();
        case SetEnabled(on) => OnEnabled(on);
        case SetDim(x) => OnThresholds(config.(dim := x));
        case SetLock(x) => OnThresholds(config.(lock := x));
        case SetOff(x) => OnOffThreshold(x);
        case SetPasscode(code) => config := config.(passcode := Clipped(code));
        case SetLockNow(count) => OnLockNow(count);
        case SwipeEnd(dy) => OnSwipe(dy);
        case Digit(d) => OnDigit(d);
      }
    }
  }
}
