/** The compositor's windows: most-recently-used order, activation, stacking and keyboard focus. */
module Windows {
  import opened Wrappers

  // ---------------------------------------------------------------- lists

  function Without<T(==)>(s: seq<T>, w: T): (r: seq<T>)
    ensures forall x <- r :: x in s && x != w
    ensures forall x <- s :: x != w ==> x in r
    ensures w !in s ==> r == s
  {
    if s == [] then [] else (if s[0] == w then [] else [s[0]]) + Without(s[1..], w)
  }

  /** The list with one element moved, or put, in front. */
  function Fronted<T(==)>(s: seq<T>, w: T): seq<T> { [w] + Without(s, w) }

  /** The scene with one node raised to the top, which is its end. */
  function Raised<T(==)>(s: seq<T>, w: T): seq<T> { Without(s, w) + [w] }

  function Reversed<T>(s: seq<T>): seq<T>
  {
    if s == [] then [] else Reversed(s[1..]) + [s[0]]
  }

  /** The elements that are in `keep`, in order. */
  function Kept<T(==)>(s: seq<T>, keep: seq<T>): seq<T>
  {
    if s == [] then [] else (if s[0] in keep then [s[0]] else []) + Kept(s[1..], keep)
  }

  predicate Distinct<T(==)>(s: seq<T>)
  {
    forall i, j :: 0 <= i < j < |s| ==> s[i] != s[j]
  }

  lemma {:induction false} DistinctWithout<T>(s: seq<T>, w: T)
    requires Distinct(s)
    ensures Distinct(Without(s, w))
  {
    if s != [] {
      DistinctWithout(s[1..], w);
      assert s[0] !in s[1..];
    }
  }

  lemma Unfold<T>(x: T, s: seq<T>, w: T, keep: seq<T>)
    ensures Without([x] + s, w) == (if x == w then [] else [x]) + Without(s, w)
    ensures Kept([x] + s, keep) == (if x in keep then [x] else []) + Kept(s, keep)
    ensures Reversed([x] + s) == Reversed(s) + [x]
  {
    assert ([x] + s)[1..] == s;
  }

  lemma {:induction false} WithoutLast<T>(s: seq<T>, x: T, w: T)
    ensures Without(s + [x], w) == Without(s, w) + if x == w then [] else [x]
  {
    if s == [] {
      assert s + [x] == [x] && Without([], w) == [];
    } else {
      hide *;
      var h, t := s[0], s[1..];
      WithoutLast(t, x, w);
      assert s == [h] + t && s + [x] == [h] + (t + [x]);
      Unfold(h, t, w, []);
      Unfold(h, t + [x], w, []);
      Associative(if h == w then [] else [h], Without(t, w), if x == w then [] else [x]);
    }
  }

  lemma Associative<T>(a: seq<T>, b: seq<T>, c: seq<T>)
    ensures a + (b + c) == a + b + c
  {
  }

  lemma {:induction false} WithoutReversed<T>(s: seq<T>, w: T)
    ensures Without(Reversed(s), w) == Reversed(Without(s, w))
  {
    if s != [] {
      var h, t := s[0], s[1..];
      WithoutReversed(t, w);
      WithoutLast(Reversed(t), h, w);
      assert s == [h] + t;
      Unfold(h, t, w, []);
      Unfold(h, Without(t, w), w, []);
      hide Without;
      hide Reversed;
      assert h == w ==> [] + Without(t, w) == Without(t, w);
    }
  }

  lemma {:induction false} KeptLast<T>(s: seq<T>, x: T, keep: seq<T>)
    ensures Kept(s + [x], keep) == Kept(s, keep) + if x in keep then [x] else []
  {
    if s == [] {
      assert s + [x] == [x] && Kept([], keep) == [];
    } else {
      hide *;
      var h, t := s[0], s[1..];
      KeptLast(t, x, keep);
      assert s == [h] + t && s + [x] == [h] + (t + [x]);
      Unfold(h, t, x, keep);
      Unfold(h, t + [x], x, keep);
      Associative(if h in keep then [h] else [], Kept(t, keep), if x in keep then [x] else []);
    }
  }

  /** Removing an element from the scene, or from what is kept, removes it from the kept nodes. */
  lemma {:induction false} KeptWithout<T>(s: seq<T>, keep: seq<T>, w: T)
    ensures Kept(Without(s, w), keep) == Without(Kept(s, keep), w)
    ensures Kept(s, Without(keep, w)) == Without(Kept(s, keep), w)
  {
    if s != [] {
      var h, t := s[0], s[1..];
      KeptWithout(t, keep, w);
      KeptWithoutHead(h, t, keep, w);
      assert s == [h] + t;
    }
  }

  lemma KeptWithoutHead<T>(h: T, t: seq<T>, keep: seq<T>, w: T)
    requires Kept(Without(t, w), keep) == Without(Kept(t, keep), w)
    requires Kept(t, Without(keep, w)) == Without(Kept(t, keep), w)
    ensures Kept(Without([h] + t, w), keep) == Without(Kept([h] + t, keep), w)
    ensures Kept([h] + t, Without(keep, w)) == Without(Kept([h] + t, keep), w)
  {
    Unfold(h, t, w, keep);
    Unfold(h, t, w, Without(keep, w));
    Unfold(h, Without(t, w), w, keep);
    Unfold(h, Kept(t, keep), w, keep);
    hide Without;
    hide Kept;
    assert [] + Without(t, w) == Without(t, w) && [] + Kept(t, keep) == Kept(t, keep);
    assert [] + Without(Kept(t, keep), w) == Without(Kept(t, keep), w);
  }

  lemma DistinctFronted<T>(s: seq<T>, w: T)
    requires Distinct(s)
    ensures Distinct(Fronted(s, w))
  {
    DistinctWithout(s, w);
  }

  lemma DistinctRaised<T>(s: seq<T>, w: T)
    requires Distinct(s)
    ensures Distinct(Raised(s, w))
  {
    DistinctWithout(s, w);
  }

  lemma {:induction false} KeptSame<T>(s: seq<T>, a: seq<T>, b: seq<T>)
    requires forall x <- s :: x in a <==> x in b
    ensures Kept(s, a) == Kept(s, b)
  {
    if s != [] {
      KeptSame(s[1..], a, b);
    }
  }

  /** The stacking of everything but `w` is the reverse of the list without it. */
  predicate OthersStacked<T(==)>(scene: seq<T>, tops: seq<T>, w: T)
  {
    Kept(Without(scene, w), Without(tops, w)) == Reversed(Without(tops, w))
  }

  lemma StackedOthers<T>(scene: seq<T>, tops: seq<T>, w: T)
    requires Kept(scene, tops) == Reversed(tops)
    ensures OthersStacked(scene, tops, w)
  {
    KeptWithout(scene, tops, w);
    KeptSame(Without(scene, w), Without(tops, w), tops);
    WithoutReversed(tops, w);
  }

  /** Raising the window that is moved to the front makes the stacking the reverse of the list. */
  lemma StackFronted<T>(scene: seq<T>, tops: seq<T>, w: T)
    requires OthersStacked(scene, tops, w)
    ensures Kept(Raised(scene, w), Fronted(tops, w)) == Reversed(Fronted(tops, w))
  {
    var rest := Without(scene, w);
    KeptLast(rest, w, Fronted(tops, w));
    KeptSame(rest, Fronted(tops, w), Without(tops, w));
    Unfold(w, Without(tops, w), w, []);
  }

  /** A window put in front of the list leaves the stacking of the others. */
  lemma StackMapped<T>(scene: seq<T>, tops: seq<T>, w: T)
    requires Kept(scene, tops) == Reversed(tops) && w !in tops
    ensures Without([w] + tops, w) == tops && OthersStacked(scene, [w] + tops, w)
  {
    StackedOthers(scene, tops, w);
    Unfold(w, tops, w, []);
    assert [] + tops == tops;
  }

  lemma StackWithout<T>(scene: seq<T>, tops: seq<T>, w: T)
    requires Kept(scene, tops) == Reversed(tops)
    ensures Kept(scene, Without(tops, w)) == Reversed(Without(tops, w))
  {
    KeptWithout(scene, tops, w);
    WithoutReversed(tops, w);
  }

  // ---------------------------------------------------------------- switching

  /** The switch key: the least recently used window comes to the front. */
  function Switched<T(==)>(s: seq<T>): seq<T>
  {
    if s == [] then [] else Fronted(s, s[|s| - 1])
  }

  function SwitchedTimes<T(==)>(s: seq<T>, n: nat): seq<T>
  {
    if n == 0 then s else Switched(SwitchedTimes(s, n - 1))
  }

  /** Pressing switch `n` times on `m` windows: the `k`-th press focuses the `k`-th window from the
      end of the list, and `m` presses restore the order. */
  lemma {:induction false} SwitchRotates<T>(s: seq<T>, n: nat)
    requires Distinct(s) && n <= |s|
    ensures SwitchedTimes(s, n) == s[|s| - n..] + s[..|s| - n]
    ensures n > 0 ==> SwitchedTimes(s, n)[0] == s[|s| - n]
    ensures n == |s| ==> SwitchedTimes(s, n) == s
  {
    hide Distinct;
    hide Switched;
    if n == 0 {
      assert s[|s|..] + s[..|s|] == s;
    } else {
      SwitchRotates(s, n - 1);
      SwitchOnce(s, |s| - n);
    }
  }

  lemma SwitchOnce<T>(s: seq<T>, i: nat)
    requires Distinct(s) && i < |s|
    ensures Switched(s[i + 1..] + s[..i + 1]) == s[i..] + s[..i]
  {
    var a, b, x := s[i + 1..], s[..i], s[i];
    assert s[..i + 1] == b + [x] && s[i..] == [x] + a;
    Associative(a, b, [x]);
    SwitchLast(a + b, x);
    Associative([x], a, b);
  }

  lemma SwitchLast<T>(q: seq<T>, x: T)
    requires x !in q
    ensures Switched(q + [x]) == [x] + q
  {
    WithoutLast(q, x, x);
    assert Without(q, x) == q && q + [] == q;
    hide Without;
    assert (q + [x])[|q|] == x;
  }

  // ---------------------------------------------------------------- the desk

  /** An application window: what its client sees (activated) and what the task switcher sees (the
      foreign-toplevel handle, with its own activated flag). */
  datatype Win = Win(launcher: bool, activated: bool, handle: Option<bool>)
  {
    function Lit(on: bool): Win
    {
      Win(launcher, on, if handle.Some? then Some(on) else None)
    }
  }

  /** What a shell surface last committed: whether it is mapped and wants the keyboard for itself. */
  datatype LayerState = LayerState(mapped: bool, exclusive: bool)

  datatype Focus = Nobody | Window(t: nat) | Layer(l: nat)

  datatype Event =
    | Create(t: nat)
    | Map(t: nat, launcher: bool, created: bool)
    | Unmap(t: nat)
    | Destroy(t: nat)
    | Activate(t: nat)
    | Home
    | Switch
    | LayerMap(l: nat, exclusive: bool)
    | LayerUnmap(l: nat)
    | LayerCommit(l: nat, exclusive: bool)
    | LayerDestroy(l: nat)

  /** The compositor: mapped windows, most recently used first; the scene nodes of all windows,
      bottom to top; the windows and shell surfaces by id; the keyboard focus; the recorded modal. */
  datatype Desk = Desk(tops: seq<nat>, apps: seq<nat>, wins: map<nat, Win>, layers: map<nat, LayerState>,
                       keyboard: Focus, modal: Option<nat>)
  {
    /** Activate one mapped window alone. */
    function Activated(t: nat): Desk
    {
      this.(wins := map x <- wins :: if x in tops then wins[x].Lit(x == t) else wins[x])
    }

    /** Raise a window, make it the most recent, give it the keyboard and activate it alone. */
    function Focused(t: nat): Desk
    {
      this.(tops := Fronted(tops, t), apps := Raised(apps, t), keyboard := Window(t)).Activated(t)
    }

    function Mapped(t: nat, launcher: bool, created: bool): Desk
      requires t in wins
    {
      this.(tops := [t] + tops, wins := wins[t := Win(launcher, wins[t].activated, if created then Some(false) else None)]).Focused(t)
    }

    function Removed(t: nat): Desk
      requires t in wins
    {
      this.(tops := Without(tops, t), wins := wins[t := wins[t].(handle := None)])
    }

    function Unmapped(t: nat): Desk
      requires t in wins
    {
      var r := Removed(t);
      if tops != [] && tops[0] == t && r.tops != [] then r.Focused(r.tops[0]) else r
    }

    function Destroyed(t: nat): Desk
    {
      Desk(tops, Without(apps, t), wins - {t}, layers, if keyboard == Window(t) then Nobody else keyboard, modal)
    }

    /** The first launcher in the list from `i` on, or the length. */
    function Launcher(i: nat): (r: nat)
      requires i <= |tops| && forall t <- tops :: t in wins
      ensures i <= r <= |tops|
      decreases |tops| - i
    {
      if i == |tops| || wins[tops[i]].launcher then i else Launcher(i + 1)
    }

    function GoneHome(): Desk
      requires forall t <- tops :: t in wins
    {
      var i := Launcher(0);
      if i < |tops| then Focused(tops[i]) else this
    }

    function Rotated(): Desk
    {
      if tops == [] then this else Focused(tops[|tops| - 1])
    }

    /** A mapped shell surface that wants the keyboard gets it and is recorded as modal. */
    function Synced(l: nat): Desk
      requires l in layers
    {
      if layers[l].exclusive then this.(keyboard := Layer(l), modal := Some(l)) else this
    }

    /** The recorded modal goes: the front window gets the keyboard back. */
    function Released(l: nat): Desk
    {
      if modal != Some(l) then this
      else
        var r := this.(modal := None);
        if tops != [] then r.Focused(tops[0]) else r
    }

    function LayerUnmapped(l: nat): Desk
      requires l in layers
    {
      this.(layers := layers[l := layers[l].(mapped := false)]).Released(l)
    }

    function LayerCommitted(l: nat, exclusive: bool): Desk
      requires l in layers
    {
      var r := this.(layers := layers[l := layers[l].(exclusive := exclusive)]);
      if !layers[l].mapped then r else if exclusive then r.Synced(l) else r.Released(l)
    }

    function LayerDestroyed(l: nat): Desk
    {
      this.(layers := layers - {l}).Released(l)
    }

    /** What clients and users can do in a state. */
    predicate Can(e: Event)
    {
      match e
      case Create(t) => t !in apps
      case Map(t, _, _) => t in apps && t !in tops
      case Unmap(t) => t in tops
      case Destroy(t) => t in apps && t !in tops
      case Activate(t) => t in tops && t in wins && wins[t].handle.Some?
      case LayerMap(l, _) => l in layers ==> !layers[l].mapped
      case LayerUnmap(l) => l in layers && layers[l].mapped
      case LayerCommit(l, _) => l in layers
      case LayerDestroy(l) => l in layers
      case _ => true
    }

    function Next(e: Event): Desk
      requires (forall t <- tops :: t in apps) && (forall t <- apps :: t in wins) && Can(e)
    {
      match e
      case Create(t) => this.(apps := apps + [t], wins := wins[t := Win(false, false, None)])
      case Map(t, launcher, created) => Mapped(t, launcher, created)
      case Unmap(t) => Unmapped(t)
      case Destroy(t) => Destroyed(t)
      case Activate(t) => Focused(t)
      case Home => GoneHome()
      case Switch => Rotated()
      case LayerMap(l, exclusive) => this.(layers := layers[l := LayerState(true, exclusive)]).Synced(l)
      case LayerUnmap(l) => LayerUnmapped(l)
      case LayerCommit(l, exclusive) => LayerCommitted(l, exclusive)
      case LayerDestroy(l) => LayerDestroyed(l)
    }

    // -------------------------------------------------------------- what always holds

    /** Neither list repeats a window; every mapped window has a node; every node is of a window. */
    predicate Lists()
    {
      Distinct(tops) && Distinct(apps) && (forall t <- tops :: t in apps) && forall t <- apps :: t in wins
    }

    /** The mapped windows are stacked in the order of the list. */
    predicate Stacked() { Kept(apps, tops) == Reversed(tops) }

    /** Only the front window is activated. */
    predicate Active()
      requires Lists()
    {
      forall t <- tops :: wins[t].activated == (t == tops[0])
    }

    /** Handles exist for mapped windows only, and show their activated state. */
    predicate Handles()
      requires Lists()
    {
      forall t <- apps :: wins[t].handle.Some? ==> t in tops && wins[t].handle.value == wins[t].activated
    }

    /** A recorded modal is mapped and wants the keyboard. */
    predicate Modal() { modal.Some? ==> modal.value in layers && layers[modal.value] == LayerState(true, true) }

    /** Without a recorded modal the keyboard is on the front window. */
    predicate Keyboard() { modal == None && tops != [] ==> keyboard == Window(tops[0]) }

    predicate Good() { Lists() && Stacked() && Active() && Handles() && Modal() && Keyboard() }

    /** A recorded modal has the keyboard. */
    predicate ModalHeld() { modal.Some? ==> keyboard == Layer(modal.value) }

    /** A window is in front: activated, with the keyboard. */
    predicate InFront(t: nat) { t in wins && wins[t].activated && keyboard == Window(t) }

    /** All is well but for the place and the flags of a window about to be focused. */
    predicate Ready(t: nat)
    {
      && Lists() && OthersStacked(apps, tops, t) && t in tops
      && (forall x <- apps :: wins[x].handle.Some? ==> x in tops)
      && Modal()
    }
  }

  // ---------------------------------------------------------------- what every event keeps

  lemma FocusedGood(d: Desk, t: nat)
    requires d.Ready(t)
    ensures d.Focused(t).Good()
  {
    FocusedLists(d, t);
    StackFronted(d.apps, d.tops, t);
    hide Kept;
    hide Reversed;
    hide Distinct;
    hide OthersStacked;
    FocusedFlags(d, t);
  }

  lemma FocusedLists(d: Desk, t: nat)
    requires d.Lists() && t in d.tops
    ensures d.Focused(t).Lists()
    ensures forall x :: x in Fronted(d.tops, t) <==> x in d.tops
  {
    DistinctFronted(d.tops, t);
    DistinctRaised(d.apps, t);
    hide Distinct;
  }

  lemma FocusedFlags(d: Desk, t: nat)
    requires d.Lists() && t in d.tops && d.Focused(t).Lists()
    requires forall x <- d.apps :: d.wins[x].handle.Some? ==> x in d.tops
    ensures d.Focused(t).Active() && d.Focused(t).Handles()
  {
    var r := d.Focused(t);
    hide Distinct;
    assert forall x <- r.tops :: r.wins[x] == d.wins[x].Lit(x == t);
    forall x <- r.apps | r.wins[x].handle.Some?
      ensures x in r.tops
    {
      assert d.wins[x].handle.Some?;
    }
  }

  lemma MappedGood(d: Desk, t: nat, launcher: bool, created: bool)
    requires d.Good() && t in d.apps && t !in d.tops
    ensures d.Mapped(t, launcher, created).Good()
  {
    InsertedReady(d, t, Win(launcher, d.wins[t].activated, if created then Some(false) else None));
    hide Desk.Ready;
    hide Desk.Good;
    hide Desk.Focused;
    FocusedGood(d.(tops := [t] + d.tops, wins := d.wins[t := Win(launcher, d.wins[t].activated, if created then Some(false) else None)]), t);
  }

  lemma InsertedReady(d: Desk, t: nat, w: Win)
    requires d.Good() && t in d.apps && t !in d.tops
    ensures d.(tops := [t] + d.tops, wins := d.wins[t := w]).Ready(t)
  {
    StackMapped(d.apps, d.tops, t);
    DistinctMapped(d.tops, t);
    hide Kept;
    hide Reversed;
    hide OthersStacked;
    hide Distinct;
  }

  lemma DistinctMapped<T>(s: seq<T>, w: T)
    requires Distinct(s) && w !in s
    ensures Distinct([w] + s)
  {
  }

  lemma Refocus(d: Desk, t: nat)
    requires d.Lists() && d.Stacked() && d.Handles() && d.Modal() && t in d.tops
    ensures d.Focused(t).Good()
  {
    StackedOthers(d.apps, d.tops, t);
    FocusedGood(d, t);
  }

  lemma RemovedKeeps(d: Desk, t: nat)
    requires d.Good() && t in d.tops
    ensures var r := d.Removed(t);
            r.Lists() && r.Stacked() && r.Handles() && r.Modal() && (d.tops[0] != t ==> r.Good())
  {
    var r := d.Removed(t);
    StackWithout(d.apps, d.tops, t);
    DistinctWithout(d.tops, t);
    hide Kept;
    hide Reversed;
    hide Distinct;
    if d.tops[0] != t {
      WithoutHead(d.tops, t);
    }
    hide Without;
    forall x <- r.apps | r.wins[x].handle.Some?
      ensures x in r.tops
    {
      assert x != t;
    }
  }

  lemma WithoutHead<T>(s: seq<T>, w: T)
    requires s != [] && s[0] != w
    ensures Without(s, w) != [] && Without(s, w)[0] == s[0]
  {
  }

  lemma UnmappedGood(d: Desk, t: nat)
    requires d.Good() && t in d.tops
    ensures d.Unmapped(t).Good()
  {
    RemovedKeeps(d, t);
    var r := d.Removed(t);
    hide Desk.Removed;
    hide Desk.Focused;
    if d.tops[0] == t && r.tops != [] {
      Refocus(r, r.tops[0]);
    }
  }

  lemma DestroyedGood(d: Desk, t: nat)
    requires d.Good() && t in d.apps && t !in d.tops
    ensures d.Destroyed(t).Good()
  {
    StackDestroyed(d.apps, d.tops, t);
    DestroyedLists(d, t);
    hide Desk.Lists;
    hide Kept;
    hide Reversed;
    hide Distinct;
  }

  lemma DestroyedLists(d: Desk, t: nat)
    requires d.Good() && t in d.apps && t !in d.tops
    ensures var r := d.Destroyed(t); r.Lists() && r.Active() && r.Handles()
  {
    DistinctWithout(d.apps, t);
    hide Kept;
    hide Reversed;
    hide Distinct;
    hide Without;
  }

  lemma StackDestroyed<T>(scene: seq<T>, tops: seq<T>, w: T)
    requires Kept(scene, tops) == Reversed(tops) && w !in tops
    ensures Kept(Without(scene, w), tops) == Reversed(tops)
  {
    KeptWithout(scene, tops, w);
    WithoutReversed(tops, w);
    assert Without(tops, w) == tops;
    hide Kept;
    hide Reversed;
  }

  lemma CreatedGood(d: Desk, t: nat)
    requires d.Good() && t !in d.apps
    ensures d.Next(Create(t)).Good()
  {
    var r := d.Next(Create(t));
    KeptLast(d.apps, t, d.tops);
    assert r.Stacked();
    hide Kept;
    hide Reversed;
  }

  lemma ReleasedGood(d: Desk, l: nat)
    requires d.Lists() && d.Stacked() && d.Active() && d.Handles() && d.Keyboard()
    requires d.modal != Some(l) ==> d.Modal()
    ensures d.Released(l).Good()
  {
    var r := d.(modal := None);
    if d.modal == Some(l) && d.tops != [] {
      Refocus(r, d.tops[0]);
    }
  }

  lemma NextGood(d: Desk, e: Event)
    requires d.Good() && d.Can(e)
    ensures d.Next(e).Good()
  {
    hide Desk.Focused;
    hide Desk.Released;
    hide Desk.Mapped;
    hide Desk.Unmapped;
    hide Desk.Destroyed;
    hide Desk.Launcher;
    hide Distinct;
    hide Kept;
    hide Reversed;
    hide Without;
    match e
    case Create(t) => CreatedGood(d, t);
    case Map(t, launcher, created) => MappedGood(d, t, launcher, created);
    case Unmap(t) => UnmappedGood(d, t);
    case Destroy(t) => DestroyedGood(d, t);
    case Activate(t) => Refocus(d, t);
    case Home =>
      if d.Launcher(0) < |d.tops| {
        Refocus(d, d.tops[d.Launcher(0)]);
      }
    case Switch =>
      if d.tops != [] {
        Refocus(d, d.tops[|d.tops| - 1]);
      }
    case LayerMap(l, exclusive) =>
    case LayerUnmap(l) => ReleasedGood(d.(layers := d.layers[l := d.layers[l].(mapped := false)]), l);
    case LayerCommit(l, exclusive) => ReleasedGood(d.(layers := d.layers[l := d.layers[l].(exclusive := exclusive)]), l);
    case LayerDestroy(l) => ReleasedGood(d.(layers := d.layers - {l}), l);
  }

  // ---------------------------------------------------------------- what each event is for

  /** A focused window is in front; the other windows keep their order. */
  lemma FocusedInFront(d: Desk, t: nat)
    requires d.Lists() && t in d.tops
    ensures d.Focused(t).InFront(t) && d.Focused(t).tops == Fronted(d.tops, t)
  {
  }

  /** A window that maps is in front of all others, whether or not a modal is recorded. */
  lemma MappedInFront(d: Desk, t: nat, launcher: bool, created: bool)
    requires d.Good() && t in d.apps && t !in d.tops
    ensures var r := d.Mapped(t, launcher, created); r.tops == [t] + d.tops && r.InFront(t)
  {
    StackMapped(d.apps, d.tops, t);
    hide Kept;
    hide Reversed;
    hide OthersStacked;
    hide Distinct;
  }

  /** The task switcher brings the chosen window to the front; the others keep their order. */
  lemma ActivateBringsForward(d: Desk, t: nat)
    requires d.Good() && d.Can(Activate(t))
    ensures var r := d.Next(Activate(t)); r.InFront(t) && r.tops == [t] + Without(d.tops, t) && r.modal == d.modal
  {
    FocusedInFront(d, t);
    hide Desk.Focused;
    FocusGives();
  }

  /** A window that unmaps leaves the others in order. */
  lemma UnmappedKeepsOrder(d: Desk, t: nat)
    requires d.Good() && t in d.tops
    ensures d.Unmapped(t).tops == Without(d.tops, t)
  {
    DistinctWithout(d.tops, t);
    hide Kept;
    hide Reversed;
    if Without(d.tops, t) != [] {
      FrontedHead(Without(d.tops, t));
    }
    hide Without;
  }

  lemma FrontedHead<T>(s: seq<T>)
    requires s != [] && Distinct(s)
    ensures Fronted(s, s[0]) == s
  {
    assert s == [s[0]] + s[1..];
    assert s[0] !in s[1..];
    Unfold(s[0], s[1..], s[0], []);
    assert [] + s[1..] == s[1..];
  }

  /** Home brings the most recent launcher window to the front; without one nothing happens. */
  lemma HomeShowsLauncher(d: Desk, i: nat)
    requires d.Good() && i <= |d.tops| && forall j :: 0 <= j < i ==> !d.wins[d.tops[j]].launcher
    requires i < |d.tops| ==> d.wins[d.tops[i]].launcher
    ensures if i == |d.tops| then d.GoneHome() == d
            else d.GoneHome().InFront(d.tops[i]) && d.GoneHome().tops == Fronted(d.tops, d.tops[i])
  {
    LauncherIs(d, 0, i);
    hide Desk.Launcher;
    if i < |d.tops| {
      FocusedInFront(d, d.tops[i]);
    }
    hide Desk.Focused;
  }

  lemma {:induction false} LauncherIs(d: Desk, k: nat, i: nat)
    requires k <= i <= |d.tops| && (forall t <- d.tops :: t in d.wins)
    requires forall j :: k <= j < i ==> !d.wins[d.tops[j]].launcher
    requires i < |d.tops| ==> d.wins[d.tops[i]].launcher
    ensures d.Launcher(k) == i
    decreases i - k
  {
    if k < i {
      LauncherIs(d, k + 1, i);
    }
  }

  /** A mapped shell surface that asks for the keyboard gets it and is the modal; the windows are
      as they were. */
  lemma ModalTakesKeyboard(d: Desk, e: Event)
    requires d.Good() && d.Can(e)
    requires (e.LayerMap? && e.exclusive) || (e.LayerCommit? && e.exclusive && d.layers[e.l].mapped)
    ensures var r := d.Next(e);
            r.keyboard == Layer(e.l) && r.modal == Some(e.l) && r.tops == d.tops && r.apps == d.apps && r.wins == d.wins
  {
  }

  /** The event focuses a window: a window maps or is chosen from the switcher, the user goes home or
      on to the next window, or the front window goes and leaves another. */
  predicate TakesKeyboard(d: Desk, e: Event)
    requires forall t <- d.tops :: t in d.wins
  {
    match e
    case Map(_, _, _) => true
    case Activate(_) => true
    case Home => exists t <- d.tops :: d.wins[t].launcher
    case Switch => d.tops != []
    case Unmap(t) => d.tops != [] && d.tops[0] == t && |d.tops| > 1
    case _ => false
  }

  /** A modal that has the keyboard loses it exactly to a window that is focused: none of the ways to
      focus one looks at the modal. Another layer that takes the keyboard is the modal then. */
  lemma ModalHeldExactlyWhen(d: Desk, e: Event)
    requires d.Good() && d.Can(e) && d.ModalHeld()
    ensures d.Next(e).ModalHeld() <==> d.modal == None || !TakesKeyboard(d, e)
  {
    hide Desk.Next;
    hide Desk.ModalHeld;
    hide TakesKeyboard;
    if e.LayerMap? || e.LayerUnmap? || e.LayerCommit? || e.LayerDestroy? {
      LayerEventsHold(d, e);
    } else {
      WindowEventsTake(d, e);
    }
  }

  /** Layer events leave the modal, if one is recorded then, with the keyboard. */
  lemma LayerEventsHold(d: Desk, e: Event)
    requires d.Good() && d.Can(e) && d.ModalHeld() && (e.LayerMap? || e.LayerUnmap? || e.LayerCommit? || e.LayerDestroy?)
    ensures d.Next(e).ModalHeld() && !TakesKeyboard(d, e)
  {
    FocusGives();
    hide Desk.Focused;
    hide Desk.Stacked;
    hide Desk.Active;
    hide Desk.Handles;
    hide Distinct;
  }

  /** Window events take the keyboard exactly if they focus a window; the modal stays recorded. */
  lemma WindowEventsTake(d: Desk, e: Event)
    requires d.Good() && d.Can(e) && !e.LayerMap? && !e.LayerUnmap? && !e.LayerCommit? && !e.LayerDestroy?
    requires d.ModalHeld()
    ensures d.Next(e).ModalHeld() <==> d.modal == None || !TakesKeyboard(d, e)
  {
    FocusGives();
    hide Desk.Focused;
    HomeFocuses(d);
    if e.Unmap? {
      UnmapFocuses(d, e.t);
    }
    hide Desk.GoneHome;
    hide Desk.Unmapped;
    hide Desk.Stacked;
    hide Desk.Active;
    hide Desk.Handles;
    hide Distinct;
    hide Without;
  }

  lemma HomeFocuses(d: Desk)
    requires forall t <- d.tops :: t in d.wins
    ensures if exists t <- d.tops :: d.wins[t].launcher then d.GoneHome().keyboard.Window? && d.GoneHome().modal == d.modal
            else d.GoneHome() == d
  {
    FocusGives();
    hide Desk.Focused;
    LauncherFound(d, 0);
    hide Desk.Launcher;
  }

  lemma UnmapFocuses(d: Desk, t: nat)
    requires Distinct(d.tops) && t in d.tops && t in d.wins
    ensures var r := d.Unmapped(t);
            r.modal == d.modal && if d.tops[0] == t && |d.tops| > 1 then r.keyboard.Window? else r.keyboard == d.keyboard
  {
    FocusGives();
    hide Desk.Focused;
    WithoutEmpty(d.tops, d.tops[0]);
    hide Without;
    hide Distinct;
  }

  /** Focusing a window gives it the keyboard and leaves the modal recorded. */
  lemma FocusGives()
    ensures forall d: Desk, t: nat :: d.Focused(t).keyboard == Window(t) && d.Focused(t).modal == d.modal
  {
  }

  /** `Launcher` looks for a launcher. */
  lemma {:induction false} LauncherFound(d: Desk, k: nat)
    requires k <= |d.tops| && forall t <- d.tops :: t in d.wins
    ensures d.Launcher(k) < |d.tops| <==> exists j :: k <= j < |d.tops| && d.wins[d.tops[j]].launcher
    decreases |d.tops| - k
  {
    if k < |d.tops| && !d.wins[d.tops[k]].launcher {
      LauncherFound(d, k + 1);
    }
  }

  /** Taking the front window away leaves another if there are more than one. */
  lemma WithoutEmpty<T>(s: seq<T>, w: T)
    requires Distinct(s) && s != [] && s[0] == w
    ensures Without(s, w) == s[1..]
  {
    FrontedHead(s);
  }

  /** When the modal unmaps, stops asking or goes, the front window gets the keyboard back, and the
      order of the windows is as it was. */
  lemma ModalGivesBack(d: Desk, e: Event)
    requires d.Good() && d.Can(e) && d.modal.Some?
    requires e == LayerUnmap(d.modal.value) || e == LayerCommit(d.modal.value, false) || e == LayerDestroy(d.modal.value)
    ensures var r := d.Next(e); r.modal == None && r.tops == d.tops && (d.tops != [] ==> r.InFront(d.tops[0]))
  {
    hide Desk.Released;
    match e
    case LayerUnmap(l) => ReleasedInFront(d.(layers := d.layers[l := d.layers[l].(mapped := false)]), l);
    case LayerCommit(l, _) => ReleasedInFront(d.(layers := d.layers[l := d.layers[l].(exclusive := false)]), l);
    case LayerDestroy(l) => ReleasedInFront(d.(layers := d.layers - {l}), l);
  }

  lemma ReleasedInFront(d: Desk, l: nat)
    requires d.Lists() && d.modal == Some(l)
    ensures var r := d.Released(l); r.modal == None && r.tops == d.tops && (d.tops != [] ==> r.InFront(d.tops[0]))
  {
    if d.tops != [] {
      FrontedHead(d.tops);
      FocusedInFront(d.(modal := None), d.tops[0]);
    }
    hide Fronted;
    hide Desk.InFront;
  }

  // ---------------------------------------------------------------- every run

  const EMPTY := Desk([], [], map[], map[], Nobody, None)

  ghost predicate Reaches(d: Desk, es: seq<Event>, r: Desk)
    decreases |es|
  {
    if es == [] then r == d
    else d.Lists() && d.Can(es[0]) && Reaches(d.Next(es[0]), es[1..], r)
  }

  /** In every state the compositor can reach from the start. */
  lemma {:induction false} RunGood(d: Desk, es: seq<Event>, r: Desk)
    requires d.Good() && Reaches(d, es, r)
    ensures r.Good()
    decreases |es|
  {
    hide Desk.Good;
    hide Desk.Can;
    hide Desk.Next;
    if es != [] {
      NextGood(d, es[0]);
      RunGood(d.Next(es[0]), es[1..], r);
    }
  }

  /** No event of the run focuses a window while a modal is recorded. */
  predicate Undisturbed(d: Desk, es: seq<Event>)
    requires d.Good()
    decreases |es|
  {
    es == [] ||
    (d.Can(es[0]) && (d.modal == None || !TakesKeyboard(d, es[0])) && (NextGood(d, es[0]); Undisturbed(d.Next(es[0]), es[1..])))
  }

  /** Through any run that focuses no window while a modal is recorded, the modal has the keyboard. */
  lemma {:induction false} UndisturbedModalHeld(d: Desk, es: seq<Event>, r: Desk)
    requires d.Good() && d.ModalHeld() && Reaches(d, es, r) && Undisturbed(d, es)
    ensures r.ModalHeld()
    decreases |es|
  {
    hide Desk.Good;
    hide Desk.Can;
    hide Desk.Next;
    hide Desk.ModalHeld;
    hide TakesKeyboard;
    if es != [] {
      NextGood(d, es[0]);
      ModalHeldExactlyWhen(d, es[0]);
      UndisturbedModalHeld(d.Next(es[0]), es[1..], r);
    }
  }

  function RotatedTimes(d: Desk, n: nat): Desk
  {
    if n == 0 then d else RotatedTimes(d, n - 1).Rotated()
  }

  /** The switch key pressed once for every window: the `n`-th press activates the `n`-th window from
      the back of the list and gives it the keyboard, and the last press restores list and stacking. */
  lemma {:induction false} SwitchVisitsAll(d: Desk, n: nat)
    requires d.Good() && 0 < n <= |d.tops|
    ensures var r := RotatedTimes(d, n);
            && r.Good() && r.InFront(d.tops[|d.tops| - n])
            && r.tops == d.tops[|d.tops| - n..] + d.tops[..|d.tops| - n]
            && (n == |d.tops| ==> r.tops == d.tops && Kept(r.apps, r.tops) == Kept(d.apps, d.tops))
  {
    hide *;
    RotatedKeeps(d, n);
    GoodStacked(d);
    GoodStacked(RotatedTimes(d, n));
    SwitchRotates(d.tops, n);
  }

  lemma GoodStacked(d: Desk)
    requires d.Good()
    ensures Distinct(d.tops) && Kept(d.apps, d.tops) == Reversed(d.tops)
  {
  }

  lemma {:induction false} RotatedKeeps(d: Desk, n: nat)
    requires d.Good()
    ensures var r := RotatedTimes(d, n);
            r.Good() && r.tops == SwitchedTimes(d.tops, n) && (n > 0 && d.tops != [] ==> r.tops != [] && r.InFront(r.tops[0]))
  {
    hide Desk.Good;
    hide Desk.Rotated;
    hide Desk.InFront;
    hide Switched;
    if n > 0 {
      RotatedKeeps(d, n - 1);
      RotatedStep(RotatedTimes(d, n - 1));
    }
  }

  lemma RotatedStep(d: Desk)
    requires d.Good()
    ensures var r := d.Rotated();
            r.Good() && r.tops == Switched(d.tops) && (d.tops != [] ==> r.tops != [] && r.InFront(r.tops[0]))
    ensures d.tops == [] <==> Switched(d.tops) == []
  {
    NextGood(d, Switch);
    assert d.Next(Switch) == d.Rotated();
    hide Kept;
    hide Reversed;
    hide Distinct;
    hide Without;
  }

  // ---------------------------------------------------------------- the process

  class Server {
    var toplevels: seq<nat>
    var apps: seq<nat>
    var windows: map<nat, Win>
    var layers: map<nat, LayerState>
    var keyboard: Focus
    var focusedLayer: Option<nat>

    function Snapshot(): Desk
      reads this
    {
      Desk(toplevels, apps, windows, layers, keyboard, focusedLayer)
    }

    constructor ()
      ensures Snapshot() == EMPTY
    {
      toplevels, apps, windows, layers := [], [], map[], map[];
      keyboard, focusedLayer := Nobody, None;
    }

    /** Activate exactly one mapped window, on its client and on its handle. */
    method UpdateActivation(focused: nat)
      requires Distinct(toplevels) && forall t <- toplevels :: t in windows
      modifies this`windows
      ensures Snapshot() == old(Snapshot()).Activated(focused)
    {
      for i := 0 to |toplevels|
        invariant windows.Keys == old(windows).Keys
        invariant forall j :: 0 <= j < i ==> windows[toplevels[j]] == old(windows)[toplevels[j]].Lit(toplevels[j] == focused)
        invariant forall x <- windows :: x !in toplevels[..i] ==> windows[x] == old(windows)[x]
      {
        var t := toplevels[i];
        assert t !in toplevels[..i];
        windows := windows[t := windows[t].Lit(t == focused)];
        assert toplevels[..i + 1] == toplevels[..i] + [t];
      }
      assert toplevels[..|toplevels|] == toplevels;
    }

    method FocusToplevel(t: nat)
      requires t in toplevels && Snapshot().Lists()
      modifies this
      ensures Snapshot() == old(Snapshot()).Focused(t)
    {
      DistinctFronted(toplevels, t);
      apps := Without(apps, t) + [t];
      toplevels := [t] + Without(toplevels, t);
      keyboard := Window(t);
      UpdateActivation(t);
    }

    method HandleMap(t: nat, launcher: bool, created: bool)
      requires t in apps && t !in toplevels && Snapshot().Lists()
      modifies this
      ensures Snapshot() == old(Snapshot()).Mapped(t, launcher, created)
    {
      toplevels := [t] + toplevels;
      windows := windows[t := Win(launcher, windows[t].activated, if created then Some(false) else None)];
      FocusToplevel(t);
    }

    method HandleUnmap(t: nat)
      requires t in toplevels && Snapshot().Lists()
      modifies this
      ensures Snapshot() == old(Snapshot()).Unmapped(t)
    {
      var wasFront := toplevels != [] && toplevels[0] == t;
      DistinctWithout(toplevels, t);
      toplevels := Without(toplevels, t);
      windows := windows[t := windows[t].(handle := None)];
      if wasFront && toplevels != [] {
        FocusToplevel(toplevels[0]);
      }
    }

    method HandleDestroy(t: nat)
      modifies this
      ensures Snapshot() == old(Snapshot()).Destroyed(t)
    {
      apps := Without(apps, t);
      windows := windows - {t};
      if keyboard == Window(t) {
        keyboard := Nobody;
      }
    }

    /** The home key: the most recent launcher window comes to the front, if there is one. */
    method GoHome()
      requires Snapshot().Lists()
      modifies this
      ensures Snapshot() == old(Snapshot()).GoneHome()
    {
      for i := 0 to |toplevels|
        invariant Snapshot() == old(Snapshot()) && Snapshot().Launcher(0) == Snapshot().Launcher(i)
      {
        if windows[toplevels[i]].launcher {
          FocusToplevel(toplevels[i]);
          return;
        }
      }
    }

    /** The switch key: the least recently used window comes to the front. */
    method SwitchWindow()
      requires Snapshot().Lists()
      modifies this
      ensures Snapshot() == old(Snapshot()).Rotated()
    {
      if toplevels == [] {
        return;
      }
      FocusToplevel(toplevels[|toplevels| - 1]);
    }

    method SyncKeyboard(l: nat)
      requires l in layers
      modifies this`keyboard, this`focusedLayer
      ensures Snapshot() == old(Snapshot()).Synced(l)
    {
      if !layers[l].exclusive {
        return;
      }
      keyboard := Layer(l);
      focusedLayer := Some(l);
    }

    method ReleaseKeyboard(l: nat)
      requires Snapshot().Lists()
      modifies this
      ensures Snapshot() == old(Snapshot()).Released(l)
    {
      if focusedLayer != Some(l) {
        return;
      }
      focusedLayer := None;
      if toplevels != [] {
        FocusToplevel(toplevels[0]);
      }
    }

    method HandleLayerCommit(l: nat, exclusive: bool)
      requires l in layers && Snapshot().Lists()
      modifies this
      ensures Snapshot() == old(Snapshot()).LayerCommitted(l, exclusive)
    {
      layers := layers[l := layers[l].(exclusive := exclusive)];
      if layers[l].mapped {
        if exclusive {
          SyncKeyboard(l);
        } else if focusedLayer == Some(l) {
          ReleaseKeyboard(l);
        }
      }
    }

    /** One event. */
    method Handle(e: Event)
      requires Snapshot().Good() && Snapshot().Can(e)
      modifies this
      ensures Snapshot() == old(Snapshot()).Next(e) && Snapshot().Good()
    {
      NextGood(Snapshot(), e);
      hide Desk.Good;
      hide Desk.Focused;
      hide Desk.Mapped;
      hide Desk.Unmapped;
      hide Desk.Destroyed;
      hide Desk.Rotated;
      hide Desk.GoneHome;
      match e {
        case Create(t) => apps, windows := apps + [t], windows[t := Win(false, false, None)];
        case Map(t, launcher, created) => HandleMap(t, launcher, created);
        case Unmap(t) => HandleUnmap(t);
        case Destroy(t) => HandleDestroy(t);
        case Activate(t) => FocusToplevel(t);
        case Home => GoHome();
        case Switch => SwitchWindow();
        case LayerMap(l, exclusive) =>
          layers := layers[l := LayerState(true, exclusive)];
          SyncKeyboard(l);
        case LayerUnmap(l) =>
          layers := layers[l := layers[l].(mapped := false)];
          ReleaseKeyboard(l);
        case LayerCommit(l, exclusive) => HandleLayerCommit(l, exclusive);
        case LayerDestroy(l) =>
          layers := layers - {l};
          ReleaseKeyboard(l);
      }
    }
  }
}
