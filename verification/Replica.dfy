/** The shade's banners as a replica of the broker's notification store, over a FIFO connection. */
module Replica {
  import opened Broker
  import opened Shade

  /** The live notifications with an id of at least `since`. */
  function LiveSince(store: seq<Notification>, since: int): set<Face>
  {
    set n <- store | n.used && n.id >= since :: Face(n.id, n.app, n.content.card)
  }

  /** One message applied to an unbounded strip. */
  function Applied(m: set<Face>, msg: Notice): set<Face>
  {
    match msg
    case Show(id, app, card) => Without(m, id) + {Face(id, app, card)}
    case Hide(id) => Without(m, id)
    case Posted(_) => m
  }

  function Without(m: set<Face>, id: int): set<Face>
  {
    set f <- m | f.id != id
  }

  /** What the strip will show once the messages on their way have been read. */
  function Drained(m: set<Face>, feed: seq<Notice>): set<Face>
  {
    if feed == [] then m else Applied(Drained(m, feed[..|feed| - 1]), feed[|feed| - 1])
  }

  lemma {:induction false} DrainedJoin(m: set<Face>, a: seq<Notice>, b: seq<Notice>)
    ensures Drained(m, a + b) == Drained(Drained(m, a), b)
    decreases |b|
  {
    if b == [] {
      assert a + b == a;
    } else {
      DrainedJoin(m, a, b[..|b| - 1]);
      assert (a + b)[..|a + b| - 1] == a + b[..|b| - 1];
    }
  }

  lemma DrainedHead(m: set<Face>, feed: seq<Notice>)
    requires feed != []
    ensures Drained(m, feed) == Drained(Applied(m, feed[0]), feed[1..])
  {
    DrainedJoin(m, feed[..1], feed[1..]);
    assert feed == feed[..1] + feed[1..];
    assert feed[..1] == [feed[0]];
    assert [feed[0]][..0] == [];
  }

  /** The messages among new packets that go to the sink. */
  function News(sent: seq<Packet<Notice>>, sink: int): seq<Notice>
  {
    if sent == [] then []
    else News(sent[..|sent| - 1], sink) + if sent[|sent| - 1].fd == sink then [sent[|sent| - 1].body] else []
  }

  // ---------------------------------------------------------------- the shade's side

  /** The strip after reading one message. */
  function Read(bs: seq<Banner>, msg: Notice): (r: seq<Banner>)
    ensures |r| == |bs|
  {
    match msg
    case Show(id, app, card) => Shown(bs, Face(id, app, card))
    case Hide(id) => Hidden(bs, id)
    case Posted(_) => bs
  }

  /** A show that finds no banner of its id and no free slot. */
  predicate Overflows(bs: seq<Banner>, msg: Notice)
  {
    msg.Show? && FindBanner(bs, msg.id) == |bs| && FreeBanner(bs) == |bs|
  }

  lemma FacesUpdate(bs: seq<Banner>, i: nat, b: Banner)
    requires DistinctBanners(bs) && i < |bs|
    requires bs[i].used ==> b.id == bs[i].id
    requires !bs[i].used && b.used ==> FindBanner(bs, b.id) == |bs|
    ensures DistinctBanners(bs[i := b])
    ensures Faces(bs[i := b]) ==
              (if bs[i].used then Without(Faces(bs), bs[i].id) else Faces(bs)) + (if b.used then {b.Front()} else {})
  {
    var r := bs[i := b];
    var rest := if bs[i].used then Without(Faces(bs), bs[i].id) else Faces(bs);
    forall f | f in Faces(r)
      ensures f in rest + if b.used then {b.Front()} else {}
    {
      var j :| 0 <= j < |r| && r[j].used && r[j].Front() == f;
      if j != i {
        assert bs[j] in bs;
      }
    }
    forall f | f in rest
      ensures f in Faces(r)
    {
      var j :| 0 <= j < |bs| && bs[j].used && bs[j].Front() == f;
      assert j != i && r[j] == bs[j];
    }
    if b.used {
      assert r[i] == b;
    }
  }

  /** Reading a message does to the strip what the message says, unless the strip is full. */
  lemma ReadApplies(bs: seq<Banner>, msg: Notice)
    requires DistinctBanners(bs)
    ensures DistinctBanners(Read(bs, msg))
    ensures Faces(Read(bs, msg)) == if Overflows(bs, msg) then Faces(bs) else Applied(Faces(bs), msg)
  {
    match msg
    case Show(id, app, card) =>
      var i, j := FindBanner(bs, id), FreeBanner(bs);
      var b := Banner(true, id, app, card);
      if i < |bs| {
        FacesUpdate(bs, i, b);
      } else {
        NotShown(bs, id);
        if j < |bs| {
          FacesUpdate(bs, j, b);
        }
      }
    case Hide(id) =>
      var i := FindBanner(bs, id);
      if i < |bs| {
        FacesUpdate(bs, i, bs[i].(used := false));
      } else {
        NotShown(bs, id);
      }
    case Posted(_) =>
  }

  lemma NotShown(bs: seq<Banner>, id: int)
    requires FindBanner(bs, id) == |bs|
    ensures Without(Faces(bs), id) == Faces(bs)
  {
  }

  /** A strip with no free slot shows as many notifications as it has slots. */
  lemma {:induction false} FullStrip(bs: seq<Banner>)
    requires DistinctBanners(bs) && forall b <- bs :: b.used
    ensures |Faces(bs)| == |bs|
  {
    if bs != [] {
      var q, b := bs[..|bs| - 1], bs[|bs| - 1];
      FullStrip(q);
      assert bs == q + [b];
      assert Faces(bs) == Faces(q) + {b.Front()};
      assert b.Front() !in Faces(q);
    }
  }

  // ---------------------------------------------------------------- broker and shade together

  function NoBanners(): (r: seq<Banner>)
    ensures |r| == MAX_BANNERS && forall b <- r :: !b.used
  {
    seq(MAX_BANNERS, i => BLANK)
  }

  /** The broker, the shade now subscribed, the first id posted since it subscribed, and the
      messages on their way to it. */
  datatype Link = Link(broker: State, since: int, feed: seq<Notice>, banners: seq<Banner>)
  {
    function Board(): Notes { broker.notes }

    function Follow(r: State): Link
    {
      if r.notes.sink == -1 || r.notes.sink != Board().sink then Link(r, r.notes.next, [], NoBanners())
      else Link(r, since, feed + News(Sent(Board(), r.notes), Board().sink), banners)
    }

    /** A broker event. A newly subscribed shade is a new process: it has no banners, and nothing
        has been sent to it. */
    function After(e: Event): Link
      requires broker.Shape() && broker.Can(e)
    {
      Follow(broker.Next(e))
    }

    function ReadOne(): Link
      requires feed != []
    {
      Link(broker, since, feed[1..], Read(banners, feed[0]))
    }

    /** Ids only grow along the feed, and beyond those on the strip. */
    predicate Increasing()
    {
      && (forall b <- banners :: b.used ==> since <= b.id < Board().next)
      && (forall i :: 0 <= i < |feed| && feed[i].Show? ==> since <= feed[i].id < Board().next)
      && (forall i, j :: 0 <= i < j < |feed| && feed[i].Show? && feed[j].Show? ==> feed[i].id < feed[j].id)
      && (forall b <- banners, i :: 0 <= i < |feed| && feed[i].Show? && b.used ==> b.id < feed[i].id)
    }

    predicate Shape()
    {
      |banners| == MAX_BANNERS && DistinctBanners(banners) && Increasing() && since <= Board().next
    }

    /** Reading everything on its way leaves exactly the live notifications posted since. */
    predicate Exact()
    {
      Drained(Faces(banners), feed) == LiveSince(Board().store, since)
    }

    /** Reading everything on its way leaves no notification that is gone. */
    predicate Sound()
    {
      Drained(Faces(banners), feed) <= LiveSince(Board().store, since)
    }

    /** The strip never runs out of slots while reading what is on its way. */
    ghost predicate Fits()
    {
      forall k :: 0 <= k <= |feed| ==> |Drained(Faces(banners), feed[..k])| <= MAX_BANNERS
    }

    predicate Calm() { |LiveSince(Board().store, since)| <= 8 }
  }

  /** The packets a broker step wrote. */
  function Sent(n: Notes, r: Notes): seq<Packet<Notice>>
  {
    if |n.sent| <= |r.sent| then r.sent[|n.sent|..] else []
  }

  // ---------------------------------------------------------------- what a broker step does to the feed

  /** A step of the store and its news agree: applying the news to the live set gives the new live set. */
  ghost predicate Tells(n: Notes, r: Notes, since: int, news: seq<Notice>)
  {
    && n.next <= r.next
    && (|news| > 0 && news[|news| - 1].Show? ==> news[|news| - 1].id == n.next < r.next)
    && |news| <= 2
    && (|news| == 2 ==> news[0].Posted?)
    && LiveSince(r.store, since) == Drained(LiveSince(n.store, since), news)
  }

  lemma NewsOf(a: seq<Packet<Notice>>, sink: int)
    ensures News([], sink) == []
    ensures |a| == 1 ==> News(a, sink) == if a[0].fd == sink then [a[0].body] else []
    ensures |a| == 2 ==> News(a, sink) == News(a[..1], sink) + if a[1].fd == sink then [a[1].body] else []
  {
    if |a| == 1 {
      assert a[..0] == [];
    }
  }

  lemma PostTells(n: Notes, since: int, fd: int, app: string, granted: bool, content: Content)
    requires n.Good() && since <= n.next && n.sink >= 0
    ensures var r := n.Post(fd, app, granted, content);
            r.sink == n.sink && Tells(n, r, since, News(Sent(n, r), n.sink))
  {
    var i := FreeNote(n.store);
    if app == "" || !granted || i == |n.store| {
      assert n.Post(fd, app, granted, content) == n.(sent := n.sent + [Packet(fd, Posted(-1))]);
      hide *;
      RefusedTells(n, since, fd);
    } else {
      var note := Notification(true, n.next, app, content);
      var show := Show(n.next, app, content.card);
      assert n.Post(fd, app, granted, content) ==
             Notes(n.store[i := note], n.next + 1, n.sink, n.sent + [Packet(fd, Posted(n.next))] + [Packet(n.sink, show)]);
      LivePosted(n.store, i, note, since);
      NotLiveYet(n, since);
      hide *;
      var r := n.Post(fd, app, granted, content);
      PostedNews(n, r, fd, show);
      StoredTells(n, r, since, News(Sent(n, r), n.sink), show);
    }
  }

  lemma RefusedTells(n: Notes, since: int, fd: int)
    ensures var r := n.(sent := n.sent + [Packet(fd, Posted(-1))]);
            Tells(n, r, since, News(Sent(n, r), n.sink))
  {
    var r := n.(sent := n.sent + [Packet(fd, Posted(-1))]);
    var a := Sent(n, r);
    assert a == [Packet(fd, Posted(-1))];
    NewsOf(a, n.sink);
    var news := News(a, n.sink);
    var live := LiveSince(n.store, since);
    if news != [] {
      assert news[..0] == [];
      assert Drained(live, news) == Applied(Drained(live, []), news[0]);
    }
  }

  lemma NotLiveYet(n: Notes, since: int)
    requires n.Good()
    ensures Without(LiveSince(n.store, since), n.next) == LiveSince(n.store, since)
  {
  }

  lemma StoredTells(n: Notes, r: Notes, since: int, news: seq<Notice>, show: Notice)
    requires show.Show? && show.id == n.next && r.next == n.next + 1
    requires news == [show] || (|news| == 2 && news[0].Posted? && news[1] == show)
    requires Without(LiveSince(n.store, since), n.next) == LiveSince(n.store, since)
    requires LiveSince(r.store, since) == LiveSince(n.store, since) + {Face(show.id, show.app, show.card)}
    ensures Tells(n, r, since, news)
  {
    DrainedPost(LiveSince(n.store, since), news, show);
    hide LiveSince;
    hide Drained;
    hide Without;
  }

  lemma PostedNews(n: Notes, r: Notes, fd: int, show: Notice)
    requires r.sent == n.sent + [Packet(fd, Posted(n.next))] + [Packet(n.sink, show)]
    ensures News(Sent(n, r), n.sink) == if fd == n.sink then [Posted(n.next), show] else [show]
  {
    var a := Sent(n, r);
    assert a == [Packet(fd, Posted(n.next)), Packet(n.sink, show)];
    assert a[..1] == [Packet(fd, Posted(n.next))];
    NewsOf(a, n.sink);
    NewsOf(a[..1], n.sink);
  }

  lemma DrainedPost(m: set<Face>, news: seq<Notice>, show: Notice)
    requires show.Show? && (news == [show] || (|news| == 2 && news[0].Posted? && news[1] == show))
    ensures Drained(m, news) == Applied(m, show)
  {
    if |news| == 2 {
      assert news[..1] == [news[0]] && [news[0]][..0] == [];
      assert Drained(m, [news[0]]) == Applied(m, news[0]);
    } else {
      assert news[..0] == [];
    }
  }

  lemma LivePosted(store: seq<Notification>, i: nat, n: Notification, since: int)
    requires i < |store| && !store[i].used && n.used && since <= n.id
    ensures LiveSince(store[i := n], since) == LiveSince(store, since) + {Face(n.id, n.app, n.content.card)}
  {
    var r := store[i := n];
    assert r[i] == n;
    forall f | f in LiveSince(store, since)
      ensures f in LiveSince(r, since)
    {
      var j :| 0 <= j < |store| && store[j].used && store[j].id >= since && f == Face(store[j].id, store[j].app, store[j].content.card);
      assert r[j] == store[j];
    }
  }

  lemma DropTells(n: Notes, since: int, id: int)
    requires n.Good() && since <= n.next && n.sink >= 0
    ensures var r := n.Drop(id);
            r.sink == n.sink && Tells(n, r, since, News(Sent(n, r), n.sink))
  {
    var r := n.Drop(id);
    var a := Sent(n, r);
    if FindNote(n.store, id) == |n.store| {
      assert a == [];
    } else {
      assert a == [Packet(n.sink, Hide(id))];
      NewsOf(a, n.sink);
      assert News(a, n.sink)[..0] == [];
      LiveDropped(n.store, id, since);
    }
  }

  lemma LiveDropped(store: seq<Notification>, id: int, since: int)
    requires Distinct(store) && FindNote(store, id) < |store|
    ensures LiveSince(Dropped(store, id), since) == Without(LiveSince(store, since), id)
  {
    var i := FindNote(store, id);
    var r := Dropped(store, id);
    forall f | f in Without(LiveSince(store, since), id)
      ensures f in LiveSince(r, since)
    {
      var j :| 0 <= j < |store| && store[j].used && store[j].id >= since && f == Face(store[j].id, store[j].app, store[j].content.card);
      assert j != i && r[j] == store[j];
    }
    forall f | f in LiveSince(r, since)
      ensures f in Without(LiveSince(store, since), id)
    {
      var j :| 0 <= j < |r| && r[j].used && r[j].id >= since && f == Face(r[j].id, r[j].app, r[j].content.card);
      assert j != i && r[j] == store[j];
      assert store[i].used && store[i].id == id;
    }
  }

  /** What the store holds after a post: the new notification on top of the rest, exactly when the
      post is granted, has a poster and finds a slot. */
  lemma PostAdds(n: Notes, since: int, fd: int, app: string, granted: bool, content: Content)
    requires n.Good() && since <= n.next
    ensures var r := n.Post(fd, app, granted, content);
            var taken := app != "" && granted && exists x <- n.store :: !x.used;
            && LiveSince(r.store, since) == LiveSince(n.store, since) + (if taken then {Face(n.next, app, content.card)} else {})
            && r.next == n.next + (if taken then 1 else 0)
            && r.sent[..|n.sent|] == n.sent && |r.sent| > |n.sent|
            && r.sent[|n.sent|] == Packet(fd, Posted(if taken then n.next else -1))
  {
    var i := FreeNote(n.store);
    if i < |n.store| {
      assert n.store[i] in n.store;
      if app != "" && granted {
        LivePosted(n.store, i, Notification(true, n.next, app, content), since);
      }
    }
  }

  /** What the store holds after a drop: everything but that notification. */
  lemma DropRemoves(n: Notes, since: int, id: int)
    requires n.Good()
    ensures LiveSince(n.Drop(id).store, since) == Without(LiveSince(n.store, since), id)
  {
    if FindNote(n.store, id) < |n.store| {
      LiveDropped(n.store, id, since);
    }
  }

  lemma StepTells(s: State, e: Event, since: int)
    requires s.Good() && s.Can(e) && since <= s.notes.next
    requires s.notes.sink >= 0 && s.Next(e).notes.sink == s.notes.sink
    ensures Tells(s.notes, s.Next(e).notes, since, News(Sent(s.notes, s.Next(e).notes), s.notes.sink))
  {
    match e
    case Post(fd, app, granted, content) => PostTells(s.notes, since, fd, app, granted, content);
    case Cancel(id) => DropTells(s.notes, since, id);
    case Act(id, action) =>
      DropTells(s.notes, since, id);
      ActNotes(s, id, action);
    case _ => SameNotes(s, e);
  }

  lemma SameNotes(s: State, e: Event)
    requires s.Shape() && s.Can(e) && !e.Post? && !e.Cancel? && !e.Act?
    ensures var r := s.Next(e).notes; r.(sink := s.notes.sink) == s.notes && Sent(s.notes, r) == []
  {
  }

  // ---------------------------------------------------------------- what every event keeps

  lemma {:induction false} DrainedMonotone(a: set<Face>, b: set<Face>, feed: seq<Notice>)
    requires a <= b
    ensures Drained(a, feed) <= Drained(b, feed)
  {
    if feed != [] {
      DrainedMonotone(a, b, feed[..|feed| - 1]);
    }
  }

  lemma AfterKeeps(l: Link, e: Event)
    requires l.broker.Good() && l.broker.Can(e) && l.Shape()
    ensures var r := l.After(e);
            && r.broker.Good() && r.Shape()
            && (l.Board().sink < 0 <= r.Board().sink ==> r.Sound() && r.Exact() && r.Fits())
            && (r.Board().sink >= 0 && l.Sound() ==> r.Sound())
            && (r.Board().sink >= 0 && l.Exact() ==> r.Exact())
            && (r.Board().sink >= 0 && l.Exact() && l.Fits() && r.Calm() ==> r.Fits())
  {
    var b := l.broker.Next(e);
    NextGood(l.broker, e);
    if b.notes.sink == -1 || b.notes.sink != l.Board().sink {
      NewShade(b);
    } else {
      StepTells(l.broker, e, l.since);
      var news := News(Sent(l.Board(), b.notes), b.notes.sink);
      hide State.Good;
      hide State.Can;
      hide State.Next;
      FollowKeeps(l, b, news);
    }
  }

  /** A shade that has just subscribed owes nothing and is owed nothing. */
  lemma NewShade(b: State)
    requires b.Good()
    ensures var l := Link(b, b.notes.next, [], NoBanners());
            l.Shape() && l.Exact() && l.Sound() && l.Fits()
  {
    assert Faces(NoBanners()) == {};
    assert LiveSince(b.notes.store, b.notes.next) == {};
  }

  lemma FollowKeeps(l: Link, b: State, news: seq<Notice>)
    requires l.Shape() && Tells(l.Board(), b.notes, l.since, news)
    ensures var r := Link(b, l.since, l.feed + news, l.banners);
            && r.Shape()
            && (l.Sound() ==> r.Sound())
            && (l.Exact() ==> r.Exact())
            && (l.Exact() && l.Fits() && r.Calm() ==> r.Fits())
  {
    var r := Link(b, l.since, l.feed + news, l.banners);
    var m := Faces(l.banners);
    var was := LiveSince(l.Board().store, l.since);
    FollowIncreasing(l, b, news);
    hide Link.Increasing;
    DrainedJoin(m, l.feed, news);
    if l.Sound() {
      DrainedMonotone(Drained(m, l.feed), was, news);
    }
    if l.Exact() && l.Fits() && r.Calm() {
      FollowFits(l, r, news);
    }
    hide LiveSince;
    hide Drained;
  }

  lemma FollowIncreasing(l: Link, b: State, news: seq<Notice>)
    requires l.Increasing() && Tells(l.Board(), b.notes, l.since, news) && l.since <= l.Board().next
    ensures Link(b, l.since, l.feed + news, l.banners).Increasing()
  {
    var feed := l.feed + news;
    assert forall i :: |l.feed| <= i < |feed| && feed[i].Show? ==> i == |feed| - 1 && feed[i] == news[|news| - 1];
  }

  lemma FollowFits(l: Link, r: Link, news: seq<Notice>)
    requires r.feed == l.feed + news && r.banners == l.banners && |news| <= 2 && (|news| == 2 ==> news[0].Posted?)
    requires l.Fits() && |Drained(Faces(r.banners), r.feed)| <= MAX_BANNERS
    ensures r.Fits()
  {
    var m, n := Faces(r.banners), |l.feed|;
    forall k | 0 <= k <= |r.feed|
      ensures |Drained(m, r.feed[..k])| <= MAX_BANNERS
    {
      if k <= n {
        assert r.feed[..k] == l.feed[..k];
      } else if k == |r.feed| {
        assert r.feed[..k] == r.feed;
      } else {
        assert k == n + 1 && r.feed[..k][..n] == l.feed[..n];
      }
    }
  }

  lemma ReadKeeps(l: Link)
    requires l.Shape() && l.feed != []
    ensures var r := l.ReadOne();
            && r.Shape() && r.broker == l.broker
            && (l.Sound() ==> r.Sound())
            && (l.Exact() && !Overflows(l.banners, l.feed[0]) ==> r.Exact())
            && (l.Fits() ==> !Overflows(l.banners, l.feed[0]) && r.Fits())
  {
    var r := l.ReadOne();
    var m, msg := Faces(l.banners), l.feed[0];
    ReadApplies(l.banners, msg);
    DrainedHead(m, l.feed);
    ReadIncreasing(l);
    if l.Sound() {
      DrainedMonotone(Faces(r.banners), Applied(m, msg), l.feed[1..]);
    }
    if l.Fits() {
      NoOverflow(l);
      forall k | 0 <= k <= |r.feed|
        ensures |Drained(Faces(r.banners), r.feed[..k])| <= MAX_BANNERS
      {
        DrainedHead(m, l.feed[..k + 1]);
        assert l.feed[..k + 1][1..] == r.feed[..k];
      }
    }
  }

  lemma ReadIncreasing(l: Link)
    requires l.Shape() && l.feed != []
    ensures l.ReadOne().Increasing()
  {
    var r := l.ReadOne();
    forall b <- r.banners | b.used
      ensures b in l.banners || (l.feed[0].Show? && b.id == l.feed[0].id)
    {
      if b !in l.banners {
        assert l.feed[0].Show?;
      }
    }
    assert forall i :: 0 <= i < |r.feed| ==> r.feed[i] == l.feed[i + 1];
  }

  lemma NoOverflow(l: Link)
    requires l.Shape() && l.feed != [] && l.Fits()
    ensures !Overflows(l.banners, l.feed[0])
  {
    DrainedHead(Faces(l.banners), l.feed[..1]);
    assert l.feed[..1][1..] == [];
    if Overflows(l.banners, l.feed[0]) {
      OverflowGrows(l.banners, l.feed[0]);
    }
  }

  lemma OverflowGrows(bs: seq<Banner>, msg: Notice)
    requires DistinctBanners(bs) && Overflows(bs, msg)
    ensures |Applied(Faces(bs), msg)| == |bs| + 1
  {
    var m, f := Faces(bs), Face(msg.id, msg.app, msg.card);
    FullStrip(bs);
    NotShown(bs, msg.id);
    assert Applied(m, msg) == m + {f};
    assert f !in Without(m, msg.id);
  }

  /** A show that a full strip ignores breaks the agreement exactly when its notification is still
      live: the strip will never show it, even once slots free up. */
  lemma OverflowLoses(l: Link)
    requires l.Shape() && l.feed != [] && l.Exact() && Overflows(l.banners, l.feed[0])
    ensures l.ReadOne().Exact() <==> forall f <- LiveSince(l.Board().store, l.since) :: f.id != l.feed[0].id
  {
    var m, msg, rest := Faces(l.banners), l.feed[0], l.feed[1..];
    DrainedHead(m, l.feed);
    NotShown(l.banners, msg.id);
    DrainedWithout(Applied(m, msg), msg.id, rest);
    assert Without(Applied(m, msg), msg.id) == m;
  }

  lemma {:induction false} DrainedWithout(m: set<Face>, id: int, feed: seq<Notice>)
    requires forall msg <- feed :: msg.Show? ==> msg.id != id
    ensures Drained(Without(m, id), feed) == Without(Drained(m, feed), id)
  {
    if feed != [] {
      var q, msg := feed[..|feed| - 1], feed[|feed| - 1];
      DrainedWithout(m, id, q);
      assert msg in feed;
      AppliedWithout(Drained(m, q), id, msg);
    }
  }

  lemma AppliedWithout(m: set<Face>, id: int, msg: Notice)
    requires msg.Show? ==> msg.id != id
    ensures Applied(Without(m, id), msg) == Without(Applied(m, msg), id)
  {
  }

  // ---------------------------------------------------------------- every run

  datatype Move = Broker(event: Event) | ShadeReads

  predicate CanMove(l: Link, m: Move)
    requires l.broker.Shape()
  {
    match m
    case Broker(e) => l.broker.Can(e)
    case ShadeReads => l.feed != []
  }

  function Moved(l: Link, m: Move): Link
    requires l.broker.Shape() && CanMove(l, m)
  {
    match m
    case Broker(e) => l.After(e)
    case ShadeReads => l.ReadOne()
  }

  /** A run of broker events and reads by the shade, in any order; `calm` says whether at most eight
      notifications posted since the shade subscribed are ever live at once. */
  ghost predicate Runs(l: Link, ms: seq<Move>, r: Link, calm: bool)
    decreases |ms|
  {
    if ms == [] then r == l
    else
      && l.broker.Shape() && CanMove(l, ms[0])
      && (calm ==> Moved(l, ms[0]).Calm())
      && Runs(Moved(l, ms[0]), ms[1..], r, calm)
  }

  ghost predicate Linked(l: Link, calm: bool)
  {
    && l.broker.Good() && l.Shape()
    && (l.Board().sink >= 0 ==> l.Sound() && (calm ==> l.Exact() && l.Fits()))
  }

  lemma MoveKeeps(l: Link, m: Move, calm: bool)
    requires Linked(l, calm) && CanMove(l, m) && (calm ==> Moved(l, m).Calm())
    ensures Linked(Moved(l, m), calm)
  {
    hide State.Good;
    hide State.Can;
    hide State.Next;
    hide Link.After;
    hide Link.ReadOne;
    hide Link.Shape;
    hide Link.Sound;
    hide Link.Exact;
    hide Link.Fits;
    hide Link.Calm;
    match m
    case Broker(e) =>
      AfterKeeps(l, e);
    case ShadeReads => ReadKeeps(l);
  }

  /** Over every run from a subscription on: what the strip will show once the feed is read is live;
      and while at most eight are live, it is exactly the live notifications. */
  lemma {:induction false} RunKeeps(l: Link, ms: seq<Move>, r: Link, calm: bool)
    requires Linked(l, calm) && Runs(l, ms, r, calm)
    ensures Linked(r, calm)
    decreases |ms|
  {
    hide Linked;
    hide Moved;
    hide Link.Calm;
    if ms != [] {
      MoveKeeps(l, ms[0], calm);
      RunKeeps(Moved(l, ms[0]), ms[1..], r, calm);
    }
  }
}
