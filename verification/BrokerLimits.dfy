/** Runs from boot in which mail overtakes earlier mail, and in which the shade loses a banner. */
module BrokerLimits {
  import opened Broker
  import opened Shade
  import opened Replica

  // ---------------------------------------------------------------- mail out of order

  function Url(app: string, url: string): Event { Resolve(app, OpenUrl, "", url, "") }

  /** Two links to `b` are resolved while neither app runs; between them `a` starts, which frees the
      slot in front of the first. */
  const OVERTAKING: seq<Event> :=
    [Url("a", "x"), Url("b", "y"), Accept(5), Register(0, "a"), Url("b", "z"), Accept(6), Register(1, "b")]

  predicate Leads(s: State, e: Event, r: State) { s.Shape() && s.Can(e) && s.Next(e) == r }

  /** A link to an app without a mailbox takes the first free slot. */
  lemma Waits(s: State, app: string, url: string, i: nat) returns (r: State)
    requires s.Shape() && app != "" && i < MAX_PENDING
    requires forall j :: 0 <= j < MAX_CLIENTS ==> s.clients.fds[j] < 0 || s.clients.apps[j] != app
    requires (forall j :: 0 <= j < i ==> s.pending[j].used) && !s.pending[i].used
    ensures Leads(s, Url(app, url), r) && r.Shape()
    ensures r.clients == s.clients && r.mail == s.mail && r.pending == s.pending[i := Waiting(app, url)]
  {
    assert s.clients.Mailbox(app) == MAX_CLIENTS;
    assert FirstFree(s.pending) == i;
    r := s.Next(Url(app, url));
  }

  function Waiting(app: string, url: string): Pending { Pending(true, app, OpenUrl, "", url, "", 0) }

  /** A client connects in the first free slot and names itself. */
  lemma Starts(s: State, fd: int, app: string, i: nat) returns (m: State, r: State)
    requires s.Shape() && fd >= 0 && fd !in s.clients.fds && i < MAX_CLIENTS
    requires (forall j :: 0 <= j < i ==> s.clients.fds[j] >= 0) && s.clients.fds[i] < 0
    ensures Leads(s, Accept(fd), m) && Leads(m, Register(i, app), r) && r.Shape()
    ensures r.clients == Table(s.clients.fds[i := fd], s.clients.apps[i := app]) && r.pending == Flushed(s.pending, app)
    ensures r.mail == s.mail + Deliveries(fd, app, Queue(s.pending, app), r.clients)
  {
    assert s.clients.Free() == i;
    hide Flushed;
    hide Queue;
    m := s.Next(Accept(fd));
    r := m.Next(Register(i, app));
  }

  /** A link to `a` in front of one to `b`, then a later one to `b` in its place. */
  lemma Queues(p: seq<Pending>, a: Pending, y: Pending, z: Pending)
    requires |p| == MAX_PENDING && forall e <- p :: !e.used
    requires a.used && y.used && z.used && a.app != y.app == z.app
    ensures var q := p[0 := a][1 := y]; var f := Flushed(q, a.app);
            Queue(q, a.app) == [a.Body()] && Queue(f[0 := z], z.app) == [z.Body(), y.Body()]
  {
    var q1 := p[0 := a];
    var q := q1[1 := y];
    var f := Flushed(q, a.app);
    assert !p[0].used && !p[1].used && q1[1] == p[1] && q1[0] == a;
    assert !f[0].used;
    QueueEmpty(p, a.app);
    QueueEmpty(p, y.app);
    FirstOf(p, a);
    FirstOf(q1, y);
    FirstOf(f, z);
    hide *;
    SkipOther(p, 0, a, y.app);
    SkipOther(q1, 1, y, a.app);
    QueueOne(p, 0, a);
    QueueOne(q1, 1, y);
    FlushedOthers(q, a.app, y.app);
    QueueFront(f, z);
  }

  lemma QueueOne(p: seq<Pending>, i: nat, e: Pending)
    requires FirstFree(p) == i < |p| && e.used && Queue(p, e.app) == []
    ensures Queue(p[i := e], e.app) == [e.Body()]
  {
    assert Enqueued(p, e) == p[i := e];
    hide *;
    EnqueueInserts(p, e);
  }

  lemma QueueFront(p: seq<Pending>, e: Pending)
    requires FirstFree(p) == 0 < |p| && e.used
    ensures Queue(p[0 := e], e.app) == [e.Body()] + Queue(p, e.app)
  {
    assert Enqueued(p, e) == p[0 := e];
    EnqueueInserts(p, e);
    assert p[..0] == [];
    assert Queue([], e.app) == [];
    hide *;
  }

  lemma FirstOf(p: seq<Pending>, e: Pending)
    requires |p| == MAX_PENDING
    ensures !p[0].used ==> FirstFree(p) == 0 && Enqueued(p, e) == p[0 := e]
    ensures p[0].used && !p[1].used ==> FirstFree(p) == 1 && Enqueued(p, e) == p[1 := e]
  {
  }

  /** A slot taken for one app does not show in another's queue. */
  lemma SkipOther(p: seq<Pending>, i: nat, e: Pending, app: string)
    requires i < |p| && !p[i].used && e.app != app
    ensures Queue(p[i := e], app) == Queue(p, app)
  {
    assert !p[i].For(app) && !e.For(app);
    hide *;
    QueueAround(p, i, app);
    QueueAround(p[i := e], i, app);
    UpdateAround(p, i, e);
  }

  /** The second link to `b` is delivered before the first. */
  lemma MailOvertakes() returns (r: State)
    ensures Reaches(BOOT, OVERTAKING, r)
    ensures |r.mail| == 3 && r.mail[1].Meaning() == Item("b", UrlMail("z")) && r.mail[2].Meaning() == Item("b", UrlMail("y"))
  {
    r := Overtakes(BOOT);
  }

  lemma Overtakes(s: State) returns (r: State)
    requires s.Shape() && s.mail == [] && (forall e <- s.pending :: !e.used)
    requires forall j :: 0 <= j < MAX_CLIENTS ==> s.clients.fds[j] < 0
    ensures Reaches(s, OVERTAKING, r)
    ensures |r.mail| == 3 && r.mail[1].Meaning() == Item("b", UrlMail("z")) && r.mail[2].Meaning() == Item("b", UrlMail("y"))
  {
    Queues(s.pending, Waiting("a", "x"), Waiting("b", "y"), Waiting("b", "z"));
    var s1, s2, s3, s4 := FirstStarts(s);
    hide Queue;
    hide State.Next;
    hide State.Can;
    hide Reaches;
    hide Deliveries;
    hide Flushed;
    hide Leads;
    var s5, s6;
    s5, s6, r := SecondStarts(s4, s.clients);
    Chained(s, s1, s2, s3, s4, s5, s6, r);
    LastMail(s4.clients, r.clients);
  }

  /** A third link waits in front of the second, then `b` starts. */
  lemma SecondStarts(s4: State, t: Table) returns (s5: State, s6: State, r: State)
    requires s4.Shape() && !s4.pending[0].used && t.Shape() && s4.clients == Table(t.fds[0 := 5], t.apps[0 := "a"])
    requires forall j :: 0 <= j < MAX_CLIENTS ==> t.fds[j] < 0
    ensures Leads(s4, OVERTAKING[4], s5) && Leads(s5, OVERTAKING[5], s6) && Leads(s6, OVERTAKING[6], r)
    ensures r.mail == s4.mail + Deliveries(6, "b", Queue(s4.pending[0 := Waiting("b", "z")], "b"), r.clients)
  {
    hide Queue;
    hide State.Next;
    hide State.Can;
    hide Deliveries;
    s5 := Waits(s4, "b", "z", 0);
    assert forall j :: 0 <= j < MAX_CLIENTS ==> s5.clients.fds[j] == if j == 0 then 5 else t.fds[j];
    s6, r := Starts(s5, 6, "b", 1);
  }

  lemma LastMail(t: Table, u: Table)
    ensures var mail := Deliveries(5, "a", [Waiting("a", "x").Body()], t) +
                        Deliveries(6, "b", [Waiting("b", "z").Body(), Waiting("b", "y").Body()], u);
            |mail| == 3 && mail[1].Meaning() == Item("b", UrlMail("z")) && mail[2].Meaning() == Item("b", UrlMail("y"))
  {
  }

  /** Two links wait, then `a` starts. */
  lemma FirstStarts(s: State) returns (s1: State, s2: State, s3: State, s4: State)
    requires s.Shape() && s.mail == [] && (forall e <- s.pending :: !e.used)
    requires forall j :: 0 <= j < MAX_CLIENTS ==> s.clients.fds[j] < 0
    ensures Leads(s, OVERTAKING[0], s1) && Leads(s1, OVERTAKING[1], s2) && Leads(s2, OVERTAKING[2], s3)
    ensures Leads(s3, OVERTAKING[3], s4) && s4.Shape() && !s4.pending[0].used
    ensures var q := s.pending[0 := Waiting("a", "x")][1 := Waiting("b", "y")];
            && s4.pending == Flushed(q, "a")
            && s4.mail == Deliveries(5, "a", Queue(q, "a"), s4.clients)
            && s4.clients == Table(s.clients.fds[0 := 5], s.clients.apps[0 := "a"])
  {
    assert !s.pending[0].used && !s.pending[1].used && s.clients.fds[0] < 0;
    assert !Flushed(s.pending[0 := Waiting("a", "x")][1 := Waiting("b", "y")], "a")[0].used;
    hide Queue;
    hide Flushed;
    hide Leads;
    hide Deliveries;
    hide Waiting;
    s1, s2 := TwoWait(s);
    s3, s4 := Starts(s2, 5, "a", 0);
  }

  lemma TwoWait(s: State) returns (s1: State, s2: State)
    requires s.Shape() && !s.pending[0].used && !s.pending[1].used
    requires forall j :: 0 <= j < MAX_CLIENTS ==> s.clients.fds[j] < 0
    ensures Leads(s, OVERTAKING[0], s1) && Leads(s1, OVERTAKING[1], s2) && s2.Shape()
    ensures s2.pending == s.pending[0 := Waiting("a", "x")][1 := Waiting("b", "y")]
    ensures s2.clients == s.clients && s2.mail == s.mail
  {
    hide Leads;
    s1 := Waits(s, "a", "x", 0);
    s2 := Waits(s1, "b", "y", 1);
  }

  lemma Chained(s0: State, s1: State, s2: State, s3: State, s4: State, s5: State, s6: State, s7: State)
    requires Leads(s0, OVERTAKING[0], s1) && Leads(s1, OVERTAKING[1], s2) && Leads(s2, OVERTAKING[2], s3)
    requires Leads(s3, OVERTAKING[3], s4) && Leads(s4, OVERTAKING[4], s5) && Leads(s5, OVERTAKING[5], s6)
    requires Leads(s6, OVERTAKING[6], s7)
    ensures Reaches(s0, OVERTAKING, s7)
  {
    hide State.Next;
    hide State.Can;
    assert OVERTAKING[7..] == [];
    LeadsOn(s6, 6, s7, s7);
    LeadsOn(s5, 5, s6, s7);
    LeadsOn(s4, 4, s5, s7);
    LeadsOn(s3, 3, s4, s7);
    LeadsOn(s2, 2, s3, s7);
    LeadsOn(s1, 1, s2, s7);
    LeadsOn(s0, 0, s1, s7);
    assert OVERTAKING[0..] == OVERTAKING;
  }

  lemma LeadsOn(s: State, i: nat, r: State, last: State)
    requires i < |OVERTAKING| && Leads(s, OVERTAKING[i], r) && Reaches(r, OVERTAKING[i + 1..], last)
    ensures Reaches(s, OVERTAKING[i..], last)
  {
    hide State.Next;
    hide State.Can;
    assert OVERTAKING[i..] == [OVERTAKING[i]] + OVERTAKING[i + 1..];
    assert OVERTAKING[i..][1..] == OVERTAKING[i + 1..];
  }

  // ---------------------------------------------------------------- the ninth banner

  const POST := Post(7, "a", true, EMPTY.content)

  /** `k` times: a notification is posted and the shade reads of it. */
  function Posting(k: nat): seq<Move>
  {
    if k == 0 then [] else [Broker(POST), ShadeReads] + Posting(k - 1)
  }

  /** The shade subscribes, nine notifications are posted, and the first is withdrawn. */
  const NINE: seq<Move> :=
    [Broker(Accept(5)), Broker(Subscribe(0))] + (Posting(9) + [Broker(Cancel(1)), ShadeReads])

  /** Notification `k + 1` of the run, in the store and on the strip. */
  function Stored(k: nat): Notification { Notification(true, k + 1, "a", EMPTY.content) }

  function OnStrip(k: nat): Banner { Banner(true, k + 1, "a", EMPTY.content.card) }

  /** The broker and the shade are connected, and the shade has read everything. */
  ghost predicate Connected(l: Replica.Link)
  {
    l.broker.Good() && l.broker.Shape() && l.Shape() && l.feed == [] && l.Board().sink == 5 && l.since == 1
  }

  /** Exactly the first `n` notifications are in the store, and the first `k` on the strip. */
  ghost predicate Stage(l: Replica.Link, n: nat, k: nat)
  {
    && Connected(l) && l.Board().next == n + 1
    && InStore(l.Board().store, n) && OnDisplay(l.banners, k)
  }

  predicate InStore(store: seq<Notification>, n: nat)
  {
    |store| == MAX_NOTIFS &&
    forall j :: 0 <= j < MAX_NOTIFS ==> if j < n then store[j] == Stored(j) else !store[j].used
  }

  predicate OnDisplay(bs: seq<Banner>, k: nat)
  {
    |bs| == MAX_BANNERS && forall j :: 0 <= j < MAX_BANNERS ==> if j < k then bs[j] == OnStrip(j) else !bs[j].used
  }

  /** One more notification is posted, and shown if there is a slot for it. */
  lemma PostAndRead(l: Replica.Link, k: nat) returns (m: Replica.Link, r: Replica.Link)
    requires Stage(l, k, k) && k <= MAX_BANNERS
    ensures Leads2(l, POST, m, r)
    ensures Stage(r, k + 1, if k < MAX_BANNERS then k + 1 else k)
  {
    m := PostOne(l, k);
    OneRead(l.banners, k);
    hide State.Good;
    hide State.Next;
    hide State.Can;
    hide Read;
    hide InStore;
    hide OnDisplay;
    hide Replica.Link.Shape;
    hide Replica.Link.After;
    r := m.ReadOne();
    ReadKeeps(m);
  }

  /** A broker event, then the shade reads. */
  ghost predicate Leads2(l: Replica.Link, e: Event, m: Replica.Link, r: Replica.Link)
  {
    && l.broker.Shape() && CanMove(l, Broker(e)) && m == Moved(l, Broker(e))
    && m.broker.Shape() && CanMove(m, ShadeReads) && r == Moved(m, ShadeReads)
  }

  /** The notification is live, and the shade will read of it. */
  lemma PostOne(l: Replica.Link, k: nat) returns (m: Replica.Link)
    requires Stage(l, k, k) && k <= MAX_BANNERS
    ensures CanMove(l, Broker(POST)) && m == Moved(l, Broker(POST))
    ensures m.broker.Good() && m.broker.Shape() && m.Shape()
    ensures m.Board().sink == 5 && m.since == 1 && m.Board().next == k + 2 && m.banners == l.banners
    ensures m.feed == [Show(k + 1, "a", EMPTY.content.card)] && InStore(m.Board().store, k + 1)
  {
    m := l.After(POST);
    KeepsShape(l, POST);
    Posted(l.Board(), k);
    hide State.Good;
    hide State.Shape;
    hide Replica.Link.Shape;
    hide News;
    hide Notes.Post;
    hide OnDisplay;
  }

  lemma KeepsShape(l: Replica.Link, e: Event)
    requires l.broker.Good() && l.broker.Shape() && l.broker.Can(e) && l.Shape()
    ensures var r := l.After(e); r.broker.Good() && r.broker.Shape() && r.Shape()
  {
    AfterKeeps(l, e);
    hide Replica.Link.Shape;
    hide Replica.Link.Sound;
    hide Replica.Link.Exact;
    hide Replica.Link.Fits;
    hide State.Next;
  }

  lemma Posted(n: Notes, k: nat)
    requires |n.store| == MAX_NOTIFS && k < MAX_NOTIFS && n.sink == 5 && n.next == k + 1
    requires forall j :: 0 <= j < MAX_NOTIFS ==> (n.store[j].used <==> j < k)
    ensures var r := n.Post(7, "a", true, EMPTY.content);
            && r.store == n.store[k := Stored(k)] && r.next == k + 2 && r.sink == 5
            && News(Sent(n, r), 5) == [Show(k + 1, "a", EMPTY.content.card)]
  {
    var f := FreeNote(n.store);
    assert !n.store[k].used && (f < MAX_NOTIFS ==> !n.store[f].used);
    var r := n.Post(7, "a", true, EMPTY.content);
    PostedNews(n, r, 7, Show(k + 1, "a", EMPTY.content.card));
  }

  /** A new banner takes the next slot, if there is one. */
  lemma OneRead(bs: seq<Banner>, k: nat)
    requires OnDisplay(bs, k) && k <= MAX_BANNERS
    ensures OnDisplay(Read(bs, Show(k + 1, "a", EMPTY.content.card)), if k < MAX_BANNERS then k + 1 else k)
  {
    var f := FreeBanner(bs);
    assert f < MAX_BANNERS ==> !bs[f].used;
    assert k < MAX_BANNERS ==> !bs[k].used;
    assert FindBanner(bs, k + 1) == MAX_BANNERS;
  }

  /** The posts from `k` notifications up to nine; whatever run follows them. */
  lemma {:induction false} PostAll(l: Replica.Link, k: nat) returns (q: Replica.Link)
    requires Stage(l, k, k) && k <= MAX_BANNERS
    ensures Stage(q, MAX_BANNERS + 1, MAX_BANNERS)
    ensures forall last: seq<Move>, r: Replica.Link :: Runs(q, last, r, false) ==> Runs(l, Posting(MAX_BANNERS + 1 - k) + last, r, false)
    decreases MAX_BANNERS - k
  {
    hide Runs;
    hide Stage;
    hide Leads2;
    var m, next := PostAndRead(l, k);
    q := if k < MAX_BANNERS then l else next;
    if k < MAX_BANNERS {
      q := PostAll(next, k + 1);
    }
    var rest := Posting(MAX_BANNERS - k);
    forall last: seq<Move>, r: Replica.Link | Runs(q, last, r, false)
      ensures Runs(l, Posting(MAX_BANNERS + 1 - k) + last, r, false)
    {
      assert k == MAX_BANNERS ==> rest + last == last;
      assert Posting(MAX_BANNERS + 1 - k) + last == [Broker(POST), ShadeReads] + (rest + last);
      TwoMoves(l, POST, m, next, rest + last, r);
    }
  }

  lemma TwoMoves(l: Replica.Link, e: Event, m: Replica.Link, q: Replica.Link, ms: seq<Move>, r: Replica.Link)
    requires Leads2(l, e, m, q) && Runs(q, ms, r, false)
    ensures Runs(l, [Broker(e), ShadeReads] + ms, r, false)
  {
    hide Moved;
    hide CanMove;
    var all := [Broker(e), ShadeReads] + ms;
    assert all[1..][0] == ShadeReads && all[1..][1..] == ms;
  }

  /** The first notification is withdrawn and its banner goes: there is a slot again, but the ninth
      is still not shown. */
  lemma Withdraw(l: Replica.Link) returns (m: Replica.Link, r: Replica.Link)
    requires Stage(l, MAX_BANNERS + 1, MAX_BANNERS)
    ensures Leads2(l, Cancel(1), m, r)
    ensures r.feed == [] && |r.banners| == MAX_BANNERS && !r.banners[0].used && !r.Exact()
  {
    m := Withdrawn(l);
    r := m.ReadOne();
    FirstHidden(l.banners);
    NinthMissing(m.Board().store, r.banners);
    hide State.Good;
    hide State.Next;
    hide Hidden;
    hide Drained;
    hide InStore;
    hide Replica.Link.After;
  }

  lemma Withdrawn(l: Replica.Link) returns (m: Replica.Link)
    requires Stage(l, MAX_BANNERS + 1, MAX_BANNERS)
    ensures l.broker.Can(Cancel(1)) && m == l.After(Cancel(1)) && m.broker.Shape()
    ensures m.feed == [Hide(1)] && m.since == 1 && m.banners == l.banners
    ensures m.Board().store == l.Board().store[0 := Stored(0).(used := false)]
  {
    m := l.After(Cancel(1));
    Cancelled(l.Board());
    hide State.Good;
    hide News;
    hide Notes.Drop;
    hide OnDisplay;
    hide Replica.Link.Shape;
  }

  lemma Cancelled(n: Notes)
    requires |n.store| == MAX_NOTIFS && n.sink == 5 && n.store[0] == Stored(0)
    ensures var r := n.Drop(1);
            r.store == n.store[0 := Stored(0).(used := false)] && r.sink == 5 && News(Sent(n, r), 5) == [Hide(1)]
  {
    assert FindNote(n.store, 1) == 0;
    var a := Sent(n, n.Drop(1));
    assert a == [Packet(5, Hide(1))];
    NewsOf(a, 5);
  }

  lemma FirstHidden(bs: seq<Banner>)
    requires |bs| == MAX_BANNERS && bs[0] == OnStrip(0)
    ensures Hidden(bs, 1) == bs[0 := OnStrip(0).(used := false)]
  {
    assert FindBanner(bs, 1) == 0;
  }

  lemma NinthMissing(store: seq<Notification>, bs: seq<Banner>)
    requires |store| > MAX_BANNERS && store[MAX_BANNERS] == Stored(MAX_BANNERS)
    requires forall b <- bs :: b.used ==> b.id <= MAX_BANNERS
    ensures Drained(Faces(bs), []) != LiveSince(store, 1)
  {
    var n := store[MAX_BANNERS];
    assert Face(n.id, n.app, n.content.card) in LiveSince(store, 1);
  }

  /** The shade connects and subscribes. */
  lemma Subscribed(l: Replica.Link) returns (m: Replica.Link, r: Replica.Link)
    requires l == Replica.Link(BOOT, 1, [], NoBanners())
    ensures l.broker.Shape() && CanMove(l, Broker(Accept(5))) && m == Moved(l, Broker(Accept(5)))
    ensures m.broker.Shape() && CanMove(m, Broker(Subscribe(0))) && r == Moved(m, Broker(Subscribe(0)))
    ensures Stage(r, 0, 0)
  {
    BootGood();
    assert BOOT.clients.Free() == 0;
    NextGood(BOOT, Accept(5));
    m := l.After(Accept(5));
    NextGood(m.broker, Subscribe(0));
    r := m.After(Subscribe(0));
    NewShade(r.broker);
  }

  /** The ninth notification finds no slot and is never shown, not even once a slot is free. */
  lemma NinthIsLost() returns (r: Replica.Link)
    ensures Runs(Replica.Link(BOOT, 1, [], NoBanners()), NINE, r, false)
    ensures r.feed == [] && |r.banners| == MAX_BANNERS && !r.banners[0].used && !r.Exact()
  {
    var l := Replica.Link(BOOT, 1, [], NoBanners());
    var m, q := Subscribed(l);
    assert NINE == [Broker(Accept(5)), Broker(Subscribe(0))] + (Posting(9) + [Broker(Cancel(1)), ShadeReads]);
    hide *;
    r := PostsAndWithdrawal(q);
    Opening(l, m, q, Posting(9) + [Broker(Cancel(1)), ShadeReads], r);
  }

  /** What happens once the shade has subscribed. */
  lemma PostsAndWithdrawal(q: Replica.Link) returns (r: Replica.Link)
    requires Stage(q, 0, 0)
    ensures Runs(q, Posting(9) + [Broker(Cancel(1)), ShadeReads], r, false)
    ensures r.feed == [] && |r.banners| == MAX_BANNERS && !r.banners[0].used && !r.Exact()
  {
    assert MAX_BANNERS + 1 - 0 == 9;
    hide *;
    var p := PostAll(q, 0);
    r := WithdrawalAlone(p);
  }

  lemma WithdrawalAlone(p: Replica.Link) returns (r: Replica.Link)
    requires Stage(p, MAX_BANNERS + 1, MAX_BANNERS)
    ensures Runs(p, [Broker(Cancel(1)), ShadeReads], r, false)
    ensures r.feed == [] && |r.banners| == MAX_BANNERS && !r.banners[0].used && !r.Exact()
  {
    hide *;
    var x;
    x, r := Withdraw(p);
    RunsNowhere(r);
    assert [Broker(Cancel(1)), ShadeReads] + [] == [Broker(Cancel(1)), ShadeReads];
    TwoMoves(p, Cancel(1), x, r, [], r);
  }

  lemma RunsNowhere(r: Replica.Link)
    ensures Runs(r, [], r, false)
  {
  }

  lemma Opening(l: Replica.Link, m: Replica.Link, q: Replica.Link, ms: seq<Move>, r: Replica.Link)
    requires l.broker.Shape() && CanMove(l, Broker(Accept(5))) && m == Moved(l, Broker(Accept(5)))
    requires m.broker.Shape() && CanMove(m, Broker(Subscribe(0))) && q == Moved(m, Broker(Subscribe(0)))
    requires Runs(q, ms, r, false)
    ensures Runs(l, [Broker(Accept(5)), Broker(Subscribe(0))] + ms, r, false)
  {
    hide Moved;
    hide CanMove;
    var all := [Broker(Accept(5)), Broker(Subscribe(0))] + ms;
    assert all[1..][0] == Broker(Subscribe(0)) && all[1..][1..] == ms;
  }
}
