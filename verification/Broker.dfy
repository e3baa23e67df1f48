/** The system broker: mailboxes, intents queued for apps that are not running yet, and the
    notification store. Tables have fixed sizes and are scanned from slot 0. */
module Broker {
  import opened Wrappers

  const MAX_CLIENTS: nat := 32
  const MAX_PENDING: nat := 16
  const MAX_NOTIFS: nat := 32

  datatype Kind = Share | OpenUrl | NotifyAction

  /** What the broker writes to a mailbox. */
  datatype Mail = ShareMail(mime: string, payload: string) | UrlMail(url: string) | ActionMail(id: int, action: string)

  /** An intent resolved to a target app. */
  datatype Item = Item(app: string, mail: Mail)

  /** A queue slot. `payload` doubles as the action id of a notification action. */
  datatype Pending = Pending(used: bool, app: string, kind: Kind, mime: string, url: string, payload: string, notifId: int)
  {
    function Body(): Mail { Letter(kind, mime, url, payload, notifId) }

    predicate For(id: string) { used && app == id }
  }

  const FREE := Pending(false, "", Share, "", "", "", 0)

  function Letter(kind: Kind, mime: string, url: string, payload: string, notifId: int): Mail
  {
    match kind
    case OpenUrl => UrlMail(url)
    case NotifyAction => ActionMail(notifId, payload)
    case Share => ShareMail(mime, payload)
  }

  /** The part of a notification the shade is sent. */
  datatype Card = Card(title: string, body: string, tapRoute: string, actionId: string, actionTitle: string)

  datatype Content = Content(card: Card, channel: string)

  datatype Notification = Notification(used: bool, id: int, app: string, content: Content)

  const EMPTY := Notification(false, 0, "", Content(Card("", "", "", "", ""), ""))

  /** What the broker writes about notifications: the reply to a post, and the shade's feed. */
  datatype Notice = Posted(id: int) | Show(id: int, app: string, card: Card) | Hide(id: int)

  datatype Packet<T> = Packet(fd: int, body: T)

  /** The connection table: a descriptor (negative when free) and a registered app id per slot. */
  datatype Table = Table(fds: seq<int>, apps: seq<string>)
  {
    predicate Shape() { |fds| == |apps| == MAX_CLIENTS }

    ghost predicate At(fd: int, app: string)
      requires Shape()
    {
      fd >= 0 && exists i :: 0 <= i < MAX_CLIENTS && fds[i] == fd && apps[i] == app
    }

    ghost predicate Live(app: string)
      requires Shape()
    {
      exists i :: 0 <= i < MAX_CLIENTS && fds[i] >= 0 && apps[i] == app
    }

    /** The first slot of a live connection registered under an app id, or MAX_CLIENTS. */
    function Mailbox(app: string): (i: nat)
      requires Shape()
      ensures i <= MAX_CLIENTS
      ensures i < MAX_CLIENTS ==> At(fds[i], app)
      ensures i == MAX_CLIENTS ==> !Live(app)
    {
      MailboxFrom(app, 0)
    }

    function MailboxFrom(app: string, i: nat): (r: nat)
      requires Shape() && i <= MAX_CLIENTS
      ensures i <= r <= MAX_CLIENTS
      ensures r < MAX_CLIENTS ==> fds[r] >= 0 && apps[r] == app
      ensures forall j :: i <= j < r ==> !(fds[j] >= 0 && apps[j] == app)
      decreases MAX_CLIENTS - i
    {
      if i == MAX_CLIENTS || (fds[i] >= 0 && apps[i] == app) then i else MailboxFrom(app, i + 1)
    }

    function Free(): (i: nat)
      requires Shape()
      ensures i <= MAX_CLIENTS && forall j :: 0 <= j < i ==> fds[j] >= 0
      ensures i < MAX_CLIENTS ==> fds[i] < 0
    {
      FreeFrom(0)
    }

    function FreeFrom(i: nat): (r: nat)
      requires Shape() && i <= MAX_CLIENTS
      ensures i <= r <= MAX_CLIENTS && forall j :: i <= j < r ==> fds[j] >= 0
      ensures r < MAX_CLIENTS ==> fds[r] < 0
      decreases MAX_CLIENTS - i
    {
      if i == MAX_CLIENTS || fds[i] < 0 then i else FreeFrom(i + 1)
    }

    /** Free slots are blank; no descriptor is in two slots. */
    predicate Good()
      requires Shape()
    {
      && (forall i :: 0 <= i < MAX_CLIENTS && fds[i] < 0 ==> fds[i] == -1 && apps[i] == "")
      && (forall i, j :: 0 <= i < j < MAX_CLIENTS && fds[i] >= 0 ==> fds[i] != fds[j])
    }
  }

  // ---------------------------------------------------------------- the queue

  /** The first slot that is not in use, or the length when every slot is. */
  function FirstFree(p: seq<Pending>): (i: nat)
    ensures i <= |p|
    ensures forall j :: 0 <= j < i ==> p[j].used
    ensures i < |p| ==> !p[i].used
  {
    FirstWhere(p, (e: Pending) => !e.used)
  }

  function Enqueued(p: seq<Pending>, e: Pending): seq<Pending>
  {
    var i := FirstFree(p);
    if i < |p| then p[i := e] else p
  }

  function Flushed(p: seq<Pending>, app: string): (r: seq<Pending>)
    ensures |r| == |p|
  {
    seq(|p|, i requires 0 <= i < |p| => if p[i].For(app) then p[i].(used := false) else p[i])
  }

  /** The mail queued for an app, in slot order. */
  function Queue(p: seq<Pending>, app: string): seq<Mail>
  {
    if p == [] then []
    else Queue(p[..|p| - 1], app) + if p[|p| - 1].For(app) then [p[|p| - 1].Body()] else []
  }

  /** Everything queued, with its target. */
  function Owed(p: seq<Pending>): multiset<Item>
  {
    if p == [] then multiset{}
    else
      var e := p[|p| - 1];
      Owed(p[..|p| - 1]) + if e.used then multiset{Item(e.app, e.Body())} else multiset{}
  }

  function Addressed(app: string, mail: seq<Mail>): (r: seq<Item>)
    ensures |r| == |mail|
  {
    seq(|mail|, i requires 0 <= i < |mail| => Item(app, mail[i]))
  }

  lemma {:induction false} OwedUpdate(p: seq<Pending>, i: nat, e: Pending)
    requires i < |p| && !p[i].used && e.used
    ensures Owed(p[i := e]) == Owed(p) + multiset{Item(e.app, e.Body())}
  {
    var q, last := p[..|p| - 1], p[|p| - 1];
    OwedMore(q, last);
    UpdateLast(q, last, i, e);
    hide Owed;
    assert p == q + [last];
    if i == |q| {
      OwedMore(q, e);
    } else {
      OwedUpdate(q, i, e);
      OwedMore(q[i := e], last);
    }
  }

  lemma UpdateLast<T>(q: seq<T>, last: T, i: nat, e: T)
    requires i <= |q|
    ensures (q + [last])[i := e] == if i == |q| then q + [e] else q[i := e] + [last]
  {
  }

  lemma OwedMore(q: seq<Pending>, e: Pending)
    ensures Owed(q + [e]) == Owed(q) + if e.used then multiset{Item(e.app, e.Body())} else multiset{}
  {
    assert (q + [e])[..|q|] == q;
  }

  lemma QueueMore(q: seq<Pending>, e: Pending, app: string)
    ensures Queue(q + [e], app) == Queue(q, app) + if e.For(app) then [e.Body()] else []
  {
    assert (q + [e])[..|q|] == q;
  }

  lemma FlushedMore(q: seq<Pending>, e: Pending, app: string)
    ensures Flushed(q + [e], app) == Flushed(q, app) + [if e.For(app) then e.(used := false) else e]
  {
  }

  /** Flushing an app takes exactly its queue out of what is owed. */
  lemma {:induction false} OwedFlushed(p: seq<Pending>, app: string)
    ensures Owed(p) == Owed(Flushed(p, app)) + multiset(Addressed(app, Queue(p, app)))
    ensures Queue(Flushed(p, app), app) == []
  {
    hide *;
    if p == [] {
      NothingQueued(app);
    } else {
      var q, e := p[..|p| - 1], p[|p| - 1];
      OwedFlushed(q, app);
      OwedFlushedMore(q, e, app);
      assert p == q + [e];
    }
  }

  lemma NothingQueued(app: string)
    ensures Owed([]) == multiset{} && Queue([], app) == [] && Flushed([], app) == [] && Addressed(app, []) == []
  {
  }

  lemma OwedFlushedMore(q: seq<Pending>, e: Pending, app: string)
    requires Owed(q) == Owed(Flushed(q, app)) + multiset(Addressed(app, Queue(q, app)))
    requires Queue(Flushed(q, app), app) == []
    ensures Owed(q + [e]) == Owed(Flushed(q + [e], app)) + multiset(Addressed(app, Queue(q + [e], app)))
    ensures Queue(Flushed(q + [e], app), app) == []
  {
    hide Owed;
    hide Queue;
    hide Flushed;
    hide Addressed;
    FlushedMore(q, e, app);
    OwedMore(q, e);
    QueueMore(q, e, app);
    if e.For(app) {
      OwedMore(Flushed(q, app), e.(used := false));
      QueueMore(Flushed(q, app), e.(used := false), app);
      AddressedMore(app, Queue(q, app), e.Body());
    } else {
      assert Queue(q + [e], app) == Queue(q, app);
      OwedMore(Flushed(q, app), e);
      QueueMore(Flushed(q, app), e, app);
    }
  }

  lemma AddressedMore(app: string, q: seq<Mail>, m: Mail)
    ensures multiset(Addressed(app, q + [m])) == multiset(Addressed(app, q)) + multiset{Item(app, m)}
  {
    assert Addressed(app, q + [m]) == Addressed(app, q) + [Item(app, m)];
  }

  /** New mail lands among the app's queued mail at the place of the slot it took. */
  lemma EnqueueInserts(p: seq<Pending>, e: Pending)
    requires e.used && FirstFree(p) < |p|
    ensures var i := FirstFree(p);
            && Queue(p, e.app) == Queue(p[..i], e.app) + Queue(p[i + 1..], e.app)
            && Queue(Enqueued(p, e), e.app) == Queue(p[..i], e.app) + [e.Body()] + Queue(p[i + 1..], e.app)
  {
    var i := FirstFree(p);
    hide FirstFree;
    hide Queue;
    QueueAround(p, i, e.app);
    QueueWith(p, i, e);
  }

  lemma QueueWith(p: seq<Pending>, i: nat, e: Pending)
    requires i < |p| && e.used
    ensures Queue(p[i := e], e.app) == Queue(p[..i], e.app) + [e.Body()] + Queue(p[i + 1..], e.app)
  {
    hide Queue;
    var q := p[i := e];
    UpdateAround(p, i, e);
    QueueAround(q, i, e.app);
  }

  lemma UpdateAround<T>(p: seq<T>, i: nat, e: T)
    requires i < |p|
    ensures p[i := e][..i] == p[..i] && p[i := e][i + 1..] == p[i + 1..]
  {
  }

  lemma QueueAround(p: seq<Pending>, i: nat, app: string)
    requires i < |p|
    ensures var a, b := Queue(p[..i], app), Queue(p[i + 1..], app);
            Queue(p, app) == if p[i].For(app) then a + [p[i].Body()] + b else a + b
  {
    hide *;
    QueueSplit(p, i + 1, app);
    assert p[..i + 1] == p[..i] + [p[i]];
    QueueMore(p[..i], p[i], app);
    if !p[i].For(app) {
      assert Queue(p[..i + 1], app) == Queue(p[..i], app);
    }
  }

  /** An app's queued mail stays in order exactly when none of it sits behind the first free slot. */
  lemma EnqueueKeepsOrder(p: seq<Pending>, e: Pending)
    requires e.used && FirstFree(p) < |p| && e.Body() !in Queue(p, e.app)
    ensures Queue(Enqueued(p, e), e.app) == Queue(p, e.app) + [e.Body()] <==>
            forall j :: FirstFree(p) < j < |p| ==> !p[j].For(e.app)
  {
    hide *;
    var i := FirstFree(p);
    EnqueueInserts(p, e);
    BehindFree(p, i, e.app);
    Inserted(Queue(p[..i], e.app), Queue(p[i + 1..], e.app), e.Body());
  }

  lemma BehindFree(p: seq<Pending>, i: nat, app: string)
    requires i < |p|
    ensures Queue(p[i + 1..], app) == [] <==> forall j :: i < j < |p| ==> !p[j].For(app)
  {
    var behind := p[i + 1..];
    QueueEmpty(behind, app);
    hide Queue;
    if j :| 0 <= j < |behind| && behind[j].For(app) {
      assert p[i + 1 + j].For(app);
    } else {
      forall j | i < j < |p|
        ensures !p[j].For(app)
      {
        assert p[j] == behind[j - (i + 1)];
      }
    }
  }

  lemma Inserted<T>(a: seq<T>, b: seq<T>, m: T)
    requires m !in a + b
    ensures a + [m] + b == a + b + [m] <==> b == []
  {
    if b != [] {
      assert (a + [m] + b)[|a|] == m;
      assert (a + b + [m])[|a|] == b[0] && b[0] in a + b;
    }
  }

  lemma {:induction false} QueueSplit(p: seq<Pending>, i: nat, app: string)
    requires i <= |p|
    ensures Queue(p, app) == Queue(p[..i], app) + Queue(p[i..], app)
  {
    var n := |p| - 1;
    if i == |p| {
      assert p[..i] == p;
    } else {
      QueueSplit(p[..n], i, app);
      assert p[..n][..i] == p[..i];
      assert p[..n][i..] == p[i..][..n - i];
    }
  }

  lemma {:induction false} QueueEmpty(p: seq<Pending>, app: string)
    ensures Queue(p, app) == [] <==> forall j :: 0 <= j < |p| ==> !p[j].For(app)
  {
    if p != [] {
      var n := |p| - 1;
      QueueEmpty(p[..n], app);
      assert forall j :: 0 <= j < n ==> p[..n][j] == p[j];
    }
  }

  // ---------------------------------------------------------------- the notification store

  function FreeNote(s: seq<Notification>): (i: nat)
    ensures i <= |s|
    ensures forall j :: 0 <= j < i ==> s[j].used
    ensures i < |s| ==> !s[i].used
  {
    FirstWhere(s, (n: Notification) => !n.used)
  }

  /** The slot holding an id, or the length when no slot does. */
  function FindNote(s: seq<Notification>, id: int): (i: nat)
    ensures i <= |s|
    ensures forall j :: 0 <= j < i ==> !(s[j].used && s[j].id == id)
    ensures i < |s| ==> s[i].used && s[i].id == id
  {
    FirstWhere(s, (n: Notification) => n.used && n.id == id)
  }

  function Dropped(s: seq<Notification>, id: int): seq<Notification>
  {
    var i := FindNote(s, id);
    if i < |s| then s[i := s[i].(used := false)] else s
  }

  predicate Distinct(s: seq<Notification>)
  {
    forall i, j :: 0 <= i < j < |s| && s[i].used && s[j].used ==> s[i].id != s[j].id
  }

  /** Every live notification has an id already given out, and a poster. */
  predicate Issued(s: seq<Notification>, next: int)
  {
    forall n <- s :: n.used ==> 0 < n.id < next && n.app != ""
  }

  /** The notification half of the broker. */
  datatype Notes = Notes(store: seq<Notification>, next: int, sink: int, sent: seq<Packet<Notice>>)
  {
    /** A post: refused, dropped by a full store, or stored, answered and shown to the sink. */
    function Post(fd: int, app: string, granted: bool, content: Content): Notes
    {
      var i := FreeNote(store);
      if app == "" || !granted || i == |store| then this.(sent := sent + [Packet(fd, Posted(-1))])
      else
        Notes(store[i := Notification(true, next, app, content)], next + 1, sink,
              sent + [Packet(fd, Posted(next))] + if sink >= 0 then [Packet(sink, Show(next, app, content.card))] else [])
    }

    /** Live notifications have different ids, all given out before, and a named poster. */
    predicate Good() { next > 0 && Issued(store, next) && Distinct(store) }

    /** Remove a notification; the sink hears of it. An unknown id changes nothing. */
    function Drop(id: int): Notes
    {
      if FindNote(store, id) == |store| then this
      else this.(store := Dropped(store, id), sent := sent + if sink >= 0 then [Packet(sink, Hide(id))] else [])
    }
  }

  // ---------------------------------------------------------------- the broker

  /** Delivered mail: the write, the app it was meant for, and the connection table at that moment. */
  datatype Delivery = Delivery(packet: Packet<Mail>, app: string, table: Table)
  {
    ghost predicate Proper() { table.Shape() && table.At(packet.fd, app) }

    function Meaning(): Item { Item(app, packet.body) }
  }

  function Meanings(ds: seq<Delivery>): (r: seq<Item>)
    ensures |r| == |ds|
  {
    seq(|ds|, i requires 0 <= i < |ds| => ds[i].Meaning())
  }

  function Deliveries(fd: int, app: string, mail: seq<Mail>, t: Table): (r: seq<Delivery>)
    ensures |r| == |mail| && Meanings(r) == Addressed(app, mail)
  {
    seq(|mail|, i requires 0 <= i < |mail| => Delivery(Packet(fd, mail[i]), app, t))
  }

  lemma MeaningsJoin(a: seq<Delivery>, b: seq<Delivery>)
    ensures multiset(Meanings(a + b)) == multiset(Meanings(a)) + multiset(Meanings(b))
  {
    assert Meanings(a + b) == Meanings(a) + Meanings(b);
  }

  datatype Event =
    | Accept(fd: int)
    | Register(slot: nat, app: string)
    | Disconnect(slot: nat)
    | Resolve(app: string, kind: Kind, mime: string, url: string, payload: string)
    | Post(fd: int, app: string, granted: bool, content: Content)
    | Cancel(id: int)
    | Act(id: int, action: string)
    | Subscribe(slot: nat)

  /** The whole broker. `resolved` and `lost` record every intent given a target and every intent
      dropped by a full queue. */
  datatype State = State(clients: Table, pending: seq<Pending>, mail: seq<Delivery>, notes: Notes,
                         resolved: multiset<Item>, lost: multiset<Item>)
  {
    predicate Shape()
    {
      clients.Shape() && |pending| == MAX_PENDING && |notes.store| == MAX_NOTIFS
    }

    predicate LiveSlot(slot: nat)
    {
      slot < |clients.fds| && clients.fds[slot] >= 0
    }

    /** Hand an intent to its target: written now if the app has a mailbox, queued otherwise
        (the app is launched meanwhile), dropped when all slots are taken. */
    function Route(e: Pending): State
      requires Shape()
    {
      var item := Item(e.app, e.Body());
      var r := this.(resolved := resolved + multiset{item});
      var i := clients.Mailbox(e.app);
      if i < MAX_CLIENTS then r.(mail := mail + [Delivery(Packet(clients.fds[i], e.Body()), e.app, clients)])
      else if FirstFree(pending) < MAX_PENDING then r.(pending := Enqueued(pending, e))
      else r.(lost := lost + multiset{item})
    }

    /** A connection names its app: everything queued for that app is written to it. */
    function Register(slot: nat, app: string): State
      requires Shape() && LiveSlot(slot)
    {
      var t := clients.(apps := clients.apps[slot := app]);
      this.(clients := t, pending := Flushed(pending, app), mail := mail + Deliveries(t.fds[slot], app, Queue(pending, app), t))
    }

    /** A new connection takes the first free slot; a full table closes it. */
    function Accept(fd: int): State
      requires Shape()
    {
      var i := clients.Free();
      if i == MAX_CLIENTS then this else this.(clients := Table(clients.fds[i := fd], clients.apps[i := ""]))
    }

    /** A connection is gone, and with it its mailbox and its place as the notification sink. */
    function Disconnect(slot: nat): State
      requires Shape() && LiveSlot(slot)
    {
      this.(clients := Table(clients.fds[slot := -1], clients.apps[slot := ""]),
            notes := notes.(sink := if clients.fds[slot] == notes.sink then -1 else notes.sink))
    }

    /** An action tapped on the shade goes to the poster, then the notification goes. */
    function Act(id: int, action: string): State
      requires Shape()
    {
      var i := FindNote(notes.store, id);
      if i == |notes.store| then this
      else
        var r := Route(Pending(true, notes.store[i].app, NotifyAction, "", "", action, id));
        r.(notes := notes.Drop(id))
    }

    /** What the environment can do: descriptors are not reused while open, only open connections
        speak, and resolved targets have a name. */
    predicate Can(e: Event)
    {
      match e
      case Accept(fd) => fd >= 0 && fd !in clients.fds
      case Register(slot, app) => LiveSlot(slot)
      case Disconnect(slot) => LiveSlot(slot)
      case Resolve(app, kind, _, _, _) => app != "" && kind != NotifyAction
      case Subscribe(slot) => LiveSlot(slot)
      case _ => true
    }

    function Next(e: Event): State
      requires Shape() && Can(e)
    {
      match e
      case Accept(fd) => Accept(fd)
      case Register(slot, app) => Register(slot, app)
      case Disconnect(slot) => Disconnect(slot)
      case Resolve(app, kind, mime, url, payload) => Route(Pending(true, app, kind, mime, url, payload, 0))
      case Post(fd, app, granted, content) => this.(notes := notes.Post(fd, app, granted, content))
      case Cancel(id) => this.(notes := notes.Drop(id))
      case Act(id, action) => Act(id, action)
      case Subscribe(slot) => this.(notes := notes.(sink := clients.fds[slot]))
    }

    /** No app with a mailbox has anything waiting. */
    ghost predicate Waiting()
      requires Shape()
    {
      forall p <- pending :: p.used ==> p.app != "" && !clients.Live(p.app)
    }

    /** Every resolved intent was written to a mailbox, waits in one slot, or was dropped. */
    predicate Accounted()
    {
      resolved == multiset(Meanings(mail)) + Owed(pending) + lost
    }

    /** Every write went to a connection registered under the target at that moment. */
    ghost predicate WellDelivered()
    {
      forall d <- mail :: d.Proper()
    }

    ghost predicate Good()
    {
      && Shape()
      && clients.Good()
      && Waiting()
      && Accounted()
      && WellDelivered()
      && notes.Good()
      && (notes.sink == -1 || (notes.sink >= 0 && notes.sink in clients.fds))
    }
  }

  // ---------------------------------------------------------------- what every event keeps

  lemma AcceptGood(s: State, fd: int)
    requires s.Good() && fd >= 0 && fd !in s.clients.fds
    ensures s.Accept(fd).Good()
  {
    var r := s.Accept(fd);
    var i := s.clients.Free();
    if i < MAX_CLIENTS {
      if s.notes.sink != -1 {
        SinkKept(s.clients.fds, i, fd, s.notes.sink);
      }
      forall p <- s.pending | p.used
        ensures !r.clients.Live(p.app)
      {
        LiveAfter(s.clients, r.clients, i, p.app);
      }
    }
  }

  lemma SinkKept(fds: seq<int>, i: nat, fd: int, sink: int)
    requires i < |fds| && fds[i] != sink && sink in fds
    ensures sink in fds[i := fd]
  {
    var j :| 0 <= j < |fds| && fds[j] == sink;
    assert fds[i := fd][j] == sink;
  }

  /** Changing one slot makes no other app live. */
  lemma LiveAfter(t: Table, u: Table, i: nat, app: string)
    requires t.Shape() && u.Shape() && i < MAX_CLIENTS && (u.fds[i] < 0 || u.apps[i] != app)
    requires forall j :: 0 <= j < MAX_CLIENTS && j != i ==> u.fds[j] == t.fds[j] && u.apps[j] == t.apps[j]
    requires !t.Live(app)
    ensures !u.Live(app)
  {
  }

  lemma DisconnectGood(s: State, slot: nat)
    requires s.Good() && s.LiveSlot(slot)
    ensures s.Disconnect(slot).Good()
  {
    var r := s.Disconnect(slot);
    if r.notes.sink != -1 {
      SinkKept(s.clients.fds, slot, -1, s.notes.sink);
    }
    forall p <- s.pending | p.used
      ensures !r.clients.Live(p.app)
    {
      LiveAfter(s.clients, r.clients, slot, p.app);
    }
  }

  lemma RegisterGood(s: State, slot: nat, app: string)
    requires s.Good() && s.LiveSlot(slot)
    ensures s.Register(slot, app).Good()
  {
    var r := s.Register(slot, app);
    var t := r.clients;
    var sent := Deliveries(t.fds[slot], app, Queue(s.pending, app), t);
    OwedFlushed(s.pending, app);
    MeaningsJoin(s.mail, sent);
    assert t.At(t.fds[slot], app) by {
      assert t.apps[slot] == app;
    }
    forall p <- r.pending | p.used
      ensures p.app != "" && !t.Live(p.app)
    {
      assert p in s.pending && p.app != app;
      LiveAfter(s.clients, t, slot, p.app);
    }
  }

  lemma RouteGood(s: State, e: Pending)
    requires s.Good() && e.used && e.app != ""
    ensures s.Route(e).Good()
  {
    assert s.Shape();
    hide Table.Mailbox;
    hide FirstFree;
    hide State.Good;
    hide State.Route;
    if s.clients.Mailbox(e.app) < MAX_CLIENTS {
      DeliveredGood(s, e);
    } else if FirstFree(s.pending) < MAX_PENDING {
      EnqueuedGood(s, e);
    } else {
      LostGood(s, e);
    }
  }

  lemma LostGood(s: State, e: Pending)
    requires s.Good() && s.clients.Mailbox(e.app) == MAX_CLIENTS && FirstFree(s.pending) == MAX_PENDING
    ensures s.Route(e).Good()
  {
    hide Owed;
    hide FirstFree;
  }

  lemma DeliveredGood(s: State, e: Pending)
    requires s.Good() && s.clients.Mailbox(e.app) < MAX_CLIENTS
    ensures s.Route(e).Good()
  {
    var d := Delivery(Packet(s.clients.fds[s.clients.Mailbox(e.app)], e.Body()), e.app, s.clients);
    assert d.Proper();
    MeaningsJoin(s.mail, [d]);
    assert Meanings([d]) == [d.Meaning()];
  }

  lemma EnqueuedGood(s: State, e: Pending)
    requires s.Good() && e.used && e.app != ""
    requires s.clients.Mailbox(e.app) == MAX_CLIENTS && FirstFree(s.pending) < MAX_PENDING
    ensures s.Route(e).Good()
  {
    EnqueuedWaits(s, e);
    EnqueuedAccounted(s, e);
    hide Table.Mailbox;
    hide FirstFree;
    StillGood(s, s.Route(e));
  }

  lemma EnqueuedAccounted(s: State, e: Pending)
    requires s.Shape() && s.Accounted() && e.used
    requires s.clients.Mailbox(e.app) == MAX_CLIENTS && FirstFree(s.pending) < MAX_PENDING
    ensures s.Route(e).Accounted()
  {
    OwedUpdate(s.pending, FirstFree(s.pending), e);
    hide Owed;
    hide Table.Mailbox;
    hide FirstFree;
    hide Meanings;
  }

  /** Only the queue and the books have changed. */
  lemma StillGood(s: State, r: State)
    requires s.Good() && r == s.(pending := r.pending, resolved := r.resolved, lost := r.lost)
    requires |r.pending| == MAX_PENDING && r.Waiting() && r.Accounted()
    ensures r.Good()
  {
  }

  lemma EnqueuedWaits(s: State, e: Pending)
    requires s.Shape() && s.Waiting() && e.used && e.app != "" && !s.clients.Live(e.app)
    requires s.clients.Mailbox(e.app) == MAX_CLIENTS && FirstFree(s.pending) < MAX_PENDING
    ensures s.Route(e).Waiting()
  {
    var r := s.Route(e);
    hide FirstFree;
    hide Table.Live;
    forall p <- r.pending | p.used
      ensures p.app != "" && !r.clients.Live(p.app)
    {
      assert p == e || p in s.pending;
    }
  }

  lemma PostGood(n: Notes, fd: int, app: string, granted: bool, content: Content)
    requires n.Good()
    ensures n.Post(fd, app, granted, content).Good()
  {
  }

  lemma DropGood(n: Notes, id: int)
    requires n.Good()
    ensures n.Drop(id).Good()
  {
  }

  lemma ActGood(s: State, id: int, action: string)
    requires s.Good()
    ensures s.Act(id, action).Good()
  {
    var i := FindNote(s.notes.store, id);
    if i < |s.notes.store| {
      RouteGood(s, Pending(true, s.notes.store[i].app, NotifyAction, "", "", action, id));
      DropGood(s.notes, id);
    }
  }

  lemma NextGood(s: State, e: Event)
    requires s.Good() && s.Can(e)
    ensures s.Next(e).Good()
  {
    match e
    case Accept(fd) => AcceptGood(s, fd);
    case Register(slot, app) => RegisterGood(s, slot, app);
    case Disconnect(slot) => DisconnectGood(s, slot);
    case Resolve(app, kind, mime, url, payload) => RouteGood(s, Pending(true, app, kind, mime, url, payload, 0));
    case Post(fd, app, granted, content) => PostGood(s.notes, fd, app, granted, content);
    case Cancel(id) => DropGood(s.notes, id);
    case Act(id, action) => ActGood(s, id, action);
    case Subscribe(slot) =>
  }

  // ---------------------------------------------------------------- every run

  const BOOT: State :=
    State(Table(seq(MAX_CLIENTS, _ => -1), seq(MAX_CLIENTS, _ => "")), seq(MAX_PENDING, _ => FREE), [],
          Notes(seq(MAX_NOTIFS, _ => EMPTY), 1, -1, []), multiset{}, multiset{})

  lemma BootGood()
    ensures BOOT.Good()
  {
    NothingOwed(BOOT.pending);
  }

  lemma {:induction false} NothingOwed(p: seq<Pending>)
    requires forall e <- p :: !e.used
    ensures Owed(p) == multiset{}
  {
    if p != [] {
      NothingOwed(p[..|p| - 1]);
    }
  }

  /** The broker after a run of events, if the environment keeps to its side. */
  ghost predicate Reaches(s: State, es: seq<Event>, r: State)
    decreases |es|
  {
    if es == [] then r == s
    else s.Shape() && s.Can(es[0]) && Reaches(s.Next(es[0]), es[1..], r)
  }

  /** In every run from boot: resolved intents are delivered, queued once or dropped; deliveries
      reach the named app; and nothing waits for an app that is connected. */
  lemma {:induction false} RunGood(s: State, es: seq<Event>, r: State)
    requires s.Good() && Reaches(s, es, r)
    ensures r.Good()
    decreases |es|
  {
    hide State.Next;
    hide State.Good;
    hide State.Can;
    if es != [] {
      NextGood(s, es[0]);
      RunGood(s.Next(es[0]), es[1..], r);
    }
  }

  predicate Gone(n: Notes, id: int)
  {
    0 < id < n.next && forall x <- n.store :: x.used ==> x.id != id
  }

  lemma NextKeepsGone(s: State, e: Event, id: int)
    requires s.Good() && s.Can(e) && Gone(s.notes, id)
    ensures Gone(s.Next(e).notes, id)
  {
    assert s.Shape();
    hide State.Register;
    hide State.Act;
    hide State.Good;
    match e
    case Act(x, action) =>
      ActNotes(s, x, action);
      DropKeepsGone(s.notes, x, id);
    case Cancel(x) => DropKeepsGone(s.notes, x, id);
    case Post(fd, app, granted, content) => PostKeepsGone(s.notes, fd, app, granted, content, id);
    case Register(slot, app) => RegisterNotes(s, slot, app);
    case _ =>
  }

  lemma RegisterNotes(s: State, slot: nat, app: string)
    requires s.Shape() && s.LiveSlot(slot)
    ensures s.Register(slot, app).notes == s.notes
  {
  }

  lemma DropKeepsGone(n: Notes, x: int, id: int)
    requires Gone(n, id)
    ensures Gone(n.Drop(x), id)
  {
  }

  lemma PostKeepsGone(n: Notes, fd: int, app: string, granted: bool, content: Content, id: int)
    requires Gone(n, id)
    ensures Gone(n.Post(fd, app, granted, content), id)
  {
  }

  lemma ActNotes(s: State, id: int, action: string)
    requires s.Shape()
    ensures s.Act(id, action).notes == s.notes.Drop(id)
  {
  }

  /** An id given out and dropped never comes back, in any run. */
  lemma {:induction false} IdsNeverReturn(s: State, es: seq<Event>, r: State, id: int)
    requires s.Good() && Reaches(s, es, r) && Gone(s.notes, id)
    ensures Gone(r.notes, id)
    decreases |es|
  {
    hide State.Next;
    hide State.Good;
    hide State.Can;
    hide Gone;
    if es != [] {
      NextGood(s, es[0]);
      NextKeepsGone(s, es[0], id);
      IdsNeverReturn(s.Next(es[0]), es[1..], r, id);
    }
  }

  /** The event asks for `item`: a link or a share resolved to an app, or an action tapped on a live
      notification, which goes to its poster. */
  ghost predicate Asks(s: State, e: Event, item: Item)
  {
    match e
    case Resolve(app, Share, mime, _, payload) => item == Item(app, ShareMail(mime, payload))
    case Resolve(app, OpenUrl, _, url, _) => item == Item(app, UrlMail(url))
    case Act(id, action) => exists n <- s.notes.store :: n.used && n.id == id && item == Item(n.app, ActionMail(id, action))
    case _ => false
  }

  /** What becomes of an intent: it is written to a connection of its app, or waits if there is none and
      a slot is free, or is lost. */
  ghost predicate Served(s: State, r: State, item: Item)
    requires s.Shape()
  {
    && r.resolved == s.resolved + multiset{item} && r.clients == s.clients
    && if s.clients.Live(item.app) then
         && r.pending == s.pending && r.lost == s.lost
         && exists fd :: s.clients.At(fd, item.app) && r.mail == s.mail + [Delivery(Packet(fd, item.mail), item.app, s.clients)]
       else
         && r.mail == s.mail
         && if exists p <- s.pending :: !p.used then Owed(r.pending) == Owed(s.pending) + multiset{item} && r.lost == s.lost
            else r.pending == s.pending && r.lost == s.lost + multiset{item}
  }

  /** Every intent asked for is served. */
  lemma IntentServed(s: State, e: Event, item: Item)
    requires s.Good() && s.Can(e) && Asks(s, e, item)
    ensures Served(s, s.Next(e), item)
  {
    hide State.Route;
    hide State.Good;
    match e
    case Resolve(app, kind, mime, url, payload) =>
      assert s.Shape() by { ShapeOf(s); }
      RouteServes(s, Pending(true, app, kind, mime, url, payload, 0), item);
    case Act(id, action) =>
      assert s.Shape() && Distinct(s.notes.store) by { ShapeOf(s); }
      var n :| n in s.notes.store && n.used && n.id == id && item == Item(n.app, ActionMail(id, action));
      var j :| 0 <= j < |s.notes.store| && s.notes.store[j] == n;
      assert FindNote(s.notes.store, id) == j;
      RouteServes(s, Pending(true, n.app, NotifyAction, "", "", action, id), item);
    case _ =>
  }

  lemma ShapeOf(s: State)
    requires s.Good()
    ensures s.Shape() && s.clients.Good() && Distinct(s.notes.store)
  {
  }

  lemma RouteServes(s: State, e: Pending, item: Item)
    requires s.Shape() && e.used && item == Item(e.app, e.Body())
    ensures Served(s, s.Route(e), item) && s.Route(e).notes == s.notes
  {
    FreeSlot(s.pending, e);
    hide FirstFree;
    hide Enqueued;
    hide Owed;
    hide Pending.Body;
  }

  lemma FreeSlot(p: seq<Pending>, e: Pending)
    requires e.used
    ensures FirstFree(p) < |p| <==> exists x <- p :: !x.used
    ensures FirstFree(p) < |p| ==> Owed(Enqueued(p, e)) == Owed(p) + multiset{Item(e.app, e.Body())}
  {
    var i := FirstFree(p);
    if i < |p| {
      assert p[i] in p;
      OwedUpdate(p, i, e);
    }
    hide Owed;
  }

  /** Only intents that are asked for are resolved, lost or queued, and only they and registrations write
      mail. */
  lemma OnlyIntentsResolve(s: State, e: Event)
    requires s.Good() && s.Can(e)
    ensures (exists item :: Asks(s, e, item)) ||
            (s.Next(e).resolved == s.resolved && s.Next(e).lost == s.lost &&
             (e.Register? || (s.Next(e).mail == s.mail && s.Next(e).pending == s.pending)))
  {
    hide State.Route;
    match e
    case Resolve(app, kind, mime, url, payload) =>
      assert Asks(s, e, Item(app, if kind == OpenUrl then UrlMail(url) else ShareMail(mime, payload)));
    case Act(id, action) =>
      var i := FindNote(s.notes.store, id);
      if i < |s.notes.store| {
        assert s.notes.store[i] in s.notes.store;
        assert Asks(s, e, Item(s.notes.store[i].app, ActionMail(id, action)));
      }
    case _ =>
  }

  /** Who is connected as what after an event: a connection is nobody's mailbox until it registers, then
      that of the app it registered for last, and gone when it disconnects. */
  ghost predicate Connects(t: Table, e: Event, fd: int, app: string)
    requires t.Shape()
  {
    match e
    case Accept(x) => t.At(fd, app) || (fd == x && app == "" && exists y <- t.fds :: y < 0)
    case Register(slot, name) => slot < MAX_CLIENTS && if fd == t.fds[slot] then app == name && fd >= 0 else t.At(fd, app)
    case Disconnect(slot) => slot < MAX_CLIENTS && fd != t.fds[slot] && t.At(fd, app)
    case _ => t.At(fd, app)
  }

  ghost predicate ConnectedAfter(t: Table, e: Event, u: Table)
    requires t.Shape()
  {
    u.Shape() && forall fd, app :: u.At(fd, app) <==> Connects(t, e, fd, app)
  }

  lemma ConnectionsAre(s: State, e: Event)
    requires s.Shape() && s.Good() && s.Can(e)
    ensures ConnectedAfter(s.clients, e, s.Next(e).clients)
  {
    assert s.clients.Good() by { ShapeOf(s); }
    hide State.Good;
    hide Table.Good;
    hide ConnectedAfter;
    match e
    case Accept(x) => AcceptConnects(s.clients, x);
    case Register(slot, name) => RegisterConnects(s.clients, slot, name);
    case Disconnect(slot) => DisconnectConnects(s.clients, slot);
    case Resolve(app, kind, mime, url, payload) =>
      TableKept(s, Pending(true, app, kind, mime, url, payload, 0));
      SameConnects(s.clients, e);
    case Act(id, action) =>
      var i := FindNote(s.notes.store, id);
      if i < |s.notes.store| {
        TableKept(s, Pending(true, s.notes.store[i].app, NotifyAction, "", "", action, id));
      }
      hide State.Route;
      SameConnects(s.clients, e);
    case _ => SameConnects(s.clients, e);
  }

  lemma SameConnects(t: Table, e: Event)
    requires t.Shape() && !e.Accept? && !e.Register? && !e.Disconnect?
    ensures ConnectedAfter(t, e, t)
  {
    hide Table.At;
  }

  lemma AcceptConnects(t: Table, x: int)
    requires t.Shape() && t.Good() && x >= 0
    ensures var i := t.Free(); ConnectedAfter(t, Accept(x), if i == MAX_CLIENTS then t else Table(t.fds[i := x], t.apps[i := ""]))
  {
    var i := t.Free();
    assert i < MAX_CLIENTS ==> t.fds[i] in t.fds;
    assert i < MAX_CLIENTS ==> forall app :: !t.At(t.fds[i], app);
    Replaced(t, i, x, "");
    hide Table.At;
    hide Table.Good;
  }

  lemma RegisterConnects(t: Table, slot: nat, name: string)
    requires t.Shape() && t.Good() && slot < MAX_CLIENTS && t.fds[slot] >= 0
    ensures ConnectedAfter(t, Register(slot, name), t.(apps := t.apps[slot := name]))
  {
    assert t.fds[slot := t.fds[slot]] == t.fds;
    Replaced(t, slot, t.fds[slot], name);
    hide Table.At;
    hide Table.Good;
  }

  lemma DisconnectConnects(t: Table, slot: nat)
    requires t.Shape() && t.Good() && slot < MAX_CLIENTS && t.fds[slot] >= 0
    ensures ConnectedAfter(t, Disconnect(slot), Table(t.fds[slot := -1], t.apps[slot := ""]))
  {
    Replaced(t, slot, -1, "");
    hide Table.At;
    hide Table.Good;
  }

  lemma TableKept(s: State, e: Pending)
    requires s.Shape() && e.used
    ensures s.Route(e).clients == s.clients && s.Route(e).notes == s.notes
  {
  }

  /** The shade is the connection that subscribed last, while it lasts. */
  lemma SinkIs(s: State, e: Event)
    requires s.Good() && s.Can(e)
    ensures s.Next(e).notes.sink ==
              match e
              case Subscribe(slot) => s.clients.fds[slot]
              case Disconnect(slot) => if s.clients.fds[slot] == s.notes.sink then -1 else s.notes.sink
              case _ => s.notes.sink
  {
    assert s.Shape() by { ShapeOf(s); }
    hide State.Good;
    match e
    case Resolve(app, kind, mime, url, payload) => TableKept(s, Pending(true, app, kind, mime, url, payload, 0));
    case Act(id, action) => ActNotes(s, id, action);
    case _ =>
  }

  /** The table with another entry in one slot. */
  lemma Replaced(t: Table, i: nat, fd: int, app: string)
    requires t.Shape() && t.Good() && i <= MAX_CLIENTS
    ensures i < MAX_CLIENTS ==>
              var u := Table(t.fds[i := fd], t.apps[i := app]);
              forall x, name :: u.At(x, name) <==> (x >= 0 && x == fd && name == app) || (t.At(x, name) && x != t.fds[i])
  {
    if i < MAX_CLIENTS {
      var u := Table(t.fds[i := fd], t.apps[i := app]);
      assert forall j :: 0 <= j < MAX_CLIENTS && j != i ==> u.fds[j] == t.fds[j] && u.apps[j] == t.apps[j];
      assert u.fds[i] == fd && u.apps[i] == app;
    }
  }

  /** An intent is dropped only when its target has no mailbox and all sixteen slots are taken. */
  lemma LostOnlyWhenFull(s: State, e: Event)
    requires s.Good() && s.Can(e) && s.Next(e).lost != s.lost
    ensures e.Resolve? || e.Act?
    ensures |s.pending| == 16 && forall p <- s.pending :: p.used
    ensures s.Next(e).mail == s.mail && s.Next(e).pending == s.pending
    ensures exists item :: s.Next(e).lost == s.lost + multiset{item} && !s.clients.Live(item.app)
  {
    if e.Resolve? {
      RouteLoses(s, Pending(true, e.app, e.kind, e.mime, e.url, e.payload, 0));
    } else if e.Act? {
      var i := FindNote(s.notes.store, e.id);
      if i < |s.notes.store| {
        RouteLoses(s, Pending(true, s.notes.store[i].app, NotifyAction, "", "", e.action, e.id));
      }
    }
  }

  lemma RouteLoses(s: State, p: Pending)
    requires s.Shape()
    ensures s.Route(p).lost != s.lost ==>
              && (forall q <- s.pending :: q.used) && !s.clients.Live(p.app)
              && s.Route(p) == s.(lost := s.lost + multiset{Item(p.app, p.Body())}, resolved := s.resolved + multiset{Item(p.app, p.Body())})
  {
  }

  /** Registering delivers the whole queue of the app, in slot order, and leaves the others alone. */
  lemma RegisterDeliversAll(s: State, slot: nat, app: string)
    requires s.Good() && s.LiveSlot(slot)
    ensures var r := s.Register(slot, app);
            && Queue(r.pending, app) == []
            && r.mail[..|s.mail|] == s.mail
            && multiset(Meanings(r.mail[|s.mail|..])) == multiset(Addressed(app, Queue(s.pending, app)))
            && forall d <- r.mail[|s.mail|..] :: d.packet.fd == s.clients.fds[slot]
    ensures forall other :: other != app ==> Queue(s.Register(slot, app).pending, other) == Queue(s.pending, other)
  {
    var t := s.clients.(apps := s.clients.apps[slot := app]);
    var sent := Deliveries(t.fds[slot], app, Queue(s.pending, app), t);
    OwedFlushed(s.pending, app);
    assert (s.mail + sent)[|s.mail|..] == sent;
    forall other | other != app
      ensures Queue(Flushed(s.pending, app), other) == Queue(s.pending, other)
    {
      FlushedOthers(s.pending, app, other);
    }
  }

  lemma {:induction false} FlushedOthers(p: seq<Pending>, app: string, other: string)
    requires other != app
    ensures Queue(Flushed(p, app), other) == Queue(p, other)
  {
    if p != [] {
      var q, e := p[..|p| - 1], p[|p| - 1];
      FlushedOthers(q, app, other);
      assert p == q + [e];
      FlushedMore(q, e, app);
      QueueMore(Flushed(q, app), if e.For(app) then e.(used := false) else e, other);
    }
  }

  // ---------------------------------------------------------------- the process

  /** The broker's tables as the process keeps and changes them. */
  class Broker {
    const clientFd: array<int>
    const clientApp: array<string>
    const pending: array<Pending>
    const notifs: array<Notification>
    var nextId: int
    var shadeFd: int
    var mail: seq<Delivery>
    var notices: seq<Packet<Notice>>
    ghost var resolved: multiset<Item>
    ghost var lost: multiset<Item>

    predicate Shape()
    {
      clientFd.Length == clientApp.Length == MAX_CLIENTS && pending.Length == MAX_PENDING && notifs.Length == MAX_NOTIFS
    }

    function Clients(): Table
      reads clientFd, clientApp
    {
      Table(clientFd[..], clientApp[..])
    }

    function Notices(): Notes
      reads this, notifs
    {
      Notes(notifs[..], nextId, shadeFd, notices)
    }

    ghost function Snapshot(): State
      reads this, clientFd, clientApp, pending, notifs
    {
      State(Clients(), pending[..], mail, Notices(), resolved, lost)
    }

    constructor ()
      ensures Shape() && Snapshot() == BOOT
      ensures fresh(clientFd) && fresh(clientApp) && fresh(pending) && fresh(notifs)
    {
      clientFd := new int[MAX_CLIENTS](_ => -1);
      clientApp := new string[MAX_CLIENTS](_ => "");
      pending := new Pending[MAX_PENDING](_ => FREE);
      notifs := new Notification[MAX_NOTIFS](_ => EMPTY);
      nextId, shadeFd := 1, -1;
      mail, notices := [], [];
      resolved, lost := multiset{}, multiset{};
    }

    /** The descriptor of the first live connection registered under an app id, or -1. */
    method MailboxFd(app: string) returns (fd: int)
      requires Shape()
      ensures var i := Clients().Mailbox(app); if i < MAX_CLIENTS then fd == clientFd[i] && fd >= 0 else fd == -1
    {
      for i := 0 to MAX_CLIENTS
        invariant Clients().Mailbox(app) == Clients().MailboxFrom(app, i)
      {
        if clientFd[i] >= 0 && clientApp[i] == app {
          return clientFd[i];
        }
      }
      return -1;
    }

    /** Put an intent in the first free slot; a full queue drops it. */
    method EnqueuePending(e: Pending) returns (ok: bool)
      requires Shape()
      modifies pending
      ensures ok <==> FirstFree(old(pending[..])) < MAX_PENDING
      ensures pending[..] == Enqueued(old(pending[..]), e)
      ensures !ok ==> pending[..] == old(pending[..])
    {
      for i := 0 to MAX_PENDING
        invariant forall j :: 0 <= j < i ==> pending[j].used
        invariant pending[..] == old(pending[..])
      {
        if !pending[i].used {
          assert FirstFree(pending[..]) == i;
          pending[i] := e;
          return true;
        }
      }
      return false;
    }

    /** Write every intent queued for an app to its new mailbox, slot by slot. */
    method FlushPending(app: string, fd: int)
      requires Shape()
      modifies this`mail, pending
      ensures pending[..] == Flushed(old(pending[..]), app)
      ensures mail == old(mail) + Deliveries(fd, app, Queue(old(pending[..]), app), Clients())
    {
      ghost var was := pending[..];
      for i := 0 to MAX_PENDING
        invariant forall j :: 0 <= j < i ==> pending[j] == Flushed(was, app)[j]
        invariant forall j :: i <= j < MAX_PENDING ==> pending[j] == was[j]
        invariant mail == old(mail) + Deliveries(fd, app, Queue(was[..i], app), Clients())
      {
        assert was[..i + 1][..i] == was[..i];
        if pending[i].used && pending[i].app == app {
          mail := mail + [Delivery(Packet(fd, pending[i].Body()), app, Clients())];
          pending[i] := pending[i].(used := false);
        }
      }
      assert was[..MAX_PENDING] == was;
    }

    method DeliverOrQueue(e: Pending)
      requires Shape()
      modifies this`mail, this`resolved, this`lost, pending
      ensures Snapshot() == old(Snapshot()).Route(e)
    {
      hide Table.Mailbox;
      hide FirstFree;
      hide Enqueued;
      hide Letter;
      resolved := resolved + multiset{Item(e.app, e.Body())};
      var fd := MailboxFd(e.app);
      if fd >= 0 {
        mail := mail + [Delivery(Packet(fd, e.Body()), e.app, Clients())];
      } else {
        var ok := EnqueuePending(e);
        if !ok {
          lost := lost + multiset{Item(e.app, e.Body())};
        }
      }
    }

    method Register(slot: nat, app: string)
      requires Shape() && slot < MAX_CLIENTS && clientFd[slot] >= 0
      modifies this`mail, clientApp, pending
      ensures Snapshot() == old(Snapshot()).Register(slot, app)
    {
      clientApp[slot] := app;
      FlushPending(app, clientFd[slot]);
    }

    method Accept(fd: int)
      requires Shape() && fd >= 0
      modifies clientFd, clientApp
      ensures Snapshot() == old(Snapshot()).Accept(fd)
    {
      for i := 0 to MAX_CLIENTS
        invariant Clients() == old(Clients()) && Clients().Free() == Clients().FreeFrom(i)
      {
        if clientFd[i] < 0 {
          clientFd[i] := fd;
          clientApp[i] := "";
          return;
        }
      }
    }

    method Disconnect(slot: nat)
      requires Shape() && slot < MAX_CLIENTS && clientFd[slot] >= 0
      modifies this`shadeFd, clientFd, clientApp
      ensures Snapshot() == old(Snapshot()).Disconnect(slot)
    {
      var fd := clientFd[slot];
      clientFd[slot] := -1;
      clientApp[slot] := "";
      if fd == shadeFd {
        shadeFd := -1;
      }
    }

    /** Store a notification, answer the poster, and show it. */
    method HandleNotifyPost(fd: int, app: string, granted: bool, content: Content)
      requires Shape()
      modifies this`nextId, this`notices, notifs
      ensures Notices() == old(Notices()).Post(fd, app, granted, content)
    {
      if app == "" || !granted {
        notices := notices + [Packet(fd, Posted(-1))];
        return;
      }
      var i := 0;
      while i < MAX_NOTIFS && notifs[i].used
        invariant i <= MAX_NOTIFS && forall j :: 0 <= j < i ==> notifs[j].used
      {
        i := i + 1;
      }
      assert i < MAX_NOTIFS ==> !notifs[..][i].used;
      assert i == FreeNote(notifs[..]);
      if i == MAX_NOTIFS {
        notices := notices + [Packet(fd, Posted(-1))];
        return;
      }
      var id := nextId;
      notifs[i] := Notification(true, id, app, content);
      nextId := nextId + 1;
      notices := notices + [Packet(fd, Posted(id))];
      if shadeFd >= 0 {
        notices := notices + [Packet(shadeFd, Show(id, app, content.card))];
      }
    }

    method NotifFind(id: int) returns (i: nat)
      requires Shape()
      ensures i == FindNote(notifs[..], id)
    {
      i := 0;
      while i < MAX_NOTIFS && !(notifs[i].used && notifs[i].id == id)
        invariant i <= MAX_NOTIFS && forall j :: 0 <= j < i ==> !(notifs[j].used && notifs[j].id == id)
      {
        i := i + 1;
      }
      assert i < MAX_NOTIFS ==> notifs[..][i].used && notifs[..][i].id == id;
    }

    method NotifDrop(id: int)
      requires Shape()
      modifies this`notices, notifs
      ensures Notices() == old(Notices()).Drop(id)
    {
      var i := NotifFind(id);
      if i == MAX_NOTIFS {
        return;
      }
      notifs[i] := notifs[i].(used := false);
      if shadeFd >= 0 {
        notices := notices + [Packet(shadeFd, Hide(id))];
      }
    }

    method RouteNotifyAction(id: int, action: string)
      requires Shape()
      modifies this`mail, this`resolved, this`lost, this`notices, pending, notifs
      ensures Snapshot() == old(Snapshot()).Act(id, action)
    {
      hide State.Route;
      hide Notes.Drop;
      var i := NotifFind(id);
      if i == MAX_NOTIFS {
        return;
      }
      DeliverOrQueue(Pending(true, notifs[i].app, NotifyAction, "", "", action, id));
      NotifDrop(id);
    }

    /** One event from the outside. */
    method Handle(e: Event)
      requires Shape() && Snapshot().Good() && Snapshot().Can(e)
      modifies this, clientFd, clientApp, pending, notifs
      ensures Snapshot() == old(Snapshot()).Next(e) && Snapshot().Good()
    {
      NextGood(Snapshot(), e);
      hide State.Good;
      hide State.Register;
      hide State.Route;
      hide State.Accept;
      hide State.Disconnect;
      hide State.Act;
      hide Notes.Post;
      hide Notes.Drop;
      match e {
        case Accept(fd) => Accept(fd);
        case Register(slot, app) => Register(slot, app);
        case Disconnect(slot) => Disconnect(slot);
        case Resolve(app, kind, mime, url, payload) => DeliverOrQueue(Pending(true, app, kind, mime, url, payload, 0));
        case Post(fd, app, granted, content) => HandleNotifyPost(fd, app, granted, content);
        case Cancel(id) => NotifDrop(id);
        case Act(id, action) => RouteNotifyAction(id, action);
        case Subscribe(slot) => shadeFd := clientFd[slot];
      }
    }
  }
}
