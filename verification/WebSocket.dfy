/** The WebSocket client's codec: frames of RFC 6455 section 5.2 over a growing byte buffer. */
module WebSocket {

  type Byte = x: int | 0 <= x < 256

  /** Exclusive or of the lowest `n` bits, bit by bit. */
  function XorBits(a: nat, b: nat, n: nat): nat
  {
    if n == 0 then 0 else (a % 2 + b % 2) % 2 + 2 * XorBits(a / 2, b / 2, n - 1)
  }

  function Power2(n: nat): nat { if n == 0 then 1 else 2 * Power2(n - 1) }

  lemma {:induction false} XorBitsBelow(a: nat, b: nat, n: nat)
    ensures XorBits(a, b, n) < Power2(n)
  {
    if n > 0 {
      XorBitsBelow(a / 2, b / 2, n - 1);
    }
  }

  lemma {:induction false} XorBitsTwice(a: nat, b: nat, n: nat)
    requires a < Power2(n)
    ensures XorBits(XorBits(a, b, n), b, n) == a
  {
    if n > 0 {
      var rest := XorBits(a / 2, b / 2, n - 1);
      XorBitsTwice(a / 2, b / 2, n - 1);
      XorStep(a, b, n);
      Halves((a % 2 + b % 2) % 2, rest);
      XorStep(XorBits(a, b, n), b, n);
      hide XorBits;
      BitTwice(a % 2, b % 2);
    }
  }

  lemma XorStep(a: nat, b: nat, n: nat)
    requires n > 0
    ensures XorBits(a, b, n) == (a % 2 + b % 2) % 2 + 2 * XorBits(a / 2, b / 2, n - 1)
  {
  }

  lemma BitTwice(x: nat, y: nat)
    requires x < 2 && y < 2
    ensures ((x + y) % 2 + y) % 2 == x
  {
  }

  lemma Halves(bit: nat, rest: nat)
    requires bit < 2
    ensures (bit + 2 * rest) / 2 == rest && (bit + 2 * rest) % 2 == bit
  {
  }

  function Xor(a: Byte, b: Byte): Byte
  {
    XorBitsBelow(a, b, 8);
    EightBits();
    XorBits(a, b, 8)
  }

  lemma EightBits()
    ensures Power2(8) == 256
  {
  }

  /** Masking twice with the same byte gives the byte back. */
  lemma XorTwice(a: Byte, b: Byte)
    ensures Xor(Xor(a, b), b) == a
  {
    EightBits();
    XorBitsTwice(a, b, 8);
  }

  // ---------------------------------------------------------------- frames

  const TEXT: nat := 1
  const CLOSE: nat := 8

  /** What stands at the front of the buffer. */
  datatype Head =
    | Partial
    | TooLong
    | Frame(opcode: nat, masked: bool, start: nat, len: nat)
  {
    function End(): nat requires Frame? { start + len }
  }

  /** Two bytes, most significant first. */
  function Word(high: Byte, low: Byte): nat { high as int * 256 + low as int }

  function HeadOf(s: seq<Byte>): (h: Head)
    ensures h.Frame? ==> 2 <= h.start && h.End() <= |s|
  {
    if |s| < 2 then Partial
    else
      var short := s[1] % 128;
      if short == 126 && |s| < 4 then Partial
      else if short == 127 then TooLong
      else
        var len := if short == 126 then Word(s[2], s[3]) else short;
        var masked := s[1] >= 128;
        var start := (if short == 126 then 4 else 2) + if masked then 4 else 0;
        if |s| < start + len then Partial else Frame(s[0] % 16, masked, start, len)
  }

  /** The outcome of parsing a buffer: the text payloads delivered, the bytes left, and whether a
      close frame ended the connection. */
  datatype Parse = Parse(texts: seq<seq<Byte>>, rest: seq<Byte>, closed: bool)

  function Decode(s: seq<Byte>): Parse
    decreases |s|
  {
    var h := HeadOf(s);
    if !h.Frame? then Parse([], s, false)
    else if h.opcode == CLOSE then Parse([], s[h.End()..], true)
    else
      var r := Decode(s[h.End()..]);
      if h.opcode == TEXT then r.(texts := [s[h.start..h.End()]] + r.texts) else r
  }

  /** Parse what is left with more bytes behind it; nothing is parsed after a close. */
  function More(p: Parse, b: seq<Byte>): Parse
  {
    if p.closed then p.(rest := p.rest + b)
    else
      var q := Decode(p.rest + b);
      Parse(p.texts + q.texts, q.rest, q.closed)
  }

  /** A complete frame stays the same frame when bytes arrive behind it. */
  lemma HeadStable(a: seq<Byte>, b: seq<Byte>)
    requires HeadOf(a).Frame?
    ensures HeadOf(a + b) == HeadOf(a)
  {
    assert (a + b)[0] == a[0] && (a + b)[1] == a[1];
    if a[1] % 128 == 126 {
      assert (a + b)[2] == a[2] && (a + b)[3] == a[3];
    }
  }

  /** Decoding a stream in two pieces is decoding it in one. */
  lemma {:induction false} DecodeSplit(a: seq<Byte>, b: seq<Byte>)
    ensures Decode(a + b) == More(Decode(a), b)
    decreases |a|
  {
    var h := HeadOf(a);
    if h.Frame? {
      HeadStable(a, b);
      hide HeadOf;
      var rest := a[h.End()..];
      assert (a + b)[h.End()..] == rest + b;
      assert (a + b)[h.start..h.End()] == a[h.start..h.End()];
      if h.opcode != CLOSE {
        DecodeSplit(rest, b);
        MoreBehind(if h.opcode == TEXT then [a[h.start..h.End()]] else [], Decode(rest), b);
      }
    }
  }

  lemma MoreBehind(t: seq<seq<Byte>>, p: Parse, b: seq<Byte>)
    ensures More(p.(texts := t + p.texts), b) == More(p, b).(texts := t + More(p, b).texts)
  {
    hide Decode;
    if !p.closed {
      var q := Decode(p.rest + b);
      assert t + (p.texts + q.texts) == t + p.texts + q.texts;
    }
  }

  function Concat(chunks: seq<seq<Byte>>): seq<Byte>
  {
    if chunks == [] then [] else chunks[0] + Concat(chunks[1..])
  }

  function Feed(p: Parse, chunks: seq<seq<Byte>>): Parse
    decreases |chunks|
  {
    if chunks == [] then p else Feed(More(p, chunks[0]), chunks[1..])
  }

  lemma MoreMore(p: Parse, a: seq<Byte>, b: seq<Byte>)
    ensures More(More(p, a), b) == More(p, a + b)
  {
    assert p.rest + a + b == p.rest + (a + b);
    if !p.closed {
      DecodeSplit(p.rest + a, b);
      hide Decode;
      var q := Decode(p.rest + a);
      MoreBehind(p.texts, q, b);
    }
  }

  /** However the stream is cut into chunks, the outcome is that of the whole stream at once. */
  lemma {:induction false} ChunksDoNotMatter(p: Parse, chunks: seq<seq<Byte>>)
    requires chunks != []
    ensures Feed(p, chunks) == More(p, Concat(chunks))
    decreases |chunks|
  {
    hide More;
    if |chunks| == 1 {
      assert Concat(chunks) == chunks[0] + [] == chunks[0];
      assert chunks[1..] == [];
    } else {
      ChunksDoNotMatter(More(p, chunks[0]), chunks[1..]);
      MoreMore(p, chunks[0], Concat(chunks[1..]));
    }
  }

  // ---------------------------------------------------------------- frames as section 5.2 defines them

  /** A frame of at most 65535 payload bytes, with or without a masking key: the last one of its
      message or not, with three reserved bits. */
  datatype Message = Message(fin: bool, reserved: nat, opcode: nat, key: seq<Byte>, payload: seq<Byte>)
  {
    predicate Valid()
    {
      reserved < 8 && opcode < 16 && |key| in {0, 4} && |payload| < 65536
    }

    /** The payload as it travels. */
    function Carried(): seq<Byte>
      requires Valid()
    {
      if key == [] then payload else Masked(payload, key)
    }

    function Bytes(): seq<Byte>
      requires Valid()
    {
      Header() + key + Carried()
    }

    function Header(): (r: seq<Byte>)
      requires Valid()
      ensures |r| == if |payload| < 126 then 2 else 4
      ensures r[0] % 16 == opcode && (r[0] >= 128 <==> fin) && (r[1] >= 128 <==> key != [])
      ensures if |r| == 2 then r[1] % 128 == |payload| else r[1] % 128 == 126 && Word(r[2], r[3]) == |payload|
    {
      var first := (if fin then 128 else 0) + reserved * 16 + opcode;
      var mark := if key == [] then 0 else 128;
      if |payload| < 126 then [first, mark + |payload|]
      else [first, mark + 126, |payload| / 256, |payload| % 256]
    }
  }

  /** Section 5.3: byte `i` is combined with key byte `i mod 4`. */
  function Masked(data: seq<Byte>, key: seq<Byte>): (r: seq<Byte>)
    requires |key| == 4
    ensures |r| == |data|
  {
    seq(|data|, i requires 0 <= i < |data| => Xor(data[i], key[i % 4]))
  }

  lemma MaskedTwice(data: seq<Byte>, key: seq<Byte>)
    requires |key| == 4
    ensures Masked(Masked(data, key), key) == data
  {
    forall i | 0 <= i < |data|
      ensures Masked(Masked(data, key), key)[i] == data[i]
    {
      XorTwice(data[i], key[i % 4]);
    }
  }

  /** The parser finds the frame in front of any bytes that follow. */
  lemma HeadOfBytes(m: Message, tail: seq<Byte>)
    requires m.Valid()
    ensures var s := m.Bytes() + tail;
            var h := HeadOf(s);
            && h.Frame? && h.opcode == m.opcode && h.masked == (m.key != [])
            && h.End() == |m.Bytes()| && s[h.start..h.End()] == m.Carried()
            && s[h.start - |m.key|..h.start] == m.key
  {
    HeadOfFront(m.Header(), m.key, m.Carried(), tail);
    hide HeadOf;
    hide Masked;
  }

  lemma HeadOfFront(front: seq<Byte>, key: seq<Byte>, carried: seq<Byte>, tail: seq<Byte>)
    requires |front| in {2, 4} && |key| == (if front[1] >= 128 then 4 else 0)
    requires |front| == 2 ==> front[1] % 128 == |carried| < 126
    requires |front| == 4 ==> front[1] % 128 == 126 && Word(front[2], front[3]) == |carried|
    ensures var s := front + key + carried + tail;
            var h := HeadOf(s);
            && h == Frame(front[0] % 16, front[1] >= 128, |front| + |key|, |carried|)
            && s[h.start..h.End()] == carried && s[|front|..h.start] == key
  {
    var s := front + key + carried + tail;
    assert s[..|front|] == front;
    assert forall i :: 0 <= i < |front| ==> s[i] == front[i];
  }

  /** The payloads of text frames (opcode 1) up to the first close (opcode 8). */
  function Texts(ms: seq<Message>): seq<seq<Byte>>
    requires forall m <- ms :: m.Valid()
  {
    if ms == [] || ms[0].opcode == 8 then []
    else (if ms[0].opcode == 1 then [ms[0].Carried()] else []) + Texts(ms[1..])
  }

  function Stream(ms: seq<Message>): seq<Byte>
    requires forall m <- ms :: m.Valid()
  {
    if ms == [] then [] else ms[0].Bytes() + Stream(ms[1..])
  }

  predicate Closes(ms: seq<Message>) { exists m <- ms :: m.opcode == 8 }

  /** A stream of whole frames decodes to the text payloads before the first close; a partial
      frame behind them stays in the buffer. */
  lemma {:induction false} DecodeFrames(ms: seq<Message>, tail: seq<Byte>)
    requires forall m <- ms :: m.Valid()
    requires !HeadOf(tail).Frame?
    ensures var r := Decode(Stream(ms) + tail);
            r.texts == Texts(ms) && r.closed == Closes(ms) && (!r.closed ==> r.rest == tail)
  {
    if ms == [] {
      assert [] + tail == tail;
    } else {
      var m, more := ms[0], Stream(ms[1..]) + tail;
      assert Stream(ms) + tail == m.Bytes() + more;
      assert Closes(ms) <==> m.opcode == CLOSE || Closes(ms[1..]) by {
        assert ms == [m] + ms[1..];
      }
      DecodeFirst(m, more);
      hide Decode;
      hide Stream;
      hide Closes;
      if m.opcode != CLOSE {
        DecodeFrames(ms[1..], tail);
      }
    }
  }

  lemma DecodeFirst(m: Message, more: seq<Byte>)
    requires m.Valid()
    ensures Decode(m.Bytes() + more) ==
              if m.opcode == CLOSE then Parse([], more, true)
              else Decode(more).(texts := (if m.opcode == TEXT then [m.Carried()] else []) + Decode(more).texts)
  {
    var s := m.Bytes() + more;
    HeadOfBytes(m, more);
    var h := HeadOf(s);
    hide HeadOf;
    assert s[h.End()..] == more;
  }

  // ---------------------------------------------------------------- fragments

  /** An unmasked text message in one frame or, as section 5.4 has it, in several: a text frame, then
      continuations, of which the last has the final bit. */
  predicate Fragmented(ms: seq<Message>)
  {
    && ms != [] && ms[0].opcode == 1 && (forall i :: 0 < i < |ms| ==> ms[i].opcode == 0)
    && (forall i :: 0 <= i < |ms| ==> ms[i].Valid() && ms[i].key == [] && (ms[i].fin <==> i == |ms| - 1))
  }

  predicate AllFragmented(groups: seq<seq<Message>>)
  {
    forall i :: 0 <= i < |groups| ==> Fragmented(groups[i])
  }

  /** The payloads of a message's frames, joined. */
  function Joined(ms: seq<Message>): (r: seq<Byte>)
    ensures ms != [] ==> |r| >= |ms[0].payload|
  {
    if ms == [] then [] else ms[0].payload + Joined(ms[1..])
  }

  function Frames(groups: seq<seq<Message>>): seq<Message>
  {
    if groups == [] then [] else groups[0] + Frames(groups[1..])
  }

  lemma {:induction false} FramesValid(groups: seq<seq<Message>>)
    requires AllFragmented(groups)
    ensures forall m <- Frames(groups) :: m.Valid()
  {
    if groups != [] {
      FramesValid(groups[1..]);
      forall m | m in Frames(groups)
        ensures m.Valid()
      {
        if m in groups[0] {
          var i :| 0 <= i < |groups[0]| && groups[0][i] == m;
          assert groups[0] in groups;
        }
      }
    }
  }

  lemma {:induction false} ContinuationsSilent(ms: seq<Message>, rest: seq<Message>)
    requires (forall m <- ms :: m.Valid() && m.opcode == 0) && forall m <- rest :: m.Valid()
    ensures Texts(ms + rest) == Texts(rest)
  {
    if ms == [] {
      assert ms + rest == rest;
    } else {
      assert (ms + rest)[0] == ms[0] && (ms + rest)[1..] == ms[1..] + rest;
      ContinuationsSilent(ms[1..], rest);
      assert [] + Texts(rest) == Texts(rest);
    }
  }

  /** Of every text message only the first frame's payload is delivered. */
  lemma {:induction false} FirstFramesDelivered(groups: seq<seq<Message>>)
    requires AllFragmented(groups)
    ensures (forall m <- Frames(groups) :: m.Valid()) && |Texts(Frames(groups))| == |groups|
    ensures forall i :: 0 <= i < |groups| ==> groups[i] != [] && Texts(Frames(groups))[i] == groups[i][0].payload
  {
    FramesValid(groups);
    if groups != [] {
      var g, rest := groups[0], Frames(groups[1..]);
      FramesValid(groups[1..]);
      FirstFramesDelivered(groups[1..]);
      FirstFrame(g, rest);
      assert Frames(groups) == g + rest && g != [];
      hide *;
      assert forall i :: 0 < i < |groups| ==> groups[i] == groups[1..][i - 1];
    }
  }

  lemma FirstFrame(g: seq<Message>, rest: seq<Message>)
    requires Fragmented(g) && forall m <- rest :: m.Valid()
    ensures (forall m <- g + rest :: m.Valid()) && Texts(g + rest) == [g[0].payload] + Texts(rest)
  {
    assert forall m <- g + rest :: m.Valid();
    assert (g + rest)[0] == g[0] && (g + rest)[1..] == g[1..] + rest;
    ContinuationsSilent(g[1..], rest);
    assert g[0].Carried() == g[0].payload;
  }

  lemma {:induction false} JoinedEmpty(ms: seq<Message>)
    ensures Joined(ms) == [] <==> forall i :: 0 <= i < |ms| ==> ms[i].payload == []
  {
    if ms != [] {
      JoinedEmpty(ms[1..]);
      assert forall i :: 0 < i < |ms| ==> ms[i] == ms[1..][i - 1];
      assert |Joined(ms)| == |ms[0].payload| + |Joined(ms[1..])|;
    }
  }

  /** Text messages are delivered whole exactly when no continuation carries anything. */
  lemma DeliveredWhole(groups: seq<seq<Message>>)
    requires AllFragmented(groups)
    ensures (forall m <- Frames(groups) :: m.Valid())
    ensures Texts(Frames(groups)) == seq(|groups|, i requires 0 <= i < |groups| => Joined(groups[i])) <==>
              forall i, j :: 0 <= i < |groups| && 0 < j < |groups[i]| ==> groups[i][j].payload == []
  {
    FirstFramesDelivered(groups);
    var whole := seq(|groups|, i requires 0 <= i < |groups| => Joined(groups[i]));
    var texts := Texts(Frames(groups));
    forall i | 0 <= i < |groups|
      ensures texts[i] == whole[i] <==> forall j :: 0 < j < |groups[i]| ==> groups[i][j].payload == []
    {
      assert Fragmented(groups[i]);
      JoinedRest(groups[i]);
    }
    assert texts == whole <==> forall i :: 0 <= i < |groups| ==> texts[i] == whole[i];
  }

  lemma JoinedRest(g: seq<Message>)
    requires g != []
    ensures g[0].payload == Joined(g) <==> forall j :: 0 < j < |g| ==> g[j].payload == []
  {
    JoinedEmpty(g[1..]);
    assert forall j :: 0 < j < |g| ==> g[j] == g[1..][j - 1];
    assert |Joined(g)| == |g[0].payload| + |Joined(g[1..])|;
    if Joined(g[1..]) == [] {
      assert g[0].payload + [] == g[0].payload;
    }
  }

  // ---------------------------------------------------------------- the client's own frames

  const KEY: seq<Byte> := [0x12, 0x34, 0x56, 0x78]

  /** What the client writes; the length field keeps only the low 16 bits. */
  function Written(opcode: nat, data: seq<Byte>): seq<Byte>
    requires opcode < 16
  {
    Front(opcode, |data|) + KEY + Masked(data, KEY)
  }

  function Front(opcode: nat, len: nat): (r: seq<Byte>)
    requires opcode < 16
  {
    [128 + opcode] + if len < 126 then [128 + len] else [128 + 126, len / 256 % 256, len % 256]
  }

  /** The payload a server reads from the front of a stream, unmasked. */
  function Received(s: seq<Byte>): seq<Byte>
    requires HeadOf(s).Frame? && HeadOf(s).masked
  {
    var h := HeadOf(s);
    Masked(s[h.start..h.End()], s[h.start - 4..h.start])
  }

  /** A written frame reads back as the data it carries exactly when the data fits 16 bits of length. */
  lemma WrittenReadsBack(opcode: nat, data: seq<Byte>, tail: seq<Byte>)
    requires opcode < 16
    ensures var s := Written(opcode, data) + tail;
            var h := HeadOf(s);
            && h.Frame? && h.masked && h.opcode == opcode
            && Received(s) == data[..if |data| < 65536 then |data| else |data| % 65536]
            && (Received(s) == data <==> |data| <= 65535)
            && (h.End() == |Written(opcode, data)| <==> |data| <= 65535)
  {
    var n := if |data| < 65536 then |data| else |data| % 65536;
    var front := Front(opcode, |data|);
    var carried := Masked(data, KEY);
    hide Masked;
    Regrouped(front, KEY, carried, n, tail);
    HeadOfFront(front, KEY, carried[..n], carried[n..] + tail);
    hide Front;
    MaskedPrefix(data, KEY, n);
    MaskedTwice(data[..n], KEY);
  }

  lemma Regrouped(front: seq<Byte>, key: seq<Byte>, carried: seq<Byte>, n: nat, tail: seq<Byte>)
    requires n <= |carried|
    ensures front + key + carried + tail == front + key + carried[..n] + (carried[n..] + tail)
  {
  }

  lemma MaskedPrefix(data: seq<Byte>, key: seq<Byte>, n: nat)
    requires |key| == 4 && n <= |data|
    ensures Masked(data, key)[..n] == Masked(data[..n], key)
  {
  }

  // ---------------------------------------------------------------- the connection

  datatype Phase = Handshake | Open | Dead

  /** A connection: its phase, the text payloads delivered so far, and the bytes not yet used. */
  datatype Conn = Conn(phase: Phase, texts: seq<seq<Byte>>, buffer: seq<Byte>)

  const CR: Byte := 13
  const LF: Byte := 10
  const BLANK: seq<Byte> := [CR, LF, CR, LF]
  /** "HTTP/1.1 101" */
  const UPGRADED: seq<Byte> := [72, 84, 84, 80, 47, 49, 46, 49, 32, 49, 48, 49]

  predicate BlankAt(s: seq<Byte>, i: int) { 0 <= i && i + 4 <= |s| && s[i..i + 4] == BLANK }

  lemma BlankBytes(s: seq<Byte>, i: nat)
    requires i + 4 <= |s|
    ensures BlankAt(s, i) <==> s[i] == CR && s[i + 1] == LF && s[i + 2] == CR && s[i + 3] == LF
  {
    var t := s[i..i + 4];
    assert t[0] == s[i] && t[1] == s[i + 1] && t[2] == s[i + 2] && t[3] == s[i + 3];
  }

  /** The first place of the blank line that ends the response header, or the length. */
  function BlankLine(s: seq<Byte>): (i: nat)
    ensures i <= |s| && (i < |s| ==> BlankAt(s, i))
    ensures forall j :: 0 <= j < i ==> !BlankAt(s, j)
  {
    BlankFrom(s, 0)
  }

  function BlankFrom(s: seq<Byte>, i: nat): (r: nat)
    requires i <= |s|
    ensures i <= r <= |s| && (r < |s| ==> BlankAt(s, r))
    ensures forall j :: i <= j < r ==> !BlankAt(s, j)
    decreases |s| - i
  {
    if i + 4 > |s| then |s| else if BlankAt(s, i) then i else BlankFrom(s, i + 1)
  }

  predicate Accepted(s: seq<Byte>) { |s| >= 12 && s[..12] == UPGRADED }

  function Parsed(c: Conn, s: seq<Byte>): Conn
  {
    var p := Decode(s);
    Conn(if p.closed then Dead else Open, c.texts + p.texts, p.rest)
  }

  /** What the handshake makes of a header and what is behind it. */
  function Answered(c: Conn, s: seq<Byte>): Conn
  {
    var i := BlankLine(s);
    if i == |s| then c.(buffer := s)
    else if Accepted(s) then Parsed(c, s[i + 4..])
    else Conn(Dead, c.texts, s[i + 4..])
  }

  /** A readable connection takes the bytes that have arrived. */
  function Advanced(c: Conn, bytes: seq<Byte>): Conn
  {
    var s := c.buffer + bytes;
    match c.phase
    case Dead => c
    case Open => Parsed(c, s)
    case Handshake => Answered(c, s)
  }

  /** The bytes of a text. */
  function Ascii(t: string): seq<Byte>
    requires forall i :: 0 <= i < |t| ==> t[i] < 128 as char
  {
    seq(|t|, i requires 0 <= i < |t| => t[i] as int)
  }

  /** A response header ends at the place: a blank line stands there. */
  predicate HeaderEnds(s: seq<Byte>, i: int) { 0 <= i && i + 4 <= |s| && s[i..i + 4] == Ascii("\r\n\r\n") }

  /** A handshake waits while there is no blank line. */
  lemma HandshakeWaits(c: Conn, bytes: seq<Byte>)
    requires c.phase == Handshake && forall i :: !HeaderEnds(c.buffer + bytes, i)
    ensures Advanced(c, bytes) == c.(buffer := c.buffer + bytes)
  {
    BlankIs();
    var s := c.buffer + bytes;
    assert BlankLine(s) < |s| ==> BlankAt(s, BlankLine(s)) && HeaderEnds(s, BlankLine(s));
  }

  /** At the first blank line the response decides: if it says 101 the connection opens, the frames behind
      the header being parsed at once; any other kills it. */
  lemma HandshakeDecides(c: Conn, bytes: seq<Byte>, i: int)
    requires var s := c.buffer + bytes; c.phase == Handshake && HeaderEnds(s, i) && forall j :: 0 <= j < i ==> !HeaderEnds(s, j)
    ensures var s, r := c.buffer + bytes, Advanced(c, bytes);
            if |s| >= 12 && s[..12] == Ascii("HTTP/1.1 101") then
              var p := Decode(s[i + 4..]);
              r == Conn(if p.closed then Dead else Open, c.texts + p.texts, p.rest)
            else r.phase == Dead && r.texts == c.texts
  {
    var s := c.buffer + bytes;
    FirstHeader(s, i);
    Says101(s);
    hide Decode;
    hide BlankLine;
    hide Ascii;
    hide HeaderEnds;
    hide Accepted;
    hide BlankAt;
  }

  lemma FirstHeader(s: seq<Byte>, i: int)
    requires HeaderEnds(s, i) && forall j :: 0 <= j < i ==> !HeaderEnds(s, j)
    ensures BlankLine(s) == i < |s|
  {
    BlankIs();
    hide Ascii;
    var k := BlankLine(s);
    assert BlankAt(s, i);
    assert k < |s| ==> HeaderEnds(s, k);
  }

  lemma Says101(s: seq<Byte>)
    ensures Accepted(s) <==> |s| >= 12 && s[..12] == Ascii("HTTP/1.1 101")
  {
    BlankIs();
    hide Ascii;
  }

  lemma BlankIs()
    ensures BLANK == Ascii("\r\n\r\n") && UPGRADED == Ascii("HTTP/1.1 101")
  {
  }

  function AdvancedAll(c: Conn, chunks: seq<seq<Byte>>): Conn
    decreases |chunks|
  {
    if chunks == [] then c else AdvancedAll(Advanced(c, chunks[0]), chunks[1..])
  }

  /** The same connection to everyone outside: a dead one keeps no bytes that matter. */
  predicate Same(c: Conn, d: Conn)
  {
    c.phase == d.phase && c.texts == d.texts && (c.phase != Dead ==> c.buffer == d.buffer)
  }

  lemma ParsedSplit(c: Conn, s: seq<Byte>, b: seq<Byte>)
    ensures Same(Advanced(Parsed(c, s), b), Parsed(c, s + b))
  {
    DecodeSplit(s, b);
    hide Decode;
    var p := Decode(s);
    if !p.closed {
      assert c.texts + p.texts + Decode(p.rest + b).texts == c.texts + (p.texts + Decode(p.rest + b).texts);
    }
  }

  lemma BlankStable(a: seq<Byte>, b: seq<Byte>)
    requires BlankLine(a) < |a|
    ensures BlankLine(a + b) == BlankLine(a)
  {
    forall j | 0 <= j && j + 4 <= |a|
      ensures BlankAt(a + b, j) == BlankAt(a, j)
    {
      assert (a + b)[j..j + 4] == a[j..j + 4];
    }
    assert BlankAt(a + b, BlankLine(a));
  }

  /** The status line is judged alike with or without the bytes behind the header. */
  lemma AcceptedStable(a: seq<Byte>, b: seq<Byte>)
    requires BlankLine(a) < |a|
    ensures Accepted(a + b) == Accepted(a)
  {
    var i := BlankLine(a);
    if |a| < 12 {
      assert a[i..i + 4][0] == CR;
      assert (a + b)[i] == CR;
      assert |a + b| >= 12 ==> (a + b)[..12][i] == CR && UPGRADED[i] != CR;
    } else {
      assert (a + b)[..12] == a[..12];
    }
  }

  lemma AdvancedSplit(c: Conn, a: seq<Byte>, b: seq<Byte>)
    ensures Same(Advanced(Advanced(c, a), b), Advanced(c, a + b))
  {
    var s := c.buffer + a;
    assert c.buffer + (a + b) == s + b;
    match c.phase
    case Dead =>
    case Open => ParsedSplit(c, s, b);
    case Handshake => HandshakeSplit(c, s, b);
  }

  lemma HandshakeSplit(c: Conn, s: seq<Byte>, b: seq<Byte>)
    requires c.phase == Handshake && c.buffer <= s
    ensures Same(Advanced(Advanced(c, s[|c.buffer|..]), b), Advanced(c, s[|c.buffer|..] + b))
  {
    var a := s[|c.buffer|..];
    assert c.buffer + a == s && c.buffer + (a + b) == s + b;
    HandshakeStep(c, a, s);
    HandshakeStep(c, a + b, s + b);
    if BlankLine(s) < |s| {
      HandshakeDone(c, s, b);
    } else {
      HandshakeStep(Advanced(c, a), b, s + b);
    }
  }

  lemma HandshakeStep(c: Conn, a: seq<Byte>, s: seq<Byte>)
    requires c.phase == Handshake && c.buffer + a == s
    ensures Advanced(c, a) == Answered(c, s)
  {
  }

  lemma HandshakeDone(c: Conn, s: seq<Byte>, b: seq<Byte>)
    requires c.phase == Handshake && BlankLine(s) < |s|
    ensures Same(Advanced(Answered(c, s), b), Answered(c, s + b))
  {
    var i := BlankLine(s);
    BlankStable(s, b);
    AcceptedStable(s, b);
    hide BlankLine;
    hide Accepted;
    hide Parsed;
    SliceMore(s, b, i + 4);
    if Accepted(s) {
      ParsedSplit(c, s[i + 4..], b);
      hide Same;
      hide Advanced;
    }
  }

  lemma SliceMore<T>(s: seq<T>, b: seq<T>, i: nat)
    requires i <= |s|
    ensures (s + b)[i..] == s[i..] + b
  {
  }

  lemma {:induction false} SameAfter(c: Conn, d: Conn, chunks: seq<seq<Byte>>)
    requires Same(c, d)
    ensures Same(AdvancedAll(c, chunks), AdvancedAll(d, chunks))
    decreases |chunks|
  {
    if chunks != [] {
      assert c.phase != Dead ==> c == d;
      SameAfter(Advanced(c, chunks[0]), Advanced(d, chunks[0]), chunks[1..]);
    }
  }

  /** Once a frame with a 64-bit length has arrived nothing is ever delivered again, nor is the
      connection closed: the bytes pile up. */
  lemma {:induction false} TooLongForGood(c: Conn, chunks: seq<seq<Byte>>)
    requires c.phase == Open && HeadOf(c.buffer).TooLong?
    ensures AdvancedAll(c, chunks) == c.(buffer := c.buffer + Concat(chunks))
    decreases |chunks|
  {
    if chunks == [] {
      assert c.buffer + [] == c.buffer;
    } else {
      var s := c.buffer + chunks[0];
      assert s[1] == c.buffer[1];
      assert HeadOf(s).TooLong? && c.texts + [] == c.texts;
      TooLongForGood(Advanced(c, chunks[0]), chunks[1..]);
      assert s + Concat(chunks[1..]) == c.buffer + Concat(chunks);
    }
  }

  /** From the handshake to the last frame, only the bytes count, not how they are cut: the phase and
      the delivered texts are those of the whole stream in one piece. */
  lemma {:induction false} StreamDecides(c: Conn, chunks: seq<seq<Byte>>)
    requires chunks != []
    ensures Same(AdvancedAll(c, chunks), Advanced(c, Concat(chunks)))
    decreases |chunks|
  {
    hide Advanced;
    hide Same;
    if |chunks| == 1 {
      assert chunks == [chunks[0]] && Concat(chunks) == chunks[0];
      assert AdvancedAll(Advanced(c, chunks[0]), []) == Advanced(c, chunks[0]);
      SameSelf(Advanced(c, chunks[0]));
    } else {
      var rest := Concat(chunks[1..]);
      StreamDecides(Advanced(c, chunks[0]), chunks[1..]);
      AdvancedSplit(c, chunks[0], rest);
      SameTransitive(AdvancedAll(c, chunks), Advanced(Advanced(c, chunks[0]), rest), Advanced(c, Concat(chunks)));
    }
  }

  lemma SameSelf(c: Conn)
    ensures Same(c, c)
  {
  }

  lemma SameTransitive(c: Conn, d: Conn, e: Conn)
    requires Same(c, d) && Same(d, e)
    ensures Same(c, e)
  {
  }

  // ---------------------------------------------------------------- the buffer

  /** What the message handler is given: the payload with a terminating zero behind it. */
  function Terminated(texts: seq<seq<Byte>>): (r: seq<seq<Byte>>)
    ensures |r| == |texts|
  {
    seq(|texts|, i requires 0 <= i < |texts| => texts[i] + [0])
  }

  class Socket {
    var phase: Phase
    var ibuf: array<Byte>
    var ilen: nat
    /** The strings handed to the message handler. */
    var handed: seq<seq<Byte>>
    ghost var texts: seq<seq<Byte>>

    ghost predicate Valid()
      reads this
    {
      && (ibuf.Length == 0 || ibuf.Length >= 8192)
      && (if ibuf.Length == 0 then ilen == 0 else ilen + 1 <= ibuf.Length)
      && handed == Terminated(texts)
    }

    ghost function State(): Conn
      requires Valid()
      reads this, ibuf
    {
      Conn(phase, texts, ibuf[..ilen])
    }

    constructor ()
      ensures Valid() && fresh(ibuf) && State() == Conn(Handshake, [], [])
    {
      phase, ilen, handed, texts := Handshake, 0, [], [];
      ibuf := new Byte[0];
    }

    /** Room for a read of 4096 bytes and a terminating zero. */
    method Grow()
      requires Valid()
      modifies this`ibuf
      ensures Valid() && State() == old(State()) && ilen + 4097 <= ibuf.Length
      ensures ibuf == old(ibuf) || fresh(ibuf)
    {
      if ilen + 4097 > ibuf.Length {
        var nc := if ibuf.Length == 0 then 8192 else ibuf.Length * 2;
        var nb := new Byte[nc](_ => 0);
        for i := 0 to ilen
          invariant ibuf == old(ibuf) && nb[..i] == ibuf[..i]
        {
          nb[i] := ibuf[i];
        }
        ibuf := nb;
      }
    }

    /** Append one read's worth of bytes. */
    method Receive(chunk: seq<Byte>)
      requires Valid() && |chunk| <= 4096
      modifies this`ibuf, this`ilen, ibuf
      ensures Valid() && State() == old(State()).(buffer := old(ibuf[..ilen]) + chunk) && ibuf.Length > 0
      ensures ibuf == old(ibuf) || fresh(ibuf)
    {
      Grow();
      CopyIn(ibuf, ilen, chunk);
      ilen := ilen + |chunk|;
    }

    /** Move everything from `off` to the front. */
    method Shift(off: nat)
      requires Valid() && off <= ilen
      modifies this`ilen, ibuf
      ensures Valid() && ibuf[..ilen] == old(ibuf[off..ilen])
    {
      var n := ilen - off;
      for i := 0 to n
        invariant ilen == old(ilen)
        invariant forall j :: 0 <= j < i ==> ibuf[j] == old(ibuf[off + j])
        invariant forall j :: off + i <= j < ilen ==> ibuf[j] == old(ibuf[j])
      {
        ibuf[i] := ibuf[off + i];
      }
      ilen := n;
    }

    /** Hand a payload to the handler as a string: the byte behind it is a zero for the duration of
        the call and itself again afterwards. */
    method Deliver(start: nat, end: nat)
      requires Valid() && start <= end <= ilen && ibuf.Length > 0
      modifies this`handed, this`texts, ibuf
      ensures Valid() && ibuf[..] == old(ibuf[..])
      ensures texts == old(texts) + [ibuf[start..end]]
    {
      var saved := ibuf[end];
      ibuf[end] := 0;
      handed := handed + [ibuf[start..end + 1]];
      ghost var text := ibuf[start..end];
      assert ibuf[start..end + 1] == text + [0];
      ibuf[end] := saved;
      assert ibuf[start..end] == text;
      texts := texts + [text];
    }

    /** The frame at `off`, as far as it has arrived. */
    method FrameAt(off: nat) returns (h: Head)
      requires Valid() && off + 2 <= ilen
      ensures h == HeadOf(ibuf[off..ilen])
    {
      ghost var f := ibuf[off..ilen];
      assert f[0] == ibuf[off] && f[1] == ibuf[off + 1];
      var opcode := ibuf[off] % 16;
      var masked := ibuf[off + 1] >= 128;
      var plen: nat := ibuf[off + 1] as int % 128;
      var hl := 2;
      if plen == 126 {
        if ilen - off < 4 {
          return Partial;
        }
        assert f[2] == ibuf[off + 2] && f[3] == ibuf[off + 3];
        plen := Word(ibuf[off + 2], ibuf[off + 3]);
        hl := 4;
      } else if plen == 127 {
        return TooLong;
      }
      var start := hl + if masked then 4 else 0;
      if ilen - off < start + plen {
        return Partial;
      }
      return Frame(opcode, masked, start, plen);
    }

    /** Parse and dispatch every complete frame in the buffer. */
    method ParseFrames()
      requires Valid() && phase == Open && ibuf.Length > 0
      modifies this`phase, this`ilen, this`handed, this`texts, ibuf
      ensures Valid() && State() == Parsed(old(State()), old(ibuf[..ilen]))
    {
      hide Decode;
      hide HeadOf;
      hide Ahead;
      ghost var s := ibuf[..ilen];
      ghost var p := Decode(s);
      var off := 0;
      AheadStart(texts, s);
      while ilen - off >= 2
        invariant Valid() && off <= ilen == |s| && s == ibuf[..ilen]
        invariant phase == Open && Ahead(p, texts, old(texts), s[off..])
        decreases ilen - off
      {
        var h := FrameAt(off);
        assert ibuf[off..ilen] == s[off..];
        if !h.Frame? {
          break;
        }
        AheadFrame(p, texts, old(texts), s, off);
        assert s[off + h.start..off + h.End()] == ibuf[off + h.start..off + h.End()];
        if h.opcode == CLOSE {
          phase := Dead;
          off := off + h.End();
          break;
        }
        if h.opcode == TEXT {
          Deliver(off + h.start, off + h.End());
        }
        off := off + h.End();
      }
      if phase == Open {
        AheadEnd(p, texts, old(texts), s[off..]);
      }
      assert ibuf[off..ilen] == s[off..];
      if off > 0 {
        Shift(off);
      }
    }

    /** The blank line that ends the response header. */
    method FindBlank() returns (i: nat)
      requires Valid()
      ensures i == BlankLine(ibuf[..ilen])
    {
      ghost var s := ibuf[..ilen];
      i := 0;
      while i + 4 <= ilen
        invariant i <= ilen && BlankLine(s) == BlankFrom(s, i)
      {
        BlankBytes(s, i);
        if ibuf[i] == CR && ibuf[i + 1] == LF && ibuf[i + 2] == CR && ibuf[i + 3] == LF {
          return;
        }
        i := i + 1;
      }
      return ilen;
    }

    /** The server's answer to the handshake, once its header is complete. */
    method Answer()
      requires Valid() && phase == Handshake && ibuf.Length > 0
      modifies this`phase, this`ilen, this`handed, this`texts, ibuf
      ensures Valid() && State() == Answered(old(State()), old(ibuf[..ilen]))
    {
      ibuf[ilen] := 0;
      ghost var s := ibuf[..ilen];
      assert s == old(ibuf[..ilen]);
      var i := FindBlank();
      if i < ilen {
        var ok := ilen >= 12 && ibuf[..12] == UPGRADED;
        assert ilen >= 12 ==> s[..12] == ibuf[..12];
        assert ok == Accepted(s);
        Shift(i + 4);
        assert ibuf[..ilen] == s[i + 4..];
        phase := if ok then Open else Dead;
        if phase == Open {
          ParseFrames();
        }
      }
    }

    /** Take every read's worth of bytes that has arrived. */
    method ReceiveAll(pieces: seq<seq<Byte>>)
      requires Valid() && forall r <- pieces :: |r| <= 4096
      modifies this`ibuf, this`ilen, ibuf
      ensures Valid() && State() == old(State()).(buffer := old(ibuf[..ilen]) + Concat(pieces)) && ibuf.Length > 0
      ensures ibuf == old(ibuf) || fresh(ibuf)
    {
      ghost var was := ibuf[..ilen];
      for i := 0 to |pieces|
        invariant Valid() && (ibuf == old(ibuf) || fresh(ibuf))
        invariant ibuf[..ilen] == was + Concat(pieces[..i])
      {
        ConcatNext(pieces, i);
        hide Concat;
        Associate(was, Concat(pieces[..i]), pieces[i]);
        Receive(pieces[i]);
      }
      assert pieces[..|pieces|] == pieces;
      Grow();
    }

    /** A readable connection: take every read's worth of bytes, then answer or parse. */
    method Advance(pieces: seq<seq<Byte>>)
      requires Valid() && phase != Dead && forall r <- pieces :: |r| <= 4096
      modifies this, ibuf
      ensures Valid() && State() == Advanced(old(State()), Concat(pieces))
      ensures ibuf == old(ibuf) || fresh(ibuf)
    {
      hide Concat;
      hide Decode;
      hide BlankLine;
      hide Accepted;
      ReceiveAll(pieces);
      if phase == Handshake {
        Answer();
      } else {
        ParseFrames();
      }
    }
  }

  lemma Associate<T>(a: seq<T>, b: seq<T>, c: seq<T>)
    ensures a + b + c == a + (b + c)
  {
  }

  lemma ConcatFirst(x: seq<Byte>, rest: seq<seq<Byte>>)
    ensures Concat([x] + rest) == x + Concat(rest)
  {
    assert ([x] + rest)[1..] == rest;
  }

  lemma {:induction false} ConcatJoin(a: seq<seq<Byte>>, b: seq<seq<Byte>>)
    ensures Concat(a + b) == Concat(a) + Concat(b)
  {
    if a == [] {
      assert a + b == b;
    } else {
      hide *;
      var x, rest := a[0], a[1..];
      assert a == [x] + rest && a + b == [x] + (rest + b);
      ConcatJoin(rest, b);
      ConcatFirst(x, rest);
      ConcatFirst(x, rest + b);
      Associate(x, Concat(rest), Concat(b));
    }
  }

  lemma ConcatNext(pieces: seq<seq<Byte>>, i: nat)
    requires i < |pieces|
    ensures Concat(pieces[..i + 1]) == Concat(pieces[..i]) + pieces[i]
  {
    assert pieces[..i + 1] == pieces[..i] + [pieces[i]];
    ConcatJoin(pieces[..i], [pieces[i]]);
    assert Concat([pieces[i]]) == pieces[i] + [];
  }

  /** Bytes read from the socket land behind the `n` already there. */
  method CopyIn(buf: array<Byte>, n: nat, chunk: seq<Byte>)
    requires n + |chunk| <= buf.Length
    modifies buf
    ensures buf[..n + |chunk|] == old(buf[..n]) + chunk
  {
    for i := 0 to |chunk|
      invariant buf[..n] == old(buf[..n]) && buf[n..n + i] == chunk[..i]
    {
      buf[n + i] := chunk[i];
    }
    assert buf[..n + |chunk|] == buf[..n] + buf[n..n + |chunk|];
  }

  /** Write one masked frame: the header, then the payload a byte at a time. */
  method WriteFrame(opcode: nat, data: seq<Byte>) returns (wire: seq<Byte>)
    requires opcode < 16
    ensures wire == Written(opcode, data)
  {
    wire := [128 + opcode];
    if |data| < 126 {
      wire := wire + [128 + |data|];
    } else {
      wire := wire + [128 + 126, |data| / 256 % 256, |data| % 256];
    }
    wire := wire + KEY;
    ghost var header := wire;
    for i := 0 to |data|
      invariant wire == header + Masked(data, KEY)[..i]
    {
      wire := wire + [Xor(data[i], KEY[i % 4])];
    }
    assert header == Front(opcode, |data|) + KEY;
  }

  /** Decoding `f`, still to be parsed, completes the outcome `p` of the whole buffer. */
  ghost predicate Ahead(p: Parse, now: seq<seq<Byte>>, before: seq<seq<Byte>>, f: seq<Byte>)
  {
    before + p.texts == now + Decode(f).texts && p.rest == Decode(f).rest && p.closed == Decode(f).closed
  }

  lemma AheadFrame(p: Parse, now: seq<seq<Byte>>, before: seq<seq<Byte>>, s: seq<Byte>, off: nat)
    requires off <= |s| && HeadOf(s[off..]).Frame? && Ahead(p, now, before, s[off..])
    ensures var h := HeadOf(s[off..]);
            var rest := s[off + h.End()..];
            if h.opcode == CLOSE then before + p.texts == now && p.rest == rest && p.closed
            else Ahead(p, if h.opcode == TEXT then now + [s[off + h.start..off + h.End()]] else now, before, rest)
  {
    var f := s[off..];
    var h := HeadOf(f);
    hide HeadOf;
    SliceOf(s, off, h.start, h.End());
    SliceOf(s, off, h.End(), |f|);
    if h.opcode == TEXT {
      Shifted(now, f[h.start..h.End()], Decode(f[h.End()..]).texts);
    }
  }

  lemma Shifted<T>(now: seq<T>, x: T, more: seq<T>)
    ensures now + ([x] + more) == now + [x] + more
  {
  }

  lemma SliceOf<T>(s: seq<T>, off: nat, i: nat, j: nat)
    requires off <= |s| && i <= j <= |s| - off
    ensures s[off..][i..j] == s[off + i..off + j]
    ensures s[off..][i..] == s[off + i..]
  {
  }

  lemma AheadStart(texts: seq<seq<Byte>>, s: seq<Byte>)
    ensures Ahead(Decode(s), texts, texts, s[0..])
  {
    assert s[0..] == s;
  }

  /** No complete frame is left. */
  lemma AheadEnd(p: Parse, now: seq<seq<Byte>>, before: seq<seq<Byte>>, f: seq<Byte>)
    requires Ahead(p, now, before, f) && (|f| < 2 || !HeadOf(f).Frame?)
    ensures before + p.texts == now && p.rest == f && !p.closed
  {
  }
}
