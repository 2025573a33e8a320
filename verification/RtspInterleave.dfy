/**
 RTP packets interleaved into RTSP connections (section 10.12 of RFC 2326).

 Several RTP sessions may write into one RTSP/TCP connection that also carries RTSP replies. The
 only lock is the connection's state: while a reply or a frame is partly sent, nobody else starts.
 `World` is the server as a state machine; `RtspConnection` and `RtpSession` are its handlers.
 */
module RtspInterleave {

  import opened Common

  const RTSP_TCP_MAX_PACKET_SIZE := 1472
  const DOLLAR: Byte := 36

  // ----- frames -----

  /** What the stream on one connection is made of. A frame remembers whose packet it carries. */
  datatype Unit =
    | Reply(text: seq<Byte>)
    | Frame(session: nat, index: nat, channel: Byte, payload: seq<Byte>)
  {
    function Bytes(): seq<Byte> {
      match this
      case Reply(text) => text
      case Frame(_, _, channel, payload) => FrameBytes(channel, payload)
    }
  }

  function FrameBytes(channel: Byte, payload: seq<Byte>): (r: seq<Byte>)
    ensures |r| == |payload| + 4
  {
    [DOLLAR, channel, |payload| / 256 % 256, |payload| % 256] + payload
  }

  function Wire(units: seq<Unit>): seq<Byte>
  {
    if units == [] then [] else Wire(units[..|units| - 1]) + units[|units| - 1].Bytes()
  }

  lemma WireSnoc(units: seq<Unit>, u: Unit)
    ensures Wire(units + [u]) == Wire(units) + u.Bytes()
  {
    assert (units + [u])[..|units|] == units;
  }

  /** A receiver's reading of section 10.12 of RFC 2326. */
  function ParseFrame(s: seq<Byte>): Option<(Byte, seq<Byte>, seq<Byte>)>
  {
    if |s| < 4 || s[0] != DOLLAR then None
    else var n: int := (s[2] as int) * 256 + s[3] as int;
         if |s| < 4 + n then None else Some((s[1], s[4..4 + n], s[4 + n..]))
  }

  /** Frames delimit themselves, whatever follows them, as long as the length fits 16 bits. */
  lemma FrameIsSelfDelimiting(channel: Byte, payload: seq<Byte>, rest: seq<Byte>)
    requires |payload| < 0x1_0000
    ensures ParseFrame(FrameBytes(channel, payload) + rest) == Some((channel, payload, rest))
  {
    var s := FrameBytes(channel, payload) + rest;
    var n: int := (s[2] as int) * 256 + s[3] as int;
    assert n == |payload|;
    assert s[4..4 + |payload|] == payload && s[4 + |payload|..] == rest;
  }

  /** What a receiver takes off a connection. */
  datatype Item = ReplyItem(text: seq<Byte>) | FrameItem(channel: Byte, payload: seq<Byte>)

  /** A receiver cuts what it reads: a frame by its length, anything else where its reply ends. */
  function Receive(replyLength: seq<Byte> -> nat, s: seq<Byte>): seq<Item>
    decreases |s|
  {
    if s == [] then []
    else if s[0] == DOLLAR then
      match ParseFrame(s)
      case None => []
      case Some((channel, payload, rest)) => [FrameItem(channel, payload)] + Receive(replyLength, rest)
    else
      var n := replyLength(s);
      if n == 0 || n > |s| then [] else [ReplyItem(s[..n])] + Receive(replyLength, s[n..])
  }

  function ItemOf(u: Unit): Item {
    match u
    case Reply(text) => ReplyItem(text)
    case Frame(_, _, channel, payload) => FrameItem(channel, payload)
  }

  function Items(units: seq<Unit>): seq<Item> {
    seq(|units|, i requires 0 <= i < |units| => ItemOf(units[i]))
  }

  predicate EndsAt(replyLength: seq<Byte> -> nat, text: seq<Byte>, rest: seq<Byte>) {
    replyLength(text + rest) == |text|
  }

  /** A unit the receiver can tell the end of: a frame with a 16-bit length, or a reply that does not
      look like a frame and tells its own length whatever follows it. */
  ghost predicate Delimited(replyLength: seq<Byte> -> nat, u: Unit) {
    match u
    case Reply(text) => text != [] && text[0] != DOLLAR && forall rest :: EndsAt(replyLength, text, rest)
    case Frame(_, _, _, payload) => |payload| < 0x1_0000
  }

  lemma WireNil()
    ensures Wire([]) == []
  {
  }

  lemma {:induction false} WireCons(u: Unit, units: seq<Unit>)
    ensures Wire([u] + units) == u.Bytes() + Wire(units)
    decreases |units|
  {
    hide Wire;
    if units == [] {
      WireNil();
      assert [u] + units == [] + [u];
      WireSnoc([], u);
    } else {
      var init, last := units[..|units| - 1], units[|units| - 1];
      assert units == init + [last];
      assert [u] + units == ([u] + init) + [last];
      WireSnoc(init, last);
      WireSnoc([u] + init, last);
      WireCons(u, init);
    }
  }

  /** The first unit of a stream is taken off it whole. */
  lemma ReceiveFirst(replyLength: seq<Byte> -> nat, u: Unit, rest: seq<Byte>)
    requires Delimited(replyLength, u)
    ensures Receive(replyLength, u.Bytes() + rest) == [ItemOf(u)] + Receive(replyLength, rest)
  {
    var s := u.Bytes() + rest;
    match u
    case Reply(text) =>
      assert EndsAt(replyLength, text, rest);
      assert s[..|text|] == text && s[|text|..] == rest;
    case Frame(_, _, channel, payload) =>
      FrameIsSelfDelimiting(channel, payload, rest);
  }

  /** Whole units are received as they were sent. */
  lemma {:induction false} ReceiverGetsUnits(replyLength: seq<Byte> -> nat, units: seq<Unit>)
    requires forall i :: 0 <= i < |units| ==> Delimited(replyLength, units[i])
    ensures Receive(replyLength, Wire(units)) == Items(units)
    decreases |units|
  {
    hide Receive, Delimited, Wire;
    if units == [] {
      ReceiveNothing(replyLength);
    } else {
      var u, others := units[0], units[1..];
      assert units == [u] + others;
      WireCons(u, others);
      ReceiveFirst(replyLength, u, Wire(others));
      ReceiverGetsUnits(replyLength, others);
      assert Items(units) == [ItemOf(u)] + Items(others);
    }
  }

  lemma ReceiveNothing(replyLength: seq<Byte> -> nat)
    ensures Wire([]) == [] && Receive(replyLength, []) == []
  {
  }

  // ----- one RTSP connection -----

  datatype RtspState = WaitRequest | SendReply | SendPacket

  datatype Conn = Conn(state: RtspState, pending: seq<Byte>, wire: seq<Byte>, units: seq<Unit>) {

    /** The bytes on the wire and those still to be sent are whole units, and the state says
        whether something is still to be sent. */
    predicate Framed() {
      wire + pending == Wire(units) && (state == WaitRequest <==> pending == [])
    }

    /** The kernel takes `n` bytes of what is pending. */
    function Push(n: nat): Conn
      requires n <= |pending|
    {
      Conn(if n == |pending| then WaitRequest else state, pending[n..], wire + pending[..n], units)
    }

    function StartReply(text: seq<Byte>): Conn {
      Conn(SendReply, text, wire, units + [Reply(text)])
    }

    /** A frame is sent as far as possible at once; what is left locks the connection. */
    function StartFrame(u: Unit, n: nat): Conn
      requires n <= |u.Bytes()|
    {
      Conn(SendPacket, u.Bytes(), wire, units + [u]).Push(n)
    }
  }

  const IDLE := Conn(WaitRequest, [], [], [])

  lemma PushKeepsFraming(c: Conn, n: nat)
    requires c.wire + c.pending == Wire(c.units) && n <= |c.pending|
    requires c.state != WaitRequest
    ensures c.Push(n).Framed() && c.wire <= c.Push(n).wire
  {
    hide Wire;
    assert c.pending == c.pending[..n] + c.pending[n..];
    assert c.Push(n).wire + c.Push(n).pending == c.wire + c.pending;
  }

  lemma StartReplyKeepsFraming(c: Conn, text: seq<Byte>)
    requires c.Framed() && c.state == WaitRequest && text != []
    ensures c.StartReply(text).Framed()
  {
    hide Wire;
    WireSnoc(c.units, Reply(text));
    assert c.wire + c.pending == c.wire;
  }

  lemma StartFrameKeepsFraming(c: Conn, u: Unit, n: nat)
    requires c.Framed() && c.state == WaitRequest && u.Frame? && n <= |u.Bytes()|
    ensures c.StartFrame(u, n).Framed() && c.wire <= c.StartFrame(u, n).wire
  {
    hide Wire;
    WireSnoc(c.units, u);
    assert c.wire + c.pending == c.wire;
    PushKeepsFraming(Conn(SendPacket, u.Bytes(), c.wire, c.units + [u]), n);
  }

  // ----- the server -----

  /** An RTP packet, of one of the streams of its session. */
  datatype Packet = Packet(stream: nat, payload: seq<Byte>)

  /** What the muxer cut a media packet of a stream into. */
  function Tagged(stream: nat, batch: seq<seq<Byte>>): (packets: seq<Packet>)
    ensures |packets| == |batch|
    ensures forall i :: 0 <= i < |batch| ==> packets[i].stream == stream && packets[i].payload == batch[i]
  {
    seq(|batch|, i requires 0 <= i < |batch| => Packet(stream, batch[i]))
  }

  /** A session has prepared `packets` so far, of all its streams, and sends `packets[next]` next. */
  datatype Session = Session(packets: seq<Packet>, next: nat, rtsp: Option<nat>)

  datatype World = World(conns: seq<Conn>, sessions: seq<Session>)

  datatype Event =
    | Request(c: nat, text: seq<Byte>)      // a whole RTSP request arrived; `text` is the reply
    | Writable(c: nat, n: nat)              // POLLOUT: the kernel takes `n` more bytes
    | Prepare(s: nat, stream: nat, batch: seq<seq<Byte>>) // a media packet of a stream, cut into RTP packets
    | Send(s: nat, n: nat)                  // the session's turn: `n` bytes of its frame go out now
    | Abandon(s: nat)                       // the rest of the session's packet buffer is dropped
    | Setup(s: nat, c: nat)                 // SETUP over connection `c`
    | Unbind(s: nat)                        // the session's RTSP connection is closed

  function Channel(streamIndex: nat): Byte { 2 * streamIndex % 256 }

  function FrameOf(w: World, s: nat): Unit
    requires s < |w.sessions| && w.sessions[s].next < |w.sessions[s].packets|
  {
    var x := w.sessions[s];
    Frame(s, x.next, Channel(x.packets[x.next].stream), x.packets[x.next].payload)
  }

  predicate Enabled(w: World, e: Event)
  {
    match e
    case Request(c, text) => c < |w.conns| && w.conns[c].state == WaitRequest && text != []
    case Writable(c, n) => c < |w.conns| && w.conns[c].state != WaitRequest && n <= |w.conns[c].pending|
    case Prepare(s, _, batch) =>
      && s < |w.sessions| && w.sessions[s].next == |w.sessions[s].packets|
      && forall i :: 0 <= i < |batch| ==> |batch[i]| <= RTSP_TCP_MAX_PACKET_SIZE
    case Send(s, n) =>
      && s < |w.sessions| && w.sessions[s].next < |w.sessions[s].packets|
      && w.sessions[s].rtsp.Some? && w.sessions[s].rtsp.value < |w.conns|
      && w.conns[w.sessions[s].rtsp.value].state == WaitRequest
      && n <= |FrameOf(w, s).Bytes()|
    case Abandon(s) => s < |w.sessions| && w.sessions[s].next <= |w.sessions[s].packets|
    case Setup(s, c) => s < |w.sessions| && c < |w.conns|
    case Unbind(s) => s < |w.sessions|
  }

  function Next(w: World, e: Event): World
    requires Enabled(w, e)
  {
    match e
    case Request(c, text) => w.(conns := w.conns[c := w.conns[c].StartReply(text)])
    case Writable(c, n) => w.(conns := w.conns[c := w.conns[c].Push(n)])
    case Prepare(s, stream, batch) =>
      w.(sessions := w.sessions[s := w.sessions[s].(packets := w.sessions[s].packets + Tagged(stream, batch))])
    case Send(s, n) =>
      var c := w.sessions[s].rtsp.value;
      World(w.conns[c := w.conns[c].StartFrame(FrameOf(w, s), n)],
            w.sessions[s := w.sessions[s].(next := w.sessions[s].next + 1)])
    case Abandon(s) => w.(sessions := w.sessions[s := w.sessions[s].(next := |w.sessions[s].packets|)])
    case Setup(s, c) => w.(sessions := w.sessions[s := w.sessions[s].(rtsp := Some(c))])
    case Unbind(s) => w.(sessions := w.sessions[s := w.sessions[s].(rtsp := None)])
  }

  predicate Legal(w: World, events: seq<Event>)
    decreases |events|, 0
  {
    events == [] ||
    (Legal(w, events[..|events| - 1]) && Enabled(After(w, events[..|events| - 1]), events[|events| - 1]))
  }

  /** The server after a run of events, each of which was possible when it came. */
  function After(w: World, events: seq<Event>): World
    requires Legal(w, events)
    decreases |events|, 1
  {
    if events == [] then w else Next(After(w, events[..|events| - 1]), events[|events| - 1])
  }

  lemma AfterSnoc(w: World, events: seq<Event>, e: Event)
    requires Legal(w, events) && Enabled(After(w, events), e)
    ensures Legal(w, events + [e]) && After(w, events + [e]) == Next(After(w, events), e)
  {
    assert (events + [e])[..|events|] == events;
  }

  predicate Initial(w: World)
  {
    && (forall c :: 0 <= c < |w.conns| ==> w.conns[c] == IDLE)
    && (forall s :: 0 <= s < |w.sessions| ==> w.sessions[s].packets == [] && w.sessions[s].next == 0)
  }

  // ----- what every run keeps -----

  /** The frame at position `i` of connection `c` carries a packet its session really prepared and
      has already passed, unaltered and on the channel of the packet's stream. */
  predicate GenuineAt(w: World, c: nat, i: nat)
    requires c < |w.conns| && i < |w.conns[c].units|
  {
    match w.conns[c].units[i]
    case Reply(text) => true
    case Frame(s, k, channel, payload) =>
      && s < |w.sessions| && k < w.sessions[s].next <= |w.sessions[s].packets|
      && payload == w.sessions[s].packets[k].payload && channel == Channel(w.sessions[s].packets[k].stream)
  }

  /** Two frames of one session on one connection are in the order of its packets. */
  predicate OrderedAt(c: Conn, i: nat, j: nat)
    requires i < j < |c.units|
  {
    c.units[i].Frame? && c.units[j].Frame? && c.units[i].session == c.units[j].session
    ==> c.units[i].index < c.units[j].index
  }

  predicate SamePacket(u: Unit, v: Unit) {
    u.Frame? && v.Frame? && u.session == v.session && u.index == v.index
  }

  /** Packets fit a frame's 16-bit length, so frames delimit themselves. */
  predicate Sane(s: Session) {
    s.next <= |s.packets| && forall k :: 0 <= k < |s.packets| ==> |s.packets[k].payload| <= RTSP_TCP_MAX_PACKET_SIZE
  }

  ghost predicate Genuine(w: World)
  {
    && (forall s :: 0 <= s < |w.sessions| ==> Sane(w.sessions[s]))
    && (forall c, i | 0 <= c < |w.conns| && 0 <= i < |w.conns[c].units| :: GenuineAt(w, c, i))
  }

  ghost predicate Ordered(w: World)
  {
    forall c, i, j | 0 <= c < |w.conns| && 0 <= i < j < |w.conns[c].units| :: OrderedAt(w.conns[c], i, j)
  }

  /** No packet is on two connections. */
  ghost predicate Unique(w: World)
  {
    forall c, d, i, j | 0 <= c < d < |w.conns| && 0 <= i < |w.conns[c].units| && 0 <= j < |w.conns[d].units|
      :: !SamePacket(w.conns[c].units[i], w.conns[d].units[j])
  }

  ghost predicate AllFramed(w: World)
  {
    forall c :: 0 <= c < |w.conns| ==> w.conns[c].Framed()
  }

  lemma FramingStep(w: World, e: Event)
    requires AllFramed(w) && Enabled(w, e)
    ensures AllFramed(Next(w, e))
    ensures forall c :: 0 <= c < |w.conns| ==> w.conns[c].wire <= Next(w, e).conns[c].wire
  {
    match e
    case Request(c, text) => StartReplyKeepsFraming(w.conns[c], text);
    case Writable(c, n) => PushKeepsFraming(w.conns[c], n);
    case Send(s, n) => StartFrameKeepsFraming(w.conns[w.sessions[s].rtsp.value], FrameOf(w, s), n);
    case _ =>
  }

  /** A step leaves every connection's units alone, or appends a reply or the sender's next packet
      to one of them. */
  lemma UnitsStep(w: World, e: Event)
    requires Enabled(w, e)
    ensures var t := Next(w, e);
            && |t.conns| == |w.conns| && |t.sessions| == |w.sessions|
            && forall c :: 0 <= c < |w.conns| ==>
                 || t.conns[c].units == w.conns[c].units
                 || (e.Request? && e.c == c && t.conns[c].units == w.conns[c].units + [Reply(e.text)])
                 || (e.Send? && w.sessions[e.s].rtsp == Some(c)
                     && t.conns[c].units == w.conns[c].units + [FrameOf(w, e.s)])
  {
  }

  lemma GenuineStep(w: World, e: Event)
    requires Genuine(w) && Enabled(w, e)
    ensures Genuine(Next(w, e))
  {
    var t := Next(w, e);
    UnitsStep(w, e);
    forall c, i | 0 <= c < |t.conns| && 0 <= i < |t.conns[c].units| ensures GenuineAt(t, c, i) {
      if i < |w.conns[c].units| {
        assert GenuineAt(w, c, i) && t.conns[c].units[i] == w.conns[c].units[i];
      }
    }
  }

  lemma OrderStep(w: World, e: Event)
    requires Genuine(w) && Ordered(w) && Unique(w) && Enabled(w, e)
    ensures Ordered(Next(w, e)) && Unique(Next(w, e))
  {
    var t := Next(w, e);
    UnitsStep(w, e);
    forall c, i, j | 0 <= c < |t.conns| && 0 <= i < j < |t.conns[c].units| ensures OrderedAt(t.conns[c], i, j) {
      assert GenuineAt(w, c, i) && t.conns[c].units[i] == w.conns[c].units[i];
      if j < |w.conns[c].units| { assert OrderedAt(w.conns[c], i, j); }
    }
    forall c, d, i, j | 0 <= c < d < |t.conns| && 0 <= i < |t.conns[c].units| && 0 <= j < |t.conns[d].units|
      ensures !SamePacket(t.conns[c].units[i], t.conns[d].units[j])
    {
      if i < |w.conns[c].units| { assert GenuineAt(w, c, i) && t.conns[c].units[i] == w.conns[c].units[i]; }
      if j < |w.conns[d].units| { assert GenuineAt(w, d, j) && t.conns[d].units[j] == w.conns[d].units[j]; }
      if i < |w.conns[c].units| && j < |w.conns[d].units| {
        assert !SamePacket(w.conns[c].units[i], w.conns[d].units[j]);
      }
    }
  }

  /** The main theorem. In every run, whatever the kernel accepts at each send and however many
      sessions share a connection: the bytes on each connection are a prefix of a concatenation of
      whole replies and whole frames; every frame carries a packet its session prepared; and each
      packet is sent at most once, on one connection, in order. */
  lemma {:induction false} EveryRunIsWellFramed(w: World, events: seq<Event>)
    requires Initial(w) && Legal(w, events)
    ensures var t := After(w, events);
            && AllFramed(t) && Genuine(t) && Ordered(t) && Unique(t) && |t.conns| == |w.conns|
            && forall c :: 0 <= c < |t.conns| ==> t.conns[c].wire <= Wire(t.conns[c].units)
    decreases |events|
  {
    hide Genuine, Ordered, Unique, Enabled, Next;
    if events == [] {
      InitialIsGood(w);
    } else {
      var m, e := After(w, events[..|events| - 1]), events[|events| - 1];
      EveryRunIsWellFramed(w, events[..|events| - 1]);
      FramingStep(m, e);
      UnitsStep(m, e);
      GenuineStep(m, e);
      OrderStep(m, e);
    }
    forall c | 0 <= c < |After(w, events).conns|
      ensures After(w, events).conns[c].wire <= Wire(After(w, events).conns[c].units)
    {
      assert After(w, events).conns[c].Framed();
    }
  }

  /** In every run, what has gone out on a connection with what is pending is received as exactly the
      replies and frames that were started on it, in order; on an idle connection nothing pends. */
  lemma ReceiverCutsEveryRun(w: World, events: seq<Event>, c: nat, replyLength: seq<Byte> -> nat)
    requires Initial(w) && Legal(w, events) && c < |After(w, events).conns|
    requires var units := After(w, events).conns[c].units;
      forall i :: 0 <= i < |units| && units[i].Reply? ==> Delimited(replyLength, units[i])
    ensures var x := After(w, events).conns[c];
      && Receive(replyLength, x.wire + x.pending) == Items(x.units)
      && (x.state == WaitRequest ==> Receive(replyLength, x.wire) == Items(x.units))
  {
    hide Receive, Ordered, Unique, Next, Enabled, Wire;
    EveryRunIsWellFramed(w, events);
    var t := After(w, events);
    var x := t.conns[c];
    forall i | 0 <= i < |x.units| ensures Delimited(replyLength, x.units[i]) {
      assert GenuineAt(t, c, i);
    }
    ReceiverGetsUnits(replyLength, x.units);
    assert x.Framed();
    assert x.wire + [] == x.wire;
  }

  /** The packet that a frame carries. */
  function PacketOf(w: World, u: Unit): Packet
    requires u.Frame? && u.session < |w.sessions| && u.index < |w.sessions[u.session].packets|
  {
    w.sessions[u.session].packets[u.index]
  }

  lemma ChannelTells(p: nat, q: nat)
    ensures p < 128 ==> Channel(p) == 2 * p
    ensures Channel(p) == Channel(q) <==> p % 128 == q % 128
  {
    DoubleModulo(p);
    DoubleModulo(q);
  }

  lemma DoubleModulo(p: nat)
    ensures 2 * p % 256 == 2 * (p % 128)
  {
    assert 2 * p == 256 * (p / 128) + 2 * (p % 128);
  }

  /** In every run the channel of a frame tells the stream of its packet: it is twice the stream's
      number, and two frames have one channel exactly when their streams are equal modulo 128, so
      for the streams of a session, which are fewer, exactly when their streams are one. */
  lemma ChannelsTellStreams(w: World, events: seq<Event>, c: nat, i: nat, d: nat, j: nat)
    requires Initial(w) && Legal(w, events)
    requires c < |After(w, events).conns| && i < |After(w, events).conns[c].units|
    requires d < |After(w, events).conns| && j < |After(w, events).conns[d].units|
    requires After(w, events).conns[c].units[i].Frame? && After(w, events).conns[d].units[j].Frame?
    ensures var t := After(w, events);
      var u, v := t.conns[c].units[i], t.conns[d].units[j];
      && u.session < |t.sessions| && u.index < |t.sessions[u.session].packets| && u.payload == PacketOf(t, u).payload
      && v.session < |t.sessions| && v.index < |t.sessions[v.session].packets|
      && (PacketOf(t, u).stream < 128 ==> u.channel == 2 * PacketOf(t, u).stream)
      && (u.channel == v.channel <==> PacketOf(t, u).stream % 128 == PacketOf(t, v).stream % 128)
  {
    hide Legal, After, Ordered, Unique, AllFramed, Channel;
    EveryRunIsWellFramed(w, events);
    var t := After(w, events);
    assert GenuineAt(t, c, i) && GenuineAt(t, d, j);
    ChannelTells(PacketOf(t, t.conns[c].units[i]).stream, PacketOf(t, t.conns[d].units[j]).stream);
  }

  /** A packet of the session is in a frame on some connection. */
  ghost predicate OnWire(w: World, s: nat, k: nat) {
    exists c, i :: 0 <= c < |w.conns| && 0 <= i < |w.conns[c].units| && SentAt(w.conns[c].units[i], s, k)
  }

  predicate SentAt(u: Unit, s: nat, k: nat) {
    u.Frame? && u.session == s && u.index == k
  }

  lemma OnWireStep(w: World, e: Event, s: nat, k: nat)
    requires Enabled(w, e) && s < |w.sessions|
    requires OnWire(w, s, k) || (e.Send? && e.s == s && k == w.sessions[s].next)
    ensures OnWire(Next(w, e), s, k)
  {
    var t := Next(w, e);
    UnitsStep(w, e);
    if OnWire(w, s, k) {
      var c, i :| 0 <= c < |w.conns| && 0 <= i < |w.conns[c].units| && SentAt(w.conns[c].units[i], s, k);
      assert t.conns[c].units[i] == w.conns[c].units[i];
    } else {
      var c := w.sessions[s].rtsp.value;
      assert SentAt(t.conns[c].units[|w.conns[c].units|], s, k);
    }
  }

  /** No packet is passed over: unless the session's buffer was dropped for want of memory, every
      packet before the next one is on a connection. */
  lemma {:induction false} NoPacketIsLost(w: World, events: seq<Event>, s: nat, k: nat)
    requires Initial(w) && Legal(w, events) && s < |w.sessions| && Abandon(s) !in events
    ensures |After(w, events).sessions| == |w.sessions|
    ensures k < After(w, events).sessions[s].next ==> OnWire(After(w, events), s, k)
    decreases |events|
  {
    hide OnWire;
    if events != [] {
      var init, e := events[..|events| - 1], events[|events| - 1];
      NoPacketIsLost(w, init, s, k);
      var m := After(w, init);
      UnitsStep(m, e);
      if k < After(w, events).sessions[s].next {
        OnWireStep(m, e, s, k);
      }
    }
  }

  /** From a SETUP on, until the next one or the end of the binding, frames of the session go to its
      connection only. */
  lemma {:induction false} FramesGoWhereSetupSays(w: World, s: nat, c: nat, later: seq<Event>, d: nat)
    requires Enabled(w, Setup(s, c)) && Legal(Next(w, Setup(s, c)), later) && d < |w.conns|
    requires forall i :: 0 <= i < |later| ==> !((later[i].Setup? || later[i].Unbind?) && later[i].s == s)
    ensures var t := After(Next(w, Setup(s, c)), later);
      && |t.conns| == |w.conns| && |t.sessions| == |w.sessions| && t.sessions[s].rtsp == Some(c)
      && w.conns[d].units <= t.conns[d].units
      && forall i :: |w.conns[d].units| <= i < |t.conns[d].units| && d != c ==>
           !(t.conns[d].units[i].Frame? && t.conns[d].units[i].session == s)
    decreases |later|
  {
    if later != [] {
      var init, e := later[..|later| - 1], later[|later| - 1];
      FramesGoWhereSetupSays(w, s, c, init, d);
      UnitsStep(After(Next(w, Setup(s, c)), init), e);
    }
  }

  lemma InitialIsGood(w: World)
    requires Initial(w)
    ensures AllFramed(w) && Genuine(w) && Ordered(w) && Unique(w)
  {
  }

  // ----- the handlers -----

  /** How much of `size` bytes the kernel takes when send() answers `sent`, which is negative on an
      error. */
  function Taken(sent: int, size: nat): (n: nat)
    ensures n <= size
  {
    if sent < 0 then 0 else if sent > size then size else sent
  }

  class RtspConnection {
    var state: RtspState
    var reply: seq<Byte>   // buffer_ptr .. buffer_end
    var packet: seq<Byte>  // packet_buffer_ptr .. packet_buffer_end
    ghost var wire: seq<Byte>
    ghost var units: seq<Unit>

    ghost function View(): Conn
      reads this
    {
      Conn(state, if state == SendReply then reply else if state == SendPacket then packet else [], wire, units)
    }

    constructor ()
      ensures View() == IDLE
    {
      state, reply, packet, wire, units := WaitRequest, [], [], [], [];
    }

    /** The end of rtsp_parse_request: `text` is the reply the commands printed. */
    method StartReply(text: seq<Byte>)
      requires state == WaitRequest && text != []
      modifies this
      ensures View() == old(View()).StartReply(text)
    {
      reply, state := text, SendReply;
      units := units + [Reply(text)];
    }

    /** An interleaved frame is handed over: send everything now, and lock the connection by its
        state when something is left. */
    method StartPacket(frame: seq<Byte>, sent: int, ghost u: Unit)
      requires View().Framed() && state == WaitRequest && u.Frame? && frame == u.Bytes()
      modifies this
      ensures View() == old(View()).StartFrame(u, Taken(sent, |frame|)) && View().Framed()
      ensures state in {WaitRequest, SendPacket}
    {
      hide Wire, FrameBytes;
      packet, units := frame, units + [u];
      var len := if sent > |packet| then |packet| else sent;
      if len > 0 {
        wire, packet := wire + packet[..len], packet[len..];
      } else {
        assert wire + frame[..0] == wire;
      }
      if packet != [] {
        state := SendPacket;
      }
      StartFrameKeepsFraming(old(View()), u, Taken(sent, |frame|));
    }

    /** handle_connection in the two sending states: send() answers `sent`, and `fatal` says that an
        error is not one that passes; then the connection closes. */
    method HandleWritable(sent: int, fatal: bool) returns (ok: bool)
      requires View().Framed() && state != WaitRequest
      modifies this
      ensures ok <==> sent >= 0 || !fatal
      ensures View() == old(View()).Push(Taken(sent, |old(View()).pending|))
    {
      hide Wire;
      if state == SendReply {
        var len := if sent > |reply| then |reply| else sent;
        if len < 0 {
          assert wire + reply[..0] == wire && reply[0..] == reply;
          return !fatal;
        }
        wire, reply := wire + reply[..len], reply[len..];
        if reply == [] {
          state := WaitRequest;
        }
      } else {
        var len := if sent > |packet| then |packet| else sent;
        if len < 0 {
          assert wire + packet[..0] == wire && packet[0..] == packet;
          return !fatal;
        }
        wire, packet := wire + packet[..len], packet[len..];
        if packet == [] {
          state := WaitRequest;
        }
      }
      ok := true;
    }
  }

  // The muxer's packet buffer: each packet behind its length in four bytes.

  function Be32(n: nat): seq<Byte>
  {
    [n / 0x100_0000 % 256, n / 0x1_0000 % 256, n / 256 % 256, n % 256]
  }

  function ReadBe32(s: seq<Byte>): (n: int)
    requires |s| >= 4
  {
    (s[0] as int) * 0x100_0000 + (s[1] as int) * 0x1_0000 + (s[2] as int) * 256 + s[3] as int
  }

  function Encode(packets: seq<Packet>): seq<Byte>
  {
    if packets == [] then [] else Be32(|packets[0].payload|) + packets[0].payload + Encode(packets[1..])
  }

  /** The first packet can be read back from the front of a packet buffer. The byte that is meant
      to recognise RTCP packets is byte 1 of the length, which is 0 for every packet that fits. */
  lemma FirstPacket(packets: seq<Packet>)
    requires packets != [] && |packets[0].payload| <= RTSP_TCP_MAX_PACKET_SIZE
    ensures var b := Encode(packets); var n := |packets[0].payload|;
            && |b| >= 4 + n && ReadBe32(b) == n && b[1] == 0
            && b[4..4 + n] == packets[0].payload && b[4 + n..] == Encode(packets[1..])
  {
    var n, rest := |packets[0].payload|, Encode(packets[1..]);
    var b := Be32(n) + packets[0].payload + rest;
    assert b[0] == Be32(n)[0] && b[1] == Be32(n)[1] && b[2] == Be32(n)[2] && b[3] == Be32(n)[3];
    LengthBytes(n);
    assert b[4..4 + n] == packets[0].payload && b[4 + n..] == rest;
  }

  lemma LengthBytes(n: nat)
    requires n <= RTSP_TCP_MAX_PACKET_SIZE
    ensures ReadBe32(Be32(n)) == n && Be32(n)[1] == 0
  {
  }

  lemma BufferStart(packets: seq<Packet>, next: nat)
    requires next <= |packets| && Encode(packets[next..]) != []
    requires forall k :: 0 <= k < |packets| ==> |packets[k].payload| <= RTSP_TCP_MAX_PACKET_SIZE
    ensures next < |packets|
    ensures var b := Encode(packets[next..]); var n := |packets[next].payload|;
            && |b| >= 4 + n && ReadBe32(b) == n && b[1] == 0
            && b[4..4 + n] == packets[next].payload && b[4 + n..] == Encode(packets[next + 1..])
  {
    EncodeEmpty(packets[next..]);
    if next < |packets| {
      FirstPacket(packets[next..]);
      assert packets[next..][1..] == packets[next + 1..];
    }
  }

  lemma EncodeEmpty(packets: seq<Packet>)
    ensures Encode(packets) == [] <==> packets == []
  {
  }

  lemma AfterNil(w: World)
    ensures Legal(w, []) && After(w, []) == w
  {
  }

  lemma HeaderBytes(channel: Byte, payload: seq<Byte>)
    ensures FrameBytes(channel, payload) == [DOLLAR, channel, |payload| / 256 % 256, |payload| % 256] + payload
  {
  }

  lemma OneConnection(w: World, n: nat)
    requires |w.conns| == 1 && |w.sessions| == 1 && Enabled(w, Send(0, n))
    ensures Next(w, Send(0, n)) == World([w.conns[0].StartFrame(FrameOf(w, 0), n)],
                                         [w.sessions[0].(next := w.sessions[0].next + 1)])
  {
  }

  /** What http_prepare_data comes back with. */
  datatype Prepared = Failed | StateChanged | Packets(stream: nat, batch: seq<seq<Byte>>)

  /** All packets of a supply. */
  function AllPackets(supply: seq<Prepared>): seq<Packet> {
    if supply == [] then []
    else
      var last := supply[|supply| - 1];
      AllPackets(supply[..|supply| - 1]) + if last.Packets? then Tagged(last.stream, last.batch) else []
  }

  lemma NoPackets(supply: seq<Prepared>)
    ensures AllPackets(supply[..0]) == []
  {
  }

  lemma MorePackets(supply: seq<Prepared>, used: nat)
    requires used < |supply| && supply[used].Packets?
    ensures AllPackets(supply[..used + 1])
            == AllPackets(supply[..used]) + Tagged(supply[used].stream, supply[used].batch)
  {
    assert supply[..used + 1][..used] == supply[..used];
  }

  /** Why http_send_data returns. */
  datatype Stop = NothingMore | PrepareFailed | NotDue | NoConnection | Busy | NoMemory

  class RtpSession {
    var buffer: seq<Byte>   // buffer_ptr .. buffer_end
    var packetStreamIndex: nat
    var rtspC: RtspConnection?
    ghost var packets: seq<Packet>
    ghost var next: nat

    ghost predicate Valid()
      reads this, rtspC
    {
      && Sane(View()) && buffer == Encode(packets[next..])
      && (forall k :: next <= k < |packets| ==> packets[k].stream == packetStreamIndex)
      && (rtspC != null ==> rtspC.View().Framed())
    }

    /** This session is number 0, and its RTSP connection, when it has one, connection 0. */
    ghost function View(): Session
      reads this
    {
      Session(packets, next, if rtspC == null then None else Some(0))
    }

    ghost function WorldView(): World
      reads this, rtspC
    {
      World(if rtspC == null then [] else [rtspC.View()], [View()])
    }

    constructor (rtspC: RtspConnection)
      requires rtspC.View().Framed()
      ensures Valid() && this.rtspC == rtspC
      ensures WorldView() == World([rtspC.View()], [Session([], 0, Some(0))])
    {
      this.packetStreamIndex, this.rtspC := 0, rtspC;
      buffer, packets, next := [], [], 0;
    }

    /** The frame for the packet at the front of the buffer goes out as far as the kernel takes it. */
    method SendFrame(len: nat, sent: int)
      requires Valid() && rtspC != null && rtspC.state == WaitRequest
      requires next < |packets| && len == |packets[next].payload|
      requires |buffer| >= 4 + len && ReadBe32(buffer) == len && buffer[1] == 0
      requires buffer[4..4 + len] == packets[next].payload && buffer[4 + len..] == Encode(packets[next + 1..])
      modifies this, rtspC
      ensures rtspC == old(rtspC) && Valid()
      ensures packets == old(packets) && next == old(next) + 1 && rtspC.state in {WaitRequest, SendPacket}
      ensures Enabled(old(WorldView()), Send(0, Taken(sent, len + 4)))
      ensures WorldView() == Next(old(WorldView()), Send(0, Taken(sent, len + 4)))
    {
      hide Encode, Wire, ReadBe32, Conn.StartFrame, FrameBytes;
      ghost var w := WorldView();
      var interleavedIndex := packetStreamIndex * 2;
      if buffer[1] == 200 {
        interleavedIndex := interleavedIndex + 1;
      }
      var header: seq<Byte> := [DOLLAR, interleavedIndex % 256, len / 256 % 256, len % 256];
      ghost var u := FrameOf(w, 0);
      var frame := header + buffer[4..4 + len];
      HeaderBytes(Channel(packetStreamIndex), buffer[4..4 + len]);
      rtspC.StartPacket(frame, sent, u);
      buffer := buffer[4 + len..];
      next := next + 1;
      OneConnection(w, Taken(sent, len + 4));
    }

    lemma BufferUsedUp()
      requires Valid()
      ensures next <= |packets| && (buffer == [] <==> next == |packets|)
    {
      EncodeEmpty(packets[next..]);
    }

    /** A new packet buffer, of one stream, allowed only when the old one is used up. */
    method LoadBatch(stream: nat, batch: seq<seq<Byte>>)
      requires Valid() && buffer == []
      requires forall k :: 0 <= k < |batch| ==> |batch[k]| <= RTSP_TCP_MAX_PACKET_SIZE
      modifies this
      ensures rtspC == old(rtspC) && Valid()
      ensures packets == old(packets) + Tagged(stream, batch) && next == old(next) && packetStreamIndex == stream
      ensures Enabled(old(WorldView()), Prepare(0, stream, batch))
      ensures WorldView() == Next(old(WorldView()), Prepare(0, stream, batch))
    {
      EncodeEmpty(packets[next..]);
      packetStreamIndex := stream;
      buffer := Encode(Tagged(stream, batch));
      packets := packets + Tagged(stream, batch);
      assert packets[next..] == Tagged(stream, batch);
    }

    /** The fail-safe exit: whatever is left of the packet buffer is skipped. */
    method DropBuffer()
      requires Valid()
      modifies this
      ensures rtspC == old(rtspC) && Valid() && packets == old(packets) && next == |packets|
      ensures Enabled(old(WorldView()), Abandon(0)) && WorldView() == Next(old(WorldView()), Abandon(0))
    {
      buffer, next := [], |packets|;
      assert packets[next..] == [];
    }

    /** One packet of the buffer: sent, or the reason why not, or why nothing more goes out now. */
    method SendNext(due: bool, memory: bool, answer: int) returns (sent: bool, stop: Option<Stop>)
      requires Valid() && buffer != []
      modifies this, rtspC
      ensures rtspC == old(rtspC) && Valid() && packets == old(packets) && old(next) < |packets|
      ensures sent ==>
        && var e := Send(0, Taken(answer, |packets[old(next)].payload| + 4));
        && Enabled(old(WorldView()), e) && WorldView() == Next(old(WorldView()), e) && next == old(next) + 1
        && due && rtspC != null && stop == if rtspC.state == WaitRequest then None else Some(Busy)
      ensures !sent && stop == Some(NoMemory) ==>
        && Enabled(old(WorldView()), Abandon(0)) && WorldView() == Next(old(WorldView()), Abandon(0))
        && due && !memory && next == |packets|
      ensures !sent && stop != Some(NoMemory) ==>
        && WorldView() == old(WorldView()) && next == old(next)
        && ((stop == Some(NotDue) && !due) || (stop == Some(NoConnection) && rtspC == null)
            || (stop == Some(Busy) && rtspC != null && rtspC.state != WaitRequest))
    {
      hide Legal, After, Enabled, Next, Encode, Wire, Conn.StartFrame, FrameBytes, ReadBe32, AllPackets;
      EncodeEmpty(packets[next..]);
      BufferStart(packets, next);
      assert |buffer| >= 4 && 4 + ReadBe32(buffer) <= |buffer|; // the two fail-safe tests never fire
      var len := ReadBe32(buffer);
      if !due {
        return false, Some(NotDue);
      }
      if rtspC == null {
        return false, Some(NoConnection);
      }
      if rtspC.state != WaitRequest {
        return false, Some(Busy);
      }
      if !memory {
        DropBuffer();
        return false, Some(NoMemory);
      }
      SendFrame(len, answer);
      sent := true;
      stop := if rtspC.state == SendPacket then Some(Busy) else None;
    }

    /** http_send_data for a session over RTSP/TCP; `supply` is what successive calls of
        http_prepare_data give, `due` says whether the time of the n-th packet of this call has
        come, and `kernel` what send() answers for it. The run of events it amounts to is `events`;
        `used` of the supply was taken and `count` packets sent; it stops for the reason given. */
    method SendData(supply: seq<Prepared>, due: nat -> bool, memory: bool, kernel: nat -> int)
      returns (ret: int, why: Stop, used: nat, count: nat, ghost events: seq<Event>)
      requires Valid()
      requires forall i :: 0 <= i < |supply| && supply[i].Packets? ==>
                 forall k :: 0 <= k < |supply[i].batch| ==> |supply[i].batch[k]| <= RTSP_TCP_MAX_PACKET_SIZE
      modifies this, rtspC
      ensures rtspC == old(rtspC) && Valid()
      ensures Legal(old(WorldView()), events) && WorldView() == After(old(WorldView()), events)
      ensures used <= |supply| && packets == old(packets) + AllPackets(supply[..used])
      ensures Abandon(0) in events ==> why == NoMemory
      ensures why != NoMemory ==> next == old(next) + count
      ensures forall k :: 0 <= k < count ==> due(k)
      ensures ret == if why in {PrepareFailed, NoConnection} then -1 else 0
      ensures match why
        case NothingMore => next == |packets| && (used == |supply| || supply[used].StateChanged?)
        case PrepareFailed => next == |packets| && used < |supply| && supply[used].Failed?
        case NotDue => next < |packets| && !due(count)
        case NoConnection => next < |packets| && rtspC == null
        case Busy => rtspC != null && rtspC.state != WaitRequest
        case NoMemory => !memory && next == |packets|
    {
      hide Legal, After, Enabled, Next, AllPackets, RtpSession.Valid, RtpSession.WorldView, Tagged;
      ghost var w := WorldView();
      events, used, count := [], 0, 0;
      AfterNil(w);
      NoPackets(supply);
      while true
        invariant used <= |supply| && rtspC == old(rtspC) && Valid() && next == old(next) + count
        invariant Legal(w, events) && WorldView() == After(w, events) && Abandon(0) !in events
        invariant packets == old(packets) + AllPackets(supply[..used])
        invariant forall k :: 0 <= k < count ==> due(k)
        decreases |supply| - used, |packets| - next
      {
        BufferUsedUp();
        if buffer == [] {
          if used == |supply| || supply[used].StateChanged? {
            return 0, NothingMore, used, count, events;
          } else if supply[used].Failed? {
            return -1, PrepareFailed, used, count, events;
          }
          ghost var e := Prepare(0, supply[used].stream, supply[used].batch);
          MorePackets(supply, used);
          LoadBatch(supply[used].stream, supply[used].batch);
          AfterSnoc(w, events, e);
          events, used := events + [e], used + 1;
        } else {
          ghost var k := next;
          var sent, stop := SendNext(due(count), memory, kernel(count));
          if sent {
            ghost var e := Send(0, Taken(kernel(count), |packets[k].payload| + 4));
            AfterSnoc(w, events, e);
            events, count := events + [e], count + 1;
          } else if stop == Some(NoMemory) {
            AfterSnoc(w, events, Abandon(0));
            events := events + [Abandon(0)];
          }
          if stop.Some? {
            return if stop.value == NoConnection then -1 else 0, stop.value, used, count, events;
          }
        }
      }
    }
  }
}
