/**
 The connection list of ffserver and the global accounting that must agree with it: the number of
 connections, the bandwidth in use, the admission of HTTP clients, and the exclusive writer of
 each feed.

 `Next` is the server as a state machine over its events; `Server` is the code, with one object
 per connection.
 */
module ConnectionTable {

  import opened Common

  datatype StreamType = Live | Status | Redirect

  /** A configured stream. `feed` is the index of the feed it reads; a feed is its own feed. */
  datatype Stream = Stream(kind: StreamType, bandwidth: nat, isFeed: bool, readonly: bool, feed: Option<nat>)

  datatype Config = Config(streams: seq<Stream>, maxConnections: nat, maxBandwidth: nat) {
    /** A feed is its own feed, and only live streams have bandwidth: see `DeclaredBandwidth`. */
    predicate Valid() {
      forall f :: 0 <= f < |streams| ==>
        && (streams[f].isFeed ==> streams[f].feed == Some(f))
        && (streams[f].kind != Live ==> streams[f].bandwidth == 0)
    }
  }

  // ----- where the bandwidth of a stream comes from -----

  /** The lines of a `<Stream>` block that decide on its kind and its output format. */
  datatype ConfigLine = FormatStatus | FormatNamed(known: bool) | OtherLine

  /** A stream as the configuration file leaves it. */
  datatype Declared = Declared(kind: StreamType, hasFormat: bool)

  /** A `<Stream>` block: the format is guessed from the name, and `Format` lines replace it. */
  function Declare(guessed: bool, lines: seq<ConfigLine>): Declared {
    if lines == [] then Declared(Live, guessed)
    else
      match lines[|lines| - 1]
      case FormatStatus => Declared(Status, false)
      case FormatNamed(known) => Declared(Live, known)
      case OtherLine => Declare(guessed, lines[..|lines| - 1])
  }

  /** The last `Format` line decides, and without one the name. */
  lemma {:induction false} LastFormatDecides(guessed: bool, before: seq<ConfigLine>, line: ConfigLine,
                                             others: seq<ConfigLine>)
    requires forall i :: 0 <= i < |others| ==> others[i] == OtherLine
    ensures Declare(guessed, others) == Declared(Live, guessed)
    ensures line != OtherLine ==>
      Declare(guessed, before + [line] + others)
      == if line == FormatStatus then Declared(Status, false) else Declared(Live, line.known)
    decreases |others|
  {
    var lines := before + [line] + others;
    if others != [] {
      var init := others[..|others| - 1];
      assert lines[..|lines| - 1] == before + [line] + init;
      LastFormatDecides(guessed, before, line, init);
    }
  }

  /** The codecs of a stream: `</Stream>` adds the configured ones to a stream that has a feed and a
      format other than ffm, and build_file_streams those of its file to a live one without feed. */
  function BitRates(d: Declared, hasFeed: bool, isFfm: bool, configured: seq<nat>, file: seq<nat>): seq<nat> {
    if hasFeed then if d.hasFormat && !isFfm then configured else []
    else if d.kind == Live then file else []
  }

  const UINT: int := 0x1_0000_0000

  function Sum(rates: seq<nat>): nat {
    if rates == [] then 0 else Sum(rates[..|rates| - 1]) + rates[|rates| - 1]
  }

  /** compute_bandwidth, in unsigned arithmetic. */
  function Bandwidth(rates: seq<nat>): nat {
    (Sum(rates) % UINT + 999) % UINT / 1000
  }

  /** A stream that is not live has no codecs, so its bandwidth is zero; a redirect never has any. */
  lemma {:induction false} DeclaredBandwidth(guessed: bool, lines: seq<ConfigLine>, hasFeed: bool, isFfm: bool,
                                             configured: seq<nat>, file: seq<nat>)
    ensures var d := Declare(guessed, lines);
      && (d.kind == Status ==> !d.hasFormat) && d.kind != Redirect
      && (d.kind != Live ==> Bandwidth(BitRates(d, hasFeed, isFfm, configured, file)) == 0)
    ensures Bandwidth([]) == 0
    decreases |lines|
  {
    if lines != [] {
      DeclaredBandwidth(guessed, lines[..|lines| - 1], hasFeed, isFfm, configured, file);
    }
  }

  /** The bandwidth of a stream is its bit rate in kilobits, rounded up, where that fits the type. */
  lemma BandwidthRounds(rates: seq<nat>)
    requires Sum(rates) + 999 < 0x1_0000_0000
    ensures 1000 * (Bandwidth(rates) - 1) < Sum(rates) <= 1000 * Bandwidth(rates)
  {
  }

  datatype Phase =
    | WaitRequest | SendHeader | SendDataHeader | SendData | SendDataTrailer
    | ReceiveData | WaitFeed | Ready | Rtsp

  datatype Conn = Conn(phase: Phase, stream: Option<nat>, post: bool, httpError: nat, rtp: bool)

  // ----- sums over the list -----

  /** What a tally adds up: bandwidth charged, bandwidth of admitted HTTP clients, or the number of
      connections that receive into feed `f`. */
  datatype Measure = Charged | Admitted | Receiving(f: nat)

  predicate IsLiveGet(cfg: Config, c: Conn) {
    c.stream.Some? && c.stream.value < |cfg.streams| && !c.post && cfg.streams[c.stream.value].kind == Live
  }

  /** An HTTP client that passed admission: its header says 200 OK, or it is already sending. */
  predicate IsAdmitted(cfg: Config, c: Conn) {
    && IsLiveGet(cfg, c) && !c.rtp
    && (c.phase in {SendDataHeader, SendData, SendDataTrailer, WaitFeed} || (c.phase == SendHeader && c.httpError == 0))
  }

  function Weight(cfg: Config, c: Conn, m: Measure): nat {
    match m
    case Charged => if IsLiveGet(cfg, c) then cfg.streams[c.stream.value].bandwidth else 0
    case Admitted => if IsAdmitted(cfg, c) then cfg.streams[c.stream.value].bandwidth else 0
    case Receiving(f) => if c.phase == ReceiveData && c.stream == Some(f) then 1 else 0
  }

  function Tally(cfg: Config, conns: seq<Conn>, m: Measure): nat {
    if conns == [] then 0 else Weight(cfg, conns[0], m) + Tally(cfg, conns[1..], m)
  }

  lemma {:induction false} TallyUpdate(cfg: Config, conns: seq<Conn>, m: Measure, i: nat, c: Conn)
    requires i < |conns|
    ensures Tally(cfg, conns[i := c], m) == Tally(cfg, conns, m) - Weight(cfg, conns[i], m) + Weight(cfg, c, m)
    decreases i
  {
    if i == 0 {
      assert conns[0 := c][1..] == conns[1..];
    } else {
      assert conns[i := c][1..] == conns[1..][i - 1 := c];
      TallyUpdate(cfg, conns[1..], m, i - 1, c);
    }
  }

  function Remove(conns: seq<Conn>, i: nat): seq<Conn>
    requires i < |conns|
  {
    conns[..i] + conns[i + 1..]
  }

  lemma RemoveIgnores(conns: seq<Conn>, i: nat, c: Conn)
    requires i < |conns|
    ensures Remove(conns[i := c], i) == Remove(conns, i)
  {
  }

  lemma {:induction false} TallyRemove(cfg: Config, conns: seq<Conn>, m: Measure, i: nat)
    requires i < |conns|
    ensures Tally(cfg, Remove(conns, i), m) == Tally(cfg, conns, m) - Weight(cfg, conns[i], m)
    decreases i
  {
    if i == 0 {
      assert Remove(conns, 0) == conns[1..];
    } else {
      assert Remove(conns, i)[1..] == Remove(conns[1..], i - 1);
      TallyRemove(cfg, conns[1..], m, i - 1);
    }
  }

  lemma {:induction false} TallySame(cfg: Config, a: seq<Conn>, b: seq<Conn>, m: Measure)
    requires |a| == |b| && forall i :: 0 <= i < |a| ==> Weight(cfg, a[i], m) == Weight(cfg, b[i], m)
    ensures Tally(cfg, a, m) == Tally(cfg, b, m)
    decreases |a|
  {
    if a != [] {
      TallySame(cfg, a[1..], b[1..], m);
    }
  }

  lemma {:induction false} AdmittedIsCharged(cfg: Config, conns: seq<Conn>)
    ensures Tally(cfg, conns, Admitted) <= Tally(cfg, conns, Charged)
    decreases |conns|
  {
    if conns != [] {
      AdmittedIsCharged(cfg, conns[1..]);
    }
  }

  // ----- the state machine -----

  datatype State = State(conns: seq<Conn>, nbConnections: nat, currentBandwidth: int, feedOpened: set<nat>)

  /** What http_parse_request finds out. `stream` is the stream that matched, `redirect` whether
      the name asks for a redirector file, `hostKnown` whether its Host line is usable, `fileOpens`
      whether the feed file could be opened, `inputOpens` whether the input could. */
  datatype HttpRequest = HttpRequest(
    isGet: bool, isPost: bool, protocolOk: bool, stream: Option<nat>,
    redirect: bool, hostKnown: bool, fileOpens: bool, inputOpens: bool)

  /** What http_prepare_data and the socket decide for a sending connection. */
  datatype DataOutcome = Continue | NoMoreFeed | EndOfData | SendFailed

  datatype FeedOutcome = Partial | PacketStored | FeedFailed

  datatype Event =
    | Accept(isRtsp: bool)
    | RtpSession(stream: nat)
    | Parse(i: nat, r: HttpRequest)
    | HeaderSent(i: nat)
    | Data(i: nat, o: DataOutcome)
    | Feed(i: nat, fo: FeedOutcome)
    | Play(i: nat)
    | Pause(i: nat)
    | Close(i: nat)

  predicate Enabled(cfg: Config, s: State, e: Event)
  {
    match e
    case Accept(_) => true
    case RtpSession(stream) => stream < |cfg.streams|
    case Parse(i, r) =>
      && i < |s.conns| && s.conns[i].phase == WaitRequest
      && (r.stream.Some? ==> r.stream.value < |cfg.streams|)
    case HeaderSent(i) => i < |s.conns| && s.conns[i].phase == SendHeader
    case Data(i, o) =>
      && i < |s.conns| && s.conns[i].phase in {SendDataHeader, SendData, SendDataTrailer} && s.conns[i].stream.Some?
      && s.conns[i].stream.value < |cfg.streams|
      && (o == NoMoreFeed ==> s.conns[i].phase == SendData && cfg.streams[s.conns[i].stream.value].feed.Some?)
    case Feed(i, _) => i < |s.conns| && s.conns[i].phase == ReceiveData && s.conns[i].stream.Some?
    case Play(i) => i < |s.conns| && s.conns[i].rtp && s.conns[i].phase in {SendData, WaitFeed, Ready}
    case Pause(i) => i < |s.conns| && s.conns[i].rtp && s.conns[i].phase in {SendData, WaitFeed}
    case Close(i) => i < |s.conns|
  }

  /** close_connection */
  function CloseAt(cfg: Config, s: State, i: nat): State
    requires i < |s.conns| && s.nbConnections > 0
  {
    var c := s.conns[i];
    State(
      Remove(s.conns, i), s.nbConnections - 1,
      s.currentBandwidth - Weight(cfg, c, Charged),
      if c.phase == ReceiveData && c.stream.Some? then s.feedOpened - {c.stream.value} else s.feedOpened)
  }

  /** http_parse_request up to its 0 or -1: the connection afterwards, what it is charged, the feed
      it opened, and whether the connection survives. */
  datatype Parsed = Parsed(c: Conn, charge: nat, opens: Option<nat>, keep: bool)

  function Reply(c: Conn, stream: Option<nat>, post: bool, error: nat, charge: nat): Parsed {
    Parsed(c.(phase := SendHeader, stream := stream, post := post, httpError := error), charge, None, true)
  }

  function ParseHttp(cfg: Config, s: State, c: Conn, r: HttpRequest): Parsed
    requires r.stream.Some? ==> r.stream.value < |cfg.streams|
  {
    if !r.isGet && !r.isPost then Parsed(c, 0, None, false)
    else
      var post := !r.isGet;
      if !r.protocolOk then Parsed(c.(post := post), 0, None, false)
      else if r.stream.None? then Reply(c, c.stream, post, 404, 0)
      else
        var stream := cfg.streams[r.stream.value];
        if stream.kind == Redirect then Reply(c, r.stream, post, 301, 0)
        else
          var charge := if !post && stream.kind == Live then stream.bandwidth else 0;
          if r.stream.value in s.feedOpened then Reply(c, r.stream, post, 404, charge)
          else if !post && cfg.maxBandwidth < s.currentBandwidth + charge then Reply(c, r.stream, post, 503, charge)
          else if r.redirect then Reply(c, r.stream, post, if r.hostKnown then 200 else 404, charge)
          else if post then
            if !stream.isFeed then Reply(c, None, post, 404, 0)
            else if stream.readonly || !r.fileOpens then Reply(c, r.stream, post, 404, 0)
            else Parsed(c.(phase := ReceiveData, stream := r.stream, post := post, httpError := 0), 0, r.stream, true)
          else if stream.kind == Status then Reply(c, r.stream, post, 200, charge)
          else if !r.inputOpens then Reply(c, r.stream, post, 404, charge)
          else Reply(c, r.stream, post, 0, charge)
  }

  /** The connections that wait for feed `f` go on in `phase`. */
  function Wake(cfg: Config, conns: seq<Conn>, f: nat, phase: Phase): seq<Conn>
  {
    seq(|conns|, i requires 0 <= i < |conns| => WakeOne(cfg, conns[i], f, phase))
  }

  predicate Waits(cfg: Config, c: Conn, f: nat) {
    c.phase == WaitFeed && c.stream.Some? && c.stream.value < |cfg.streams|
    && cfg.streams[c.stream.value].feed == Some(f)
  }

  function WakeOne(cfg: Config, c: Conn, f: nat, phase: Phase): Conn {
    if Waits(cfg, c, f) then c.(phase := phase) else c
  }

  function Next(cfg: Config, s: State, e: Event): State
    requires Enabled(cfg, s, e) && s.nbConnections == |s.conns|
  {
    match e
    case Accept(isRtsp) =>
      if s.nbConnections >= cfg.maxConnections then s
      else s.(conns := [Conn(if isRtsp then Rtsp else WaitRequest, None, false, 0, false)] + s.conns,
              nbConnections := s.nbConnections + 1)
    case RtpSession(stream) =>
      if s.nbConnections >= cfg.maxConnections then s
      else
        s.(conns := [Conn(Ready, Some(stream), false, 0, true)] + s.conns,
           nbConnections := s.nbConnections + 1,
           currentBandwidth := s.currentBandwidth + cfg.streams[stream].bandwidth)
    case Parse(i, r) =>
      var p := ParseHttp(cfg, s, s.conns[i], r);
      var t := s.(conns := s.conns[i := p.c], currentBandwidth := s.currentBandwidth + p.charge,
                  feedOpened := if p.opens.Some? then s.feedOpened + {p.opens.value} else s.feedOpened);
      if p.keep then t else CloseAt(cfg, t, i)
    case HeaderSent(i) =>
      if s.conns[i].httpError != 0 then CloseAt(cfg, s, i)
      else s.(conns := s.conns[i := s.conns[i].(phase := SendDataHeader)])
    case Data(i, o) =>
      match o {
        case Continue =>
          if s.conns[i].phase == SendDataTrailer then CloseAt(cfg, s, i)
          else s.(conns := s.conns[i := s.conns[i].(phase := SendData)])
        case NoMoreFeed => s.(conns := s.conns[i := s.conns[i].(phase := WaitFeed)])
        case EndOfData => CloseAt(cfg, s, i)
        case SendFailed => CloseAt(cfg, s, i)
      }
    case Feed(i, fo) =>
      var f := s.conns[i].stream.value;
      match fo {
        case Partial => s
        case PacketStored => s.(conns := Wake(cfg, s.conns, f, SendData))
        case FeedFailed =>
          CloseAt(cfg, s.(conns := Wake(cfg, s.conns, f, SendDataTrailer), feedOpened := s.feedOpened - {f}), i)
      }
    case Play(i) => s.(conns := s.conns[i := s.conns[i].(phase := SendData)])
    case Pause(i) => s.(conns := s.conns[i := s.conns[i].(phase := Ready)])
    case Close(i) => CloseAt(cfg, s, i)
  }

  // ----- what every run keeps -----

  /** The shape of one connection: nothing is charged before the request is parsed; RTP sessions
      are GETs that never wait for a request, send a header or receive a feed. */
  predicate WellFormed(cfg: Config, c: Conn) {
    && (c.phase in {WaitRequest, Rtsp} ==> c.stream.None? && !c.rtp)
    && (c.rtp ==> !c.post && c.stream.Some? && c.phase in {Ready, SendData, SendDataTrailer, WaitFeed})
    && (c.phase in {SendDataHeader, SendData, SendDataTrailer, WaitFeed, ReceiveData} ==> c.stream.Some?)
    && (c.phase == SendHeader && c.httpError == 0 ==> IsLiveGet(cfg, c))
    && (c.phase == SendDataHeader ==> !c.rtp)
    && (!c.rtp && c.phase in {SendDataHeader, SendData, SendDataTrailer, WaitFeed} ==> IsLiveGet(cfg, c))
    && (c.phase == ReceiveData ==> c.post)
    && (c.stream.Some? ==> c.stream.value < |cfg.streams|)
    && (c.phase == ReceiveData ==> cfg.streams[c.stream.value].isFeed)
  }

  predicate Inv(cfg: Config, s: State)
  {
    && (forall i :: 0 <= i < |s.conns| ==> WellFormed(cfg, s.conns[i]))
    && s.nbConnections == |s.conns| <= cfg.maxConnections
    && s.currentBandwidth == Tally(cfg, s.conns, Charged)
    && Tally(cfg, s.conns, Admitted) <= cfg.maxBandwidth
  }

  /** Each feed is open exactly when one and only one connection receives into it. */
  ghost predicate OneWriter(cfg: Config, s: State)
  {
    forall f: nat :: WriterCount(cfg, s, f)
  }

  lemma CloseKeeps(cfg: Config, s: State, i: nat)
    requires i < |s.conns| && s.nbConnections == |s.conns| <= cfg.maxConnections
    requires forall j :: 0 <= j < |s.conns| && j != i ==> WellFormed(cfg, s.conns[j])
    requires s.currentBandwidth == Tally(cfg, s.conns, Charged)
    requires Tally(cfg, s.conns, Admitted) - Weight(cfg, s.conns[i], Admitted) <= cfg.maxBandwidth
    ensures Inv(cfg, CloseAt(cfg, s, i))
  {
    TallyRemove(cfg, s.conns, Charged, i);
    TallyRemove(cfg, s.conns, Admitted, i);
  }

  /** Replacing one connection keeps the sums when the charge is booked and admission is not raised
      beyond the limit. */
  lemma UpdateKeeps(cfg: Config, s: State, i: nat, c: Conn, charge: int)
    requires Inv(cfg, s) && i < |s.conns| && WellFormed(cfg, c)
    requires Weight(cfg, c, Charged) == Weight(cfg, s.conns[i], Charged) + charge
    requires || Weight(cfg, c, Admitted) <= Weight(cfg, s.conns[i], Admitted)
             || s.currentBandwidth + charge <= cfg.maxBandwidth
    ensures var t := s.(conns := s.conns[i := c], currentBandwidth := s.currentBandwidth + charge); Inv(cfg, t)
  {
    TallyUpdate(cfg, s.conns, Charged, i, c);
    TallyUpdate(cfg, s.conns, Admitted, i, c);
    AdmittedIsCharged(cfg, s.conns[i := c]);
  }

  lemma WakeKeeps(cfg: Config, s: State, f: nat, phase: Phase)
    requires Inv(cfg, s) && phase in {SendData, SendDataTrailer}
    ensures Inv(cfg, s.(conns := Wake(cfg, s.conns, f, phase)))
    ensures forall g: nat :: Tally(cfg, Wake(cfg, s.conns, f, phase), Receiving(g)) == Tally(cfg, s.conns, Receiving(g))
  {
    var w := Wake(cfg, s.conns, f, phase);
    TallySame(cfg, w, s.conns, Charged);
    TallySame(cfg, w, s.conns, Admitted);
    forall g: nat ensures Tally(cfg, w, Receiving(g)) == Tally(cfg, s.conns, Receiving(g)) {
      TallySame(cfg, w, s.conns, Receiving(g));
    }
  }

  /** What parsing a request can do: it books exactly what closing will give back, admits a client
      only within the limit, and opens a feed only for the connection that will receive into it,
      and only when nobody has it open. */
  lemma ParsingIsSound(cfg: Config, s: State, c: Conn, r: HttpRequest)
    requires cfg.Valid() && WellFormed(cfg, c) && c.phase == WaitRequest
    requires r.stream.Some? ==> r.stream.value < |cfg.streams|
    ensures var p := ParseHttp(cfg, s, c, r);
            && WellFormed(cfg, p.c) && Weight(cfg, p.c, Charged) == p.charge && Weight(cfg, c, Charged) == 0
            && (IsAdmitted(cfg, p.c) ==> s.currentBandwidth + p.charge <= cfg.maxBandwidth)
            && (!p.keep ==> p.charge == 0 && p.opens.None? && p.c.phase == WaitRequest)
            && (p.opens.Some? ==> p.opens.value !in s.feedOpened)
            && (forall f: nat :: Weight(cfg, p.c, Receiving(f)) == (if p.opens == Some(f) then 1 else 0))
            && (forall f: nat :: Weight(cfg, c, Receiving(f)) == 0)
  {
  }

  /** The request asks for a stream that can be streamed: well formed, of a known stream that is no
      redirect and not a feed that somebody writes. */
  predicate AsksFor(cfg: Config, s: State, r: HttpRequest)
    requires r.stream.Some? ==> r.stream.value < |cfg.streams|
  {
    && (r.isGet || r.isPost) && r.protocolOk && r.stream.Some?
    && cfg.streams[r.stream.value].kind != Redirect && r.stream.value !in s.feedOpened
  }

  /** Who is served, and what the others are told. A GET is admitted exactly when it asks for a live
      stream within the limit, for no redirector file, and the input opens; a POST becomes the
      writer exactly when it asks for a feed that may be written and whose file opens. */
  lemma WhoIsServed(cfg: Config, s: State, c: Conn, r: HttpRequest)
    requires cfg.Valid() && WellFormed(cfg, c) && c.phase == WaitRequest
    requires r.stream.Some? ==> r.stream.value < |cfg.streams|
    ensures var p := ParseHttp(cfg, s, c, r);
      var asks := AsksFor(cfg, s, r);
      && (p.keep <==> (r.isGet || r.isPost) && r.protocolOk)
      && (IsAdmitted(cfg, p.c) <==>
            && asks && r.isGet && cfg.streams[r.stream.value].kind == Live && !r.redirect && r.inputOpens
            && s.currentBandwidth + cfg.streams[r.stream.value].bandwidth <= cfg.maxBandwidth)
      && (p.c.phase == ReceiveData <==>
            && asks && !r.isGet && !r.redirect && cfg.streams[r.stream.value].isFeed
            && !cfg.streams[r.stream.value].readonly && r.fileOpens)
      && (IsAdmitted(cfg, p.c) || p.c.phase == ReceiveData ==> p.c.stream == r.stream && p.c.post == !r.isGet)
  {
  }

  /** The replies that are no service, and what a client is charged. */
  lemma WhatOthersAreTold(cfg: Config, s: State, c: Conn, r: HttpRequest)
    requires cfg.Valid() && WellFormed(cfg, c) && c.phase == WaitRequest
    requires r.stream.Some? ==> r.stream.value < |cfg.streams|
    ensures var p := ParseHttp(cfg, s, c, r);
      var asks := AsksFor(cfg, s, r);
      var charge := if r.isGet && r.protocolOk && r.stream.Some? then cfg.streams[r.stream.value].bandwidth else 0;
      var full := r.isGet && cfg.maxBandwidth < s.currentBandwidth + charge;
      && p.charge == charge
      && (p.keep && p.c.phase != ReceiveData ==> p.c.phase == SendHeader && p.c.httpError in {0, 200, 301, 404, 503})
      && (p.c.phase == SendHeader ==>
            && (p.c.httpError == 301 <==> r.stream.Some? && cfg.streams[r.stream.value].kind == Redirect)
            && (p.c.httpError == 503 <==> asks && full)
            && (p.c.httpError == 200 <==>
                  asks && !full && if r.redirect then r.hostKnown
                                   else r.isGet && cfg.streams[r.stream.value].kind == Status)
            && (p.c.httpError == 0 <==> IsAdmitted(cfg, p.c)))
  {
  }

  lemma ParseKeeps(cfg: Config, s: State, i: nat, r: HttpRequest)
    requires Inv(cfg, s) && cfg.Valid() && Enabled(cfg, s, Parse(i, r))
    ensures Inv(cfg, Next(cfg, s, Parse(i, r)))
  {
    hide ParseHttp, Tally, WellFormed, CloseAt, IsLiveGet;
    var c := s.conns[i];
    assert WellFormed(cfg, c);
    var p := ParseHttp(cfg, s, c, r);
    ParsingIsSound(cfg, s, c, r);
    UpdateKeeps(cfg, s, i, p.c, p.charge);
    if !p.keep {
      CloseKeeps(cfg, s.(conns := s.conns[i := p.c]), i);
    }
  }

  lemma DataKeeps(cfg: Config, s: State, i: nat, o: DataOutcome)
    requires Inv(cfg, s) && Enabled(cfg, s, Data(i, o))
    ensures Inv(cfg, Next(cfg, s, Data(i, o)))
  {
    hide Tally, CloseAt;
    assert WellFormed(cfg, s.conns[i]);
    if o == EndOfData || o == SendFailed || (o == Continue && s.conns[i].phase == SendDataTrailer) {
      CloseKeeps(cfg, s, i);
    } else {
      UpdateKeeps(cfg, s, i, s.conns[i].(phase := if o == Continue then SendData else WaitFeed), 0);
    }
  }

  lemma FeedKeeps(cfg: Config, s: State, i: nat, fo: FeedOutcome)
    requires Inv(cfg, s) && Enabled(cfg, s, Feed(i, fo))
    ensures Inv(cfg, Next(cfg, s, Feed(i, fo)))
  {
    hide Tally, CloseAt, WellFormed, Wake;
    var f := s.conns[i].stream.value;
    if fo == PacketStored {
      WakeKeeps(cfg, s, f, SendData);
    } else if fo == FeedFailed {
      WakeKeeps(cfg, s, f, SendDataTrailer);
      var t := s.(conns := Wake(cfg, s.conns, f, SendDataTrailer), feedOpened := s.feedOpened - {f});
      CloseKeeps(cfg, t, i);
    }
  }

  lemma RtpKeeps(cfg: Config, s: State, i: nat, phase: Phase)
    requires Inv(cfg, s) && Enabled(cfg, s, Play(i)) && phase in {SendData, Ready}
    ensures Inv(cfg, s.(conns := s.conns[i := s.conns[i].(phase := phase)]))
  {
    hide Tally;
    assert WellFormed(cfg, s.conns[i]);
    UpdateKeeps(cfg, s, i, s.conns[i].(phase := phase), 0);
  }

  lemma HeaderKeeps(cfg: Config, s: State, i: nat)
    requires Inv(cfg, s) && Enabled(cfg, s, HeaderSent(i))
    ensures Inv(cfg, Next(cfg, s, HeaderSent(i)))
  {
    hide Tally, CloseAt;
    assert WellFormed(cfg, s.conns[i]);
    if s.conns[i].httpError != 0 {
      CloseKeeps(cfg, s, i);
    } else {
      assert s.conns[i].stream.Some? && !s.conns[i].rtp;
      UpdateKeeps(cfg, s, i, s.conns[i].(phase := SendDataHeader), 0);
    }
  }

  lemma PrependKeeps(cfg: Config, s: State, c: Conn)
    requires Inv(cfg, s) && |s.conns| < cfg.maxConnections && WellFormed(cfg, c) && !IsAdmitted(cfg, c)
    ensures Inv(cfg, State([c] + s.conns, s.nbConnections + 1, s.currentBandwidth + Weight(cfg, c, Charged),
                           s.feedOpened))
  {
    assert ([c] + s.conns)[1..] == s.conns;
  }

  lemma ArrivalKeeps(cfg: Config, s: State, e: Event)
    requires Inv(cfg, s) && cfg.Valid() && Enabled(cfg, s, e) && (e.Accept? || e.RtpSession?)
    ensures Inv(cfg, Next(cfg, s, e))
  {
    hide Tally;
    if s.nbConnections < cfg.maxConnections {
      match e
      case Accept(isRtsp) =>
        PrependKeeps(cfg, s, Conn(if isRtsp then Rtsp else WaitRequest, None, false, 0, false));
      case RtpSession(stream) =>
        PrependKeeps(cfg, s, Conn(Ready, Some(stream), false, 0, true));
    }
  }

  lemma InvStep(cfg: Config, s: State, e: Event)
    requires Inv(cfg, s) && cfg.Valid() && Enabled(cfg, s, e)
    ensures Inv(cfg, Next(cfg, s, e))
  {
    hide Tally, ParseHttp, WellFormed, CloseAt, Wake, Weight;
    match e
    case Accept(_) => ArrivalKeeps(cfg, s, e);
    case RtpSession(_) => ArrivalKeeps(cfg, s, e);
    case Parse(i, r) => ParseKeeps(cfg, s, i, r);
    case HeaderSent(i) => HeaderKeeps(cfg, s, i);
    case Data(i, o) => DataKeeps(cfg, s, i, o);
    case Feed(i, fo) => FeedKeeps(cfg, s, i, fo);
    case Play(i) => RtpKeeps(cfg, s, i, SendData);
    case Pause(i) => RtpKeeps(cfg, s, i, Ready);
    case Close(i) => CloseKeeps(cfg, s, i);
  }

  predicate WriterCount(cfg: Config, s: State, f: nat) {
    Tally(cfg, s.conns, Receiving(f)) == if f in s.feedOpened then 1 else 0
  }

  lemma WriterClose(cfg: Config, s: State, i: nat, f: nat)
    requires i < |s.conns| && s.nbConnections > 0 && WriterCount(cfg, s, f)
    ensures WriterCount(cfg, CloseAt(cfg, s, i), f)
  {
    TallyRemove(cfg, s.conns, Receiving(f), i);
  }

  lemma WriterUpdate(cfg: Config, s: State, i: nat, c: Conn, f: nat)
    requires i < |s.conns| && WriterCount(cfg, s, f)
    requires s.conns[i].phase != ReceiveData && c.phase != ReceiveData
    ensures WriterCount(cfg, s.(conns := s.conns[i := c]), f)
  {
    TallyUpdate(cfg, s.conns, Receiving(f), i, c);
  }

  lemma WriterParse(cfg: Config, s: State, i: nat, r: HttpRequest, f: nat)
    requires Inv(cfg, s) && cfg.Valid() && Enabled(cfg, s, Parse(i, r)) && WriterCount(cfg, s, f)
    ensures WriterCount(cfg, Next(cfg, s, Parse(i, r)), f)
  {
    hide ParseHttp, WellFormed, CloseAt, Tally, Weight;
    var p := ParseHttp(cfg, s, s.conns[i], r);
    assert WellFormed(cfg, s.conns[i]);
    ParsingIsSound(cfg, s, s.conns[i], r);
    TallyUpdate(cfg, s.conns, Receiving(f), i, p.c);
    if !p.keep {
      WriterClose(cfg, s.(conns := s.conns[i := p.c]), i, f);
    }
  }

  lemma WriterFeed(cfg: Config, s: State, i: nat, fo: FeedOutcome, f: nat)
    requires Inv(cfg, s) && Enabled(cfg, s, Feed(i, fo)) && WriterCount(cfg, s, f)
    ensures WriterCount(cfg, Next(cfg, s, Feed(i, fo)), f)
  {
    hide WellFormed, Tally, Wake;
    var g := s.conns[i].stream.value;
    if fo == PacketStored {
      WakeKeeps(cfg, s, g, SendData);
    } else if fo == FeedFailed {
      WakeKeeps(cfg, s, g, SendDataTrailer);
      WakeLeavesWriter(cfg, s.conns, g, SendDataTrailer, i);
      TallyRemove(cfg, Wake(cfg, s.conns, g, SendDataTrailer), Receiving(f), i);
    }
  }

  lemma WakeLeavesWriter(cfg: Config, conns: seq<Conn>, f: nat, phase: Phase, i: nat)
    requires i < |conns| && conns[i].phase == ReceiveData
    ensures |Wake(cfg, conns, f, phase)| == |conns| && Wake(cfg, conns, f, phase)[i] == conns[i]
  {
  }

  lemma WriterPrepend(cfg: Config, conns: seq<Conn>, c: Conn, f: nat)
    requires c.phase != ReceiveData
    ensures Tally(cfg, [c] + conns, Receiving(f)) == Tally(cfg, conns, Receiving(f))
  {
    assert ([c] + conns)[1..] == conns;
  }

  lemma WriterStepFor(cfg: Config, s: State, e: Event, f: nat)
    requires Inv(cfg, s) && cfg.Valid() && Enabled(cfg, s, e) && WriterCount(cfg, s, f)
    ensures WriterCount(cfg, Next(cfg, s, e), f)
  {
    hide Tally, ParseHttp, WellFormed, CloseAt, Wake, Weight;
    match e
    case Accept(isRtsp) =>
      WriterPrepend(cfg, s.conns, Conn(if isRtsp then Rtsp else WaitRequest, None, false, 0, false), f);
    case RtpSession(stream) => WriterPrepend(cfg, s.conns, Conn(Ready, Some(stream), false, 0, true), f);
    case Parse(i, r) => WriterParse(cfg, s, i, r, f);
    case HeaderSent(i) =>
      WriterClose(cfg, s, i, f);
      WriterUpdate(cfg, s, i, s.conns[i].(phase := SendDataHeader), f);
    case Data(i, o) =>
      WriterClose(cfg, s, i, f);
      WriterUpdate(cfg, s, i, s.conns[i].(phase := if o == Continue then SendData else WaitFeed), f);
    case Feed(i, fo) => WriterFeed(cfg, s, i, fo, f);
    case Play(i) => WriterUpdate(cfg, s, i, s.conns[i].(phase := SendData), f);
    case Pause(i) => WriterUpdate(cfg, s, i, s.conns[i].(phase := Ready), f);
    case Close(i) => WriterClose(cfg, s, i, f);
  }

  lemma WriterStep(cfg: Config, s: State, e: Event)
    requires Inv(cfg, s) && OneWriter(cfg, s) && cfg.Valid() && Enabled(cfg, s, e)
    ensures OneWriter(cfg, Next(cfg, s, e))
  {
    hide Next, WriterCount;
    forall f: nat ensures WriterCount(cfg, Next(cfg, s, e), f) {
      assert WriterCount(cfg, s, f);
      WriterStepFor(cfg, s, e, f);
    }
  }

  // ----- runs -----

  const START := State([], 0, 0, {})

  predicate Legal(cfg: Config, events: seq<Event>)
    decreases |events|, 0
  {
    events == [] ||
    var init := events[..|events| - 1];
    && Legal(cfg, init)
    && Enabled(cfg, After(cfg, init), events[|events| - 1])
    && After(cfg, init).nbConnections == |After(cfg, init).conns|
  }

  function After(cfg: Config, events: seq<Event>): State
    requires Legal(cfg, events)
    decreases |events|, 1
  {
    if events == [] then START else Next(cfg, After(cfg, events[..|events| - 1]), events[|events| - 1])
  }

  /** In every reachable state the counters agree with the list: the connection count is its length
      and within the limit; the bandwidth is the sum over listed non-POST connections on live
      streams, so it never underflows; the HTTP clients admitted to sending never exceed the limit,
      whatever RTP added unchecked; and each feed is open exactly when one connection writes it. */
  lemma {:induction false} CountersAgree(cfg: Config, events: seq<Event>)
    requires cfg.Valid() && Legal(cfg, events)
    ensures Inv(cfg, After(cfg, events)) && OneWriter(cfg, After(cfg, events))
    ensures After(cfg, events).currentBandwidth >= 0
    decreases |events|
  {
    if events == [] {
    } else {
      hide Next, Inv, OneWriter;
      var init, e := events[..|events| - 1], events[|events| - 1];
      CountersAgree(cfg, init);
      InvStep(cfg, After(cfg, init), e);
      WriterStep(cfg, After(cfg, init), e);
    }
  }

  /** Right after a packet is stored nobody waits for that feed, and nothing else moved. */
  lemma PacketWakesEverybody(cfg: Config, s: State, i: nat)
    requires cfg.Valid() && Inv(cfg, s) && Enabled(cfg, s, Feed(i, PacketStored))
    ensures var f := s.conns[i].stream.value; var t := Next(cfg, s, Feed(i, PacketStored));
            && |t.conns| == |s.conns| && t.feedOpened == s.feedOpened && t.conns[i] == s.conns[i]
            && forall j :: 0 <= j < |t.conns| ==>
                 && !Waits(cfg, t.conns[j], f)
                 && t.conns[j] == if Waits(cfg, s.conns[j], f) then s.conns[j].(phase := SendData) else s.conns[j]
  {
    assert WellFormed(cfg, s.conns[i]);
  }

  /** When a feed is lost its connection is gone, nobody has the feed open, those that waited for it
      end, and nothing else moved. */
  lemma FeedLostEndsEverybody(cfg: Config, s: State, i: nat)
    requires cfg.Valid() && Inv(cfg, s) && Enabled(cfg, s, Feed(i, FeedFailed))
    ensures var f := s.conns[i].stream.value; var t := Next(cfg, s, Feed(i, FeedFailed));
            && |t.conns| == |s.conns| - 1 && t.feedOpened == s.feedOpened - {f}
            && forall j :: 0 <= j < |t.conns| ==>
                 var c := s.conns[if j < i then j else j + 1];
                 t.conns[j] == if Waits(cfg, c, f) then c.(phase := SendDataTrailer) else c
  {
    assert WellFormed(cfg, s.conns[i]);
  }

  // ----- the code -----

  class HttpContext {
    var state: Phase
    var stream: Option<nat>
    var post: bool
    var httpError: nat
    const isPacketized: bool

    ghost function View(): Conn
      reads this
    {
      Conn(state, stream, post, httpError, isPacketized)
    }

    constructor (state: Phase, stream: Option<nat>, isPacketized: bool)
      ensures View() == Conn(state, stream, false, 0, isPacketized)
    {
      this.state, this.stream, this.isPacketized := state, stream, isPacketized;
      post, httpError := false, 0;
    }
  }

  /** What Next says of a new RTP session. */
  lemma RtpNext(cfg: Config, s: State, stream: nat)
    requires stream < |cfg.streams| && s.nbConnections == |s.conns|
    ensures Next(cfg, s, RtpSession(stream))
            == if s.nbConnections >= cfg.maxConnections then s
               else
                 var x := cfg.streams[stream];
                 State([Conn(Ready, Some(stream), false, 0, true)] + s.conns, s.nbConnections + 1,
                       s.currentBandwidth + x.bandwidth, s.feedOpened)
  {
    hide Tally, CloseAt, ParseHttp, Wake;
  }

  ghost function ViewsOf(list: seq<HttpContext>): (v: seq<Conn>)
    reads list
    ensures |v| == |list| && forall i :: 0 <= i < |v| ==> v[i] == list[i].View()
  {
    seq(|list|, i requires 0 <= i < |list| reads list => list[i].View())
  }

  class Server {
    const cfg: Config
    var contexts: seq<HttpContext>
    var nbConnections: nat
    var currentBandwidth: int
    var feedOpened: set<nat>

    /** No context is listed twice, and the counters agree with the list. */
    ghost predicate Valid()
      reads this, contexts
    {
      && cfg.Valid()
      && Distinct()
      && Inv(cfg, Model())
    }

    ghost predicate Distinct()
      reads this
    {
      forall i, j :: 0 <= i < j < |contexts| ==> contexts[i] != contexts[j]
    }

    ghost function Views(): (v: seq<Conn>)
      reads this`contexts, contexts
      ensures |v| == |contexts| && forall i :: 0 <= i < |v| ==> v[i] == contexts[i].View()
    {
      ViewsOf(contexts)
    }

    ghost function Model(): State
      reads this, contexts
    {
      State(Views(), nbConnections, currentBandwidth, feedOpened)
    }

    constructor (cfg: Config)
      requires cfg.Valid()
      ensures Valid() && this.cfg == cfg && Model() == START
    {
      this.cfg := cfg;
      contexts, nbConnections, currentBandwidth, feedOpened := [], 0, 0, {};
    }

    method NewConnection(isRtsp: bool)
      requires Valid()
      modifies this
      ensures Valid() && Model() == Next(cfg, old(Model()), Accept(isRtsp))
      ensures Views() == if old(nbConnections) >= cfg.maxConnections then old(Views())
                         else [Conn(if isRtsp then Rtsp else WaitRequest, None, false, 0, false)] + old(Views())
    {
      hide Inv, Tally, ParseHttp, CloseAt, Wake;
      InvNeedsCount(cfg, Model());
      InvStep(cfg, Model(), Accept(isRtsp));
      if nbConnections >= cfg.maxConnections {
        return;
      }
      var c := new HttpContext(if isRtsp then Rtsp else WaitRequest, None, false);
      contexts, nbConnections := [c] + contexts, nbConnections + 1;
      assert Views() == [c.View()] + old(Views());
    }

    method RtpNewConnection(stream: nat) returns (c: HttpContext?)
      requires Valid() && stream < |cfg.streams|
      modifies this
      ensures Valid() && Model() == Next(cfg, old(Model()), RtpSession(stream))
      ensures c == null <==> old(nbConnections) >= cfg.maxConnections
      ensures Views() == if c == null then old(Views()) else [Conn(Ready, Some(stream), false, 0, true)] + old(Views())
    {
      hide Inv, Tally, Next, Wake;
      InvNeedsCount(cfg, Model());
      InvStep(cfg, Model(), RtpSession(stream));
      RtpNext(cfg, Model(), stream);
      if nbConnections >= cfg.maxConnections {
        return null;
      }
      c := new HttpContext(Ready, Some(stream), true);
      nbConnections := nbConnections + 1;
      currentBandwidth := currentBandwidth + cfg.streams[stream].bandwidth;
      contexts := [c] + contexts;
      assert Views() == [c.View()] + old(Views());
    }

    /** close_connection: unlink, then give back what the connection held. */
    method CloseConnection(c: HttpContext, ghost i: nat)
      requires i < |contexts| && contexts[i] == c && nbConnections > 0
      requires Distinct()
      requires c.stream.Some? ==> c.stream.value < |cfg.streams|
      modifies this
      ensures Model() == CloseAt(cfg, old(Model()), i) && Views() == Remove(old(Views()), i)
      ensures Distinct()
    {
      hide Tally, Inv, ParseHttp, Wake;
      Unlink(c, i);
      if c.stream.Some? && !c.post && cfg.streams[c.stream.value].kind == Live {
        currentBandwidth := currentBandwidth - cfg.streams[c.stream.value].bandwidth;
      }
      if c.state == ReceiveData && c.stream.Some? {
        feedOpened := feedOpened - {c.stream.value};
      }
      nbConnections := nbConnections - 1;
    }

    /** The walk along the list to the connection that leaves it. */
    method Unlink(c: HttpContext, ghost i: nat)
      requires i < |contexts| && contexts[i] == c && Distinct()
      modifies this`contexts
      ensures Views() == Remove(old(Views()), i) && Distinct()
    {
      var k := 0;
      while contexts[k] != c
        invariant 0 <= k <= i
        decreases i - k
      {
        k := k + 1;
      }
      contexts := contexts[..k] + contexts[k + 1..];
      assert |Views()| == |Remove(old(Views()), i)|;
      assert forall j :: 0 <= j < |Views()| ==> contexts[j] == old(contexts)[if j < i then j else j + 1];
      assert Views() == Remove(old(Views()), i);
    }

    /** The end of a reply: the header goes out next. */
    method SendReply(c: HttpContext, error: nat)
      modifies c
      ensures c.View() == old(c.View()).(phase := SendHeader, httpError := error)
    {
      c.httpError, c.state := error, SendHeader;
    }

    /** http_start_receive_data: the feed is opened only when nobody else writes it. */
    method StartReceiveData(c: HttpContext, fileOpens: bool) returns (ok: bool)
      requires c.stream.Some? && c.stream.value < |cfg.streams|
      modifies this`feedOpened
      ensures ok == (old(c.stream.value !in feedOpened) && !cfg.streams[c.stream.value].readonly && fileOpens)
      ensures feedOpened == if ok then old(feedOpened) + {c.stream.value} else old(feedOpened)
    {
      if c.stream.value in feedOpened || cfg.streams[c.stream.value].readonly || !fileOpens {
        return false;
      }
      feedOpened := feedOpened + {c.stream.value};
      return true;
    }

    /** http_parse_request, as far as accounting and admission go. */
    method ParseRequest(c: HttpContext, r: HttpRequest) returns (ok: bool)
      requires c.state == WaitRequest && c.stream == None && !c.isPacketized
      requires r.stream.Some? ==> r.stream.value < |cfg.streams|
      modifies this`currentBandwidth, this`feedOpened, c
      ensures var p := ParseHttp(cfg, old(Model()), old(c.View()), r);
              && c.View() == p.c && ok == p.keep && currentBandwidth == old(currentBandwidth) + p.charge
              && feedOpened == if p.opens.Some? then old(feedOpened) + {p.opens.value} else old(feedOpened)
    {
      if r.isGet {
        c.post := false;
      } else if r.isPost {
        c.post := true;
      } else {
        return false;
      }
      if !r.protocolOk {
        return false;
      }
      if r.stream.None? {
        SendReply(c, 404);
        return true;
      }
      var stream := cfg.streams[r.stream.value];
      c.stream := r.stream;
      if stream.kind == Redirect {
        SendReply(c, 301);
        return true;
      }
      if !c.post && stream.kind == Live {
        currentBandwidth := currentBandwidth + stream.bandwidth;
      }
      if c.stream.value in feedOpened {
        SendReply(c, 404);
        return true;
      }
      if !c.post && cfg.maxBandwidth < currentBandwidth {
        SendReply(c, 503);
        return true;
      }
      if r.redirect {
        SendReply(c, if r.hostKnown then 200 else 404);
        return true;
      }
      if c.post {
        if !stream.isFeed {
          c.stream := None;
          SendReply(c, 404);
          return true;
        }
        var started := StartReceiveData(c, r.fileOpens);
        if !started {
          SendReply(c, 404);
          return true;
        }
        c.httpError, c.state := 0, ReceiveData;
        return true;
      }
      if stream.kind == Status {
        SendReply(c, 200);
        return true;
      }
      SendReply(c, if r.inputOpens then 0 else 404);
      return true;
    }

    /** A whole request arrived: parse it, and close the connection when parsing says so. */
    method HandleRequest(i: nat, r: HttpRequest)
      requires Valid() && i < |contexts| && Enabled(cfg, Model(), Parse(i, r))
      modifies this, contexts
      ensures Valid() && Model() == Next(cfg, old(Model()), Parse(i, r))
      ensures var p := ParseHttp(cfg, old(Model()), old(Views())[i], r);
        Views() == if p.keep then old(Views())[i := p.c] else Remove(old(Views()), i)
    {
      hide Inv, ParseHttp, CloseAt, Remove;
      ghost var s := Model();
      ParseReady(cfg, s, i, r);
      InvStep(cfg, s, Parse(i, r));
      var c := contexts[i];
      var ok := ParseRequest(c, r);
      assert Views() == old(Views())[i := c.View()];
      if !ok {
        RemoveIgnores(s.conns, i, c.View());
        CloseConnection(c, i);
      }
    }

    /** The loop both ends of http_receive_data run over the whole list. */
    method WakeWaiting(f: nat, phase: Phase)
      requires Distinct()
      modifies contexts
      ensures contexts == old(contexts) && Views() == Wake(cfg, old(Views()), f, phase)
    {
      for k := 0 to |contexts|
        invariant contexts == old(contexts)
        invariant forall j :: 0 <= j < k ==> contexts[j].View() == WakeOne(cfg, old(contexts[j].View()), f, phase)
        invariant forall j :: k <= j < |contexts| ==> contexts[j].View() == old(contexts[j].View())
      {
        var c1 := contexts[k];
        if c1.state == WaitFeed && c1.stream.Some? && c1.stream.value < |cfg.streams|
           && cfg.streams[c1.stream.value].feed == Some(f) {
          c1.state := phase;
        }
      }
    }

    /** The feed side of http_receive_data and of the close that follows a failure. */
    method HandleFeed(i: nat, fo: FeedOutcome)
      requires Valid() && i < |contexts| && Enabled(cfg, Model(), Feed(i, fo))
      modifies this, contexts
      ensures Valid() && Model() == Next(cfg, old(Model()), Feed(i, fo))
      ensures fo == Partial ==> Views() == old(Views())
    {
      hide Inv, CloseAt, Wake;
      ghost var s := Model();
      FeedReady(cfg, s, i, fo);
      InvStep(cfg, s, Feed(i, fo));
      var c := contexts[i];
      var f := c.stream.value;
      match fo {
        case Partial =>
        case PacketStored => WakeWaiting(f, SendData);
        case FeedFailed =>
          feedOpened := feedOpened - {f};
          WakeWaiting(f, SendDataTrailer);
          WakeLeavesWriter(cfg, s.conns, f, SendDataTrailer, i);
          assert c.View() == Views()[i] == s.conns[i];
          CloseConnection(c, i);
      }
    }

    /** The header of an HTTP reply is out: error replies end the connection. */
    method HandleHeaderSent(i: nat)
      requires Valid() && i < |contexts| && Enabled(cfg, Model(), HeaderSent(i))
      modifies this, contexts
      ensures Valid() && Model() == Next(cfg, old(Model()), HeaderSent(i))
      ensures Views() == if old(contexts[i].httpError) != 0 then Remove(old(Views()), i)
                         else old(Views())[i := old(Views())[i].(phase := SendDataHeader)]
    {
      hide Inv, CloseAt;
      ghost var s := Model();
      StreamKnown(cfg, s, i);
      InvStep(cfg, s, HeaderSent(i));
      var c := contexts[i];
      if c.httpError != 0 {
        CloseConnection(c, i);
        return;
      }
      c.state := SendDataHeader;
      assert Views() == old(Views())[i := c.View()];
    }

    /** The states of http_send_data and of handle_connection around it. */
    method HandleData(i: nat, o: DataOutcome)
      requires Valid() && i < |contexts| && Enabled(cfg, Model(), Data(i, o))
      modifies this, contexts
      ensures Valid() && Model() == Next(cfg, old(Model()), Data(i, o))
      ensures var ends := o in {EndOfData, SendFailed} || (o == Continue && old(contexts[i].state) == SendDataTrailer);
        Views() == if ends then Remove(old(Views()), i)
                   else old(Views())[i := old(Views())[i].(phase := if o == NoMoreFeed then WaitFeed else SendData)]
    {
      hide Inv, CloseAt;
      ghost var s := Model();
      StreamKnown(cfg, s, i);
      InvStep(cfg, s, Data(i, o));
      var c := contexts[i];
      if o == EndOfData || o == SendFailed || (o == Continue && c.state == SendDataTrailer) {
        CloseConnection(c, i);
        return;
      }
      c.state := if o == Continue then SendData else WaitFeed;
      assert Views() == old(Views())[i := c.View()];
    }

    /** The state change of PLAY and PAUSE. */
    method HandlePlayPause(i: nat, play: bool)
      requires Valid() && i < |contexts| && Enabled(cfg, Model(), if play then Play(i) else Pause(i))
      modifies contexts
      ensures Valid() && Model() == Next(cfg, old(Model()), if play then Play(i) else Pause(i))
      ensures Views() == old(Views())[i := old(Views())[i].(phase := if play then SendData else Ready)]
    {
      hide Inv;
      ghost var s := Model();
      StreamKnown(cfg, s, i);
      InvStep(cfg, s, if play then Play(i) else Pause(i));
      var c := contexts[i];
      c.state := if play then SendData else Ready;
      assert Views() == old(Views())[i := c.View()];
    }
  }

  lemma StreamKnown(cfg: Config, s: State, i: nat)
    requires Inv(cfg, s) && i < |s.conns|
    ensures s.nbConnections == |s.conns| && (s.conns[i].stream.Some? ==> s.conns[i].stream.value < |cfg.streams|)
  {
    assert WellFormed(cfg, s.conns[i]);
  }

  lemma InvNeedsCount(cfg: Config, s: State)
    requires Inv(cfg, s)
    ensures s.nbConnections == |s.conns| <= cfg.maxConnections
  {
  }

  lemma ParseReady(cfg: Config, s: State, i: nat, r: HttpRequest)
    requires Inv(cfg, s) && Enabled(cfg, s, Parse(i, r))
    ensures s.conns[i].stream.None? && !s.conns[i].rtp && s.nbConnections == |s.conns| > 0
    ensures var p := ParseHttp(cfg, s, s.conns[i], r); p.c.stream.Some? ==> p.c.stream.value < |cfg.streams|
  {
    assert WellFormed(cfg, s.conns[i]);
  }

  lemma FeedReady(cfg: Config, s: State, i: nat, fo: FeedOutcome)
    requires Inv(cfg, s) && Enabled(cfg, s, Feed(i, fo))
    ensures s.conns[i].stream.value < |cfg.streams| && s.nbConnections == |s.conns| > 0
  {
    assert WellFormed(cfg, s.conns[i]);
  }
}
