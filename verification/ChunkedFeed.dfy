/**
 The feed input of ffserver: an incremental decoder of a chunked POST body that runs once per
 poll event and must not depend on how the socket cuts the bytes into pieces.

 `Run` is the decoder seen byte by byte; `Receiver.ReceiveData` is the event handler with its
 own buffer, its inner header loop and its bulk reads.
 */
module ChunkedFeed {

  import opened Common
  import opened HexNumber

  const BUFFER_SIZE := 8192
  const HEADER_LOOP_LIMIT := 10
  const CR: Byte := 13
  const LF: Byte := 10
  const FM: seq<Byte> := [102, 109]

  // ----- the decoder, one byte at a time -----

  /** `buf` is the whole I/O buffer, stale bytes included; `accepts` is the demuxer's verdict on
      the first block. A closed feed keeps only what it stored. */
  datatype Feed =
    | Open(buf: seq<Byte>, ptr: nat, chunk: nat, count: nat, stored: seq<seq<Byte>>)
    | Closed(stored: seq<seq<Byte>>)
  {
    predicate Valid() {
      Open? ==>
        && |buf| == BUFFER_SIZE && ptr < PACKET_SIZE
        && (chunk > 0 && ptr >= 2 && count > PACKET_SIZE ==> buf[..2] == FM)
    }
  }

  function Absorb(s: Feed, data: seq<Byte>): Feed
    requires s.Open? && |s.buf| == BUFFER_SIZE
    requires s.ptr + |data| <= PACKET_SIZE && |data| <= s.chunk
  {
    Open(Overwrite(s.buf, s.ptr, data), s.ptr + |data|, s.chunk - |data|, s.count + |data|, s.stored)
  }

  /** The tail of the handler: the desynchronisation test, then the completed packet. */
  function Settle(accepts: seq<Byte> -> bool, s: Feed): (t: Feed)
    requires s.Open? && |s.buf| == BUFFER_SIZE && s.ptr <= PACKET_SIZE
    ensures s.stored <= t.stored
  {
    if s.ptr >= 2 && s.count > PACKET_SIZE && s.buf[..2] != FM then Closed(s.stored)
    else if s.ptr < PACKET_SIZE then s
    else if s.count > PACKET_SIZE then s.(ptr := 0, stored := s.stored + [s.buf[..PACKET_SIZE]])
    else if accepts(s.buf[..PACKET_SIZE]) then s.(ptr := 0)
    else Closed(s.stored)
  }

  function HeaderByte(accepts: seq<Byte> -> bool, s: Feed, b: Byte): Feed
    requires s.Valid() && s.Open? && s.chunk == 0
  {
    var t := s.(buf := s.buf[s.ptr := b]);
    if s.ptr >= 2 && s.buf[s.ptr - 1] == CR && b == LF then
      var n := ChunkSize(t.buf);
      if n <= 0 then Closed(s.stored) else t.(ptr := 0, chunk := n)
    else if s.ptr + 1 == PACKET_SIZE then Settle(accepts, t.(ptr := s.ptr + 1))
    else t.(ptr := s.ptr + 1)
  }

  function Step(accepts: seq<Byte> -> bool, s: Feed, b: Byte): (t: Feed)
    requires s.Valid()
    ensures t.Valid()
  {
    if s.Closed? then s
    else if s.chunk == 0 then HeaderByte(accepts, s, b)
    else Settle(accepts, Absorb(s, [b]))
  }

  function Run(accepts: seq<Byte> -> bool, s: Feed, bytes: seq<Byte>): (t: Feed)
    requires s.Valid()
    ensures t.Valid()
  {
    if bytes == [] then s
    else Step(accepts, Run(accepts, s, bytes[..|bytes| - 1]), bytes[|bytes| - 1])
  }

  lemma {:induction false} RunConcat(accepts: seq<Byte> -> bool, s: Feed, a: seq<Byte>, b: seq<Byte>)
    requires s.Valid()
    ensures Run(accepts, s, a + b) == Run(accepts, Run(accepts, s, a), b)
    decreases |b|
  {
    if b == [] {
      assert a + b == a;
    } else {
      assert (a + b)[..|a + b| - 1] == a + b[..|b| - 1];
      RunConcat(accepts, s, a, b[..|b| - 1]);
    }
  }

  lemma RunNil(accepts: seq<Byte> -> bool, s: Feed)
    requires s.Valid()
    ensures Run(accepts, s, []) == s
  {
  }

  lemma RunOne(accepts: seq<Byte> -> bool, s: Feed, b: Byte)
    requires s.Valid()
    ensures Run(accepts, s, [b]) == Step(accepts, s, b)
  {
    assert [b][..0] == [];
  }

  /** A bulk read of `data` is the same as reading it byte by byte, even when it desynchronises. */
  lemma {:induction false} BulkReadIsByteReads(accepts: seq<Byte> -> bool, s: Feed, data: seq<Byte>)
    requires s.Valid() && s.Open? && data != []
    requires s.ptr + |data| <= PACKET_SIZE && |data| <= s.chunk
    ensures Run(accepts, s, data) == Settle(accepts, Absorb(s, data))
    decreases |data|
  {
    hide Run, ChunkSize;
    var init, last := data[..|data| - 1], data[|data| - 1];
    if init == [] {
      assert data == [last];
      RunOne(accepts, s, last);
    } else {
      BulkReadIsByteReads(accepts, s, init);
      assert data == init + [last];
      RunConcat(accepts, s, init, [last]);
      RunOne(accepts, Run(accepts, s, init), last);
      var mid, whole := Absorb(s, init), Absorb(s, data);
      assert Absorb(mid, [last]).buf == whole.buf;
      if mid.ptr >= 2 { assert mid.buf[..2] == whole.buf[..2]; }
    }
  }

  lemma ReadThenSettle(accepts: seq<Byte> -> bool, s: Feed, data: seq<Byte>)
    requires s.Valid() && s.Open? && s.ptr + |data| <= PACKET_SIZE && |data| <= s.chunk
    requires s.chunk > 0 || s.ptr == 0
    ensures Run(accepts, s, data) == Settle(accepts, Absorb(s, data))
  {
    if data == [] {
      assert Absorb(s, data).buf == s.buf;
    } else {
      BulkReadIsByteReads(accepts, s, data);
    }
  }

  lemma HeaderStep(accepts: seq<Byte> -> bool, s: Feed, b: Byte)
    requires s.Valid() && s.Open? && s.chunk == 0
    ensures Step(accepts, s, b) == HeaderByte(accepts, s, b)
  {
  }

  // ----- well-formed bodies -----

  /** One chunk: the digits of its size, an optional extension, and its data. */
  datatype Chunk = Chunk(digits: seq<Byte>, ext: seq<Byte>, data: seq<Byte>) {
    function Line(): seq<Byte> { digits + ext }

    /** The digits spell the size of the data, which is whole packets. */
    predicate Decodable() {
      HeaderLine(digits, ext) && Spells(digits, |data|) && 0 < |data| < 0x8000_0000 && |data| % PACKET_SIZE == 0
    }
  }

  const CRLF: seq<Byte> := [CR, LF]

  function Wire(chunks: seq<Chunk>): seq<Byte>
  {
    if chunks == [] then []
    else var c := chunks[|chunks| - 1];
         Wire(chunks[..|chunks| - 1]) + (c.Line() + CRLF + c.data + CRLF)
  }

  function Payload(chunks: seq<Chunk>): seq<Byte>
  {
    if chunks == [] then [] else Payload(chunks[..|chunks| - 1]) + chunks[|chunks| - 1].data
  }

  /** A byte string cut into packets: the complete ones, and the part of the next one. */
  datatype Cutting = Cutting(blocks: seq<seq<Byte>>, rest: seq<Byte>) {
    function Add(b: Byte): Cutting
    {
      if |rest| + 1 == PACKET_SIZE then Cutting(blocks + [rest + [b]], [])
      else Cutting(blocks, rest + [b])
    }
  }

  function Cut(p: seq<Byte>): (c: Cutting)
    ensures |c.rest| < PACKET_SIZE
    ensures if c.blocks == [] then c.rest == p else |p| >= PACKET_SIZE + |c.rest|
    ensures |c.blocks| == 1 ==> |p| == PACKET_SIZE + |c.rest|
    ensures |c.blocks| > 1 ==> |p| > PACKET_SIZE + |c.rest|
  {
    if p == [] then Cutting([], []) else Cut(p[..|p| - 1]).Add(p[|p| - 1])
  }

  lemma CutAdd(p: seq<Byte>, b: Byte)
    ensures Cut(p + [b]) == Cut(p).Add(b)
  {
    assert (p + [b])[..|p|] == p;
  }

  /** What a cutting is: packets of the right size that give back the string they came from. */
  lemma {:induction false} CutIsTheCutting(p: seq<Byte>)
    ensures Flatten(Cut(p).blocks) + Cut(p).rest == p
    ensures forall k :: 0 <= k < |Cut(p).blocks| ==> |Cut(p).blocks[k]| == PACKET_SIZE
    decreases |p|
  {
    hide Flatten, Cut;
    if p == [] {
      FlattenNil<Byte>();
      CutNil();
    } else {
      var q, b := p[..|p| - 1], p[|p| - 1];
      assert p == q + [b];
      CutIsTheCutting(q);
      CutAdd(q, b);
      FlattenSnoc(Cut(q).blocks, Cut(q).rest + [b]);
    }
  }

  lemma CutNil()
    ensures Cut([]) == Cutting([], [])
  {
  }

  lemma {:induction false} CutRemainder(p: seq<Byte>)
    ensures |Cut(p).rest| == |p| % PACKET_SIZE
    decreases |p|
  {
    hide Cut;
    if p == [] {
      CutNil();
    } else {
      var init := p[..|p| - 1];
      assert p == init + [p[|p| - 1]];
      CutRemainder(init);
      CutAdd(init, p[|p| - 1]);
    }
  }

  lemma {:induction false} CutConcat(p: seq<Byte>, d: seq<Byte>)
    requires Cut(p).rest == []
    ensures Cut(p + d) == Cutting(Cut(p).blocks + Cut(d).blocks, Cut(d).rest)
    decreases |d|
  {
    if d == [] {
      assert p + d == p;
    } else {
      var init := d[..|d| - 1];
      assert p + d == (p + init) + [d[|d| - 1]];
      CutConcat(p, init);
      CutAdd(p + init, d[|d| - 1]);
    }
  }

  lemma WholePackets(p: seq<Byte>, d: seq<Byte>)
    requires Cut(p).rest == [] && |d| % PACKET_SIZE == 0
    ensures Cut(p + d).rest == []
  {
    CutConcat(p, d);
    CutRemainder(d);
  }

  /** The stored packets of a payload: all complete ones but the first, which is the header. */
  function Packets(p: seq<Byte>): seq<seq<Byte>>
  {
    var blocks := Cut(p).blocks;
    if blocks == [] then [] else blocks[1..]
  }

  /** The decoder can read the body back, whatever the length of its header lines. */
  ghost predicate DecodableBody(accepts: seq<Byte> -> bool, chunks: seq<Chunk>)
  {
    && (forall i :: 0 <= i < |chunks| ==> chunks[i].Decodable())
    && Synchronised(accepts, Payload(chunks))
  }

  /** What the header loop may read before the data of chunk `i` in one call: the CRLF that ends
      the previous chunk, the line, and its own CRLF. */
  function HeaderLength(chunks: seq<Chunk>, i: nat): nat
    requires i < |chunks|
  {
    |chunks[i].Line()| + if i == 0 then 2 else 4
  }

  /** Every header fits the eleven turns of the loop when it arrives in one piece. */
  predicate HeadersFit(chunks: seq<Chunk>)
  {
    forall i :: 0 <= i < |chunks| ==> HeaderLength(chunks, i) <= HEADER_LOOP_LIMIT + 1
  }

  ghost predicate WellFormedBody(accepts: seq<Byte> -> bool, chunks: seq<Chunk>)
  {
    DecodableBody(accepts, chunks) && HeadersFit(chunks)
  }

  /** The header block is accepted, and every later packet starts with the sync word. */
  ghost predicate Synchronised(accepts: seq<Byte> -> bool, p: seq<Byte>)
  {
    var c := Cut(p);
    c.blocks != [] ==>
      && accepts(c.blocks[0])
      && (forall k :: 1 <= k < |c.blocks| ==> |c.blocks[k]| >= 2 && c.blocks[k][..2] == FM)
      && (|c.rest| >= 2 ==> c.rest[..2] == FM)
  }

  lemma SynchronisedInit(accepts: seq<Byte> -> bool, p: seq<Byte>, b: Byte)
    requires Synchronised(accepts, p + [b])
    ensures Synchronised(accepts, p)
  {
    CutAdd(p, b);
    var c, d := Cut(p), Cut(p + [b]);
    if c.blocks != [] {
      assert forall k :: 0 <= k < |c.blocks| ==> d.blocks[k] == c.blocks[k];
      if |c.rest| >= 2 && d.rest == [] {
        assert d.blocks[|c.blocks|][..2] == c.rest[..2];
      } else if |c.rest| >= 2 {
        assert d.rest[..2] == c.rest[..2];
      }
    }
  }

  lemma {:induction false} SynchronisedPrefix(accepts: seq<Byte> -> bool, p: seq<Byte>, rest: seq<Byte>)
    requires Synchronised(accepts, p + rest)
    ensures Synchronised(accepts, p)
    decreases |rest|
  {
    hide Synchronised;
    if rest == [] {
      assert p + rest == p;
    } else {
      var init := rest[..|rest| - 1];
      assert p + rest == (p + init) + [rest[|rest| - 1]];
      SynchronisedInit(accepts, p + init, rest[|rest| - 1]);
      SynchronisedPrefix(accepts, p, init);
    }
  }

  lemma {:induction false} PacketsGrow(p: seq<Byte>, d: seq<Byte>)
    ensures Packets(p) <= Packets(p + d)
    decreases |d|
  {
    if d == [] {
      assert p + d == p;
    } else {
      var init := d[..|d| - 1];
      assert p + d == (p + init) + [d[|d| - 1]];
      PacketsGrow(p, init);
      CutAdd(p + init, d[|d| - 1]);
    }
  }

  /** `s` has taken in exactly the payload `p`, and holds its incomplete packet. */
  predicate InData(s: Feed, p: seq<Byte>)
  {
    && s.Valid() && s.Open?
    && s.count == |p| && s.ptr == |Cut(p).rest|
    && s.buf[..s.ptr] == Cut(p).rest
    && s.stored == Packets(p)
  }

  /** Absorbing a byte extends the incomplete packet, and the sync test passes on it. */
  lemma AbsorbByte(accepts: seq<Byte> -> bool, s: Feed, p: seq<Byte>, b: Byte)
    requires InData(s, p) && s.chunk > 0 && Synchronised(accepts, p + [b])
    ensures var a := Absorb(s, [b]); var block := Cut(p).rest + [b];
            && a.ptr == |block| && a.buf[..a.ptr] == block
            && (a.ptr >= 2 && a.count > PACKET_SIZE ==> a.buf[..2] == FM)
            && (|block| == PACKET_SIZE && a.count <= PACKET_SIZE ==> accepts(block))
  {
    hide Packets;
    CutAdd(p, b);
    var a, block := Absorb(s, [b]), Cut(p).rest + [b];
    assert a.buf[..a.ptr] == block;
    if a.ptr >= 2 && a.count > PACKET_SIZE {
      assert Cut(p).blocks != [];
      assert block[..2] == FM;
      assert a.buf[..2] == block[..2];
    }
  }

  lemma DataByte(accepts: seq<Byte> -> bool, s: Feed, p: seq<Byte>, b: Byte)
    requires InData(s, p) && s.chunk > 0 && Synchronised(accepts, p + [b])
    ensures var t := Step(accepts, s, b); InData(t, p + [b]) && t.chunk == s.chunk - 1
  {
    hide ChunkSize, Synchronised, Overwrite, Cut;
    AbsorbByte(accepts, s, p, b);
    CutAdd(p, b);
  }

  lemma {:induction false} DataBytes(accepts: seq<Byte> -> bool, s: Feed, p: seq<Byte>, d: seq<Byte>)
    requires InData(s, p) && |d| <= s.chunk && Synchronised(accepts, p + d)
    ensures var t := Run(accepts, s, d); InData(t, p + d) && t.chunk == s.chunk - |d|
    decreases |d|
  {
    hide Run, Step, Cut, Packets, Synchronised;
    if d == [] {
      assert p + d == p;
      RunNil(accepts, s);
    } else {
      var init, last := d[..|d| - 1], d[|d| - 1];
      assert p + d == (p + init) + [last] && d == init + [last];
      SynchronisedPrefix(accepts, p + init, [last]);
      DataBytes(accepts, s, p, init);
      DataByte(accepts, Run(accepts, s, init), p + init, last);
      RunConcat(accepts, s, init, [last]);
      RunOne(accepts, Run(accepts, s, init), last);
    }
  }

  /** Ready to read a header line: at a packet boundary, with at most the previous CRLF consumed. */
  predicate AtHeader(s: Feed, p: seq<Byte>)
  {
    && s.Valid() && s.Open? && s.chunk == 0
    && s.count == |p| && Cut(p).rest == [] && s.stored == Packets(p)
    && (s.ptr == 0 || (s.ptr == 2 && s.buf[..2] == CRLF))
  }

  /** Part of a header line, up to but not including its LF, only fills the buffer. */
  lemma {:induction false} PartialLine(accepts: seq<Byte> -> bool, s: Feed, p: seq<Byte>, part: seq<Byte>)
    requires AtHeader(s, p) && s.ptr + |part| < PACKET_SIZE
    requires forall i :: 0 <= i < |part| ==> part[i] != LF
    ensures Run(accepts, s, part) == s.(buf := Overwrite(s.buf, s.ptr, part), ptr := s.ptr + |part|)
    decreases |part|
  {
    hide Run, ChunkSize, Packets, Cut, Settle, Overwrite;
    OverwriteGrows(s.buf, s.ptr, part);
    if part == [] {
      RunNil(accepts, s);
    } else {
      var init, last := part[..|part| - 1], part[|part| - 1];
      PartialLine(accepts, s, p, init);
      assert part == init + [last];
      RunConcat(accepts, s, init, [last]);
      RunOne(accepts, Run(accepts, s, init), last);
    }
  }

  lemma OverwriteGrows(buf: seq<Byte>, at: nat, data: seq<Byte>)
    requires at + |data| <= |buf|
    ensures Overwrite(buf, at, data)
            == if data == [] then buf
               else Overwrite(buf, at, data[..|data| - 1])[at + |data| - 1 := data[|data| - 1]]
  {
  }

  /** A header line: digits, and an extension behind a semicolon. */
  predicate HeaderLine(digits: seq<Byte>, ext: seq<Byte>) {
    && digits != [] && (ext != [] ==> ext[0] == 59) && (forall i :: 0 <= i < |ext| ==> ext[i] != LF)
    && |digits + ext| + 4 < PACKET_SIZE
  }

  lemma LineHasNoLf(digits: seq<Byte>, ext: seq<Byte>, n: nat)
    requires HeaderLine(digits, ext) && Spells(digits, n)
    ensures forall i :: 0 <= i < |digits + ext| ==> (digits + ext)[i] != LF
  {
    SpellsHex(digits, n);
  }

  lemma LineEnd(accepts: seq<Byte> -> bool, m: Feed, p: seq<Byte>, n: nat)
    requires m.Valid() && m.Open? && m.chunk == 0 && m.count == |p| && Cut(p).rest == []
    requires m.stored == Packets(p) && m.ptr >= 2 && m.buf[m.ptr - 1] == CR
    requires 0 < n == ChunkSize(m.buf[m.ptr := LF])
    ensures var t := Step(accepts, m, LF); InData(t, p) && t.chunk == n
  {
  }

  /** The buffer when the line has come in behind what was there before. */
  lemma LineInBuffer(buf: seq<Byte>, ptr: nat, digits: seq<Byte>, ext: seq<Byte>)
    requires ptr + |digits + ext| + 2 <= |buf|
    ensures var n := ptr + |digits + ext| + 1;
            && Overwrite(buf, ptr, digits + ext + [CR])[n := LF] == buf[..ptr] + (digits + (ext + CRLF + buf[n + 1..]))
            && Overwrite(buf, ptr, digits + ext + [CR])[n - 1] == CR
  {
  }

  /** A header line short of its LF leaves the digits it starts with to be read as what they spell. */
  lemma LineRead(accepts: seq<Byte> -> bool, s: Feed, p: seq<Byte>, digits: seq<Byte>, ext: seq<Byte>, n: nat)
    requires AtHeader(s, p) && HeaderLine(digits, ext) && Spells(digits, n) && n < 0x8000_0000
    ensures var m := Run(accepts, s, digits + ext + [CR]);
      && m.Open? && m.chunk == 0 && m.count == |p| && m.stored == Packets(p) && m.ptr >= 2 && m.buf[m.ptr - 1] == CR
      && ChunkSize(m.buf[m.ptr := LF]) == n
      && Run(accepts, s, digits + ext + CRLF) == Step(accepts, m, LF)
  {
    hide Run, Step, ChunkSize, Spells, Overwrite, Cut, Packets;
    var part := digits + ext + [CR];
    LineHasNoLf(digits, ext, n);
    PartialLine(accepts, s, p, part);
    assert digits + ext + CRLF == part + [LF];
    RunConcat(accepts, s, part, [LF]);
    RunOne(accepts, Run(accepts, s, part), LF);
    var tail := ext + CRLF + s.buf[s.ptr + |part| + 1..];
    LineInBuffer(s.buf, s.ptr, digits, ext);
    assert [] + ([] + digits + tail) == digits + tail;
    NumberReads(s.buf[..s.ptr], [], [], digits, tail, n);
  }

  /** A whole header line leaves the decoder at the start of the chunk's data. */
  lemma WholeLine(accepts: seq<Byte> -> bool, s: Feed, p: seq<Byte>, c: Chunk)
    requires AtHeader(s, p) && c.Decodable()
    ensures var t := Run(accepts, s, c.Line() + CRLF);
            InData(t, p) && t.chunk == |c.data|
  {
    hide Run, Step, ChunkSize, Spells, Cut, Packets;
    LineRead(accepts, s, p, c.digits, c.ext, |c.data|);
    LineEnd(accepts, Run(accepts, s, c.Line() + [CR]), p, |c.data|);
  }

  lemma CrLfBytes(accepts: seq<Byte> -> bool, n: Feed, q: seq<Byte>)
    requires InData(n, q) && n.chunk == 0 && n.ptr == 0
    ensures var o := Step(accepts, n, CR);
            && o.Open? && o.chunk == 0 && o.ptr == 1 && o.count == |q| && o.stored == Packets(q)
            && AtHeader(Step(accepts, o, LF), q) && Step(accepts, o, LF).ptr == 2
  {
    var o := Step(accepts, n, CR);
    assert o.buf[1 := LF][..2] == CRLF;
  }

  lemma RunCrLf(accepts: seq<Byte> -> bool, s: Feed, d: seq<Byte>)
    requires s.Valid()
    ensures Run(accepts, s, d + [CR]) == Step(accepts, Run(accepts, s, d), CR)
    ensures Run(accepts, s, d + CRLF) == Step(accepts, Run(accepts, s, d + [CR]), LF)
  {
    assert (d + [CR])[..|d|] == d && (d + CRLF)[..|d| + 1] == d + [CR];
  }

  /** The chunk's data, as far as it has come, followed by none, one or both bytes of the CRLF. */
  lemma AfterLine(accepts: seq<Byte> -> bool, m: Feed, p: seq<Byte>, d: seq<Byte>)
    requires InData(m, p) && |d| <= m.chunk && Cut(p).rest == []
    requires m.chunk % PACKET_SIZE == 0 && Synchronised(accepts, p + d)
    ensures InData(Run(accepts, m, d), p + d) && Run(accepts, m, d).chunk == m.chunk - |d|
    ensures |d| == m.chunk ==>
              && var t := Run(accepts, m, d + [CR]);
              && t.Open? && t.chunk == 0 && t.ptr == 1 && t.count == |p + d| && t.stored == Packets(p + d)
              && AtHeader(Run(accepts, m, d + CRLF), p + d) && Run(accepts, m, d + CRLF).ptr == 2
  {
    hide Run, Step;
    DataBytes(accepts, m, p, d);
    if |d| == m.chunk {
      WholePackets(p, d);
      RunCrLf(accepts, m, d);
      CrLfBytes(accepts, Run(accepts, m, d), p + d);
    }
  }

  /** What holds after any part of a body: nothing lost, nothing invented. */
  predicate Faithful(t: Feed, payload: seq<Byte>)
  {
    t.Open? && t.count <= |payload| && t.stored == Packets(payload[..t.count])
  }

  /** The header read so far leaves room for one more turn of the loop. */
  predicate Short(t: Feed)
  {
    t.Open? && t.chunk == 0 ==> t.ptr <= HEADER_LOOP_LIMIT
  }

  lemma ChunkHead(accepts: seq<Byte> -> bool, s: Feed, p: seq<Byte>, c: Chunk, r: seq<Byte>)
    requires AtHeader(s, p) && c.Decodable() && r <= c.Line() + [CR]
    ensures Faithful(Run(accepts, s, r), p + c.data)
    ensures s.ptr + |c.Line() + CRLF| <= HEADER_LOOP_LIMIT + 1 ==> Short(Run(accepts, s, r))
  {
    LineHasNoLf(c.digits, c.ext, |c.data|);
    PartialLine(accepts, s, p, r);
    assert (p + c.data)[..|p|] == p;
  }

  lemma ChunkBody(accepts: seq<Byte> -> bool, s: Feed, p: seq<Byte>, c: Chunk, d: seq<Byte>)
    requires AtHeader(s, p) && c.Decodable() && Synchronised(accepts, p + c.data)
    requires d <= c.data + CRLF
    ensures var t := Run(accepts, s, c.Line() + CRLF + d); Faithful(t, p + c.data) && Short(t)
    ensures var t := Run(accepts, s, c.Line() + CRLF + (c.data + CRLF)); AtHeader(t, p + c.data) && t.ptr == 2
  {
    hide Run, Step;
    var head, q := c.Line() + CRLF, p + c.data;
    WholeLine(accepts, s, p, c);
    var m := Run(accepts, s, head);
    AfterLine(accepts, m, p, c.data);
    RunConcat(accepts, s, head, c.data + CRLF);
    RunConcat(accepts, s, head, d);
    assert q[..|q|] == q;
    if |d| <= |c.data| {
      assert d == c.data[..|d|];
      assert p + d + c.data[|d|..] == q;
      SynchronisedPrefix(accepts, p + d, c.data[|d|..]);
      AfterLine(accepts, m, p, d);
      assert q[..|p + d|] == p + d;
      if |d| == |c.data| {
        WholePackets(p, d);
      }
    } else if |d| == |c.data| + 1 {
      assert d == c.data + [CR];
    } else {
      assert d == c.data + CRLF;
    }
  }

  lemma {:induction false} WholeChunks(accepts: seq<Byte> -> bool, s: Feed, chunks: seq<Chunk>)
    requires AtHeader(s, []) && DecodableBody(accepts, chunks)
    ensures var t := Run(accepts, s, Wire(chunks));
            AtHeader(t, Payload(chunks)) && t.ptr == if chunks == [] then s.ptr else 2
    decreases |chunks|
  {
    hide Run, Step, Packets, Synchronised;
    if chunks == [] {
      RunNil(accepts, s);
    } else {
      var init, c := chunks[..|chunks| - 1], chunks[|chunks| - 1];
      SynchronisedPrefix(accepts, Payload(init), c.data);
      WholeChunks(accepts, s, init);
      ChunkBody(accepts, Run(accepts, s, Wire(init)), Payload(init), c, []);
      var text := c.Line() + CRLF + (c.data + CRLF);
      assert Wire(chunks) == Wire(init) + text;
      RunConcat(accepts, s, Wire(init), text);
    }
  }

  /** The main theorem: after any prefix `r` of a decodable body the feed is open, and what it
      stored is exactly the complete packets of the de-chunked payload it has seen; after the whole
      body, of the whole payload. From a fresh feed on, headers that fit stay short. */
  lemma {:induction false} StoresThePackets(accepts: seq<Byte> -> bool, s: Feed, chunks: seq<Chunk>, r: seq<Byte>)
    requires AtHeader(s, []) && DecodableBody(accepts, chunks) && r <= Wire(chunks)
    ensures Faithful(Run(accepts, s, r), Payload(chunks))
    ensures r == Wire(chunks) ==> Run(accepts, s, r).stored == Packets(Payload(chunks))
    ensures s.ptr == 0 && HeadersFit(chunks) ==> Short(Run(accepts, s, r))
    decreases |chunks|
  {
    hide Run, Step, Packets, Synchronised, HeadersFit;
    if chunks == [] {
      assert r == [];
      RunNil(accepts, s);
    } else {
      var init, c := chunks[..|chunks| - 1], chunks[|chunks| - 1];
      var w, rest := Wire(init), c.Line() + CRLF + (c.data + CRLF);
      assert Wire(chunks) == w + rest;
      SynchronisedPrefix(accepts, Payload(init), c.data);
      FitsInit(chunks);
      if |r| < |w| {
        assert r == w[..|r|];
        StoresThePackets(accepts, s, init, r);
        var n := Run(accepts, s, r).count;
        assert Payload(chunks)[..n] == Payload(init)[..n];
      } else {
        WholeChunks(accepts, s, init);
        var u := r[|w|..];
        assert r == w + u && u == rest[..|u|];
        RunConcat(accepts, s, w, u);
        LastChunk(accepts, Run(accepts, s, w), Payload(init), c, u);
      }
    }
  }

  lemma {:induction false} ClosedStays(accepts: seq<Byte> -> bool, stored: seq<seq<Byte>>, r: seq<Byte>)
    ensures Run(accepts, Closed(stored), r) == Closed(stored)
    decreases |r|
  {
    if r != [] {
      ClosedStays(accepts, stored, r[..|r| - 1]);
    }
  }

  /** The byte at which the payload is no longer in step closes the feed. */
  lemma LostByte(accepts: seq<Byte> -> bool, s: Feed, p: seq<Byte>, b: Byte)
    requires InData(s, p) && s.chunk > 0 && Synchronised(accepts, p) && !Synchronised(accepts, p + [b])
    ensures Step(accepts, s, b) == Closed(s.stored)
  {
    hide ChunkSize;
    CutAdd(p, b);
    var c, a := Cut(p), Absorb(s, [b]);
    var block := c.rest + [b];
    assert a.buf[..a.ptr] == block;
    if a.ptr >= 2 {
      assert a.buf[..2] == block[..2];
    }
  }

  /** The payload up to byte `n` is in step, and with that byte no more. */
  ghost predicate FirstLost(accepts: seq<Byte> -> bool, p: seq<Byte>, n: nat) {
    n < |p| && Synchronised(accepts, p[..n]) && !Synchronised(accepts, p[..n + 1])
  }

  lemma {:induction false} LostData(accepts: seq<Byte> -> bool, s: Feed, p: seq<Byte>, d: seq<Byte>) returns (n: nat)
    requires InData(s, p) && |d| <= s.chunk && Synchronised(accepts, p) && !Synchronised(accepts, p + d)
    ensures FirstLost(accepts, p + d, n) && Run(accepts, s, d) == Closed(Packets((p + d)[..n]))
    decreases |d|
  {
    hide Run, Step, Packets, Synchronised, Cut;
    NoneAdded(p, d);
    var init, b := d[..|d| - 1], d[|d| - 1];
    assert d == init + [b] && p + d == (p + init) + [b];
    RunConcat(accepts, s, init, [b]);
    if Synchronised(accepts, p + init) {
      DataBytes(accepts, s, p, init);
      RunOne(accepts, Run(accepts, s, init), b);
      LostByte(accepts, Run(accepts, s, init), p + init, b);
      n := |p + init|;
      assert (p + d)[..n] == p + init && (p + d)[..n + 1] == p + d;
    } else {
      n := LostData(accepts, s, p, init);
      assert (p + d)[..n] == (p + init)[..n] && (p + d)[..n + 1] == (p + init)[..n + 1];
      ClosedStays(accepts, Packets((p + init)[..n]), [b]);
    }
  }

  lemma {:induction false} LostBody(accepts: seq<Byte> -> bool, s: Feed, chunks: seq<Chunk>) returns (n: nat)
    requires AtHeader(s, []) && !Synchronised(accepts, Payload(chunks))
    requires forall i :: 0 <= i < |chunks| ==> chunks[i].Decodable()
    ensures FirstLost(accepts, Payload(chunks), n)
    ensures Run(accepts, s, Wire(chunks)) == Closed(Packets(Payload(chunks)[..n]))
    decreases |chunks|
  {
    hide Run, Step, Packets, Synchronised, Cut;
    NothingLost(accepts, chunks);
    var init, c := chunks[..|chunks| - 1], chunks[|chunks| - 1];
    var p, whole, head := Payload(init), Payload(chunks), c.Line() + CRLF;
    assert Wire(chunks) == Wire(init) + (head + c.data + CRLF);
    assert head + c.data + CRLF == head + (c.data + CRLF);
    RunConcat(accepts, s, Wire(init), head + (c.data + CRLF));
    var t := Run(accepts, s, Wire(init));
    if Synchronised(accepts, p) {
      WholeChunks(accepts, s, init);
      WholeLine(accepts, t, p, c);
      RunConcat(accepts, t, head, c.data + CRLF);
      RunConcat(accepts, Run(accepts, t, head), c.data, CRLF);
      n := LostData(accepts, Run(accepts, t, head), p, c.data);
      ClosedStays(accepts, Packets(whole[..n]), CRLF);
    } else {
      n := LostBody(accepts, s, init);
      assert whole[..n] == p[..n] && whole[..n + 1] == p[..n + 1];
      ClosedStays(accepts, Packets(p[..n]), head + (c.data + CRLF));
    }
  }

  lemma NoneAdded(p: seq<Byte>, d: seq<Byte>)
    ensures d == [] ==> p + d == p
  {
  }

  lemma NothingLost(accepts: seq<Byte> -> bool, chunks: seq<Chunk>)
    ensures chunks == [] ==> Synchronised(accepts, Payload(chunks))
  {
  }

  /** A body stays open exactly as long as its first packet is accepted and every later one starts
      with the sync word; at the first byte that breaks this the feed closes with what it stored. */
  lemma SynchronisedOrClosed(accepts: seq<Byte> -> bool, s: Feed, chunks: seq<Chunk>)
    requires AtHeader(s, []) && forall i :: 0 <= i < |chunks| ==> chunks[i].Decodable()
    ensures var t := Run(accepts, s, Wire(chunks));
      && (t.Open? <==> Synchronised(accepts, Payload(chunks)))
      && (t.Closed? ==>
            exists n: nat :: FirstLost(accepts, Payload(chunks), n) && t.stored == Packets(Payload(chunks)[..n]))
  {
    hide Run, Packets, Synchronised;
    if Synchronised(accepts, Payload(chunks)) {
      WholeChunks(accepts, s, chunks);
    } else {
      var n := LostBody(accepts, s, chunks);
    }
  }

  /** A header line that spells zero ends the feed, with all complete packets of the body stored. */
  lemma EndOfStream(accepts: seq<Byte> -> bool, s: Feed, chunks: seq<Chunk>, digits: seq<Byte>, ext: seq<Byte>)
    requires AtHeader(s, []) && DecodableBody(accepts, chunks)
    requires HeaderLine(digits, ext) && Spells(digits, 0)
    ensures Run(accepts, s, Wire(chunks) + (digits + ext + CRLF)) == Closed(Packets(Payload(chunks)))
  {
    hide Run, Step, ChunkSize, Spells, Cut, Packets, Synchronised;
    WholeChunks(accepts, s, chunks);
    var t := Run(accepts, s, Wire(chunks));
    RunConcat(accepts, s, Wire(chunks), digits + ext + CRLF);
    LineRead(accepts, t, Payload(chunks), digits, ext, 0);
    ZeroEnds(accepts, Run(accepts, t, digits + ext + [CR]));
  }

  /** A header line that fills the packet before it ends is taken for a packet: for the header block,
      when none has come, or for data, which then has to start with the sync word. */
  lemma EndlessHeader(accepts: seq<Byte> -> bool, s: Feed, p: seq<Byte>, line: seq<Byte>)
    requires AtHeader(s, p) && s.ptr + |line| == PACKET_SIZE && forall i :: 0 <= i < |line| ==> line[i] != LF
    ensures var block := s.buf[..s.ptr] + line;
      var full := s.(buf := block + s.buf[PACKET_SIZE..], ptr := 0);
      Run(accepts, s, line)
      == if s.count > PACKET_SIZE && block[..2] == FM then full.(stored := s.stored + [block])
         else if s.count <= PACKET_SIZE && accepts(block) then full
         else Closed(s.stored)
  {
    hide Run, ChunkSize, Packets, Cut;
    var part, last := line[..|line| - 1], line[|line| - 1];
    assert line == part + [last];
    PartialLine(accepts, s, p, part);
    RunConcat(accepts, s, part, [last]);
    var t := Run(accepts, s, part);
    RunOne(accepts, t, last);
    var block := s.buf[..s.ptr] + line;
    assert t.buf[t.ptr := last] == block + s.buf[PACKET_SIZE..];
    assert (block + s.buf[PACKET_SIZE..])[..PACKET_SIZE] == block;
    assert (block + s.buf[PACKET_SIZE..])[..2] == block[..2];
  }

  lemma ZeroEnds(accepts: seq<Byte> -> bool, m: Feed)
    requires m.Valid() && m.Open? && m.chunk == 0 && m.ptr >= 2 && m.buf[m.ptr - 1] == CR
    requires ChunkSize(m.buf[m.ptr := LF]) == 0
    ensures Step(accepts, m, LF) == Closed(m.stored)
  {
  }

  lemma FitsInit(chunks: seq<Chunk>)
    requires chunks != []
    ensures HeadersFit(chunks)
            <==> HeadersFit(chunks[..|chunks| - 1]) && HeaderLength(chunks, |chunks| - 1) <= HEADER_LOOP_LIMIT + 1
  {
    var init := chunks[..|chunks| - 1];
    assert forall i :: 0 <= i < |init| ==> HeaderLength(init, i) == HeaderLength(chunks, i);
  }

  lemma LastChunk(accepts: seq<Byte> -> bool, s: Feed, p: seq<Byte>, c: Chunk, u: seq<Byte>)
    requires AtHeader(s, p) && c.Decodable() && Synchronised(accepts, p + c.data)
    requires u <= c.Line() + CRLF + (c.data + CRLF)
    ensures Faithful(Run(accepts, s, u), p + c.data)
    ensures u == c.Line() + CRLF + (c.data + CRLF) ==> Run(accepts, s, u).stored == Packets(p + c.data)
    ensures s.ptr + |c.Line() + CRLF| <= HEADER_LOOP_LIMIT + 1 ==> Short(Run(accepts, s, u))
  {
    hide Run, Step, Packets, Synchronised;
    var head := c.Line() + CRLF;
    if |u| < |head| {
      assert u == (c.Line() + [CR])[..|u|];
      ChunkHead(accepts, s, p, c, u);
    } else {
      assert u == head + u[|head|..] && u[|head|..] == (c.data + CRLF)[..|u| - |head|];
      ChunkBody(accepts, s, p, c, u[|head|..]);
    }
  }

  // ----- the event handler -----

  datatype Received = Again | Lost | Eof | Bytes(data: seq<Byte>)

  /** The peer's remaining bytes; how many arrive at each read is left open. */
  class Socket {
    var incoming: seq<Byte>
    /** How often recv would have blocked, how often it had nothing more to give, and how much the
        last call asked for. */
    ghost var blocked: nat
    ghost var ended: nat
    ghost var asked: nat

    constructor (bytes: seq<Byte>)
      ensures incoming == bytes && blocked == ended == 0
    {
      incoming, blocked, ended, asked := bytes, 0, 0, 0;
    }

    method Recv(n: nat) returns (r: Received)
      modifies this
      ensures r.Bytes? ==> 1 <= |r.data| <= n && old(incoming) == r.data + incoming
      ensures !r.Bytes? ==> incoming == old(incoming)
      ensures asked == n && blocked == old(blocked) + if r.Again? then 1 else 0
      ensures ended == old(ended) + if r.Lost? || r.Eof? then 1 else 0
    {
      if * {
        r := Again;
      } else if * {
        r := Lost;
      } else if n == 0 || incoming == [] {
        r := Eof;
      } else {
        var k: nat :| 1 <= k <= n && k <= |incoming|;
        r := Bytes(incoming[..k]);
        incoming := incoming[k..];
      }
      asked, blocked := n, blocked + if r.Again? then 1 else 0;
      ended := ended + if r.Lost? || r.Eof? then 1 else 0;
    }
  }

  /** Why the handler returned: `Continues` is its 0, every other outcome its -1. */
  datatype Outcome = Continues | ProtocolEnd | SocketLost | DiskFailed | HeaderOverrun

  /** One call read `got`, and its last byte was the eleventh that did not complete a header line. */
  ghost predicate Overrun(accepts: seq<Byte> -> bool, s: Feed, got: seq<Byte>, stored: seq<seq<Byte>>)
    requires s.Valid()
  {
    && |got| == HEADER_LOOP_LIMIT + 1
    && var u := Run(accepts, s, got[..|got| - 1]);
    && u.Open? && u.chunk == 0 && u.ptr >= HEADER_LOOP_LIMIT && stored == u.stored
    && !(u.buf[u.ptr - 1] == CR && got[|got| - 1] == LF)
  }

  /** Some call, starting anywhere in the body, gives up on a header of it. */
  ghost predicate CanOverrun(accepts: seq<Byte> -> bool, s: Feed, body: seq<Byte>)
    requires s.Valid()
  {
    exists before, got, stored :: before + got <= body && Overrun(accepts, Run(accepts, s, before), got, stored)
  }

  /** With headers that fit, no call anywhere in the body runs into the loop limit. */
  lemma NoOverrun(accepts: seq<Byte> -> bool, s: Feed, chunks: seq<Chunk>, before: seq<Byte>, got: seq<Byte>,
                  stored: seq<seq<Byte>>)
    requires AtHeader(s, []) && s.ptr == 0 && WellFormedBody(accepts, chunks) && before + got <= Wire(chunks)
    ensures !Overrun(accepts, Run(accepts, s, before), got, stored)
  {
    hide Run, Step, DecodableBody, HeadersFit, Wire;
    if Overrun(accepts, Run(accepts, s, before), got, stored) {
      var init, b := got[..|got| - 1], got[|got| - 1];
      assert got == init + [b];
      assert before + got == (before + init) + [b];
      RunConcat(accepts, s, before, init);
      RunConcat(accepts, s, before + init, [b]);
      var u := Run(accepts, s, before + init);
      RunOne(accepts, u, b);
      HeaderStep(accepts, u, b);
      StoresThePackets(accepts, s, chunks, before + init);
      StoresThePackets(accepts, s, chunks, before + got);
    }
  }

  /** The parts of the body around chunk `i`. */
  lemma {:induction false} WireSplits(chunks: seq<Chunk>, i: nat)
    requires i < |chunks|
    ensures Wire(chunks[..i]) + (chunks[i].Line() + CRLF) <= Wire(chunks)
    decreases |chunks|
  {
    var n, c := |chunks| - 1, chunks[i];
    if i < n {
      assert chunks[..n][..i] == chunks[..i];
      WireSplits(chunks[..n], i);
    } else {
      assert Wire(chunks) == Wire(chunks[..n]) + (c.Line() + CRLF) + (c.data + CRLF);
    }
  }

  lemma {:induction false} DecodablePart(accepts: seq<Byte> -> bool, chunks: seq<Chunk>, i: nat)
    requires DecodableBody(accepts, chunks) && i <= |chunks|
    ensures DecodableBody(accepts, chunks[..i])
    decreases |chunks|
  {
    hide Synchronised;
    if i == |chunks| {
      assert chunks[..i] == chunks;
    } else {
      var init := chunks[..|chunks| - 1];
      SynchronisedPrefix(accepts, Payload(init), chunks[|chunks| - 1].data);
      assert init[..i] == chunks[..i];
      DecodablePart(accepts, init, i);
    }
  }

  /** The CRLF that ends the previous chunk, if there is one. */
  function Lead(i: nat): seq<Byte> {
    if i == 0 then [] else CRLF
  }

  /** The body up to where a call that reads the whole header of chunk `i` starts. */
  ghost function BeforeHeader(chunks: seq<Chunk>, i: nat): (before: seq<Byte>)
    requires i < |chunks|
    ensures Wire(chunks[..i]) == before + Lead(i)
  {
    if i == 0 then []
    else
      var c := chunks[i - 1];
      assert chunks[..i][..i - 1] == chunks[..i - 1];
      Wire(chunks[..i - 1]) + (c.Line() + CRLF + c.data)
  }

  /** Reading the front of a header line, short of its LF. */
  lemma HeaderFront(accepts: seq<Byte> -> bool, t: Feed, p: seq<Byte>, c: Chunk, k: nat)
    requires AtHeader(t, p) && c.Decodable() && k <= |c.Line()| + 1
    ensures var u := Run(accepts, t, (c.Line() + CRLF)[..k]);
            u.Open? && u.chunk == 0 && u.ptr == t.ptr + k && u.stored == t.stored
  {
    hide Run, Step, Packets;
    LineHasNoLf(c.digits, c.ext, |c.data|);
    assert (c.Line() + CRLF)[..k] == (c.Line() + [CR])[..k];
    PartialLine(accepts, t, p, (c.Line() + [CR])[..k]);
  }

  /** A header that is too long is given up by the call that finds all of it. */
  lemma LongHeaderOverruns(accepts: seq<Byte> -> bool, s: Feed, chunks: seq<Chunk>, i: nat)
    requires AtHeader(s, []) && s.ptr == 0 && DecodableBody(accepts, chunks)
    requires i < |chunks| && HeaderLength(chunks, i) > HEADER_LOOP_LIMIT + 1
    ensures CanOverrun(accepts, s, Wire(chunks))
  {
    hide Run, Step, DecodableBody, Wire, Packets, Payload, BeforeHeader, Overrun, Cut, Spells, HeaderLine;
    var c, lead, before := chunks[i], Lead(i), BeforeHeader(chunks, i);
    HeaderReached(accepts, s, chunks, i);
    WireSplits(chunks, i);
    LineHasNoLf(c.digits, c.ext, |c.data|);
    var w, line, k := before + lead, c.Line() + CRLF, HEADER_LOOP_LIMIT - |lead|;
    var t := Run(accepts, s, w);
    HeaderFront(accepts, t, Payload(chunks[..i]), c, k);
    RunConcat(accepts, s, w, line[..k]);
    OverrunAt(accepts, s, before, lead, line, k);
    Prefix(w, line, k + 1, Wire(chunks));
    assert before + (lead + line[..k + 1]) == w + line[..k + 1];
  }

  /** Ten bytes of a header without its end, and one more that does not end it either. */
  lemma OverrunAt(accepts: seq<Byte> -> bool, s: Feed, before: seq<Byte>, lead: seq<Byte>, line: seq<Byte>, k: nat)
    requires s.Valid() && k < |line| && |lead| + k == HEADER_LOOP_LIMIT && line[k] != LF
    requires var u := Run(accepts, s, before + lead + line[..k]); u.Open? && u.chunk == 0 && u.ptr >= HEADER_LOOP_LIMIT
    ensures Overrun(accepts, Run(accepts, s, before), lead + line[..k + 1],
                    Run(accepts, s, before + lead + line[..k]).stored)
  {
    hide Run;
    var got := lead + line[..k + 1];
    assert got[..HEADER_LOOP_LIMIT] == lead + line[..k];
    assert before + lead + line[..k] == before + (lead + line[..k]);
    RunConcat(accepts, s, before, lead + line[..k]);
  }

  lemma Prefix(w: seq<Byte>, line: seq<Byte>, k: nat, body: seq<Byte>)
    requires k <= |line| && w + line <= body
    ensures w + line[..k] <= body
  {
  }

  /** The decoder behind the chunks before chunk `i`. */
  lemma HeaderReached(accepts: seq<Byte> -> bool, s: Feed, chunks: seq<Chunk>, i: nat)
    requires AtHeader(s, []) && s.ptr == 0 && DecodableBody(accepts, chunks) && i < |chunks|
    ensures chunks[i].Decodable()
    ensures var t := Run(accepts, s, Wire(chunks[..i])); AtHeader(t, Payload(chunks[..i])) && t.ptr == |Lead(i)|
  {
    hide Run, Step, DecodableBody, Wire;
    DecodablePart(accepts, chunks, i);
    ChunkDecodable(accepts, chunks, i);
    WholeChunks(accepts, s, chunks[..i]);
  }

  lemma ChunkDecodable(accepts: seq<Byte> -> bool, chunks: seq<Chunk>, i: nat)
    requires DecodableBody(accepts, chunks) && i < |chunks|
    ensures chunks[i].Decodable()
  {
  }

  /** The loop limit counts the bytes of one call, not of one header. A decodable body can be lost
      to it exactly when some header, with the CRLF before it, has more than eleven bytes: then it
      depends on how the socket cuts the bytes, while the decoder itself reads every such body. */
  lemma HeaderLimitIsPerCall(accepts: seq<Byte> -> bool, s: Feed, chunks: seq<Chunk>)
    requires AtHeader(s, []) && s.ptr == 0 && DecodableBody(accepts, chunks)
    ensures CanOverrun(accepts, s, Wire(chunks))
            <==> exists i :: 0 <= i < |chunks| && HeaderLength(chunks, i) > 11
    ensures Run(accepts, s, Wire(chunks)).stored == Packets(Payload(chunks))
  {
    hide Run, Step, DecodableBody, Wire, Packets;
    StoresThePackets(accepts, s, chunks, Wire(chunks));
    if i :| 0 <= i < |chunks| && HeaderLength(chunks, i) > HEADER_LOOP_LIMIT + 1 {
      LongHeaderOverruns(accepts, s, chunks, i);
    } else if CanOverrun(accepts, s, Wire(chunks)) {
      var before, got, stored :|
        before + got <= Wire(chunks) && Overrun(accepts, Run(accepts, s, before), got, stored);
      NoOverrun(accepts, s, chunks, before, got, stored);
    }
  }

  /** In this state a read of `asked` bytes is all that the chunk and the packet allow. */
  predicate AskedAll(u: Feed, asked: nat) {
    u.Open? && u.chunk > 0 && u.ptr < PACKET_SIZE && asked == Min(u.chunk, PACKET_SIZE - u.ptr)
  }

  datatype Turn = Blocks | NoMore | LineDone | BadSize | MoreToCome

  class Receiver {
    var feedOpened: bool
    const buffer: array<Byte>
    var ptr: nat
    var chunkSize: nat
    var dataCount: nat
    var stored: seq<seq<Byte>>
    const chunkedEncoding: bool
    const sock: Socket
    const accepts: seq<Byte> -> bool

    ghost predicate Valid()
      reads this, buffer
    {
      && buffer.Length == BUFFER_SIZE
      && (feedOpened ==> Raw().Valid() && (!chunkedEncoding ==> chunkSize == 0 && ptr == 0))
    }

    ghost function Raw(): (f: Feed)
      reads this, buffer
      ensures f.Open?
    {
      Open(buffer[..], ptr, chunkSize, dataCount, stored)
    }

    ghost function Model(): (f: Feed)
      reads this, buffer
      requires Valid()
      ensures f.Valid()
    {
      if feedOpened then Raw() else Closed(stored)
    }

    /** The state http_start_receive_data leaves: the request text is still in the buffer. */
    constructor (request: array<Byte>, sock: Socket, chunked: bool, accepts: seq<Byte> -> bool)
      requires request.Length == BUFFER_SIZE
      ensures Valid() && feedOpened && Raw() == Open(request[..], 0, 0, 0, [])
      ensures this.sock == sock && buffer == request && chunkedEncoding == chunked && this.accepts == accepts
    {
      buffer, this.sock, chunkedEncoding, this.accepts := request, sock, chunked, accepts;
      feedOpened, ptr, chunkSize, dataCount, stored := true, 0, 0, 0, [];
    }

    /** The end of the handler: the sync-word test, then storing or interpreting a full packet. */
    method FinishPacket(diskOk: bool) returns (why: Outcome)
      requires buffer.Length == BUFFER_SIZE && feedOpened && ptr <= PACKET_SIZE
      requires !chunkedEncoding ==> chunkSize == 0 && ptr == 0
      modifies this
      ensures Valid() && why in {Continues, ProtocolEnd, DiskFailed}
      ensures why != DiskFailed ==> Model() == Settle(accepts, old(Raw()))
      ensures why == Continues <==> feedOpened
      ensures why == DiskFailed ==> stored == old(stored) && !diskOk
    {
      if ptr >= 2 && dataCount > PACKET_SIZE && buffer[..2] != FM {
        feedOpened := false;
        return ProtocolEnd;
      }
      if ptr >= PACKET_SIZE {
        if dataCount > PACKET_SIZE {
          if !diskOk {
            feedOpened := false;
            return DiskFailed;
          }
          stored := stored + [buffer[..PACKET_SIZE]];
        } else if !accepts(buffer[..PACKET_SIZE]) {
          feedOpened := false;
          return ProtocolEnd;
        }
        ptr := 0;
      }
      return Continues;
    }

    /** One turn of the header loop: nothing to read, a completed line that gives the size of the
        chunk, or a byte that stays in the buffer for the caller to step over. */
    method HeaderTurn() returns (turn: Turn, ghost got: seq<Byte>)
      requires Valid() && feedOpened && chunkSize == 0
      modifies this`feedOpened, this`chunkSize, this`ptr, buffer, sock
      ensures old(sock.incoming) == got + sock.incoming
      ensures sock.blocked == old(sock.blocked) + if turn == Blocks then 1 else 0
      ensures sock.ended == old(sock.ended) + if turn == NoMore then 1 else 0
      ensures if turn == Blocks || turn == NoMore then got == [] else |got| == 1
      ensures feedOpened <==> turn != NoMore && turn != BadSize
      ensures turn == Blocks ==> Raw() == old(Raw())
      ensures turn == LineDone ==> Valid() && Raw() == Step(accepts, old(Raw()), got[0]) && ptr == 0 && chunkSize > 0
      ensures turn == BadSize ==> Step(accepts, old(Raw()), got[0]) == Closed(stored)
      ensures turn == MoreToCome ==>
                && chunkSize == 0 && ptr == old(ptr)
                && !(old(ptr >= 2 && buffer[ptr - 1] == CR) && got[0] == LF)
                && var u := Open(buffer[..], ptr + 1, chunkSize, dataCount, stored);
                && Step(accepts, old(Raw()), got[0]) == if ptr + 1 == PACKET_SIZE then Settle(accepts, u) else u
    {
      hide ChunkSize, Settle;
      ghost var s := Raw();
      got := [];
      var r := sock.Recv(1);
      if r.Again? {
        return Blocks, got;
      } else if r.Lost? || r.Eof? {
        feedOpened := false;
        return NoMore, got;
      }
      got := r.data;
      buffer[ptr] := r.data[0];
      assert buffer[..] == s.buf[s.ptr := r.data[0]];
      if ptr >= 2 && buffer[ptr - 1] == CR && buffer[ptr] == LF {
        var n := ChunkSize(buffer[..]);
        if n <= 0 {
          feedOpened := false;
          return BadSize, got;
        }
        chunkSize, ptr := n, 0;
        return LineDone, got;
      }
      return MoreToCome, got;
    }

    /** The header loop: one byte per turn, at most eleven turns in a call; `got` is what it read.
        `pending` says that nothing more can be read in this event. */
    method ReadHeader() returns (why: Outcome, pending: bool, ghost got: seq<Byte>)
      requires Valid() && feedOpened && chunkedEncoding && chunkSize == 0
      modifies this, buffer, sock
      ensures buffer.Length == BUFFER_SIZE
      ensures old(sock.incoming) == got + sock.incoming
      ensures why in {Continues, ProtocolEnd, SocketLost, HeaderOverrun}
      ensures why == Continues <==> feedOpened
      ensures why == Continues ==> ptr <= PACKET_SIZE && (ptr == PACKET_SIZE ==> chunkSize == 0 && !pending)
      ensures why == Continues && ptr < PACKET_SIZE ==>
                Raw() == Run(accepts, old(Model()), got) && (!pending ==> ptr == 0 && chunkSize > 0)
      ensures why == Continues && ptr == PACKET_SIZE ==> Settle(accepts, Raw()) == Run(accepts, old(Model()), got)
      ensures why == ProtocolEnd ==> Run(accepts, old(Model()), got) == Closed(stored)
      ensures why == SocketLost ==> Run(accepts, old(Model()), got).stored == stored
      ensures why == HeaderOverrun ==> Overrun(accepts, old(Model()), got, stored)
      ensures why == Continues && !pending ==> got != []
      ensures |got| <= HEADER_LOOP_LIMIT + 1 && (why == Continues && pending ==> |got| <= HEADER_LOOP_LIMIT)
      ensures sock.blocked == old(sock.blocked) + if why == Continues && pending then 1 else 0
      ensures sock.ended == old(sock.ended) + if why == SocketLost then 1 else 0
    {
      hide Run, ChunkSize, Step, Settle;
      var loopRun := 0;
      ghost var start, t := Model(), Model();
      got := [];
      RunNil(accepts, start);
      while ptr < PACKET_SIZE
        invariant buffer.Length == BUFFER_SIZE && feedOpened && chunkSize == 0 && ptr <= PACKET_SIZE
        invariant loopRun == |got| <= HEADER_LOOP_LIMIT && loopRun <= ptr && (got == [] ==> ptr < PACKET_SIZE)
        invariant old(sock.incoming) == got + sock.incoming
        invariant t == Run(accepts, start, got) && t.Valid()
        invariant if ptr < PACKET_SIZE then Raw() == t else Settle(accepts, Raw()) == t
        invariant sock.blocked == old(sock.blocked) && sock.ended == old(sock.ended)
        decreases HEADER_LOOP_LIMIT - loopRun
      {
        ghost var more;
        var turn;
        turn, more := HeaderTurn();
        if turn == Blocks {
          return Continues, true, got;
        } else if turn == NoMore {
          return SocketLost, true, got;
        }
        assert more == [more[0]];
        RunConcat(accepts, start, got, more);
        RunOne(accepts, t, more[0]);
        ghost var before := got;
        got := got + more;
        assert got[..|got| - 1] == before;
        t := Step(accepts, t, more[0]);
        if turn == LineDone {
          return Continues, false, got;
        } else if turn == BadSize {
          return ProtocolEnd, true, got;
        }
        loopRun := loopRun + 1;
        if loopRun > HEADER_LOOP_LIMIT {
          feedOpened := false;
          return HeaderOverrun, true, got;
        }
        ptr := ptr + 1;
      }
      return Continues, false, got;
    }

    /** The bulk read, when there is room: at most the rest of the chunk and of the packet. */
    method ReadData() returns (lost: bool, ghost data: seq<Byte>)
      requires Valid() && feedOpened
      modifies this, buffer, sock
      ensures buffer.Length == BUFFER_SIZE
      ensures old(sock.incoming) == data + sock.incoming
      ensures lost == !feedOpened && stored == old(stored)
      ensures lost ==> data == []
      ensures sock.asked == Min(old(chunkSize), PACKET_SIZE - old(ptr))
      ensures sock.blocked == old(sock.blocked) + if !lost && data == [] then 1 else 0
      ensures sock.ended == old(sock.ended) + if lost then 1 else 0
      ensures !lost ==> |data| <= old(chunkSize) && old(ptr) + |data| <= PACKET_SIZE
                        && Raw() == Absorb(old(Raw()), data)
    {
      data := [];
      ghost var raw := Raw();
      var room := PACKET_SIZE - ptr;
      var r := sock.Recv(if chunkSize < room then chunkSize else room);
      lost := r.Lost? || r.Eof?;
      if lost {
        feedOpened := false;
      } else if r.Bytes? {
        data := r.data;
        forall i | 0 <= i < |r.data| {
          buffer[ptr + i] := r.data[i];
        }
        chunkSize, ptr, dataCount := chunkSize - |r.data|, ptr + |r.data|, dataCount + |r.data|;
        assert Raw().buf == Absorb(raw, r.data).buf;
      } else {
        assert Absorb(raw, []).buf == raw.buf;
      }
    }

    /** The reads of one event: `done` says that the handler returns after them; else the last read
        gave `more` bytes and a packet may be complete. */
    method ReadSome() returns (why: Outcome, done: bool, ghost got: seq<Byte>, ghost more: nat)
      requires Valid() && feedOpened
      modifies this, buffer, sock
      ensures buffer.Length == BUFFER_SIZE && old(sock.incoming) == got + sock.incoming
      ensures why in {Continues, ProtocolEnd, SocketLost, HeaderOverrun} && (why == Continues <==> feedOpened)
      ensures why != Continues ==> done
      ensures done && why == Continues ==>
        Valid() && Raw() == Run(accepts, old(Model()), got) && sock.blocked > old(sock.blocked)
      ensures why == ProtocolEnd ==> Run(accepts, old(Model()), got) == Closed(stored)
      ensures why == SocketLost ==> Run(accepts, old(Model()), got).stored == stored
      ensures why == HeaderOverrun ==> Overrun(accepts, old(Model()), got, stored)
      ensures sock.ended == old(sock.ended) + if why == SocketLost then 1 else 0
      ensures old(sock.blocked) <= sock.blocked
      ensures !done ==> ptr <= PACKET_SIZE && Settle(accepts, Raw()) == Run(accepts, old(Model()), got)
      ensures !done && chunkedEncoding && sock.blocked == old(sock.blocked) ==>
        && 0 < more <= |got|
        && ((ptr == PACKET_SIZE && chunkSize == 0)
            || AskedAll(Run(accepts, old(Model()), got[..|got| - more]), sock.asked))
      ensures !chunkedEncoding ==> got == [] && (!done ==> chunkSize == 0 && ptr == 0)
      ensures !chunkedEncoding ==> stored == old(stored)
    {
      hide Run, Step, Settle;
      ghost var start := Model();
      why, got, more := Continues, [], 0;
      RunNil(accepts, start);
      if chunkedEncoding && chunkSize == 0 {
        var pending;
        why, pending, got := ReadHeader();
        if why != Continues || pending {
          return why, true, got, more;
        }
        more := 1;
      }
      if ptr < PACKET_SIZE {
        ghost var raw := Raw();
        var lost;
        ghost var data;
        lost, data := ReadData();
        RunConcat(accepts, start, got, data);
        ReadThenSettle(accepts, raw, data);
        assert (got + data)[..|got|] == got;
        got, more := got + data, |data|;
        if lost {
          RunNil(accepts, raw);
          return SocketLost, true, got, more;
        }
      }
      return Continues, false, got, more;
    }

    /** http_receive_data: one call per poll event; `got` is what it read from the socket. It reads on
        until the socket would block or data has come. */
    method ReceiveData(diskOk: bool) returns (why: Outcome, ghost got: seq<Byte>, ghost more: nat)
      requires Valid() && feedOpened
      modifies this, buffer, sock
      ensures Valid() && old(sock.incoming) == got + sock.incoming
      ensures why == Continues <==> feedOpened
      ensures why == Continues ==> Model() == Run(accepts, old(Model()), got)
      ensures why == ProtocolEnd ==> Run(accepts, old(Model()), got) == Closed(stored)
      ensures why == SocketLost ==> Run(accepts, old(Model()), got).stored == stored
      ensures why == HeaderOverrun ==> Overrun(accepts, old(Model()), got, stored)
      ensures why == DiskFailed ==> stored <= Run(accepts, old(Model()), got).stored && !diskOk
      ensures sock.ended == old(sock.ended) + if why == SocketLost then 1 else 0
      ensures old(sock.blocked) <= sock.blocked
      ensures chunkedEncoding && why == Continues && sock.blocked == old(sock.blocked) ==>
        && 0 < more <= |got|
        && ((ptr == 0 && chunkSize == 0)
            || AskedAll(Run(accepts, old(Model()), got[..|got| - more]), sock.asked))
      ensures !chunkedEncoding ==> stored == old(stored) && got == []
    {
      hide Run, Step, Overrun;
      var done;
      why, done, got, more := ReadSome();
      if !done {
        why := FinishPacket(diskOk);
      }
    }
  }

  /** Any number of events on a well-formed chunked body, whatever each read returns: every event
      takes bytes unless a read would block; the feed is lost only to the socket or the disk; and while
      it is open its store holds exactly the complete packets of the payload received, up to the
      whole payload. */
  method ServeFeed(r: Receiver, chunks: seq<Chunk>, disk: seq<bool>) returns (why: Outcome, ghost received: seq<Byte>)
    requires r.Valid() && r.feedOpened && r.chunkedEncoding && AtHeader(r.Model(), []) && r.ptr == 0
    requires WellFormedBody(r.accepts, chunks)
    requires r.sock.blocked == r.sock.ended == 0 && r.sock.incoming == Wire(chunks)
    modifies r, r.buffer, r.sock
    ensures received + r.sock.incoming == Wire(chunks)
    ensures why in {Continues, SocketLost, DiskFailed}
    ensures why == SocketLost ==> r.sock.ended > 0
    ensures why == DiskFailed ==> exists i :: 0 <= i < |disk| && !disk[i]
    ensures why == Continues ==> |received| + r.sock.blocked >= |disk|
    ensures r.Valid() && (why == Continues <==> r.feedOpened)
    ensures r.feedOpened ==>
              r.dataCount <= |Payload(chunks)| && r.stored == Packets(Payload(chunks)[..r.dataCount])
    ensures r.feedOpened && r.sock.incoming == [] ==> r.stored == Packets(Payload(chunks))
    ensures r.stored <= Packets(Payload(chunks))
  {
    hide Run, Step, DecodableBody, HeadersFit, Wire, Packets, Payload, Cut, Overrun, AskedAll;
    ghost var start := r.Model();
    RunNil(r.accepts, start);
    why, received := Continues, [];
    var i := 0;
    while i < |disk| && why == Continues
      invariant i <= |disk|
      invariant why == SocketLost ==> r.sock.ended > 0
      invariant why == DiskFailed ==> exists k :: 0 <= k < |disk| && !disk[k]
      invariant why == Continues ==> |received| + r.sock.blocked >= i
      invariant r.Valid() && (why == Continues <==> r.feedOpened) && why in {Continues, SocketLost, DiskFailed}
      invariant received + r.sock.incoming == Wire(chunks)
      invariant r.feedOpened ==> r.Model() == Run(r.accepts, start, received)
      invariant r.stored <= Run(r.accepts, start, received).stored
    {
      ghost var before := received;
      ghost var got;
      ghost var more;
      why, got, more := r.ReceiveData(disk[i]);
      received := before + got;
      RunConcat(r.accepts, start, before, got);
      assert before + got <= Wire(chunks);
      NoOverrun(r.accepts, start, chunks, before, got, r.stored);
      StoresThePackets(r.accepts, start, chunks, before + got);
      i := i + 1;
    }
    assert received <= Wire(chunks);
    StoresThePackets(r.accepts, start, chunks, received);
    ghost var p, n := Payload(chunks), Run(r.accepts, start, received).count;
    PacketsGrow(p[..n], p[n..]);
    assert p[..n] + p[n..] == p;
    if r.sock.incoming == [] { assert received == Wire(chunks); }
  }
}
