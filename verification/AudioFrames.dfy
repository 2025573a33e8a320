/**
 The re-framing of audio in avconv: converted bytes of any amount go into a FIFO, and the encoder
 gets frames of its own size; at the end what is left goes out padded or short.
 */
module AudioFrames {

  import opened Common
  import opened Multiples
  import opened AvFifo

  /** Samples in a frame of the encoder, bytes in a sample of all channels, whether silence is 0x80,
      and whether the codec takes a short last frame. */
  datatype Config = Config(frameSize: int, sample: nat, unsigned8: bool, smallLast: bool)

  /** What the encoder gets: bytes, and how many samples it is told to take. */
  datatype Frame = Frame(data: seq<Byte>, samples: int)

  predicate Framed(c: Config) {
    c.sample >= 1 && c.frameSize > 1
  }

  function FrameBytes(c: Config): (n: nat)
    requires Framed(c)
    ensures n >= 1 && n == Times(c.frameSize, c.sample)
  {
    TimesOrder(1, c.frameSize, c.sample);
    c.frameSize * c.sample
  }

  /** generate_silence */
  function Silence(c: Config, n: nat): (s: seq<Byte>)
    ensures |s| == n && forall i :: 0 <= i < n ==> s[i] == if c.unsigned8 then 0x80 else 0
  {
    seq(n, _ => if c.unsigned8 then 0x80 else 0)
  }

  // ----- cutting a stream of bytes -----

  function Cut(b: seq<Byte>, size: nat): seq<seq<Byte>>
    requires size >= 1
    decreases |b|
  {
    if |b| < size then [] else [b[..size]] + Cut(b[size..], size)
  }

  function Left(b: seq<Byte>, size: nat): (r: seq<Byte>)
    requires size >= 1
    ensures |r| < size
    decreases |b|
  {
    if |b| < size then b else Left(b[size..], size)
  }

  /** More bytes after a cut are cut together with what was left. */
  lemma {:induction false} CutMore(a: seq<Byte>, b: seq<Byte>, size: nat)
    requires size >= 1
    ensures Cut(a + b, size) == Cut(a, size) + Cut(Left(a, size) + b, size)
    ensures Left(a + b, size) == Left(Left(a, size) + b, size)
    decreases |a|
  {
    if |a| >= size {
      assert (a + b)[..size] == a[..size];
      assert (a + b)[size..] == a[size..] + b;
      CutMore(a[size..], b, size);
    }
  }

  lemma {:induction false} CutConserves(b: seq<Byte>, size: nat)
    requires size >= 1
    ensures Flatten(Cut(b, size)) + Left(b, size) == b
    ensures forall i :: 0 <= i < |Cut(b, size)| ==> |Cut(b, size)[i]| == size
    decreases |b|
  {
    hide Flatten;
    FlattenNil<Byte>();
    if |b| >= size {
      CutConserves(b[size..], size);
      FlattenConcat([b[..size]], Cut(b[size..], size));
      FlattenOne(b[..size]);
      assert b == b[..size] + b[size..];
    }
  }

  // ----- what the encoder gets of an input -----

  function Full(c: Config, b: seq<Byte>): seq<Frame>
    requires Framed(c)
  {
    var cut := Cut(b, FrameBytes(c));
    seq(|cut|, i requires 0 <= i < |cut| => Frame(cut[i], c.frameSize))
  }

  function Last(c: Config, left: seq<Byte>): Frame
    requires Framed(c) && |left| < FrameBytes(c)
  {
    if c.smallLast then Frame(left, |left| / c.sample)
    else Frame(left + Silence(c, FrameBytes(c) - |left|), c.frameSize)
  }

  /** All frames, with the one the flush makes of what is left. */
  function Encoded(c: Config, b: seq<Byte>): seq<Frame>
    requires Framed(c)
  {
    var left := Left(b, FrameBytes(c));
    Full(c, b) + if left == [] then [] else [Last(c, left)]
  }

  /** The bytes that the encoder takes of its frames. */
  function Taken(frames: seq<Frame>): seq<seq<Byte>> {
    seq(|frames|, i requires 0 <= i < |frames| => frames[i].data)
  }

  /** The silence after the input. */
  function Padding(c: Config, b: seq<Byte>): (s: seq<Byte>)
    requires Framed(c)
    ensures |s| < FrameBytes(c)
  {
    var left := Left(b, FrameBytes(c));
    if left == [] || c.smallLast then [] else Silence(c, FrameBytes(c) - |left|)
  }

  lemma LeftWhole(c: Config, b: seq<Byte>)
    requires Framed(c) && Multiple(|b|, c.sample)
    ensures Multiple(|Left(b, FrameBytes(c))|, c.sample)
    decreases |b|
  {
    hide Multiple;
    if |b| >= FrameBytes(c) {
      FrameWhole(c);
      MultipleDifference(|b|, FrameBytes(c), c.sample);
      LeftWhole(c, b[FrameBytes(c)..]);
    }
  }

  lemma FrameWhole(c: Config)
    requires Framed(c)
    ensures Multiple(FrameBytes(c), c.sample) && FrameBytes(c) / c.sample == c.frameSize
  {
    hide Times;
    Exact(c.frameSize, c.sample);
  }

  /**
   The frames hold all of the input in order and then less than one frame of silence, or none where
   the codec takes a short last frame. The encoder is told as many samples as each frame has.
   */
  lemma EncodedConserves(c: Config, b: seq<Byte>)
    requires Framed(c) && Multiple(|b|, c.sample)
    ensures Flatten(Taken(Encoded(c, b))) == b + Padding(c, b)
    ensures forall i :: 0 <= i < |Encoded(c, b)| ==>
      |Encoded(c, b)[i].data| == Times(Encoded(c, b)[i].samples, c.sample)
    ensures forall i :: 0 <= i < |Encoded(c, b)| && !(c.smallLast && i == |Encoded(c, b)| - 1) ==>
      Encoded(c, b)[i].samples == c.frameSize
    ensures Padding(c, b) == Silence(c, |Padding(c, b)|)
  {
    hide Multiple, Times, Cut, Left, Flatten;
    var size := FrameBytes(c);
    var cut, left := Cut(b, size), Left(b, size);
    CutConserves(b, size);
    assert Taken(Full(c, b)) == cut;
    if left == [] {
      assert Encoded(c, b) == Full(c, b);
      assert b + [] == b && Flatten(cut) + [] == Flatten(cut);
    } else {
      LeftWhole(c, b);
      MultipleSum(|left|, |left|, c.sample);
      TimesDef(|left| / c.sample, c.sample);
      assert Taken(Encoded(c, b)) == cut + [Last(c, left).data];
      FlattenSnoc(cut, Last(c, left).data);
      if c.smallLast {
        assert b + [] == b;
      } else {
        assert Flatten(cut) + (left + Padding(c, b)) == b + Padding(c, b);
      }
    }
  }

  // ----- the code -----

  lemma FullMore(c: Config, a: seq<Byte>, b: seq<Byte>)
    requires Framed(c)
    ensures Full(c, a + b) == Full(c, a) + Full(c, Left(a, FrameBytes(c)) + b)
  {
    CutMore(a, b, FrameBytes(c));
  }

  lemma FullStep(c: Config, b: seq<Byte>)
    requires Framed(c)
    ensures |b| < FrameBytes(c) ==> Full(c, b) == [] && Left(b, FrameBytes(c)) == b
    ensures |b| >= FrameBytes(c) ==>
      && Full(c, b) == [Frame(b[..FrameBytes(c)], c.frameSize)] + Full(c, b[FrameBytes(c)..])
      && Left(b, FrameBytes(c)) == Left(b[FrameBytes(c)..], FrameBytes(c))
  {
  }

  class AudioOutput {
    const config: Config
    const fifo: Fifo
    var syncOpts: int
    var sent: seq<Frame>
    ghost var input: seq<Byte>

    ghost predicate Valid()
      reads this, fifo, fifo.buffer
    {
      && Framed(config) && fifo.Valid() && 2 * FrameBytes(config) < COUNT
      && sent == Full(config, input) && fifo.contents == Left(input, FrameBytes(config))
    }

    constructor (config: Config)
      requires Framed(config) && 2 * FrameBytes(config) < COUNT
      ensures Valid() && input == [] && fresh(fifo) && fresh(fifo.buffer) && this.config == config
    {
      this.config := config;
      fifo := new Fifo(1024);
      syncOpts, sent, input := 0, [], [];
    }

    /** Encodes as many frames as possible. */
    method SendFrames()
      requires Framed(config) && fifo.Valid()
      modifies `syncOpts, `sent, fifo, fifo.buffer
      ensures fifo.Valid() && fifo.buffer == old(fifo.buffer)
      ensures fifo.contents == Left(old(fifo.contents), FrameBytes(config))
      ensures sent == old(sent) + Full(config, old(fifo.contents))
      ensures syncOpts == old(syncOpts) + Times(|Full(config, old(fifo.contents))|, Natural(config.frameSize))
    {
      hide Left, Full, Times;
      ghost var held := fifo.contents;
      TimesNone(config.frameSize);
      while fifo.Size() >= FrameBytes(config)
        invariant fifo.Valid() && fifo.buffer == old(fifo.buffer)
        invariant |held| >= |fifo.contents| && Left(held, FrameBytes(config)) == Left(fifo.contents, FrameBytes(config))
        invariant |sent| >= |old(sent)| && sent + Full(config, fifo.contents) == old(sent) + Full(config, held)
        invariant syncOpts == old(syncOpts) + Times(|sent| - |old(sent)|, Natural(config.frameSize))
        decreases |fifo.contents|
      {
        FullStep(config, fifo.contents);
        ghost var rest := Full(config, fifo.contents[FrameBytes(config)..]);
        var frame := fifo.Read(FrameBytes(config));
        assert sent + ([Frame(frame, config.frameSize)] + rest) == sent + [Frame(frame, config.frameSize)] + rest;
        sent := sent + [Frame(frame, config.frameSize)];
        TimesSum(|sent| - 1 - |old(sent)|, 1, Natural(config.frameSize));
        TimesOne(Natural(config.frameSize));
        syncOpts := syncOpts + config.frameSize;
      }
      FullStep(config, fifo.contents);
      assert sent + [] == sent;
    }

    /** The FIFO part of do_audio_out, for converted bytes of any amount. With audio sync off the
        counter is set from `now`, the rounded input time in samples. */
    method AudioOut(buf: seq<Byte>, syncOff: bool, now: int)
      requires Valid() && |buf| + FrameBytes(config) < COUNT
      modifies this, fifo, fifo.buffer
      ensures Valid() && input == old(input) + buf && (fifo.buffer == old(fifo.buffer) || fresh(fifo.buffer))
      ensures Multiple(|old(input)|, config.sample) && Multiple(|buf|, config.sample) ==>
        syncOpts + |fifo.contents| / config.sample
        == (if syncOff then now else old(syncOpts) + |old(fifo.contents)| / config.sample) + |buf| / config.sample
    {
      hide Left, Full, Times, Multiple;
      ghost var held := fifo.contents;
      if syncOff {
        syncOpts := now - fifo.Size() / config.sample;
      }
      fifo.Realloc(fifo.Size() + |buf|);
      fifo.Write(buf);
      FullMore(config, input, buf);
      CutMore(input, buf, FrameBytes(config));
      SendFrames();
      ClockKept(config, input, held, buf);
      input := input + buf;
    }

    /** The audio part of flush_encoders. */
    method Flush()
      requires Valid()
      modifies this, fifo, fifo.buffer
      ensures sent == Encoded(config, old(input)) && fifo.Valid() && fifo.contents == []
    {
      hide Left, Full;
      var fifoBytes := fifo.Size();
      if fifoBytes > 0 {
        var buf := fifo.Read(fifoBytes);
        assert buf == Left(input, FrameBytes(config));
        if config.smallLast {
          sent := sent + [Frame(buf, fifoBytes / config.sample)];
        } else {
          sent := sent + [Frame(buf + Silence(config, FrameBytes(config) - fifoBytes), config.frameSize)];
        }
      }
    }
  }

  function Natural(n: int): nat {
    if n < 0 then 0 else n
  }

  lemma TimesNone(n: int)
    ensures Times(0, Natural(n)) == 0
  {
  }

  lemma TimesOne(n: nat)
    ensures Times(1, n) == n
  {
  }

  /** Samples in are samples sent and samples held, so the counter and the FIFO keep the time. */
  lemma ClockKept(c: Config, input: seq<Byte>, held: seq<Byte>, buf: seq<Byte>)
    requires Framed(c) && held == Left(input, FrameBytes(c))
    ensures Multiple(|input|, c.sample) && Multiple(|buf|, c.sample) ==>
      Times(|Full(c, held + buf)|, Natural(c.frameSize)) + |Left(held + buf, FrameBytes(c))| / c.sample
      == |held| / c.sample + |buf| / c.sample
  {
    hide Multiple, Times, Full;
    if Multiple(|input|, c.sample) && Multiple(|buf|, c.sample) {
      LeftWhole(c, input);
      MultipleSum(|held|, |buf|, c.sample);
      SamplesSent(c, held + buf);
    }
  }

  lemma {:induction false} SamplesSent(c: Config, b: seq<Byte>)
    requires Framed(c) && Multiple(|b|, c.sample)
    ensures Times(|Full(c, b)|, Natural(c.frameSize)) + |Left(b, FrameBytes(c))| / c.sample == |b| / c.sample
    decreases |b|
  {
    hide Multiple, Times, Full, Left;
    FullStep(c, b);
    TimesNone(c.frameSize);
    if |b| >= FrameBytes(c) {
      FrameWhole(c);
      var rest := b[FrameBytes(c)..];
      MultipleDifference(|b|, FrameBytes(c), c.sample);
      MultipleSum(FrameBytes(c), |rest|, c.sample);
      SamplesSent(c, rest);
      TimesSum(|Full(c, rest)|, 1, Natural(c.frameSize));
      TimesOne(Natural(c.frameSize));
    }
  }

  /** However the decoder cuts its output, the encoder gets the same frames. */
  method EncodeAll(config: Config, buffers: seq<seq<Byte>>, syncOff: bool, times: seq<int>) returns (sent: seq<Frame>)
    requires Framed(config) && 2 * FrameBytes(config) < COUNT
    requires |times| == |buffers| && forall i :: 0 <= i < |buffers| ==> |buffers[i]| + FrameBytes(config) < COUNT
    ensures sent == Encoded(config, Flatten(buffers))
  {
    hide Left, Full;
    var out := new AudioOutput(config);
    for i := 0 to |buffers|
      invariant fresh(out) && fresh(out.fifo) && fresh(out.fifo.buffer)
      invariant out.Valid() && out.config == config && out.input == Flatten(buffers[..i])
    {
      out.AudioOut(buffers[i], syncOff, times[i]);
      assert buffers[..i + 1][..i] == buffers[..i];
    }
    assert buffers[..|buffers|] == buffers;
    out.Flush();
    sent := out.sent;
  }
}
