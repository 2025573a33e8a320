/**
 The audio side of ffplay: the size correction of a decoded frame, and the SDL callback that
 hands out the frames in pieces. Clocks and the decoder are inputs; time is real.
 */
module AudioRefill {

  import opened Common
  import opened Multiples

  const BUF2_SIZE := 768000
  const SILENCE_SIZE := 1024
  const AVG_NB := 20
  const NOSYNC_THRESHOLD := 10.0

  /** Bytes of one sample of all channels, sample rate, and the two constants of the filter. */
  datatype Config = Config(n: nat, freq: int, coef: real, threshold: real)

  /** The running mean of the difference between the clocks. */
  datatype Filter = Filter(cum: real, count: nat)

  /** A double turned into an int: towards zero. */
  function Truncate(x: real): int {
    if x >= 0.0 then x.Floor else -((-x).Floor)
  }

  function Abs(x: real): real {
    if x >= 0.0 then x else -x
  }

  // ----- the correction -----

  function NextFilter(c: Config, f: Filter, slave: bool, diff: real): Filter {
    if !slave then f
    else if diff < NOSYNC_THRESHOLD then
      Filter(diff + c.coef * f.cum, if f.count < AVG_NB then f.count + 1 else f.count)
    else Filter(0.0, 0)
  }

  /** The filter has seen enough and the difference matters. */
  predicate Corrects(c: Config, f: Filter, slave: bool, diff: real) {
    slave && diff < NOSYNC_THRESHOLD && f.count >= AVG_NB
    && Abs((diff + c.coef * f.cum) * (1.0 - c.coef)) >= c.threshold
  }

  /** The correction in samples. */
  function Drift(c: Config, diff: real): int {
    Truncate(diff * c.freq as real)
  }

  /** The drift is the difference in samples without its fraction. */
  lemma DriftIsWhole(c: Config, diff: real)
    ensures var exact, d := diff * c.freq as real, Drift(c, diff) as real;
      if exact >= 0.0 then 0.0 <= d <= exact < d + 1.0 else d - 1.0 < exact <= d <= 0.0
  {
    TruncateBounds(diff * c.freq as real);
  }

  lemma TruncateBounds(x: real)
    ensures var d := Truncate(x) as real; if x >= 0.0 then 0.0 <= d <= x < d + 1.0 else d - 1.0 < x <= d <= 0.0
  {
  }

  // ----- the filter over many measures -----

  function Power(x: real, k: nat): real {
    if k == 0 then 1.0 else x * Power(x, k - 1)
  }

  /** Differences weighted by powers of the coefficient, the last one by one. */
  function Weighted(coef: real, diffs: seq<real>): real {
    if diffs == [] then 0.0 else Power(coef, |diffs| - 1) * diffs[0] + Weighted(coef, diffs[1..])
  }

  /** The filter after measures since it was last empty. */
  function Measured(c: Config, diffs: seq<real>): Filter {
    if diffs == [] then Filter(0.0, 0) else NextFilter(c, Measured(c, diffs[..|diffs| - 1]), true, diffs[|diffs| - 1])
  }

  lemma {:induction false} WeightedSnoc(coef: real, diffs: seq<real>, d: real)
    ensures Weighted(coef, diffs + [d]) == coef * Weighted(coef, diffs) + d
    decreases |diffs|
  {
    if diffs == [] {
      assert diffs + [d] == [d] && [d][1..] == [];
      assert Weighted(coef, []) == 0.0 && Power(coef, 0) == 1.0;
    } else {
      assert (diffs + [d])[1..] == diffs[1..] + [d];
      WeightedSnoc(coef, diffs[1..], d);
      Distribute(coef, Power(coef, |diffs| - 1), diffs[0], Weighted(coef, diffs[1..]));
    }
  }

  lemma Distribute(a: real, p: real, x: real, w: real)
    ensures a * (p * x + w) == (a * p) * x + a * w
  {
  }

  predicate Synchronous(diffs: seq<real>) {
    forall i :: 0 <= i < |diffs| ==> diffs[i] < 10.0
  }

  /** The filter holds the weighted sum of the differences and counts them up to twenty. */
  lemma {:induction false} FilterIsWeightedSum(c: Config, diffs: seq<real>)
    requires Synchronous(diffs)
    ensures Measured(c, diffs) == Filter(Weighted(c.coef, diffs), if |diffs| < 20 then |diffs| else 20)
    decreases |diffs|
  {
    hide Weighted;
    if diffs == [] {
      NoWeight(c.coef);
    } else {
      var init, d := diffs[..|diffs| - 1], diffs[|diffs| - 1];
      assert diffs == init + [d];
      FilterIsWeightedSum(c, init);
      WeightedSnoc(c.coef, init, d);
    }
  }

  lemma NoWeight(coef: real)
    ensures Weighted(coef, []) == 0.0
  {
  }

  /** A size is corrected exactly when audio is not the master, the difference is below ten seconds,
      twenty differences were measured before it, and the weighted mean of all, this one included,
      reaches the threshold. A greater difference empties the filter. */
  lemma CorrectsExactly(c: Config, diffs: seq<real>, slave: bool, diff: real)
    requires Synchronous(diffs)
    ensures var mean := Weighted(c.coef, diffs + [diff]) * (1.0 - c.coef);
      Corrects(c, Measured(c, diffs), slave, diff)
      <==> slave && diff < 10.0 && |diffs| >= 20 && (mean >= c.threshold || -mean >= c.threshold)
    ensures diff >= 10.0 ==> NextFilter(c, Measured(c, diffs), true, diff) == Measured(c, [])
    ensures NextFilter(c, Measured(c, diffs), false, diff) == Measured(c, diffs)
  {
    hide Weighted, Measured;
    FilterIsWeightedSum(c, diffs);
    FilterIsWeightedSum(c, []);
    NoWeight(c.coef);
    WeightedSnoc(c.coef, diffs, diff);
    Commute(c.coef, Weighted(c.coef, diffs), diff, 1.0 - c.coef);
  }

  lemma Commute(a: real, w: real, d: real, k: real)
    ensures (d + a * w) * k == (a * w + d) * k
  {
  }

  // ----- the size -----

  function MinSize(size: nat, n: nat): int
    requires n >= 1
  {
    size / n * 90 / 100 * n
  }

  function MaxSize(size: nat, n: nat): int
    requires n >= 1
  {
    size / n * 110 / 100 * n
  }

  function Cap(size: nat, n: nat): int
    requires n >= 1
  {
    Min(Min(MaxSize(size, n), size), BUF2_SIZE)
  }

  function Wanted(size: nat, n: nat, drift: int): int {
    size + drift * n
  }

  /** The size after the correction by `drift` samples. */
  function Corrected(size: nat, n: nat, drift: int): int
    requires n >= 1
  {
    var wanted := Wanted(size, n, drift);
    if wanted < MinSize(size, n) then MinSize(size, n)
    else if wanted > Cap(size, n) then Cap(size, n)
    else wanted
  }

  lemma SizesInOrder(size: nat, n: nat)
    requires n >= 1
    ensures 0 <= MinSize(size, n) <= MaxSize(size, n) && MinSize(size, n) <= size
  {
    var nb := size / n;
    TimesOrder(0, nb * 90 / 100, n);
    TimesOrder(nb * 90 / 100, nb * 110 / 100, n);
    TimesOrder(nb * 90 / 100, nb, n);
    assert nb * n <= size;
  }

  /** The branch that adds samples is never taken: a frame is kept or cut. */
  lemma NeverAdds(size: nat, n: nat, drift: int)
    requires n >= 1
    ensures 0 <= Corrected(size, n, drift) <= size
  {
    SizesInOrder(size, n);
  }

  /** A frame loses as many samples as the drift is negative, but no more than a tenth, and what does
      not fit the second buffer; a drift that is positive changes nothing else. */
  lemma CorrectedExactly(samples: nat, n: nat, drift: int)
    requires n >= 1
    ensures var floor := samples * 90 / 100;
      Corrected(samples * n, n, drift)
      == if samples + drift < floor then floor * n else Min(768000, Min(samples, samples + drift) * n)
  {
    var size, floor := samples * n, samples * 90 / 100;
    Exact(samples, n);
    assert size == Times(samples, n) && MinSize(size, n) == Times(floor, n);
    TimesOrder(samples, samples * 110 / 100, n);
    assert (samples + drift) * n == samples * n + drift * n;
    assert Wanted(size, n, drift) == Times(samples + drift, n);
    if samples + drift < floor {
      TimesLess(samples + drift, floor, n);
    } else {
      TimesOrder(floor, samples + drift, n);
    }
    if drift < 0 {
      TimesOrder(samples + drift, samples, n);
    } else {
      TimesOrder(samples, samples + drift, n);
    }
  }

  lemma TimesLess(a: int, b: int, n: nat)
    requires a < b && n >= 1
    ensures Times(a, n) < Times(b, n)
  {
    TimesOrder(a + 1, b, n);
    assert (a + 1) * n == a * n + n;
  }

  /** The second buffer is smaller than nine tenths of the frame, and the drift asks for more. */
  predicate CapCutsFloor(size: nat, n: nat, drift: int)
    requires n >= 1
  {
    MinSize(size, n) > BUF2_SIZE && Wanted(size, n, drift) >= MinSize(size, n)
  }

  lemma FloorKept(size: nat, n: nat, drift: int)
    requires n >= 1
    ensures MinSize(size, n) <= Corrected(size, n, drift) <==> !CapCutsFloor(size, n, drift)
  {
    SizesInOrder(size, n);
  }

  /** A stereo frame of a million bytes that should lose 80000 loses 232000. */
  lemma FloorCut()
    ensures CapCutsFloor(1000000, 4, -20000) && Corrected(1000000, 4, -20000) == 768000 < MinSize(1000000, 4) == 900000
  {
  }

  /** The frame is larger than the second buffer, which holds no whole number of samples, and the
      drift asks for more than it holds. */
  ghost predicate CapSplitsSample(size: nat, n: nat, drift: int)
    requires n >= 1
  {
    && !Multiple(BUF2_SIZE, n) && size > BUF2_SIZE
    && Wanted(size, n, drift) > BUF2_SIZE && Wanted(size, n, drift) >= MinSize(size, n)
  }

  /** Whole samples stay whole exactly unless the second buffer cuts into one. */
  lemma WholeSamples(samples: nat, n: nat, drift: int)
    requires n >= 1
    ensures var size := samples * n;
      Multiple(Corrected(size, n, drift), n) <==> !CapSplitsSample(size, n, drift)
  {
    var size := samples * n;
    var r := Corrected(size, n, drift);
    Exact(samples, n);
    SizesInOrder(size, n);
    TimesOrder(samples, samples * 110 / 100, n);
    assert MaxSize(size, n) >= size;
    assert size == Times(samples, n) && MinSize(size, n) == Times(samples * 90 / 100, n);
    assert (samples + drift) * n == samples * n + drift * n;
    assert Wanted(size, n, drift) == Times(samples + drift, n);
  }

  /** Seven channels of two bytes: the cut leaves 54857 samples and two bytes. */
  lemma SampleSplit()
    ensures CapSplitsSample(60000 * 14, 14, -2000)
    ensures Corrected(60000 * 14, 14, -2000) == 768000 && !Multiple(768000, 14)
  {
    forall k: int ensures 768000 != Times(k, 14) {
      assert 768000 % 14 == 2;
    }
  }

  // ----- the refills -----

  /** What audio_decode_frame gives at a refill, with the clock difference at that time. */
  datatype Decoded = Failed | Frame(data: seq<Byte>, slave: bool, diff: real)

  function SyncSize(c: Config, f: Filter, d: Decoded): (r: int)
    requires c.n >= 1 && d.Frame?
    ensures 0 <= r <= |d.data|
  {
    if Corrects(c, f, d.slave, d.diff) then
      NeverAdds(|d.data|, c.n, Drift(c, d.diff));
      Corrected(|d.data|, c.n, Drift(c, d.diff))
    else |d.data|
  }

  function Silence(n: nat): seq<Byte> {
    seq(n, _ => 0)
  }

  /** The bytes a refill makes ready. */
  function RefillBytes(c: Config, f: Filter, d: Decoded): seq<Byte>
    requires c.n >= 1
  {
    match d
    case Failed => Silence(SILENCE_SIZE)
    case Frame(data, _, _) => data[..SyncSize(c, f, d)]
  }

  /**
   What a refill hands out is a prefix of its frame: of whole samples, and of nine tenths at least,
   each exactly unless the filter corrects and the second buffer is in the way.
   */
  lemma RefillIsWholePrefix(c: Config, f: Filter, d: Decoded, samples: nat)
    requires c.n >= 1 && d.Frame? && |d.data| == samples * c.n
    ensures var r, drift, corrects := RefillBytes(c, f, d), Drift(c, d.diff), Corrects(c, f, d.slave, d.diff);
      && r <= d.data && (!corrects ==> r == d.data)
      && (corrects ==> |r| == Corrected(|d.data|, c.n, drift))
      && (Multiple(|r|, c.n) <==> !(corrects && CapSplitsSample(|d.data|, c.n, drift)))
      && (|r| >= MinSize(|d.data|, c.n) <==> !(corrects && CapCutsFloor(|d.data|, c.n, drift)))
  {
    hide Corrects, Corrected, CapSplitsSample, CapCutsFloor, Drift;
    var size, drift := |d.data|, Drift(c, d.diff);
    WholeSamples(samples, c.n, drift);
    FloorKept(size, c.n, drift);
    SizesInOrder(size, c.n);
    assert size == Times(samples, c.n);
  }

  function RefillFilter(c: Config, f: Filter, d: Decoded): Filter {
    match d
    case Failed => f
    case Frame(_, slave, diff) => NextFilter(c, f, slave, diff)
  }

  /** All that the decoder supplies, corrected, one refill after the other. */
  function Stream(c: Config, f: Filter, supply: seq<Decoded>): seq<Byte>
    requires c.n >= 1
    decreases |supply|
  {
    if supply == [] then []
    else RefillBytes(c, f, supply[0]) + Stream(c, RefillFilter(c, f, supply[0]), supply[1..])
  }

  /** The first bytes of a stream that goes on with silence. */
  function Play(bytes: seq<Byte>, n: nat): (r: seq<Byte>)
    ensures |r| == n
  {
    if n <= |bytes| then bytes[..n] else bytes + Silence(n - |bytes|)
  }

  /** What is left of the stream after that. */
  function Rest(bytes: seq<Byte>, n: nat): seq<Byte> {
    if n <= |bytes| then bytes[n..] else []
  }

  lemma PlayTwice(bytes: seq<Byte>, m: nat, n: nat)
    ensures Play(bytes, m) + Play(Rest(bytes, m), n) == Play(bytes, m + n)
    ensures Rest(Rest(bytes, m), n) == Rest(bytes, m + n)
  {
  }

  /** The filter when the supply is used up. */
  function LastFilter(c: Config, f: Filter, supply: seq<Decoded>): Filter
    decreases |supply|
  {
    if supply == [] then f else LastFilter(c, RefillFilter(c, f, supply[0]), supply[1..])
  }

  // ----- the callback -----

  class AudioOutput {
    const config: Config
    var diffCum: real
    var diffAvgCount: nat
    var buf: seq<Byte>
    var bufSize: int
    var bufIndex: int
    /** What the decoder will give; after it only failures. */
    var supply: seq<Decoded>

    ghost predicate Valid()
      reads this
    {
      config.n >= 1 && 0 <= bufIndex <= bufSize <= |buf|
    }

    function Average(): Filter
      reads this
    {
      Filter(diffCum, diffAvgCount)
    }

    /** All that is still to be heard before the silence. */
    ghost function Pending(): seq<Byte>
      requires Valid()
      reads this
    {
      buf[bufIndex..bufSize] + Stream(config, Average(), supply)
    }

    constructor (config: Config, supply: seq<Decoded>)
      requires config.n >= 1
      ensures Valid() && this.config == config && this.supply == supply
      ensures Pending() == Stream(config, Filter(0.0, 0), supply)
    {
      this.config := config;
      diffCum, diffAvgCount, buf, bufSize, bufIndex := 0.0, 0, [], 0, 0;
      this.supply := supply;
    }

    /** synchronize_audio */
    method Synchronize(size: nat, slave: bool, diff: real) returns (samplesSize: int)
      requires Valid()
      modifies `diffCum, `diffAvgCount
      ensures Average() == NextFilter(config, old(Average()), slave, diff)
      ensures samplesSize == if Corrects(config, old(Average()), slave, diff)
                             then Corrected(size, config.n, Drift(config, diff)) else size
    {
      hide Corrected;
      samplesSize := size;
      if slave {
        if diff < NOSYNC_THRESHOLD {
          diffCum := diff + config.coef * diffCum;
          if diffAvgCount < AVG_NB {
            diffAvgCount := diffAvgCount + 1;
          } else {
            var avgDiff := diffCum * (1.0 - config.coef);
            if Abs(avgDiff) >= config.threshold {
              samplesSize := Correct(size, diff);
            }
          }
        } else {
          diffAvgCount, diffCum := 0, 0.0;
        }
      }
    }

    /** The arithmetic of the correction. */
    method Correct(size: nat, diff: real) returns (samplesSize: int)
      requires Valid()
      ensures samplesSize == Corrected(size, config.n, Drift(config, diff))
    {
      hide MinSize, MaxSize, Drift;
      var n := config.n;
      var wantedSize := Wanted(size, n, Drift(config, diff));
      var minSize, maxSize := MinSize(size, n), MaxSize(size, n);
      if wantedSize < minSize {
        wantedSize := minSize;
      } else if wantedSize > Min(Min(maxSize, size), BUF2_SIZE) {
        wantedSize := Min(Min(maxSize, size), BUF2_SIZE);
      }
      samplesSize := size;
      NeverAdds(size, n, Drift(config, diff));
      if wantedSize < samplesSize {
        samplesSize := wantedSize;
      }
    }

    /** The refill of an empty buffer. */
    method Refill()
      requires Valid() && bufIndex == bufSize
      modifies this
      ensures Valid() && bufIndex == 0
      ensures old(supply) != [] ==> supply == old(supply)[1..] && Pending() == old(Pending())
      ensures old(supply) == [] ==> supply == [] && bufSize == SILENCE_SIZE && Pending() == Silence(SILENCE_SIZE)
      ensures old(supply) == [] ==> old(Pending()) == []
      ensures old(supply) == [] || old(supply)[0].Failed? ==>
        bufSize == 1024 && forall k :: 0 <= k < 1024 ==> buf[k] == 0
    {
      hide Corrects, Corrected, NextFilter, Stream;
      StreamStep(config, Average(), supply);
      if supply == [] || supply[0].Failed? {
        buf := Silence(SILENCE_SIZE);
        bufSize := SILENCE_SIZE;
      } else {
        var frame := supply[0];
        NeverAdds(|frame.data|, config.n, Drift(config, frame.diff));
        var size := Synchronize(|frame.data|, frame.slave, frame.diff);
        buf := frame.data;
        bufSize := size;
      }
      bufIndex := 0;
      supply := if supply == [] then [] else supply[1..];
    }

    /** Refills when all is handed out: the stream goes on, or with silence where it has ended. */
    method RefillWhenEmpty()
      requires Valid()
      modifies this
      ensures Valid()
      ensures |supply| < |old(supply)| || (supply == old(supply) && bufIndex < bufSize)
      ensures Pending() == old(Pending()) || (old(Pending()) == [] && Pending() == Silence(SILENCE_SIZE))
    {
      hide Stream;
      if bufIndex >= bufSize {
        Refill();
      }
    }

    /** Hands out what is ready, no more than `len` bytes. */
    method HandOut(len: int) returns (chunk: seq<Byte>)
      requires Valid() && len > 0
      modifies `bufIndex
      ensures Valid() && |chunk| == Min(bufSize - old(bufIndex), len)
      ensures chunk <= old(Pending()) && Pending() == old(Pending())[|chunk|..]
    {
      hide Stream;
      var len1 := Min(bufSize - bufIndex, len);
      chunk := buf[bufIndex..bufIndex + len1];
      bufIndex := bufIndex + len1;
    }

    /** sdl_audio_callback */
    method Callback(len: int) returns (stream: seq<Byte>)
      requires Valid()
      modifies this
      ensures Valid()
      ensures stream == Play(old(Pending()), Bytes(len))
      ensures SameSound(Pending(), Rest(old(Pending()), Bytes(len)))
    {
      hide Play, Rest, Stream, SameSound, Pending;
      stream := [];
      ghost var pending := Pending();
      PlayNothing(pending);
      SameSoundReflexive(pending);
      var left := len;
      while left > 0
        invariant Valid() && |stream| + Bytes(left) == Bytes(len) && (len < 0 || left >= 0)
        invariant stream == Play(pending, |stream|) && SameSound(Pending(), Rest(pending, |stream|))
        decreases |supply|, left
      {
        ghost var before := Pending();
        RefillWhenEmpty();
        if before != Pending() {
          SilenceAhead(before, Pending(), SILENCE_SIZE, Rest(pending, |stream|));
        }
        ghost var now := Pending();
        var chunk := HandOut(left);
        PlayChunk(now, chunk, pending, stream);
        stream := stream + chunk;
        left := left - |chunk|;
      }
    }
  }

  /** A length asked for; SDL asks for none below zero. */
  function Bytes(len: int): nat {
    if len < 0 then 0 else len
  }

  /** Two streams that sound the same when silence follows them. */
  ghost predicate SameSound(a: seq<Byte>, b: seq<Byte>) {
    forall n: nat :: Play(a, n) == Play(b, n)
  }

  lemma SameSoundReflexive(a: seq<Byte>)
    ensures SameSound(a, Rest(a, 0))
  {
    assert a[0..] == a;
  }

  lemma PlayNothing(a: seq<Byte>)
    ensures Play(a, 0) == []
  {
  }

  /** Silence in place of nothing is not heard. */
  lemma SilenceAhead(before: seq<Byte>, after: seq<Byte>, n: nat, heard: seq<Byte>)
    requires before == [] && after == Silence(n) && SameSound(before, heard)
    ensures SameSound(after, heard)
  {
    forall k: nat ensures Play(after, k) == Play(heard, k) {
      assert Play(after, k) == Play(before, k);
    }
  }

  /** The next bytes of a stream, handed out. */
  lemma PlayChunk(now: seq<Byte>, chunk: seq<Byte>, pending: seq<Byte>, stream: seq<Byte>)
    requires chunk <= now && stream == Play(pending, |stream|) && SameSound(now, Rest(pending, |stream|))
    ensures stream + chunk == Play(pending, |stream + chunk|)
    ensures SameSound(now[|chunk|..], Rest(pending, |stream + chunk|))
  {
    hide Play, Rest;
    var m, rest := |chunk|, Rest(pending, |stream|);
    PlayPrefix(now, chunk);
    assert Play(rest, m) == chunk;
    PlayTwice(pending, |stream|, m);
    forall k: nat ensures Play(now[m..], k) == Play(Rest(rest, m), k) {
      RestPlays(now, m, k);
      RestPlays(rest, m, k);
      assert Play(now, m + k) == Play(rest, m + k);
      RestIsTail(now, m);
    }
  }

  lemma PlayPrefix(now: seq<Byte>, chunk: seq<Byte>)
    requires chunk <= now
    ensures Play(now, |chunk|) == chunk
  {
  }

  lemma RestIsTail(now: seq<Byte>, m: nat)
    requires m <= |now|
    ensures Rest(now, m) == now[m..]
  {
  }

  lemma RestPlays(a: seq<Byte>, m: nat, k: nat)
    ensures Play(Rest(a, m), k) == Play(a, m + k)[m..]
  {
  }

  lemma StreamStep(c: Config, f: Filter, supply: seq<Decoded>)
    requires c.n >= 1
    ensures Stream(c, f, supply)
            == if supply == [] then []
               else RefillBytes(c, f, supply[0]) + Stream(c, RefillFilter(c, f, supply[0]), supply[1..])
  {
  }

  function Total(lens: seq<int>): nat {
    if lens == [] then 0 else Total(lens[..|lens| - 1]) + Bytes(lens[|lens| - 1])
  }

  /**
   However the driver slices its callbacks, what it hears is the one stream of corrected frames in
   order, with silence after it.
   */
  method PlayAll(config: Config, supply: seq<Decoded>, lens: seq<int>) returns (heard: seq<Byte>)
    requires config.n >= 1
    ensures heard == Play(Stream(config, Filter(0.0, 0), supply), Total(lens))
  {
    hide Play, Rest, Stream, SameSound;
    var out := new AudioOutput(config, supply);
    ghost var all := out.Pending();
    heard := [];
    PlayNothing(all);
    SameSoundReflexive(all);
    for i := 0 to |lens|
      invariant fresh(out) && out.Valid()
      invariant |heard| == Total(lens[..i]) && heard == Play(all, |heard|)
      invariant SameSound(out.Pending(), Rest(all, |heard|))
    {
      ghost var before := out.Pending();
      var stream := out.Callback(lens[i]);
      PlayMore(before, out.Pending(), all, heard, Bytes(lens[i]));
      heard := heard + stream;
      assert lens[..i + 1][..i] == lens[..i];
    }
    assert lens[..|lens|] == lens;
  }

  lemma PlayMore(before: seq<Byte>, after: seq<Byte>, all: seq<Byte>, heard: seq<Byte>, n: nat)
    requires heard == Play(all, |heard|) && SameSound(before, Rest(all, |heard|)) && SameSound(after, Rest(before, n))
    ensures heard + Play(before, n) == Play(all, |heard| + n)
    ensures SameSound(after, Rest(all, |heard| + n))
  {
    hide Play, Rest;
    var rest := Rest(all, |heard|);
    assert Play(before, n) == Play(rest, n);
    PlayTwice(all, |heard|, n);
    forall k: nat ensures Play(after, k) == Play(Rest(rest, n), k) {
      RestPlays(before, n, k);
      RestPlays(rest, n, k);
      assert Play(before, n + k) == Play(rest, n + k);
      assert Play(after, k) == Play(Rest(before, n), k);
    }
  }
}
