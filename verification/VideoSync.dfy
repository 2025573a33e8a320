/**
 The part of do_video_out in avconv that decides how often a frame is written and with which
 timestamps. Times are real numbers, in units of the frame rate of the encoder.
 */
module VideoSync {

  // ----- rounding -----

  /** lrintf in the default mode: to the nearest, ties to even. */
  function Lrint(x: real): (n: int)
    ensures -0.5 <= x - n as real <= 0.5
    ensures x - n as real in {-0.5, 0.5} ==> n % 2 == 0
  {
    var low := x.Floor;
    var part := x - low as real;
    if part < 0.5 then low else if part > 0.5 then low + 1 else if low % 2 == 0 then low else low + 1
  }

  // ----- the input time -----

  /** get_sync_ipts over the time base of the encoder. */
  function SyncIpts(pts: int, startTime: int, timeBase: real): real
    requires timeBase > 0.0
  {
    (pts - startTime) as real / 1000000.0 / timeBase
  }

  /** Time counts from the start, in microseconds and in units of the time base. */
  lemma SyncIptsScale(pts: int, startTime: int, timeBase: real)
    requires timeBase > 0.0
    ensures SyncIpts(pts, startTime, timeBase) * timeBase * 1000000.0 == (pts - startTime) as real
  {
    var seconds := (pts - startTime) as real / 1000000.0;
    assert SyncIpts(pts, startTime, timeBase) * timeBase == seconds;
  }

  lemma SyncIptsOrder(p: int, q: int, startTime: int, timeBase: real)
    requires timeBase > 0.0 && p <= q
    ensures SyncIpts(p, startTime, timeBase) <= SyncIpts(q, startTime, timeBase)
  {
    var a, b := (p - startTime) as real / 1000000.0, (q - startTime) as real / 1000000.0;
    assert a <= b;
    DivideOrder(a, b, timeBase);
  }

  lemma DivideOrder(a: real, b: real, c: real)
    requires a <= b && c > 0.0
    ensures a / c <= b / c
  {
    var x, y := a / c, b / c;
    assert x * c == a && y * c == b;
    if y < x {
      TimesNegative(y - x, c);
    }
  }

  lemma TimesNegative(d: real, c: real)
    requires d < 0.0 && c > 0.0
    ensures d * c < 0.0
  {
  }

  // ----- one frame -----

  const CFR := 1
  const VFR := 2

  /** How many frames come out of one, before the limit on frames. */
  function NbFrames(mode: int, delta: real): int {
    if mode == 0 then 1
    else if delta < -1.1 then 0
    else if mode == VFR then if delta <= -0.6 then 0 else 1
    else if delta > 1.1 then Lrint(delta) else 1
  }

  /** Where the output counter goes before the frames are written. */
  function Jump(mode: int, x: real, opts: int): int {
    if mode == 0 || (mode == VFR && x - opts as real > 0.6) then Lrint(x) else opts
  }

  /** A written frame: its timestamp and the time of the frame it was made of. */
  datatype Written = Written(pts: int, x: real)

  /** An output with its counters; `cut` is what the limit on frames kept back. */
  datatype Output = Output(opts: int, number: int, dup: int, drop: int, received: int, cut: int, out: seq<Written>)

  const START := Output(0, 0, 0, 0, 0, 0, [])

  function Limited(n: int, left: int): int {
    var m := if n < left then n else left;
    if m < 0 then 0 else m
  }

  function Frames(from: int, n: nat, x: real): (w: seq<Written>)
    ensures |w| == n
  {
    seq(n, i requires 0 <= i < n => Written(from + i, x))
  }

  function Step(s: Output, mode: int, max: int, x: real): Output {
    var wanted := NbFrames(mode, x - s.opts as real);
    var n := Limited(wanted, max - s.number);
    var from := Jump(mode, x, s.opts);
    Output(from + n, s.number + n,
           if mode != 0 && wanted > 1 then s.dup + (wanted - 1) else s.dup,
           if mode != 0 && wanted == 0 then s.drop + 1 else s.drop,
           s.received + 1, s.cut + (wanted - n), s.out + Frames(from, n, x))
  }

  /** The output after frames of the given times. */
  function Run(mode: int, max: int, xs: seq<real>): Output {
    if xs == [] then START else Step(Run(mode, max, xs[..|xs| - 1]), mode, max, xs[|xs| - 1])
  }

  // ----- constant rate -----

  predicate Nondecreasing(xs: seq<real>) {
    forall i, j :: 0 <= i <= j < |xs| ==> xs[i] <= xs[j]
  }

  /** The input time against the output counter. */
  function Drift(mode: int, max: int, xs: seq<real>): real
    requires xs != []
  {
    xs[|xs| - 1] - Run(mode, max, xs).opts as real
  }

  predicate InBounds(drift: real) {
    -2.1 <= drift <= 0.5
  }

  /** Any mode but none and variable is constant rate. */
  predicate Constant(mode: int) {
    mode != 0 && mode != VFR
  }

  lemma DriftStep(s: Output, mode: int, max: int, x: real)
    requires Constant(mode) && Step(s, mode, max, x).cut == s.cut
    ensures InBounds(x - Step(s, mode, max, x).opts as real) <==> x - s.opts as real >= -2.1
  {
  }

  lemma CutGrows(s: Output, mode: int, max: int, x: real)
    ensures Step(s, mode, max, x).cut >= s.cut
  {
  }

  /**
   At constant rate, with no frame kept back and times that never go back, the drift stays within
   its bounds after every frame exactly when the first time is not more than 2.1 frames early.
   */
  lemma {:induction false} ConstantRateDrift(mode: int, max: int, xs: seq<real>)
    requires Constant(mode) && Nondecreasing(xs) && xs != [] && Run(mode, max, xs).cut == 0
    ensures xs[0] >= -2.1 ==> forall k :: 0 < k <= |xs| ==> InBounds(Drift(mode, max, xs[..k]))
    ensures xs[0] < -2.1 ==> !InBounds(Drift(mode, max, xs[..1]))
    decreases |xs|
  {
    hide InBounds, Step;
    var init, x := xs[..|xs| - 1], xs[|xs| - 1];
    var s := Run(mode, max, init);
    CutGrows(s, mode, max, x);
    CutNatural(mode, max, init);
    DriftStep(s, mode, max, x);
    if |xs| == 1 {
      assert xs[..1] == xs;
      assert init == [];
    } else {
      assert init[0] == xs[0] && xs[..1] == init[..1];
      ConstantRateDrift(mode, max, init);
      if xs[0] >= -2.1 {
        assert init[..|init|] == init;
        assert InBounds(Drift(mode, max, init[..|init|]));
        BoundsLow(Drift(mode, max, init));
        assert init[|init| - 1] <= x;
        forall k | 0 < k <= |xs| ensures InBounds(Drift(mode, max, xs[..k])) {
          if k == |xs| {
            assert xs[..k] == xs;
          } else {
            assert xs[..k] == init[..k];
          }
        }
      }
    }
  }

  lemma BoundsLow(drift: real)
    requires InBounds(drift)
    ensures drift >= -2.1
  {
  }

  lemma {:induction false} CutNatural(mode: int, max: int, xs: seq<real>)
    ensures Run(mode, max, xs).cut >= 0
  {
    if xs != [] {
      CutNatural(mode, max, xs[..|xs| - 1]);
    }
  }

  // ----- every mode -----

  /** Frames in, duplicated, dropped and kept back account for frames out; the limit holds, and only
      when it is reached are frames kept back. */
  lemma {:induction false} FramesAccount(mode: int, max: int, xs: seq<real>)
    ensures var s := Run(mode, max, xs);
      && s.received == |xs| && s.number == s.received + s.dup - s.drop - s.cut == |s.out|
      && s.cut >= 0 && s.dup >= 0 && 0 <= s.drop <= |xs|
      && (max >= 0 ==> s.number <= max) && (s.cut > 0 ==> s.number >= max)
  {
    if xs != [] {
      FramesAccount(mode, max, xs[..|xs| - 1]);
    }
  }

  /** At constant rate the timestamps are all the numbers from zero on. */
  lemma {:induction false} ConstantRateTimestamps(mode: int, max: int, xs: seq<real>)
    requires Constant(mode)
    ensures var s := Run(mode, max, xs);
      s.opts == s.number == |s.out| && forall k :: 0 <= k < |s.out| ==> s.out[k].pts == k
  {
    if xs != [] {
      ConstantRateTimestamps(mode, max, xs[..|xs| - 1]);
    }
  }

  /** At constant rate a frame is dropped exactly when it is more than 1.1 before the number of frames
      written, written once within 1.1 of it, and else as often as brings that number nearest. */
  lemma ConstantRateWritten(mode: int, max: int, xs: seq<real>)
    requires Constant(mode) && xs != [] && Run(mode, max, xs).cut == 0
    ensures var x, before, s := xs[|xs| - 1], Run(mode, max, xs[..|xs| - 1]), Run(mode, max, xs);
      var next, n := |before.out| as real, |s.out| - |before.out|;
      && n >= 0 && s.out[..|before.out|] == before.out && (forall k :: |before.out| <= k < |s.out| ==> s.out[k].x == x)
      && (n == 0 <==> x < next - 1.1)
      && (next - 1.1 <= x <= next + 1.1 ==> n == 1)
      && (x > next + 1.1 ==> -0.5 <= x - |s.out| as real <= 0.5)
      && (x > next + 1.1 && x - |s.out| as real in {-0.5, 0.5} ==> n % 2 == 0)
      && s.drop == before.drop + (if n == 0 then 1 else 0) && s.dup == before.dup + (if n > 1 then n - 1 else 0)
  {
    hide Lrint;
    var init, x := xs[..|xs| - 1], xs[|xs| - 1];
    var before := Run(mode, max, init);
    ConstantRateTimestamps(mode, max, init);
    CutGrows(before, mode, max, x);
    CutNatural(mode, max, init);
  }

  predicate Increasing(out: seq<Written>) {
    forall i, j :: 0 <= i < j < |out| ==> out[i].pts < out[j].pts
  }

  predicate Near(out: seq<Written>, bound: real) {
    forall k :: 0 <= k < |out| ==> -bound <= out[k].x - out[k].pts as real <= bound
  }

  predicate Below(out: seq<Written>, opts: int) {
    forall k :: 0 <= k < |out| ==> out[k].pts < opts
  }

  /** At variable rate, for any input times, timestamps increase strictly, and each is within 0.6
      of the time of its frame. */
  lemma {:induction false} VariableRateTimestamps(max: int, xs: seq<real>)
    ensures var s := Run(VFR, max, xs); Increasing(s.out) && Near(s.out, 0.6) && Below(s.out, s.opts)
    decreases |xs|
  {
    if xs != [] {
      VariableRateTimestamps(max, xs[..|xs| - 1]);
      var s := Run(VFR, max, xs[..|xs| - 1]);
      VariableRateStep(s, max, xs[|xs| - 1]);
    }
  }

  /** Where the next timestamp is expected: behind the last one. */
  function Expected(out: seq<Written>): int {
    if out == [] then 0 else out[|out| - 1].pts + 1
  }

  lemma {:induction false} VariableRateCounter(max: int, xs: seq<real>)
    ensures Run(VFR, max, xs).opts == Expected(Run(VFR, max, xs).out) || Run(VFR, max, xs).cut > 0
    decreases |xs|
  {
    if xs != [] {
      VariableRateCounter(max, xs[..|xs| - 1]);
      CutNatural(VFR, max, xs[..|xs| - 1]);
      CutGrows(Run(VFR, max, xs[..|xs| - 1]), VFR, max, xs[|xs| - 1]);
    }
  }

  /** At variable rate a frame is written, once, exactly when its time is above the last timestamp
      and 0.4, or above -0.6 when there is none; it gets the next number, or its rounded time when
      that number is more than 0.6 behind; and a frame that is not written counts as dropped. */
  lemma VariableRateWritten(max: int, xs: seq<real>)
    requires xs != [] && Run(VFR, max, xs).cut == 0
    ensures var x, before, s := xs[|xs| - 1], Run(VFR, max, xs[..|xs| - 1]), Run(VFR, max, xs);
      var last := if before.out == [] then -1 else before.out[|before.out| - 1].pts;
      if x > last as real + 0.4 then
        && |s.out| == |before.out| + 1 && s.out[..|before.out|] == before.out && s.out[|before.out|].x == x
        && s.out[|before.out|].pts == (if x > last as real + 1.6 then Lrint(x) else last + 1)
        && s.drop == before.drop
      else s.out == before.out && s.drop == before.drop + 1
  {
    hide Lrint;
    var init, x := xs[..|xs| - 1], xs[|xs| - 1];
    var before := Run(VFR, max, init);
    VariableRateCounter(max, init);
    CutGrows(before, VFR, max, x);
    CutNatural(VFR, max, init);
  }

  lemma VariableRateStep(s: Output, max: int, x: real)
    requires Increasing(s.out) && Near(s.out, 0.6) && Below(s.out, s.opts)
    ensures var s' := Step(s, VFR, max, x); Increasing(s'.out) && Near(s'.out, 0.6) && Below(s'.out, s'.opts)
  {
    var from := Jump(VFR, x, s.opts);
    assert from >= s.opts;
    var n := Limited(NbFrames(VFR, x - s.opts as real), max - s.number);
    assert n <= 1;
    if n == 1 {
      assert Frames(from, 1, x) == [Written(from, x)];
      assert -0.6 <= x - from as real <= 0.6;
    } else {
      assert Frames(from, 0, x) == [];
    }
  }

  /** Without sync a frame has the rounded time of its frame, and there is one for every frame. */
  lemma {:induction false} NoSyncTimestamps(max: int, xs: seq<real>)
    ensures var s := Run(0, max, xs);
      Near(s.out, 0.5) && s.dup == s.drop == 0
      && (max >= |xs| ==> |s.out| == s.number == |xs| && forall k :: 0 <= k < |xs| ==> s.out[k].pts == Lrint(xs[k]))
    decreases |xs|
  {
    hide Lrint;
    if xs != [] {
      NoSyncTimestamps(max, xs[..|xs| - 1]);
      var s, x := Run(0, max, xs[..|xs| - 1]), xs[|xs| - 1];
      LrintNear(x);
      assert forall k {:trigger xs[k]} :: 0 <= k < |xs| - 1 ==> xs[..|xs| - 1][k] == xs[k];
    }
  }

  lemma LrintNear(x: real)
    ensures -0.5 <= x - Lrint(x) as real <= 0.5
  {
  }

  // ----- the code -----

  class OutputStream {
    const maxFrames: int
    var syncOpts: int
    var frameNumber: int
    var nbFramesDup: int
    var nbFramesDrop: int
    ghost var value: Output

    ghost predicate Valid()
      reads this
    {
      && syncOpts == value.opts && frameNumber == value.number
      && nbFramesDup == value.dup && nbFramesDrop == value.drop
    }

    constructor (maxFrames: int)
      ensures Valid() && value == START && this.maxFrames == maxFrames
    {
      this.maxFrames := maxFrames;
      syncOpts, frameNumber, nbFramesDup, nbFramesDrop := 0, 0, 0, 0;
      value := START;
    }

    /** The number of frames to write, with the counter where they start. */
    method Decide(syncIpts: real, mode: int) returns (nbFrames: int)
      modifies `syncOpts, `nbFramesDup, `nbFramesDrop
      ensures nbFrames == NbFrames(mode, syncIpts - old(syncOpts) as real)
      ensures syncOpts == Jump(mode, syncIpts, old(syncOpts))
      ensures nbFramesDup == old(nbFramesDup) + if mode != 0 && nbFrames > 1 then nbFrames - 1 else 0
      ensures nbFramesDrop == old(nbFramesDrop) + if mode != 0 && nbFrames == 0 then 1 else 0
    {
      hide Lrint;
      nbFrames := 1;
      if mode != 0 {
        var vdelta := syncIpts - syncOpts as real;
        if vdelta < -1.1 {
          nbFrames := 0;
        } else if mode == 2 {
          if vdelta <= -0.6 {
            nbFrames := 0;
          } else if vdelta > 0.6 {
            syncOpts := Lrint(syncIpts);
          }
        } else if vdelta > 1.1 {
          nbFrames := Lrint(vdelta);
        }
        if nbFrames == 0 {
          nbFramesDrop := nbFramesDrop + 1;
        } else if nbFrames > 1 {
          nbFramesDup := nbFramesDup + (nbFrames - 1);
        }
      } else {
        syncOpts := Lrint(syncIpts);
      }
    }

    /** do_video_out: the timestamps that go to the encoder. */
    method DoVideoOut(syncIpts: real, videoSyncMethod: int, noTimestamps: bool, variableFps: bool)
      returns (written: seq<int>)
      requires Valid()
      modifies this
      ensures Valid()
      ensures var mode := if videoSyncMethod >= 0 then videoSyncMethod
                          else if noTimestamps then 0 else if variableFps then 2 else 1;
        value == Step(old(value), mode, maxFrames, syncIpts)
      ensures |written| == value.number - old(value).number
      ensures forall k :: 0 <= k < |written| ==> written[k] == value.out[|old(value).out| + k].pts
    {
      hide Lrint, NbFrames, Jump;
      var formatVideoSync := videoSyncMethod;
      if formatVideoSync < 0 {
        formatVideoSync := if noTimestamps then 0 else if variableFps then 2 else 1;
      }
      var nbFrames := Decide(syncIpts, formatVideoSync);
      nbFrames := if nbFrames < maxFrames - frameNumber then nbFrames else maxFrames - frameNumber;
      value := Step(value, formatVideoSync, maxFrames, syncIpts);
      written := [];
      if nbFrames <= 0 {
        return;
      }
      ghost var from, number := syncOpts, frameNumber;
      for i := 0 to nbFrames
        invariant syncOpts == from + i && frameNumber == number + i
        invariant |written| == i && forall k :: 0 <= k < i ==> written[k] == from + k
        modifies `syncOpts, `frameNumber
      {
        written := written + [syncOpts];
        syncOpts := syncOpts + 1;
        frameNumber := frameNumber + 1;
      }
    }
  }
}
