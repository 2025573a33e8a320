/**
 The main loop of avconv: which input is read next, what happens while inputs have nothing to
 read, and when the loop ends. What the inputs give and what a packet does to the outputs comes
 from outside.
 */
module TranscodeLoop {

  const INT64_MAX: int := 0x7fff_ffff_ffff_ffff

  type Int64 = x: int | -INT64_MAX - 1 <= x <= INT64_MAX

  /** The parts of a time base. */
  type Positive32 = x: int | 0 < x < 0x8000_0000 witness 1

  /** 1e100 */
  const HUGE: real := 10000000000000000000000000000000000000000000000000000000000000000000000000000000000000000000000000000.0

  /** An output stream: the input and the output file it belongs to, its timestamp `val` in the time
      base `num / den`, the time of its input, the position and limit of its file, and its frames. */
  datatype Out = Out(input: nat, file: nat, past: bool, val: Int64, num: Positive32, den: Positive32, ipts: Int64,
                     hasIo: bool, tell: int, limit: int, frames: int, maxFrames: int)

  /** What the reading of a packet changes at an output. */
  datatype Progress = Progress(past: bool, val: Int64, ipts: Int64, tell: int, frames: int)

  datatype Event = Packet(progress: seq<Progress>) | Again | Error

  datatype Reason = Stopped | Shortest | NoStreamLeft

  // ----- times -----

  /** The time of an output, from a timestamp of 64 bits and a time base of 32 bits. */
  function Stamp(val: Int64, num: Positive32, den: Positive32): real {
    val as real * (num as real / den as real)
  }

  lemma StampBelowHuge(val: Int64, num: Positive32, den: Positive32)
    ensures Stamp(val, num, den) < HUGE
  {
    var q := num as real / den as real;
    QuotientBounds(num as real, den as real);
    ProductBounds(val as real, q, INT64_MAX as real, num as real);
  }

  /** What the time of an output is: its timestamp times the numerator, as often as the denominator
      says. */
  lemma StampIsScaled(val: Int64, num: Positive32, den: Positive32)
    ensures Stamp(val, num, den) * den as real == (val * num) as real
  {
    var q := num as real / den as real;
    assert q * den as real == num as real;
    assert val as real * (q * den as real) == Stamp(val, num, den) * den as real;
  }

  lemma QuotientBounds(a: real, b: real)
    requires a > 0.0 && b >= 1.0
    ensures 0.0 < a / b <= a
  {
    var q := a / b;
    assert q * b == a;
    if q > a {
      assert q * b >= q * 1.0;
    }
  }

  lemma ProductBounds(x: real, q: real, m: real, n: real)
    requires x <= m && 0.0 < q <= n && m >= 0.0
    ensures x * q <= m * n
  {
    assert x * q <= m * q;
    assert m * q <= m * n;
  }

  function Key(o: Out, inputSync: bool): real {
    if inputSync then o.ipts as real else Stamp(o.val, o.num, o.den)
  }

  function Bound(inputSync: bool): real {
    if inputSync then INT64_MAX as real else HUGE
  }

  // ----- selection -----

  predicate OverSize(o: Out) {
    o.hasIo && o.tell >= o.limit
  }

  predicate Inputs(outs: seq<Out>, n: nat) {
    forall i :: 0 <= i < |outs| ==> outs[i].input < n
  }

  /** The output waits for its input to be read. */
  predicate Waiting(o: Out, noPacket: seq<bool>, eof: seq<bool>)
    requires o.input < |noPacket| == |eof|
  {
    !o.past && !noPacket[o.input] && !OverSize(o) && !eof[o.input]
  }

  /** Every stream of an output file is marked as done. */
  function MarkFile(outs: seq<Out>, file: nat): (r: seq<Out>)
    ensures |r| == |outs|
  {
    seq(|outs|, i requires 0 <= i < |outs| => if outs[i].file == file then outs[i].(past := true) else outs[i])
  }

  /** What selection may change: streams are marked, no more. */
  predicate OnlyMarked(before: seq<Out>, after: seq<Out>) {
    && |before| == |after|
    && forall i :: 0 <= i < |after| ==> after[i] == before[i] || after[i] == before[i].(past := true)
  }

  predicate AtLimit(outs: seq<Out>, file: nat) {
    exists i :: 0 <= i < |outs| && outs[i].file == file && outs[i].frames >= outs[i].maxFrames
  }

  /** A stream is marked only when a stream of its file has all its frames. */
  predicate MarkedAtLimit(before: seq<Out>, after: seq<Out>)
    requires |before| == |after|
  {
    forall i :: 0 <= i < |after| && after[i].past && !before[i].past ==> AtLimit(before, before[i].file)
  }

  /** The output is looked at: it is not past its time, its input is not flagged, its file not full. */
  predicate Regarded(o: Out, noPacket: seq<bool>)
    requires o.input < |noPacket|
  {
    !o.past && !noPacket[o.input] && !(o.hasIo && o.tell >= o.limit)
  }

  /** Every stream of a file is marked when one of them is looked at and has all its frames. */
  predicate LimitMarks(before: seq<Out>, after: seq<Out>, noPacket: seq<bool>, n: nat)
    requires n <= |before| == |after| && Inputs(before, |noPacket|)
  {
    forall i, k | 0 <= i < n && 0 <= k < |after| && before[k].file == before[i].file ::
      Regarded(before[i], noPacket) && before[i].frames >= before[i].maxFrames ==> after[k].past
  }

  /** Files are marked as a whole. */
  predicate WholeFiles(before: seq<Out>, after: seq<Out>)
    requires |before| == |after|
  {
    forall i, k | 0 <= i < |after| && 0 <= k < |after| && before[k].file == before[i].file ::
      after[i].past && !before[i].past ==> after[k].past
  }

  /** The choice among the first `n` outputs: the input of the earliest that waits. */
  ghost predicate Chosen(before: seq<Out>, after: seq<Out>, n: nat, noPacket: seq<bool>, eof: seq<bool>,
                         inputSync: bool, choice: int, least: real)
    requires n <= |before| == |after| && |noPacket| == |eof|
    requires Inputs(before, |eof|) && Inputs(after, |eof|)
  {
    && (choice < 0 ==> least == Bound(inputSync))
    && (choice >= 0 ==>
          exists i :: 0 <= i < n && before[i].input == choice && Waiting(before[i], noPacket, eof)
            && Key(before[i], inputSync) == least < Bound(inputSync))
    && (forall i :: 0 <= i < n && Waiting(after[i], noPacket, eof) ==> least <= Key(after[i], inputSync))
  }

  lemma MarkOnly(before: seq<Out>, outs: seq<Out>, i: nat)
    requires OnlyMarked(before, outs) && i < |outs| && MarkedAtLimit(before, outs)
    requires outs[i].frames >= outs[i].maxFrames
    ensures OnlyMarked(before, MarkFile(outs, outs[i].file)) && MarkedAtLimit(before, MarkFile(outs, outs[i].file))
  {
    var after := MarkFile(outs, outs[i].file);
    forall k | 0 <= k < |after| && after[k].past && !before[k].past ensures AtLimit(before, before[k].file) {
      if !outs[k].past {
        assert before[k].file == outs[i].file == before[i].file;
        assert before[i].frames >= before[i].maxFrames;
      }
    }
  }

  /** Marking makes no output wait. */
  lemma MarkWaits(outs: seq<Out>, file: nat, k: nat, noPacket: seq<bool>, eof: seq<bool>)
    requires k < |outs| && outs[k].input < |noPacket| == |eof|
    ensures MarkFile(outs, file)[k].input == outs[k].input
    ensures Waiting(MarkFile(outs, file)[k], noPacket, eof) ==>
      Waiting(outs[k], noPacket, eof) && MarkFile(outs, file)[k] == outs[k]
  {
  }

  lemma MarkLimits(before: seq<Out>, outs: seq<Out>, noPacket: seq<bool>, i: nat)
    requires OnlyMarked(before, outs) && i < |outs| && Inputs(before, |noPacket|)
    requires LimitMarks(before, outs, noPacket, i) && WholeFiles(before, outs)
    ensures var after := MarkFile(outs, outs[i].file);
      LimitMarks(before, after, noPacket, i + 1) && WholeFiles(before, after)
  {
    assert forall k :: 0 <= k < |outs| ==> outs[k].file == before[k].file;
  }

  /** An output that is passed over, or has frames left, leaves nothing unmarked. */
  lemma NoMark(before: seq<Out>, outs: seq<Out>, noPacket: seq<bool>, i: nat)
    requires OnlyMarked(before, outs) && i < |outs| && Inputs(before, |noPacket|) && Inputs(outs, |noPacket|)
    requires LimitMarks(before, outs, noPacket, i) && WholeFiles(before, outs)
    requires !Regarded(outs[i], noPacket) || outs[i].frames < outs[i].maxFrames
    ensures LimitMarks(before, outs, noPacket, i + 1)
  {
  }

  /** Marking leaves the choice alone. */
  lemma MarkChosen(before: seq<Out>, outs: seq<Out>, file: nat, n: nat, noPacket: seq<bool>, eof: seq<bool>,
                   inputSync: bool, choice: int, least: real)
    requires n <= |before| == |outs| && |noPacket| == |eof| && Inputs(before, |eof|) && Inputs(outs, |eof|)
    requires Chosen(before, outs, n, noPacket, eof, inputSync, choice, least)
    ensures Inputs(MarkFile(outs, file), |eof|)
    ensures Chosen(before, MarkFile(outs, file), n, noPacket, eof, inputSync, choice, least)
  {
    hide Key, Bound;
    var after := MarkFile(outs, file);
    forall k | 0 <= k < |outs| ensures after[k].input == outs[k].input {
      MarkWaits(outs, file, k, noPacket, eof);
    }
    forall k | 0 <= k < n && Waiting(after[k], noPacket, eof) ensures least <= Key(after[k], inputSync) {
      MarkWaits(outs, file, k, noPacket, eof);
    }
  }

  /** The selection of the stream to read. */
  method SelectInput(outputs: seq<Out>, noPacket: seq<bool>, eof: seq<bool>, inputSync: bool)
    returns (fileIndex: int, outs: seq<Out>)
    requires |noPacket| == |eof| && Inputs(outputs, |eof|)
    ensures |outs| == |outputs| && OnlyMarked(outputs, outs) && MarkedAtLimit(outputs, outs)
    ensures -1 <= fileIndex < |eof| && Inputs(outs, |eof|)
    ensures LimitMarks(outputs, outs, noPacket, |outputs|)
    ensures fileIndex >= 0 ==>
      && !noPacket[fileIndex] && !eof[fileIndex]
      && exists i :: 0 <= i < |outputs| && outputs[i].input == fileIndex
           && !outputs[i].past && !(outputs[i].hasIo && outputs[i].tell >= outputs[i].limit)
    ensures exists least :: Chosen(outputs, outs, |outputs|, noPacket, eof, inputSync, fileIndex, least)
  {
    hide LimitMarks, WholeFiles, MarkedAtLimit, MarkFile, Stamp;
    outs := outputs;
    var iptsMin, optsMin := INT64_MAX, HUGE;
    fileIndex := -1;
    NothingMarked(outputs, noPacket);
    for i := 0 to |outputs|
      invariant OnlyMarked(outputs, outs) && MarkedAtLimit(outputs, outs) && -1 <= fileIndex < |eof|
      invariant Inputs(outs, |eof|)
      invariant LimitMarks(outputs, outs, noPacket, i) && WholeFiles(outputs, outs)
      invariant Chosen(outputs, outs, i, noPacket, eof, inputSync, fileIndex,
                       if inputSync then iptsMin as real else optsMin)
    {
      var ost := outs[i];
      if ost.past || noPacket[ost.input] || (ost.hasIo && ost.tell >= ost.limit) {
        NoMark(outputs, outs, noPacket, i);
        continue;
      }
      var opts, ipts := Stamp(ost.val, ost.num, ost.den), ost.ipts;
      if !eof[ost.input] {
        if ipts < iptsMin {
          iptsMin := ipts;
          if inputSync {
            fileIndex := ost.input;
          }
        }
        if opts < optsMin {
          optsMin := opts;
          if !inputSync {
            fileIndex := ost.input;
          }
        }
      }
      if ost.frames >= ost.maxFrames {
        MarkOnly(outputs, outs, i);
        MarkLimits(outputs, outs, noPacket, i);
        MarkChosen(outputs, outs, ost.file, i + 1, noPacket, eof, inputSync, fileIndex,
                   if inputSync then iptsMin as real else optsMin);
        outs := MarkFile(outs, ost.file);
      } else {
        NoMark(outputs, outs, noPacket, i);
      }
    }
  }

  lemma NothingMarked(outs: seq<Out>, noPacket: seq<bool>)
    requires Inputs(outs, |noPacket|)
    ensures MarkedAtLimit(outs, outs) && LimitMarks(outs, outs, noPacket, 0) && WholeFiles(outs, outs)
  {
  }

  // ----- what is left to do -----

  function Count(flags: seq<bool>): nat {
    if flags == [] then 0 else Count(flags[..|flags| - 1]) + if flags[|flags| - 1] then 1 else 0
  }

  lemma {:induction false} CountSet(flags: seq<bool>, f: nat)
    requires f < |flags| && !flags[f]
    ensures Count(flags[f := true]) == Count(flags) + 1
    decreases |flags|
  {
    var last := |flags| - 1;
    if f == last {
      assert flags[f := true][..last] == flags[..last];
    } else {
      assert flags[f := true][..last] == flags[..last][f := true];
      CountSet(flags[..last], f);
    }
  }

  function Clear(n: nat): (r: seq<bool>)
    ensures |r| == n && forall i :: 0 <= i < n ==> !r[i]
  {
    seq(n, _ => false)
  }

  lemma {:induction false} CountNone(flags: seq<bool>)
    requires forall i :: 0 <= i < |flags| ==> !flags[i]
    ensures Count(flags) == 0
    decreases |flags|
  {
    if flags != [] {
      CountNone(flags[..|flags| - 1]);
    }
  }

  lemma {:induction false} CountZero(flags: seq<bool>)
    requires Count(flags) == 0
    ensures forall i :: 0 <= i < |flags| ==> !flags[i]
    decreases |flags|
  {
    if flags != [] {
      CountZero(flags[..|flags| - 1]);
      assert forall i :: 0 <= i < |flags| - 1 ==> flags[..|flags| - 1][i] == flags[i];
    }
  }

  /** What an input still gives, with the end of file. */
  function Work(events: seq<seq<Event>>, eof: seq<bool>): nat
    requires |events| == |eof|
  {
    if events == [] then 0
    else
      Work(events[..|events| - 1], eof[..|eof| - 1])
      + if eof[|eof| - 1] then 0 else 1 + |events[|events| - 1]|
  }

  lemma {:induction false} WorkShrinks(events: seq<seq<Event>>, eof: seq<bool>, f: nat, events': seq<seq<Event>>,
                                       eof': seq<bool>)
    requires f < |events| == |eof| && !eof[f]
    requires |events'| == |events| && events' == events[f := events'[f]]
    requires (eof' == eof && events[f] != [] && events'[f] == events[f][1..]) || eof' == eof[f := true]
    ensures Work(events', eof') < Work(events, eof)
    decreases |events|
  {
    var n := |events| - 1;
    if f == n {
      assert events'[..n] == events[..n] && eof'[..n] == eof[..n];
    } else {
      assert events'[..n] == events[..n][f := events'[f]];
      assert eof'[..n] == eof[..n] || eof'[..n] == eof[..n][f := true];
      assert events'[n] == events[n] && eof'[n] == eof[n];
      WorkShrinks(events[..n], eof[..n], f, events'[..n], eof'[..n]);
    }
  }

  function Applied(o: Out, p: Progress): Out {
    o.(past := o.past || p.past, val := p.val, ipts := p.ipts, tell := p.tell, frames := p.frames)
  }

  function ApplyAll(outs: seq<Out>, progress: seq<Progress>): (r: seq<Out>)
    ensures |r| == |outs| && forall i :: 0 <= i < |r| ==> r[i].input == outs[i].input
    ensures forall i :: 0 <= i < |r| && i < |progress| ==>
      && (r[i].past <==> outs[i].past || progress[i].past) && r[i].frames == progress[i].frames
      && r[i].tell == progress[i].tell && r[i].val == progress[i].val && r[i].ipts == progress[i].ipts
  {
    seq(|outs|, i requires 0 <= i < |outs| => if i < |progress| then Applied(outs[i], progress[i]) else outs[i])
  }

  /** The output is past its time, over its size, or at the end of its input. */
  predicate Finished(o: Out, eof: seq<bool>)
    requires o.input < |eof|
  {
    o.past || OverSize(o) || eof[o.input]
  }

  /** Selection by input time cannot see an input at the largest time there is; selection by output
      time sees every output. */
  predicate Visible(o: Out, inputSync: bool) {
    !inputSync || o.ipts < INT64_MAX
  }

  lemma NoneLeft(before: seq<Out>, after: seq<Out>, noPacket: seq<bool>, eof: seq<bool>, inputSync: bool, choice: int)
    requires |before| == |after| && |noPacket| == |eof| && Inputs(before, |eof|) && Inputs(after, |eof|)
    requires choice < 0 && exists least :: Chosen(before, after, |before|, noPacket, eof, inputSync, choice, least)
    requires Count(noPacket) == 0
    ensures forall i :: 0 <= i < |after| && Visible(after[i], inputSync) ==> Finished(after[i], eof)
  {
    var least :| Chosen(before, after, |before|, noPacket, eof, inputSync, choice, least);
    CountZero(noPacket);
    forall i | 0 <= i < |after| && Visible(after[i], inputSync) ensures Finished(after[i], eof) {
      StampBelowHuge(after[i].val, after[i].num, after[i].den);
    }
  }

  /** With selection by input time, an output that waits on an input at the largest time there is
      is never chosen: the loop would end without it. Below that time it is chosen. */
  lemma LargestTimeIsMissed(o: Out, choice: int, least: real)
    requires o.input == 0 && Waiting(o, [false], [false])
    requires Chosen([o], [o], 1, [false], [false], true, choice, least)
    ensures choice < 0 <==> o.ipts == INT64_MAX
  {
    assert [o][0] == o;
  }

  // ----- when the outputs have their frames -----

  /** The output is past its time, or has all its frames in a file that is not full. */
  predicate HasFrames(o: Out) {
    o.past || (o.frames >= o.maxFrames && !OverSize(o))
  }

  predicate AllHave(outs: seq<Out>) {
    forall i :: 0 <= i < |outs| ==> HasFrames(outs[i])
  }

  predicate AllPast(outs: seq<Out>) {
    forall i :: 0 <= i < |outs| ==> outs[i].past
  }

  /** The packet gives every output of the program all its frames. */
  predicate Fills(e: Event, outs: seq<Out>) {
    && e.Packet? && |e.progress| >= |outs|
    && forall i :: 0 <= i < |outs| ==> HasFrames(Applied(outs[i], e.progress[i]))
  }

  /** What no turn changes at an output. */
  predicate SameLimit(o: Out, p: Out) {
    o.maxFrames == p.maxFrames && o.hasIo == p.hasIo && o.limit == p.limit && (o.past ==> p.past)
  }

  predicate SameLimits(a: seq<Out>, b: seq<Out>) {
    |a| == |b| && forall i :: 0 <= i < |a| ==> SameLimit(a[i], b[i])
  }

  lemma LimitsKept(all: seq<Out>, before: seq<Out>, picked: seq<Out>, e: Event)
    requires SameLimits(all, before) && OnlyMarked(before, picked)
    ensures SameLimits(all, picked)
    ensures e.Packet? ==> SameLimits(all, ApplyAll(picked, e.progress))
    ensures e.Packet? && Fills(e, all) ==> AllHave(ApplyAll(picked, e.progress))
    ensures AllPast(picked) && e.Packet? ==> AllPast(ApplyAll(picked, e.progress))
  {
  }

  /** With all flags clear, one selection is enough to mark everything. */
  lemma SelectionMarksAll(before: seq<Out>, picked: seq<Out>, noPacket: seq<bool>)
    requires OnlyMarked(before, picked) && Inputs(before, |noPacket|) && LimitMarks(before, picked, noPacket, |before|)
    requires AllHave(before) && (AllPast(before) || Count(noPacket) == 0)
    ensures AllPast(picked)
  {
    if Count(noPacket) == 0 {
      CountZero(noPacket);
    }
  }

  /** How often an input was read. */
  function Occurs(order: seq<nat>, f: nat): nat {
    if order == [] then 0 else Occurs(order[..|order| - 1], f) + if order[|order| - 1] == f then 1 else 0
  }

  /** The reads so far, in `order`, are the first events of every input. */
  predicate InOrder(order: seq<nat>, read: seq<seq<Event>>, all: seq<seq<Event>>) {
    && |read| == |all|
    && (forall k :: 0 <= k < |order| ==> order[k] < |all|)
    && (forall f :: 0 <= f < |all| ==> Occurs(order, f) == |read[f]| && read[f] <= all[f])
  }

  /** What read number `k` gave. */
  function EventRead(order: seq<nat>, k: nat, all: seq<seq<Event>>): Event
    requires k < |order|
  {
    var f, n := order[k], Occurs(order[..k], order[k]);
    if f < |all| && n < |all[f]| then all[f][n] else Error
  }

  /** Once a packet has filled all outputs, at most one more event is read. */
  predicate StopsAfter(order: seq<nat>, all: seq<seq<Event>>, outs: seq<Out>) {
    forall k :: 0 <= k < |order| && Fills(EventRead(order, k, all), outs) ==> |order| <= k + 2
  }

  /** A filling packet was the last but for one, and the outputs are as far as that. */
  predicate OnTheWay(order: seq<nat>, all: seq<seq<Event>>, outs0: seq<Out>, outs: seq<Out>, noPacket: seq<bool>) {
    forall k :: 0 <= k < |order| && Fills(EventRead(order, k, all), outs0) ==>
      (|order| == k + 1 && AllHave(outs) && Count(noPacket) == 0) || (|order| <= k + 2 && AllPast(outs))
  }

  lemma ReadMore(order: seq<nat>, f: nat, before: seq<seq<Event>>, after: seq<seq<Event>>, all: seq<seq<Event>>,
                 e: Event)
    requires InOrder(order, before, all) && f < |all| && after == before[f := before[f] + [e]] && after[f] <= all[f]
    ensures InOrder(order + [f], after, all) && EventRead(order + [f], |order|, all) == e
    ensures forall k :: 0 <= k < |order| ==> EventRead(order + [f], k, all) == EventRead(order, k, all)
  {
    var order' := order + [f];
    assert order'[..|order|] == order;
    assert all[f][|before[f]|] == after[f][|before[f]|] == e;
    forall k | 0 <= k < |order| ensures EventRead(order', k, all) == EventRead(order, k, all) {
      assert order'[..k] == order[..k];
    }
  }

  /** A turn that reads an event keeps to the way, and one that reads none. */
  lemma TurnOnTheWay(order: seq<nat>, all: seq<seq<Event>>, outs0: seq<Out>, before: seq<Out>, picked: seq<Out>,
                     noPacket: seq<bool>, after: seq<Out>, noPacket': seq<bool>, order': seq<nat>, e: Event)
    requires SameLimits(outs0, before) && OnTheWay(order, all, outs0, before, noPacket)
    requires OnlyMarked(before, picked) && Inputs(before, |noPacket|)
    requires LimitMarks(before, picked, noPacket, |before|)
    requires after == if e.Packet? then ApplyAll(picked, e.progress) else picked
    requires e.Packet? ==> Count(noPacket') == 0
    requires if |order'| == |order| then order' == order && !e.Packet? else
      && |order'| == |order| + 1 && EventRead(order', |order|, all) == e && !AllPast(before)
      && forall k :: 0 <= k < |order| ==> EventRead(order', k, all) == EventRead(order, k, all)
    ensures SameLimits(outs0, after) && OnTheWay(order', all, outs0, after, noPacket')
  {
    LimitsKept(outs0, before, picked, e);
    if AllHave(before) && (AllPast(before) || Count(noPacket) == 0) {
      SelectionMarksAll(before, picked, noPacket);
    }
    hide Fills, EventRead, Inputs, LimitMarks, SameLimit, OnlyMarked, HasFrames;
    forall k | 0 <= k < |order'| && Fills(EventRead(order', k, all), outs0)
      ensures (|order'| == k + 1 && AllHave(after) && Count(noPacket') == 0) || (|order'| <= k + 2 && AllPast(after))
    {
      if k < |order| {
        assert Fills(EventRead(order, k, all), outs0);
      }
    }
  }

  // ----- the loop -----

  datatype Turn = Goes | Ended(reason: Reason)

  class Transcoder {
    const inputSync: bool
    const optShortest: bool
    var outs: seq<Out>
    var noPacket: seq<bool>
    var noPacketCount: int
    var eof: seq<bool>
    /** What each input will give; after it comes the end of file. */
    var events: seq<seq<Event>>
    /** What was read of each input. */
    ghost var read: seq<seq<Event>>

    ghost predicate Valid()
      reads this
    {
      && |noPacket| == |eof| == |events| == |read| && Inputs(outs, |eof|)
      && noPacketCount == Count(noPacket)
    }

    constructor (outs: seq<Out>, events: seq<seq<Event>>, inputSync: bool, optShortest: bool)
      requires Inputs(outs, |events|)
      ensures Valid() && this.outs == outs && this.events == events && fresh(this)
      ensures eof == noPacket == Clear(|events|) && read == seq(|events|, _ => []) && noPacketCount == 0
      ensures this.inputSync == inputSync && this.optShortest == optShortest
    {
      this.inputSync, this.optShortest, this.outs, this.events := inputSync, optShortest, outs, events;
      noPacket, eof, read := Clear(|events|), Clear(|events|), seq(|events|, _ => []);
      noPacketCount := 0;
      CountNone(Clear(|events|));
    }

    /** The most turns that are left. */
    ghost function Measure(): nat
      requires Valid()
      reads this
    {
      2 * Work(events, eof) + if noPacketCount > 0 then 1 else 0
    }

    /** av_read_frame on an input that is not at its end. */
    method ReadFrame(f: nat) returns (e: Event)
      requires Valid() && f < |eof| && !eof[f]
      modifies `events, `read
      ensures |events| == |old(events)| && |read| == |old(read)|
      ensures old(events)[f] == [] ==> e == Error && events == old(events) && read == old(read)
      ensures old(events)[f] != [] ==>
        && e == old(events)[f][0]
        && events == old(events)[f := old(events)[f][1..]] && read == old(read)[f := old(read)[f] + [e]]
    {
      if events[f] == [] {
        return Error;
      }
      e := events[f][0];
      events := events[f := events[f][1..]];
      read := read[f := read[f] + [e]];
    }

    /** What was read and what is left of every input is what it gave. */
    ghost predicate Conserves(all: seq<seq<Event>>)
      reads this
    {
      |all| == |events| == |read| && forall f :: 0 <= f < |all| ==> read[f] + events[f] == all[f]
    }

    /** The reading of the chosen input, and what its result changes. */
    method ReadInput(f: nat, ghost all: seq<seq<Event>>) returns (turn: Turn, ghost e: Event)
      requires Valid() && Conserves(all) && f < |eof| && !eof[f] && !noPacket[f]
      modifies `outs, `noPacket, `noPacketCount, `eof, `events, `read
      ensures Valid() && Conserves(all) && |eof| == |old(eof)|
      ensures e == if old(events)[f] == [] then Error else old(events)[f][0]
      ensures outs == if e.Packet? then ApplyAll(old(outs), e.progress) else old(outs)
      ensures noPacket == if e.Again? then old(noPacket)[f := true]
                          else if e.Packet? then Clear(|eof|) else old(noPacket)
      ensures eof == if e.Error? then old(eof)[f := true] else old(eof)
      ensures turn == if e.Error? && optShortest then Ended(Shortest) else Goes
      ensures read == if e.Error? && old(events)[f] == [] then old(read) else old(read)[f := old(read)[f] + [e]]
      ensures Work(events, eof) < Work(old(events), old(eof))
    {
      hide Work, Count, ApplyAll;
      turn := Goes;
      ghost var events0, eof0 := events, eof;
      var event := ReadFrame(f);
      e := event;
      match event {
        case Again =>
          CountSet(noPacket, f);
          noPacket := noPacket[f := true];
          noPacketCount := noPacketCount + 1;
        case Error =>
          eof := eof[f := true];
          if optShortest {
            turn := Ended(Shortest);
          }
        case Packet(progress) =>
          noPacketCount := 0;
          noPacket := Clear(|noPacket|);
          CountNone(noPacket);
          ApplyKeeps(outs, progress);
          outs := ApplyAll(outs, progress);
      }
      WorkShrinks(events0, eof0, f, events, eof);
    }

    /** One turn of the loop that no signal ends: the input that was chosen, the outputs as the
        choice left them, and what was read. */
    method TakeTurn(ghost all: seq<seq<Event>>)
      returns (turn: Turn, ghost choice: int, ghost picked: seq<Out>, ghost e: Event)
      requires Valid() && Conserves(all)
      modifies this
      ensures Valid() && Conserves(all) && |eof| == |old(eof)|
      ensures OnlyMarked(old(outs), picked) && MarkedAtLimit(old(outs), picked) && Inputs(picked, |eof|)
      ensures |picked| == |old(outs)| && LimitMarks(old(outs), picked, old(noPacket), |picked|)
      ensures choice < |eof|
      ensures choice >= 0 ==>
        && !old(noPacket)[choice] && !old(eof)[choice]
        && exists i :: 0 <= i < |old(outs)| && old(outs)[i].input == choice
             && !old(outs)[i].past && !(old(outs)[i].hasIo && old(outs)[i].tell >= old(outs)[i].limit)
      ensures exists least :: Chosen(old(outs), picked, |picked|, old(noPacket), old(eof), inputSync, choice, least)
      ensures choice < 0 ==>
        && outs == picked && eof == old(eof) && events == old(events) && read == old(read) && e == Error
        && (turn == if old(noPacketCount) != 0 then Goes else Ended(NoStreamLeft))
        && (turn.Goes? ==> noPacket == Clear(|eof|))
      ensures choice >= 0 ==>
        && e == (if old(events)[choice] == [] then Error else old(events)[choice][0])
        && outs == (if e.Packet? then ApplyAll(picked, e.progress) else picked)
        && noPacket == (if e.Again? then old(noPacket)[choice := true]
                        else if e.Packet? then Clear(|eof|) else old(noPacket))
        && eof == (if e.Error? then old(eof)[choice := true] else old(eof))
        && (turn == if e.Error? && optShortest then Ended(Shortest) else Goes)
        && read == (if e.Error? && old(events)[choice] == [] then old(read)
                    else old(read)[choice := old(read)[choice] + [e]])
      ensures turn.Goes? ==> Measure() < old(Measure())
      ensures turn == Ended(NoStreamLeft) ==>
        forall i :: 0 <= i < |outs| && Visible(outs[i], inputSync) ==> Finished(outs[i], eof)
    {
      hide Chosen, Work, Count, Finished, ApplyAll, OnlyMarked, MarkedAtLimit, LimitMarks;
      ghost var before := outs;
      var fileIndex: int;
      fileIndex, outs := SelectInput(outs, noPacket, eof, inputSync);
      choice, picked, e := fileIndex, outs, Error;
      if fileIndex < 0 {
        if noPacketCount != 0 {
          noPacketCount := 0;
          noPacket := Clear(|noPacket|);
          CountNone(noPacket);
          turn := Goes;
          return;
        }
        NoneLeft(before, outs, noPacket, eof, inputSync, choice);
        turn := Ended(NoStreamLeft);
        return;
      }
      ChosenWaits(before, outs, noPacket, eof, inputSync, fileIndex);
      turn, e := ReadInput(fileIndex, all);
    }
  }

  /** A turn with the order of the reads so far. */
  method NextTurn(t: Transcoder, ghost all: seq<seq<Event>>, ghost outs0: seq<Out>, ghost order: seq<nat>)
    returns (turn: Turn, ghost order': seq<nat>)
    requires t.Valid() && t.Conserves(all) && InOrder(order, t.read, all)
    requires SameLimits(outs0, t.outs) && OnTheWay(order, all, outs0, t.outs, t.noPacket)
    modifies t
    ensures t.Valid() && t.Conserves(all) && InOrder(order', t.read, all)
    ensures SameLimits(outs0, t.outs) && OnTheWay(order', all, outs0, t.outs, t.noPacket)
    ensures turn.Goes? ==> t.Measure() < old(t.Measure())
    ensures turn != Ended(Stopped)
    ensures t.optShortest && turn != Ended(Shortest) ==> t.eof == old(t.eof)
    ensures turn == Ended(NoStreamLeft) ==>
      forall i :: 0 <= i < |t.outs| && Visible(t.outs[i], t.inputSync) ==> Finished(t.outs[i], t.eof)
    ensures turn == Ended(Shortest) ==> t.optShortest && exists f :: 0 <= f < |t.eof| && t.eof[f]
  {
    hide Work, Finished, OnTheWay, SameLimits, LimitMarks, OnlyMarked, MarkedAtLimit, Chosen, ApplyAll, Count, InOrder;
    ghost var before, flags, read := t.outs, t.noPacket, t.read;
    ghost var choice, picked, e;
    turn, choice, picked, e := t.TakeTurn(all);
    order' := order;
    if choice >= 0 && |t.read[choice]| > |read[choice]| {
      assert t.read[choice] + t.events[choice] == all[choice];
      ReadMore(order, choice, read, t.read, all, e);
      order' := order + [choice];
    } else {
      assert t.read == read;
    }
    if e.Packet? {
      CountNone(t.noPacket);
    }
    TurnOnTheWay(order, all, outs0, before, picked, flags, t.outs, t.noPacket, order', e);
    assert turn == Ended(Shortest) ==> t.eof[choice];
  }

  lemma ApplyKeeps(outs: seq<Out>, progress: seq<Progress>)
    ensures |ApplyAll(outs, progress)| == |outs|
    ensures forall i :: 0 <= i < |outs| ==> ApplyAll(outs, progress)[i].input == outs[i].input
  {
  }

  lemma ChosenWaits(before: seq<Out>, after: seq<Out>, noPacket: seq<bool>, eof: seq<bool>, inputSync: bool,
                    choice: int)
    requires |before| == |after| && |noPacket| == |eof| && Inputs(before, |eof|) && Inputs(after, |eof|)
    requires exists least :: Chosen(before, after, |before|, noPacket, eof, inputSync, choice, least)
    requires 0 <= choice
    ensures choice < |eof| && !eof[choice] && !noPacket[choice]
  {
  }

  /**
   The loop. It ends, after at most two turns for everything its inputs give and one more, reads
   every input in order, stops at once at a signal and with -shortest at the first end of file, and
   if neither ends it, no output is left that could go on. Once a packet has given every output all
   its frames it reads at most one event more; `order` is the order in which the inputs are read.
   */
  method Transcode(outs: seq<Out>, events: seq<seq<Event>>, inputSync: bool, optShortest: bool, stops: seq<bool>)
    returns (reason: Reason, turns: nat, last: seq<Out>, eof: seq<bool>, left: seq<seq<Event>>, ghost order: seq<nat>)
    requires Inputs(outs, |events|)
    ensures StopsAfter(order, events, outs)
    ensures forall k :: 0 <= k < |order| ==> order[k] < |events|
    ensures |left| == |events| && forall f :: 0 <= f < |events| ==> Occurs(order, f) == |events[f]| - |left[f]|
    ensures turns <= 2 * Work(events, Clear(|events|)) + 1
    ensures forall f :: 0 <= f < |events| ==>
      |left[f]| <= |events[f]| && left[f] == events[f][|events[f]| - |left[f]|..]
    ensures |eof| == |events| && Inputs(last, |eof|)
    ensures reason == NoStreamLeft ==>
      forall i :: 0 <= i < |last| && Visible(last[i], inputSync) ==> Finished(last[i], eof)
    ensures reason == Shortest ==> optShortest && exists f :: 0 <= f < |eof| && eof[f]
    ensures reason == Stopped ==> 0 < turns <= |stops| && stops[turns - 1]
    ensures forall k :: 0 <= k < turns && k < |stops| && stops[k] ==> reason == Stopped && k == turns - 1
    ensures optShortest && reason != Shortest ==> forall f :: 0 <= f < |eof| ==> !eof[f]
  {
    hide Work, Finished, OnTheWay, SameLimits, InOrder, StopsAfter;
    Begin(outs, events);
    var t := new Transcoder(outs, events, inputSync, optShortest);
    turns, order := 0, [];
    reason := Stopped;
    var running := true;
    while running
      invariant fresh(t) && t.Valid() && t.Conserves(events) && t.inputSync == inputSync && t.optShortest == optShortest
      invariant running ==> reason == Stopped && turns + t.Measure() <= 2 * Work(events, Clear(|events|))
      invariant turns <= 2 * Work(events, Clear(|events|)) + 1
      invariant forall k :: 0 <= k < turns && k < |stops| && stops[k] ==>
        !running && reason == Stopped && k == turns - 1
      invariant optShortest && reason != Shortest ==> forall f :: 0 <= f < |t.eof| ==> !t.eof[f]
      invariant InOrder(order, t.read, events)
      invariant SameLimits(outs, t.outs) && OnTheWay(order, events, outs, t.outs, t.noPacket)
      invariant !running && reason == NoStreamLeft ==>
        forall i :: 0 <= i < |t.outs| && Visible(t.outs[i], inputSync) ==> Finished(t.outs[i], t.eof)
      invariant !running && reason == Shortest ==> optShortest && exists f :: 0 <= f < |t.eof| && t.eof[f]
      invariant !running && reason == Stopped ==> 0 < turns <= |stops| && stops[turns - 1]
      decreases running, t.Measure()
    {
      turns := turns + 1;
      if turns <= |stops| && stops[turns - 1] {
        running := false;
      } else {
        var turn;
        turn, order := NextTurn(t, events, outs, order);
        if turn.Ended? {
          reason := turn.reason;
          running := false;
        }
      }
    }
    last, eof, left := t.outs, t.eof, t.events;
    OrderOfReads(order, t.read, events, outs, last, t.noPacket);
    forall f | 0 <= f < |events| ensures |left[f]| <= |events[f]| && left[f] == events[f][|events[f]| - |left[f]|..] {
      assert t.read[f] + t.events[f] == events[f];
    }
  }

  lemma Begin(outs: seq<Out>, events: seq<seq<Event>>)
    ensures InOrder([], seq(|events|, _ => []), events) && SameLimits(outs, outs)
    ensures OnTheWay([], events, outs, outs, Clear(|events|))
  {
  }

  lemma OrderOfReads(order: seq<nat>, read: seq<seq<Event>>, all: seq<seq<Event>>, outs0: seq<Out>, outs: seq<Out>,
                     noPacket: seq<bool>)
    requires InOrder(order, read, all) && OnTheWay(order, all, outs0, outs, noPacket)
    ensures StopsAfter(order, all, outs0) && |read| == |all|
    ensures forall k :: 0 <= k < |order| ==> order[k] < |all|
    ensures forall f :: 0 <= f < |all| ==> Occurs(order, f) == |read[f]|
  {
    hide Fills, EventRead;
  }
}
