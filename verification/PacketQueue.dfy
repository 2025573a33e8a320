/**
 The packet queue between the demuxing thread of ffplay and one decoding thread: a linked list
 with its counters, and the flush marker that separates what was read before a seek from what was
 read after. Every operation holds the mutex of the queue, so a run is any order of operations
 in which the demuxer keeps to its own program order.
 */
module PacketQueue {

  import opened Common

  /** `marker` tells flush_pkt from packets of the stream. */
  datatype Packet = Packet(marker: bool, size: nat, id: nat)

  const FLUSH := Packet(true, 0, 0)

  /** What packet_queue_get answers; `Waits` is a blocking call on an empty queue. */
  datatype Answer = Aborted | Got(pkt: Packet) | Nothing | Waits

  function Bytes(q: seq<Packet>, overhead: nat): nat {
    if q == [] then 0 else Bytes(q[..|q| - 1], overhead) + (q[|q| - 1].size + overhead)
  }

  lemma {:induction false} BytesFirst(q: seq<Packet>, overhead: nat)
    requires q != []
    ensures Bytes(q, overhead) == q[0].size + overhead + Bytes(q[1..], overhead)
    decreases |q|
  {
    if |q| > 1 {
      BytesFirst(q[..|q| - 1], overhead);
      assert q[..|q| - 1][1..] == q[1..][..|q| - 2];
    }
  }

  // ----- the list -----

  class Node {
    const pkt: Packet
    var next: Node?

    constructor (pkt: Packet)
      ensures this.pkt == pkt && next == null
    {
      this.pkt := pkt;
      next := null;
    }
  }

  /** The node that node `i` of a list points to. */
  ghost function NextOf(nodes: seq<Node>, i: nat): Node? {
    if i + 1 < |nodes| then nodes[i + 1] else null
  }

  ghost function Packets(nodes: seq<Node>): (q: seq<Packet>)
    ensures |q| == |nodes|
  {
    seq(|nodes|, i requires 0 <= i < |nodes| => nodes[i].pkt)
  }

  class PacketQueue {
    /** sizeof(AVPacketList) */
    const overhead: nat
    var first: Node?
    var last: Node?
    var nbPackets: int
    var size: int
    var abortRequest: bool
    ghost var nodes: seq<Node>

    ghost predicate Linked()
      reads this, nodes
    {
      && (forall i, j :: 0 <= i < j < |nodes| ==> nodes[i] != nodes[j])
      && (forall i :: 0 <= i < |nodes| ==> nodes[i].next == NextOf(nodes, i))
      && first == (if nodes == [] then null else nodes[0])
      && last == (if nodes == [] then null else nodes[|nodes| - 1])
    }

    ghost function Contents(): (q: seq<Packet>)
      reads this
    {
      Packets(nodes)
    }

    /** The list and the counters agree. */
    ghost predicate Valid()
      reads this, nodes
    {
      Linked() && nbPackets == |Contents()| && size == Bytes(Contents(), overhead)
    }

    /** The queue is as in this state of the runs below. */
    ghost predicate Shows(s: State)
      reads this
    {
      Inv(s) && s.q == Contents() && s.abort == abortRequest
    }

    /** packet_queue_init: the queue starts with a marker, memory permitting. */
    constructor (overhead: nat, memory: bool)
      ensures Valid() && !abortRequest && fresh(nodes) && this.overhead == overhead
      ensures Contents() == (if memory then [FLUSH] else []) && Shows(Start(memory))
    {
      this.overhead := overhead;
      first, last, nbPackets, size, abortRequest, nodes := null, null, 0, 0, false, [];
      new;
      var _ := Put(FLUSH, memory);
      assert nodes == nodes[0..];
      assert [] + [FLUSH] == [FLUSH];
      StartInv(memory);
    }

    /** packet_queue_put */
    method Put(pkt: Packet, memory: bool) returns (ok: bool)
      requires Valid()
      modifies this, nodes
      ensures Valid() && abortRequest == old(abortRequest)
      ensures ok == memory && old(nodes) <= nodes && fresh(nodes[|old(nodes)|..])
      ensures Contents() == old(Contents()) + if memory then [pkt] else []
      ensures forall s | old(Shows(s)) && Enabled(s, PutAction(pkt, memory)) :: Shows(Do(s, PutAction(pkt, memory)))
    {
      hide Inv, Do, Enabled, QueueAfter, PutAction;
      StepsShow(Contents(), abortRequest, PutAction(pkt, memory));
      PutAfter(Contents(), abortRequest, pkt, memory);
      if !memory {
        assert nodes[|nodes|..] == [];
        return false;
      }
      var node := new Node(pkt);
      Link(node);
      return true;
    }

    /** What packet_queue_put does under the mutex. */
    method Link(node: Node)
      requires Valid() && node !in nodes && node.next == null
      modifies this, nodes
      ensures Valid() && nodes == old(nodes) + [node] && abortRequest == old(abortRequest)
      ensures Contents() == old(Contents()) + [node.pkt]
    {
      if last == null {
        first := node;
      } else {
        last.next := node;
      }
      last := node;
      nbPackets := nbPackets + 1;
      size := size + (node.pkt.size + overhead);
      nodes := nodes + [node];
      assert Contents() == old(Contents()) + [node.pkt];
      assert Contents()[..|Contents()| - 1] == old(Contents());
    }

    /** packet_queue_flush */
    method Flush()
      requires Valid()
      modifies this
      ensures Valid() && nodes == [] && Contents() == [] && abortRequest == old(abortRequest)
      ensures first == null && last == null && nbPackets == 0 && size == 0
      ensures forall s | old(Shows(s)) && Enabled(s, SeekFlush) :: Shows(Do(s, SeekFlush))
    {
      StepsShow(Contents(), abortRequest, SeekFlush);
      hide Inv, Do;
      var pkt := first;
      ghost var i := 0;
      while pkt != null
        invariant i <= |nodes| && pkt == if i < |nodes| then nodes[i] else null
        decreases |nodes| - i
      {
        var pkt1 := pkt.next;
        pkt := pkt1;
        i := i + 1;
      }
      last := null;
      first := null;
      nbPackets := 0;
      size := 0;
      nodes := [];
    }

    /** packet_queue_abort */
    method Abort()
      requires Valid()
      modifies `abortRequest
      ensures Valid() && abortRequest && Contents() == old(Contents())
      ensures forall s | old(Shows(s)) :: Shows(Do(s, Action.Abort))
    {
      StepsShow(Contents(), abortRequest, Action.Abort);
      hide Inv, Do;
      abortRequest := true;
    }

    /** packet_queue_get, from taking the mutex to giving it back. */
    method Get(block: bool) returns (answer: Answer)
      requires Valid()
      modifies this
      ensures Valid() && abortRequest == old(abortRequest)
      ensures answer == if old(abortRequest) then Aborted
                        else if old(Contents()) != [] then Got(old(Contents())[0])
                        else if block then Waits else Nothing
      ensures Contents() == if answer.Got? then old(Contents())[1..] else old(Contents())
      ensures nodes == if answer.Got? then old(nodes)[1..] else old(nodes)
      ensures forall s | old(Shows(s)) :: answer == GetAnswer(s, block) && Shows(Do(s, Action.Get(block)))
    {
      StepsShow(Contents(), abortRequest, Action.Get(block));
      hide Inv, Do;
      if abortRequest {
        return Aborted;
      }
      var pkt1 := first;
      if pkt1 != null {
        BytesFirst(Contents(), overhead);
        first := pkt1.next;
        if first == null {
          last := null;
        }
        nbPackets := nbPackets - 1;
        size := size - (pkt1.pkt.size + overhead);
        nodes := nodes[1..];
        assert Contents() == old(Contents())[1..];
        return Got(pkt1.pkt);
      } else if !block {
        return Nothing;
      } else {
        return Waits;
      }
    }
  }

  // ----- runs -----

  /** Where the demuxer is in its seek: between the flush and the marker nothing else is put. */
  datatype Demuxer = Reading | Flushed

  /**
   A queue with its history. Each seek starts an epoch: `put` has what was queued in each,
   `taken` what the decoder got of each, `marked` whether the marker of the epoch was queued.
   */
  datatype State = State(
    q: seq<Packet>, abort: bool, demuxer: Demuxer,
    log: seq<Packet>, put: seq<seq<Packet>>, taken: seq<seq<Packet>>, marked: seq<bool>)

  datatype Action =
    | PutPacket(pkt: Packet, memory: bool)
    | SeekFlush
    | SeekMarker(memory: bool)
    | Get(block: bool)
    | Abort

  function PutAction(pkt: Packet, memory: bool): Action {
    if pkt == FLUSH then SeekMarker(memory) else PutPacket(pkt, memory)
  }

  function Start(memory: bool): State {
    var first := if memory then [FLUSH] else [];
    State(first, false, Reading, [], [first], [[]], [memory])
  }

  predicate Enabled(s: State, a: Action) {
    match a
    case PutPacket(pkt, _) => s.demuxer.Reading? && !pkt.marker
    case SeekFlush => s.demuxer.Reading?
    case SeekMarker(_) => s.demuxer.Flushed?
    case Get(_) => true
    case Abort => true
  }

  /** The epoch that is being read. */
  function Last<T>(s: seq<T>): T
    requires s != []
  {
    s[|s| - 1]
  }

  function WithLast<T>(s: seq<T>, x: T): seq<T>
    requires s != []
  {
    s[..|s| - 1] + [x]
  }

  function GetAnswer(s: State, block: bool): Answer {
    if s.abort then Aborted
    else if s.q != [] then Got(s.q[0])
    else if block then Waits else Nothing
  }

  function Queue(s: State, pkt: Packet, memory: bool): State
    requires s.put != []
  {
    if memory then s.(q := s.q + [pkt], put := WithLast(s.put, Last(s.put) + [pkt])) else s
  }

  function Do(s: State, a: Action): State
    requires Enabled(s, a) && s.put != [] && s.taken != [] && s.marked != []
  {
    match a
    case PutPacket(pkt, memory) => Queue(s, pkt, memory)
    case SeekFlush =>
      s.(q := [], demuxer := Flushed, put := s.put + [[]], taken := s.taken + [[]], marked := s.marked + [false])
    case SeekMarker(memory) => Queue(s, FLUSH, memory).(demuxer := Reading, marked := WithLast(s.marked, memory))
    case Get(block) =>
      if GetAnswer(s, block).Got? then
        s.(q := s.q[1..], log := s.log + [s.q[0]], taken := WithLast(s.taken, Last(s.taken) + [s.q[0]]))
      else s
    case Abort => s.(abort := true)
  }

  /** Only the first packet of an epoch may be a marker, and is one when the marker was queued. */
  predicate MarkedFirst(put: seq<Packet>, marked: bool) {
    && (marked ==> put != [] && put[0] == FLUSH)
    && (forall i :: 0 <= i < |put| && (i > 0 || !marked) ==> !put[i].marker)
  }

  ghost predicate Inv(s: State) {
    && |s.put| == |s.taken| == |s.marked| > 0
    && s.log == Flatten(s.taken)
    && (forall e :: 0 <= e < |s.put| ==> s.taken[e] <= s.put[e])
    && (forall e :: 0 <= e < |s.put| ==> MarkedFirst(s.put[e], s.marked[e]))
    && Last(s.put) == Last(s.taken) + s.q
    && (s.demuxer.Flushed? ==> Last(s.put) == [] && !Last(s.marked))
  }

  lemma FlattenLast(parts: seq<seq<Packet>>, more: seq<Packet>)
    requires parts != []
    ensures Flatten(WithLast(parts, Last(parts) + more)) == Flatten(parts) + more
  {
    var parts' := WithLast(parts, Last(parts) + more);
    assert parts'[..|parts'| - 1] == parts[..|parts| - 1];
  }

  lemma QueueKeepsInv(s: State, pkt: Packet, memory: bool)
    requires Inv(s) && !pkt.marker && s.demuxer.Reading?
    ensures Inv(Queue(s, pkt, memory))
  {
    if memory {
      var put := Last(s.put) + [pkt];
      assert Last(s.taken) <= Last(s.put) <= put;
      assert MarkedFirst(Last(s.put), Last(s.marked));
      assert put == Last(s.taken) + (s.q + [pkt]);
    }
  }

  lemma MarkerKeepsInv(s: State, memory: bool)
    requires Inv(s) && s.demuxer.Flushed?
    ensures Inv(Do(s, SeekMarker(memory)))
  {
    assert s.q == [] && Last(s.taken) == [];
    assert [] + [FLUSH] == [FLUSH];
  }

  lemma FlushKeepsInv(s: State)
    requires Inv(s) && s.demuxer.Reading?
    ensures Inv(Do(s, SeekFlush))
  {
    var s' := Do(s, SeekFlush);
    assert s'.taken[..|s.taken|] == s.taken;
    assert s.log + [] == s.log;
  }

  lemma GetKeepsInv(s: State, block: bool)
    requires Inv(s)
    ensures Inv(Do(s, Get(block)))
  {
    if GetAnswer(s, block).Got? {
      FlattenLast(s.taken, [s.q[0]]);
      assert s.q == [s.q[0]] + s.q[1..];
      assert Last(s.put) == (Last(s.taken) + [s.q[0]]) + s.q[1..];
    }
  }

  lemma StepKeepsInv(s: State, a: Action)
    requires Inv(s) && Enabled(s, a)
    ensures Inv(Do(s, a))
  {
    match a
    case PutPacket(pkt, memory) => QueueKeepsInv(s, pkt, memory);
    case SeekFlush => FlushKeepsInv(s);
    case SeekMarker(memory) => MarkerKeepsInv(s, memory);
    case Get(block) => GetKeepsInv(s, block);
    case Abort =>
  }

  /** What an action leaves in the queue. */
  function QueueAfter(q: seq<Packet>, abort: bool, a: Action): seq<Packet> {
    match a
    case PutPacket(pkt, memory) => if memory then q + [pkt] else q
    case SeekFlush => []
    case SeekMarker(memory) => if memory then q + [FLUSH] else q
    case Get(_) => if !abort && q != [] then q[1..] else q
    case Abort => q
  }

  /** Every state with this queue steps to one with that queue. */
  lemma StepsShow(q: seq<Packet>, abort: bool, a: Action)
    ensures forall s | Inv(s) && s.q == q && s.abort == abort && Enabled(s, a) ::
      Inv(Do(s, a)) && Do(s, a).q == QueueAfter(q, abort, a) && Do(s, a).abort == (abort || a.Abort?)
  {
    forall s | Inv(s) && s.q == q && s.abort == abort && Enabled(s, a)
      ensures Inv(Do(s, a)) && Do(s, a).q == QueueAfter(q, abort, a) && Do(s, a).abort == (abort || a.Abort?)
    {
      StepKeepsInv(s, a);
      hide Inv;
    }
  }

  lemma PutAfter(q: seq<Packet>, abort: bool, pkt: Packet, memory: bool)
    ensures QueueAfter(q, abort, PutAction(pkt, memory)) == q + if memory then [pkt] else []
    ensures !PutAction(pkt, memory).Abort?
  {
  }

  // ----- whole runs -----

  /** The actions can happen in this order, from the initialised queue. */
  ghost predicate Legal(memory: bool, run: seq<Action>)
    decreases |run|, 0
  {
    run == [] ||
    (Legal(memory, run[..|run| - 1]) && Enabled(Reached(memory, run[..|run| - 1]), run[|run| - 1]))
  }

  ghost function Reached(memory: bool, run: seq<Action>): (s: State)
    requires Legal(memory, run)
    ensures Inv(s)
    decreases |run|, 1
  {
    if run == [] then
      StartInv(memory);
      Start(memory)
    else
      var before := Reached(memory, run[..|run| - 1]);
      StepKeepsInv(before, run[|run| - 1]);
      Do(before, run[|run| - 1])
  }

  lemma StartInv(memory: bool)
    ensures Inv(Start(memory))
  {
    var s := Start(memory);
    assert Flatten(s.taken) == [] by {
      assert s.taken[..0] == [];
    }
  }

  /** A step leaves every epoch before the last alone. */
  lemma StepKeepsOldEpochs(s: State, a: Action, n: nat)
    requires Inv(s) && Enabled(s, a) && n < |s.put|
    ensures var s' := Do(s, a);
      n < |s'.put| && s'.put[..n] == s.put[..n] && s'.taken[..n] == s.taken[..n] && s'.marked[..n] == s.marked[..n]
  {
  }

  lemma {:induction false} SeekClosesEpochs(memory: bool, run: seq<Action>, later: seq<Action>)
    requires Legal(memory, run + [SeekFlush] + later)
    ensures Legal(memory, run)
    ensures var s, s' := Reached(memory, run), Reached(memory, run + [SeekFlush] + later);
      && |s.put| < |s'.put|
      && s'.put[..|s.put|] == s.put && s'.taken[..|s.put|] == s.taken && s'.marked[..|s.put|] == s.marked
    decreases |later|
  {
    hide Inv;
    var whole := run + [SeekFlush] + later;
    if later == [] {
      assert whole[..|whole| - 1] == run;
      FlushOpensEpoch(Reached(memory, run));
    } else {
      var before := later[..|later| - 1];
      assert whole[..|whole| - 1] == run + [SeekFlush] + before;
      SeekClosesEpochs(memory, run, before);
      StepKeepsOldEpochs(Reached(memory, run + [SeekFlush] + before), later[|later| - 1], |Reached(memory, run).put|);
    }
  }

  lemma FlushOpensEpoch(s: State)
    requires Inv(s) && Enabled(s, SeekFlush)
    ensures var s' := Do(s, SeekFlush); var n := |s.put|;
      |s'.put| == n + 1 && |s.taken| == |s.marked| == n
      && s'.put[..n] == s.put && s'.taken[..n] == s.taken && s'.marked[..n] == s.marked
  {
  }

  /**
   Whatever the interleaving, all that the decoder gets after the flush of a seek was put after it:
   it is a prefix of what each later epoch put, epoch by epoch, and it opens with a marker in every
   epoch whose marker was queued.
   */
  lemma SeekSeparates(memory: bool, run: seq<Action>, later: seq<Action>)
    requires Legal(memory, run + [SeekFlush] + later)
    ensures Legal(memory, run)
    ensures var s, s' := Reached(memory, run), Reached(memory, run + [SeekFlush] + later);
      var n := |s.put|;
      && n < |s'.put| == |s'.taken| == |s'.marked|
      && s'.put[..n] == s.put
      && s'.log == s.log + Flatten(s'.taken[n..])
      && (forall e :: n <= e < |s'.put| ==> s'.taken[e] <= s'.put[e])
      && (forall e :: n <= e < |s'.put| && s'.taken[e] != [] ==> (s'.taken[e][0] == FLUSH <==> s'.marked[e]))
      && (forall e, i :: n <= e < |s'.put| && 0 < i < |s'.taken[e]| ==> !s'.taken[e][i].marker)
      && Last(s'.put) == Last(s'.taken) + s'.q
  {
    SeekClosesEpochs(memory, run, later);
    var s, s' := Reached(memory, run), Reached(memory, run + [SeekFlush] + later);
    var n := |s.put|;
    assert s'.taken == s'.taken[..n] + s'.taken[n..];
    FlattenConcat(s'.taken[..n], s'.taken[n..]);
    forall e | n <= e < |s'.put| && s'.taken[e] != [] ensures s'.taken[e][0] == FLUSH <==> s'.marked[e] {
      assert MarkedFirst(s'.put[e], s'.marked[e]);
      assert s'.taken[e][0] == s'.put[e][0];
    }
    forall e, i | n <= e < |s'.put| && 0 < i < |s'.taken[e]| ensures !s'.taken[e][i].marker {
      assert MarkedFirst(s'.put[e], s'.marked[e]);
      assert s'.taken[e][i] == s'.put[e][i];
    }
  }

  /** Once aborted the queue answers nothing more. */
  lemma {:induction false} AbortIsFinal(memory: bool, run: seq<Action>, later: seq<Action>)
    requires Legal(memory, run + later)
    ensures Legal(memory, run)
    ensures Reached(memory, run).abort ==>
      Reached(memory, run + later).abort && Reached(memory, run + later).log == Reached(memory, run).log
    decreases |later|
  {
    hide Inv;
    if later == [] {
      assert run + later == run;
    } else {
      var before := later[..|later| - 1];
      assert (run + later)[..|run + later| - 1] == run + before;
      AbortIsFinal(memory, run, before);
    }
  }

  /** The seek of read_thread on one queue: a flush and a marker. */
  method SeekQueue(q: PacketQueue, memory: bool)
    requires q.Valid()
    modifies q, q.nodes
    ensures q.Valid() && q.abortRequest == old(q.abortRequest)
    ensures q.Contents() == if memory then [FLUSH] else []
    ensures forall s | old(q.Shows(s)) && s.demuxer.Reading? :: q.Shows(Do(Do(s, SeekFlush), SeekMarker(memory)))
  {
    q.Flush();
    var _ := q.Put(FLUSH, memory);
  }

  /** One call of either thread. */
  method Call(q: PacketQueue, a: Action, ghost s: State) returns (got: seq<Packet>)
    requires q.Valid() && q.Shows(s) && Enabled(s, a)
    modifies q, q.nodes
    ensures q.Valid() && q.Shows(Do(s, a)) && Do(s, a).log == s.log + got 
    ensures forall n :: n in q.nodes ==> n in old(q.nodes) || fresh(n)
  {
    hide Inv, PacketQueue.Valid, PacketQueue.Shows;
    got := [];
    match a
    case PutPacket(pkt, memory) =>
      var _ := q.Put(pkt, memory);
      assert q.nodes == old(q.nodes) + q.nodes[|old(q.nodes)|..];
    case SeekFlush => q.Flush();
    case SeekMarker(memory) =>
      var _ := q.Put(FLUSH, memory);
      assert q.nodes == old(q.nodes) + q.nodes[|old(q.nodes)|..];
    case Get(block) =>
      var answer := q.Get(block);
      got := if answer.Got? then [answer.pkt] else [];
    case Abort => q.Abort();
  }

  /** The calls of both threads on one queue, in any order that can happen: what the decoder gets and what is left. */
  method Interleave(overhead: nat, memory: bool, run: seq<Action>) returns (q: PacketQueue, got: seq<Packet>)
    requires Legal(memory, run)
    ensures q.Valid() && q.Shows(Reached(memory, run)) && got == Reached(memory, run).log
  {
    hide Inv, Do, Legal, Reached, PacketQueue.Valid, PacketQueue.Shows, Enabled;
    q := new PacketQueue(overhead, memory);
    got := [];
    LegalNone(memory);
    for i := 0 to |run|
      invariant q.Valid() && fresh(q) && (forall n :: n in q.nodes ==> fresh(n)) && Legal(memory, run[..i])
      invariant q.Shows(Reached(memory, run[..i])) && got == Reached(memory, run[..i]).log
    {
      ReachedNext(memory, run, i);
      forall k | 0 <= k < |q.nodes| ensures fresh(q.nodes[k]) {
        assert q.nodes[k] in q.nodes;
      }
      var more := Call(q, run[i], Reached(memory, run[..i]));
      got := got + more;
    }
    assert run[..|run|] == run;
  }

  lemma LegalNone(memory: bool)
    ensures Legal(memory, []) && Reached(memory, []) == Start(memory)
  {
  }

  lemma ReachedNext(memory: bool, run: seq<Action>, i: nat)
    requires Legal(memory, run) && i < |run|
    ensures Legal(memory, run[..i]) && Legal(memory, run[..i + 1])
    ensures var s := Reached(memory, run[..i]);
      Enabled(s, run[i]) && Reached(memory, run[..i + 1]) == Do(s, run[i])
  {
    hide Inv, Do;
    LegalFront(memory, run, i);
    LegalFront(memory, run, i + 1);
    assert run[..i + 1][..i] == run[..i];
  }

  lemma {:induction false} LegalFront(memory: bool, run: seq<Action>, n: nat)
    requires Legal(memory, run) && n <= |run|
    ensures Legal(memory, run[..n])
    decreases |run|
  {
    if n < |run| {
      LegalFront(memory, run[..|run| - 1], n);
      assert run[..|run| - 1][..n] == run[..n];
    } else {
      assert run[..n] == run;
    }
  }
}
