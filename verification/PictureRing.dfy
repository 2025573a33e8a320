/**
 The picture ring of ffplay (2 slots) and its subpicture ring (4 slots): a decoder thread fills
 slots, the main thread shows and releases them. Indices and sizes change in separate steps, only
 some of them under a lock, and a slot may first be handed to the main thread for allocation.

 Every action is one step of one thread that no other thread can cut in half; a run is any
 interleaving of them.
 */
module PictureRing {

  /** Where the decoder thread is, with the picture it is about to queue. */
  datatype Producer<T> =
    | Decoding
    | WaitingForSpace(item: T)
    | SpaceSeen(item: T)         // left the wait loop, abort_request not read yet
    | OwnsSlot(item: T)          // vp = &pictq[windex]
    | WaitingForAlloc(item: T)   // FF_ALLOC_EVENT pushed
    | AllocWoken(item: T)        // the first wait loop ended
    | WaitingAborted(item: T)    // aborted while the main thread allocates
    | AllocOver(item: T)         // both wait loops ended, abort_request not read yet
    | SlotAllocated(item: T)     // the handshake is over
    | Filled(item: T)            // the slot holds the picture
    | Advanced(item: T)          // windex moved, size not counted yet
    | WaitingForFlush            // all slots marked to be skipped
    | Stopped

  /** Where the main thread is. */
  datatype Consumer =
    | Idle
    | Holding      // vp = &pictq[rindex]
    | Moved        // rindex moved, size not counted yet
    | Allocating   // in alloc_picture, on pictq[windex]

  /** The shared state, and the history of what was queued and what left. */
  datatype Ring<T> = Ring(
    slots: seq<T>, skip: seq<bool>, rindex: nat, windex: nat, size: nat,
    producer: Producer<T>, consumer: Consumer,
    abort: bool, bmpReady: bool, allocPending: bool,
    queued: seq<T>, removed: seq<T>)

  datatype Action<T> =
    // the decoder thread
    | Begin(item: T) | LeaveSpaceWait | ReadAbort | AskForAlloc | LeaveAllocWait | PopOrWait | LeaveAbortWait
    | ReadAbortAgain | Fill | GiveUp | AdvanceWrite | CountWrite | StartFlush | EndFlush
    // the main thread
    | Look | Leave | AdvanceRead | CountRead | TakeAlloc | EndAlloc(blank: T) | Drain
    // whoever closes the stream
    | Abort

  /** `if (++index == N) index = 0` */
  function Inc(i: nat, n: nat): nat {
    if i + 1 == n then 0 else i + 1
  }

  /** The slot `k` places after `i` in a ring of `n`. */
  function Slot(i: nat, k: nat, n: nat): nat
    requires i < n && k <= n
  {
    if i + k >= n then i + k - n else i + k
  }

  predicate Owning<T>(p: Producer<T>) {
    p.OwnsSlot? || p.WaitingForAlloc? || p.AllocWoken? || p.WaitingAborted? || p.AllocOver? || p.SlotAllocated?
    || p.Filled? || p.Advanced?
  }

  predicate Enabled<T(==)>(r: Ring<T>, a: Action<T>)
    requires |r.slots| > 0
  {
    var n := |r.slots|;
    match a
    case Begin(_) => r.producer.Decoding?
    case LeaveSpaceWait => r.producer.WaitingForSpace? && (r.size < n || r.abort)
    case ReadAbort => r.producer.SpaceSeen?
    case AskForAlloc => r.producer.OwnsSlot?
    case LeaveAllocWait => r.producer.WaitingForAlloc? && (r.bmpReady || r.abort)
    case PopOrWait => r.producer.AllocWoken?
    case LeaveAbortWait => r.producer.WaitingAborted? && r.bmpReady
    case ReadAbortAgain => r.producer.AllocOver?
    case Fill => r.producer.OwnsSlot? || r.producer.SlotAllocated?
    case GiveUp => r.producer.OwnsSlot? || r.producer.SlotAllocated?
    case AdvanceWrite => r.producer.Filled?
    case CountWrite => r.producer.Advanced?
    case StartFlush => r.producer.Decoding?
    case EndFlush => r.producer.WaitingForFlush? && (r.size == 0 || r.abort)
    case Look => r.consumer.Idle? && r.size > 0
    case Leave => r.consumer.Holding?
    case AdvanceRead => r.consumer.Holding?
    case CountRead => r.consumer.Moved? && r.size > 0
    case TakeAlloc => r.consumer.Idle? && r.allocPending
    case EndAlloc(_) => r.consumer.Allocating?
    case Drain => r.consumer.Idle? && r.size <= n && r.rindex < n
    case Abort => true
  }

  predicate InBounds<T>(r: Ring<T>) {
    |r.slots| > 0 && |r.skip| == |r.slots| && r.rindex < |r.slots| && r.windex < |r.slots| && r.size <= |r.slots|
  }

  function Do<T(==)>(r: Ring<T>, a: Action<T>): Ring<T>
    requires InBounds(r) && Enabled(r, a)
  {
    var n := |r.slots|;
    match a
    case Begin(item) => r.(producer := WaitingForSpace(item))
    case LeaveSpaceWait => r.(producer := SpaceSeen(r.producer.item))
    case ReadAbort => r.(producer := if r.abort then Stopped else OwnsSlot(r.producer.item))
    case AskForAlloc => r.(producer := WaitingForAlloc(r.producer.item), bmpReady := false, allocPending := true)
    case LeaveAllocWait => r.(producer := AllocWoken(r.producer.item))
    case PopOrWait =>
      if r.abort && !r.allocPending then r.(producer := WaitingAborted(r.producer.item))
      else r.(producer := AllocOver(r.producer.item), allocPending := if r.abort then false else r.allocPending)
    case LeaveAbortWait => r.(producer := AllocOver(r.producer.item))
    case ReadAbortAgain => r.(producer := if r.abort then Stopped else SlotAllocated(r.producer.item))
    case Fill => r.(producer := Filled(r.producer.item), slots := r.slots[r.windex := r.producer.item],
                    skip := r.skip[r.windex := false])
    case GiveUp => r.(producer := Decoding)
    case AdvanceWrite => r.(producer := Advanced(r.producer.item), windex := Inc(r.windex, n))
    case CountWrite => r.(producer := Decoding, size := r.size + 1, queued := r.queued + [r.producer.item])
    case StartFlush => r.(producer := WaitingForFlush, skip := seq(n, i => true))
    case EndFlush => r.(producer := Decoding)
    case Look => r.(consumer := Holding)
    case Leave => r.(consumer := Idle)
    case AdvanceRead => r.(consumer := Moved, rindex := Inc(r.rindex, n), removed := r.removed + [r.slots[r.rindex]])
    case CountRead => r.(consumer := Idle, size := r.size - 1)
    case TakeAlloc => r.(consumer := Allocating, allocPending := false)
    case EndAlloc(blank) => r.(consumer := Idle, bmpReady := true, slots := r.slots[r.windex := blank])
    case Drain => r.(rindex := Slot(r.rindex, r.size, n), size := 0, removed := r.removed + Occupied(r))
    case Abort => r.(abort := true)
  }

  // ----- what every interleaving keeps -----

  /** Slots in use: counted, and not already passed by the main thread. */
  function InUse<T>(r: Ring<T>): int {
    if r.consumer.Moved? then r.size - 1 else r.size
  }

  /** `count` consecutive slots from `first` on. */
  function Pictures<T>(slots: seq<T>, first: nat, count: nat): (s: seq<T>)
    requires first < |slots| && count <= |slots|
    ensures |s| == count
  {
    seq(count, k requires 0 <= k < count => slots[Slot(first, k, |slots|)])
  }

  /** The pictures in the ring, oldest first. */
  function Occupied<T>(r: Ring<T>): seq<T>
    requires |r.slots| > 0 && r.rindex < |r.slots| && r.size <= |r.slots|
  {
    Pictures(r.slots, r.rindex, if InUse(r) > 0 then InUse(r) else 0)
  }

  lemma PicturesDropFirst<T>(slots: seq<T>, first: nat, count: nat)
    requires first < |slots| && 0 < count <= |slots|
    ensures Pictures(slots, first, count) == [slots[first]] + Pictures(slots, Inc(first, |slots|), count - 1)
  {
    var a, b := Pictures(slots, first, count), Pictures(slots, Inc(first, |slots|), count - 1);
    assert forall k :: 1 <= k < count ==> Slot(first, k, |slots|) == Slot(Inc(first, |slots|), k - 1, |slots|);
    assert forall k :: 1 <= k < count ==> a[k] == b[k - 1];
  }

  lemma PicturesAddLast<T>(slots: seq<T>, first: nat, count: nat)
    requires first < |slots| && count < |slots|
    ensures Pictures(slots, first, count + 1) == Pictures(slots, first, count) + [slots[Slot(first, count, |slots|)]]
  {
  }

  /** The slot after the pictures in use is none of theirs. */
  lemma PicturesOffRing<T>(slots: seq<T>, first: nat, count: nat, item: T)
    requires first < |slots| && count < |slots|
    ensures Pictures(slots[Slot(first, count, |slots|) := item], first, count) == Pictures(slots, first, count)
  {
  }

  predicate IndicesAgree<T>(r: Ring<T>) {
    && InBounds(r)
    && (r.consumer.Holding? || r.consumer.Moved? ==> r.size > 0)
    && (Owning(r.producer) ==> r.size < |r.slots|)
    && (r.producer.SpaceSeen? ==> r.size < |r.slots| || r.abort)
    && r.windex == Slot(r.rindex, InUse(r) + (if r.producer.Advanced? then 1 else 0), |r.slots|)
  }

  /** Nothing lost, repeated or reordered; and the slot just filled holds its picture. */
  predicate ContentsAgree<T(==)>(r: Ring<T>)
    requires IndicesAgree(r)
  {
    && r.queued == r.removed + Occupied(r)
    && (r.producer.Filled? ==> r.slots[r.windex] == r.producer.item)
    && (r.producer.Advanced? ==> r.slots[Slot(r.rindex, InUse(r), |r.slots|)] == r.producer.item)
  }

  /** The allocation handshake: the event is never lost, never outlives the wait, and while the main
      thread allocates the decoder thread waits. */
  predicate HandshakeAgrees<T>(r: Ring<T>) {
    && (r.allocPending ==>
         (r.producer.WaitingForAlloc? || r.producer.AllocWoken?) && !r.bmpReady && !r.consumer.Allocating?)
    && (r.consumer.Allocating? ==>
         && !r.bmpReady
         && (r.producer.WaitingForAlloc? || r.producer.AllocWoken? || r.producer.WaitingAborted?))
    && (r.producer.WaitingForAlloc? ==> r.bmpReady || r.allocPending || r.consumer.Allocating?)
    && (r.producer.AllocWoken? ==> (r.bmpReady || r.abort) && (r.bmpReady || r.allocPending || r.consumer.Allocating?))
    && (r.producer.WaitingAborted? ==> r.abort && (r.bmpReady || r.consumer.Allocating?))
    && (r.producer.AllocOver? ==> r.bmpReady || r.abort)
  }

  predicate Inv<T(==)>(r: Ring<T>) {
    IndicesAgree(r) && ContentsAgree(r) && HandshakeAgrees(r) && FlushAgrees(r) && ShowAgrees(r)
  }

  predicate FlushAgrees<T>(r: Ring<T>) {
    r.producer.WaitingForFlush? ==> forall k :: 0 <= k < |r.skip| ==> r.skip[k]
  }

  /** Only a flush marks pictures to be skipped; a picture goes into a slot whose allocation is over;
      and only an abort stops the decoder thread. */
  predicate ShowAgrees<T>(r: Ring<T>)
    requires IndicesAgree(r)
  {
    && (!r.abort && !r.producer.WaitingForFlush? ==>
          forall k :: 0 <= k < InUse(r) ==> !r.skip[Slot(r.rindex, k, |r.slots|)])
    && (r.producer.Filled? ==> !r.skip[r.windex])
    && (r.producer.Advanced? ==> !r.skip[Slot(r.rindex, InUse(r), |r.slots|)])
    && (r.producer.SlotAllocated? ==> r.bmpReady)
    && (r.producer.Stopped? ==> r.abort)
  }

  lemma StepKeepsShow<T>(r: Ring<T>, a: Action<T>)
    requires Inv(r) && Enabled(r, a) && IndicesAgree(Do(r, a))
    ensures ShowAgrees(Do(r, a))
  {
    hide Pictures, ContentsAgree, IndicesAgree, ShowAgrees, HandshakeAgrees, FlushAgrees, Do, Enabled;
    if a.AdvanceRead? {
      ReadKeepsShow(r, a);
    } else if MainStep(a) {
      MainKeepsShow(r, a);
    } else {
      DecoderKeepsShow(r, a);
    }
  }

  lemma ReadKeepsShow<T>(r: Ring<T>, a: Action<T>)
    requires IndicesAgree(r) && ShowAgrees(r) && Enabled(r, a) && IndicesAgree(Do(r, a)) && a.AdvanceRead?
    ensures ShowAgrees(Do(r, a))
  {
    hide Pictures;
    var t, n := Do(r, a), |r.slots|;
    forall k | 0 <= k < InUse(t) && !r.abort && !r.producer.WaitingForFlush? ensures !t.skip[Slot(t.rindex, k, n)] {
      assert Slot(Inc(r.rindex, n), k, n) == Slot(r.rindex, k + 1, n);
    }
    assert Slot(Inc(r.rindex, n), InUse(t), n) == Slot(r.rindex, InUse(r), n);
  }

  lemma MainKeepsShow<T>(r: Ring<T>, a: Action<T>)
    requires IndicesAgree(r) && ShowAgrees(r) && HandshakeAgrees(r) && Enabled(r, a) && IndicesAgree(Do(r, a))
    requires MainStep(a) && !a.AdvanceRead?
    ensures ShowAgrees(Do(r, a))
  {
    hide Pictures;
  }

  lemma DecoderKeepsShow<T>(r: Ring<T>, a: Action<T>)
    requires IndicesAgree(r) && ShowAgrees(r) && HandshakeAgrees(r) && Enabled(r, a) && IndicesAgree(Do(r, a))
    requires !MainStep(a)
    ensures ShowAgrees(Do(r, a))
  {
    hide Pictures;
  }

  predicate MainStep<T>(a: Action<T>) {
    a.Look? || a.Leave? || a.AdvanceRead? || a.CountRead? || a.TakeAlloc? || a.EndAlloc? || a.Drain? || a.Abort?
  }

  lemma StepKeepsIndices<T>(r: Ring<T>, a: Action<T>)
    requires Inv(r) && Enabled(r, a)
    ensures IndicesAgree(Do(r, a))
  {
    hide ContentsAgree, ShowAgrees, Pictures;
    if MainStep(a) {
      MainKeepsIndices(r, a);
    } else {
      DecoderKeepsIndices(r, a);
    }
  }

  lemma MainKeepsIndices<T>(r: Ring<T>, a: Action<T>)
    requires IndicesAgree(r) && HandshakeAgrees(r) && Enabled(r, a) && MainStep(a)
    ensures IndicesAgree(Do(r, a))
  {
    hide Pictures;
  }

  lemma DecoderKeepsIndices<T>(r: Ring<T>, a: Action<T>)
    requires IndicesAgree(r) && HandshakeAgrees(r) && Enabled(r, a) && !MainStep(a)
    ensures IndicesAgree(Do(r, a))
  {
    hide Pictures;
  }

  lemma StepKeepsHandshake<T>(r: Ring<T>, a: Action<T>)
    requires Inv(r) && Enabled(r, a)
    ensures HandshakeAgrees(Do(r, a)) && FlushAgrees(Do(r, a))
  {
    hide ContentsAgree, ShowAgrees, Pictures, Slot;
  }

  /** Steps that move no index, count nothing and write no slot. */
  lemma QuietStep<T>(r: Ring<T>, a: Action<T>)
    requires Inv(r) && Enabled(r, a) && IndicesAgree(Do(r, a))
    requires !a.Fill? && !a.EndAlloc? && !a.AdvanceWrite? && !a.CountWrite?
    requires !a.AdvanceRead? && !a.CountRead? && !a.Drain?
    ensures ContentsAgree(Do(r, a))
  {
    hide Pictures, Slot, HandshakeAgrees, ShowAgrees;
  }

  lemma ReadStep<T>(r: Ring<T>, a: Action<T>)
    requires Inv(r) && Enabled(r, a) && IndicesAgree(Do(r, a))
    requires a.AdvanceRead? || a.CountRead? || a.Drain?
    ensures ContentsAgree(Do(r, a))
  {
    hide Pictures, HandshakeAgrees, ShowAgrees;
    var t := Do(r, a);
    if a.AdvanceRead? {
      PicturesDropFirst(r.slots, r.rindex, r.size);
    }
  }

  lemma WriteStep<T>(r: Ring<T>, a: Action<T>)
    requires Inv(r) && Enabled(r, a) && IndicesAgree(Do(r, a))
    requires a.Fill? || a.EndAlloc? || a.AdvanceWrite? || a.CountWrite?
    ensures ContentsAgree(Do(r, a))
  {
    hide Pictures;
    var use: nat := InUse(r);
    if a.Fill? || a.EndAlloc? {
      PicturesOffRing(r.slots, r.rindex, use, if a.Fill? then r.producer.item else a.blank);
    } else if a.CountWrite? {
      PicturesAddLast(r.slots, r.rindex, use);
    }
  }

  lemma StepKeepsInv<T>(r: Ring<T>, a: Action<T>)
    requires Inv(r) && Enabled(r, a)
    ensures Inv(Do(r, a))
  {
    hide IndicesAgree, ContentsAgree, HandshakeAgrees, FlushAgrees, ShowAgrees, Do;
    StepIsInBounds(r);
    StepKeepsIndices(r, a);
    StepKeepsShow(r, a);
    StepKeepsHandshake(r, a);
    if a.Fill? || a.EndAlloc? || a.AdvanceWrite? || a.CountWrite? {
      WriteStep(r, a);
    } else if a.AdvanceRead? || a.CountRead? || a.Drain? {
      ReadStep(r, a);
    } else {
      QuietStep(r, a);
    }
  }

  lemma StepIsInBounds<T>(r: Ring<T>)
    requires IndicesAgree(r)
    ensures InBounds(r)
  {
  }

  // ----- runs -----

  /** A ring of `n` slots at the start; what the slots and flags hold does not matter. */
  predicate Initial<T(==)>(r: Ring<T>) {
    && |r.slots| > 0 && |r.skip| == |r.slots| && r.rindex == r.windex == r.size == 0
    && r.producer.Decoding? && r.consumer.Idle? && !r.allocPending && r.queued == r.removed == []
  }

  predicate Legal<T(==)>(r: Ring<T>, run: seq<Action<T>>)
    decreases |run|, 0
  {
    run == [] ||
    var init := run[..|run| - 1];
    && Legal(r, init) && InBounds(After(r, init)) && Enabled(After(r, init), run[|run| - 1])
  }

  function After<T(==)>(r: Ring<T>, run: seq<Action<T>>): Ring<T>
    requires Legal(r, run)
    decreases |run|, 1
  {
    if run == [] then r else Do(After(r, run[..|run| - 1]), run[|run| - 1])
  }

  lemma {:induction false} EveryInterleaving<T>(r: Ring<T>, run: seq<Action<T>>)
    requires Initial(r) && Legal(r, run)
    ensures Inv(After(r, run))
    decreases |run|
  {
    hide Do, Inv;
    if run == [] {
      InitialInv(r);
    } else {
      EveryInterleaving(r, run[..|run| - 1]);
      StepKeepsInv(After(r, run[..|run| - 1]), run[|run| - 1]);
    }
  }

  lemma InitialInv<T>(r: Ring<T>)
    requires Initial(r)
    ensures Inv(r)
  {
  }

  /** The slots a thread may touch. The main thread also looks at the next picture's time when more
      than one is counted; during the handshake the decoder thread has lent its slot. */
  function DecoderSlots<T>(r: Ring<T>): set<nat> {
    if r.producer.OwnsSlot? || r.producer.SlotAllocated? || r.producer.Filled? then {r.windex} else {}
  }

  function MainSlots<T>(r: Ring<T>): set<nat>
    requires |r.slots| > 0
  {
    match r.consumer
    case Holding => {r.rindex} + (if r.size > 1 then {Inc(r.rindex, |r.slots|)} else {})
    case Allocating => {r.windex}
    case _ => {}
  }

  /** In every interleaving: the occupied slots are the counted ones from rindex on, up to the index
      moves in flight; pictures leave in the order they were queued, none lost or repeated; the two
      threads never hold the same slot, handshake and abort included; a flush marks all slots, and
      without one no picture in the ring is marked; and the decoder thread stops only for an abort. */
  lemma RingIsSafe<T>(r: Ring<T>, run: seq<Action<T>>)
    requires Initial(r) && Legal(r, run)
    ensures var t := After(r, run);
            && IndicesAgree(t)
            && t.queued == t.removed + Occupied(t) && t.removed <= t.queued
            && DecoderSlots(t) !! MainSlots(t)
            && (t.producer.WaitingForFlush? ==> forall k :: 0 <= k < |t.skip| ==> t.skip[k])
            && (!t.abort && !t.producer.WaitingForFlush? ==>
                  forall k :: 0 <= k < |Occupied(t)| ==> !t.skip[Slot(t.rindex, k, |t.slots|)])
            && (t.producer.Stopped? ==> t.abort)
  {
    hide Do, Enabled;
    EveryInterleaving(r, run);
    StateIsSafe(After(r, run));
  }

  lemma StateIsSafe<T>(t: Ring<T>)
    requires Inv(t)
    ensures t.removed <= t.queued && DecoderSlots(t) !! MainSlots(t)
  {
    hide Pictures;
    assert t.queued[..|t.removed|] == t.removed;
  }

  /** A flush that ends without an abort leaves the ring empty: everything queued before it has left
      before anything is queued after it. */
  lemma FlushEmptiesTheRing<T>(r: Ring<T>, run: seq<Action<T>>)
    requires Initial(r) && Legal(r, run + [EndFlush]) && !After(r, run + [EndFlush]).abort
    ensures var t := After(r, run + [EndFlush]);
            t.removed == t.queued && t.size == 0 && t.rindex == t.windex
  {
    assert (run + [EndFlush])[..|run|] == run;
    EveryInterleaving(r, run + [EndFlush]);
    EveryInterleaving(r, run);
  }

  /** After an abort the decoder thread is never stuck: in every state where it waits it can go on,
      except while the main thread is in the middle of allocating, which its next step ends. */
  lemma AbortNeverStrands<T(!new)>(r: Ring<T>, run: seq<Action<T>>)
    requires Initial(r) && Legal(r, run) && After(r, run).abort
    ensures MayGoOn(After(r, run))
  {
    hide Do, Enabled, MayGoOn;
    EveryInterleaving(r, run);
    AbortedMayGoOn(After(r, run));
  }

  ghost predicate MayGoOn<T(!new)>(t: Ring<T>) {
    || t.consumer.Allocating? || t.producer.Decoding? || t.producer.Stopped?
    || (|t.slots| > 0 && exists a :: !MainStep(a) && Enabled(t, a))
  }

  lemma AbortedMayGoOn<T(!new)>(t: Ring<T>)
    requires Inv(t) && t.abort
    ensures MayGoOn(t)
  {
    hide Pictures;
    var a: Action<T> :=
      match t.producer
      case WaitingForSpace(_) => LeaveSpaceWait
      case SpaceSeen(_) => ReadAbort
      case OwnsSlot(_) => Fill
      case WaitingForAlloc(_) => LeaveAllocWait
      case AllocWoken(_) => PopOrWait
      case WaitingAborted(_) => LeaveAbortWait
      case AllocOver(_) => ReadAbortAgain
      case SlotAllocated(_) => Fill
      case Filled(_) => AdvanceWrite
      case Advanced(_) => CountWrite
      case _ => EndFlush;
    if !t.consumer.Allocating? && !t.producer.Decoding? && !t.producer.Stopped? {
      assert !MainStep(a) && Enabled(t, a);
    }
  }

  /** No allocation is left behind: once the decoder thread has stopped, no FF_ALLOC_EVENT is
      pending and the main thread is not allocating. */
  lemma NoOrphanAllocation<T>(r: Ring<T>, run: seq<Action<T>>)
    requires Initial(r) && Legal(r, run) && After(r, run).producer.Stopped?
    ensures !After(r, run).allocPending && !After(r, run).consumer.Allocating?
  {
    EveryInterleaving(r, run);
  }

  // ----- the code: each method is what one thread does to the shared fields in one step -----

  class PictureQueue<T(==)> {
    var slots: array<T>
    var skip: array<bool>
    var rindex: nat
    var windex: nat
    var size: nat
    var abortRequest: bool
    var bmpReady: bool
    var allocPending: bool
    ghost var producer: Producer<T>
    ghost var consumer: Consumer
    ghost var queued: seq<T>
    ghost var removed: seq<T>

    ghost function View(): Ring<T>
      reads this, slots, skip
    {
      Ring(slots[..], skip[..], rindex, windex, size, producer, consumer, abortRequest, bmpReady, allocPending,
           queued, removed)
    }

    ghost predicate Ready(a: Action<T>)
      reads this, slots, skip
    {
      slots as object != skip as object && Inv(View()) && Enabled(View(), a)
    }

    /** queue_picture: the picture goes into its slot. */
    method FillSlot(item: T)
      requires Ready(Fill) && producer.item == item
      modifies this, slots, skip
      ensures slots == old(slots) && skip == old(skip) && View() == Do(old(View()), Fill)
    {
      hide ContentsAgree, HandshakeAgrees, FlushAgrees, ShowAgrees;
      slots[windex], skip[windex] := item, false;
      producer := Filled(item);
    }

    /** queue_picture: `if (++pictq_windex == N) pictq_windex = 0`, without the lock. */
    method AdvanceWindex()
      requires Ready(AdvanceWrite)
      modifies `windex, `producer
      ensures View() == Do(old(View()), AdvanceWrite)
    {
      hide ContentsAgree, HandshakeAgrees, FlushAgrees, ShowAgrees;
      windex := windex + 1;
      if windex == slots.Length {
        windex := 0;
      }
      producer := Advanced(producer.item);
    }

    /** queue_picture: the size, under the lock. */
    method IncreaseSize()
      requires Ready(CountWrite)
      modifies `size, `producer, `queued
      ensures View() == Do(old(View()), CountWrite)
    {
      hide ContentsAgree, HandshakeAgrees, FlushAgrees, ShowAgrees;
      size := size + 1;
      queued := queued + [producer.item];
      producer := Decoding;
    }

    /** get_video_frame on a flush marker: every slot is to be skipped. */
    method SkipAll()
      requires Ready(StartFlush)
      modifies this, skip
      ensures slots == old(slots) && skip == old(skip) && View() == Do(old(View()), StartFlush)
    {
      hide ContentsAgree, HandshakeAgrees, FlushAgrees, ShowAgrees;
      for i := 0 to skip.Length
        invariant forall k :: 0 <= k < i ==> skip[k]
        modifies skip
      {
        skip[i] := true;
      }
      producer := WaitingForFlush;
    }

    /** pictq_next_picture: the read index, without the lock. */
    method AdvanceRindex()
      requires Ready(AdvanceRead)
      modifies `rindex, `consumer, `removed
      ensures View() == Do(old(View()), AdvanceRead)
    {
      hide ContentsAgree, HandshakeAgrees, FlushAgrees, ShowAgrees;
      removed := removed + [slots[rindex]];
      rindex := rindex + 1;
      if rindex == slots.Length {
        rindex := 0;
      }
      consumer := Moved;
    }

    /** pictq_next_picture: the size, under the lock. */
    method DecreaseSize()
      requires Ready(CountRead)
      modifies `size, `consumer
      ensures View() == Do(old(View()), CountRead)
    {
      hide ContentsAgree, HandshakeAgrees, FlushAgrees, ShowAgrees;
      size := size - 1;
      consumer := Idle;
    }

    /** One turn of the loop below. */
    method DropOldest()
      requires rindex < slots.Length && 0 < size <= slots.Length
      modifies `rindex, `size, `removed
      ensures rindex == Inc(old(rindex), slots.Length) && size == old(size) - 1
      ensures removed + Pictures(slots[..], rindex, size) == old(removed + Pictures(slots[..], rindex, size))
    {
      PicturesDropFirst(slots[..], rindex, size);
      hide Pictures;
      removed := removed + [slots[rindex]];
      rindex := rindex + 1;
      if rindex == slots.Length {
        rindex := 0;
      }
      size := size - 1;
    }

    /** video_refresh when the subtitle stream changed: one slot after the other, all under the lock. */
    method DrainAll()
      requires Ready(Drain)
      modifies `rindex, `size, `removed
      ensures View() == Do(old(View()), Drain)
    {
      hide ContentsAgree, HandshakeAgrees, FlushAgrees, ShowAgrees, Pictures;
      ghost var all, r0, s0 := removed + Pictures(slots[..], rindex, size), rindex, size;
      while size > 0
        invariant size <= s0 && rindex == Slot(r0, s0 - size, slots.Length)
        invariant removed + Pictures(slots[..], rindex, size) == all
        modifies `rindex, `size, `removed
      {
        DropOldest();
      }
      NoPictures(slots[..], rindex);
    }

    /** queue_picture: the slot is handed to the main thread. */
    method AskMain()
      requires Ready(AskForAlloc)
      modifies `bmpReady, `allocPending, `producer
      ensures View() == Do(old(View()), AskForAlloc)
    {
      hide ContentsAgree, HandshakeAgrees, FlushAgrees, ShowAgrees;
      bmpReady := false;
      allocPending := true;
      producer := WaitingForAlloc(producer.item);
    }

    /** queue_picture: an aborted handshake takes its event back, or waits for the main thread. */
    method PopEvent() returns (waits: bool)
      requires Ready(PopOrWait)
      modifies `allocPending, `producer
      ensures View() == Do(old(View()), PopOrWait) && waits == View().producer.WaitingAborted?
    {
      hide ContentsAgree, HandshakeAgrees, FlushAgrees, ShowAgrees;
      waits := abortRequest && !allocPending;
      if abortRequest {
        allocPending := false;
      }
      producer := if waits then WaitingAborted(producer.item) else AllocOver(producer.item);
    }

    /** The event loop takes FF_ALLOC_EVENT. */
    method TakeEvent()
      requires Ready(TakeAlloc)
      modifies `allocPending, `consumer
      ensures View() == Do(old(View()), TakeAlloc)
    {
      hide ContentsAgree, HandshakeAgrees, FlushAgrees, ShowAgrees;
      allocPending := false;
      consumer := Allocating;
    }

    /** alloc_picture: a fresh picture in the slot of the write index. */
    method AllocPicture(blank: T)
      requires Ready(EndAlloc(blank))
      modifies this, slots
      ensures slots == old(slots) && skip == old(skip) && View() == Do(old(View()), EndAlloc(blank))
    {
      hide ContentsAgree, HandshakeAgrees, FlushAgrees, ShowAgrees;
      slots[windex] := blank;
      bmpReady := true;
      consumer := Idle;
    }
  }

  lemma NoPictures<T>(slots: seq<T>, first: nat)
    requires first < |slots|
    ensures Pictures(slots, first, 0) == []
  {
  }
}
