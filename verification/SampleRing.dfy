/**
 The ring of samples that ffplay keeps for its wave display.
 */
module SampleRing {

  import opened Common

  const SIZE := 0x20000

  /** The ring holds the last samples of a history, sample `k` at index `k` modulo its size. */
  ghost predicate Holds(ring: seq<int>, history: seq<int>) {
    |ring| == SIZE && forall k :: 0 <= k < |history| && |history| - SIZE <= k ==> ring[k % SIZE] == history[k]
  }

  /** The index where the next sample goes. */
  function Next(history: seq<int>): (i: nat)
    ensures i < SIZE
  {
    |history| % SIZE
  }

  lemma NewIndex(n: nat, j: nat)
    requires n % SIZE + j < SIZE
    ensures (n + j) % SIZE == n % SIZE + j
  {
  }

  /** An older sample that is still in the window lies outside the stretch. */
  lemma OldIndex(n: nat, k: nat, len: nat)
    requires k < n && n + len - SIZE <= k && n % SIZE + len <= SIZE
    ensures k % SIZE < n % SIZE || n % SIZE + len <= k % SIZE
  {
  }

  /** Writing a stretch at the index goes on with the history. */
  lemma WriteStep(ring: seq<int>, history: seq<int>, chunk: seq<int>)
    requires Holds(ring, history) && Next(history) + |chunk| <= SIZE
    ensures Holds(Overwrite(ring, Next(history), chunk), history + chunk)
  {
    var n, after := |history|, Overwrite(ring, Next(history), chunk);
    var longer := history + chunk;
    forall k | 0 <= k < |longer| && |longer| - SIZE <= k ensures after[k % SIZE] == longer[k] {
      if k >= n {
        NewIndex(n, k - n);
      } else {
        OldIndex(n, k, |chunk|);
        assert ring[k % SIZE] == history[k];
      }
    }
  }

  /** Read round from the index, a full ring is the last samples in order. */
  lemma LastSamplesInOrder(ring: seq<int>, history: seq<int>)
    requires Holds(ring, history) && |history| >= SIZE
    ensures ring[Next(history)..] + ring[..Next(history)] == history[|history| - SIZE..]
  {
    var i, n := Next(history), |history|;
    var round, window := ring[i..] + ring[..i], history[n - SIZE..];
    forall j | 0 <= j < SIZE ensures round[j] == window[j] {
      var k := n - SIZE + j;
      assert ring[k % SIZE] == history[k];
      RoundIndex(n, j);
    }
  }

  lemma RoundIndex(n: nat, j: nat)
    requires n >= SIZE && j < SIZE
    ensures (n - SIZE + j) % SIZE == if j < SIZE - n % SIZE then n % SIZE + j else n % SIZE + j - SIZE
  {
  }

  class SampleDisplay {
    var samples: array<int>
    var index: nat
    ghost var history: seq<int>

    ghost predicate Valid()
      reads this, samples
    {
      Holds(samples[..], history) && index == Next(history)
    }

    constructor ()
      ensures Valid() && history == [] && fresh(samples)
    {
      samples := new int[SIZE];
      index := 0;
      history := [];
    }

    /** memcpy of a stretch, which lies in the ring. */
    method Copy(chunk: seq<int>)
      requires index + |chunk| <= samples.Length
      modifies samples
      ensures samples[..] == Overwrite(old(samples[..]), index, chunk)
    {
      forall i | 0 <= i < |chunk| {
        samples[index + i] := chunk[i];
      }
    }

    /** One turn of the loop: a stretch, and the index back to the start at the end. */
    method CopyAndWrap(chunk: seq<int>)
      requires Valid() && index + |chunk| <= SIZE
      modifies this, samples
      ensures Valid() && samples == old(samples) && history == old(history) + chunk
    {
      hide Holds;
      RingLength(samples[..], history);
      WriteStep(samples[..], history, chunk);
      Copy(chunk);
      history := history + chunk;
      index := index + |chunk|;
      if index >= SIZE {
        index := 0;
      }
    }

    /** update_sample_display: as many samples as `samplesSize` bytes hold, of any number. */
    method Update(src: seq<int>, samplesSize: int)
      requires Valid() && samplesSize <= 2 * |src|
      modifies this, samples
      ensures Valid() && samples == old(samples)
      ensures history == old(history) + src[..if samplesSize < 0 then 0 else samplesSize / 2]
    {
      hide Holds;
      var size := if samplesSize < 0 then -(-samplesSize / 2) else samplesSize / 2;
      ghost var total := if samplesSize < 0 then 0 else samplesSize / 2;
      var from := 0;
      while size > 0
        invariant Valid() && samples == old(samples)
        invariant 0 <= from <= total && (size == total - from || (size <= 0 && from == total))
        invariant history == old(history) + src[..from]
      {
        var len := SIZE - index;
        if len > size {
          len := size;
        }
        CopyAndWrap(src[from..from + len]);
        from := from + len;
        size := size - len;
      }
    }
  }

  lemma RingLength(ring: seq<int>, history: seq<int>)
    requires Holds(ring, history)
    ensures |ring| == SIZE
  {
  }

  /** Any sequence of updates leaves the last samples of all of them, each at its index. */
  method UpdateAll(updates: seq<seq<int>>) returns (d: SampleDisplay)
    ensures fresh(d) && fresh(d.samples)
    ensures Holds(d.samples[..], Flatten(updates)) && d.index == Next(Flatten(updates))
  {
    hide Holds;
    d := new SampleDisplay();
    for i := 0 to |updates|
      invariant fresh(d) && fresh(d.samples) && d.Valid() && d.history == Flatten(updates[..i])
    {
      d.Update(updates[i], 2 * |updates[i]|);
      assert updates[..i + 1][..i] == updates[..i];
    }
    assert updates[..|updates|] == updates;
  }
}
