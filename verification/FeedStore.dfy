/**
 The store of a feed in ffserver: one page of header, which also keeps the write index, and
 behind it pages that are written round once the size limit is reached.
 */
module FeedStore {

  import opened Common

  // ----- the index in the header: eight bytes, most significant first -----

  const WORD: int := 0x1_0000_0000

  /** File offsets are 64 bits with sign. */
  const OFFSET_LIMIT: int := 0x8000_0000_0000_0000

  function Bytes4(x: int): (r: seq<Byte>)
    requires 0 <= x < WORD
    ensures |r| == 4
  {
    [x / 0x100_0000, x / 0x1_0000 % 256, x / 0x100 % 256, x % 256]
  }

  function Value4(b: seq<Byte>): (x: int)
    requires |b| == 4
    ensures 0 <= x < WORD
  {
    b[0] as int * 0x100_0000 + b[1] as int * 0x1_0000 + b[2] as int * 0x100 + b[3] as int
  }

  predicate IsOffset(x: int) {
    -OFFSET_LIMIT <= x < OFFSET_LIMIT
  }

  function IndexBytes(x: int): (r: seq<Byte>)
    requires IsOffset(x)
    ensures |r| == 8
  {
    var u := if x < 0 then x + WORD * WORD else x;
    Bytes4(u / WORD) + Bytes4(u % WORD)
  }

  /** AVERROR(EIO) */
  const EIO := -5

  /** ffm_read_write_index: 64 bits with sign, or an error when the file is too short. */
  function ReadIndex(file: seq<Byte>): (x: int)
    ensures IsOffset(x)
  {
    if |file| < 16 then EIO
    else
      var u := Value4(file[8..12]) * WORD + Value4(file[12..16]);
      if u >= OFFSET_LIMIT then u - WORD * WORD else u
  }

  /** ffm_write_write_index */
  function WriteIndex(file: seq<Byte>, x: int): (r: seq<Byte>)
    requires |file| >= 16 && IsOffset(x)
    ensures |r| == |file|
  {
    file[..8] + IndexBytes(x) + file[16..]
  }

  lemma Bytes4RoundTrip(x: int)
    requires 0 <= x < WORD
    ensures Value4(Bytes4(x)) == x
  {
    var a, b, c := x / 0x100, x / 0x1_0000, x / 0x100_0000;
    assert x == 0x100 * a + x % 0x100;
    assert a == 0x100 * (a / 0x100) + a % 0x100 && a / 0x100 == b;
    assert b == 0x100 * (b / 0x100) + b % 0x100 && b / 0x100 == c;
  }

  /** What is written as index is read as index. */
  lemma IndexRoundTrip(file: seq<Byte>, x: int)
    requires |file| >= 16 && IsOffset(x)
    ensures ReadIndex(WriteIndex(file, x)) == x
  {
    hide Bytes4, Value4;
    var u := if x < 0 then x + WORD * WORD else x;
    var written := WriteIndex(file, x);
    assert written[8..12] == Bytes4(u / WORD) && written[12..16] == Bytes4(u % WORD);
    Bytes4RoundTrip(u / WORD);
    Bytes4RoundTrip(u % WORD);
  }

  /** The sign of the index is the first bit of its first byte. */
  lemma SignOfIndex(file: seq<Byte>)
    ensures ReadIndex(file) >= 0 <==> |file| >= 16 && file[8] < 128
  {
    if |file| >= 16 {
      assert file[8..12][0] == file[8];
    }
  }

  // ----- the store as a value -----

  /** The file, and what the feed keeps of it in memory. */
  datatype Store = Store(file: seq<Byte>, writeIndex: int, size: int)

  /** The pages in the order they were written: from the write index to the end, then from the
      first page to the write index. */
  function Round(s: Store): seq<Byte>
    requires PACKET_SIZE <= s.writeIndex <= |s.file|
  {
    s.file[s.writeIndex..] + s.file[PACKET_SIZE..s.writeIndex]
  }

  /** The last bytes of a log. */
  function Recent(log: seq<Byte>, n: nat): seq<Byte>
    requires n <= |log|
  {
    log[|log| - n..]
  }

  predicate Whole(n: int) {
    n % PACKET_SIZE == 0
  }

  lemma WholeStep(n: int, size: int)
    requires Whole(n) && Whole(size)
    ensures Whole(n + PACKET_SIZE)
    ensures n < size ==> n + PACKET_SIZE <= size
  {
  }

  /** Pages are whole, the index stands on one, and the header has it. */
  predicate Aligned(s: Store) {
    && PACKET_SIZE <= s.writeIndex <= |s.file| == s.size < OFFSET_LIMIT
    && Whole(s.writeIndex) && Whole(|s.file|)
    && ReadIndex(s.file) == s.writeIndex
  }

  /** Read round from the write index the store is the end of the log. */
  predicate Keeps(s: Store, log: seq<Byte>) {
    Aligned(s) && |s.file| - PACKET_SIZE <= |log| && Round(s) == Recent(log, |s.file| - PACKET_SIZE)
  }

  /** The limit as the comment on it promises; zero is no limit. */
  predicate WithinLimit(s: Store, max: int) {
    max == 0 || (s.writeIndex < max && |s.file| < max + PACKET_SIZE)
  }

  /** A page goes to the write index, over an old one or at the end. */
  function Put(file: seq<Byte>, at: int, page: seq<Byte>): seq<Byte>
    requires 0 <= at <= |file|
  {
    file[..at] + page + if at + |page| <= |file| then file[at + |page|..] else []
  }

  function NextIndex(index: int, max: int): int {
    if max != 0 && index + PACKET_SIZE >= max then PACKET_SIZE else index + PACKET_SIZE
  }

  function StorePage(s: Store, page: seq<Byte>, max: int): Store
    requires Aligned(s) && |page| == PACKET_SIZE && |s.file| + PACKET_SIZE < OFFSET_LIMIT
  {
    var file := Put(s.file, s.writeIndex, page);
    var index := NextIndex(s.writeIndex, max);
    var end := s.writeIndex + PACKET_SIZE;
    Store(WriteIndex(file, index), index, if end > s.size then end else s.size)
  }

  /** A page lies behind the header, so writing the index leaves all pages alone. */
  lemma IndexLeavesPages(file: seq<Byte>, x: int)
    requires |file| >= PACKET_SIZE && IsOffset(x)
    ensures WriteIndex(file, x)[PACKET_SIZE..] == file[PACKET_SIZE..]
  {
  }

  lemma PutLength(s: Store, page: seq<Byte>)
    requires Aligned(s) && |page| == PACKET_SIZE
    ensures |Put(s.file, s.writeIndex, page)| == if s.writeIndex == |s.file| then |s.file| + PACKET_SIZE else |s.file|
    ensures s.writeIndex < |s.file| ==> s.writeIndex + PACKET_SIZE <= |s.file|
    ensures Whole(s.writeIndex + PACKET_SIZE) && Whole(|Put(s.file, s.writeIndex, page)|)
  {
    hide Whole, ReadIndex;
    WholeStep(s.writeIndex, |s.file|);
  }

  lemma StoreAligned(s: Store, page: seq<Byte>, max: int)
    requires Aligned(s) && |page| == PACKET_SIZE && |s.file| + PACKET_SIZE < OFFSET_LIMIT
    ensures Aligned(StorePage(s, page, max))
  {
    hide ReadIndex, WriteIndex, Put, Whole;
    PutLength(s, page);
    assert Whole(PACKET_SIZE) by { WholePage(); }
    IndexRoundTrip(Put(s.file, s.writeIndex, page), NextIndex(s.writeIndex, max));
  }

  lemma WholePage()
    ensures Whole(PACKET_SIZE)
  {
  }

  /** The pages behind the header after a page was put: those before it, the page, those after. */
  lemma PutPages(s: Store, page: seq<Byte>, max: int)
    requires Aligned(s) && |page| == PACKET_SIZE && |s.file| + PACKET_SIZE < OFFSET_LIMIT
    ensures var file := StorePage(s, page, max).file; var i := s.writeIndex;
      && |file| >= i + PACKET_SIZE && |file| == (if i == |s.file| then |s.file| + PACKET_SIZE else |s.file|)
      && file[PACKET_SIZE..i] == s.file[PACKET_SIZE..i] && file[i..i + PACKET_SIZE] == page
      && file[i + PACKET_SIZE..] == (if i == |s.file| then [] else s.file[i + PACKET_SIZE..])
  {
    hide ReadIndex, Whole, Aligned, WriteIndex;
    AlignedBounds(s);
    PutLength(s, page);
    var i, put := s.writeIndex, Put(s.file, s.writeIndex, page);
    var file := StorePage(s, page, max).file;
    IndexLeavesPages(put, NextIndex(i, max));
    Slice(file, put, i, i + PACKET_SIZE);
    assert put[PACKET_SIZE..i] == s.file[PACKET_SIZE..i];
    assert put[i..i + PACKET_SIZE] == page;
    assert put[i + PACKET_SIZE..] == if i == |s.file| then [] else s.file[i + PACKET_SIZE..];
  }

  lemma Slice(a: seq<Byte>, b: seq<Byte>, i: nat, j: nat)
    requires |a| == |b| && PACKET_SIZE <= i <= j <= |a| && a[PACKET_SIZE..] == b[PACKET_SIZE..]
    ensures a[PACKET_SIZE..i] == b[PACKET_SIZE..i] && a[i..j] == b[i..j] && a[j..] == b[j..]
  {
    forall k | PACKET_SIZE <= k < |a| ensures a[k] == b[k] {
      assert a[k] == a[PACKET_SIZE..][k - PACKET_SIZE] == b[PACKET_SIZE..][k - PACKET_SIZE];
    }
  }

  lemma AlignedBounds(s: Store)
    requires Aligned(s)
    ensures PACKET_SIZE <= s.writeIndex <= |s.file| == s.size < OFFSET_LIMIT
  {
  }

  lemma StoreIndex(s: Store, page: seq<Byte>, max: int)
    requires Aligned(s) && |page| == PACKET_SIZE && |s.file| + PACKET_SIZE < OFFSET_LIMIT
    ensures StorePage(s, page, max).writeIndex == NextIndex(s.writeIndex, max)
    ensures Aligned(StorePage(s, page, max))
  {
    StoreAligned(s, page, max);
  }

  /** The oldest page of a full round goes, the new one comes. */
  lemma RoundStep(s: Store, page: seq<Byte>, max: int)
    requires Aligned(s) && |page| == PACKET_SIZE && |s.file| + PACKET_SIZE < OFFSET_LIMIT
    requires NextIndex(s.writeIndex, max) == PACKET_SIZE ==> s.writeIndex + PACKET_SIZE >= |s.file|
    ensures Aligned(StorePage(s, page, max))
    ensures Round(StorePage(s, page, max))
            == (if s.writeIndex == |s.file| then Round(s) else Round(s)[PACKET_SIZE..]) + page
  {
    hide StorePage, Aligned;
    AlignedBounds(s);
    StoreIndex(s, page, max);
    AlignedBounds(StorePage(s, page, max));
    PutLength(s, page);
    PutPages(s, page, max);
    var i, file := s.writeIndex, StorePage(s, page, max).file;
    RoundOf(file, NextIndex(i, max), i, page);
    if i < |s.file| {
      assert Round(s)[PACKET_SIZE..] == s.file[i + PACKET_SIZE..] + s.file[PACKET_SIZE..i];
    }
  }

  /** Read round from behind a page, or from the first page when it was the last. */
  lemma RoundOf(file: seq<Byte>, next: int, i: int, page: seq<Byte>)
    requires PACKET_SIZE <= i && i + PACKET_SIZE <= |file| && file[i..i + PACKET_SIZE] == page
    requires next == i + PACKET_SIZE || (next == PACKET_SIZE && i + PACKET_SIZE == |file|)
    ensures file[next..] + file[PACKET_SIZE..next] == file[i + PACKET_SIZE..] + file[PACKET_SIZE..i] + page
  {
    assert file[PACKET_SIZE..i + PACKET_SIZE] == file[PACKET_SIZE..i] + page;
    if next == PACKET_SIZE {
      assert file[PACKET_SIZE..] == file[PACKET_SIZE..i + PACKET_SIZE];
    }
  }

  /** A stored page leaves the store within the limit and at the end of the longer log. */
  lemma StoreKeeps(s: Store, log: seq<Byte>, page: seq<Byte>, max: int)
    requires Keeps(s, log) && WithinLimit(s, max) && |page| == PACKET_SIZE && |s.file| + PACKET_SIZE < OFFSET_LIMIT
    ensures Keeps(StorePage(s, page, max), log + page) && WithinLimit(StorePage(s, page, max), max)
  {
    hide StorePage, Aligned, Round;
    AlignedBounds(s);
    PutLength(s, page);
    PutPages(s, page, max);
    StoreIndex(s, page, max);
    if NextIndex(s.writeIndex, max) == PACKET_SIZE {
      LastPage(s, max);
    }
    RoundStep(s, page, max);
    var n := |s.file| - PACKET_SIZE;
    if s.writeIndex == |s.file| {
      assert Recent(log, n) + page == Recent(log + page, n + PACKET_SIZE);
    } else {
      assert Recent(log, n)[PACKET_SIZE..] + page == Recent(log + page, n);
    }
  }

  /** Within the limit, the index goes back only from the last page. */
  lemma LastPage(s: Store, max: int)
    requires Aligned(s) && WithinLimit(s, max) && NextIndex(s.writeIndex, max) == PACKET_SIZE
    ensures s.writeIndex + PACKET_SIZE >= |s.file|
  {
    WholeStep(s.writeIndex, |s.file|);
    WholeStep(s.writeIndex + PACKET_SIZE, |s.file|);
  }

  // ----- opening -----

  function Resize(file: seq<Byte>, n: nat): (r: seq<Byte>)
    ensures |r| == n
  {
    if |file| >= n then file[..n] else file + seq(n - |file|, _ => 0)
  }

  /** http_start_receive_data on a feed that is to be truncated. */
  function Truncated(file: seq<Byte>): seq<Byte> {
    WriteIndex(Resize(file, PACKET_SIZE), PACKET_SIZE)
  }

  /** What memory takes from the file, at startup and when the feed is opened. */
  function Open(file: seq<Byte>): Store {
    Store(file, if ReadIndex(file) < PACKET_SIZE then PACKET_SIZE else ReadIndex(file), |file|)
  }

  lemma TruncatedIsEmpty(file: seq<Byte>, max: int)
    requires max == 0 || max > PACKET_SIZE
    ensures Keeps(Open(Truncated(file)), []) && WithinLimit(Open(Truncated(file)), max)
  {
    hide ReadIndex, WriteIndex, Resize;
    IndexRoundTrip(Resize(file, PACKET_SIZE), PACKET_SIZE);
    WholePage();
  }

  /** Opening a feed again goes on where it was closed. */
  lemma ReopenResumes(s: Store)
    requires Aligned(s)
    ensures Open(s.file) == s
  {
  }

  // ----- whole runs -----

  predicate AllPages(pages: seq<seq<Byte>>) {
    forall i :: 0 <= i < |pages| ==> |pages[i]| == PACKET_SIZE
  }

  lemma {:induction false} PagesLength(pages: seq<seq<Byte>>)
    requires AllPages(pages)
    ensures |Flatten(pages)| == PACKET_SIZE * |pages|
  {
    if pages != [] {
      PagesLength(pages[..|pages| - 1]);
    }
  }

  /** The store after a number of pages; file offsets have to suffice for all of them. */
  ghost function Stored(s: Store, pages: seq<seq<Byte>>, max: int): (r: Store)
    requires Aligned(s) && AllPages(pages) && |s.file| + PACKET_SIZE * |pages| < OFFSET_LIMIT
    ensures Aligned(r) && |r.file| <= |s.file| + PACKET_SIZE * |pages|
    decreases |pages|
  {
    if pages == [] then s
    else
      var before := Stored(s, pages[..|pages| - 1], max);
      var page := pages[|pages| - 1];
      StoreAligned(before, page, max);
      PutPages(before, page, max);
      StorePage(before, page, max)
  }

  lemma KeepsAligned(s: Store, log: seq<Byte>)
    requires Keeps(s, log)
    ensures Aligned(s)
  {
  }

  /** Until the limit is reached nothing is overwritten. */
  predicate Grown(s: Store, pages: nat, max: int) {
    s.writeIndex == |s.file| == PACKET_SIZE + PACKET_SIZE * pages || (max != 0 && |s.file| >= max)
  }

  lemma GrownStep(s: Store, pages: nat, page: seq<Byte>, max: int)
    requires Aligned(s) && Grown(s, pages, max) && |page| == PACKET_SIZE && |s.file| + PACKET_SIZE < OFFSET_LIMIT
    ensures Grown(StorePage(s, page, max), pages + 1, max)
  {
    hide Aligned, ReadIndex, WriteIndex;
    AlignedBounds(s);
    PutPages(s, page, max);
    StoreIndex(s, page, max);
  }

  lemma {:induction false} RunGrows(s: Store, pages: seq<seq<Byte>>, max: int)
    requires Aligned(s) && s.writeIndex == |s.file| == PACKET_SIZE
    requires AllPages(pages) && |s.file| + PACKET_SIZE * |pages| < OFFSET_LIMIT
    ensures Grown(Stored(s, pages, max), |pages|, max)
    decreases |pages|
  {
    hide StorePage, Aligned, Grown;
    if pages == [] {
      assert Grown(s, 0, max) by { GrownStart(s, max); }
    } else {
      RunGrows(s, pages[..|pages| - 1], max);
      GrownStep(Stored(s, pages[..|pages| - 1], max), |pages| - 1, pages[|pages| - 1], max);
    }
  }

  lemma GrownStart(s: Store, max: int)
    requires s.writeIndex == |s.file| == PACKET_SIZE
    ensures Grown(s, 0, max)
  {
  }

  lemma {:induction false} RunKeeps(s: Store, log: seq<Byte>, pages: seq<seq<Byte>>, max: int)
    requires Keeps(s, log) && WithinLimit(s, max) && AllPages(pages) && |s.file| + PACKET_SIZE * |pages| < OFFSET_LIMIT
    ensures Keeps(Stored(s, pages, max), log + Flatten(pages)) && WithinLimit(Stored(s, pages, max), max)
    decreases |pages|
  {
    hide StorePage, Keeps, WithinLimit, Aligned, Round;
    assert Aligned(s) by { KeepsAligned(s, log); }
    if pages == [] {
      assert log + Flatten(pages) == log;
    } else {
      var init, page := pages[..|pages| - 1], pages[|pages| - 1];
      RunKeeps(s, log, init, max);
      StoreKeeps(Stored(s, init, max), log + Flatten(init), page, max);
      assert log + Flatten(pages) == log + Flatten(init) + page;
    }
  }

  /**
   From a truncated feed, whatever is stored: the index stays on a page and below the limit, the
   file stays below the limit and one page, read round it is the last pages of the log in order,
   and before the limit is reached it is all of them.
   */
  lemma TruncatedFeedKeepsTheLastPages(file: seq<Byte>, pages: seq<seq<Byte>>, max: int)
    requires max == 0 || max > PACKET_SIZE
    requires AllPages(pages) && PACKET_SIZE + PACKET_SIZE * |pages| < OFFSET_LIMIT
    ensures Aligned(Open(Truncated(file))) && |Open(Truncated(file)).file| == PACKET_SIZE
    ensures var s := Stored(Open(Truncated(file)), pages, max);
      && Keeps(s, Flatten(pages)) && WithinLimit(s, max)
      && (|s.file| - PACKET_SIZE == |Flatten(pages)| || (max != 0 && |s.file| >= max))
  {
    hide StorePage, Stored, Round, ReadIndex, WriteIndex, Flatten;
    var start := Open(Truncated(file));
    TruncatedIsEmpty(file, max);
    RunKeeps(start, [], pages, max);
    RunGrows(start, pages, max);
    assert [] + Flatten(pages) == Flatten(pages);
    PagesLength(pages);
  }

  // ----- the limit at startup -----

  /** A file that is longer than the limit moves the limit to its end. */
  function StartLimit(max: int, size: nat): int {
    if max != 0 && max < size then size else max
  }

  predicate CanStore(s: Store, pages: seq<seq<Byte>>) {
    Aligned(s) && AllPages(pages) && |s.file| + PACKET_SIZE * |pages| < OFFSET_LIMIT
  }

  predicate KeepsAfter(s: Store, log: seq<Byte>, pages: seq<seq<Byte>>, r: Store) {
    Keeps(r, log + Flatten(pages))
  }

  ghost predicate KeepsForever(s: Store, log: seq<Byte>, max: int) {
    forall pages | CanStore(s, pages) :: KeepsAfter(s, log, pages, Stored(s, pages, max))
  }

  function Filled(b: Byte): (page: seq<Byte>)
    ensures |page| == PACKET_SIZE
  {
    seq(PACKET_SIZE, _ => b)
  }

  /** One page of ones and then pages of zeros. */
  function Marked(n: nat): (pages: seq<seq<Byte>>)
    ensures AllPages(pages) && |pages| == n + 1
  {
    if n == 0 then [Filled(1)] else Marked(n - 1) + [Filled(0)]
  }

  /** While the index is below the limit, a page behind it is never written again. */
  lemma MarkSurvives(r: Store, page: seq<Byte>, mark: seq<Byte>, max: int)
    requires Aligned(r) && |page| == PACKET_SIZE && |r.file| + PACKET_SIZE < OFFSET_LIMIT
    requires r.writeIndex < max && |r.file| == max + PACKET_SIZE && r.file[max..] == mark
    ensures var t := StorePage(r, page, max);
      |t.file| == |r.file| && t.writeIndex == NextIndex(r.writeIndex, max) && t.file[max..] == mark
  {
    hide StorePage;
    MaxWhole(r, max);
    StoreIndex(r, page, max);
    PutPages(r, page, max);
    var i, file := r.writeIndex, StorePage(r, page, max).file;
    assert file[max..] == file[i + PACKET_SIZE..][max - (i + PACKET_SIZE)..];
    assert r.file[max..] == r.file[i + PACKET_SIZE..][max - (i + PACKET_SIZE)..];
  }

  lemma MaxWhole(r: Store, max: int)
    requires Aligned(r) && |r.file| == max + PACKET_SIZE && r.writeIndex < max
    ensures PACKET_SIZE <= r.writeIndex && r.writeIndex + PACKET_SIZE <= max
  {
    hide ReadIndex, Whole;
    WholeStep(r.writeIndex, |r.file|);
    WholeStep(r.writeIndex + PACKET_SIZE, |r.file|);
  }

  /** After the limit was moved to an index at the end of the file, the page stored there first
      stays there, and the index walks through the file up to the limit. */
  lemma {:induction false} MarkStays(s: Store, max: int, n: nat)
    requires Aligned(s) && s.writeIndex == |s.file| == max && PACKET_SIZE * n < max
    requires |s.file| + PACKET_SIZE * (n + 1) < OFFSET_LIMIT
    ensures var r := Stored(s, Marked(n), max);
      |r.file| == max + PACKET_SIZE && r.file[max..] == Filled(1)
      && r.writeIndex == if n == 0 then PACKET_SIZE else NextIndex(PACKET_SIZE * n, max)
  {
    hide Aligned, StorePage, Filled, Stored;
    if n == 0 {
      MarkFirst();
      StoredOne(s, Filled(1), max);
      AlignedBounds(s);
      StoreIndex(s, Filled(1), max);
      PutPages(s, Filled(1), max);
    } else {
      MarkStays(s, max, n - 1);
      StoredSnoc(s, Marked(n - 1), Filled(0), max);
      MarkSurvives(Stored(s, Marked(n - 1), max), Filled(0), Filled(1), max);
    }
  }

  lemma MarkFirst()
    ensures Marked(0) == [Filled(1)]
  {
  }

  lemma StoredOne(s: Store, page: seq<Byte>, max: int)
    requires Aligned(s) && |page| == PACKET_SIZE && |s.file| + PACKET_SIZE < OFFSET_LIMIT
    ensures AllPages([page]) && Stored(s, [page], max) == StorePage(s, page, max)
  {
    hide StorePage;
    StoredNone(s, max);
    StoredSnoc(s, [], page, max);
    assert [] + [page] == [page];
  }

  lemma StoredNone(s: Store, max: int)
    requires Aligned(s)
    ensures Stored(s, [], max) == s
  {
  }

  lemma StoredSnoc(s: Store, pages: seq<seq<Byte>>, page: seq<Byte>, max: int)
    requires Aligned(s) && AllPages(pages) && |page| == PACKET_SIZE
    requires |s.file| + PACKET_SIZE * (|pages| + 1) < OFFSET_LIMIT
    ensures AllPages(pages + [page])
    ensures Stored(s, pages + [page], max) == StorePage(Stored(s, pages, max), page, max)
  {
    hide StorePage;
    assert (pages + [page])[..|pages|] == pages;
  }

  /** Then the round ends in a page that is not the last one stored. */
  lemma MovedLimitBreaks(s: Store, log: seq<Byte>, max: int, n: nat)
    requires Aligned(s) && s.writeIndex == |s.file| == max == PACKET_SIZE + PACKET_SIZE * n && n > 0
    requires |s.file| + PACKET_SIZE * (n + 1) < OFFSET_LIMIT
    ensures !KeepsAfter(s, log, Marked(n), Stored(s, Marked(n), max))
  {
    hide Aligned, StorePage, Stored, Flatten;
    MarkStays(s, max, n);
    var r := Stored(s, Marked(n), max);
    assert Round(r) == r.file[PACKET_SIZE..];
    assert Round(r)[|Round(r)| - 1] == r.file[max..][PACKET_SIZE - 1] == 1;
    PagesEnd(Marked(n - 1), Filled(0));
  }

  lemma PagesEnd(pages: seq<seq<Byte>>, page: seq<Byte>)
    requires page != []
    ensures Flatten(pages + [page]) != [] && Flatten(pages + [page])[|Flatten(pages + [page])| - 1] == page[|page| - 1]
  {
    assert (pages + [page])[..|pages|] == pages;
  }

  /**
   With the limit that startup leaves, the store stays the end of the log whatever is stored, exactly
   when the index is below that limit. It is not when a feed that never reached its end is longer
   than a lowered limit.
   */
  lemma StartLimitKeepsForever(s: Store, log: seq<Byte>, max: int)
    requires Keeps(s, log) && (max == 0 || max > PACKET_SIZE) && 2 * |s.file| < OFFSET_LIMIT
    ensures var limit := StartLimit(max, |s.file|);
      KeepsForever(s, log, limit) <==> limit == 0 || s.writeIndex < limit
  {
    hide Round, Flatten, Stored, ReadIndex;
    var limit := StartLimit(max, |s.file|);
    if limit == 0 || s.writeIndex < limit {
      forall pages | CanStore(s, pages) ensures KeepsAfter(s, log, pages, Stored(s, pages, limit)) {
        RunKeeps(s, log, pages, limit);
      }
    } else {
      var n := (limit - PACKET_SIZE) / PACKET_SIZE;
      MovedLimitBreaks(s, log, limit, n);
      assert CanStore(s, Marked(n));
    }
  }

  // ----- the code -----

  class Feed {
    const maxSize: int
    var file: seq<Byte>
    var feedWriteIndex: int
    var feedSize: int

    ghost function Value(): Store
      reads this
    {
      Store(file, feedWriteIndex, feedSize)
    }

    /** The feed as startup finds it. */
    constructor (file: seq<Byte>, max: int)
      ensures Value() == Open(file) && maxSize == StartLimit(max, |file|)
      ensures feedWriteIndex >= PACKET_SIZE && feedSize == |file| && (maxSize == 0 || maxSize >= feedSize)
    {
      this.file := file;
      var index := ReadIndex(file);
      feedWriteIndex := if index < PACKET_SIZE then PACKET_SIZE else index;
      feedSize := |file|;
      maxSize := if max != 0 && max < |file| then |file| else max;
    }

    /** The feed part of http_start_receive_data. */
    method StartReceive(truncate: bool) returns (ok: bool)
      modifies this
      ensures ok <==> truncate || (|old(file)| >= 16 && old(file)[8] < 128)
      ensures ok ==> feedWriteIndex >= PACKET_SIZE && feedSize == |file|
      ensures ok ==> Value() == Open(if truncate then Truncated(old(file)) else old(file))
      ensures !ok ==> file == old(file)
    {
      SignOfIndex(file);
      if truncate {
        file := WriteIndex(Resize(file, PACKET_SIZE), PACKET_SIZE);
      } else {
        feedWriteIndex := ReadIndex(file);
        if feedWriteIndex < 0 {
          return false;
        }
      }
      var index := ReadIndex(file);
      feedWriteIndex := if index < PACKET_SIZE then PACKET_SIZE else index;
      feedSize := |file|;
      return true;
    }

    /** The storing of a packet in http_receive_data. The disk may refuse the packet or the index. */
    method StorePacket(packet: seq<Byte>, written: bool, indexWritten: bool) returns (ok: bool)
      requires Aligned(Value()) && |packet| == PACKET_SIZE && |file| + PACKET_SIZE < OFFSET_LIMIT
      modifies this
      ensures ok <==> written && indexWritten
      ensures ok ==> Value() == StorePage(old(Value()), packet, maxSize) && Aligned(Value())
      ensures !written ==> Value() == old(Value())
      ensures written && !indexWritten ==>
        file == Put(old(file), old(feedWriteIndex), packet) && feedWriteIndex == NextIndex(old(feedWriteIndex), maxSize)
    {
      hide ReadIndex, WriteIndex;
      if !written {
        return false;
      }
      StoreAligned(Value(), packet, maxSize);
      PutLength(Value(), packet);
      file := Put(file, feedWriteIndex, packet);
      feedWriteIndex := feedWriteIndex + PACKET_SIZE;
      if feedWriteIndex > feedSize {
        feedSize := feedWriteIndex;
      }
      if maxSize != 0 && feedWriteIndex >= maxSize {
        feedWriteIndex := PACKET_SIZE;
      }
      if !indexWritten {
        return false;
      }
      file := WriteIndex(file, feedWriteIndex);
      return true;
    }
  }
}
