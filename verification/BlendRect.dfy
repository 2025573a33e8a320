/**
 The luma plane under blend_subrect of ffplay: a paletted subtitle rectangle is blended into the
 picture two rows and two columns at a time, with the odd row and the odd column of the clipped
 rectangle apart.
 */
module BlendRect {

  import opened Common

  /** An entry of the palette, whose colours are YCrCb. */
  datatype Colour = Colour(y: Byte, u: Byte, v: Byte, a: Byte)

  /** ALPHA_BLEND without scaling. */
  function Blend(under: Byte, c: Colour): Byte {
    var sum := under * (255 - c.a) + c.y * c.a;
    BlendBound(under, c.y, c.a);
    sum / 255
  }

  lemma BlendBound(p: Byte, q: Byte, a: Byte)
    ensures 0 <= p * (255 - a) + q * a <= 255 * 255
  {
    assert 0 <= p * (255 - a) <= 255 * (255 - a) by { MulMono(p, 255, 255 - a); }
    assert 0 <= q * a <= 255 * a by { MulMono(q, 255, a); }
  }

  /** Blending is the mean of the two by the alpha, cut to a whole number: nothing of a transparent
      colour, all of an opaque one, never outside the two. */
  lemma BlendIsMean(under: Byte, c: Colour)
    ensures 255 * Blend(under, c) <= under * (255 - c.a) + c.y * c.a < 255 * (Blend(under, c) + 1)
    ensures c.a == 0 ==> Blend(under, c) == under
    ensures c.a == 255 ==> Blend(under, c) == c.y
    ensures under <= c.y ==> under <= Blend(under, c) <= c.y
    ensures c.y <= under ==> c.y <= Blend(under, c) <= under
  {
    var sum := under * (255 - c.a) + c.y * c.a;
    Share(under, c.a);
    Share(c.y, c.a);
    MulMono(if under <= c.y then under else c.y, if under <= c.y then c.y else under, c.a);
    MulMono(if under <= c.y then under else c.y, if under <= c.y then c.y else under, 255 - c.a);
    BlendBound(under, c.y, c.a);
    Between(sum, if under <= c.y then under else c.y, if under <= c.y then c.y else under);
  }

  lemma Share(x: Byte, a: Byte)
    ensures x * (255 - a) + x * a == 255 * x
    ensures a == 0 ==> x * a == 0 && x * (255 - a) == 255 * x
    ensures a == 255 ==> x * a == 255 * x && x * (255 - a) == 0
  {
  }

  lemma Between(sum: nat, low: nat, high: nat)
    ensures 255 * (sum / 255) <= sum < 255 * (sum / 255 + 1)
    ensures 255 * low <= sum <= 255 * high ==> low <= sum / 255 <= high
  {
  }

  lemma MulMono(x: nat, y: nat, z: nat)
    requires x <= y
    ensures 0 <= x * z <= y * z
  {
  }

  // ----- the reference: one pixel after the other -----

  /** The subtitle bitmap: palette indices, their line size, and the palette. */
  datatype Bitmap = Bitmap(pixels: seq<Byte>, wrap: nat, palette: seq<Colour>)

  predicate Readable(b: Bitmap, p: int, n: nat) {
    |b.palette| == 256 && 0 <= p && p + n <= |b.pixels|
  }

  function ColourAt(b: Bitmap, p: int): Colour
    requires Readable(b, p, 1)
  {
    b.palette[b.pixels[p]]
  }

  /** `n` pixels of a plane from `l` on, blended with those of the bitmap from `p` on. */
  function Segment(plane: seq<Byte>, b: Bitmap, l: int, p: int, n: nat): (r: seq<Byte>)
    requires 0 <= l && l + n <= |plane| && Readable(b, p, n)
    ensures |r| == |plane|
  {
    seq(|plane|, k requires 0 <= k < |plane| =>
      if l <= k < l + n then Blend(plane[k], ColourAt(b, p + (k - l))) else plane[k])
  }

  /** `rows` lines of the given size. */
  function Lines(rows: nat, wrap: nat): (n: nat) {
    if rows == 0 then 0 else Lines(rows - 1, wrap) + wrap
  }

  /** The clipped rectangle in a plane of lines of `wrap` bytes. */
  datatype Rect = Rect(x: nat, y: nat, w: nat, h: nat)

  function Left(r: Rect, wrap: nat, row: nat): nat {
    Lines(r.y + row, wrap) + r.x
  }

  /** The rectangle lies in the plane and the bitmap covers it. */
  ghost predicate Fits(size: nat, b: Bitmap, r: Rect, wrap: nat) {
    && r.x + r.w <= wrap
    && forall row :: 0 <= row < r.h ==> Left(r, wrap, row) + r.w <= size && Readable(b, Lines(row, b.wrap), r.w)
  }

  /** The plane after `rows` rows of the rectangle, every row blended from left to right. */
  ghost function Rows(plane: seq<Byte>, b: Bitmap, r: Rect, wrap: nat, rows: nat): (s: seq<Byte>)
    requires Fits(|plane|, b, r, wrap) && rows <= r.h
    ensures |s| == |plane|
  {
    if rows == 0 then plane
    else Segment(Rows(plane, b, r, wrap, rows - 1), b, Left(r, wrap, rows - 1), Lines(rows - 1, b.wrap), r.w)
  }

  lemma LinesNone(wrap: nat)
    ensures Lines(0, wrap) == 0
  {
  }

  lemma LinesStep(rows: nat, wrap: nat)
    ensures Lines(rows + 1, wrap) == Lines(rows, wrap) + wrap
  {
  }

  lemma RowFits(size: nat, b: Bitmap, r: Rect, wrap: nat, row: nat)
    requires Fits(size, b, r, wrap) && row < r.h
    ensures Left(r, wrap, row) + r.w <= size && Readable(b, Lines(row, b.wrap), r.w)
  {
  }

  lemma {:induction false} LinesMono(i: nat, j: nat, wrap: nat)
    requires i < j
    ensures Lines(i, wrap) + wrap <= Lines(j, wrap)
    decreases j
  {
    if i < j - 1 {
      LinesMono(i, j - 1, wrap);
    }
  }

  lemma SegmentAt(plane: seq<Byte>, b: Bitmap, l: int, p: int, n: nat, k: nat)
    requires 0 <= l && l + n <= |plane| && Readable(b, p, n) && k < |plane|
    ensures Segment(plane, b, l, p, n)[k]
            == if l <= k < l + n then Blend(plane[k], ColourAt(b, p + (k - l))) else plane[k]
  {
    hide Blend;
  }

  lemma RowsApart(r: Rect, wrap: nat, i: nat, row: nat)
    requires r.x + r.w <= wrap && i < row
    ensures Left(r, wrap, i) + r.w <= Left(r, wrap, row)
  {
    hide Lines;
    LinesMono(r.y + i, r.y + row, wrap);
  }

  /** Every pixel of the rectangle is blended once, with its own pixel of the bitmap. */
  lemma {:induction false} PixelBlended(plane: seq<Byte>, b: Bitmap, r: Rect, wrap: nat, rows: nat, i: nat, j: nat)
    requires Fits(|plane|, b, r, wrap) && i < rows <= r.h && j < r.w
    ensures Readable(b, Lines(i, b.wrap) + j, 1)
    ensures Left(r, wrap, i) + j < |plane|
    ensures Rows(plane, b, r, wrap, rows)[Left(r, wrap, i) + j]
            == Blend(plane[Left(r, wrap, i) + j], ColourAt(b, Lines(i, b.wrap) + j))
    decreases rows
  {
    hide Blend, Segment, Lines, Left;
    RowFits(|plane|, b, r, wrap, i);
    RowFits(|plane|, b, r, wrap, rows - 1);
    var k := Left(r, wrap, i) + j;
    SegmentAt(Rows(plane, b, r, wrap, rows - 1), b, Left(r, wrap, rows - 1), Lines(rows - 1, b.wrap), r.w, k);
    if i == rows - 1 {
      PixelKept(plane, b, r, wrap, rows - 1, k);
    } else {
      RowsApart(r, wrap, i, rows - 1);
      PixelBlended(plane, b, r, wrap, rows - 1, i, j);
    }
  }

  predicate InRow(r: Rect, wrap: nat, row: nat, k: int) {
    Left(r, wrap, row) <= k < Left(r, wrap, row) + r.w
  }

  /** No other byte of the plane changes. */
  lemma {:induction false} PixelKept(plane: seq<Byte>, b: Bitmap, r: Rect, wrap: nat, rows: nat, k: nat)
    requires Fits(|plane|, b, r, wrap) && rows <= r.h && k < |plane|
    requires (forall row :: 0 <= row < rows ==> !InRow(r, wrap, row, k)) || k >= Left(r, wrap, rows)
    ensures Rows(plane, b, r, wrap, rows)[k] == plane[k]
    decreases rows
  {
    hide Blend, Segment, Lines, Left;
    if rows > 0 {
      RowFits(|plane|, b, r, wrap, rows - 1);
      RowsApart(r, wrap, rows - 1, rows);
      assert !InRow(r, wrap, rows - 1, k);
      SegmentAt(Rows(plane, b, r, wrap, rows - 1), b, Left(r, wrap, rows - 1), Lines(rows - 1, b.wrap), r.w, k);
      PixelKept(plane, b, r, wrap, rows - 1, k);
    }
  }

  // ----- the walk: which pixels the code blends, one after the other -----

  /** The byte of the plane at `l` blended with the pixel of the bitmap at `p`. */
  datatype Op = Op(l: int, p: int)

  predicate OpFits(size: nat, b: Bitmap, op: Op) {
    0 <= op.l < size && Readable(b, op.p, 1)
  }

  predicate AllFit(size: nat, b: Bitmap, ops: seq<Op>) {
    forall k :: 0 <= k < |ops| ==> OpFits(size, b, ops[k])
  }

  function ApplyOne(plane: seq<Byte>, b: Bitmap, op: Op): (r: seq<Byte>)
    requires OpFits(|plane|, b, op)
    ensures |r| == |plane|
  {
    plane[op.l := Blend(plane[op.l], ColourAt(b, op.p))]
  }

  function Apply(plane: seq<Byte>, b: Bitmap, ops: seq<Op>): (r: seq<Byte>)
    requires AllFit(|plane|, b, ops)
    ensures |r| == |plane|
    decreases |ops|
  {
    if ops == [] then plane
    else ApplyOne(Apply(plane, b, ops[..|ops| - 1]), b, ops[|ops| - 1])
  }

  /** How many pixels of a row are blended: the tests are for an odd first column and a width left that is not zero. */
  function Visits(x: nat, w: nat): (n: nat)
    ensures n >= w
  {
    if w == 0 && x % 2 == 1 then 2 else w
  }

  /** `n` pixels of one row from left to right. */
  function Run(l: int, p: int, n: nat): (ops: seq<Op>)
    ensures |ops| == n
  {
    seq(n, k requires 0 <= k < n => Op(l + k, p + k))
  }

  /** The two line sizes. */
  datatype Pitch = Pitch(plane: nat, bitmap: nat)

  function Column(l: int, p: int, s: Pitch): seq<Op> {
    [Op(l, p), Op(l + s.plane, p + s.bitmap)]
  }

  function Square(l: int, p: int, s: Pitch): seq<Op> {
    [Op(l, p), Op(l + 1, p + 1), Op(l + s.plane, p + s.bitmap), Op(l + s.plane + 1, p + s.bitmap + 1)]
  }

  /** The columns of two rows, two by two, with `w` left. */
  function Squares(l: int, p: int, s: Pitch, w: int): seq<Op>
    decreases if w < 0 then 0 else w
  {
    if w >= 2 then Square(l, p, s) + Squares(l + 2, p + 2, s, w - 2)
    else if w != 0 then Column(l, p, s)
    else []
  }

  function RowPair(l: int, p: int, s: Pitch, x: nat, w: nat): seq<Op> {
    if x % 2 == 1 then Column(l, p, s) + Squares(l + 1, p + 1, s, w - 1) else Squares(l, p, s, w)
  }

  /** The rows, two by two, from the start of a line on with `h` left; the pointers move on from the last pixel. */
  function RowPairs(r: Rect, s: Pitch, l: int, p: int, h: int): seq<Op>
    decreases if h < 0 then 0 else h
  {
    var n := Visits(r.x, r.w);
    if h >= 2 then
      RowPair(l + r.x, p, s, r.x, r.w)
      + RowPairs(r, s, l + n + (s.plane + s.plane - r.w), p + n + (s.bitmap + s.bitmap - r.w), h - 2)
    else if h != 0 then Run(l + r.x, p, n)
    else []
  }

  /** All that blend_subrect does to the luma plane for a clipped rectangle. */
  function Walk(r: Rect, s: Pitch): seq<Op> {
    var l, n := Lines(r.y, s.plane), Visits(r.x, r.w);
    if r.y % 2 == 1 then
      Run(l + r.x, 0, n) + RowPairs(r, s, l + n + (s.plane - r.w), n + (s.bitmap - r.w), r.h - 1)
    else RowPairs(r, s, l, 0, r.h)
  }

  lemma FitConcat(size: nat, b: Bitmap, first: seq<Op>, second: seq<Op>)
    ensures AllFit(size, b, first + second) <==> AllFit(size, b, first) && AllFit(size, b, second)
  {
    hide OpFits;
    if AllFit(size, b, first + second) {
      forall k | 0 <= k < |first| ensures OpFits(size, b, first[k]) {
        assert (first + second)[k] == first[k];
      }
      forall k | 0 <= k < |second| ensures OpFits(size, b, second[k]) {
        assert (first + second)[|first| + k] == second[k];
      }
    }
  }

  lemma ApplyNone(plane: seq<Byte>, b: Bitmap)
    ensures AllFit(|plane|, b, []) && Apply(plane, b, []) == plane
  {
  }

  lemma ApplySnoc(plane: seq<Byte>, b: Bitmap, ops: seq<Op>, op: Op)
    requires AllFit(|plane|, b, ops) && OpFits(|plane|, b, op)
    ensures AllFit(|plane|, b, ops + [op])
    ensures Apply(plane, b, ops + [op]) == ApplyOne(Apply(plane, b, ops), b, op)
  {
    hide OpFits, ApplyOne;
    assert (ops + [op])[..|ops|] == ops;
  }

  lemma {:induction false} ApplyConcat(plane: seq<Byte>, b: Bitmap, first: seq<Op>, second: seq<Op>)
    requires AllFit(|plane|, b, first) && AllFit(|plane|, b, second)
    ensures AllFit(|plane|, b, first + second)
    ensures Apply(plane, b, first + second) == Apply(Apply(plane, b, first), b, second)
    decreases |second|
  {
    hide OpFits, ApplyOne, Apply;
    FitConcat(|plane|, b, first, second);
    if second == [] {
      assert first + second == first;
      ApplyNone(Apply(plane, b, first), b);
    } else {
      var most, last := second[..|second| - 1], second[|second| - 1];
      assert second == most + [last] && first + second == (first + most) + [last];
      ApplyConcat(plane, b, first, most);
      ApplySnoc(plane, b, first + most, last);
      ApplySnoc(Apply(plane, b, first), b, most, last);
    }
  }

  lemma ApplyTwo(plane: seq<Byte>, b: Bitmap, o: Op, p: Op)
    requires OpFits(|plane|, b, o) && OpFits(|plane|, b, p)
    ensures AllFit(|plane|, b, [o, p]) && Apply(plane, b, [o, p]) == ApplyOne(ApplyOne(plane, b, o), b, p)
  {
    hide OpFits, ApplyOne, Apply;
    ApplyNone(plane, b);
    ApplySnoc(plane, b, [], o);
    assert [] + [o] == [o] && [o] + [p] == [o, p];
    ApplySnoc(plane, b, [o], p);
  }

  /** av_clip */
  function Clip(a: int, low: int, high: int): int {
    if a < low then low else if a > high then high else a
  }

  function Clipped(x: int, y: int, w: int, h: int, imgw: nat, imgh: nat): Rect {
    var dstw, dsth := Clip(w, 0, imgw), Clip(h, 0, imgh);
    Rect(Clip(x, 0, imgw - dstw), Clip(y, 0, imgh - dsth), dstw, dsth)
  }

  /** The clipped rectangle lies in the picture, wherever the subtitle puts it: its size is the nearest
      that fits, and then its place. */
  lemma ClippedInside(x: int, y: int, w: int, h: int, imgw: nat, imgh: nat)
    ensures var r := Clipped(x, y, w, h, imgw, imgh);
      && r.x + r.w <= imgw && r.y + r.h <= imgh
      && (0 <= x && x + w <= imgw && 0 <= w ==> r.x == x && r.w == w)
      && (0 <= y && y + h <= imgh && 0 <= h ==> r.y == y && r.h == h)
      && (w >= 1 && imgw >= 1 ==> r.w >= 1) && (h >= 1 && imgh >= 1 ==> r.h >= 1)
    ensures var r := Clipped(x, y, w, h, imgw, imgh);
      && (forall n :: 0 <= n <= imgw ==> Distance(r.w, w) <= Distance(n, w))
      && (forall n :: 0 <= n <= imgh ==> Distance(r.h, h) <= Distance(n, h))
      && (forall n :: 0 <= n <= imgw - r.w ==> Distance(r.x, x) <= Distance(n, x))
      && (forall n :: 0 <= n <= imgh - r.h ==> Distance(r.y, y) <= Distance(n, y))
  {
  }

  function Distance(a: int, b: int): int {
    if a < b then b - a else a - b
  }

  lemma {:induction false} LinesProduct(rows: nat, wrap: nat)
    ensures Lines(rows, wrap) == rows * wrap
  {
    if rows > 0 {
      LinesProduct(rows - 1, wrap);
      assert rows * wrap == (rows - 1) * wrap + wrap;
    }
  }

  // ----- the code -----

  method BlendPixel(lum: array<Byte>, l: int, b: Bitmap, p: int)
    requires OpFits(lum.Length, b, Op(l, p))
    modifies lum
    ensures lum[..] == ApplyOne(old(lum[..]), b, Op(l, p))
  {
    lum[l] := Blend(lum[l], ColourAt(b, p));
  }

  lemma RunSnoc(plane: seq<Byte>, b: Bitmap, l: int, p: int, n: nat, k: nat)
    requires AllFit(|plane|, b, Run(l, p, n)) && k < n
    ensures OpFits(|plane|, b, Op(l + k, p + k))
    ensures AllFit(|plane|, b, Run(l, p, k)) && AllFit(|plane|, b, Run(l, p, k + 1))
    ensures Apply(plane, b, Run(l, p, k + 1)) == ApplyOne(Apply(plane, b, Run(l, p, k)), b, Op(l + k, p + k))
  {
    hide OpFits, ApplyOne, Apply;
    assert Run(l, p, n)[k] == Op(l + k, p + k);
    forall i | 0 <= i < k ensures OpFits(|plane|, b, Run(l, p, k)[i]) {
      assert Run(l, p, n)[i] == Run(l, p, k)[i];
    }
    assert Run(l, p, k + 1) == Run(l, p, k) + [Op(l + k, p + k)];
    ApplySnoc(plane, b, Run(l, p, k), Op(l + k, p + k));
  }

  /** One row by itself: the odd column first, then pairs, then what is left of a pair. */
  method BlendRow(lum: array<Byte>, l0: int, b: Bitmap, p0: int, r: Rect) returns (l: int, p: int)
    requires AllFit(lum.Length, b, Run(l0, p0, Visits(r.x, r.w)))
    modifies lum
    ensures lum[..] == Apply(old(lum[..]), b, Run(l0, p0, Visits(r.x, r.w)))
    ensures l == l0 + Visits(r.x, r.w) && p == p0 + Visits(r.x, r.w)
  {
    hide Run, OpFits, AllFit, Apply, ApplyOne;
    ghost var plane, n := lum[..], Visits(r.x, r.w);
    ApplyNone(plane, b);
    assert Run(l0, p0, 0) == [];
    l, p := l0, p0;
    if r.x % 2 == 1 {
      RunSnoc(plane, b, l0, p0, n, 0);
      BlendPixel(lum, l, b, p);
      l, p := l + 1, p + 1;
    }
    var w := r.w - r.x % 2;
    while w >= 2
      invariant l - l0 == p - p0 == r.w - w >= 0 && w >= if r.w == 0 && r.x % 2 == 1 then -1 else 0
      invariant AllFit(|plane|, b, Run(l0, p0, l - l0))
      invariant lum[..] == Apply(plane, b, Run(l0, p0, l - l0))
    {
      RunSnoc(plane, b, l0, p0, n, l - l0);
      BlendPixel(lum, l, b, p);
      RunSnoc(plane, b, l0, p0, n, l + 1 - l0);
      BlendPixel(lum, l + 1, b, p + 1);
      p := p + 2;
      l := l + 2;
      w := w - 2;
    }
    if w != 0 {
      RunSnoc(plane, b, l0, p0, n, l - l0);
      BlendPixel(lum, l, b, p);
      p := p + 1;
      l := l + 1;
    }
  }

  /** A column of two rows, as the odd column and the rest of a pair are done. */
  method BlendColumn(lum: array<Byte>, l: int, b: Bitmap, p: int, wrap: nat)
    requires AllFit(lum.Length, b, Column(l, p, Pitch(wrap, b.wrap)))
    modifies lum
    ensures lum[..] == Apply(old(lum[..]), b, Column(l, p, Pitch(wrap, b.wrap)))
  {
    hide OpFits, Apply, ApplyOne;
    ghost var ops := Column(l, p, Pitch(wrap, b.wrap));
    assert OpFits(lum.Length, b, ops[0]) && OpFits(lum.Length, b, ops[1]);
    ApplyTwo(lum[..], b, ops[0], ops[1]);
    BlendPixel(lum, l, b, p);
    BlendPixel(lum, l + wrap, b, p + b.wrap);
  }

  /** Two columns of two rows. */
  method BlendSquare(lum: array<Byte>, l: int, b: Bitmap, p: int, wrap: nat)
    requires AllFit(lum.Length, b, Square(l, p, Pitch(wrap, b.wrap)))
    modifies lum
    ensures lum[..] == Apply(old(lum[..]), b, Square(l, p, Pitch(wrap, b.wrap)))
  {
    hide OpFits, Apply, ApplyOne;
    ghost var plane, ops := lum[..], Square(l, p, Pitch(wrap, b.wrap));
    assert OpFits(|plane|, b, ops[0]) && OpFits(|plane|, b, ops[1]);
    assert OpFits(|plane|, b, ops[2]) && OpFits(|plane|, b, ops[3]);
    ApplyTwo(plane, b, ops[0], ops[1]);
    ApplyTwo(Apply(plane, b, [ops[0], ops[1]]), b, ops[2], ops[3]);
    assert ops == [ops[0], ops[1]] + [ops[2], ops[3]];
    ApplyConcat(plane, b, [ops[0], ops[1]], [ops[2], ops[3]]);
    BlendPixel(lum, l, b, p);
    BlendPixel(lum, l + 1, b, p + 1);
    BlendPixel(lum, l + wrap, b, p + b.wrap);
    BlendPixel(lum, l + wrap + 1, b, p + b.wrap + 1);
  }

  /** What was done, the next operations, and those to come. */
  lemma GoOn(plane: seq<Byte>, b: Bitmap, done: seq<Op>, next: seq<Op>, rest: seq<Op>)
    requires AllFit(|plane|, b, done + (next + rest))
    ensures AllFit(|plane|, b, done) && AllFit(|plane|, b, next) && AllFit(|plane|, b, done + next)
    ensures Apply(plane, b, done + next) == Apply(Apply(plane, b, done), b, next)
    ensures done + (next + rest) == (done + next) + rest
  {
    hide AllFit, Apply;
    FitConcat(|plane|, b, done, next + rest);
    FitConcat(|plane|, b, next, rest);
    FitConcat(|plane|, b, done, next);
    ApplyConcat(plane, b, done, next);
    assert done + (next + rest) == (done + next) + rest;
  }

  /** Two rows at once. */
  method BlendRowPair(lum: array<Byte>, l0: int, b: Bitmap, p0: int, r: Rect, wrap: nat) returns (l: int, p: int)
    requires AllFit(lum.Length, b, RowPair(l0, p0, Pitch(wrap, b.wrap), r.x, r.w))
    modifies lum
    ensures lum[..] == Apply(old(lum[..]), b, RowPair(l0, p0, Pitch(wrap, b.wrap), r.x, r.w))
    ensures l == l0 + Visits(r.x, r.w) && p == p0 + Visits(r.x, r.w)
  {
    hide OpFits, AllFit, Apply, Column, Square;
    ghost var plane, s := lum[..], Pitch(wrap, b.wrap);
    ghost var ops, done: seq<Op> := RowPair(l0, p0, s, r.x, r.w), [];
    ApplyNone(plane, b);
    l, p := l0, p0;
    assert ops == done + ops;
    if r.x % 2 == 1 {
      GoOn(plane, b, done, Column(l, p, s), Squares(l + 1, p + 1, s, r.w - 1));
      BlendColumn(lum, l, b, p, wrap);
      done := done + Column(l, p, s);
      l, p := l + 1, p + 1;
    }
    var w := r.w - r.x % 2;
    while w >= 2
      invariant l - l0 == p - p0 == r.w - w >= 0 && w >= if r.w == 0 && r.x % 2 == 1 then -1 else 0
      invariant ops == done + Squares(l, p, s, w)
      invariant AllFit(|plane|, b, done) && lum[..] == Apply(plane, b, done)
    {
      GoOn(plane, b, done, Square(l, p, s), Squares(l + 2, p + 2, s, w - 2));
      BlendSquare(lum, l, b, p, wrap);
      done := done + Square(l, p, s);
      p := p + 2;
      l := l + 2;
      w := w - 2;
    }
    if w != 0 {
      assert Column(l, p, s) + [] == Column(l, p, s);
      GoOn(plane, b, done, Column(l, p, s), []);
      BlendColumn(lum, l, b, p, wrap);
      p := p + 1;
      l := l + 1;
    } else {
      assert ops == done;
    }
  }

  // ----- when the walk does what it should -----

  /** The rectangle is not empty, or it is empty in a direction in which it starts at an even place. */
  predicate Right(r: Rect) {
    (r.w >= 1 && r.h >= 1) || (r.w == 0 && r.x % 2 == 0) || (r.h == 0 && r.y % 2 == 0)
  }

  lemma SegmentNone(plane: seq<Byte>, b: Bitmap, l: int, p: int)
    requires 0 <= l <= |plane| && Readable(b, p, 0)
    ensures Segment(plane, b, l, p, 0) == plane
  {
  }

  lemma SegmentSnoc(plane: seq<Byte>, b: Bitmap, l: int, p: int, n: nat)
    requires 0 <= l && l + n < |plane| && Readable(b, p, n + 1)
    ensures Segment(plane, b, l, p, n)[l + n] == plane[l + n]
    ensures Segment(plane, b, l, p, n + 1) == ApplyOne(Segment(plane, b, l, p, n), b, Op(l + n, p + n))
  {
    hide Blend;
  }

  lemma {:induction false} RunIsSegment(plane: seq<Byte>, b: Bitmap, l: int, p: int, n: nat)
    requires 0 <= l && l + n <= |plane| && Readable(b, p, n)
    ensures AllFit(|plane|, b, Run(l, p, n)) && Apply(plane, b, Run(l, p, n)) == Segment(plane, b, l, p, n)
    decreases n
  {
    hide Segment, ApplyOne, Apply;
    if n == 0 {
      SegmentNone(plane, b, l, p);
      ApplyNone(plane, b);
      assert Run(l, p, n) == [];
    } else {
      RunIsSegment(plane, b, l, p, n - 1);
      SegmentSnoc(plane, b, l, p, n - 1);
      RunSnoc(plane, b, l, p, n, n - 1);
    }
  }

  /** Two rows under way: `n` pixels of the upper and `m` of the lower. */
  function Pair(plane: seq<Byte>, b: Bitmap, wrap: nat, l: int, p: int, n: nat, m: nat): (r: seq<Byte>)
    requires 0 <= l && l + n <= |plane| && l + wrap + m <= |plane| && Readable(b, p, n) && Readable(b, p + b.wrap, m)
    ensures |r| == |plane|
  {
    Segment(Segment(plane, b, l, p, n), b, l + wrap, p + b.wrap, m)
  }

  lemma PairNone(plane: seq<Byte>, b: Bitmap, wrap: nat, l: int, p: int)
    requires 0 <= l && l + wrap <= |plane| && Readable(b, p, 0) && Readable(b, p + b.wrap, 0)
    ensures Pair(plane, b, wrap, l, p, 0, 0) == plane
  {
    SegmentNone(plane, b, l, p);
    SegmentNone(plane, b, l + wrap, p + b.wrap);
  }

  lemma UpperSnoc(plane: seq<Byte>, b: Bitmap, wrap: nat, l: int, p: int, n: nat, m: nat)
    requires 0 <= l && l + n < |plane| && l + wrap + m <= |plane| && n < wrap
    requires Readable(b, p, n + 1) && Readable(b, p + b.wrap, m)
    ensures Pair(plane, b, wrap, l, p, n + 1, m) == ApplyOne(Pair(plane, b, wrap, l, p, n, m), b, Op(l + n, p + n))
  {
    hide Blend;
    SegmentSnoc(plane, b, l, p, n);
  }

  lemma LowerSnoc(plane: seq<Byte>, b: Bitmap, wrap: nat, l: int, p: int, n: nat, m: nat)
    requires 0 <= l && l + n <= |plane| && l + wrap + m < |plane|
    requires Readable(b, p, n) && Readable(b, p + b.wrap, m + 1)
    ensures Pair(plane, b, wrap, l, p, n, m + 1)
            == ApplyOne(Pair(plane, b, wrap, l, p, n, m), b, Op(l + wrap + m, p + b.wrap + m))
  {
    hide Blend;
    SegmentSnoc(Segment(plane, b, l, p, n), b, l + wrap, p + b.wrap, m);
  }

  lemma ColumnStep(plane: seq<Byte>, b: Bitmap, wrap: nat, l: int, p: int, n: nat)
    requires 0 <= l && l + n < |plane| && l + wrap + n < |plane| && n < wrap
    requires Readable(b, p, n + 1) && Readable(b, p + b.wrap, n + 1)
    ensures AllFit(|plane|, b, Column(l + n, p + n, Pitch(wrap, b.wrap)))
    ensures Apply(Pair(plane, b, wrap, l, p, n, n), b, Column(l + n, p + n, Pitch(wrap, b.wrap)))
            == Pair(plane, b, wrap, l, p, n + 1, n + 1)
  {
    hide Pair, ApplyOne, Apply;
    UpperSnoc(plane, b, wrap, l, p, n, n);
    LowerSnoc(plane, b, wrap, l, p, n + 1, n);
    ApplyTwo(Pair(plane, b, wrap, l, p, n, n), b, Op(l + n, p + n), Op(l + n + wrap, p + n + b.wrap));
  }

  lemma SquareStep(plane: seq<Byte>, b: Bitmap, wrap: nat, l: int, p: int, n: nat)
    requires 0 <= l && l + n + 1 < |plane| && l + wrap + n + 1 < |plane| && n + 1 < wrap
    requires Readable(b, p, n + 2) && Readable(b, p + b.wrap, n + 2)
    ensures AllFit(|plane|, b, Square(l + n, p + n, Pitch(wrap, b.wrap)))
    ensures Apply(Pair(plane, b, wrap, l, p, n, n), b, Square(l + n, p + n, Pitch(wrap, b.wrap)))
            == Pair(plane, b, wrap, l, p, n + 2, n + 2)
  {
    hide Pair, ApplyOne, Apply;
    UpperSnoc(plane, b, wrap, l, p, n, n);
    UpperSnoc(plane, b, wrap, l, p, n + 1, n);
    LowerSnoc(plane, b, wrap, l, p, n + 2, n);
    LowerSnoc(plane, b, wrap, l, p, n + 2, n + 1);
    var now, ops := Pair(plane, b, wrap, l, p, n, n), Square(l + n, p + n, Pitch(wrap, b.wrap));
    ApplyTwo(now, b, ops[0], ops[1]);
    ApplyTwo(Apply(now, b, [ops[0], ops[1]]), b, ops[2], ops[3]);
    assert ops == [ops[0], ops[1]] + [ops[2], ops[3]];
    ApplyConcat(now, b, [ops[0], ops[1]], [ops[2], ops[3]]);
  }

  lemma {:induction false} SquaresArePair(plane: seq<Byte>, b: Bitmap, wrap: nat, l: int, p: int, n: nat, w: nat)
    requires 0 <= l && l + wrap + n + w <= |plane| && n + w <= wrap
    requires Readable(b, p, n + w) && Readable(b, p + b.wrap, n + w)
    ensures AllFit(|plane|, b, Squares(l + n, p + n, Pitch(wrap, b.wrap), w))
    ensures Apply(Pair(plane, b, wrap, l, p, n, n), b, Squares(l + n, p + n, Pitch(wrap, b.wrap), w))
            == Pair(plane, b, wrap, l, p, n + w, n + w)
    decreases w
  {
    hide Pair, Column, Square, OpFits, ApplyOne, Apply;
    var now, s := Pair(plane, b, wrap, l, p, n, n), Pitch(wrap, b.wrap);
    if w >= 2 {
      SquareStep(plane, b, wrap, l, p, n);
      SquaresArePair(plane, b, wrap, l, p, n + 2, w - 2);
      ApplyConcat(now, b, Square(l + n, p + n, s), Squares(l + n + 2, p + n + 2, s, w - 2));
    } else if w != 0 {
      ColumnStep(plane, b, wrap, l, p, n);
    } else {
      ApplyNone(now, b);
    }
  }

  /** Two rows at once are one row after the other, unless nothing is to be blended at an odd column. */
  lemma RowPairIsPair(plane: seq<Byte>, b: Bitmap, wrap: nat, l: int, p: int, x: nat, w: nat)
    requires 0 <= l && l + wrap + w <= |plane| && w <= wrap && (w >= 1 || x % 2 == 0)
    requires Readable(b, p, w) && Readable(b, p + b.wrap, w)
    ensures AllFit(|plane|, b, RowPair(l, p, Pitch(wrap, b.wrap), x, w))
    ensures Apply(plane, b, RowPair(l, p, Pitch(wrap, b.wrap), x, w)) == Pair(plane, b, wrap, l, p, w, w)
  {
    hide Pair, Column, Squares, OpFits, ApplyOne, Apply;
    PairNone(plane, b, wrap, l, p);
    var s := Pitch(wrap, b.wrap);
    if x % 2 == 1 {
      ColumnStep(plane, b, wrap, l, p, 0);
      SquaresArePair(plane, b, wrap, l, p, 1, w - 1);
      ApplyConcat(plane, b, Column(l, p, s), Squares(l + 1, p + 1, s, w - 1));
    } else {
      SquaresArePair(plane, b, wrap, l, p, 0, w);
    }
  }

  /** Two rows of the reference are one step of the walk. */
  lemma PairIsRows(plane: seq<Byte>, b: Bitmap, r: Rect, wrap: nat, i: nat)
    requires Fits(|plane|, b, r, wrap) && i + 2 <= r.h
    ensures Left(r, wrap, i) + r.w <= |plane| && Left(r, wrap, i) + wrap + r.w <= |plane|
    ensures Readable(b, Lines(i, b.wrap), r.w) && Readable(b, Lines(i, b.wrap) + b.wrap, r.w)
    ensures Rows(plane, b, r, wrap, i + 2)
            == Pair(Rows(plane, b, r, wrap, i), b, wrap, Left(r, wrap, i), Lines(i, b.wrap), r.w, r.w)
  {
    hide Segment;
    RowFits(|plane|, b, r, wrap, i);
    RowFits(|plane|, b, r, wrap, i + 1);
    LinesStep(r.y + i, wrap);
    LinesStep(i, b.wrap);
  }

  /** The walk from row `i` on is the rest of the reference. */
  lemma {:induction false} RowPairsAreRows(plane: seq<Byte>, b: Bitmap, r: Rect, wrap: nat, i: nat)
    requires Fits(|plane|, b, r, wrap) && r.w >= 1 && i <= r.h
    ensures var ops := RowPairs(r, Pitch(wrap, b.wrap), Lines(r.y + i, wrap), Lines(i, b.wrap), r.h - i);
      AllFit(|plane|, b, ops) && Apply(Rows(plane, b, r, wrap, i), b, ops) == Rows(plane, b, r, wrap, r.h)
    decreases r.h - i
  {
    hide Lines, Segment, Run, RowPair, OpFits, ApplyOne, Apply, Fits;
    var now, s := Rows(plane, b, r, wrap, i), Pitch(wrap, b.wrap);
    var l, p := Left(r, wrap, i), Lines(i, b.wrap);
    if i + 2 <= r.h {
      LinesStep(r.y + i, wrap);
      LinesStep(r.y + i + 1, wrap);
      LinesStep(i, b.wrap);
      LinesStep(i + 1, b.wrap);
      PairIsRows(plane, b, r, wrap, i);
      FitsNarrow(|plane|, b, r, wrap);
      RowPairIsPair(now, b, wrap, l, p, r.x, r.w);
      RowPairsAreRows(plane, b, r, wrap, i + 2);
      ApplyConcat(now, b, RowPair(l, p, s, r.x, r.w),
                  RowPairs(r, s, Lines(r.y + i + 2, wrap), Lines(i + 2, b.wrap), r.h - i - 2));
    } else if i < r.h {
      RowFits(|plane|, b, r, wrap, i);
      RunIsSegment(now, b, l, p, r.w);
    } else {
      ApplyNone(now, b);
    }
  }

  lemma FitsNarrow(size: nat, b: Bitmap, r: Rect, wrap: nat)
    requires Fits(size, b, r, wrap)
    ensures r.x + r.w <= wrap
  {
  }

  /** An extent that is empty at an even place leaves nothing to do. */
  lemma {:induction false} NoColumns(r: Rect, s: Pitch, l: int, p: int, h: int)
    requires r.w == 0 && r.x % 2 == 0
    ensures RowPairs(r, s, l, p, h) == []
    decreases if h < 0 then 0 else h
  {
    if h >= 2 {
      NoColumns(r, s, l + (s.plane + s.plane), p + (s.bitmap + s.bitmap), h - 2);
    }
  }

  lemma {:induction false} NothingToBlend(plane: seq<Byte>, b: Bitmap, r: Rect, wrap: nat, rows: nat)
    requires Fits(|plane|, b, r, wrap) && rows <= r.h && r.w == 0
    ensures Rows(plane, b, r, wrap, rows) == plane
    decreases rows
  {
    hide Left, Lines;
    if rows > 0 {
      RowFits(|plane|, b, r, wrap, rows - 1);
      NothingToBlend(plane, b, r, wrap, rows - 1);
      SegmentNone(plane, b, Left(r, wrap, rows - 1), Lines(rows - 1, b.wrap));
    }
  }

  lemma NothingYet(plane: seq<Byte>, b: Bitmap, r: Rect, wrap: nat)
    requires Fits(|plane|, b, r, wrap)
    ensures Rows(plane, b, r, wrap, 0) == plane
  {
  }

  lemma FirstRow(plane: seq<Byte>, b: Bitmap, r: Rect, wrap: nat)
    requires Fits(|plane|, b, r, wrap) && r.h >= 1
    ensures Left(r, wrap, 0) + r.w <= |plane| && Readable(b, 0, r.w)
    ensures Rows(plane, b, r, wrap, 1) == Segment(plane, b, Left(r, wrap, 0), 0, r.w)
  {
    hide Segment;
    LinesNone(b.wrap);
    RowFits(|plane|, b, r, wrap, 0);
    NothingYet(plane, b, r, wrap);
  }

  /** From an odd first row on: that row by itself, then the pairs. */
  lemma OddStartIsRows(plane: seq<Byte>, b: Bitmap, r: Rect, wrap: nat)
    requires Fits(|plane|, b, r, wrap) && r.w >= 1 && r.h >= 1 && r.y % 2 == 1
    ensures AllFit(|plane|, b, Walk(r, Pitch(wrap, b.wrap)))
    ensures Apply(plane, b, Walk(r, Pitch(wrap, b.wrap))) == Rows(plane, b, r, wrap, r.h)
  {
    hide Segment, Run, RowPairs, OpFits, AllFit, ApplyOne, Apply, Fits, Lines, Rows;
    var s, l := Pitch(wrap, b.wrap), Left(r, wrap, 0);
    LinesStep(r.y, wrap);
    LinesStep(0, b.wrap);
    LinesNone(b.wrap);
    FirstRow(plane, b, r, wrap);
    RunIsSegment(plane, b, l, 0, r.w);
    RowPairsAreRows(plane, b, r, wrap, 1);
    var rest := RowPairs(r, s, Lines(r.y + 1, wrap), Lines(1, b.wrap), r.h - 1);
    assert Walk(r, s) == Run(l, 0, r.w) + rest;
    ApplyConcat(plane, b, Run(l, 0, r.w), rest);
  }

  /** The walk stays inside and does what the reference does. */
  lemma WalkIsRows(plane: seq<Byte>, b: Bitmap, r: Rect, wrap: nat)
    requires Fits(|plane|, b, r, wrap) && Right(r)
    ensures AllFit(|plane|, b, Walk(r, Pitch(wrap, b.wrap)))
    ensures Apply(plane, b, Walk(r, Pitch(wrap, b.wrap))) == Rows(plane, b, r, wrap, r.h)
  {
    hide Segment, Run, RowPairs, OpFits, AllFit, ApplyOne, Apply, Fits, Rows;
    NothingYet(plane, b, r, wrap);
    var s := Pitch(wrap, b.wrap);
    if r.w == 0 && r.x % 2 == 0 {
      EmptyRow(r, s);
      ApplyNone(plane, b);
      NothingToBlend(plane, b, r, wrap, r.h);
    } else if r.h == 0 && r.y % 2 == 0 {
      NoRows(r, s);
      ApplyNone(plane, b);
    } else if r.y % 2 == 0 {
      LinesNone(b.wrap);
      RowPairsAreRows(plane, b, r, wrap, 0);
    } else {
      OddStartIsRows(plane, b, r, wrap);
    }
  }

  lemma EmptyRow(r: Rect, s: Pitch)
    requires r.w == 0 && r.x % 2 == 0
    ensures Walk(r, s) == []
  {
    var l := Lines(r.y, s.plane);
    NoColumns(r, s, l, 0, r.h);
    NoColumns(r, s, l + s.plane, s.bitmap, r.h - 1);
  }

  lemma NoRows(r: Rect, s: Pitch)
    requires r.h == 0 && r.y % 2 == 0
    ensures Walk(r, s) == []
  {
  }

  // ----- and when it does not -----

  /** Nothing is blended before the start of plane or bitmap. */
  predicate Forward(ops: seq<Op>) {
    forall k :: 0 <= k < |ops| ==> ops[k].l >= 0 && ops[k].p >= 0
  }

  lemma {:induction false} SquaresForward(l: nat, p: nat, s: Pitch, w: int)
    ensures Forward(Squares(l, p, s, w))
    decreases if w < 0 then 0 else w
  {
    if w >= 2 {
      SquaresForward(l + 2, p + 2, s, w - 2);
    }
  }

  lemma RowPairForward(l: nat, p: nat, s: Pitch, x: nat, w: nat)
    ensures Forward(RowPair(l, p, s, x, w))
  {
    hide Squares;
    SquaresForward(l, p, s, w);
    SquaresForward(l + 1, p + 1, s, w - 1);
  }

  lemma {:induction false} RowPairsForward(r: Rect, s: Pitch, l: nat, p: nat, h: int)
    requires r.w <= s.plane
    ensures Forward(RowPairs(r, s, l, p, h))
    decreases if h < 0 then 0 else h
  {
    hide RowPair;
    RowPairForward(l + r.x, p, s, r.x, r.w);
    var n := Visits(r.x, r.w);
    if h >= 2 {
      RowPairsForward(r, s, l + n + (s.plane + s.plane - r.w), p + n + (s.bitmap + s.bitmap - r.w), h - 2);
    }
  }

  lemma WalkForward(r: Rect, s: Pitch)
    requires r.w <= s.plane
    ensures Forward(Walk(r, s))
  {
    hide RowPairs;
    var l, n := Lines(r.y, s.plane), Visits(r.x, r.w);
    RowPairsForward(r, s, l, 0, r.h);
    RowPairsForward(r, s, l + n + (s.plane - r.w), n + (s.bitmap - r.w), r.h - 1);
  }

  lemma Bounded(ops: seq<Op>) returns (top: nat)
    ensures forall k :: 0 <= k < |ops| ==> ops[k].l < top && ops[k].p < top
  {
    top := 0;
    for i := 0 to |ops|
      invariant forall k :: 0 <= k < i ==> ops[k].l < top && ops[k].p < top
    {
      if top <= ops[i].l { top := ops[i].l + 1; }
      if top <= ops[i].p { top := ops[i].p + 1; }
    }
  }

  /** A bitmap of one opaque white. */
  function White(n: nat, wrap: nat): Bitmap {
    Bitmap(seq(n, _ => 0), wrap, seq(256, _ => Colour(255, 0, 0, 255)))
  }

  /** What it is blended into turns white wherever it is blended. */
  lemma {:induction false} AllWhite(plane: seq<Byte>, n: nat, wrap: nat, ops: seq<Op>)
    requires AllFit(|plane|, White(n, wrap), ops)
    ensures forall k :: 0 <= k < |ops| ==> Apply(plane, White(n, wrap), ops)[ops[k].l] == 255
    decreases |ops|
  {
    if ops != [] {
      var most, last := ops[..|ops| - 1], ops[|ops| - 1];
      AllWhite(plane, n, wrap, most);
      assert Blend(Apply(plane, White(n, wrap), most)[last.l], Colour(255, 0, 0, 255)) == 255;
    }
  }

  lemma WalkStarts(r: Rect, s: Pitch)
    requires !Right(r)
    ensures Walk(r, s) != []
  {
  }

  /** For every plane and every bitmap of these line sizes the walk ends with what the reference gives. */
  ghost predicate WalkRight(r: Rect, s: Pitch) {
    forall plane: seq<Byte>, b: Bitmap | b.wrap == s.bitmap && Fits(|plane|, b, r, s.plane)
        && AllFit(|plane|, b, Walk(r, s)) :: Apply(plane, b, Walk(r, s)) == Rows(plane, b, r, s.plane, r.h)
  }

  /** A plane and a bitmap in which the walk of a rectangle at the wrong place blends what it should not. */
  lemma StrayPixels(r: Rect, s: Pitch) returns (plane: seq<Byte>, b: Bitmap)
    requires r.x + r.w <= s.plane && !Right(r)
    ensures b.wrap == s.bitmap && Fits(|plane|, b, r, s.plane) && AllFit(|plane|, b, Walk(r, s))
    ensures Rows(plane, b, r, s.plane, r.h) == plane != Apply(plane, b, Walk(r, s))
  {
    hide Walk, Apply, Rows, Lines;
    var ops := Walk(r, s);
    WalkForward(r, s);
    WalkStarts(r, s);
    var top := Bounded(ops);
    plane := seq(top + Lines(r.y + r.h, s.plane) + s.plane, _ => 0);
    b := White(top + Lines(r.h, s.bitmap) + r.w, s.bitmap);
    forall row | 0 <= row < r.h
      ensures Left(r, s.plane, row) + r.w <= |plane| && Readable(b, Lines(row, s.bitmap), r.w)
    {
      LinesMono(r.y + row, r.y + r.h, s.plane);
      LinesMono(row, r.h, s.bitmap);
    }
    AllWhite(plane, |b.pixels|, s.bitmap, ops);
    assert plane[ops[0].l] == 0;
    if r.w == 0 {
      NothingToBlend(plane, b, r, s.plane, r.h);
    } else {
      NothingYet(plane, b, r, s.plane);
    }
  }

  /** Exactly for which rectangles the code is right on every plane. */
  lemma WalkRightIff(r: Rect, s: Pitch)
    requires r.x + r.w <= s.plane
    ensures WalkRight(r, s) <==> Right(r)
  {
    hide Right, Walk, Apply, Rows, Fits, AllFit;
    if Right(r) {
      forall plane: seq<Byte>, b: Bitmap | b.wrap == s.bitmap && Fits(|plane|, b, r, s.plane)
          && AllFit(|plane|, b, Walk(r, s))
        ensures Apply(plane, b, Walk(r, s)) == Rows(plane, b, r, s.plane, r.h)
      {
        WalkIsRows(plane, b, r, s.plane);
      }
    } else {
      var plane, b := StrayPixels(r, s);
    }
  }

  /** Without height at an odd row the code blends what it would for a height of two. */
  lemma NoHeightAtOddRow(r: Rect, s: Pitch)
    requires r.h == 0 && r.y % 2 == 1
    ensures Walk(r, s) == Walk(r.(h := 2), s) && |Walk(r, s)| == 2 * Visits(r.x, r.w)
  {
  }

  /** Nothing is to be blended at column 1, and columns 1 and 2 turn white. */
  lemma EmptyAtOddColumn()
    ensures var r, b := Clipped(1, 0, 0, 1, 4, 1), White(2, 2);
      && Fits(4, b, r, 4) && AllFit(4, b, Walk(r, Pitch(4, 2)))
      && Apply([0, 0, 0, 0], b, Walk(r, Pitch(4, 2))) == [0, 255, 255, 0]
      && Rows([0, 0, 0, 0], b, r, 4, r.h) == [0, 0, 0, 0]
  {
    var r, b: Bitmap, plane: seq<Byte> := Clipped(1, 0, 0, 1, 4, 1), White(2, 2), [0, 0, 0, 0];
    assert Walk(r, Pitch(4, 2)) == [Op(1, 0), Op(2, 1)];
    ApplyTwo(plane, b, Op(1, 0), Op(2, 1));
    NothingToBlend(plane, b, r, 4, r.h);
  }

  /** What comes first with `h` rows left. */
  lemma PairsFirst(r: Rect, s: Pitch, l: int, p: int, h: int)
    ensures var n := Visits(r.x, r.w);
      RowPairs(r, s, l, p, h)
      == if h >= 2 then
           RowPair(l + r.x, p, s, r.x, r.w)
           + RowPairs(r, s, l + n + (s.plane + s.plane - r.w), p + n + (s.bitmap + s.bitmap - r.w), h - 2)
         else if h != 0 then Run(l + r.x, p, n)
         else []
  {
    hide RowPair, Run, Visits;
  }

  /** blend_subrect, luma. */
  method BlendSubrect(lum: array<Byte>, wrap: nat, b: Bitmap, x: int, y: int, w: int, h: int, imgw: nat, imgh: nat)
    requires AllFit(lum.Length, b, Walk(Clipped(x, y, w, h, imgw, imgh), Pitch(wrap, b.wrap)))
    modifies lum
    ensures lum[..] == Apply(old(lum[..]), b, Walk(Clipped(x, y, w, h, imgw, imgh), Pitch(wrap, b.wrap)))
    ensures var r := Clipped(x, y, w, h, imgw, imgh);
      Right(r) && Fits(lum.Length, b, r, wrap) ==> lum[..] == Rows(old(lum[..]), b, r, wrap, r.h)
  {
    hide OpFits, AllFit, Apply, Run, RowPair, RowPairs, Clipped, Visits, Lines, Fits, Rows, Right;
    ghost var plane, s := lum[..], Pitch(wrap, b.wrap);
    var r := Clipped(x, y, w, h, imgw, imgh);
    ghost var ops, done: seq<Op> := Walk(r, s), [];
    ghost var n := Visits(r.x, r.w);
    ApplyNone(plane, b);
    LinesProduct(r.y, wrap);
    var l, p := r.y * wrap, 0;
    assert ops == done + ops;
    if r.y % 2 == 1 {
      GoOn(plane, b, done, Run(l + r.x, p, n),
           RowPairs(r, s, l + n + (wrap - r.w), p + n + (b.wrap - r.w), r.h - 1));
      l := l + r.x;
      done := done + Run(l, p, n);
      l, p := BlendRow(lum, l, b, p, r);
      p := p + (b.wrap - r.w);
      l := l + (wrap - r.w - r.x);
    }
    var rest := r.h - r.y % 2;
    while rest >= 2
      invariant ops == done + RowPairs(r, s, l, p, rest)
      invariant AllFit(|plane|, b, done) && lum[..] == Apply(plane, b, done)
    {
      PairsFirst(r, s, l, p, rest);
      GoOn(plane, b, done, RowPair(l + r.x, p, s, r.x, r.w),
           RowPairs(r, s, l + n + (wrap + wrap - r.w), p + n + (b.wrap + b.wrap - r.w), rest - 2));
      l := l + r.x;
      done := done + RowPair(l, p, s, r.x, r.w);
      l, p := BlendRowPair(lum, l, b, p, r, wrap);
      p := p + (b.wrap + (b.wrap - r.w));
      l := l + (wrap + (wrap - r.w - r.x));
      rest := rest - 2;
    }
    if rest != 0 {
      PairsFirst(r, s, l, p, rest);
      assert Run(l + r.x, p, n) + [] == Run(l + r.x, p, n);
      GoOn(plane, b, done, Run(l + r.x, p, n), []);
      l := l + r.x;
      l, p := BlendRow(lum, l, b, p, r);
    } else {
      PairsFirst(r, s, l, p, rest);
      assert ops == done;
    }
    if Right(r) && Fits(|plane|, b, r, wrap) {
      WalkIsRows(plane, b, r, wrap);
    }
  }
}
