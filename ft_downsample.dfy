/**
 * The FreeType backend's `downsample_bitmap`: a colour glyph rendered larger
 * than wanted is shrunk by the fixup factor with a box filter.  Every output
 * pixel is the mean of a rectangle of source pixels.
 *
 * The factor is the rational `num / den`.  `(n as f64 * factor) as usize` is
 * `n * num / den` rounded down, and `(k as f64 * step).round() as usize` with
 * `step = den / num` is the integer nearest `k * den / num`, halves rounded up.
 */
module FtDownsample {
  import opened Crossfont
  import opened Pixels

  // ---------------------------------------------------------------------
  // Target size and source rectangle edges
  // ---------------------------------------------------------------------

  /** `(n as f64 * factor) as usize`: the scaled size, rounded down. */
  function Target(n: nat, num: nat, den: nat): nat
    requires den > 0
  {
    n * num / den
  }

  /** `(k as f64 * step).round() as usize`: where output line or column `k` starts in the source. */
  function Edge(k: nat, num: nat, den: nat): nat
    requires num > 0
  {
    (2 * k * den + num) / (2 * num)
  }

  /** A product with a positive factor keeps the order of the other factor. */
  lemma {:induction false} MulLess(x: int, y: int, n: nat)
    requires n > 0 && x * n < y * n
    ensures x < y
  {
    assert (y - x) * n > 0;
  }

  /** `Target` is the largest `t` with `t * den <= n * num`. */
  lemma {:induction false} TargetFloor(n: nat, num: nat, den: nat)
    requires den > 0
    ensures Target(n, num, den) * den <= n * num < (Target(n, num, den) + 1) * den
  {
  }

  /** `Edge` is the integer nearest `k * den / num`, a half rounded up. */
  lemma {:induction false} EdgeNearest(k: nat, num: nat, den: nat)
    requires num > 0
    ensures 2 * num * Edge(k, num, den) <= 2 * k * den + num < 2 * num * (Edge(k, num, den) + 1)
  {
  }

  /** A step longer than one source pixel starts every output pixel on a new source pixel. */
  lemma {:induction false} EdgeStep(k: nat, num: nat, den: nat)
    requires 0 < num < den
    ensures Edge(k, num, den) < Edge(k + 1, num, den)
  {
    var e, f := Edge(k, num, den), Edge(k + 1, num, den);
    EdgeNearest(k, num, den);
    EdgeNearest(k + 1, num, den);
    MulLess(e + 1, f + 1, 2 * num);
  }

  lemma {:induction false} EdgeMonotone(j: nat, k: nat, num: nat, den: nat)
    requires 0 < num < den && j <= k
    ensures Edge(j, num, den) <= Edge(k, num, den)
    decreases k - j
  {
    if j < k {
      EdgeStep(j, num, den);
      EdgeMonotone(j + 1, k, num, den);
    }
  }

  /** The last output pixel ends inside the source: the edge of `Target(n)` is at most `n`. */
  lemma {:induction false} EdgeWithin(n: nat, num: nat, den: nat)
    requires 0 < num <= den
    ensures Edge(Target(n, num, den), num, den) <= n
  {
    var t := Target(n, num, den);
    var e := Edge(t, num, den);
    TargetFloor(n, num, den);
    EdgeNearest(t, num, den);
    MulLess(e, n + 1, 2 * num);
  }

  // ---------------------------------------------------------------------
  // Sums over source rectangles
  // ---------------------------------------------------------------------

  /** Channel `ch` of source pixel (`l`, `c`) of an RGBA buffer `w` pixels wide. */
  function Sample(buf: seq<byte>, w: nat, l: nat, c: nat, ch: nat): byte
    requires ch < 4 && l * (4 * w) + 4 * c + 4 <= |buf|
  {
    MulMonotone(0, l, 4 * w);
    buf[l * (4 * w) + 4 * c + ch]
  }

  /** Sum of channel `ch` over columns `c0 .. c1` of source line `l`. */
  function LineSum(buf: seq<byte>, w: nat, l: nat, ch: nat, c0: nat, c1: nat): nat
    requires ch < 4 && c0 <= c1 && l * (4 * w) + 4 * c1 <= |buf|
    decreases c1 - c0
  {
    if c1 == c0 then 0 else LineSum(buf, w, l, ch, c0, c1 - 1) + Sample(buf, w, l, c1 - 1, ch) as nat
  }

  /** Sum of channel `ch` over lines `l0 .. l1` and columns `c0 .. c1`. */
  function RectSum(buf: seq<byte>, w: nat, ch: nat, l0: nat, l1: nat, c0: nat, c1: nat): nat
    requires ch < 4 && l0 <= l1 && c0 <= c1 && Fits(l1, 4 * w, 4 * c1, |buf|)
    decreases l1 - l0
  {
    if l1 == l0 then 0
    else
      FitsFewer(l1, 4 * w, 4 * c1, |buf|);
      RectSum(buf, w, ch, l0, l1 - 1, c0, c1) + LineSum(buf, w, l1 - 1, ch, c0, c1)
  }

  /** Every sample of channel `ch` in the rectangle lies in `lo .. hi`. */
  ghost predicate SamplesWithin(buf: seq<byte>, w: nat, ch: nat, l0: nat, l1: nat, c0: nat, c1: nat, lo: int, hi: int)
    requires ch < 4 && Fits(l1, 4 * w, 4 * c1, |buf|)
  {
    forall l, c :: l0 <= l < l1 && c0 <= c < c1 && l * (4 * w) + 4 * c + 4 <= |buf| ==>
      lo <= Sample(buf, w, l, c, ch) as int <= hi
  }

  /** `k` copies of `x` added up: a product built without multiplication. */
  function Rep(x: int, k: nat): int
    decreases k
  {
    if k == 0 then 0 else Rep(x, k - 1) + x
  }

  lemma {:induction false} RepIsProduct(x: int, k: nat)
    ensures Rep(x, k) == x * k
    decreases k
  {
    if k > 0 {
      RepIsProduct(x, k - 1);
      assert x * k == x * (k - 1) + x;
    }
  }

  lemma {:induction false} LineSumBounds(buf: seq<byte>, w: nat, l: nat, ch: nat, c0: nat, c1: nat, lo: int, hi: int)
    requires ch < 4 && c0 <= c1 && l * (4 * w) + 4 * c1 <= |buf|
    requires forall c :: c0 <= c < c1 ==> lo <= Sample(buf, w, l, c, ch) as int <= hi
    ensures Rep(lo, c1 - c0) <= LineSum(buf, w, l, ch, c0, c1) <= Rep(hi, c1 - c0)
    decreases c1 - c0
  {
    if c1 > c0 {
      LineSumBounds(buf, w, l, ch, c0, c1 - 1, lo, hi);
    }
  }

  /** A line of the rectangle is within the rectangle's bounds. */
  lemma {:induction false} LineWithin(buf: seq<byte>, w: nat, ch: nat, l0: nat, l1: nat, c0: nat, c1: nat, lo: int, hi: int, l: nat)
    requires ch < 4 && l0 <= l < l1 && Fits(l1, 4 * w, 4 * c1, |buf|)
    requires SamplesWithin(buf, w, ch, l0, l1, c0, c1, lo, hi)
    ensures l * (4 * w) + 4 * c1 <= |buf|
    ensures forall c :: c0 <= c < c1 ==> lo <= Sample(buf, w, l, c, ch) as int <= hi
  {
    RowFits(l, l1 - 1, 4 * w, 4 * c1, |buf|);
  }

  /** Samples within `lo .. hi` sum, over the rectangle, to between its area times `lo` and times `hi`. */
  lemma {:induction false} RectSumBounds(buf: seq<byte>, w: nat, ch: nat, l0: nat, l1: nat, c0: nat, c1: nat, lo: int, hi: int)
    requires ch < 4 && l0 <= l1 && c0 <= c1 && Fits(l1, 4 * w, 4 * c1, |buf|)
    requires SamplesWithin(buf, w, ch, l0, l1, c0, c1, lo, hi)
    ensures lo * ((l1 - l0) * (c1 - c0)) <= RectSum(buf, w, ch, l0, l1, c0, c1) <= hi * ((l1 - l0) * (c1 - c0))
  {
    var m, n := l1 - l0, c1 - c0;
    RectSumRep(buf, w, ch, l0, l1, c0, c1, lo, hi);
    RepIsProduct(lo, n);
    RepIsProduct(lo * n, m);
    RepIsProduct(hi, n);
    RepIsProduct(hi * n, m);
    MulAssoc(lo, n, m);
    MulAssoc(hi, n, m);
  }

  lemma {:induction false} RectSumRep(buf: seq<byte>, w: nat, ch: nat, l0: nat, l1: nat, c0: nat, c1: nat, lo: int, hi: int)
    requires ch < 4 && l0 <= l1 && c0 <= c1 && Fits(l1, 4 * w, 4 * c1, |buf|)
    requires SamplesWithin(buf, w, ch, l0, l1, c0, c1, lo, hi)
    ensures Rep(Rep(lo, c1 - c0), l1 - l0) <= RectSum(buf, w, ch, l0, l1, c0, c1) <= Rep(Rep(hi, c1 - c0), l1 - l0)
    decreases l1 - l0
  {
    if l1 > l0 {
      SamplesWithinFewer(buf, w, ch, l0, l1, c0, c1, lo, hi);
      RectSumRep(buf, w, ch, l0, l1 - 1, c0, c1, lo, hi);
      LastLineBounds(buf, w, ch, l0, l1, c0, c1, lo, hi);
      RectSumLast(buf, w, ch, l0, l1, c0, c1);
    }
  }

  /** The rectangle's sum is the sum above its last line plus that line's. */
  lemma {:induction false} RectSumLast(buf: seq<byte>, w: nat, ch: nat, l0: nat, l1: nat, c0: nat, c1: nat)
    requires ch < 4 && l0 < l1 && c0 <= c1 && Fits(l1, 4 * w, 4 * c1, |buf|)
    ensures Fits(l1 - 1, 4 * w, 4 * c1, |buf|) && (l1 - 1) * (4 * w) + 4 * c1 <= |buf|
    ensures RectSum(buf, w, ch, l0, l1, c0, c1) == RectSum(buf, w, ch, l0, l1 - 1, c0, c1) + LineSum(buf, w, l1 - 1, ch, c0, c1)
  {
    FitsFewer(l1, 4 * w, 4 * c1, |buf|);
  }

  /** The last line of the rectangle is within the rectangle's bounds. */
  lemma {:induction false} LastLineBounds(buf: seq<byte>, w: nat, ch: nat, l0: nat, l1: nat, c0: nat, c1: nat, lo: int, hi: int)
    requires ch < 4 && l0 < l1 && c0 <= c1 && Fits(l1, 4 * w, 4 * c1, |buf|)
    requires SamplesWithin(buf, w, ch, l0, l1, c0, c1, lo, hi)
    ensures (l1 - 1) * (4 * w) + 4 * c1 <= |buf|
    ensures Rep(lo, c1 - c0) <= LineSum(buf, w, l1 - 1, ch, c0, c1) <= Rep(hi, c1 - c0)
  {
    LineWithin(buf, w, ch, l0, l1, c0, c1, lo, hi, l1 - 1);
    LineSumBounds(buf, w, l1 - 1, ch, c0, c1, lo, hi);
  }

  lemma {:induction false} SamplesWithinFewer(buf: seq<byte>, w: nat, ch: nat, l0: nat, l1: nat, c0: nat, c1: nat, lo: int, hi: int)
    requires ch < 4 && l0 < l1 && Fits(l1, 4 * w, 4 * c1, |buf|)
    requires SamplesWithin(buf, w, ch, l0, l1, c0, c1, lo, hi)
    ensures Fits(l1 - 1, 4 * w, 4 * c1, |buf|)
    ensures SamplesWithin(buf, w, ch, l0, l1 - 1, c0, c1, lo, hi)
  {
    FitsFewer(l1, 4 * w, 4 * c1, |buf|);
  }

  lemma {:induction false} MulAssoc(x: int, n: int, m: int)
    ensures x * n * m == x * (m * n)
  {
    var p := m * n;
    assert p == n * m;
  }

  lemma {:induction false} MulSucc(a: int, b: int, n: int)
    requires b == a + 1
    ensures b * n == a * n + n
  {
  }

  /** Bytes are in `0 .. 255`. */
  lemma {:induction false} SamplesAreBytes(buf: seq<byte>, w: nat, ch: nat, l0: nat, l1: nat, c0: nat, c1: nat)
    requires ch < 4 && Fits(l1, 4 * w, 4 * c1, |buf|)
    ensures SamplesWithin(buf, w, ch, l0, l1, c0, c1, 0, 255)
  {
  }

  /** A mean of values in `lo .. hi` lies in `lo .. hi`. */
  lemma {:induction false} DivBetween(s: int, n: nat, lo: int, hi: int)
    requires n > 0 && lo * n <= s <= hi * n
    ensures lo <= s / n <= hi
  {
    var q := s / n;
    assert q * n <= s < (q + 1) * n;
    MulLess(lo, q + 1, n);
    MulLess(q, hi + 1, n);
  }

  /** `sum / count` on unsigned integers. */
  function Average(sum: nat, count: nat): nat
    requires count > 0
  {
    sum / count
  }

  /** `r / pixels_picked`: the truncating mean of channel `ch` over a non-empty rectangle. */
  function Mean(buf: seq<byte>, w: nat, ch: nat, l0: nat, l1: nat, c0: nat, c1: nat): (m: nat)
    requires ch < 4 && l0 < l1 && c0 < c1 && Fits(l1, 4 * w, 4 * c1, |buf|)
    ensures m <= 255
  {
    var n := (l1 - l0) * (c1 - c0);
    MulMonotone(1, l1 - l0, c1 - c0);
    SamplesAreBytes(buf, w, ch, l0, l1, c0, c1);
    RectSumBounds(buf, w, ch, l0, l1, c0, c1, 0, 255);
    DivBetween(RectSum(buf, w, ch, l0, l1, c0, c1), n, 0, 255);
    Average(RectSum(buf, w, ch, l0, l1, c0, c1), n)
  }

  /** The mean of a rectangle lies between the least and the greatest of its samples. */
  lemma {:induction false} MeanWithin(buf: seq<byte>, w: nat, ch: nat, l0: nat, l1: nat, c0: nat, c1: nat, lo: int, hi: int)
    requires ch < 4 && l0 < l1 && c0 < c1 && Fits(l1, 4 * w, 4 * c1, |buf|)
    requires SamplesWithin(buf, w, ch, l0, l1, c0, c1, lo, hi)
    ensures lo <= Mean(buf, w, ch, l0, l1, c0, c1) <= hi
  {
    MulMonotone(1, l1 - l0, c1 - c0);
    RectSumBounds(buf, w, ch, l0, l1, c0, c1, lo, hi);
    DivBetween(RectSum(buf, w, ch, l0, l1, c0, c1), (l1 - l0) * (c1 - c0), lo, hi);
  }

  /** `(x / pixels_picked) as u8`: the low byte. */
  function ToU8(x: nat): (b: byte)
    ensures x < 256 ==> b as int == x
  {
    (x % 256) as byte
  }

  /** The averaged RGBA pixel of a rectangle. */
  function MeanPixel(buf: seq<byte>, w: nat, l0: nat, l1: nat, c0: nat, c1: nat): (px: seq<byte>)
    requires l0 < l1 && c0 < c1 && Fits(l1, 4 * w, 4 * c1, |buf|)
    ensures |px| == 4
  {
    [Mean(buf, w, 0, l0, l1, c0, c1) as byte, Mean(buf, w, 1, l0, l1, c0, c1) as byte,
     Mean(buf, w, 2, l0, l1, c0, c1) as byte, Mean(buf, w, 3, l0, l1, c0, c1) as byte]
  }

  /** One more column adds that column's sample of each channel, at offset `(line * w + column) * 4`. */
  lemma {:induction false} LineSumStep(buf: seq<byte>, w: nat, line: nat, c0: nat, column: nat)
    requires c0 <= column && line * (4 * w) + 4 * column + 4 <= |buf|
    ensures var offset := (line * w + column) * 4;
            && offset + 4 <= |buf|
            && LineSum(buf, w, line, 0, c0, column + 1) == LineSum(buf, w, line, 0, c0, column) + buf[offset] as nat
            && LineSum(buf, w, line, 1, c0, column + 1) == LineSum(buf, w, line, 1, c0, column) + buf[offset + 1] as nat
            && LineSum(buf, w, line, 2, c0, column + 1) == LineSum(buf, w, line, 2, c0, column) + buf[offset + 2] as nat
            && LineSum(buf, w, line, 3, c0, column + 1) == LineSum(buf, w, line, 3, c0, column) + buf[offset + 3] as nat
  {
    assert (line * w + column) * 4 == line * (4 * w) + 4 * column;
  }

  /** The loop over the columns of one source line: every channel summed. */
  method AccumulateLine(buf: seq<byte>, w: nat, line: nat, c0: nat, c1: nat, r: nat, g: nat, b: nat, a: nat)
    returns (r': nat, g': nat, b': nat, a': nat)
    requires c0 <= c1 && line * (4 * w) + 4 * c1 <= |buf|
    ensures r' == r + LineSum(buf, w, line, 0, c0, c1) && g' == g + LineSum(buf, w, line, 1, c0, c1)
    ensures b' == b + LineSum(buf, w, line, 2, c0, c1) && a' == a + LineSum(buf, w, line, 3, c0, c1)
  {
    r', g', b', a' := r, g, b, a;
    var linePixel := line * w;
    var column := c0;
    while column < c1
      invariant c0 <= column <= c1
      invariant r' == r + LineSum(buf, w, line, 0, c0, column) && g' == g + LineSum(buf, w, line, 1, c0, column)
      invariant b' == b + LineSum(buf, w, line, 2, c0, column) && a' == a + LineSum(buf, w, line, 3, c0, column)
    {
      var offset := (linePixel + column) * 4;
      LineSumStep(buf, w, line, c0, column);
      r' := r' + buf[offset] as nat;
      g' := g' + buf[offset + 1] as nat;
      b' := b' + buf[offset + 2] as nat;
      a' := a' + buf[offset + 3] as nat;
      column := column + 1;
    }
  }

  /** The two inner loops: sum every channel over the rectangle, then divide by the pixel count. */
  method AveragePixel(buf: seq<byte>, w: nat, l0: nat, l1: nat, c0: nat, c1: nat) returns (px: seq<byte>)
    requires l0 < l1 && c0 < c1 && Fits(l1, 4 * w, 4 * c1, |buf|)
    ensures px == MeanPixel(buf, w, l0, l1, c0, c1)
  {
    var r: nat, g: nat, b: nat, a: nat := 0, 0, 0, 0;
    var picked: nat := 0;
    var line := l0;
    FitsPrefix(l0, l1, 4 * w, 4 * c1, |buf|);
    while line < l1
      invariant l0 <= line <= l1 && Fits(line, 4 * w, 4 * c1, |buf|)
      invariant r == RectSum(buf, w, 0, l0, line, c0, c1) && g == RectSum(buf, w, 1, l0, line, c0, c1)
      invariant b == RectSum(buf, w, 2, l0, line, c0, c1) && a == RectSum(buf, w, 3, l0, line, c0, c1)
      invariant picked == (line - l0) * (c1 - c0)
    {
      RowFits(line, l1 - 1, 4 * w, 4 * c1, |buf|);
      r, g, b, a := AccumulateLine(buf, w, line, c0, c1, r, g, b, a);
      picked := picked + (c1 - c0);
      MulSucc(line - l0, line + 1 - l0, c1 - c0);
      line := line + 1;
    }
    MulMonotone(1, l1 - l0, c1 - c0);
    px := [ToU8(Average(r, picked)), ToU8(Average(g, picked)), ToU8(Average(b, picked)), ToU8(Average(a, picked))];
  }

  // ---------------------------------------------------------------------
  // The whole buffer
  // ---------------------------------------------------------------------

  /**
   * The source rectangles stay inside the buffer: the last line and column
   * read, at the edges of the target size, are within it (nothing is read
   * when the target is empty).
   */
  predicate Covers(size: nat, w: nat, h: nat, num: nat, den: nat)
    requires 0 < num && 0 < den
  {
    var tw, th := Target(w, num, den), Target(h, num, den);
    tw == 0 || th == 0 || Fits(Edge(th, num, den), 4 * w, 4 * Edge(tw, num, den), size)
  }

  /** The last of `h` rows of `w` RGBA pixels ends at the buffer's end. */
  lemma {:induction false} LastRowEnd(w: nat, h: nat)
    requires h > 0
    ensures (h - 1) * (4 * w) + 4 * w == 4 * w * h
  {
  }

  /** A buffer of `w * h` RGBA pixels covers every rectangle. */
  lemma {:induction false} FullBufferCovers(size: nat, w: nat, h: nat, num: nat, den: nat)
    requires 0 < num < den && 4 * w * h <= size
    ensures Covers(size, w, h, num, den)
  {
    var tw, th := Target(w, num, den), Target(h, num, den);
    if tw > 0 && th > 0 {
      EdgeStep(th - 1, num, den);
      TargetBelow(h, num, den);
      var eh := Edge(th, num, den);
      EdgeWithin(w, num, den);
      EdgeWithin(h, num, den);
      LastRowEnd(w, h);
      RowFits(eh - 1, h - 1, 4 * w, 4 * w, size);
    }
  }

  /** Output pixel (`line`, `col`) averages a non-empty rectangle inside the source. */
  lemma {:induction false} RectangleInside(size: nat, w: nat, h: nat, num: nat, den: nat, line: nat, col: nat)
    requires 0 < num < den && Covers(size, w, h, num, den)
    requires line < Target(h, num, den) && col < Target(w, num, den)
    ensures Edge(line, num, den) < Edge(line + 1, num, den) <= h
    ensures Edge(col, num, den) < Edge(col + 1, num, den) <= w
    ensures Fits(Edge(line + 1, num, den), 4 * w, 4 * Edge(col + 1, num, den), size)
  {
    var tw, th := Target(w, num, den), Target(h, num, den);
    EdgeStep(line, num, den);
    EdgeStep(col, num, den);
    EdgeMonotone(line + 1, th, num, den);
    EdgeMonotone(col + 1, tw, num, den);
    EdgeWithin(w, num, den);
    EdgeWithin(h, num, den);
    var eh, ew := Edge(th, num, den), Edge(tw, num, den);
    RowFits(Edge(line + 1, num, den) - 1, eh - 1, 4 * w, 4 * ew, size);
  }

  /** Output pixel (`line`, `col`). */
  function OutPixel(buf: seq<byte>, w: nat, h: nat, num: nat, den: nat, line: nat, col: nat): (px: seq<byte>)
    requires 0 < num < den && Covers(|buf|, w, h, num, den)
    requires line < Target(h, num, den) && col < Target(w, num, den)
    ensures |px| == 4
  {
    RectangleInside(|buf|, w, h, num, den, line, col);
    MeanPixel(buf, w, Edge(line, num, den), Edge(line + 1, num, den), Edge(col, num, den), Edge(col + 1, num, den))
  }

  /** The first `n` pixels of output line `line`. */
  function OutRow(buf: seq<byte>, w: nat, h: nat, num: nat, den: nat, line: nat, n: nat): (r: seq<byte>)
    requires 0 < num < den && Covers(|buf|, w, h, num, den)
    requires line < Target(h, num, den) && n <= Target(w, num, den)
    ensures |r| == 4 * n
  {
    if n == 0 then []
    else OutRow(buf, w, h, num, den, line, n - 1) + OutPixel(buf, w, h, num, den, line, n - 1)
  }

  /** The first `m` output lines. */
  function OutRows(buf: seq<byte>, w: nat, h: nat, num: nat, den: nat, m: nat): (r: seq<seq<byte>>)
    requires 0 < num < den && Covers(|buf|, w, h, num, den)
    requires m <= Target(h, num, den)
    ensures |r| == m
  {
    if m == 0 then []
    else OutRows(buf, w, h, num, den, m - 1) + [OutRow(buf, w, h, num, den, m - 1, Target(w, num, den))]
  }

  /** The loop over the columns of one output line. */
  method DownsampleLine(buf: seq<byte>, w: nat, h: nat, num: nat, den: nat, line: nat, out: seq<byte>)
    returns (out': seq<byte>)
    requires 0 < num < den && Covers(|buf|, w, h, num, den) && line < Target(h, num, den)
    ensures out' == out + OutRow(buf, w, h, num, den, line, Target(w, num, den))
  {
    var tw := Target(w, num, den);
    var lineStart, lineEnd := Edge(line, num, den), Edge(line + 1, num, den);
    out' := out;
    var column := 0;
    while column < tw
      invariant 0 <= column <= tw
      invariant out' == out + OutRow(buf, w, h, num, den, line, column)
    {
      var columnStart, columnEnd := Edge(column, num, den), Edge(column + 1, num, den);
      RectangleInside(|buf|, w, h, num, den, line, column);
      var px := AveragePixel(buf, w, lineStart, lineEnd, columnStart, columnEnd);
      out' := out' + px;
      column := column + 1;
    }
  }

  /** The loop over output lines. */
  method DownsampleBuffer(buf: seq<byte>, w: nat, h: nat, num: nat, den: nat) returns (out: seq<byte>)
    requires 0 < num < den && Covers(|buf|, w, h, num, den)
    ensures out == Flatten(OutRows(buf, w, h, num, den, Target(h, num, den)))
  {
    var th := Target(h, num, den);
    out := [];
    var line := 0;
    while line < th
      invariant 0 <= line <= th
      invariant out == Flatten(OutRows(buf, w, h, num, den, line))
    {
      FlattenPush(OutRows(buf, w, h, num, den, line), OutRow(buf, w, h, num, den, line, Target(w, num, den)));
      out := DownsampleLine(buf, w, h, num, den, line, out);
      line := line + 1;
    }
  }

  // ---------------------------------------------------------------------
  // The glyph
  // ---------------------------------------------------------------------

  /** Only a colour buffer with a factor below one is shrunk. */
  predicate Shrinks(g: RasterizedGlyph, num: nat, den: nat) {
    g.buffer.Rgba? && num < den
  }

  /** `(f64::from(x) * factor) as i32`: the scaled value, truncated toward zero. */
  function ScaleTowardZero(x: int, num: nat, den: nat): int
    requires den > 0
  {
    if x >= 0 then x * num / den else -((-x) * num / den)
  }

  /** What the source demands of a glyph it shrinks: a real size and every rectangle readable. */
  predicate Downsamplable(g: RasterizedGlyph, num: nat, den: nat)
    requires 0 < num && 0 < den
  {
    Shrinks(g, num, den) ==>
      g.width >= 0 && g.height >= 0 && Covers(|g.buffer.bytes|, g.width, g.height, num, den)
  }

  /** What `downsample_bitmap` returns. */
  function Downsample(g: RasterizedGlyph, num: nat, den: nat): RasterizedGlyph
    requires 0 < num && 0 < den && Downsamplable(g, num, den)
  {
    if !Shrinks(g, num, den) then g
    else
      var w, h := g.width, g.height;
      var bytes := Flatten(OutRows(g.buffer.bytes, w, h, num, den, Target(h, num, den)));
      g.(buffer := Rgba(bytes), top := ScaleTowardZero(g.top, num, den), left := ScaleTowardZero(g.left, num, den),
         width := Target(w, num, den), height := Target(h, num, den))
  }

  /** `downsample_bitmap`. */
  method DownsampleBitmap(g: RasterizedGlyph, num: nat, den: nat) returns (r: RasterizedGlyph)
    requires 0 < num && 0 < den && Downsamplable(g, num, den)
    ensures r == Downsample(g, num, den)
  {
    if !(g.buffer.Rgba? && num < den) {
      return g;
    }
    var w, h := g.width, g.height;
    var bytes := DownsampleBuffer(g.buffer.bytes, w, h, num, den);
    r := g.(buffer := Rgba(bytes));
    r := r.(top := ScaleTowardZero(g.top, num, den), left := ScaleTowardZero(g.left, num, den));
    r := r.(width := Target(w, num, den), height := Target(h, num, den));
  }

  // ---------------------------------------------------------------------
  // Properties
  // ---------------------------------------------------------------------

  lemma {:induction false} OutRowAt(buf: seq<byte>, w: nat, h: nat, num: nat, den: nat, line: nat, n: nat, col: nat, ch: nat)
    requires 0 < num < den && Covers(|buf|, w, h, num, den)
    requires line < Target(h, num, den) && col < n <= Target(w, num, den) && ch < 4
    ensures OutRow(buf, w, h, num, den, line, n)[4 * col + ch] == OutPixel(buf, w, h, num, den, line, col)[ch]
    decreases n
  {
    if col < n - 1 {
      OutRowAt(buf, w, h, num, den, line, n - 1, col, ch);
    }
  }

  lemma {:induction false} OutRowsUniform(buf: seq<byte>, w: nat, h: nat, num: nat, den: nat)
    requires 0 < num < den && Covers(|buf|, w, h, num, den)
    ensures Uniform(OutRows(buf, w, h, num, den, Target(h, num, den)), 4 * Target(w, num, den))
  {
    var th := Target(h, num, den);
    forall i | 0 <= i < th
      ensures OutRows(buf, w, h, num, den, th)[i] == OutRow(buf, w, h, num, den, i, Target(w, num, den))
    {
      OutRowsAt(buf, w, h, num, den, th, i);
    }
  }

  lemma {:induction false} OutRowsAt(buf: seq<byte>, w: nat, h: nat, num: nat, den: nat, m: nat, i: nat)
    requires 0 < num < den && Covers(|buf|, w, h, num, den)
    requires i < m <= Target(h, num, den)
    ensures OutRows(buf, w, h, num, den, m)[i] == OutRow(buf, w, h, num, den, i, Target(w, num, den))
    decreases m
  {
    if i < m - 1 {
      OutRowsAt(buf, w, h, num, den, m - 1, i);
    }
  }

  /** Anything but a colour buffer shrunk by a factor below one comes back unchanged. */
  lemma {:induction false} DownsampleIdentity(g: RasterizedGlyph, num: nat, den: nat)
    requires 0 < num && 0 < den && Downsamplable(g, num, den)
    ensures !g.buffer.Rgba? || den <= num ==> Downsample(g, num, den) == g
  {
  }

  /**
   * A shrunk glyph has the target size, never larger than the source, an RGBA
   * buffer of exactly four bytes per target pixel, and its offsets scaled
   * toward zero.
   */
  lemma {:induction false} DownsampleShape(g: RasterizedGlyph, num: nat, den: nat)
    requires 0 < num < den && g.buffer.Rgba? && Downsamplable(g, num, den)
    ensures var r := Downsample(g, num, den);
      && r.width == Target(g.width, num, den) <= g.width
      && r.height == Target(g.height, num, den) <= g.height
      && r.buffer.Rgba? && |r.buffer.bytes| == r.height * (4 * r.width)
      && r.character == g.character && r.advance == g.advance
      && (0 <= g.top ==> 0 <= r.top <= g.top) && (g.top < 0 ==> g.top <= r.top <= 0)
      && (0 <= g.left ==> 0 <= r.left <= g.left) && (g.left < 0 ==> g.left <= r.left <= 0)
  {
    var w, h := g.width, g.height;
    TargetFloor(w, num, den);
    TargetFloor(h, num, den);
    ScaleShrinks(g.top, num, den);
    ScaleShrinks(g.left, num, den);
    var th, tw := Target(h, num, den), Target(w, num, den);
    TargetBelow(w, num, den);
    TargetBelow(h, num, den);
    OutRowsUniform(g.buffer.bytes, w, h, num, den);
    FlattenLength(OutRows(g.buffer.bytes, w, h, num, den, th), 4 * tw);
  }

  lemma {:induction false} TargetBelow(n: nat, num: nat, den: nat)
    requires 0 < num < den
    ensures Target(n, num, den) <= n
  {
    var t := Target(n, num, den);
    TargetFloor(n, num, den);
    MulMonotone(num, den, n);
    MulLess(t, n + 1, den);
  }

  lemma {:induction false} ScaleShrinks(x: int, num: nat, den: nat)
    requires 0 < num < den
    ensures 0 <= x ==> 0 <= ScaleTowardZero(x, num, den) <= x
    ensures x < 0 ==> x <= ScaleTowardZero(x, num, den) <= 0
  {
    var a: nat := if x >= 0 then x else -x;
    TargetBelow(a, num, den);
  }

  /**
   * Channel `ch` of output pixel (`line`, `col`) is the truncating mean of that
   * channel over a non-empty source rectangle inside the bitmap, so it lies
   * between the rectangle's least and greatest sample.
   */
  lemma {:induction false} DownsampleAt(g: RasterizedGlyph, num: nat, den: nat, line: nat, col: nat, ch: nat, lo: int, hi: int)
    requires 0 < num < den && g.buffer.Rgba? && Downsamplable(g, num, den)
    requires line < Target(g.height, num, den) && col < Target(g.width, num, den) && ch < 4
    ensures var l0, l1, c0, c1 := Edge(line, num, den), Edge(line + 1, num, den), Edge(col, num, den), Edge(col + 1, num, den);
      && l0 < l1 <= g.height && c0 < c1 <= g.width
      && Fits(l1, 4 * g.width, 4 * c1, |g.buffer.bytes|)
      && var out, at := Downsample(g, num, den).buffer.bytes, line * (4 * Target(g.width, num, den)) + 4 * col + ch;
      && 0 <= at < |out|
      && out[at] as int == Mean(g.buffer.bytes, g.width, ch, l0, l1, c0, c1)
      && (SamplesWithin(g.buffer.bytes, g.width, ch, l0, l1, c0, c1, lo, hi) ==> lo <= out[at] as int <= hi)
  {
    var buf, w, h := g.buffer.bytes, g.width, g.height;
    var tw, th := Target(w, num, den), Target(h, num, den);
    var l0, l1, c0, c1 := Edge(line, num, den), Edge(line + 1, num, den), Edge(col, num, den), Edge(col + 1, num, den);
    RectangleInside(|buf|, w, h, num, den, line, col);
    var rows := OutRows(buf, w, h, num, den, th);
    OutRowsUniform(buf, w, h, num, den);
    FlattenAt(rows, 4 * tw, line, 4 * col + ch);
    OutRowsAt(buf, w, h, num, den, th, line);
    OutRowAt(buf, w, h, num, den, line, tw, col, ch);
    if SamplesWithin(buf, w, ch, l0, l1, c0, c1, lo, hi) {
      MeanWithin(buf, w, ch, l0, l1, c0, c1, lo, hi);
    }
  }
}
