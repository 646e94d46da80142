/**
 * The FreeType backend's `normalize_buffer`: a rendered FreeType bitmap in
 * one of its pixel modes becomes a packed buffer with one byte per channel,
 * RGB for coverage masks and RGBA for colour bitmaps.
 *
 * Each row-based mode's output is specified as the concatenation (`Flatten`)
 * of one output row per bitmap row (or per three rows for vertical LCD); the
 * lemmas at the end say, index by index, which source byte each output byte
 * comes from.
 */
module FtNormalize {
  import opened Crossfont
  import opened Pixels
  import Fc

  /** FreeType's pixel modes. */
  datatype PixelMode = None | Mono | Gray | Gray2 | Gray4 | Lcd | LcdV | Bgra

  /**
   * A rendered bitmap: `rows` lines of `width` pixels, consecutive lines
   * `pitch` bytes apart (a negative pitch means the lines are stored bottom
   * up; only its magnitude is used).
   */
  datatype Bitmap = Bitmap(rows: nat, width: nat, pitch: int, mode: PixelMode, buf: seq<byte>)

  /** The modes `normalize_buffer` converts; any other one panics. */
  predicate Handled(mode: PixelMode) {
    mode == Mono || mode == Gray || mode == Lcd || mode == LcdV || mode == Bgra
  }

  /** `pitch.unsigned_abs()`. */
  function Pitch(bm: Bitmap): (p: nat)
    ensures p == bm.pitch || p == -bm.pitch
  {
    if bm.pitch < 0 then -bm.pitch else bm.pitch
  }

  /** Triads read per row of a BGR LCD bitmap: the last may be partial. */
  function Triads(width: nat): nat {
    (width + 2) / 3
  }

  /** Bytes of a row of a mono bitmap: one bit per pixel. */
  function MonoBytes(width: nat): nat {
    (width + 7) / 8
  }

  /**
   * Every byte the conversion reads lies inside the buffer (otherwise the
   * conversion panics).  Slicing a row, as the Gray and the RGB-ordered LCD
   * paths do, needs the row's start in bounds even when the row is empty.
   */
  predicate Readable(bm: Bitmap, rgba: Fc.Rgba) {
    var p, w, size := Pitch(bm), bm.width, |bm.buf|;
    match bm.mode
    case Gray => Fits(bm.rows, p, w, size)
    case Lcd => if rgba == Fc.Bgr then w == 0 || Fits(bm.rows, p, 3 * Triads(w), size) else Fits(bm.rows, p, w, size)
    case Mono => w == 0 || Fits(bm.rows, p, MonoBytes(w), size)
    case LcdV => w == 0 || Fits(3 * (bm.rows / 3), p, w, size)
    case Bgra => bm.rows * w * 4 <= size
    case _ => true
  }

  // ---------------------------------------------------------------------
  // Gray: every byte as an RGB triple
  // ---------------------------------------------------------------------

  /** A gray row of `w` coverage bytes at `start`, each tripled into an RGB pixel. */
  function GrayOut(buf: seq<byte>, start: nat, w: nat): (r: seq<byte>)
    requires start + w <= |buf|
    ensures |r| == 3 * w
  {
    Triple(buf[start .. start + w])
  }

  /** The first `n` output rows of a gray bitmap. */
  function GrayRows(buf: seq<byte>, p: nat, w: nat, n: nat): (r: seq<seq<byte>>)
    requires Fits(n, p, w, |buf|)
    ensures |r| == n
  {
    if n == 0 then []
    else
      FitsFewer(n, p, w, |buf|);
      var s := (n - 1) * p;
      GrayRows(buf, p, w, n - 1) + [GrayOut(buf, s, w)]
  }

  lemma {:induction false} GrayRowsAt(buf: seq<byte>, p: nat, w: nat, n: nat, i: nat)
    requires Fits(n, p, w, |buf|) && i < n
    ensures 0 <= i * p && i * p + w <= |buf|
    ensures GrayRows(buf, p, w, n)[i] == GrayOut(buf, i * p, w)
    decreases n
  {
    FitsFewer(n, p, w, |buf|);
    RowFits(i, n - 1, p, w, |buf|);
    if i < n - 1 {
      GrayRowsAt(buf, p, w, n - 1, i);
    }
  }

  method GrayRow(buf: seq<byte>, start: nat, w: nat, packed: seq<byte>) returns (out: seq<byte>)
    requires start + w <= |buf|
    ensures out == packed + GrayOut(buf, start, w)
  {
    var row := buf[start .. start + w];
    out := packed;
    var j := 0;
    while j < |row|
      invariant 0 <= j <= |row|
      invariant out == packed + Triple(row[..j])
    {
      var byte := row[j];
      out := out + [byte, byte, byte];
      TripleSnoc(row, j);
      j := j + 1;
    }
    assert row[..j] == row;
  }

  /** The `Gray` arm. */
  method PackGray(buf: seq<byte>, rows: nat, w: nat, p: nat) returns (packed: seq<byte>)
    requires Fits(rows, p, w, |buf|)
    ensures packed == Flatten(GrayRows(buf, p, w, rows))
  {
    packed := [];
    var i := 0;
    while i < rows
      invariant 0 <= i <= rows
      invariant Fits(i, p, w, |buf|)
      invariant packed == Flatten(GrayRows(buf, p, w, i))
    {
      GrayRowsPush(buf, p, w, rows, i);
      packed := GrayRow(buf, i * p, w, packed);
      i := i + 1;
    }
  }

  /** The next gray row extends the flattened output by its tripled bytes. */
  lemma {:induction false} GrayRowsPush(buf: seq<byte>, p: nat, w: nat, rows: nat, i: nat)
    requires Fits(rows, p, w, |buf|) && i < rows
    ensures Fits(i + 1, p, w, |buf|)
    ensures 0 <= i * p && i * p + w <= |buf|
    ensures Flatten(GrayRows(buf, p, w, i + 1)) == Flatten(GrayRows(buf, p, w, i)) + GrayOut(buf, i * p, w)
  {
    FitsPrefix(i + 1, rows, p, w, |buf|);
    RowFits(i, rows - 1, p, w, |buf|);
    FlattenPush(GrayRows(buf, p, w, i), GrayOut(buf, i * p, w));
  }

  // ---------------------------------------------------------------------
  // Lcd: horizontal subpixels, triads reversed for BGR panels
  // ---------------------------------------------------------------------

  /** The first `n` triads at `base`, each reversed: BGR subpixels to RGB. */
  function ReverseTriads(s: seq<byte>, base: nat, n: nat): (r: seq<byte>)
    requires base + 3 * n <= |s|
    ensures |r| == 3 * n
  {
    if n == 0 then []
    else
      var o := base + 3 * (n - 1);
      ReverseTriads(s, base, n - 1) + [s[o + 2], s[o + 1], s[o]]
  }

  lemma {:induction false} ReverseTriadsAt(s: seq<byte>, base: nat, n: nat, t: nat, c: nat)
    requires base + 3 * n <= |s| && t < n && c < 3
    ensures ReverseTriads(s, base, n)[3 * t + c] == s[base + 3 * t + 2 - c]
    decreases n
  {
    if t < n - 1 {
      ReverseTriadsAt(s, base, n - 1, t, c);
    }
  }

  /** Bytes per output row of an LCD bitmap. */
  function LcdSpan(w: nat, bgr: bool): nat {
    if bgr then 3 * Triads(w) else w
  }

  /** What the `Lcd` arm reads: nothing for an empty BGR row, else every row's span. */
  predicate LcdFits(buf: seq<byte>, p: nat, w: nat, bgr: bool, n: nat) {
    (bgr && w == 0) || Fits(n, p, LcdSpan(w, bgr), |buf|)
  }

  lemma {:induction false} LcdFitsPrefix(buf: seq<byte>, p: nat, w: nat, bgr: bool, n: nat, m: nat)
    requires m <= n && LcdFits(buf, p, w, bgr, n)
    ensures LcdFits(buf, p, w, bgr, m)
  {
    if m > 0 && !(bgr && w == 0) {
      RowFits(m - 1, n - 1, p, LcdSpan(w, bgr), |buf|);
    }
  }

  lemma {:induction false} LcdFitsFewer(buf: seq<byte>, p: nat, w: nat, bgr: bool, n: nat)
    requires n > 0 && LcdFits(buf, p, w, bgr, n)
    ensures LcdFits(buf, p, w, bgr, n - 1)
    ensures (bgr && w == 0) || (0 <= (n - 1) * p && (n - 1) * p + LcdSpan(w, bgr) <= |buf|)
  {
    if !(bgr && w == 0) {
      FitsFewer(n, p, LcdSpan(w, bgr), |buf|);
    }
  }

  /** The output row read at `start`: copied, or with its triads reversed for BGR. */
  function LcdRow(buf: seq<byte>, start: nat, w: nat, bgr: bool): (r: seq<byte>)
    requires (bgr && w == 0) || start + LcdSpan(w, bgr) <= |buf|
    ensures |r| == LcdSpan(w, bgr)
  {
    if bgr && w == 0 then []
    else if bgr then ReverseTriads(buf, start, Triads(w))
    else buf[start .. start + w]
  }

  /** The first `n` output rows of an LCD bitmap. */
  function LcdRows(buf: seq<byte>, p: nat, w: nat, bgr: bool, n: nat): (r: seq<seq<byte>>)
    requires LcdFits(buf, p, w, bgr, n)
    ensures |r| == n
  {
    if n == 0 then []
    else
      LcdFitsFewer(buf, p, w, bgr, n);
      LcdRows(buf, p, w, bgr, n - 1) + [LcdRow(buf, (n - 1) * p, w, bgr)]
  }

  lemma {:induction false} LcdRowsAt(buf: seq<byte>, p: nat, w: nat, bgr: bool, n: nat, i: nat)
    requires LcdFits(buf, p, w, bgr, n) && i < n
    ensures !(bgr && w == 0) ==> 0 <= i * p && i * p + LcdSpan(w, bgr) <= |buf|
    ensures LcdRows(buf, p, w, bgr, n)[i] == LcdRow(buf, i * p, w, bgr)
    decreases n
  {
    if !(bgr && w == 0) {
      FitsFewer(n, p, LcdSpan(w, bgr), |buf|);
      RowFits(i, n - 1, p, LcdSpan(w, bgr), |buf|);
    }
    if i < n - 1 {
      LcdRowsAt(buf, p, w, bgr, n - 1, i);
    }
  }

  method BgrRow(buf: seq<byte>, start: nat, w: nat, packed: seq<byte>) returns (out: seq<byte>)
    requires start + 3 * Triads(w) <= |buf|
    ensures out == packed + ReverseTriads(buf, start, Triads(w))
  {
    out := packed;
    var stop := start + w;
    var j := start;
    ghost var t := 0;
    while j < stop
      invariant j == start + 3 * t && t <= Triads(w)
      invariant out == packed + ReverseTriads(buf, start, t)
      decreases stop - j
    {
      out := out + [buf[j + 2], buf[j + 1], buf[j]];
      j := j + 3;
      t := t + 1;
    }
  }

  /** One more output row extends the concatenation by that row. */
  lemma {:induction false} LcdRowsPush(buf: seq<byte>, p: nat, w: nat, bgr: bool, n: nat, i: nat)
    requires LcdFits(buf, p, w, bgr, n) && i < n
    ensures LcdFits(buf, p, w, bgr, i) && LcdFits(buf, p, w, bgr, i + 1)
    ensures (bgr && w == 0) || (0 <= i * p && i * p + LcdSpan(w, bgr) <= |buf|)
    ensures Flatten(LcdRows(buf, p, w, bgr, i + 1)) == Flatten(LcdRows(buf, p, w, bgr, i)) + LcdRow(buf, i * p, w, bgr)
  {
    LcdFitsPrefix(buf, p, w, bgr, n, i + 1);
    LcdFitsFewer(buf, p, w, bgr, i + 1);
    FlattenPush(LcdRows(buf, p, w, bgr, i), LcdRow(buf, i * p, w, bgr));
  }

  /** Appends one LCD row, reading it at `start`. */
  method LcdRowCopy(buf: seq<byte>, start: nat, w: nat, bgr: bool, packed: seq<byte>) returns (out: seq<byte>)
    requires (bgr && w == 0) || start + LcdSpan(w, bgr) <= |buf|
    ensures out == packed + LcdRow(buf, start, w, bgr)
  {
    if bgr {
      if w != 0 {
        out := BgrRow(buf, start, w, packed);
      } else {
        out := packed;
      }
    } else {
      out := packed + buf[start .. start + w];
    }
  }

  /** The `Lcd` arm: each row copied, or with its triads reversed for BGR. */
  method PackLcd(buf: seq<byte>, rows: nat, w: nat, p: nat, bgr: bool) returns (packed: seq<byte>)
    requires LcdFits(buf, p, w, bgr, rows)
    ensures packed == Flatten(LcdRows(buf, p, w, bgr, rows))
  {
    packed := [];
    var i := 0;
    while i < rows
      invariant 0 <= i <= rows
      invariant packed == Flatten(LcdRows(buf, p, w, bgr, i))
    {
      LcdRowsPush(buf, p, w, bgr, rows, i);
      if !(bgr && w == 0) {
        RowFits(i, rows - 1, p, LcdSpan(w, bgr), |buf|);
      }
      packed := LcdRowCopy(buf, i * p, w, bgr, packed);
      i := i + 1;
    }
  }

  // ---------------------------------------------------------------------
  // LcdV: vertical subpixels, three source rows per output row
  // ---------------------------------------------------------------------

  /** Which source row of a vertical triad feeds channel `c`. */
  function VerticalRow(vbgr: bool, c: nat): (k: nat)
    requires c < 3
    ensures k < 3
  {
    if vbgr then 2 - c else c
  }

  /**
   * The first `n` columns of an output row whose red, green and blue channels
   * come from the source rows starting at `r0`, `r1` and `r2`.
   */
  function VerticalPixels(buf: seq<byte>, r0: nat, r1: nat, r2: nat, n: nat): (r: seq<byte>)
    requires r0 + n <= |buf| && r1 + n <= |buf| && r2 + n <= |buf|
    ensures |r| == 3 * n
  {
    if n == 0 then []
    else
      var j := n - 1;
      VerticalPixels(buf, r0, r1, r2, j) + [buf[r0 + j], buf[r1 + j], buf[r2 + j]]
  }

  lemma {:induction false} VerticalPixelsAt(buf: seq<byte>, r0: nat, r1: nat, r2: nat, n: nat, j: nat)
    requires r0 + n <= |buf| && r1 + n <= |buf| && r2 + n <= |buf| && j < n
    ensures VerticalPixels(buf, r0, r1, r2, n)[3 * j] == buf[r0 + j]
    ensures VerticalPixels(buf, r0, r1, r2, n)[3 * j + 1] == buf[r1 + j]
    ensures VerticalPixels(buf, r0, r1, r2, n)[3 * j + 2] == buf[r2 + j]
    decreases n
  {
    if j < n - 1 {
      VerticalPixelsAt(buf, r0, r1, r2, n - 1, j);
    }
  }

  /** Start of the source row feeding channel `c` of vertical output row `i`. */
  function VerticalStart(p: nat, vbgr: bool, i: nat, c: nat): nat
    requires c < 3
  {
    RowFits(3 * i + VerticalRow(vbgr, c), 3 * i + VerticalRow(vbgr, c), p, 0, (3 * i + VerticalRow(vbgr, c)) * p);
    (3 * i + VerticalRow(vbgr, c)) * p
  }

  lemma {:induction false} VerticalStartFits(buf: seq<byte>, p: nat, w: nat, vbgr: bool, n: nat, i: nat, c: nat)
    requires Fits(3 * n, p, w, |buf|) && i < n && c < 3
    ensures VerticalStart(p, vbgr, i, c) + w <= |buf|
  {
    RowFits(3 * i + VerticalRow(vbgr, c), 3 * n - 1, p, w, |buf|);
  }

  /** Output row `i` of a vertical LCD bitmap with `n` output rows. */
  function VerticalOutRow(buf: seq<byte>, p: nat, w: nat, vbgr: bool, n: nat, i: nat): (r: seq<byte>)
    requires w == 0 || Fits(3 * n, p, w, |buf|)
    requires i < n
    ensures |r| == 3 * w
  {
    if w == 0 then []
    else
      VerticalStartFits(buf, p, w, vbgr, n, i, 0);
      VerticalStartFits(buf, p, w, vbgr, n, i, 1);
      VerticalStartFits(buf, p, w, vbgr, n, i, 2);
      VerticalPixels(buf, VerticalStart(p, vbgr, i, 0), VerticalStart(p, vbgr, i, 1),
                     VerticalStart(p, vbgr, i, 2), w)
  }

  /** Channel `c` of pixel `j` of vertical output row `i` comes from column `j` of one source row. */
  lemma {:induction false} VerticalOutRowAt(buf: seq<byte>, p: nat, w: nat, vbgr: bool, n: nat, i: nat, j: nat, c: nat)
    requires Fits(3 * n, p, w, |buf|) && i < n && j < w && c < 3
    ensures 0 <= (3 * i + VerticalRow(vbgr, c)) * p
    ensures (3 * i + VerticalRow(vbgr, c)) * p + j < |buf|
    ensures VerticalOutRow(buf, p, w, vbgr, n, i)[3 * j + c] == buf[(3 * i + VerticalRow(vbgr, c)) * p + j]
  {
    VerticalStartFits(buf, p, w, vbgr, n, i, 0);
    VerticalStartFits(buf, p, w, vbgr, n, i, 1);
    VerticalStartFits(buf, p, w, vbgr, n, i, 2);
    VerticalStartFits(buf, p, w, vbgr, n, i, c);
    var r0, r1, r2 := VerticalStart(p, vbgr, i, 0), VerticalStart(p, vbgr, i, 1), VerticalStart(p, vbgr, i, 2);
    VerticalPixelsAt(buf, r0, r1, r2, w, j);
    if c == 0 {
      assert VerticalStart(p, vbgr, i, c) == r0;
    } else if c == 1 {
      assert VerticalStart(p, vbgr, i, c) == r1;
    } else {
      assert VerticalStart(p, vbgr, i, c) == r2;
    }
  }

  /** The first `m` of the `n` output rows of a vertical LCD bitmap. */
  function LcdVRows(buf: seq<byte>, p: nat, w: nat, vbgr: bool, n: nat, m: nat): (r: seq<seq<byte>>)
    requires w == 0 || Fits(3 * n, p, w, |buf|)
    requires m <= n
    ensures |r| == m
  {
    if m == 0 then []
    else LcdVRows(buf, p, w, vbgr, n, m - 1) + [VerticalOutRow(buf, p, w, vbgr, n, m - 1)]
  }

  lemma {:induction false} LcdVRowsAt(buf: seq<byte>, p: nat, w: nat, vbgr: bool, n: nat, m: nat, i: nat)
    requires w == 0 || Fits(3 * n, p, w, |buf|)
    requires i < m <= n
    ensures LcdVRows(buf, p, w, vbgr, n, m)[i] == VerticalOutRow(buf, p, w, vbgr, n, i)
    decreases m
  {
    if i < m - 1 {
      LcdVRowsAt(buf, p, w, vbgr, n, m - 1, i);
    }
  }

  /** `(i * 3 + row) * pitch`, as the loop computes it, is the start of the row feeding channel `k`. */
  lemma {:induction false} VerticalOffset(p: nat, vbgr: bool, i: nat, k: nat)
    requires k < 3
    ensures (i * 3 + VerticalRow(vbgr, k)) * p == VerticalStart(p, vbgr, i, k)
  {
  }

  /** One more column appends its triad to the output row. */
  lemma {:induction false} VerticalPixelsPush(buf: seq<byte>, r0: nat, r1: nat, r2: nat, j: nat, packed: seq<byte>)
    requires r0 + j < |buf| && r1 + j < |buf| && r2 + j < |buf|
    ensures packed + VerticalPixels(buf, r0, r1, r2, j + 1)
            == packed + VerticalPixels(buf, r0, r1, r2, j) + [buf[r0 + j], buf[r1 + j], buf[r2 + j]]
  {
  }

  /** The loop over the three source rows of a column: red, green and blue in the panel's order. */
  method PushTriad(buf: seq<byte>, p: nat, vbgr: bool, i: nat, j: nat, out: seq<byte>) returns (out': seq<byte>)
    requires forall c :: 0 <= c < 3 ==> VerticalStart(p, vbgr, i, c) + j < |buf|
    ensures out' == out + [buf[VerticalStart(p, vbgr, i, 0) + j], buf[VerticalStart(p, vbgr, i, 1) + j],
                           buf[VerticalStart(p, vbgr, i, 2) + j]]
  {
    ghost var triad := [buf[VerticalStart(p, vbgr, i, 0) + j], buf[VerticalStart(p, vbgr, i, 1) + j],
                        buf[VerticalStart(p, vbgr, i, 2) + j]];
    out' := out;
    var k := 0;
    while k < 3
      invariant 0 <= k <= 3
      invariant out' == out + triad[..k]
    {
      var row := VerticalRow(vbgr, k);
      VerticalOffset(p, vbgr, i, k);
      var offset := (i * 3 + row) * p + j;
      out' := out' + [buf[offset]];
      assert triad[..k + 1] == triad[..k] + [triad[k]];
      k := k + 1;
    }
    assert triad[..3] == triad;
  }

  /** One vertical LCD output row: for each column, three source rows. */
  method VerticalRow3(buf: seq<byte>, p: nat, w: nat, vbgr: bool, n: nat, i: nat, packed: seq<byte>)
    returns (out: seq<byte>)
    requires w == 0 || Fits(3 * n, p, w, |buf|)
    requires i < n
    ensures out == packed + VerticalOutRow(buf, p, w, vbgr, n, i)
  {
    if w == 0 {
      return packed;
    }
    VerticalStartFits(buf, p, w, vbgr, n, i, 0);
    VerticalStartFits(buf, p, w, vbgr, n, i, 1);
    VerticalStartFits(buf, p, w, vbgr, n, i, 2);
    var r0, r1, r2 := VerticalStart(p, vbgr, i, 0), VerticalStart(p, vbgr, i, 1), VerticalStart(p, vbgr, i, 2);
    out := packed;
    var j := 0;
    while j < w
      invariant 0 <= j <= w
      invariant out == packed + VerticalPixels(buf, r0, r1, r2, j)
    {
      VerticalPixelsPush(buf, r0, r1, r2, j, packed);
      out := PushTriad(buf, p, vbgr, i, j, out);
      j := j + 1;
    }
  }

  /** The `LcdV` arm: one output row per three source rows. */
  method PackLcdV(buf: seq<byte>, rows: nat, w: nat, p: nat, vbgr: bool) returns (packed: seq<byte>)
    requires w == 0 || Fits(3 * (rows / 3), p, w, |buf|)
    ensures packed == Flatten(LcdVRows(buf, p, w, vbgr, rows / 3, rows / 3))
  {
    var n := rows / 3;
    packed := [];
    var i := 0;
    while i < n
      invariant 0 <= i <= n
      invariant packed == Flatten(LcdVRows(buf, p, w, vbgr, n, i))
    {
      FlattenPush(LcdVRows(buf, p, w, vbgr, n, i), VerticalOutRow(buf, p, w, vbgr, n, i));
      packed := VerticalRow3(buf, p, w, vbgr, n, i, packed);
      i := i + 1;
    }
  }

  // ---------------------------------------------------------------------
  // Mono: one bit per pixel, most significant bit first
  // ---------------------------------------------------------------------

  /** `(b >> k) & 1`. */
  function Bit(b: byte, k: nat): (v: nat)
    requires k < 8
    ensures v < 2
  {
    (b as int / Pow2(k)) % 2
  }

  /** `((b >> k) & 1) * 255`: a set bit is full coverage, a clear one none. */
  function MonoValue(b: byte, k: nat): (v: byte)
    requires k < 8
    ensures v == 255 || v == 0
  {
    (Bit(b, k) * 255) as byte
  }

  /** The first `n` pixels packed in byte `b`, most significant bit first, as RGB. */
  function UnpackBits(b: byte, n: nat): (r: seq<byte>)
    requires n <= 8
    ensures |r| == 3 * n
  {
    if n == 0 then []
    else
      var v := MonoValue(b, 8 - n);
      UnpackBits(b, n - 1) + [v, v, v]
  }

  /** Pixel `j` of byte `b` sits at output bytes `3 * j` to `3 * j + 2`. */
  lemma {:induction false} UnpackBitsAt(b: byte, n: nat, j: nat, c: nat)
    requires n <= 8 && j < n && c < 3
    ensures UnpackBits(b, n)[3 * j + c] == MonoValue(b, 7 - j)
    decreases n
  {
    if j < n - 1 {
      UnpackBitsAt(b, n - 1, j, c);
    }
  }

  /** `MonoBytes`, counted a byte at a time as the unpacking loop reads them. */
  function RowBytes(n: nat): nat
    decreases n
  {
    if n == 0 then 0 else 1 + RowBytes(n - (if n < 8 then n else 8))
  }

  lemma {:induction false} RowBytesIsMonoBytes(n: nat)
    ensures RowBytes(n) == MonoBytes(n)
    decreases n
  {
    if n > 0 {
      RowBytesIsMonoBytes(n - (if n < 8 then n else 8));
      MonoBytesStep(n);
    }
  }

  /** Unpacking one byte's pixels leaves one byte fewer to read. */
  lemma {:induction false} MonoBytesStep(n: nat)
    requires n > 0
    ensures MonoBytes(n - (if n < 8 then n else 8)) + 1 == MonoBytes(n)
  {
    if n >= 8 {
      DivMod8(MonoBytes(n - 8), (n - 8 + 7) % 8);
    }
  }

  /**
   * The `n` pixels of the mono row starting at `start`, as RGB: each byte in
   * turn gives up to eight pixels, as `unpack_byte` reads them.
   */
  function MonoPixels(buf: seq<byte>, start: nat, n: nat): (r: seq<byte>)
    requires start + RowBytes(n) <= |buf|
    ensures |r| == 3 * n
    decreases n
  {
    if n == 0 then []
    else
      var bits := if n < 8 then n else 8;
      UnpackBits(buf[start], bits) + MonoPixels(buf, start + 1, n - bits)
  }

  /** Pixel `8 * q + m` of a mono row is bit `7 - m` of the row's byte `q`. */
  lemma {:induction false} MonoPixelsAtByte(buf: seq<byte>, start: nat, n: nat, q: nat, m: nat, c: nat)
    requires start + RowBytes(n) <= |buf| && m < 8 && 8 * q + m < n && c < 3
    ensures start + q < |buf|
    ensures MonoPixels(buf, start, n)[3 * (8 * q + m) + c] == MonoValue(buf[start + q], 7 - m)
    decreases q
  {
    var bits := if n < 8 then n else 8;
    var head, tail := UnpackBits(buf[start], bits), MonoPixels(buf, start + 1, n - bits);
    assert MonoPixels(buf, start, n) == head + tail;
    if q == 0 {
      UnpackBitsAt(buf[start], bits, m, c);
    } else {
      assert (head + tail)[3 * (8 * q + m) + c] == tail[3 * (8 * (q - 1) + m) + c];
      MonoPixelsAtByte(buf, start + 1, n - 8, q - 1, m, c);
    }
  }

  /** Pixel `j` of a mono row is bit `7 - j % 8` of the row's byte `j / 8`. */
  lemma {:induction false} MonoPixelsAt(buf: seq<byte>, start: nat, n: nat, j: nat, c: nat)
    requires start + MonoBytes(n) <= |buf| && j < n && c < 3
    ensures start + RowBytes(n) <= |buf| && start + j / 8 < |buf|
    ensures MonoPixels(buf, start, n)[3 * j + c] == MonoValue(buf[start + j / 8], 7 - j % 8)
  {
    RowBytesIsMonoBytes(n);
    var q, m := j / 8, j % 8;
    assert j == 8 * q + m;
    MonoPixelsAtByte(buf, start, n, q, m, c);
  }

  /** The first `n` output rows of a mono bitmap. */
  function MonoRows(buf: seq<byte>, p: nat, w: nat, n: nat): (r: seq<seq<byte>>)
    requires w == 0 || Fits(n, p, MonoBytes(w), |buf|)
    ensures |r| == n
  {
    if n == 0 then []
    else if w == 0 then MonoRows(buf, p, w, n - 1) + [[]]
    else
      FitsFewer(n, p, MonoBytes(w), |buf|);
      RowBytesIsMonoBytes(w);
      MonoRows(buf, p, w, n - 1) + [MonoPixels(buf, (n - 1) * p, w)]
  }

  lemma {:induction false} MonoRowsAt(buf: seq<byte>, p: nat, w: nat, n: nat, i: nat)
    requires w == 0 || Fits(n, p, MonoBytes(w), |buf|)
    requires i < n
    ensures |MonoRows(buf, p, w, n)[i]| == 3 * w
    ensures w > 0 ==> 0 <= i * p && i * p + MonoBytes(w) <= |buf| && i * p + RowBytes(w) <= |buf|
    ensures w > 0 ==> MonoRows(buf, p, w, n)[i] == MonoPixels(buf, i * p, w)
    decreases n
  {
    if w > 0 {
      RowBytesIsMonoBytes(w);
      FitsFewer(n, p, MonoBytes(w), |buf|);
      RowFits(i, n - 1, p, MonoBytes(w), |buf|);
    }
    if i < n - 1 {
      MonoRowsAt(buf, p, w, n - 1, i);
    }
  }

  /** `unpack_byte`: append `count` pixels of `b`, most significant bit first. */
  method UnpackByte(res: seq<byte>, b: byte, count: nat) returns (out: seq<byte>)
    requires count <= 8
    ensures out == res + UnpackBits(b, count)
  {
    out := res;
    var bit := 7;
    var left := count;
    while left != 0
      invariant 0 <= left <= count
      invariant bit == 7 - (count - left)
      invariant out == res + UnpackBits(b, count - left)
    {
      var value := MonoValue(b, bit);
      out := out + [value, value, value];
      left := left - 1;
      bit := bit - 1;
    }
  }

  lemma {:induction false} DivMod8(q: nat, m: nat)
    requires m < 8
    ensures (8 * q + m) / 8 == q && (8 * q + m) % 8 == m
  {
  }

  /** Unpacking the next byte of a row moves its pixels from the rest of the row to the output. */
  lemma {:induction false} MonoRowStep(buf: seq<byte>, start: nat, columns: nat, row: seq<byte>)
    requires columns > 0 && start + RowBytes(columns) <= |buf|
    ensures var bits := if columns < 8 then columns else 8;
            && start + 1 + RowBytes(columns - bits) <= |buf|
            && row + MonoPixels(buf, start, columns)
               == (row + UnpackBits(buf[start], bits)) + MonoPixels(buf, start + 1, columns - bits)
  {
    var bits := if columns < 8 then columns else 8;
    var unpacked, rest := UnpackBits(buf[start], bits), MonoPixels(buf, start + 1, columns - bits);
    assert MonoPixels(buf, start, columns) == unpacked + rest;
    assert row + (unpacked + rest) == (row + unpacked) + rest;
  }

  /** One mono row: `columns` counts down as each byte's bits are unpacked. */
  method MonoRow(buf: seq<byte>, offset: nat, width: nat) returns (row: seq<byte>)
    requires offset + RowBytes(width) <= |buf|
    ensures row == MonoPixels(buf, offset, width)
  {
    row := [];
    var columns := width;
    var byte := 0;
    while columns != 0
      invariant 0 <= columns <= width
      invariant offset + byte + RowBytes(columns) <= |buf|
      invariant row + MonoPixels(buf, offset + byte, columns) == MonoPixels(buf, offset, width)
    {
      var bits := if columns < 8 then columns else 8;
      MonoRowStep(buf, offset + byte, columns, row);
      row := UnpackByte(row, buf[offset + byte], bits);
      columns := columns - bits;
      byte := byte + 1;
    }
    assert row + [] == row;
  }

  /** The `Mono` arm: every row's bits unpacked. */
  method PackMono(buf: seq<byte>, rows: nat, w: nat, p: nat) returns (packed: seq<byte>)
    requires w == 0 || Fits(rows, p, MonoBytes(w), |buf|)
    ensures packed == Flatten(MonoRows(buf, p, w, rows))
  {
    packed := [];
    var i := 0;
    while i < rows
      invariant 0 <= i <= rows
      invariant w == 0 || Fits(i, p, MonoBytes(w), |buf|)
      invariant packed == Flatten(MonoRows(buf, p, w, i))
    {
      MonoRowsPush(buf, p, w, rows, i);
      if w != 0 {
        var row := MonoRow(buf, i * p, w);
        packed := packed + row;
      }
      i := i + 1;
    }
  }

  /** The next row of a mono bitmap extends the flattened output by its pixels. */
  lemma {:induction false} MonoRowsPush(buf: seq<byte>, p: nat, w: nat, rows: nat, i: nat)
    requires w == 0 || Fits(rows, p, MonoBytes(w), |buf|)
    requires i < rows
    ensures w == 0 || Fits(i + 1, p, MonoBytes(w), |buf|)
    ensures w > 0 ==> 0 <= i * p && i * p + MonoBytes(w) <= |buf| && i * p + RowBytes(w) <= |buf|
    ensures w == 0 ==> Flatten(MonoRows(buf, p, w, i + 1)) == Flatten(MonoRows(buf, p, w, i))
    ensures w > 0 ==> Flatten(MonoRows(buf, p, w, i + 1)) == Flatten(MonoRows(buf, p, w, i)) + MonoPixels(buf, i * p, w)
  {
    if w > 0 {
      FitsPrefix(i + 1, rows, p, MonoBytes(w), |buf|);
      RowFits(i, rows - 1, p, MonoBytes(w), |buf|);
      RowBytesIsMonoBytes(w);
      FlattenPush(MonoRows(buf, p, w, i), MonoPixels(buf, i * p, w));
    } else {
      FlattenPush(MonoRows(buf, p, w, i), []);
    }
  }


  // ---------------------------------------------------------------------
  // Bgra: colour pixels swizzled to RGBA
  // ---------------------------------------------------------------------

  /** The `Bgra` arm: the first `rows * width` pixels swizzled to RGBA. */
  method PackBgra(buf: seq<byte>, rows: nat, w: nat) returns (packed: seq<byte>)
    requires rows * w * 4 <= |buf|
    ensures packed == SwapPixels(buf, rows * w)
  {
    var bufSize := rows * w * 4;
    ghost var pixels := rows * w;
    assert bufSize == 4 * pixels;
    packed := [];
    var i := 0;
    ghost var done := 0;
    while i < bufSize
      invariant i == 4 * done && done <= pixels
      invariant packed == SwapPixels(buf, done)
      decreases bufSize - i
    {
      packed := packed + [buf[i + 2], buf[i + 1], buf[i], buf[i + 3]];
      i := i + 4;
      done := done + 1;
    }
  }

  // ---------------------------------------------------------------------
  // The whole conversion
  // ---------------------------------------------------------------------

  /** The result of `normalize_buffer`: rows, pixels per row, and the buffer. */
  datatype Normalized = Normalized(rows: int, width: int, buffer: BitmapBuffer)

  /** What `normalize_buffer` returns for a handled mode. */
  function Normalize(bm: Bitmap, rgba: Fc.Rgba): Normalized
    requires Handled(bm.mode) && Readable(bm, rgba)
  {
    var p, w := Pitch(bm), bm.width;
    match bm.mode
    case Lcd => Normalized(bm.rows, w / 3, Rgb(Flatten(LcdRows(bm.buf, p, w, rgba == Fc.Bgr, bm.rows))))
    case LcdV =>
      Normalized(bm.rows / 3, w, Rgb(Flatten(LcdVRows(bm.buf, p, w, rgba == Fc.Vbgr, bm.rows / 3, bm.rows / 3))))
    case Mono => Normalized(bm.rows, w, Rgb(Flatten(MonoRows(bm.buf, p, w, bm.rows))))
    case Gray => Normalized(bm.rows, w, Rgb(Flatten(GrayRows(bm.buf, p, w, bm.rows))))
    case Bgra => Normalized(bm.rows, w, Rgba(SwapPixels(bm.buf, bm.rows * w)))
  }

  /** `normalize_buffer`: converts the bitmap mode by mode. */
  method NormalizeBuffer(bm: Bitmap, rgba: Fc.Rgba) returns (result: Normalized)
    requires Handled(bm.mode) && Readable(bm, rgba)
    ensures result == Normalize(bm, rgba)
  {
    var p := Pitch(bm);
    match bm.mode {
      case Lcd =>
        var packed := PackLcd(bm.buf, bm.rows, bm.width, p, rgba == Fc.Bgr);
        result := Normalized(bm.rows, bm.width / 3, Rgb(packed));
      case LcdV =>
        var packed := PackLcdV(bm.buf, bm.rows, bm.width, p, rgba == Fc.Vbgr);
        result := Normalized(bm.rows / 3, bm.width, Rgb(packed));
      case Mono =>
        var packed := PackMono(bm.buf, bm.rows, bm.width, p);
        result := Normalized(bm.rows, bm.width, Rgb(packed));
      case Gray =>
        var packed := PackGray(bm.buf, bm.rows, bm.width, p);
        result := Normalized(bm.rows, bm.width, Rgb(packed));
      case Bgra =>
        var packed := PackBgra(bm.buf, bm.rows, bm.width);
        result := Normalized(bm.rows, bm.width, Rgba(packed));
    }
  }

  // ---------------------------------------------------------------------
  // What each output byte is
  // ---------------------------------------------------------------------

  lemma {:induction false} GrayRowsUniform(buf: seq<byte>, p: nat, w: nat, n: nat)
    requires Fits(n, p, w, |buf|)
    ensures Uniform(GrayRows(buf, p, w, n), 3 * w)
  {
    forall i | 0 <= i < n
      ensures |GrayRows(buf, p, w, n)[i]| == 3 * w
    {
      GrayRowsAt(buf, p, w, n, i);
    }
  }

  lemma {:induction false} MonoRowsUniform(buf: seq<byte>, p: nat, w: nat, n: nat)
    requires w == 0 || Fits(n, p, MonoBytes(w), |buf|)
    ensures Uniform(MonoRows(buf, p, w, n), 3 * w)
  {
    forall i | 0 <= i < n
      ensures |MonoRows(buf, p, w, n)[i]| == 3 * w
    {
      MonoRowsAt(buf, p, w, n, i);
    }
  }

  lemma {:induction false} LcdRowsUniform(buf: seq<byte>, p: nat, w: nat, bgr: bool, n: nat)
    requires LcdFits(buf, p, w, bgr, n)
    ensures Uniform(LcdRows(buf, p, w, bgr, n), LcdSpan(w, bgr))
  {
    forall i | 0 <= i < n
      ensures |LcdRows(buf, p, w, bgr, n)[i]| == LcdSpan(w, bgr)
    {
      LcdRowsAt(buf, p, w, bgr, n, i);
    }
  }

  lemma {:induction false} LcdVRowsUniform(buf: seq<byte>, p: nat, w: nat, vbgr: bool, n: nat)
    requires w == 0 || Fits(3 * n, p, w, |buf|)
    ensures Uniform(LcdVRows(buf, p, w, vbgr, n, n), 3 * w)
  {
    forall i | 0 <= i < n
      ensures |LcdVRows(buf, p, w, vbgr, n, n)[i]| == 3 * w
    {
      LcdVRowsAt(buf, p, w, vbgr, n, n, i);
    }
  }

  /**
   * Size of the converted buffer: three bytes per reported pixel for the masks
   * (a BGR LCD row keeps its partial last triad), four for colour.
   */
  lemma {:induction false} NormalizeLength(bm: Bitmap, rgba: Fc.Rgba)
    requires Handled(bm.mode) && Readable(bm, rgba)
    ensures var n := Normalize(bm, rgba); var w := bm.width;
      |n.buffer.bytes| == match bm.mode
        case Gray => bm.rows * (3 * w)
        case Mono => bm.rows * (3 * w)
        case Lcd => bm.rows * LcdSpan(w, rgba == Fc.Bgr)
        case LcdV => (bm.rows / 3) * (3 * w)
        case _ => 4 * (bm.rows * w)
    ensures bm.mode == Bgra <==> Normalize(bm, rgba).buffer.Rgba?
  {
    var p, w := Pitch(bm), bm.width;
    match bm.mode
    case Gray =>
      GrayRowsUniform(bm.buf, p, w, bm.rows);
      FlattenLength(GrayRows(bm.buf, p, w, bm.rows), 3 * w);
    case Mono =>
      MonoRowsUniform(bm.buf, p, w, bm.rows);
      FlattenLength(MonoRows(bm.buf, p, w, bm.rows), 3 * w);
    case Lcd =>
      var bgr := rgba == Fc.Bgr;
      LcdRowsUniform(bm.buf, p, w, bgr, bm.rows);
      FlattenLength(LcdRows(bm.buf, p, w, bgr, bm.rows), LcdSpan(w, bgr));
    case LcdV =>
      var vbgr, n := rgba == Fc.Vbgr, bm.rows / 3;
      LcdVRowsUniform(bm.buf, p, w, vbgr, n);
      FlattenLength(LcdVRows(bm.buf, p, w, vbgr, n, n), 3 * w);
    case Bgra =>
  }

  lemma {:induction false} GrayFlatAt(buf: seq<byte>, p: nat, w: nat, n: nat, i: nat, k: nat)
    requires Fits(n, p, w, |buf|) && i < n && k < 3 * w
    ensures var out, at, start := Flatten(GrayRows(buf, p, w, n)), i * (3 * w) + k, i * p;
      0 <= at < |out| && 0 <= start && start + k / 3 < |buf| && out[at] == buf[start + k / 3]
  {
    GrayRowsUniform(buf, p, w, n);
    FlattenAt(GrayRows(buf, p, w, n), 3 * w, i, k);
    GrayRowsAt(buf, p, w, n, i);
    TripleAt(buf[i * p .. i * p + w], k);
  }

  /** Gray: byte `k` of output row `i` is source byte `k / 3` of row `i`. */
  lemma {:induction false} NormalizeGrayAt(bm: Bitmap, rgba: Fc.Rgba, i: nat, k: nat)
    requires bm.mode == Gray && Readable(bm, rgba)
    requires i < bm.rows && k < 3 * bm.width
    ensures Normalize(bm, rgba).rows == bm.rows && Normalize(bm, rgba).width == bm.width
    ensures var out, at, start := Normalize(bm, rgba).buffer.bytes, i * (3 * bm.width) + k, i * Pitch(bm);
      0 <= at < |out| && 0 <= start && start + k / 3 < |bm.buf| && out[at] == bm.buf[start + k / 3]
  {
    GrayFlatAt(bm.buf, Pitch(bm), bm.width, bm.rows, i, k);
  }

  lemma {:induction false} MonoFlatAt(buf: seq<byte>, p: nat, w: nat, n: nat, i: nat, j: nat, c: nat)
    requires Fits(n, p, MonoBytes(w), |buf|) && i < n && j < w && c < 3
    ensures var out, at, start := Flatten(MonoRows(buf, p, w, n)), i * (3 * w) + 3 * j + c, i * p;
      0 <= at < |out| && 0 <= start && start + j / 8 < |buf|
      && out[at] == MonoValue(buf[start + j / 8], 7 - j % 8)
  {
    MonoRowsUniform(buf, p, w, n);
    FlattenAt(MonoRows(buf, p, w, n), 3 * w, i, 3 * j + c);
    MonoRowsAt(buf, p, w, n, i);
    MonoPixelsAt(buf, i * p, w, j, c);
  }

  /** Mono: pixel `j` of output row `i` is bit `7 - j % 8` of the row's byte `j / 8`, as 0 or 255. */
  lemma {:induction false} NormalizeMonoAt(bm: Bitmap, rgba: Fc.Rgba, i: nat, j: nat, c: nat)
    requires bm.mode == Mono && Readable(bm, rgba)
    requires i < bm.rows && j < bm.width && c < 3
    ensures Normalize(bm, rgba).rows == bm.rows && Normalize(bm, rgba).width == bm.width
    ensures var out, at, start := Normalize(bm, rgba).buffer.bytes, i * (3 * bm.width) + 3 * j + c, i * Pitch(bm);
      0 <= at < |out| && 0 <= start && start + j / 8 < |bm.buf|
      && out[at] == MonoValue(bm.buf[start + j / 8], 7 - j % 8)
  {
    MonoFlatAt(bm.buf, Pitch(bm), bm.width, bm.rows, i, j, c);
  }

  lemma {:induction false} LcdFlatAt(buf: seq<byte>, p: nat, w: nat, n: nat, i: nat, k: nat)
    requires Fits(n, p, w, |buf|) && i < n && k < w
    ensures var out, at, start := Flatten(LcdRows(buf, p, w, false, n)), i * w + k, i * p;
      0 <= at < |out| && 0 <= start && start + k < |buf| && out[at] == buf[start + k]
  {
    LcdRowsUniform(buf, p, w, false, n);
    FlattenAt(LcdRows(buf, p, w, false, n), w, i, k);
    LcdRowsAt(buf, p, w, false, n, i);
  }

  /** Lcd, RGB order: a third of the width is reported and every row is copied. */
  lemma {:induction false} NormalizeLcdAt(bm: Bitmap, rgba: Fc.Rgba, i: nat, k: nat)
    requires bm.mode == Lcd && rgba != Fc.Bgr && Readable(bm, rgba)
    requires i < bm.rows && k < bm.width
    ensures Normalize(bm, rgba).rows == bm.rows && Normalize(bm, rgba).width == bm.width / 3
    ensures var out, at, start := Normalize(bm, rgba).buffer.bytes, i * bm.width + k, i * Pitch(bm);
      0 <= at < |out| && 0 <= start && start + k < |bm.buf| && out[at] == bm.buf[start + k]
  {
    LcdFlatAt(bm.buf, Pitch(bm), bm.width, bm.rows, i, k);
  }

  lemma {:induction false} LcdBgrFlatAt(buf: seq<byte>, p: nat, w: nat, n: nat, i: nat, t: nat, c: nat)
    requires Fits(n, p, 3 * Triads(w), |buf|) && i < n && t < Triads(w) && c < 3
    ensures var out, at, start := Flatten(LcdRows(buf, p, w, true, n)), i * (3 * Triads(w)) + 3 * t + c, i * p;
      0 <= at < |out| && 0 <= start && start + 3 * t + 2 < |buf| && out[at] == buf[start + 3 * t + 2 - c]
  {
    LcdRowsUniform(buf, p, w, true, n);
    FlattenAt(LcdRows(buf, p, w, true, n), 3 * Triads(w), i, 3 * t + c);
    LcdRowsAt(buf, p, w, true, n, i);
    assert w != 0;
    assert LcdRows(buf, p, w, true, n)[i] == ReverseTriads(buf, i * p, Triads(w));
    ReverseTriadsAt(buf, i * p, Triads(w), t, c);
  }

  /** Lcd, BGR order: channel `c` of triad `t` is byte `2 - c` of the source triad. */
  lemma {:induction false} NormalizeLcdBgrAt(bm: Bitmap, rgba: Fc.Rgba, i: nat, t: nat, c: nat)
    requires bm.mode == Lcd && rgba == Fc.Bgr && Readable(bm, rgba)
    requires i < bm.rows && t < Triads(bm.width) && c < 3
    ensures Normalize(bm, rgba).rows == bm.rows && Normalize(bm, rgba).width == bm.width / 3
    ensures var out, at, start := Normalize(bm, rgba).buffer.bytes, i * (3 * Triads(bm.width)) + 3 * t + c, i * Pitch(bm);
      0 <= at < |out| && 0 <= start && start + 3 * t + 2 < |bm.buf| && out[at] == bm.buf[start + 3 * t + 2 - c]
  {
    LcdBgrFlatAt(bm.buf, Pitch(bm), bm.width, bm.rows, i, t, c);
  }

  lemma {:induction false} LcdVFlatAt(buf: seq<byte>, p: nat, w: nat, vbgr: bool, n: nat, i: nat, j: nat, c: nat)
    requires Fits(3 * n, p, w, |buf|) && i < n && j < w && c < 3
    ensures var out, at, start := Flatten(LcdVRows(buf, p, w, vbgr, n, n)), i * (3 * w) + 3 * j + c,
                                  (3 * i + VerticalRow(vbgr, c)) * p;
      0 <= at < |out| && 0 <= start && start + j < |buf| && out[at] == buf[start + j]
  {
    LcdVRowsUniform(buf, p, w, vbgr, n);
    FlattenAt(LcdVRows(buf, p, w, vbgr, n, n), 3 * w, i, 3 * j + c);
    LcdVRowsAt(buf, p, w, vbgr, n, n, i);
    VerticalOutRowAt(buf, p, w, vbgr, n, i, j, c);
  }

  /**
   * LcdV: a third of the rows is reported; channel `c` of pixel `j` of output
   * row `i` is column `j` of source row `3 * i + c`, or `3 * i + 2 - c` for VBGR.
   */
  lemma {:induction false} NormalizeLcdVAt(bm: Bitmap, rgba: Fc.Rgba, i: nat, j: nat, c: nat)
    requires bm.mode == LcdV && Readable(bm, rgba)
    requires i < bm.rows / 3 && j < bm.width && c < 3
    ensures Normalize(bm, rgba).rows == bm.rows / 3 && Normalize(bm, rgba).width == bm.width
    ensures var out, at, start := Normalize(bm, rgba).buffer.bytes, i * (3 * bm.width) + 3 * j + c,
                                  (3 * i + VerticalRow(rgba == Fc.Vbgr, c)) * Pitch(bm);
      0 <= at < |out| && 0 <= start && start + j < |bm.buf| && out[at] == bm.buf[start + j]
  {
    LcdVFlatAt(bm.buf, Pitch(bm), bm.width, rgba == Fc.Vbgr, bm.rows / 3, i, j, c);
  }

  /** Bgra: every pixel `[b, g, r, a]` becomes `[r, g, b, a]` in an RGBA buffer. */
  lemma {:induction false} NormalizeBgraAt(bm: Bitmap, rgba: Fc.Rgba, px: nat, c: nat)
    requires bm.mode == Bgra && Readable(bm, rgba)
    requires px < bm.rows * bm.width && c < 4
    ensures Normalize(bm, rgba).rows == bm.rows && Normalize(bm, rgba).width == bm.width
    ensures 4 * px + c < |Normalize(bm, rgba).buffer.bytes|
    ensures Normalize(bm, rgba).buffer.bytes[4 * px + c] == bm.buf[4 * px + SwapChannel(c)]
  {
    SwapPixelsAt(bm.buf, bm.rows * bm.width, px, c);
  }
}
