/**
 * Pixel-buffer building blocks shared by the backends' normalisers: rows
 * concatenated into one buffer, a grey level widened to an RGB triple, and the
 * BGRA-to-RGBA channel swap.
 */
module Pixels {
  import opened Crossfont

  /** The rows of a bitmap concatenated in order. */
  function Flatten(rows: seq<seq<byte>>): seq<byte>
    decreases |rows|
  {
    if rows == [] then [] else Flatten(rows[..|rows| - 1]) + rows[|rows| - 1]
  }

  /** Every row has `len` bytes. */
  ghost predicate Uniform(rows: seq<seq<byte>>, len: nat) {
    forall i :: 0 <= i < |rows| ==> |rows[i]| == len
  }

  lemma {:induction false} FlattenLength(rows: seq<seq<byte>>, len: nat)
    requires Uniform(rows, len)
    ensures |Flatten(rows)| == |rows| * len
    decreases |rows|
  {
    if rows != [] {
      FlattenLength(rows[..|rows| - 1], len);
    }
  }

  /** `Flatten` distributes over concatenation of row lists. */
  lemma {:induction false} FlattenAppend(a: seq<seq<byte>>, b: seq<seq<byte>>)
    ensures Flatten(a + b) == Flatten(a) + Flatten(b)
    decreases |b|
  {
    if b == [] {
      assert a + b == a;
    } else {
      var n := |b| - 1;
      var ab := a + b;
      assert ab[..|ab| - 1] == a + b[..n];
      assert ab[|ab| - 1] == b[n];
      calc {
        Flatten(ab);
        Flatten(a + b[..n]) + b[n];
        { FlattenAppend(a, b[..n]); }
        (Flatten(a) + Flatten(b[..n])) + b[n];
        Flatten(a) + (Flatten(b[..n]) + b[n]);
        { assert b[..|b| - 1] == b[..n]; }
        Flatten(a) + Flatten(b);
      }
    }
  }

  lemma {:induction false} SplitAround<T>(s: seq<T>, i: nat)
    requires i < |s|
    ensures s == s[..i] + [s[i]] + s[i + 1..]
  {
    assert s[..i + 1] == s[..i] + [s[i]];
  }

  /** The concatenation splits around any one row. */
  lemma {:induction false} FlattenSplit(rows: seq<seq<byte>>, i: nat)
    requires i < |rows|
    ensures Flatten(rows) == Flatten(rows[..i]) + rows[i] + Flatten(rows[i + 1..])
  {
    var row := rows[i];
    SplitAround(rows, i);
    FlattenAppend(rows[..i] + [row], rows[i + 1..]);
    FlattenAppend(rows[..i], [row]);
    assert Flatten([row]) == row by {
      assert [row][..0] == [];
    }
  }

  /** Byte `j` of row `i` sits at offset `i * len + j` of the concatenation. */
  lemma {:induction false} FlattenAt(rows: seq<seq<byte>>, len: nat, i: nat, j: nat)
    requires Uniform(rows, len)
    requires i < |rows| && j < len
    ensures |Flatten(rows)| == |rows| * len
    ensures 0 <= i * len && i * len + j < |Flatten(rows)|
    ensures Flatten(rows)[i * len + j] == rows[i][j]
  {
    MulMonotone(0, i, len);
    FlattenLength(rows, len);
    FlattenSplit(rows, i);
    var head := Flatten(rows[..i]);
    assert Uniform(rows[..i], len);
    FlattenLength(rows[..i], len);
    var k := i * len + j;
    assert k == |head| + j;
    assert (head + rows[i])[k] == rows[i][j];
    assert (head + rows[i] + Flatten(rows[i + 1..]))[k] == (head + rows[i])[k];
  }

  /** `Flatten` of a row list with one more row appends that row. */
  lemma {:induction false} FlattenPush(rows: seq<seq<byte>>, row: seq<byte>)
    ensures Flatten(rows + [row]) == Flatten(rows) + row
  {
    assert (rows + [row])[..|rows|] == rows;
  }

  /** Multiplication by a natural number is monotone. */
  lemma {:induction false} MulMonotone(a: nat, b: nat, c: nat)
    requires a <= b
    ensures a * c <= b * c
  {
    var d := b - a;
    assert b * c == a * c + d * c;
  }

  /** A row that fits at the last start offset fits at every earlier one. */
  lemma {:induction false} RowFits(i: nat, last: nat, pitch: nat, span: nat, size: nat)
    requires i <= last && last * pitch + span <= size
    ensures 0 <= i * pitch && i * pitch + span <= size
  {
    MulMonotone(0, i, pitch);
    MulMonotone(i, last, pitch);
  }

  /** `n` rows of `span` bytes, `pitch` apart, lie inside a buffer of `size` bytes. */
  predicate Fits(n: nat, pitch: nat, span: nat, size: nat) {
    n == 0 || (n - 1) * pitch + span <= size
  }

  /** The rows before the last of a fitting block fit too. */
  lemma {:induction false} FitsFewer(n: nat, pitch: nat, span: nat, size: nat)
    requires n > 0 && Fits(n, pitch, span, size)
    ensures Fits(n - 1, pitch, span, size)
    ensures 0 <= (n - 1) * pitch && (n - 1) * pitch + span <= size
  {
    if n > 1 {
      RowFits(n - 2, n - 1, pitch, span, size);
    }
    RowFits(n - 1, n - 1, pitch, span, size);
  }

  /** A block that fits still fits with fewer rows. */
  lemma {:induction false} FitsPrefix(m: nat, n: nat, pitch: nat, span: nat, size: nat)
    requires m <= n && Fits(n, pitch, span, size)
    ensures Fits(m, pitch, span, size)
  {
    if m > 0 {
      RowFits(m - 1, n - 1, pitch, span, size);
    }
  }

  /** Each byte written three times: a grey level as an RGB triple. */
  function Triple(s: seq<byte>): (r: seq<byte>)
    ensures |r| == 3 * |s|
    decreases |s|
  {
    if s == [] then []
    else
      var x := s[|s| - 1];
      Triple(s[..|s| - 1]) + [x, x, x]
  }

  /** `Triple` of one more byte appends three copies of it. */
  lemma {:induction false} TripleSnoc(s: seq<byte>, j: nat)
    requires j < |s|
    ensures Triple(s[..j + 1]) == Triple(s[..j]) + [s[j], s[j], s[j]]
  {
    assert s[..j + 1][..j] == s[..j];
  }

  /** Output byte `k` of `Triple` is a copy of input byte `k / 3`. */
  lemma {:induction false} TripleAt(s: seq<byte>, k: nat)
    requires k < 3 * |s|
    ensures Triple(s)[k] == s[k / 3]
    decreases |s|
  {
    var n := |s| - 1;
    if k < 3 * n {
      TripleAt(s[..n], k);
    }
  }

  /** Position of the byte of a BGRA pixel that lands at RGBA channel `c`. */
  function SwapChannel(c: nat): (src: nat)
    requires c < 4
    ensures src < 4
    ensures (c == 3) == (src == 3)
  {
    if c == 3 then 3 else 2 - c
  }

  lemma {:induction false} SwapChannelInvolution(c: nat)
    requires c < 4
    ensures SwapChannel(SwapChannel(c)) == c
  {
  }

  /** The first `n` whole pixels with bytes 0 and 2 exchanged: BGRA to RGBA. */
  function SwapPixels(s: seq<byte>, n: nat): (r: seq<byte>)
    requires 4 * n <= |s|
    ensures |r| == 4 * n
  {
    if n == 0 then []
    else
      var o := 4 * (n - 1);
      SwapPixels(s, n - 1) + [s[o + 2], s[o + 1], s[o], s[o + 3]]
  }

  /** Channel `c` of output pixel `p` is channel `SwapChannel(c)` of input pixel `p`. */
  lemma {:induction false} SwapPixelsAt(s: seq<byte>, n: nat, p: nat, c: nat)
    requires 4 * n <= |s| && p < n && c < 4
    ensures SwapPixels(s, n)[4 * p + c] == s[4 * p + SwapChannel(c)]
    decreases n
  {
    if p < n - 1 {
      SwapPixelsAt(s, n - 1, p, c);
    }
  }

  /**
   * Every whole 4-byte pixel `[b, g, r, a]` becomes `[r, g, b, a]`; bytes past
   * the last whole pixel are dropped.
   */
  function SwapRedBlue(s: seq<byte>): (r: seq<byte>)
    ensures |r| == 4 * (|s| / 4)
  {
    SwapPixels(s, |s| / 4)
  }

  /** Output byte `k` of `SwapRedBlue` comes from the same pixel, channel swapped. */
  lemma {:induction false} SwapRedBlueAt(s: seq<byte>, k: nat)
    requires k < 4 * (|s| / 4)
    ensures 4 * (k / 4) + SwapChannel(k % 4) < |s|
    ensures SwapRedBlue(s)[k] == s[4 * (k / 4) + SwapChannel(k % 4)]
  {
    SwapPixelsAt(s, |s| / 4, k / 4, k % 4);
  }

  /** Swapping twice restores every byte of a whole pixel. */
  lemma {:induction false} SwapTwiceAt(s: seq<byte>, n: nat, p: nat, c: nat)
    requires 4 * n <= |s| && p < n && c < 4
    ensures SwapPixels(SwapPixels(s, n), n)[4 * p + c] == s[4 * p + c]
  {
    var once := SwapPixels(s, n);
    var src := SwapChannel(c);
    SwapChannelInvolution(c);
    SwapPixelsAt(once, n, p, c);
    SwapPixelsAt(s, n, p, src);
  }

  /** Swapping twice restores a buffer of whole pixels. */
  lemma {:induction false} SwapRedBlueInvolution(s: seq<byte>)
    requires |s| % 4 == 0
    ensures SwapRedBlue(SwapRedBlue(s)) == s
  {
    var n := |s| / 4;
    var twice := SwapPixels(SwapPixels(s, n), n);
    assert SwapRedBlue(SwapRedBlue(s)) == twice;
    forall k | 0 <= k < |s|
      ensures twice[k] == s[k]
    {
      SwapTwiceAt(s, n, k / 4, k % 4);
    }
  }

  /** 2^k. */
  function Pow2(k: nat): (p: nat)
    ensures p > 0
  {
    if k == 0 then 1 else 2 * Pow2(k - 1)
  }
}
