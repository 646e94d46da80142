/**
 * Conversion of the CoreGraphics bitmap context's pixels into the canonical
 * buffers: RGBA for coloured glyphs and RGB for the others.
 *
 * The context is created premultiplied-alpha-first in host byte order, so a
 * pixel with channels (a, r, g, b) is stored as the 32-bit word `argb`: in
 * memory `[b, g, r, a]` on a little-endian host and `[a, r, g, b]` on a
 * big-endian one.  `HostMemory` describes that layout, and the lemmas at the
 * end of this module check every extractor against it.
 */
module ByteOrder {
  import opened Crossfont
  import opened Pixels

  // ---------------------------------------------------------------------
  // Little-endian hosts
  // ---------------------------------------------------------------------

  /** Little-endian `extract_rgba`: every whole BGRA pixel becomes RGBA. */
  method ExtractRgbaLe(bytes: seq<byte>) returns (rgb: seq<byte>)
    ensures rgb == SwapRedBlue(bytes)
  {
    var pixels := |bytes| / 4;
    rgb := [];
    var i := 0;
    while i < pixels
      invariant 0 <= i <= pixels
      invariant rgb == SwapPixels(bytes, i)
    {
      var offset := i * 4;
      rgb := rgb + [bytes[offset + 2], bytes[offset + 1], bytes[offset], bytes[offset + 3]];
      i := i + 1;
    }
  }

  /** The first `n` whole BGRA pixels as RGB triples; alpha is discarded. */
  function DropAlphaPixels(s: seq<byte>, n: nat): (r: seq<byte>)
    requires 4 * n <= |s|
    ensures |r| == 3 * n
  {
    if n == 0 then []
    else
      var o := 4 * (n - 1);
      DropAlphaPixels(s, n - 1) + [s[o + 2], s[o + 1], s[o]]
  }

  /** Channel `c` of RGB pixel `p` is byte `2 - c` of BGRA pixel `p`. */
  lemma {:induction false} DropAlphaPixelsAt(s: seq<byte>, n: nat, p: nat, c: nat)
    requires 4 * n <= |s| && p < n && c < 3
    ensures DropAlphaPixels(s, n)[3 * p + c] == s[4 * p + 2 - c]
    decreases n
  {
    if p < n - 1 {
      DropAlphaPixelsAt(s, n - 1, p, c);
    }
  }

  /** Every whole pixel of a little-endian buffer, as RGB. */
  function DropAlpha(s: seq<byte>): (r: seq<byte>)
    ensures |r| == 3 * (|s| / 4)
  {
    DropAlphaPixels(s, |s| / 4)
  }

  /** The RGB output is the RGBA output with every alpha byte removed. */
  lemma {:induction false} DropAlphaIsSwapWithoutAlpha(s: seq<byte>, p: nat, c: nat)
    requires p < |s| / 4 && c < 3
    ensures DropAlpha(s)[3 * p + c] == SwapRedBlue(s)[4 * p + c]
  {
    DropAlphaPixelsAt(s, |s| / 4, p, c);
    SwapPixelsAt(s, |s| / 4, p, c);
  }

  /** Little-endian `extract_rgb`: every whole BGRA pixel becomes RGB. */
  method ExtractRgbLe(bytes: seq<byte>) returns (rgb: seq<byte>)
    ensures rgb == DropAlpha(bytes)
  {
    var pixels := |bytes| / 4;
    rgb := [];
    var i := 0;
    while i < pixels
      invariant 0 <= i <= pixels
      invariant rgb == DropAlphaPixels(bytes, i)
    {
      var offset := i * 4;
      rgb := rgb + [bytes[offset + 2], bytes[offset + 1], bytes[offset]];
      i := i + 1;
    }
  }

  // ---------------------------------------------------------------------
  // Big-endian hosts
  // ---------------------------------------------------------------------

  /** Big-endian `extract_rgba`, as written: the buffer is returned unchanged. */
  function ExtractRgbaBe(bytes: seq<byte>): (r: seq<byte>)
    ensures |r| == |bytes|
  {
    bytes
  }

  /**
   * Big-endian `extract_rgb`: the bytes whose index is not a multiple of 4,
   * in their original order.
   */
  function ExtractRgbBe(bytes: seq<byte>): (r: seq<byte>)
    decreases |bytes|
  {
    if bytes == [] then []
    else
      var m := |bytes| - 1;
      ExtractRgbBe(bytes[..m]) + if m % 4 != 0 then [bytes[m]] else []
  }

  /**
   * Exactly one byte in four is dropped (the first of each group, including
   * a trailing partial group), and output byte `k` is input byte
   * `k + k / 3 + 1`: the bytes kept are those at indices 1, 2, 3, 5, 6, 7, ….
   */
  lemma {:induction false} ExtractRgbBeAt(bytes: seq<byte>)
    ensures |ExtractRgbBe(bytes)| == |bytes| - (|bytes| + 3) / 4
    ensures forall k :: 0 <= k < |ExtractRgbBe(bytes)| ==>
      k + k / 3 + 1 < |bytes| && ExtractRgbBe(bytes)[k] == bytes[k + k / 3 + 1]
    decreases |bytes|
  {
    if bytes != [] {
      var m := |bytes| - 1;
      var front := bytes[..m];
      ExtractRgbBeAt(front);
      var q, c := m / 4, m % 4;
      assert m == 4 * q + c;
      var prev := ExtractRgbBe(front);
      if c == 0 {
        assert (m + 3) / 4 == q;
        assert (m + 4) / 4 == q + 1;
        assert ExtractRgbBe(bytes) == prev;
      } else {
        assert (m + 3) / 4 == q + 1;
        assert (m + 4) / 4 == q + 1;
        assert ExtractRgbBe(bytes) == prev + [bytes[m]];
        var k := |prev|;
        assert k == 3 * q + c - 1;
        assert k / 3 == q;
      }
    }
  }

  /** Every index that is not a multiple of 4 is kept, at output `i - i / 4 - 1`. */
  lemma {:induction false} ExtractRgbBeKeeps(bytes: seq<byte>, i: nat)
    requires i < |bytes| && i % 4 != 0
    ensures i - i / 4 - 1 < |ExtractRgbBe(bytes)|
    ensures ExtractRgbBe(bytes)[i - i / 4 - 1] == bytes[i]
  {
    ExtractRgbBeAt(bytes);
    var k := i - i / 4 - 1;
    var q, c := i / 4, i % 4;
    assert i == 4 * q + c;
    assert k == 3 * q + c - 1;
    assert k / 3 == q;
  }

  // ---------------------------------------------------------------------
  // The host layout, and what each extractor makes of it
  // ---------------------------------------------------------------------

  /** One premultiplied pixel as the bitmap context stores it. */
  datatype Argb = Argb(a: byte, r: byte, g: byte, b: byte)

  /** The four bytes of one pixel in host memory. */
  function HostWord(p: Argb, bigEndian: bool): (w: seq<byte>)
    ensures |w| == 4
    ensures bigEndian ==> w[0] == p.a && w[1] == p.r && w[2] == p.g && w[3] == p.b
    ensures !bigEndian ==> w[0] == p.b && w[1] == p.g && w[2] == p.r && w[3] == p.a
  {
    if bigEndian then [p.a, p.r, p.g, p.b] else [p.b, p.g, p.r, p.a]
  }

  /** The context's data: each pixel's word, in order. */
  function HostMemory(px: seq<Argb>, bigEndian: bool): (m: seq<byte>)
    ensures |m| == 4 * |px|
    decreases |px|
  {
    if px == [] then []
    else HostMemory(px[..|px| - 1], bigEndian) + HostWord(px[|px| - 1], bigEndian)
  }

  lemma {:induction false} HostMemoryAt(px: seq<Argb>, bigEndian: bool, p: nat, c: nat)
    requires p < |px| && c < 4
    ensures HostMemory(px, bigEndian)[4 * p + c] == HostWord(px[p], bigEndian)[c]
    decreases |px|
  {
    var n := |px| - 1;
    if p < n {
      HostMemoryAt(px[..n], bigEndian, p, c);
    }
  }

  /** The canonical RGBA buffer of the pixels. */
  function RgbaOf(px: seq<Argb>): (m: seq<byte>)
    ensures |m| == 4 * |px|
    decreases |px|
  {
    if px == [] then []
    else
      var p := px[|px| - 1];
      RgbaOf(px[..|px| - 1]) + [p.r, p.g, p.b, p.a]
  }

  lemma {:induction false} RgbaOfAt(px: seq<Argb>, p: nat, c: nat)
    requires p < |px| && c < 4
    ensures RgbaOf(px)[4 * p + c] == [px[p].r, px[p].g, px[p].b, px[p].a][c]
    decreases |px|
  {
    var n := |px| - 1;
    if p < n {
      RgbaOfAt(px[..n], p, c);
    }
  }

  /** The canonical RGB buffer of the pixels. */
  function RgbOf(px: seq<Argb>): (m: seq<byte>)
    ensures |m| == 3 * |px|
    decreases |px|
  {
    if px == [] then []
    else
      var p := px[|px| - 1];
      RgbOf(px[..|px| - 1]) + [p.r, p.g, p.b]
  }

  lemma {:induction false} RgbOfAt(px: seq<Argb>, p: nat, c: nat)
    requires p < |px| && c < 3
    ensures RgbOf(px)[3 * p + c] == [px[p].r, px[p].g, px[p].b][c]
    decreases |px|
  {
    var n := |px| - 1;
    if p < n {
      RgbOfAt(px[..n], p, c);
    }
  }

  /** On a little-endian host, `extract_rgba` yields the canonical RGBA buffer. */
  lemma {:induction false} ExtractRgbaLeCorrect(px: seq<Argb>)
    ensures SwapRedBlue(HostMemory(px, false)) == RgbaOf(px)
  {
    var mem := HostMemory(px, false);
    var n := |px|;
    assert |mem| / 4 == n;
    forall k | 0 <= k < 4 * n
      ensures SwapRedBlue(mem)[k] == RgbaOf(px)[k]
    {
      var p, c := k / 4, k % 4;
      SwapPixelsAt(mem, n, p, c);
      HostMemoryAt(px, false, p, SwapChannel(c));
      RgbaOfAt(px, p, c);
    }
  }

  /** On a little-endian host, `extract_rgb` yields the canonical RGB buffer. */
  lemma {:induction false} ExtractRgbLeCorrect(px: seq<Argb>)
    ensures DropAlpha(HostMemory(px, false)) == RgbOf(px)
  {
    var mem := HostMemory(px, false);
    var n := |px|;
    assert |mem| / 4 == n;
    forall k | 0 <= k < 3 * n
      ensures DropAlpha(mem)[k] == RgbOf(px)[k]
    {
      var p, c := k / 3, k % 3;
      DropAlphaPixelsAt(mem, n, p, c);
      HostMemoryAt(px, false, p, 2 - c);
      RgbOfAt(px, p, c);
    }
  }

  /** On a big-endian host, `extract_rgb` yields the canonical RGB buffer. */
  lemma {:induction false} ExtractRgbBeCorrect(px: seq<Argb>)
    ensures ExtractRgbBe(HostMemory(px, true)) == RgbOf(px)
  {
    var mem := HostMemory(px, true);
    var n := |px|;
    ExtractRgbBeAt(mem);
    assert (4 * n + 3) / 4 == n;
    forall k | 0 <= k < 3 * n
      ensures ExtractRgbBe(mem)[k] == RgbOf(px)[k]
    {
      var p, c := k / 3, k % 3;
      assert k + k / 3 + 1 == 4 * p + c + 1;
      HostMemoryAt(px, true, p, c + 1);
      RgbOfAt(px, p, c);
    }
  }

  /**
   * Big-endian `extract_rgba` hands back ARGB: one opaque pixel with distinct
   * channels is enough to tell it from the canonical RGBA buffer.
   */
  lemma {:induction false} ExtractRgbaBeIsArgb()
    ensures ExtractRgbaBe(HostMemory([Argb(1, 2, 3, 4)], true)) == [1, 2, 3, 4]
    ensures RgbaOf([Argb(1, 2, 3, 4)]) == [2, 3, 4, 1]
    ensures ExtractRgbaBe(HostMemory([Argb(1, 2, 3, 4)], true)) != RgbaOf([Argb(1, 2, 3, 4)])
  {
    var px := [Argb(1, 2, 3, 4)];
    assert px[..0] == [];
    assert HostMemory(px, true) == [1, 2, 3, 4];
    assert RgbaOf(px) == [2, 3, 4, 1];
  }

  /** The first `n` whole ARGB pixels rotated to RGBA. */
  function RotateAlphaPixels(s: seq<byte>, n: nat): (r: seq<byte>)
    requires 4 * n <= |s|
    ensures |r| == 4 * n
  {
    if n == 0 then []
    else
      var o := 4 * (n - 1);
      RotateAlphaPixels(s, n - 1) + [s[o + 1], s[o + 2], s[o + 3], s[o]]
  }

  lemma {:induction false} RotateAlphaPixelsAt(s: seq<byte>, n: nat, p: nat, c: nat)
    requires 4 * n <= |s| && p < n && c < 4
    ensures RotateAlphaPixels(s, n)[4 * p + c] == s[4 * p + (c + 1) % 4]
    decreases n
  {
    if p < n - 1 {
      RotateAlphaPixelsAt(s, n - 1, p, c);
    }
  }

  /** Big-endian RGBA extraction as intended: each ARGB pixel rotated to RGBA. */
  function ExtractRgbaBeFixed(bytes: seq<byte>): (r: seq<byte>)
    ensures |r| == 4 * (|bytes| / 4)
  {
    RotateAlphaPixels(bytes, |bytes| / 4)
  }

  /** The corrected big-endian extractor agrees with the little-endian one. */
  lemma {:induction false} ExtractRgbaBeFixedCorrect(px: seq<Argb>)
    ensures ExtractRgbaBeFixed(HostMemory(px, true)) == RgbaOf(px)
    ensures ExtractRgbaBeFixed(HostMemory(px, true)) == SwapRedBlue(HostMemory(px, false))
  {
    var mem := HostMemory(px, true);
    var n := |px|;
    assert |mem| / 4 == n;
    forall k | 0 <= k < 4 * n
      ensures ExtractRgbaBeFixed(mem)[k] == RgbaOf(px)[k]
    {
      var p, c := k / 4, k % 4;
      RotateAlphaPixelsAt(mem, n, p, c);
      HostMemoryAt(px, true, p, (c + 1) % 4);
      RgbaOfAt(px, p, c);
    }
    ExtractRgbaLeCorrect(px);
  }
}
