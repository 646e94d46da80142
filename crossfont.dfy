/**
 * Shared types of the rasterizer abstraction (src/lib.rs): font descriptions,
 * font keys and their allocator, the half-point `Size`, rasterized glyphs and
 * the error taxonomy.
 *
 * The repository's backends disagree on some spellings of these shared types;
 * this model uses one definition: `BitmapBuffer.Rgb`/`Rgba`, `Error.MetricsNotFound`,
 * and a `RasterizedGlyph` that carries the `advance` the FreeType backend sets.
 */
module Crossfont {

  /** One byte of a pixel buffer (Rust `u8`). */
  newtype byte = x: int | 0 <= x < 256

  /** Rust `i16`, the payload of `Size`. */
  newtype i16 = x: int | -0x8000 <= x < 0x8000

  const I16_MIN: int := -0x8000
  const I16_MAX: int := 0x7FFF

  /** 2^32: `FontKey` tokens are `u32`. */
  const U32_MODULUS: int := 0x1_0000_0000

  /** Rust `u32`: font-key tokens and Fontconfig pattern hashes. */
  newtype u32 = x: int | 0 <= x < 0x1_0000_0000

  datatype Slant = Normal | Italic | Oblique

  datatype Weight = Normal | Bold

  datatype Style = Specific(name: string) | Description(slant: Slant, weight: Weight)

  datatype FontDesc = FontDesc(name: string, style: Style)

  /** Derived `PartialEq` on `FontDesc` and `Style` is structural. */
  lemma {:induction false} FontDescEquality(a: FontDesc, b: FontDesc)
    ensures a == b <==> a.name == b.name && a.style == b.style
    ensures a.style.Specific? && b.style.Specific? ==>
              (a.style == b.style <==> a.style.name == b.style.name)
    ensures a.style.Description? && b.style.Description? ==>
              (a.style == b.style <==> a.style.slant == b.style.slant && a.style.weight == b.style.weight)
    ensures a.style.Specific? != b.style.Specific? ==> a != b
  {
  }

  /** Opaque font identifier; equality and hashing on the `u32` token alone. */
  datatype FontKey = FontKey(token: u32)

  /** The token the allocator hands out for its `n`-th call: the `usize` counter truncated to `u32`. */
  function TokenOf(n: nat): (k: FontKey)
    ensures k.token as int == n % U32_MODULUS
    ensures n < U32_MODULUS ==> k.token as int == n
  {
    FontKey((n % U32_MODULUS) as u32)
  }

  /**
   * Successive allocations are strictly increasing by one and never repeat,
   * as long as the counter has not passed 2^32.
   */
  lemma {:induction false} TokensIncreasing(i: nat, j: nat)
    requires i < j < U32_MODULUS
    ensures TokenOf(i).token < TokenOf(j).token
    ensures TokenOf(i) != TokenOf(j)
    ensures j == i + 1 ==> TokenOf(j).token as int == TokenOf(i).token as int + 1
  {
    assert TokenOf(i).token as int == i;
    assert TokenOf(j).token as int == j;
  }

  /** The `as u32` cast wraps: the 2^32-th allocation repeats the first token. */
  lemma {:induction false} TokenWraps(n: nat)
    ensures TokenOf(n + U32_MODULUS) == TokenOf(n)
  {
    assert (n + U32_MODULUS) % U32_MODULUS == n % U32_MODULUS;
  }

  /**
   * `FontKey::next`: the process-wide atomic counter, made an explicit
   * sequential allocator object.
   */
  class KeyAllocator {
    /** The value `fetch_add` will return next. */
    var next: nat
    /** Every key handed out so far. */
    ghost var issued: set<FontKey>

    ghost predicate Valid()
      reads this
    {
      forall k :: k in issued ==> k.token as int < next
    }

    constructor ()
      ensures Valid() && next == 0 && issued == {}
    {
      next := 0;
      issued := {};
    }

    method Next() returns (k: FontKey)
      requires Valid()
      modifies this
      ensures Valid()
      ensures k == TokenOf(old(next)) && next == old(next) + 1
      ensures issued == old(issued) + {k}
      ensures old(next) < U32_MODULUS ==> k !in old(issued)
    {
      k := TokenOf(next);
      next := next + 1;
      issued := issued + {k};
    }
  }

  /** Font size in half points: `Size(i16)` with scale factor 2. */
  datatype Size = Size(halfPoints: i16)

  /** `Size::factor`. */
  const SIZE_FACTOR: int := 2

  /** Derived `Ord` on `Size` compares the payload. */
  predicate SizeLess(a: Size, b: Size) {
    a.halfPoints < b.halfPoints
  }

  lemma {:induction false} SizeOrder(a: Size, b: Size)
    ensures SizeLess(a, b) <==> a.halfPoints as int < b.halfPoints as int
    ensures a == b <==> a.halfPoints == b.halfPoints
    ensures SizeLess(a, b) || SizeLess(b, a) || a == b
  {
  }

  /** `Size + Size`: `i16::saturating_add`. */
  function Add(a: Size, b: Size): (r: Size)
    ensures I16_MIN <= a.halfPoints as int + b.halfPoints as int <= I16_MAX ==>
              r.halfPoints as int == a.halfPoints as int + b.halfPoints as int
    ensures a.halfPoints as int + b.halfPoints as int > I16_MAX ==> r.halfPoints as int == I16_MAX
    ensures a.halfPoints as int + b.halfPoints as int < I16_MIN ==> r.halfPoints as int == I16_MIN
  {
    var s := a.halfPoints as int + b.halfPoints as int;
    if s > I16_MAX then Size(I16_MAX as i16)
    else if s < I16_MIN then Size(I16_MIN as i16)
    else Size(s as i16)
  }

  lemma {:induction false} AddProperties(a: Size, b: Size, c: Size)
    ensures Add(a, b) == Add(b, a)
    ensures Add(a, Size(0)) == a
    ensures a.halfPoints <= b.halfPoints ==> Add(a, c).halfPoints <= Add(b, c).halfPoints
  {
  }

  /**
   * `Size * Size`: plain `i16` multiplication, which panics on overflow in
   * debug builds, so callers keep the product in range.
   */
  function Mul(a: Size, b: Size): (r: Size)
    requires I16_MIN <= a.halfPoints as int * b.halfPoints as int <= I16_MAX
    ensures r.halfPoints as int == a.halfPoints as int * b.halfPoints as int
  {
    Size((a.halfPoints as int * b.halfPoints as int) as i16)
  }

  /**
   * In range, `Size * Size` is commutative, has the payload 1 as identity
   * and 0 as annihilator, and multiplying by 2 is saturating self-addition.
   */
  lemma MulProperties(a: Size, b: Size)
    requires I16_MIN <= a.halfPoints as int * b.halfPoints as int <= I16_MAX
    ensures Mul(a, b) == Mul(b, a)
    ensures Mul(a, Size(1)) == a && Mul(a, Size(0)) == Size(0)
    ensures I16_MIN <= 2 * a.halfPoints as int <= I16_MAX ==> Mul(a, Size(2)) == Add(a, a)
  {
  }

  datatype GlyphKey = GlyphKey(character: char, fontKey: FontKey, size: Size)

  /**
   * A face's character map as every backend queries it (FreeType's
   * `get_char_index`, DirectWrite's `get_glyph_indices`): the glyph index
   * of a character, and 0, the missing glyph, for a character the face
   * does not map.
   */
  function CharIndex(glyphs: map<char, nat>, c: char): (index: nat)
    ensures index != 0 ==> c in glyphs && glyphs[c] == index
    ensures c !in glyphs ==> index == 0
  {
    if c in glyphs then glyphs[c] else 0
  }

  datatype BitmapBuffer =
    | Rgb(bytes: seq<byte>)   // RGB alpha mask
    | Rgba(bytes: seq<byte>)  // RGBA pixels with premultiplied alpha

  datatype RasterizedGlyph = RasterizedGlyph(
    character: char,
    width: int,
    height: int,
    top: int,
    left: int,
    advance: (int, int),
    buffer: BitmapBuffer)

  /** `RasterizedGlyph::default`: a blank space glyph with an empty RGB buffer. */
  function DefaultGlyph(): (g: RasterizedGlyph)
    ensures g.character == ' '
    ensures g.width == 0 && g.height == 0 && g.top == 0 && g.left == 0
    ensures g.buffer.Rgb? && |g.buffer.bytes| == 0
  {
    RasterizedGlyph(' ', 0, 0, 0, 0, (0, 0), Rgb([]))
  }

  datatype Error =
    | FontNotFound(desc: FontDesc)
    | MetricsNotFound
    | MissingGlyph(glyph: RasterizedGlyph)
    | UnknownFontKey
    | PlatformError(message: string)
}
