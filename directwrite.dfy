/**
 * The DirectWrite backend (src/directwrite/mod.rs): the texture type chosen
 * from the system's font-smoothing setting, the conversion of alpha
 * textures to RGB, the font cache keyed by descriptor with its search for a
 * named face, and the primary-or-fallback choice of a glyph.
 *
 * DirectWrite itself is observed through data: a font collection, each
 * family's fonts and its best match for a weight and style, the system
 * fallback, and the alpha texture a glyph run renders to.
 */
module DirectWrite {
  import opened Wrappers
  import opened Crossfont
  import opened Pixels

  /** DirectWrite's alpha texture types. */
  datatype TextureType = Aliased1x1 | ClearType3x1

  /** The texture type `new` chooses: aliased when font smoothing is off. */
  function TextureTypeFor(useSmoothing: int): (t: TextureType)
    ensures t == Aliased1x1 <==> useSmoothing == 0
    ensures t == ClearType3x1 <==> useSmoothing != 0
  {
    if useSmoothing == 0 then Aliased1x1 else ClearType3x1
  }

  /**
   * `normalize_buffer`: a ClearType texture already has three bytes per
   * pixel; an aliased one has one, which is repeated three times.
   */
  method NormalizeBuffer(textureType: TextureType, buffer: seq<byte>) returns (normalized: seq<byte>)
    ensures textureType == ClearType3x1 ==> normalized == buffer
    ensures textureType == Aliased1x1 ==> normalized == Triple(buffer)
  {
    if textureType == ClearType3x1 {
      return buffer;
    }
    normalized := [];
    var i := 0;
    while i < |buffer|
      invariant 0 <= i <= |buffer|
      invariant normalized == Triple(buffer[..i])
    {
      TripleSnoc(buffer, i);
      var pix := buffer[i];
      normalized := normalized + [pix, pix, pix];
      i := i + 1;
    }
    assert buffer[..i] == buffer;
  }

  /** An aliased texture's normalized buffer holds each alpha byte three times in a row. */
  lemma {:induction false} AliasedTriplicates(buffer: seq<byte>, i: nat)
    requires i < |buffer|
    ensures |Triple(buffer)| == 3 * |buffer|
    ensures Triple(buffer)[3 * i] == buffer[i]
    ensures Triple(buffer)[3 * i + 1] == buffer[i]
    ensures Triple(buffer)[3 * i + 2] == buffer[i]
  {
    TripleAt(buffer, 3 * i);
    TripleAt(buffer, 3 * i + 1);
    TripleAt(buffer, 3 * i + 2);
  }

  /** DirectWrite font weight, by its numeric value. */
  datatype FontWeight = FontWeight(value: nat)

  const REGULAR := FontWeight(400)
  const BOLD := FontWeight(700)

  /** DirectWrite font style. */
  datatype FontStyle = Normal | Oblique | Italic

  /** `From<Weight> for FontWeight`. */
  function ToFontWeight(w: Weight): (fw: FontWeight)
    ensures fw == BOLD <==> w == Weight.Bold
    ensures fw == REGULAR <==> w == Weight.Normal
  {
    match w
    case Bold => BOLD
    case Normal => REGULAR
  }

  /** `From<Slant> for FontStyle`: each slant has its own style. */
  function ToFontStyle(s: Slant): (fs: FontStyle)
    ensures fs == FontStyle.Normal <==> s == Slant.Normal
    ensures fs == FontStyle.Italic <==> s == Slant.Italic
    ensures fs == FontStyle.Oblique <==> s == Slant.Oblique
  {
    match s
    case Oblique => FontStyle.Oblique
    case Italic => FontStyle.Italic
    case Normal => FontStyle.Normal
  }

  /** A font face's character map: the glyph `get_glyph_indices` gives for a character. */
  datatype FontFace = FontFace(glyphs: map<char, nat>)

  /** The index 0 stands for a missing glyph. */
  const MISSING_GLYPH_INDEX: nat := 0

  /** A font of a DirectWrite family (`dwrote::Font`). */
  datatype DwFont = DwFont(faceName: string, familyName: string, weight: FontWeight, style: FontStyle,
                           stretch: nat, face: FontFace)

  /** The cached font: the face and what fallback needs to know of it. */
  datatype Font = Font(face: FontFace, familyName: string, weight: FontWeight, style: FontStyle, stretch: nat)

  /** `From<dwrote::Font> for Font`. */
  function FontOf(d: DwFont): (f: Font)
    ensures f.face == d.face && f.familyName == d.familyName
  {
    Font(d.face, d.familyName, d.weight, d.style, d.stretch)
  }

  /**
   * A font family: its fonts by index, and the font DirectWrite picks as
   * the best match for a weight and style at normal stretch.
   */
  datatype Family = Family(fonts: seq<DwFont>, firstMatching: (FontWeight, FontStyle) -> DwFont)

  /** The bounds and bytes of a rendered alpha texture. */
  datatype Texture = Texture(left: int, top: int, right: int, bottom: int, alpha: seq<byte>)

  /**
   * The `Specific` search of `load_font`: the first index whose face name is
   * the style, or the font count when there is none.
   */
  method FindFaceNamed(fonts: seq<DwFont>, style: string) returns (idx: nat)
    ensures idx <= |fonts|
    ensures forall t :: 0 <= t < idx ==> fonts[t].faceName != style
    ensures idx < |fonts| ==> fonts[idx].faceName == style
  {
    idx := 0;
    while idx < |fonts| && fonts[idx].faceName != style
      invariant 0 <= idx <= |fonts|
      invariant forall t :: 0 <= t < idx ==> fonts[t].faceName != style
    {
      idx := idx + 1;
    }
  }

  /**
   * `DirectWriteRasterizer`: loaded fonts by key and keys by descriptor.
   * `collection` is the system font collection by family name, `fallback`
   * the system fallback's font for a loaded font and a character (none
   * when there is no system fallback), and `render` the alpha texture of a
   * glyph of a face at a size, or the error DirectWrite reports.
   */
  class DirectWriteRasterizer {
    var fonts: map<FontKey, Font>
    var keys: map<FontDesc, FontKey>
    const textureType: TextureType
    const collection: map<string, Family>
    const fallback: (Font, char) -> Option<DwFont>
    const render: (FontFace, Size, char, nat) -> Result<Texture, Error>
    const allocator: KeyAllocator

    /** Every cached key names a loaded font, and every loaded key was issued. */
    ghost predicate Valid()
      reads this, allocator
    {
      allocator.Valid()
      && (forall d :: d in keys ==> keys[d] in fonts)
      && fonts.Keys <= allocator.issued
    }

    constructor (useSmoothing: int, collection: map<string, Family>, fallback: (Font, char) -> Option<DwFont>,
                 render: (FontFace, Size, char, nat) -> Result<Texture, Error>, allocator: KeyAllocator)
      requires allocator.Valid()
      ensures Valid()
      ensures fonts == map[] && keys == map[]
      ensures textureType == TextureTypeFor(useSmoothing)
      ensures this.collection == collection && this.allocator == allocator
    {
      fonts := map[];
      keys := map[];
      textureType := TextureTypeFor(useSmoothing);
      this.collection := collection;
      this.fallback := fallback;
      this.render := render;
      this.allocator := allocator;
    }

    /**
     * `load_font`.  A known descriptor returns its key and changes nothing,
     * whatever the size.  Otherwise the family must exist; a `Description`
     * takes the family's best match, a `Specific` style the first font whose
     * face name is the style, and fails after trying every font.  On
     * success a new key maps the descriptor and the font.
     */
    method LoadFont(desc: FontDesc, size: Size) returns (r: Result<FontKey, Error>)
      requires Valid()
      modifies this, allocator
      ensures Valid()
      ensures desc in old(keys) ==>
                r == Ok(old(keys)[desc]) && keys == old(keys) && fonts == old(fonts)
                && allocator.next == old(allocator.next)
      ensures desc !in old(keys) && desc.name !in collection ==>
                r == Err(FontNotFound(desc)) && keys == old(keys) && fonts == old(fonts)
      ensures desc !in old(keys) && desc.name in collection && desc.style.Specific?
              && (forall t :: 0 <= t < |collection[desc.name].fonts| ==>
                    collection[desc.name].fonts[t].faceName != desc.style.name) ==>
                r == Err(FontNotFound(desc)) && keys == old(keys) && fonts == old(fonts)
      ensures desc !in old(keys) && r.Ok? ==>
                desc.name in collection
                && r.value == TokenOf(old(allocator.next))
                && keys == old(keys)[desc := r.value]
                && (var family := collection[desc.name];
                    if desc.style.Description? then
                      fonts == old(fonts)[r.value := FontOf(family.firstMatching(ToFontWeight(desc.style.weight), ToFontStyle(desc.style.slant)))]
                    else
                      exists i :: 0 <= i < |family.fonts|
                        && family.fonts[i].faceName == desc.style.name
                        && (forall t :: 0 <= t < i ==> family.fonts[t].faceName != desc.style.name)
                        && fonts == old(fonts)[r.value := FontOf(family.fonts[i])])
      ensures desc !in old(keys) && r.Ok? && old(allocator.next) < U32_MODULUS ==> r.value !in old(fonts)
      ensures desc !in old(keys) && r.Err? ==>
                r == Err(FontNotFound(desc)) && allocator.next == old(allocator.next)
                && (desc.name !in collection
                    || (desc.style.Specific?
                        && forall t :: 0 <= t < |collection[desc.name].fonts| ==>
                             collection[desc.name].fonts[t].faceName != desc.style.name))
    {
      if desc in keys {
        return Ok(keys[desc]);
      }
      if desc.name !in collection {
        return Err(FontNotFound(desc));
      }
      var family := collection[desc.name];
      var font: DwFont;
      match desc.style {
        case Description(slant, weight) =>
          font := family.firstMatching(ToFontWeight(weight), ToFontStyle(slant));
        case Specific(style) =>
          var idx := FindFaceNamed(family.fonts, style);
          if idx == |family.fonts| {
            return Err(FontNotFound(desc));
          }
          font := family.fonts[idx];
      }
      var key := allocator.Next();
      keys := keys[desc := key];
      fonts := fonts[key := FontOf(font)];
      r := Ok(key);
    }

    /**
     * The glyph `rasterize_glyph` produces: DirectWrite's error, or the
     * texture's bounds with its bytes normalized for the texture type.
     */
    function Rendered(face: FontFace, size: Size, c: char, index: nat): Result<RasterizedGlyph, Error> {
      match render(face, size, c, index)
      case Err(e) => Err(e)
      case Ok(t) =>
        var bytes := if textureType == ClearType3x1 then t.alpha else Triple(t.alpha);
        Ok(RasterizedGlyph(c, t.right - t.left, t.bottom - t.top, -t.top, t.left, (0, 0), Rgb(bytes)))
    }

    /** `rasterize_glyph`: the texture's bounds and its bytes, normalized to RGB. */
    method RasterizeGlyph(face: FontFace, size: Size, c: char, index: nat) returns (r: Result<RasterizedGlyph, Error>)
      ensures r == Rendered(face, size, c, index)
      ensures render(face, size, c, index).Err? ==> r == Err(render(face, size, c, index).error)
      ensures render(face, size, c, index).Ok? ==>
                var t := render(face, size, c, index).value;
                r.Ok? && r.value.character == c
                && r.value.width == t.right - t.left && r.value.height == t.bottom - t.top
                && r.value.top == -t.top && r.value.left == t.left
                && r.value.buffer.Rgb?
                && r.value.buffer.bytes == (if textureType == ClearType3x1 then t.alpha else Triple(t.alpha))
    {
      var texture := render(face, size, c, index);
      if texture.Err? {
        return Err(texture.error);
      }
      var t := texture.value;
      var buffer := NormalizeBuffer(textureType, t.alpha);
      r := Ok(RasterizedGlyph(c, t.right - t.left, t.bottom - t.top, -t.top, t.left, (0, 0), Rgb(buffer)));
    }

    /**
     * The face and glyph index `get_glyph` renders: the loaded font's own
     * glyph, or, only when it is missing and the system fallback offers a
     * font, that font's glyph (which may be missing too).
     */
    function Selection(primary: Font, c: char): (s: (FontFace, nat))
      reads this
      ensures CharIndex(primary.face.glyphs, c) != MISSING_GLYPH_INDEX ==> s == (primary.face, CharIndex(primary.face.glyphs, c))
      ensures CharIndex(primary.face.glyphs, c) == MISSING_GLYPH_INDEX && fallback(primary, c).None? ==> s == (primary.face, MISSING_GLYPH_INDEX)
      ensures CharIndex(primary.face.glyphs, c) == MISSING_GLYPH_INDEX && fallback(primary, c).Some? ==>
                s == (fallback(primary, c).value.face, CharIndex(fallback(primary, c).value.face.glyphs, c))
    {
      var index := CharIndex(primary.face.glyphs, c);
      if index == MISSING_GLYPH_INDEX && fallback(primary, c).Some? then
        var fb := FontOf(fallback(primary, c).value);
        (fb.face, CharIndex(fb.face.glyphs, c))
      else (primary.face, index)
    }

    /**
     * `get_glyph`: an unknown key is an error; otherwise the selected glyph
     * is rendered, and that rendering is reported missing exactly when its
     * index is 0.
     */
    method GetGlyph(g: GlyphKey) returns (r: Result<RasterizedGlyph, Error>)
      ensures g.fontKey !in fonts ==> r == Err(UnknownFontKey)
      ensures g.fontKey in fonts ==>
                var (face, index) := Selection(fonts[g.fontKey], g.character);
                (render(face, g.size, g.character, index).Err? ==> r == Err(render(face, g.size, g.character, index).error))
                && (render(face, g.size, g.character, index).Ok? ==>
                      (index == MISSING_GLYPH_INDEX <==> r.Err? && r.error.MissingGlyph?)
                      && (r.Ok? || r.error.MissingGlyph?))
                && (Rendered(face, g.size, g.character, index).Ok? ==>
                      var glyph := Rendered(face, g.size, g.character, index).value;
                      r == (if index == MISSING_GLYPH_INDEX then Err(MissingGlyph(glyph)) else Ok(glyph)))
    {
      if g.fontKey !in fonts {
        return Err(UnknownFontKey);
      }
      var loaded := fonts[g.fontKey];
      var face := loaded.face;
      var index := CharIndex(loaded.face.glyphs, g.character);
      if index == MISSING_GLYPH_INDEX {
        var fb := fallback(loaded, g.character);
        if fb.Some? {
          var fallbackFont := FontOf(fb.value);
          index := CharIndex(fallbackFont.face.glyphs, g.character);
          face := fallbackFont.face;
        }
      }
      var rasterized := RasterizeGlyph(face, g.size, g.character, index);
      if rasterized.Err? {
        return Err(rasterized.error);
      }
      if index == MISSING_GLYPH_INDEX {
        r := Err(MissingGlyph(rasterized.value));
      } else {
        r := Ok(rasterized.value);
      }
    }
  }
}
