/**
 * The CoreText backend (src/darwin/mod.rs): UTF-16 glyph lookup, the
 * fallback list a font is built with, the searches for a face of a family,
 * the font cache keyed by descriptor and scaled size, and the choice of the
 * first font of the fallback chain that has a glyph.
 *
 * CoreText is observed through data: the descriptors installed for each
 * family, Menlo's cascade list for English, and per font its character
 * lookup, traits and the bitmap a glyph draws to.
 */
module Darwin {
  import opened Wrappers
  import opened Crossfont
  import ByteOrder
  import Pixels

  // ---------------------------------------------------------------------
  // UTF-16
  // ---------------------------------------------------------------------

  newtype u16 = x: int | 0 <= x < 0x1_0000

  predicate IsHighSurrogate(u: u16) { 0xD800 <= u as int < 0xDC00 }
  predicate IsLowSurrogate(u: u16) { 0xDC00 <= u as int < 0xE000 }

  /** `char::encode_utf16`: one unit in the basic plane, a surrogate pair above it. */
  function EncodeUtf16(c: char): (units: seq<u16>)
    ensures |units| == 1 <==> (c as int) < 0x1_0000
    ensures |units| == 2 <==> (c as int) >= 0x1_0000
    ensures |units| == 2 ==> IsHighSurrogate(units[0]) && IsLowSurrogate(units[1])
    ensures |units| == 1 ==> !IsHighSurrogate(units[0]) && !IsLowSurrogate(units[0])
  {
    var v := c as int;
    if v < 0x1_0000 then [v as u16]
    else
      var u := v - 0x1_0000;
      [(0xD800 + u / 0x400) as u16, (0xDC00 + u % 0x400) as u16]
  }

  /** Decoding of one character's UTF-16 units. */
  function DecodeUtf16(units: seq<u16>): Option<char> {
    if |units| == 1 && !IsHighSurrogate(units[0]) && !IsLowSurrogate(units[0]) then
      Some(units[0] as int as char)
    else if |units| == 2 && IsHighSurrogate(units[0]) && IsLowSurrogate(units[1]) then
      var v := 0x1_0000 + (units[0] as int - 0xD800) * 0x400 + (units[1] as int - 0xDC00);
      Some(v as char)
    else None
  }

  /** Decoding undoes encoding, so distinct characters have distinct encodings. */
  lemma {:induction false} Utf16RoundTrip(c: char, d: char)
    ensures DecodeUtf16(EncodeUtf16(c)) == Some(c)
    ensures EncodeUtf16(c) == EncodeUtf16(d) ==> c == d
  {
    assert DecodeUtf16(EncodeUtf16(c)) == Some(c) by {
      var v := c as int;
      if v >= 0x1_0000 {
        var u := v - 0x1_0000;
        assert u == (u / 0x400) * 0x400 + u % 0x400;
      }
    }
    assert DecodeUtf16(EncodeUtf16(d)) == Some(d) by {
      var v := d as int;
      if v >= 0x1_0000 {
        var u := v - 0x1_0000;
        assert u == (u / 0x400) * 0x400 + u % 0x400;
      }
    }
  }

  // ---------------------------------------------------------------------
  // Fonts
  // ---------------------------------------------------------------------

  /** The glyph index 0 is the missing glyph. */
  const MISSING_GLYPH_INDEX: nat := 0

  /**
   * What the backend observes of a CoreText font: for each UTF-16 sequence
   * that `CTFontGetGlyphsForCharacters` maps, the two glyph slots it fills;
   * its symbolic traits; and the bitmap a glyph draws to (left edge, top,
   * width, height and the context's bytes).
   */
  datatype CtFont = CtFont(
    lookup: map<seq<u16>, (u16, u16)>,
    bold: bool,
    italic: bool,
    colored: bool,
    draw: map<nat, Drawing>)

  datatype Drawing = Drawing(left: int, top: int, width: nat, height: nat, pixels: seq<byte>)

  /** `glyph_index_utf16`: the first glyph slot when the lookup succeeds, else 0. */
  function GlyphIndexUtf16(ct: CtFont, encoded: seq<u16>): (index: nat)
    ensures encoded in ct.lookup ==> index == ct.lookup[encoded].0 as nat
    ensures encoded !in ct.lookup ==> index == MISSING_GLYPH_INDEX
  {
    if encoded in ct.lookup then ct.lookup[encoded].0 as nat else MISSING_GLYPH_INDEX
  }

  /** `Font::glyph_index`: the lookup of the character's UTF-16 encoding. */
  function GlyphIndex(ct: CtFont, c: char): nat {
    GlyphIndexUtf16(ct, EncodeUtf16(c))
  }

  /** A font and the fonts tried after it for a missing glyph. */
  datatype Font = Font(ct: CtFont, fallbacks: seq<Font>)

  /** A font descriptor; `fontPath` is empty when CoreText reports none. */
  datatype Descriptor = Descriptor(
    familyName: string,
    fontName: string,
    styleName: string,
    displayName: string,
    fontPath: string,
    ct: CtFont)

  /**
   * The installed fonts: the descriptors of each family CoreText can
   * collect (a family whose collection has no descriptors maps to none),
   * and Menlo's cascade list for English.
   */
  datatype System = System(families: map<string, seq<Descriptor>>, cascade: seq<Descriptor>)

  /**
   * `descriptors_for_family`: the family's descriptors, or Menlo's when the
   * family is not installed (Menlo must be).
   */
  function DescriptorsForFamily(sys: System, family: string): seq<Descriptor>
    requires "Menlo" in sys.families
  {
    if family in sys.families then sys.families[family] else sys.families["Menlo"]
  }

  /** A font with no fallbacks of its own, as `to_font(size, false)` builds. */
  function Plain(d: Descriptor): (f: Font)
    ensures f.ct == d.ct && f.fallbacks == []
  {
    Font(d.ct, [])
  }

  /** The cascade fonts kept as fallbacks: those with a file path, in order. */
  function CascadeFonts(ds: seq<Descriptor>): (fs: seq<Font>)
    ensures |fs| <= |ds|
    ensures forall f :: f in fs ==> f.fallbacks == []
  {
    if ds == [] then []
    else
      var rest := CascadeFonts(ds[1..]);
      if ds[0].fontPath != "" then [Plain(ds[0])] + rest else rest
  }

  /** A cascade descriptor gives a fallback exactly when it has a file path. */
  lemma {:induction false} CascadeFontsMembers(ds: seq<Descriptor>, f: Font)
    ensures f in CascadeFonts(ds) <==> exists i :: 0 <= i < |ds| && ds[i].fontPath != "" && f == Plain(ds[i])
  {
    if ds != [] {
      CascadeFontsMembers(ds[1..], f);
      if exists i :: 0 <= i < |ds| && ds[i].fontPath != "" && f == Plain(ds[i]) {
        var i :| 0 <= i < |ds| && ds[i].fontPath != "" && f == Plain(ds[i]);
        if i > 0 {
          assert ds[1..][i - 1] == ds[i];
        }
      }
      if exists i :: 0 <= i < |ds[1..]| && ds[1..][i].fontPath != "" && f == Plain(ds[1..][i]) {
        var i :| 0 <= i < |ds[1..]| && ds[1..][i].fontPath != "" && f == Plain(ds[1..][i]);
        assert ds[i + 1] == ds[1..][i];
      }
    }
  }

  /** The first descriptor with a font name, or the count when none has it. */
  method FindFontNamed(ds: seq<Descriptor>, name: string) returns (i: nat)
    ensures i <= |ds|
    ensures forall t :: 0 <= t < i ==> ds[t].fontName != name
    ensures i < |ds| ==> ds[i].fontName == name
  {
    i := 0;
    while i < |ds| && ds[i].fontName != name
      invariant 0 <= i <= |ds|
      invariant forall t :: 0 <= t < i ==> ds[t].fontName != name
    {
      i := i + 1;
    }
  }

  /** The fallback list `to_font(size, true)` builds, with `menlo` the Menlo-Regular descriptor. */
  function FallbackList(sys: System, menlo: Descriptor): (fs: seq<Font>)
    requires "Menlo" in sys.families
    ensures |fs| >= 1 && fs[0] == Plain(menlo)
    ensures forall f :: f in fs ==> f.fallbacks == []
  {
    var symbols := DescriptorsForFamily(sys, "Apple Symbols");
    [Plain(menlo)] + CascadeFonts(sys.cascade) + (if |symbols| > 0 then [Plain(symbols[0])] else [])
  }

  /**
   * The fallbacks `to_font(size, true)` gives every font: none when
   * Menlo-Regular is not installed, else the list built from the first
   * Menlo descriptor named Menlo-Regular.
   */
  predicate BuiltFallbacks(sys: System, fallbacks: seq<Font>)
    requires "Menlo" in sys.families
  {
    var menlos := DescriptorsForFamily(sys, "Menlo");
    if forall t :: 0 <= t < |menlos| ==> menlos[t].fontName != "Menlo-Regular" then
      fallbacks == []
    else
      exists k :: 0 <= k < |menlos| && menlos[k].fontName == "Menlo-Regular"
        && (forall t :: 0 <= t < k ==> menlos[t].fontName != "Menlo-Regular")
        && fallbacks == FallbackList(sys, menlos[k])
  }

  /**
   * `Descriptor::to_font`.  Without fallbacks the font has none.  With
   * them, and when Menlo-Regular is installed, they are Menlo-Regular, then
   * the cascade fonts that have a file, then the first Apple Symbols font
   * (if that family has one); none of them has fallbacks of its own.
   */
  method ToFont(sys: System, d: Descriptor, loadFallbacks: bool) returns (f: Font)
    requires loadFallbacks ==> "Menlo" in sys.families
    ensures f.ct == d.ct
    ensures !loadFallbacks ==> f.fallbacks == []
    ensures loadFallbacks ==> BuiltFallbacks(sys, f.fallbacks)
    ensures forall g :: g in f.fallbacks ==> g.fallbacks == []
  {
    if !loadFallbacks {
      return Font(d.ct, []);
    }
    var menlos := DescriptorsForFamily(sys, "Menlo");
    var k := FindFontNamed(menlos, "Menlo-Regular");
    if k == |menlos| {
      return Font(d.ct, []);
    }
    var menlo := menlos[k];
    var fallbacks := CascadeFonts(sys.cascade);
    var symbols := DescriptorsForFamily(sys, "Apple Symbols");
    if |symbols| > 0 {
      fallbacks := fallbacks + [Plain(symbols[0])];
    }
    fallbacks := [Font(menlo.ct, [])] + fallbacks;
    f := Font(d.ct, fallbacks);
  }

  // ---------------------------------------------------------------------
  // Glyph choice
  // ---------------------------------------------------------------------

  /** The first font of a chain with a glyph for the character, or the chain's length. */
  function FirstWithGlyph(chain: seq<Font>, c: char): (i: nat)
    ensures i <= |chain|
    ensures forall t :: 0 <= t < i ==> GlyphIndex(chain[t].ct, c) == MISSING_GLYPH_INDEX
    ensures i < |chain| ==> GlyphIndex(chain[i].ct, c) != MISSING_GLYPH_INDEX
  {
    if chain == [] then 0
    else if GlyphIndex(chain[0].ct, c) != MISSING_GLYPH_INDEX then 0
    else 1 + FirstWithGlyph(chain[1..], c)
  }

  /**
   * The `find_map` of `get_glyph` over the font and then its fallbacks: the
   * first font with the glyph and its index, else the font itself with the
   * missing glyph.
   */
  function ChooseGlyph(font: Font, c: char): (choice: (Font, nat))
    ensures choice.1 == GlyphIndex(choice.0.ct, c) || choice == (font, MISSING_GLYPH_INDEX)
    ensures choice.1 == MISSING_GLYPH_INDEX <==>
              forall f :: f in [font] + font.fallbacks ==> GlyphIndex(f.ct, c) == MISSING_GLYPH_INDEX
    ensures GlyphIndex(font.ct, c) != MISSING_GLYPH_INDEX ==> choice == (font, GlyphIndex(font.ct, c))
  {
    var chain := [font] + font.fallbacks;
    var i := FirstWithGlyph(chain, c);
    if i < |chain| then (chain[i], GlyphIndex(chain[i].ct, c))
    else
      assert forall f :: f in chain ==> GlyphIndex(f.ct, c) == MISSING_GLYPH_INDEX by {
        forall f | f in chain
          ensures GlyphIndex(f.ct, c) == MISSING_GLYPH_INDEX
        {
          var t :| 0 <= t < |chain| && chain[t] == f;
        }
      }
      (font, MISSING_GLYPH_INDEX)
  }

  /** The blank glyph `Font::get_glyph` returns for an empty drawing. */
  function BlankGlyph(): (g: RasterizedGlyph)
    ensures g.character == ' ' && g.width == 0 && g.height == 0 && g.buffer == Rgb([])
  {
    RasterizedGlyph(' ', 0, 0, 0, 0, (0, 0), Rgb([]))
  }

  /**
   * The glyph `Font::get_glyph` produces: blank for a drawing with no area
   * (or no drawing), else the drawing's position and size with its pixels
   * in the canonical channel order.
   */
  function Drawn(font: Font, c: char, index: nat, bigEndian: bool): RasterizedGlyph {
    if index !in font.ct.draw then BlankGlyph()
    else
      var d := font.ct.draw[index];
      if d.width == 0 || d.height == 0 then BlankGlyph()
      else
        var buffer :=
          if font.ct.colored then Rgba(if bigEndian then ByteOrder.ExtractRgbaBeFixed(d.pixels) else Pixels.SwapRedBlue(d.pixels))
          else Rgb(if bigEndian then ByteOrder.ExtractRgbBe(d.pixels) else ByteOrder.DropAlpha(d.pixels));
        RasterizedGlyph(c, d.width, d.height, d.top, d.left, (0, 0), buffer)
  }

  /**
   * `Font::get_glyph`: a glyph with no area is blank; otherwise the drawn
   * pixels are extracted for the host byte order, RGBA for colour fonts and
   * RGB for the others.  A glyph index with no drawing draws nothing.
   */
  method RasterizeGlyph(font: Font, c: char, index: nat, bigEndian: bool) returns (g: RasterizedGlyph)
    ensures g == Drawn(font, c, index, bigEndian)
    ensures index !in font.ct.draw ==> g == BlankGlyph()
    ensures index in font.ct.draw ==>
              var d := font.ct.draw[index];
              if d.width == 0 || d.height == 0 then g == BlankGlyph()
              else
                g.character == c && g.left == d.left && g.top == d.top
                && g.width == d.width && g.height == d.height
                && (font.ct.colored ==> g.buffer == Rgba(if bigEndian then ByteOrder.ExtractRgbaBeFixed(d.pixels)
                                                         else Pixels.SwapRedBlue(d.pixels)))
                && (!font.ct.colored ==> g.buffer == Rgb(if bigEndian then ByteOrder.ExtractRgbBe(d.pixels)
                                                        else ByteOrder.DropAlpha(d.pixels)))
  {
    if index !in font.ct.draw {
      return BlankGlyph();
    }
    var d := font.ct.draw[index];
    if d.width == 0 || d.height == 0 {
      return BlankGlyph();
    }
    var buffer: BitmapBuffer;
    if font.ct.colored {
      var rgba: seq<byte>;
      if bigEndian {
        rgba := ByteOrder.ExtractRgbaBeFixed(d.pixels);
      } else {
        rgba := ByteOrder.ExtractRgbaLe(d.pixels);
      }
      buffer := Rgba(rgba);
    } else {
      var rgb: seq<byte>;
      if bigEndian {
        rgb := ByteOrder.ExtractRgbBe(d.pixels);
      } else {
        rgb := ByteOrder.ExtractRgbLe(d.pixels);
      }
      buffer := Rgb(rgb);
    }
    g := RasterizedGlyph(c, d.width, d.height, d.top, d.left, (0, 0), buffer);
  }

  // ---------------------------------------------------------------------
  // The rasterizer
  // ---------------------------------------------------------------------

  /**
   * The searches of `get_font`: for a `Specific` style the first descriptor
   * of the family with that style name, for a `Description` the first whose
   * font has the requested boldness and italicness (any slant but `Normal`
   * asks for italic).
   */
  predicate Wanted(d: Descriptor, style: Style) {
    match style
    case Specific(name) => d.styleName == name
    case Description(slant, weight) => d.ct.bold == (weight == Weight.Bold) && d.ct.italic == (slant != Slant.Normal)
  }

  /**
   * `Rasterizer`: loaded fonts by key, and keys by descriptor and scaled size.
   */
  class Rasterizer {
    var fonts: map<FontKey, Font>
    var keys: map<(FontDesc, Size), FontKey>
    const sys: System
    const bigEndian: bool
    const allocator: KeyAllocator

    ghost predicate Valid()
      reads this, allocator
    {
      allocator.Valid()
      && "Menlo" in sys.families
      && (forall k :: k in keys ==> keys[k] in fonts)
      && fonts.Keys <= allocator.issued
    }

    constructor (sys: System, bigEndian: bool, allocator: KeyAllocator)
      requires allocator.Valid() && "Menlo" in sys.families
      ensures Valid() && fonts == map[] && keys == map[]
      ensures this.sys == sys && this.allocator == allocator
    {
      fonts := map[];
      keys := map[];
      this.sys := sys;
      this.bigEndian := bigEndian;
      this.allocator := allocator;
    }

    /**
     * `get_specific_face` and `get_matching_face`: the font of the first
     * descriptor of the family that has the wanted style, built with its
     * fallbacks, or `FontNotFound`.  A `Specific` style is matched by name
     * before the font is built; a description is matched on the built font.
     */
    method GetFont(desc: FontDesc) returns (r: Result<Font, Error>)
      requires Valid()
      ensures r.Err? ==> r == Err(FontNotFound(desc))
      ensures var ds := DescriptorsForFamily(sys, desc.name);
              && ((forall t :: 0 <= t < |ds| ==> !Wanted(ds[t], desc.style)) <==> r == Err(FontNotFound(desc)))
              && (r.Ok? ==> exists i :: 0 <= i < |ds| && Wanted(ds[i], desc.style)
                               && (forall t :: 0 <= t < i ==> !Wanted(ds[t], desc.style))
                               && r.value.ct == ds[i].ct && BuiltFallbacks(sys, r.value.fallbacks))
    {
      var ds := DescriptorsForFamily(sys, desc.name);
      var i := 0;
      while i < |ds|
        invariant 0 <= i <= |ds|
        invariant forall t :: 0 <= t < i ==> !Wanted(ds[t], desc.style)
      {
        match desc.style {
          case Specific(style) =>
            if ds[i].styleName == style {
              var font := ToFont(sys, ds[i], true);
              return Ok(font);
            }
          case Description(slant, weight) =>
            var font := ToFont(sys, ds[i], true);
            if font.ct.bold == (weight == Weight.Bold) && font.ct.italic == (slant != Slant.Normal) {
              return Ok(font);
            }
        }
        i := i + 1;
      }
      r := Err(FontNotFound(desc));
    }

    /**
     * `load_font`, with the size already scaled by the device pixel ratio.
     * A known descriptor and size returns its key and inserts nothing;
     * otherwise the font is searched for and stored under a new key.
     */
    method LoadFont(desc: FontDesc, scaledSize: Size) returns (r: Result<FontKey, Error>)
      requires Valid()
      modifies this, allocator
      ensures Valid()
      ensures (desc, scaledSize) in old(keys) ==>
                r == Ok(old(keys)[(desc, scaledSize)]) && keys == old(keys) && fonts == old(fonts)
                && allocator.next == old(allocator.next)
      ensures (desc, scaledSize) !in old(keys) && r.Err? ==>
                r == Err(FontNotFound(desc)) && keys == old(keys) && fonts == old(fonts)
      ensures (desc, scaledSize) !in old(keys) && r.Ok? ==>
                r.value == TokenOf(old(allocator.next))
                && keys == old(keys)[(desc, scaledSize) := r.value]
                && r.value in fonts && fonts == old(fonts)[r.value := fonts[r.value]]
      ensures (desc, scaledSize) !in old(keys) && r.Ok? && old(allocator.next) < U32_MODULUS ==> r.value !in old(fonts)
      ensures (desc, scaledSize) !in old(keys) ==>
                var ds := DescriptorsForFamily(sys, desc.name);
                && (r.Err? <==> forall t :: 0 <= t < |ds| ==> !Wanted(ds[t], desc.style))
                && (r.Err? ==> allocator.next == old(allocator.next))
                && (r.Ok? ==> exists i :: 0 <= i < |ds| && Wanted(ds[i], desc.style)
                                 && (forall t :: 0 <= t < i ==> !Wanted(ds[t], desc.style))
                                 && fonts[r.value].ct == ds[i].ct && BuiltFallbacks(sys, fonts[r.value].fallbacks))
    {
      if (desc, scaledSize) in keys {
        return Ok(keys[(desc, scaledSize)]);
      }
      var font := GetFont(desc);
      if font.Err? {
        return Err(font.error);
      }
      var key := allocator.Next();
      fonts := fonts[key := font.value];
      keys := keys[(desc, scaledSize) := key];
      r := Ok(key);
    }

    /**
     * `get_glyph`: an unknown key is an error; otherwise the chosen font
     * draws the chosen glyph, which is reported missing exactly when no font
     * of the chain has it (the requested font then draws glyph 0).
     */
    method GetGlyph(g: GlyphKey) returns (r: Result<RasterizedGlyph, Error>)
      ensures g.fontKey !in fonts ==> r == Err(UnknownFontKey)
      ensures g.fontKey in fonts ==>
                var font := fonts[g.fontKey];
                (r.Err? <==> forall f :: f in [font] + font.fallbacks ==> GlyphIndex(f.ct, g.character) == MISSING_GLYPH_INDEX)
                && (r.Err? ==> r.error.MissingGlyph?)
      ensures g.fontKey in fonts && r.Ok? ==>
                var choice := ChooseGlyph(fonts[g.fontKey], g.character);
                choice.1 == GlyphIndex(choice.0.ct, g.character) != MISSING_GLYPH_INDEX
                && r.value == Drawn(choice.0, g.character, choice.1, bigEndian)
      ensures g.fontKey in fonts && r.Err? ==>
                r == Err(MissingGlyph(Drawn(fonts[g.fontKey], g.character, MISSING_GLYPH_INDEX, bigEndian)))
    {
      if g.fontKey !in fonts {
        return Err(UnknownFontKey);
      }
      var (font, index) := ChooseGlyph(fonts[g.fontKey], g.character);
      var glyph := RasterizeGlyph(font, g.character, index, bigEndian);
      if index == MISSING_GLYPH_INDEX {
        r := Err(MissingGlyph(glyph));
      } else {
        r := Ok(glyph);
      }
    }
  }
}
