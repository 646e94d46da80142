/**
 * The FreeType backend's per-face loading properties (src/ft/mod.rs,
 * `FreeTypeLoader::ft_load_flags`, `ft_render_mode` and `ft_lcd_filter`):
 * decision tables from the Fontconfig properties of a matched pattern to
 * FreeType's load flags, render mode and LCD filter.
 *
 * A Fontconfig pattern is a native object; it is modelled as the values the
 * code reads from it, each absent or present (`pattern.x().next()`).
 */
module FtProps {
  import opened Wrappers
  import Crossfont
  import Fc

  /** Where a face lives: a font file and the face's index inside it. */
  datatype Location = Location(path: string, index: int)

  /**
   * The properties of a Fontconfig pattern that the FreeType backend reads.
   * `charset` is the set of characters the pattern claims to cover, `hash`
   * is Fontconfig's 32-bit pattern hash.
   */
  datatype Pattern = Pattern(
    antialias: Option<bool>,
    autohint: Option<bool>,
    hinting: Option<bool>,
    rgba: Option<Fc.Rgba>,
    embeddedBitmap: Option<bool>,
    scalable: Option<bool>,
    color: Option<bool>,
    hintStyle: Option<Fc.HintStyle>,
    lcdFilter: Option<Fc.LcdFilter>,
    embolden: Option<bool>,
    charset: Option<set<char>>,
    location: Option<Location>,
    hash: Crossfont.u32)

  /** FreeType's render modes (`FT_Render_Mode`), in their numeric order. */
  datatype RenderMode = Normal | Light | Mono | Lcd | LcdV

  /**
   * A set of `FT_LOAD_*` flags, as the flags the backend can set:
   * `NO_HINTING` (bit 1), `NO_BITMAP` (bit 3), `FORCE_AUTOHINT` (bit 5),
   * `MONOCHROME` (bit 12), `COLOR` (bit 20) and the hinting target
   * `FT_LOAD_TARGET_(mode)` in bits 16..19, where `TARGET_NORMAL` is zero.
   */
  datatype LoadFlags = LoadFlags(
    noHinting: bool,
    noBitmap: bool,
    forceAutohint: bool,
    monochrome: bool,
    color: bool,
    target: RenderMode)

  /** `FT_LOAD_DEFAULT`: no flag set, the normal target. */
  const DEFAULT := LoadFlags(false, false, false, false, false, Normal)

  /** `FT_LOAD_TARGET_(mode)`. */
  function Target(m: RenderMode): (f: LoadFlags)
    ensures f == DEFAULT.(target := m)
  {
    LoadFlags(false, false, false, false, false, m)
  }

  /** `a | b`. */
  function Or(a: LoadFlags, b: LoadFlags): (f: LoadFlags)
    requires a.target == Normal || b.target == Normal
  {
    LoadFlags(
      a.noHinting || b.noHinting,
      a.noBitmap || b.noBitmap,
      a.forceAutohint || b.forceAutohint,
      a.monochrome || b.monochrome,
      a.color || b.color,
      if a.target == Normal then b.target else a.target)
  }

  /** The properties with the defaults the backend applies when one is absent. */
  function Antialias(p: Pattern): bool { p.antialias.GetOr(true) }
  function Autohint(p: Pattern): bool { p.autohint.GetOr(false) }
  function Hinting(p: Pattern): bool { p.hinting.GetOr(true) }
  function Subpixel(p: Pattern): Fc.Rgba { p.rgba.GetOr(Fc.Unknown) }
  function EmbeddedBitmaps(p: Pattern): bool { p.embeddedBitmap.GetOr(true) }
  function Scalable(p: Pattern): bool { p.scalable.GetOr(true) }
  function Color(p: Pattern): bool { p.color.GetOr(false) }
  function Embolden(p: Pattern): bool { p.embolden.GetOr(false) }

  /** The hint style in effect: none at all when hinting is disabled, full when unset. */
  function EffectiveHintStyle(p: Pattern): (h: Fc.HintStyle)
    ensures !Hinting(p) ==> h == Fc.HintStyle.None
    ensures Hinting(p) && p.hintStyle.None? ==> h == Fc.Full
  {
    if Hinting(p) then p.hintStyle.GetOr(Fc.Full) else Fc.HintStyle.None
  }

  /** Whether a subpixel geometry is horizontal (RGB or BGR) or vertical. */
  predicate Horizontal(r: Fc.Rgba) { r == Fc.Rgb || r == Fc.Bgr }
  predicate Vertical(r: Fc.Rgba) { r == Fc.Vrgb || r == Fc.Vbgr }

  /**
   * The hinting target: monochrome hinting without antialiasing, LCD hinting
   * only for full hinting on a subpixel geometry, light hinting for `slight`,
   * and the default algorithm otherwise.  Hinting disabled has no target
   * (`FT_LOAD_TARGET_NORMAL` is zero).
   */
  function HintTarget(antialias: bool, hint: Fc.HintStyle, rgba: Fc.Rgba): RenderMode {
    if hint == Fc.HintStyle.None then Normal
    else if !antialias then Mono
    else if hint == Fc.Slight then Light
    else if hint == Fc.Full && Horizontal(rgba) then Lcd
    else if hint == Fc.Full && Vertical(rgba) then LcdV
    else Normal
  }

  /** The `match (antialias, hintstyle, rgba)` that seeds the flags. */
  function BaseFlags(antialias: bool, hint: Fc.HintStyle, rgba: Fc.Rgba): (flags: LoadFlags)
    ensures flags.monochrome <==> !antialias
    ensures flags.noHinting <==> hint == Fc.HintStyle.None
    ensures !flags.noBitmap && !flags.forceAutohint && !flags.color
    ensures flags.target == HintTarget(antialias, hint, rgba)
  {
    match (antialias, hint, rgba)
    case (false, None, _) => DEFAULT.(noHinting := true, monochrome := true)
    case (false, _, _) => Target(Mono).(monochrome := true)
    case (true, None, _) => DEFAULT.(noHinting := true)
    case (true, Slight, _) => Target(Light)
    case (true, Medium, _) => Target(Normal)
    case (true, Full, Rgb) => Target(Lcd)
    case (true, Full, Bgr) => Target(Lcd)
    case (true, Full, Vrgb) => Target(LcdV)
    case (true, Full, Vbgr) => Target(LcdV)
    case (true, Full, _) => Target(Normal)
  }

  /**
   * `ft_load_flags`: the base flags, plus `NO_BITMAP` when embedded bitmaps
   * are disabled for a scalable, uncoloured font, `COLOR` for colour fonts
   * and `FORCE_AUTOHINT` when autohinting is requested.
   */
  function FtLoadFlags(p: Pattern): (flags: LoadFlags)
    ensures flags.monochrome <==> !Antialias(p)
    ensures flags.noHinting <==> EffectiveHintStyle(p) == Fc.HintStyle.None
    ensures flags.noBitmap <==> !EmbeddedBitmaps(p) && Scalable(p) && !Color(p)
    ensures flags.color <==> Color(p)
    ensures flags.forceAutohint <==> Autohint(p)
    ensures flags.target == HintTarget(Antialias(p), EffectiveHintStyle(p), Subpixel(p))
  {
    var color := Color(p);
    var flags := BaseFlags(Antialias(p), EffectiveHintStyle(p), Subpixel(p));
    var flags := if !EmbeddedBitmaps(p) && Scalable(p) && !color then Or(flags, DEFAULT.(noBitmap := true)) else flags;
    var flags := if color then Or(flags, DEFAULT.(color := true)) else flags;
    if Autohint(p) then Or(flags, DEFAULT.(forceAutohint := true)) else flags
  }

  /** `ft_render_mode`: monochrome without antialiasing, else by subpixel geometry. */
  function RenderModeFor(p: Pattern): (m: RenderMode)
    ensures m == Mono <==> !Antialias(p)
    ensures m == Lcd <==> Antialias(p) && Horizontal(Subpixel(p))
    ensures m == LcdV <==> Antialias(p) && Vertical(Subpixel(p))
    ensures m != Light
  {
    match (Antialias(p), Subpixel(p))
    case (false, _) => Mono
    case (_, Rgb) => Lcd
    case (_, Bgr) => Lcd
    case (_, Vrgb) => LcdV
    case (_, Vbgr) => LcdV
    case (true, _) => Normal
  }

  /**
   * With full hinting the hinting target agrees with the render mode, so LCD
   * hinting is used exactly when LCD rendering is; with antialiasing off the
   * two agree whenever hinting is enabled.
   */
  lemma {:induction false} HintTargetMatchesRenderMode(p: Pattern)
    ensures EffectiveHintStyle(p) == Fc.Full ==> HintTarget(Antialias(p), EffectiveHintStyle(p), Subpixel(p)) == RenderModeFor(p)
    ensures !Antialias(p) && EffectiveHintStyle(p) != Fc.HintStyle.None ==> HintTarget(Antialias(p), EffectiveHintStyle(p), Subpixel(p)) == RenderModeFor(p)
    ensures Antialias(p) && EffectiveHintStyle(p) == Fc.Slight ==> HintTarget(Antialias(p), EffectiveHintStyle(p), Subpixel(p)) != RenderModeFor(p)
  {
  }

  /** `FT_LCD_FILTER_*` values of the filters. */
  function LcdFilterCode(f: Fc.LcdFilter): (c: nat)
    ensures c == 0 <==> f == Fc.LcdFilter.None
    ensures c == 16 <==> f == Fc.Legacy
  {
    match f
    case None => 0
    case Default => 1
    case Light => 2
    case Legacy => 16
  }

  /** `ft_lcd_filter`: the pattern's filter, `Default` when unset. */
  function LcdFilterFor(p: Pattern): (c: nat)
    ensures p.lcdFilter.None? ==> c == 1
    ensures p.lcdFilter.Some? ==> c == LcdFilterCode(p.lcdFilter.value)
  {
    LcdFilterCode(p.lcdFilter.GetOr(Fc.Default))
  }

  /** Distinct filters get distinct FreeType values. */
  lemma {:induction false} LcdFilterCodeInjective(f: Fc.LcdFilter, g: Fc.LcdFilter)
    ensures LcdFilterCode(f) == LcdFilterCode(g) ==> f == g
  {
  }
}
