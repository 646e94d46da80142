/**
 * Fontconfig enumerations (src/ft/fc/mod.rs): the integer codecs of the
 * subpixel geometry `Rgba` and of `Width`, and the display names of `Rgba`,
 * `HintStyle` and `LcdFilter`.
 */
module Fc {

  /** Rust `isize` on a 64-bit target. */
  newtype isize = x: int | -0x8000_0000_0000_0000 <= x < 0x8000_0000_0000_0000

  /** Rust `i32`, the payload of `Width::Other`. */
  newtype i32 = x: int | -0x8000_0000 <= x < 0x8000_0000

  /** Subpixel geometry. */
  datatype Rgba = Unknown | Rgb | Bgr | Vrgb | Vbgr | None

  /** `Rgba::from(isize)`: 1..=5 name a geometry, everything else is `Unknown`. */
  function RgbaFromIsize(v: isize): (r: Rgba)
    ensures r == Unknown <==> !(1 <= v <= 5)
    ensures r == Rgb <==> v == 1
    ensures r == Vbgr <==> v == 4
  {
    match v
    case 1 => Rgb
    case 2 => Bgr
    case 3 => Vrgb
    case 4 => Vbgr
    case 5 => Rgba.None
    case _ => Unknown
  }

  /** `Rgba::to_isize`, the inverse of `Rgba::from` on every variant. */
  function RgbaToIsize(r: Rgba): (v: isize)
    ensures 0 <= v <= 5
    ensures RgbaFromIsize(v) == r
    ensures v == 0 <==> r == Unknown
  {
    match r
    case Unknown => 0
    case Rgb => 1
    case Bgr => 2
    case Vrgb => 3
    case Vbgr => 4
    case None => 5
  }

  /** Two geometries with the same integer are the same geometry. */
  lemma {:induction false} RgbaToIsizeInjective(a: Rgba, b: Rgba)
    ensures RgbaToIsize(a) == RgbaToIsize(b) ==> a == b
  {
  }

  /** Font width class. */
  datatype Width =
    | Ultracondensed
    | Extracondensed
    | Condensed
    | Semicondensed
    | Normal
    | Semiexpanded
    | Expanded
    | Extraexpanded
    | Ultraexpanded
    | Other(value: i32)

  /** The integers that name a width class. */
  predicate IsNamedWidth(v: int) {
    v == 50 || v == 63 || v == 75 || v == 87 || v == 100
    || v == 113 || v == 125 || v == 150 || v == 200
  }

  /** `as i32` on an `isize`: keep the low 32 bits, two's complement. */
  function WrapI32(v: isize): (w: i32)
    ensures -0x8000_0000 <= v < 0x8000_0000 ==> w as int == v as int
    ensures (w as int - v as int) % 0x1_0000_0000 == 0
  {
    var low := (v as int) % 0x1_0000_0000;
    (if low >= 0x8000_0000 then low - 0x1_0000_0000 else low) as i32
  }

  /** `Width::from(isize)`: the nine named classes, otherwise `Other` of the truncated value. */
  function WidthFromIsize(v: isize): (w: Width)
    ensures IsNamedWidth(v as int) <==> !w.Other?
    ensures w.Other? ==> w.value == WrapI32(v)
  {
    match v
    case 50 => Ultracondensed
    case 63 => Extracondensed
    case 75 => Condensed
    case 87 => Semicondensed
    case 100 => Normal
    case 113 => Semiexpanded
    case 125 => Expanded
    case 150 => Extraexpanded
    case 200 => Ultraexpanded
    case _ => Other(WrapI32(v))
  }

  /**
   * `Width::to_isize`. `Width::from` inverts it on every named class, and on
   * `Other(v)` whenever v is not itself one of the named integers.
   */
  function WidthToIsize(w: Width): (v: isize)
    ensures w.Other? ==> v as int == w.value as int
    ensures !w.Other? ==> IsNamedWidth(v as int)
    ensures !w.Other? || !IsNamedWidth(w.value as int) ==> WidthFromIsize(v) == w
  {
    match w
    case Ultracondensed => 50
    case Extracondensed => 63
    case Condensed => 75
    case Semicondensed => 87
    case Normal => 100
    case Semiexpanded => 113
    case Expanded => 125
    case Extraexpanded => 150
    case Ultraexpanded => 200
    case Other(value) => value as isize
  }

  /** An `Other` carrying a named integer does not survive the round trip: it comes back named. */
  lemma {:induction false} WidthOtherCollapses(v: i32)
    requires IsNamedWidth(v as int)
    ensures WidthFromIsize(WidthToIsize(Other(v))) != Other(v)
  {
  }

  /** The named classes from narrowest to widest. */
  const NamedWidths: seq<Width> := [
    Ultracondensed, Extracondensed, Condensed, Semicondensed, Normal,
    Semiexpanded, Expanded, Extraexpanded, Ultraexpanded]

  /** `to_isize` is strictly increasing along the named classes. */
  lemma {:induction false} WidthToIsizeIncreasing(i: nat, j: nat)
    requires i < j < |NamedWidths|
    ensures WidthToIsize(NamedWidths[i]) < WidthToIsize(NamedWidths[j])
  {
  }

  /** Hinting style. */
  datatype HintStyle = None | Slight | Medium | Full

  /** Filter that reduces colour fringing of subpixel rendering. */
  datatype LcdFilter = None | Default | Light | Legacy

  /** `Display` for `Rgba`. */
  function RgbaName(r: Rgba): string {
    match r
    case Unknown => "unknown"
    case Rgb => "rgb"
    case Bgr => "bgr"
    case Vrgb => "vrgb"
    case Vbgr => "vbgr"
    case None => "none"
  }

  /** `Display` for `HintStyle`. */
  function HintStyleName(h: HintStyle): string {
    match h
    case None => "none"
    case Slight => "slight"
    case Medium => "medium"
    case Full => "full"
  }

  /** `Display` for `LcdFilter`. */
  function LcdFilterName(f: LcdFilter): string {
    match f
    case None => "none"
    case Default => "default"
    case Light => "light"
    case Legacy => "legacy"
  }

  /** Within each enumeration, the display names are pairwise distinct. */
  lemma {:induction false} DisplayNamesDistinct(r1: Rgba, r2: Rgba, h1: HintStyle, h2: HintStyle, f1: LcdFilter, f2: LcdFilter)
    ensures RgbaName(r1) == RgbaName(r2) ==> r1 == r2
    ensures HintStyleName(h1) == HintStyleName(h2) ==> h1 == h2
    ensures LcdFilterName(f1) == LcdFilterName(f2) ==> f1 == f2
  {
  }
}
